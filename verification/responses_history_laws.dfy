/** What the native history promises: every preparation binds exactly, forgets only a
    suffix, and replays a whole conversation with each answer in its native form. */
module ResponsesHistoryLaws {
  import opened Wrappers
  import opened JsonItems
  import opened ResponsesBinding
  import opened ResponsesBindingLaws
  import opened ResponsesHistory
  import Text

  // ----- Bindings -----

  /** Where record `k - 1` ends: the boundary before record `k`. */
  function End(records: seq<Record>, k: nat): int
    requires k <= |records|
  {
    if k == 0 then 0 else records[k - 1].start + |records[k - 1].visible|
  }

  /** Record `k` names its own segment of `canonical` and the exact prefix before it,
      after the records before it. */
  ghost predicate BoundAt(canonical: seq<Item>, records: seq<Record>, k: nat)
    requires k < |records|
  {
    var r := records[k];
    && 0 <= End(records, k) <= r.start
    && r.start + |r.visible| <= |canonical|
    && canonical[r.start..r.start + |r.visible|] == r.visible
    && r.prefix == Of(canonical[..r.start])
  }

  ghost predicate Bound(canonical: seq<Item>, records: seq<Record>) {
    forall k :: 0 <= k < |records| ==> BoundAt(canonical, records, k)
  }

  lemma BoundEnds(canonical: seq<Item>, records: seq<Record>, k: nat)
    requires Bound(canonical, records) && k <= |records|
    ensures 0 <= End(records, k) <= |canonical|
    ensures k < |records| ==> End(records, k) <= records[k].start <= End(records, k + 1) <= |canonical|
  {
    if k > 0 {
      assert BoundAt(canonical, records, k - 1);
    }
    if k < |records| {
      assert BoundAt(canonical, records, k);
    }
  }

  lemma {:induction false} EndsIncrease(canonical: seq<Item>, records: seq<Record>, j: nat, k: nat)
    requires Bound(canonical, records) && j <= k <= |records|
    ensures 0 <= End(records, j) <= End(records, k) <= |canonical|
  {
    BoundEnds(canonical, records, k);
    if j < k {
      BoundEnds(canonical, records, k - 1);
      EndsIncrease(canonical, records, j, k - 1);
    }
  }

  /** `canonical` up to boundary `k`, with every bound segment in its native form. */
  ghost function Splice(canonical: seq<Item>, records: seq<Record>, k: nat): seq<Item>
    requires Bound(canonical, records) && k <= |records|
  {
    if k == 0 then []
    else
      BoundEnds(canonical, records, k - 1);
      Splice(canonical, records, k - 1) + canonical[End(records, k - 1)..records[k - 1].start] + records[k - 1].output
  }

  lemma {:induction false} SpliceFront(canonical: seq<Item>, records: seq<Record>, front: seq<Record>, k: nat)
    requires Bound(canonical, records) && Bound(canonical, front)
    requires k <= |front| && front <= records
    ensures End(front, k) == End(records, k)
    ensures Splice(canonical, front, k) == Splice(canonical, records, k)
  {
    if k > 0 {
      SpliceFront(canonical, records, front, k - 1);
    }
  }

  /** The conversation that the first `k` records were saved in: today's items with each
      kept segment back in its saved form. */
  ghost function AsSaved(canonical: seq<Item>, kept: seq<Record>, saved: seq<Record>, k: nat): seq<Item>
    requires Bound(canonical, kept) && k <= |kept| <= |saved|
  {
    if k == 0 then []
    else
      BoundEnds(canonical, kept, k - 1);
      AsSaved(canonical, kept, saved, k - 1)
      + canonical[End(kept, k - 1)..kept[k - 1].start]
      + NormalAll(saved[k - 1].visible)
  }

  lemma {:induction false} AsSavedFront(canonical: seq<Item>, front: seq<Record>, kept: seq<Record>,
      saved: seq<Record>, k: nat)
    requires Bound(canonical, front) && Bound(canonical, kept)
    requires k <= |front| && front <= kept && |kept| <= |saved|
    ensures AsSaved(canonical, front, saved, k) == AsSaved(canonical, kept, saved, k)
  {
    if k > 0 {
      AsSavedFront(canonical, front, kept, saved, k - 1);
    }
  }

  /** Kept record `k` is saved record `k` in today's coordinates: its start is as far behind
      the last record as it was saved, its fingerprint proves the conversation before it,
      and its segment is found right there. */
  ghost predicate RebasedAt(canonical: seq<Item>, kept: seq<Record>, saved: seq<Record>, k: nat)
    requires Bound(canonical, kept) && k < |kept| <= |saved|
  {
    BoundEnds(canonical, kept, k);
    && kept[k].output == saved[k].output
    && saved[k].start == |AsSaved(canonical, kept, saved, k)| + kept[k].start - End(kept, k)
    && saved[k].prefix == Of(AsSaved(canonical, kept, saved, k) + canonical[End(kept, k)..kept[k].start])
    && MatchVisible(canonical[kept[k].start..], NormalAll(saved[k].visible), saved[k].output) == Some(kept[k].visible)
  }

  ghost predicate Rebased(canonical: seq<Item>, kept: seq<Record>, saved: seq<Record>)
    requires Bound(canonical, kept)
  {
    |kept| <= |saved| && forall k :: 0 <= k < |kept| ==> RebasedAt(canonical, kept, saved, k)
  }

  /** Why the first dropped record had to go: the conversation before it has changed.
      Its start, read in saved coordinates, is the length of that conversation. */
  ghost predicate PrefixChanged(canonical: seq<Item>, kept: seq<Record>, saved: seq<Record>)
    requires Bound(canonical, kept) && |kept| < |saved|
  {
    var r, before := saved[|kept|], AsSaved(canonical, kept, saved, |kept|);
    var start := r.start - |before| + End(kept, |kept|);
    0 <= End(kept, |kept|) <= start <= |canonical| ==> r.prefix != Of(before + canonical[End(kept, |kept|)..start])
  }

  // ----- What every successful preparation returns -----

  ghost predicate ValidOutputs(records: seq<Record>, namespace: string) {
    forall i :: 0 <= i < |records| ==> records[i].output != [] && ValidOutput(records[i].output, namespace)
  }

  ghost predicate Faithful(canonical: seq<Item>, saved: seq<Record>, k: nat, s: Replay)
    requires k <= |saved|
  {
    && Bound(canonical, s.kept)
    && Rebased(canonical, s.kept, saved)
    && |s.kept| <= k
    && s.cursor == End(s.kept, |s.kept|)
    && s.input == Splice(canonical, s.kept, |s.kept|)
    && (s.pruned <==> |s.kept| < k)
    && (s.pruned ==> PrefixChanged(canonical, s.kept, saved))
    && (!s.pruned ==>
      && s.originalPrefix == AsSaved(canonical, s.kept, saved, |s.kept|)
      && s.originalCursor == |s.originalPrefix|)
  }

  lemma BoundAppend(canonical: seq<Item>, records: seq<Record>, next: Record)
    requires Bound(canonical, records)
    requires 0 <= End(records, |records|) <= next.start && next.start + |next.visible| <= |canonical|
    requires canonical[next.start..next.start + |next.visible|] == next.visible
    requires next.prefix == Of(canonical[..next.start])
    ensures Bound(canonical, records + [next])
    ensures End(records + [next], |records| + 1) == next.start + |next.visible|
  {
    var n, kept := |records|, records + [next];
    BoundEnds(canonical, records, n);
    forall k | 0 <= k < |kept| ensures BoundAt(canonical, kept, k) {
      assert k < n ==> BoundAt(canonical, records, k);
    }
  }

  /** The appended record is rebased, and the splice and the saved conversation grow by it. */
  lemma NextIsRebased(canonical: seq<Item>, saved: seq<Record>, s: Replay, next: Record)
    requires |s.kept| < |saved| && !s.pruned && Faithful(canonical, saved, |s.kept|, s)
    requires Bound(canonical, s.kept + [next])
    requires next.output == saved[|s.kept|].output
    requires s.cursor <= next.start <= |canonical|
    requires saved[|s.kept|].start == |s.originalPrefix| + next.start - s.cursor
    requires saved[|s.kept|].prefix == Of(s.originalPrefix + canonical[s.cursor..next.start])
    requires
      MatchVisible(canonical[next.start..], NormalAll(saved[|s.kept|].visible), next.output) == Some(next.visible)
    ensures var kept := s.kept + [next];
      && RebasedAt(canonical, kept, saved, |s.kept|)
      && Splice(canonical, kept, |kept|) == s.input + canonical[s.cursor..next.start] + next.output
      && AsSaved(canonical, kept, saved, |kept|) ==
         s.originalPrefix + canonical[s.cursor..next.start] + NormalAll(saved[|s.kept|].visible)
  {
    hide MatchVisible, NormalAll, BoundAt, Rebased;
    var n, kept := |s.kept|, s.kept + [next];
    SpliceFront(canonical, kept, s.kept, n);
    AsSavedFront(canonical, s.kept, kept, saved, n);
  }

  /** Appending one rebased record. */
  lemma FaithfulAppend(canonical: seq<Item>, saved: seq<Record>, s: Replay, next: Record)
    requires |s.kept| < |saved| && !s.pruned && Faithful(canonical, saved, |s.kept|, s)
    requires Bound(canonical, s.kept + [next])
    requires next.output == saved[|s.kept|].output
    requires s.cursor <= next.start <= |canonical|
    requires saved[|s.kept|].start == |s.originalPrefix| + next.start - s.cursor
    requires saved[|s.kept|].prefix == Of(s.originalPrefix + canonical[s.cursor..next.start])
    requires
      MatchVisible(canonical[next.start..], NormalAll(saved[|s.kept|].visible), next.output) == Some(next.visible)
    ensures var kept := s.kept + [next];
      && Rebased(canonical, kept, saved)
      && Splice(canonical, kept, |kept|) == s.input + canonical[s.cursor..next.start] + next.output
      && AsSaved(canonical, kept, saved, |kept|) ==
         s.originalPrefix + canonical[s.cursor..next.start] + NormalAll(saved[|s.kept|].visible)
  {
    hide MatchVisible, NormalAll, BoundAt, RebasedAt, AsSaved, Splice;
    var n, kept := |s.kept|, s.kept + [next];
    NextIsRebased(canonical, saved, s, next);
    forall k | 0 <= k < |kept| ensures RebasedAt(canonical, kept, saved, k) {
      if k < n {
        RebasedFront(canonical, s.kept, kept, saved, k);
      }
    }
  }

  lemma RebasedFront(canonical: seq<Item>, front: seq<Record>, kept: seq<Record>, saved: seq<Record>, k: nat)
    requires Bound(canonical, front) && Bound(canonical, kept) && front <= kept && |kept| <= |saved|
    requires k < |front| && RebasedAt(canonical, front, saved, k)
    ensures RebasedAt(canonical, kept, saved, k)
  {
    hide MatchVisible, NormalAll, BoundAt;
    AsSavedFront(canonical, front, kept, saved, k);
    SpliceFront(canonical, kept, front, k);
  }

  lemma ReplayOneIsFaithful(canonical: seq<Item>, namespace: string, saved: seq<Record>, k: nat, s: Replay)
    requires k < |saved| && InBounds(canonical, s) && Faithful(canonical, saved, k, s)
    requires ReplayOne(canonical, namespace, k, s, saved[k]).Ok?
    ensures Faithful(canonical, saved, k + 1, ReplayOne(canonical, namespace, k, s, saved[k]).value)
  {
    hide NormalAll, FirstProblem, BoundAt, RebasedAt, AsSaved, Splice, MatchVisible;
    var t := ReplayOne(canonical, namespace, k, s, saved[k]).value;
    if !t.pruned {
      var start := saved[k].start - s.originalCursor + s.cursor;
      var next := t.kept[k];
      assert next.visible <= canonical[start..];
      BoundAppend(canonical, s.kept, next);
      FaithfulAppend(canonical, saved, s, next);
    }
  }

  lemma {:induction false} ReplayIsFaithful(canonical: seq<Item>, namespace: string, records: seq<Record>, k: nat)
    requires k <= |records| && ReplayAll(canonical, namespace, records, k).Ok?
    ensures Faithful(canonical, records, k, ReplayAll(canonical, namespace, records, k).value)
    ensures ValidOutputs(ReplayAll(canonical, namespace, records, k).value.kept, namespace)
  {
    hide ReplayOne, Faithful, ValidOutput;
    if k == 0 {
      StartIsFaithful(canonical, records);
    } else {
      ReplayIsFaithful(canonical, namespace, records, k - 1);
      var s := ReplayAll(canonical, namespace, records, k - 1).value;
      ReplayOneIsFaithful(canonical, namespace, records, k - 1, s);
      ReplayOneKeepsOutputs(canonical, namespace, k - 1, s, records[k - 1]);
    }
  }

  lemma StartIsFaithful(canonical: seq<Item>, records: seq<Record>)
    ensures Faithful(canonical, records, 0, START)
  {
  }

  lemma ReplayOneKeepsOutputs(canonical: seq<Item>, namespace: string, index: nat, s: Replay, r: Record)
    requires InBounds(canonical, s) && ValidOutputs(s.kept, namespace)
    requires ReplayOne(canonical, namespace, index, s, r).Ok?
    ensures ValidOutputs(ReplayOne(canonical, namespace, index, s, r).value.kept, namespace)
  {
    hide MatchVisible, NormalAll;
  }

  /** A prepared history that later turns can build on. */
  ghost predicate WellBound(h: History) {
    var n := |h.records|;
    && IsNormal(h.canonical)
    && Bound(h.canonical, h.records)
    && ValidOutputs(h.records, h.options.namespace)
    && 0 <= End(h.records, n) <= |h.canonical|
    && h.input == Splice(h.canonical, h.records, n) + h.canonical[End(h.records, n)..]
    && !Text.Blank(h.options.kind) && !Text.Blank(h.options.id)
    && (h.responseID != "" ==> ValidResponseID(h.responseID) && n > 0)
    && h.continuationStart == if h.responseID != "" then End(h.records, n) else -1
  }

  /** Every success keeps exactly a rebased front of the saved records, drops the rest
      only because the conversation before it changed, and splices the kept ones in. */
  lemma PrepareKeepsBoundFront(options: Options, canonical: seq<Item>, previous: Option<State>)
    requires Prepared(options, canonical, previous).Ok?
    ensures var h, saved := Prepared(options, canonical, previous).value, SavedRecords(previous);
      && WellBound(h) && h.options == options && AllObjects(canonical)
      && h.canonical == NormalAll(canonical)
      && Rebased(h.canonical, h.records, saved)
      && (|h.records| < |saved| ==> PrefixChanged(h.canonical, h.records, saved))
      && h.responseID == if |h.records| < |saved| || saved == [] then "" else SavedID(previous)
  {
    hide Text.Blank, Rebased, Splice, PrefixChanged, Bound;
    var c, saved := NormalAll(canonical), SavedRecords(previous);
    ReplayIsFaithful(c, options.namespace, saved, |saved|);
    var s := ReplayAll(c, options.namespace, saved, |saved|).value;
    BoundEnds(c, s.kept, |s.kept|);
    assert IsNormal(c);
  }

  // ----- Preparing records that are bound to a known conversation -----

  /** `other` repeats `canonical` up to item `n`. */
  ghost predicate AgreeTo(canonical: seq<Item>, other: seq<Item>, n: int) {
    0 <= n <= |canonical| && n <= |other| && other[..n] == canonical[..n]
  }

  lemma SegmentsAgree(canonical: seq<Item>, other: seq<Item>, n: int, i: int, j: int)
    requires AgreeTo(canonical, other, n) && 0 <= i <= j <= n
    ensures AgreeTo(canonical, other, j)
    ensures other[i..j] == canonical[i..j]
    ensures canonical[j..n] <= other[j..]
    ensures canonical[..i] + canonical[i..j] == canonical[..j]
  {
    assert forall k :: 0 <= k < n ==> other[k] == other[..n][k] && canonical[k] == canonical[..n][k];
  }

  lemma SegmentExtends(canonical: seq<Item>, other: seq<Item>, n: int, segment: seq<Item>)
    requires AgreeTo(canonical, other, n) && segment <= canonical[n..]
    ensures AgreeTo(canonical, other, n + |segment|) <==> segment <= other[n..]
  {
    var end := n + |segment|;
    assert canonical[..n] + segment == canonical[..end];
    if segment <= other[n..] {
      assert other[..n] + segment == other[..end];
    }
    if AgreeTo(canonical, other, end) {
      SegmentsAgree(canonical, other, end, 0, n);
    }
  }

  /** One record whose prefix and segment are found as saved. */
  lemma ReplayOneExact(other: seq<Item>, namespace: string, index: nat, s: Replay, r: Record, start: nat)
    requires InBounds(other, s) && !s.pruned && CheckRecord(namespace, s.previousEnd, r).None?
    requires s.cursor <= start == r.start - s.originalCursor + s.cursor <= |other|
    requires r.prefix == Of(s.originalPrefix + other[s.cursor..start])
    requires IsNormal(r.visible) && r.visible <= other[start..]
    ensures ReplayOne(other, namespace, index, s, r) ==
      Ok(Replay(start + |r.visible|, r.start + |r.visible|, s.originalPrefix + other[s.cursor..start] + r.visible,
                s.input + other[s.cursor..start] + r.output,
                s.kept + [Record(start, Of(other[..start]), r.visible, r.output)],
                false, r.start + |r.visible|))
  {
    NormalFixpoint(r.visible);
  }

  /** One record whose prefix is found as saved, but not its segment. */
  lemma ReplayOneMismatch(other: seq<Item>, namespace: string, index: nat, s: Replay, r: Record, start: nat)
    requires InBounds(other, s) && !s.pruned && CheckRecord(namespace, s.previousEnd, r).None?
    requires s.cursor <= start == r.start - s.originalCursor + s.cursor <= |other|
    requires r.prefix == Of(s.originalPrefix + other[s.cursor..start])
    requires IsNormal(r.visible) && !(r.visible <= other[start..]) && !Regroups(other[start..], r.visible, r.output)
    ensures ReplayOne(other, namespace, index, s, r) == Err(Mismatch(index, start, |r.visible|, |other| - start))
  {
    hide Regroups, CheckRecord;
    NormalFixpoint(r.visible);
  }

  lemma BoundRecordChecks(canonical: seq<Item>, records: seq<Record>, namespace: string, k: nat)
    requires IsNormal(canonical) && |canonical| <= MAX_INT
    requires Bound(canonical, records) && ValidOutputs(records, namespace) && k < |records|
    ensures CheckRecord(namespace, End(records, k), records[k]).None?
    ensures IsNormal(records[k].visible)
  {
    assert BoundAt(canonical, records, k);
    var r := records[k];
    assert forall i :: 0 <= i < |r.visible| ==> r.visible[i] == canonical[r.start + i];
  }

  ghost function Agreed(canonical: seq<Item>, records: seq<Record>, k: nat): Replay
    requires Bound(canonical, records) && k <= |records|
  {
    BoundEnds(canonical, records, k);
    var end := End(records, k);
    Replay(end, end, canonical[..end], Splice(canonical, records, k), records[..k], false, end)
  }

  lemma {:induction false} ReplayAgreed(canonical: seq<Item>, other: seq<Item>, namespace: string,
      records: seq<Record>, k: nat)
    requires IsNormal(canonical) && |canonical| <= MAX_INT
    requires Bound(canonical, records) && ValidOutputs(records, namespace) && k <= |records|
    requires AgreeTo(canonical, other, End(records, k))
    ensures ReplayAll(other, namespace, records, k) == Ok(Agreed(canonical, records, k))
  {
    hide MatchVisible, FirstProblem, CheckRecord, ReplayOne, NormalAll;
    if k > 0 {
      var r, end, stop := records[k - 1], End(records, k - 1), End(records, k);
      BoundRecordChecks(canonical, records, namespace, k - 1);
      BoundEnds(canonical, records, k - 1);
      SegmentsAgree(canonical, other, stop, end, r.start);
      SegmentsAgree(canonical, other, stop, 0, end);
      ReplayAgreed(canonical, other, namespace, records, k - 1);
      assert BoundAt(canonical, records, k - 1);
      assert canonical[..r.start] + r.visible == canonical[..stop];
      ReplayOneExact(other, namespace, k - 1, Agreed(canonical, records, k - 1), r, r.start);
      assert records[..k - 1] + [r] == records[..k];
    }
  }

  /** Once pruned, a record only moves the end. */
  lemma ReplayOneAfterPrune(other: seq<Item>, namespace: string, index: nat, s: Replay, r: Record)
    requires InBounds(other, s) && s.pruned && CheckRecord(namespace, s.previousEnd, r).None?
    ensures ReplayOne(other, namespace, index, s, r) == Ok(s.(previousEnd := r.start + |r.visible|))
  {
    hide CheckRecord, NormalAll, MatchVisible;
  }

  predicate StoppedFrom(s: Replay, t: Replay) {
    t.pruned && t.cursor == s.cursor && t.kept == s.kept && t.input == s.input
  }

  /** The first record whose prefix is not found prunes. */
  lemma ReplayOneStops(other: seq<Item>, namespace: string, index: nat, s: Replay, r: Record, start: nat)
    requires InBounds(other, s) && !s.pruned && CheckRecord(namespace, s.previousEnd, r).None?
    requires s.cursor <= start == r.start - s.originalCursor + s.cursor
    requires start <= |other| ==> r.prefix != Of(s.originalPrefix + other[s.cursor..start])
    ensures var out := ReplayOne(other, namespace, index, s, r);
      out.Ok? && StoppedFrom(s, out.value) && out.value.previousEnd == r.start + |r.visible|
  {
    hide CheckRecord, NormalAll, MatchVisible;
  }

  ghost predicate PrunedAt(canonical: seq<Item>, records: seq<Record>, k: nat, n: nat, t: Replay)
    requires Bound(canonical, records) && k <= n <= |records|
  {
    && t.pruned
    && t.cursor == End(records, k) && t.kept == records[..k]
    && t.input == Splice(canonical, records, k)
    && t.previousEnd == End(records, n)
  }

  lemma {:induction false} ReplayPruned(canonical: seq<Item>, other: seq<Item>, namespace: string,
      records: seq<Record>, k: nat, n: nat)
    requires IsNormal(canonical) && |canonical| <= MAX_INT
    requires Bound(canonical, records) && ValidOutputs(records, namespace)
    requires k < n <= |records| && AgreeTo(canonical, other, End(records, k))
    requires !AgreeTo(canonical, other, records[k].start)
    ensures var out := ReplayAll(other, namespace, records, n);
      out.Ok? && PrunedAt(canonical, records, k, n, out.value)
    decreases n
  {
    hide MatchVisible, NormalAll, Splice, ReplayOne, CheckRecord, FirstProblem;
    BoundRecordChecks(canonical, records, namespace, n - 1);
    BoundEnds(canonical, records, n - 1);
    if k == n - 1 {
      ReplayAgreed(canonical, other, namespace, records, k);
      var end, start := End(records, k), records[k].start;
      assert BoundAt(canonical, records, k);
      if start <= |other| {
        PrefixDiffers(canonical, other, end, start);
      }
      ReplayOneStops(other, namespace, k, Agreed(canonical, records, k), records[k], start);
    } else {
      ReplayPruned(canonical, other, namespace, records, k, n - 1);
      ReplayOneAfterPrune(other, namespace, n - 1, ReplayAll(other, namespace, records, n - 1).value, records[n - 1]);
    }
  }

  lemma PrefixDiffers(canonical: seq<Item>, other: seq<Item>, end: nat, start: nat)
    requires end <= start <= |other| && start <= |canonical|
    requires AgreeTo(canonical, other, end) && !AgreeTo(canonical, other, start)
    ensures canonical[..start] != canonical[..end] + other[end..start]
  {
    assert canonical[..end] + other[end..start] == other[..start];
  }

  /** The state that holds a history's own records and response ID. */
  function StateOf(h: History, bytes: nat): State {
    State(h.options.kind, h.options.id, CanonicalHistory, Some(Document(bytes, Some(h.records), false)),
          if h.responseID != "" then Some(h.responseID) else None, {})
  }

  /** Fork and compaction: preparing another conversation that repeats the bound one up
      to the end of record `k - 1` but not up to the start of record `k` keeps exactly `k`
      records, replays them natively, and gives up continuation unless all are kept. */
  lemma PrepareAfterFork(h: History, bytes: nat, other: seq<Item>, k: nat)
    requires WellBound(h) && |h.canonical| <= MAX_INT && bytes <= MAX_STATE_BYTES && AllObjects(other)
    requires k <= |h.records| && AgreeTo(h.canonical, NormalAll(other), End(h.records, k))
    requires k < |h.records| ==> !AgreeTo(h.canonical, NormalAll(other), h.records[k].start)
    ensures var end := End(h.records, k);
      var id := if k < |h.records| then "" else h.responseID;
      Prepared(h.options, other, Some(StateOf(h, bytes))) ==
      Ok(History(h.options, NormalAll(other), h.records[..k],
                 Splice(h.canonical, h.records, k) + NormalAll(other)[end..], id, if id != "" then end else -1))
  {
    hide NormalAll, Text.Blank, Splice, ReplayAll;
    if k == |h.records| {
      assert h.records[..k] == h.records;
      ReplayAgreed(h.canonical, NormalAll(other), h.options.namespace, h.records, k);
    } else {
      ReplayPruned(h.canonical, NormalAll(other), h.options.namespace, h.records, k, |h.records|);
    }
  }

  /** A changed segment under an unchanged prefix is never guessed at: preparation fails
      and names the record, the boundary and the lengths. */
  lemma ChangedSegmentFails(h: History, bytes: nat, other: seq<Item>, k: nat)
    requires WellBound(h) && |h.canonical| <= MAX_INT && bytes <= MAX_STATE_BYTES && AllObjects(other)
    requires k < |h.records| && AgreeTo(h.canonical, NormalAll(other), h.records[k].start)
    requires !AgreeTo(h.canonical, NormalAll(other), End(h.records, k + 1))
    requires !Regroups(NormalAll(other)[h.records[k].start..], h.records[k].visible, h.records[k].output)
    ensures Prepared(h.options, other, Some(StateOf(h, bytes))) ==
      Err(Mismatch(k, h.records[k].start, |h.records[k].visible|, |other| - h.records[k].start))
  {
    hide Text.Blank, Splice, FirstProblem, Regroups, NormalAll, CheckRecord, ReplayOne, MatchVisible;
    var c, o, r := h.canonical, NormalAll(other), h.records[k];
    BoundEnds(c, h.records, k);
    assert BoundAt(c, h.records, k);
    BoundRecordChecks(c, h.records, h.options.namespace, k);
    SegmentsAgree(c, o, r.start, End(h.records, k), r.start);
    SegmentsAgree(c, o, r.start, 0, End(h.records, k));
    ReplayAgreed(c, o, h.options.namespace, h.records, k);
    SegmentExtends(c, o, r.start, r.visible);
    ReplayOneMismatch(o, h.options.namespace, k, Agreed(c, h.records, k), r, r.start);
    ErrorStays(o, h.options.namespace, h.records, k + 1, |h.records|);
  }

  /** Preparing the rebased records again changes nothing, whatever was regrouped. */
  lemma PrepareIsFixpoint(options: Options, canonical: seq<Item>, previous: Option<State>, bytes: nat)
    requires Prepared(options, canonical, previous).Ok?
    requires |canonical| <= MAX_INT && bytes <= MAX_STATE_BYTES
    ensures var h := Prepared(options, canonical, previous).value;
      Prepared(options, canonical, Some(StateOf(h, bytes))) == Ok(h)
  {
    var h := Prepared(options, canonical, previous).value;
    PrepareKeepsBoundFront(options, canonical, previous);
    assert h.records[..|h.records|] == h.records;
    PrepareAfterFork(h, bytes, canonical, |h.records|);
  }

  // ----- Committing an answer and preparing the next turn -----

  predicate Committable(options: Options, responseID: string, visible: seq<Item>, output: seq<Item>, bytes: nat) {
    && (responseID == "" || ValidResponseID(responseID))
    && output != [] && ValidOutput(output, options.namespace)
    && AllObjects(visible)
    && bytes <= MAX_STATE_BYTES
  }

  lemma CommitSucceedsIff(h: History, responseID: string, visible: seq<Item>, output: seq<Item>, bytes: nat)
    ensures Commit(h, responseID, visible, output, bytes).Ok? <==>
      Committable(h.options, responseID, visible, output, bytes)
  {
  }

  /** The history right after an answer: one more record, nothing after it. */
  ghost function Answered(h: History, responseID: string, visible: seq<Item>, output: seq<Item>): History {
    var canonical := h.canonical + NormalAll(visible);
    var records := CompactRecords(h.records + [Record(|h.canonical|, Of(h.canonical), NormalAll(visible), output)]);
    History(h.options, canonical, records, CompactAll(h.input + output), responseID,
            if responseID != "" then |canonical| else -1)
  }

  lemma CompactKeepsBinding(canonical: seq<Item>, more: seq<Item>, records: seq<Record>)
    requires IsNormal(canonical) && Bound(canonical, records)
    ensures Bound(canonical + more, CompactRecords(records))
    ensures forall k :: 0 <= k <= |records| ==> End(CompactRecords(records), k) == End(records, k)
  {
    var all, compact := canonical + more, CompactRecords(records);
    forall k | 0 <= k < |records| ensures BoundAt(all, compact, k) {
      var r := records[k];
      assert BoundAt(canonical, records, k);
      assert forall i :: 0 <= i < |r.visible| ==> r.visible[i] == canonical[r.start + i];
      NormalFixpoint(r.visible);
      assert all[r.start..r.start + |r.visible|] == r.visible;
      assert all[..r.start] == canonical[..r.start];
    }
  }

  lemma {:induction false} CompactSplice(canonical: seq<Item>, more: seq<Item>, records: seq<Record>, k: nat)
    requires IsNormal(canonical) && Bound(canonical, records) && k <= |records|
    requires Bound(canonical + more, CompactRecords(records))
    ensures Splice(canonical + more, CompactRecords(records), k) == CompactAll(Splice(canonical, records, k))
  {
    if k > 0 {
      CompactSplice(canonical, more, records, k - 1);
      CompactKeepsBinding(canonical, more, records);
      BoundEnds(canonical, records, k - 1);
      var gap := canonical[End(records, k - 1)..records[k - 1].start];
      NormalFixpoint(gap);
      assert (canonical + more)[End(records, k - 1)..records[k - 1].start] == gap;
      CompactConcat(Splice(canonical, records, k - 1), gap);
      CompactConcat(Splice(canonical, records, k - 1) + gap, records[k - 1].output);
    }
  }

  lemma AnsweredBinding(h: History, visible: seq<Item>, output: seq<Item>)
    requires WellBound(h) && AllObjects(visible) && output != [] && ValidOutput(output, h.options.namespace)
    ensures var a := Answered(h, "", visible, output);
      && IsNormal(a.canonical) && Bound(a.canonical, a.records)
      && ValidOutputs(a.records, h.options.namespace)
      && End(a.records, |a.records|) == |a.canonical| == |h.canonical| + |visible|
      && a.input == Splice(a.canonical, a.records, |a.records|)
  {
    hide Splice, BoundAt, Text.Blank;
    var n := |h.records|;
    var a := Answered(h, "", visible, output);
    var last := Record(|h.canonical|, Of(h.canonical), NormalAll(visible), CompactAll(output));
    NormalIdempotent(visible);
    assert a.records == CompactRecords(h.records) + [last];
    CompactKeepsBinding(h.canonical, NormalAll(visible), h.records);
    assert a.canonical[..|h.canonical|] == h.canonical;
    BoundAppend(a.canonical, CompactRecords(h.records), last);
    forall i | 0 <= i <= n
      ensures a.records[i].output != [] && ValidOutput(a.records[i].output, h.options.namespace)
    {
      CompactStaysValid(if i < n then h.records[i].output else output, h.options.namespace);
    }
    AnsweredInput(h, visible, output, a);
  }

  lemma AnsweredInput(h: History, visible: seq<Item>, output: seq<Item>, a: History)
    requires WellBound(h) && AllObjects(visible) && a == Answered(h, "", visible, output)
    requires Bound(a.canonical, a.records) && Bound(a.canonical, CompactRecords(h.records))
    requires
      a.records ==
      CompactRecords(h.records) + [Record(|h.canonical|, Of(h.canonical), NormalAll(visible), CompactAll(output))]
    ensures a.input == Splice(a.canonical, a.records, |a.records|)
  {
    hide NormalAll, CompactAll, BoundAt, Text.Blank;
    var n := |h.records|;
    var tail := h.canonical[End(h.records, n)..];
    CompactSplice(h.canonical, NormalAll(visible), h.records, n);
    SpliceFront(a.canonical, a.records, CompactRecords(h.records), n);
    CompactKeepsBinding(h.canonical, NormalAll(visible), h.records);
    NormalFixpoint(tail);
    CompactConcat(h.input, output);
    CompactConcat(Splice(h.canonical, h.records, n), tail);
    assert a.canonical[End(h.records, n)..|h.canonical|] == tail;
  }

  lemma AnsweredIsWellBound(h: History, responseID: string, visible: seq<Item>, output: seq<Item>, bytes: nat)
    requires WellBound(h) && Commit(h, responseID, visible, output, bytes).Ok?
    ensures WellBound(Answered(h, responseID, visible, output))
    ensures
      Commit(h, responseID, visible, output, bytes).value ==
      StateOf(Answered(h, responseID, visible, output), bytes)
  {
    hide NormalAll, CompactAll, Text.Blank, Splice, FirstProblem, Bound;
    AnsweredBinding(h, visible, output);
    var a := Answered(h, responseID, visible, output);
    assert a.canonical[|a.canonical|..] == [];
  }

  lemma CompactStaysValid(output: seq<Item>, namespace: string)
    requires ValidOutput(output, namespace)
    ensures ValidOutput(CompactAll(output), namespace)
  {
    forall i | 0 <= i < |output| ensures OutputProblem(CompactAll(output)[i], namespace).None? {
      assert OutputProblem(output[i], namespace).None?;
    }
  }

  /** After any prepared history and any committed answer, the next turn neither fails
      nor prunes: it replays the old input, the native answer and the new items, and
      continues from the answer's response ID with the new items alone. */
  lemma CommitThenPrepare(h: History, responseID: string, visible: seq<Item>, output: seq<Item>, bytes: nat,
                          canonical: seq<Item>, says: seq<Item>)
    requires WellBound(h) && Commit(h, responseID, visible, output, bytes).Ok?
    requires AllObjects(canonical) && NormalAll(canonical) == h.canonical && AllObjects(says)
    requires |canonical| + |visible| <= MAX_INT
    ensures var st := Commit(h, responseID, visible, output, bytes).value;
      var next := Prepared(h.options, canonical + visible + says, Some(st));
      && next.Ok? && WellBound(next.value)
      && next.value.canonical == h.canonical + NormalAll(visible + says)
      && next.value.records == Answered(h, responseID, visible, output).records
      && next.value.input == CompactAll(h.input + output) + NormalAll(says)
      && Continuation(next.value) == if responseID == "" then None else Some((responseID, NormalAll(says)))
  {
    hide NormalAll, CompactAll, Text.Blank, Splice, FirstProblem, Bound, Prepared;
    var a := Answered(h, responseID, visible, output);
    AnsweredIsWellBound(h, responseID, visible, output, bytes);
    AnsweredBinding(h, visible, output);
    NormalConcat(canonical, visible);
    NormalConcat(visible, says);
    NormalConcat(canonical + visible, says);
    var other := canonical + visible + says;
    assert NormalAll(other)[..|a.canonical|] == a.canonical;
    assert a.canonical[..|a.canonical|] == a.canonical;
    assert NormalAll(other)[|a.canonical|..] == NormalAll(says);
    assert a.records[..|a.records|] == a.records;
    assert a.canonical[|a.canonical|..] == [];
    PrepareAfterFork(a, bytes, other, |a.records|);
    PrepareKeepsBoundFront(h.options, other, Some(StateOf(a, bytes)));
  }

  // ----- A whole conversation -----

  /** One turn: what the user and tools say, then the answer in both forms. */
  datatype Turn = Turn(says: seq<Item>, visible: seq<Item>, output: seq<Item>, responseID: string, bytes: nat)

  datatype Session = Session(canonical: seq<Item>, state: Option<State>)

  /** The adapter's own loop over the first `k` turns of a conversation. */
  function Converse(options: Options, turns: seq<Turn>, k: nat): Result<Session, Error>
    requires k <= |turns|
  {
    if k == 0 then Ok(Session([], None))
    else
      var before := Converse(options, turns, k - 1);
      if before.Err? then before
      else
        var t, c := turns[k - 1], before.value.canonical + turns[k - 1].says;
        var h := Prepared(options, c, before.value.state);
        if h.Err? then Err(h.error)
        else
          var st := Commit(h.value, t.responseID, t.visible, t.output, t.bytes);
          if st.Err? then Err(st.error) else Ok(Session(c + t.visible, Some(st.value)))
  }

  function Transcript(turns: seq<Turn>, k: nat): seq<Item>
    requires k <= |turns|
  {
    if k == 0 then [] else Transcript(turns, k - 1) + turns[k - 1].says + turns[k - 1].visible
  }

  /** The same conversation with every answer in its native form. */
  function NativeTranscript(turns: seq<Turn>, k: nat): seq<Item>
    requires k <= |turns|
  {
    if k == 0 then []
    else NativeTranscript(turns, k - 1) + NormalAll(turns[k - 1].says) + CompactAll(turns[k - 1].output)
  }

  predicate TurnsCommit(options: Options, turns: seq<Turn>) {
    forall i :: 0 <= i < |turns| ==>
      AllObjects(turns[i].says) &&
      Committable(options, turns[i].responseID, turns[i].visible, turns[i].output, turns[i].bytes)
  }

  function LastID(turns: seq<Turn>, k: nat): string
    requires k <= |turns|
  {
    if k == 0 then "" else turns[k - 1].responseID
  }

  /** The conversation so far, prepared for its next items. */
  ghost predicate ReplaysTo(options: Options, turns: seq<Turn>, k: nat, says: seq<Item>, h: History)
    requires k <= |turns|
  {
    && WellBound(h)
    && h.options == options
    && h.canonical == NormalAll(Transcript(turns, k) + says)
    && h.input == NativeTranscript(turns, k) + NormalAll(says)
    && Continuation(h) == if LastID(turns, k) == "" then None else Some((LastID(turns, k), NormalAll(says)))
  }

  /** Whole-conversation replay, by induction over the turns: as long as every answer
      can be committed, every preparation succeeds without pruning and its input is the
      conversation with all answers native. */
  lemma {:induction false} ConversationReplays(options: Options, turns: seq<Turn>, k: nat, says: seq<Item>)
    requires !Text.Blank(options.kind) && !Text.Blank(options.id)
    requires k <= |turns| && TurnsCommit(options, turns) && AllObjects(says)
    requires |Transcript(turns, k)| <= MAX_INT
    ensures Converse(options, turns, k).Ok?
    ensures Converse(options, turns, k).value.canonical == Transcript(turns, k)
    ensures var next := Prepared(options, Transcript(turns, k) + says, Converse(options, turns, k).value.state);
      next.Ok? && ReplaysTo(options, turns, k, says, next.value)
  {
    hide NormalAll, CompactAll, Text.Blank, WellBound, FirstProblem, Prepared, Commit;
    if k == 0 {
      ConversationStarts(options, turns, says);
    } else {
      var t := turns[k - 1];
      ConversationReplays(options, turns, k - 1, t.says);
      var c := Transcript(turns, k - 1) + t.says;
      var h := Prepared(options, c, Converse(options, turns, k - 1).value.state).value;
      PrepareKeepsBoundFront(options, c, Converse(options, turns, k - 1).value.state);
      CommitSucceedsIff(h, t.responseID, t.visible, t.output, t.bytes);
      CommitThenPrepare(h, t.responseID, t.visible, t.output, t.bytes, c, says);
      ConversationStep(options, turns, k, says, h);
      var st := Commit(h, t.responseID, t.visible, t.output, t.bytes).value;
      assert Converse(options, turns, k) == Ok(Session(Transcript(turns, k), Some(st)));
      var next := Prepared(options, Transcript(turns, k) + says, Some(st));
      assert next.value.canonical == NormalAll(Transcript(turns, k) + says);
      assert next.value.options == options by {
        PrepareKeepsBoundFront(options, Transcript(turns, k) + says, Some(st));
      }
    }
  }

  lemma ConversationStarts(options: Options, turns: seq<Turn>, says: seq<Item>)
    requires !Text.Blank(options.kind) && !Text.Blank(options.id) && AllObjects(says)
    ensures var next := Prepared(options, Transcript(turns, 0) + says, None);
      next.Ok? && ReplaysTo(options, turns, 0, says, next.value)
  {
    hide Text.Blank, NormalAll, Rebased;
    assert Transcript(turns, 0) + says == says;
    PrepareKeepsBoundFront(options, says, None);
  }

  lemma ConversationStep(options: Options, turns: seq<Turn>, k: nat, says: seq<Item>, h: History)
    requires 0 < k <= |turns| && ReplaysTo(options, turns, k - 1, turns[k - 1].says, h)
    ensures var t, c := turns[k - 1], Transcript(turns, k - 1) + turns[k - 1].says;
      && h.canonical + NormalAll(t.visible + says) == NormalAll(Transcript(turns, k) + says)
      && CompactAll(h.input + t.output) == NativeTranscript(turns, k)
      && NormalAll(c) == h.canonical
      && c + t.visible == Transcript(turns, k)
  {
    hide NormalAll, CompactAll, WellBound;
    var t, c := turns[k - 1], Transcript(turns, k - 1) + turns[k - 1].says;
    NormalConcat(c, t.visible + says);
    assert c + (t.visible + says) == Transcript(turns, k) + says;
    NativeIsCompact(turns, k - 1);
    NormalIdempotent(t.says);
    CompactConcat(NativeTranscript(turns, k - 1), NormalAll(t.says));
    CompactConcat(h.input, t.output);
  }

  lemma {:induction false} NativeIsCompact(turns: seq<Turn>, k: nat)
    requires k <= |turns|
    ensures CompactAll(NativeTranscript(turns, k)) == NativeTranscript(turns, k)
  {
    if k > 0 {
      var t := turns[k - 1];
      NativeIsCompact(turns, k - 1);
      NormalIdempotent(t.says);
      NormalIdempotent(t.output);
      CompactConcat(NativeTranscript(turns, k - 1), NormalAll(t.says));
      CompactConcat(NativeTranscript(turns, k - 1) + NormalAll(t.says), CompactAll(t.output));
    }
  }

  /** The conversation with every answer exactly as the provider sent it. */
  function SentTranscript(turns: seq<Turn>, k: nat): seq<Item>
    requires k <= |turns|
  {
    if k == 0 then [] else SentTranscript(turns, k - 1) + NormalAll(turns[k - 1].says) + turns[k - 1].output
  }

  lemma SameLengths(turns: seq<Turn>, k: nat)
    requires k <= |turns|
    ensures |SentTranscript(turns, k)| == |NativeTranscript(turns, k)|
  {
    if k > 0 {
      SameLengths(turns, k - 1);
    }
  }

  /** Nothing that the encoder rewrites: no insignificant space, and none of the
      characters it escapes left bare. */
  predicate Settled(items: seq<Item>) {
    forall i :: 0 <= i < |items| && items[i].Object? ==> items[i].spacing == 0 && items[i].bare == 0
  }

  lemma SettledMeans(items: seq<Item>)
    ensures CompactAll(items) == items <==> Settled(items)
  {
    if CompactAll(items) == items {
      forall i | 0 <= i < |items| && items[i].Object?
        ensures items[i].spacing == 0 && items[i].bare == 0
      {
        assert CompactAll(items)[i] == items[i];
      }
    }
  }

  /** Replay is exact to the byte if and only if no saved output has an insignificant space
      or a bare character that the encoder escapes. */
  lemma {:induction false} ReplayIsExactIff(turns: seq<Turn>, k: nat)
    requires k <= |turns|
    ensures NativeTranscript(turns, k) == SentTranscript(turns, k) <==>
      forall i :: 0 <= i < k ==> Settled(turns[i].output)
  {
    hide CompactAll, NormalAll, Settled;
    if k > 0 {
      ReplayIsExactIff(turns, k - 1);
      SameLengths(turns, k - 1);
      var t := turns[k - 1];
      SettledMeans(t.output);
      var a, b, says := NativeTranscript(turns, k - 1), SentTranscript(turns, k - 1), NormalAll(t.says);
      assert (a + says + CompactAll(t.output))[..|a|] == a && (b + says + t.output)[..|a|] == b;
      assert (a + says + CompactAll(t.output))[|a + says|..] == CompactAll(t.output);
      assert (b + says + t.output)[|a + says|..] == t.output;
    }
  }

  /** A native message of one text part, written without spaces. */
  function CompactMessage(order: nat, bare: nat, text: string): Item {
    Object(order, 0, bare, map["type" := Str(0, "message"), "role" := Str(0, "assistant"),
                               "content" := Parts(0, [Part("output_text", text)])])
  }

  lemma CompactMessageIsValid(order: nat, bare: nat, text: string, namespace: string)
    ensures ValidOutput([CompactMessage(order, bare, text)], namespace)
    ensures CompactAll([CompactMessage(order, bare, text)]) == [CompactMessage(order, 0, text)]
  {
    hide AllOutputText;
    var m := CompactMessage(order, bare, text);
    assert OutputProblem(m, namespace).None?;
    assert Compact(m) == CompactMessage(order, 0, text);
  }

  lemma OneTurnCommits(options: Options, t: Turn)
    requires AllObjects(t.says) && Committable(options, t.responseID, t.visible, t.output, t.bytes)
    ensures TurnsCommit(options, [t])
    ensures Transcript([t], 1) == t.says + t.visible
    ensures NativeTranscript([t], 1) == NormalAll(t.says) + CompactAll(t.output)
  {
    hide Committable, AllObjects, NormalAll, CompactAll;
    assert Transcript([t], 0) == [] && NativeTranscript([t], 0) == [];
  }

  /** Being compact is not enough: a message with a bare < can be committed, and the next
      turn replays it escaped. */
  lemma BareCharacterIsRewritten(options: Options, asked: Item, order: nat, bytes: nat)
    requires !Text.Blank(options.kind) && !Text.Blank(options.id) && asked.Object? && bytes <= MAX_STATE_BYTES
    ensures var sent, replayed := CompactMessage(order, 1, "a<b"), CompactMessage(order, 0, "a<b");
      var turns := [Turn([asked], [AssistantMessage("a<b")], [sent], "", bytes)];
      && Converse(options, turns, 1).Ok?
      && var next := Prepared(options, Transcript(turns, 1), Converse(options, turns, 1).value.state);
      && next.Ok? && next.value.input == [Normal(asked), replayed] && replayed != sent
  {
    hide CompactMessage, AssistantMessage, Text.Blank, ValidOutput, WellBound, Prepared, Converse, Compact;
    hide NativeTranscript, Transcript, TurnsCommit;
    var sent, replayed := CompactMessage(order, 1, "a<b"), CompactMessage(order, 0, "a<b");
    var visible := AssistantMessage("a<b");
    var t := Turn([asked], [visible], [sent], "", bytes);
    MessagesAreObjects(order, "a<b");
    CompactMessageIsValid(order, 1, "a<b", options.namespace);
    OneTurnCommits(options, t);
    ConversationReplays(options, [t], 1, []);
    assert Transcript([t], 1) + [] == Transcript([t], 1);
    assert NormalAll([asked]) == [Normal(asked)] && NormalAll([]) == [];
  }

  lemma MessagesAreObjects(order: nat, text: string)
    ensures AssistantMessage(text).Object?
    ensures CompactMessage(order, 0, text) != CompactMessage(order, 1, text)
  {
  }

  lemma PlainRunIs(items: seq<Item>, n: nat)
    requires n <= |items| && forall i :: 0 <= i < n ==> PlainAssistant(items[i]).Some?
    requires n < |items| ==> PlainAssistant(items[n]).None?
    ensures PlainRun(items) == n
  {
    hide PlainAssistant;
  }

  /** Published split bindings stay readable: separately saved plain fragments, with or
      without following items, are found as the one message the runtime projects. */
  lemma FragmentsRegroup(fragments: seq<string>, rest: seq<Item>, output: seq<Item>, tail: seq<Item>)
    requires |fragments| >= 2 && forall i :: 0 <= i < |fragments| ==> fragments[i] != ""
    requires rest != [] ==> PlainAssistant(rest[0]).None?
    ensures var saved := seq(|fragments|, i requires 0 <= i < |fragments| => AssistantMessage(fragments[i])) + rest;
      var projected := [AssistantMessage(RegroupedText(fragments, output))] + rest;
      MatchVisible(projected + tail, saved, output) == Some(projected)
  {
    hide RegroupedText, NativeText;
    RegroupedIsNew(fragments, output);
    var n := |fragments|;
    var messages := seq(n, i requires 0 <= i < n => AssistantMessage(fragments[i]));
    var saved := messages + rest;
    var projected := [AssistantMessage(RegroupedText(fragments, output))] + rest;
    forall i | 0 <= i < n ensures PlainAssistant(saved[i]) == Some(Plain(fragments[i], false)) {
      assert saved[i] == AssistantMessage(fragments[i]);
    }
    PlainRunIs(saved, n);
    assert saved[..n] == messages && saved[n..] == rest;
    assert Texts(saved[..n]) == fragments;
    assert (projected + tail)[..1 + |rest|] == projected;
    assert (projected + tail)[1..1 + |rest|] == rest;
    assert (projected + tail)[0] != saved[0];
  }
}
