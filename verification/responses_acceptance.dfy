/** Which saved states the Responses history accepts, in terms of their fields alone, and
    what it answers to each of the others. */
module ResponsesAcceptance {
  import opened Wrappers
  import opened JsonItems
  import opened ResponsesBinding
  import opened ResponsesHistory
  import opened ResponsesHistoryLaws
  import Text

  // ----- What a saved state must be -----

  /** A header value of at most 512 characters with something in it and on one line. */
  predicate UsableID(id: string) {
    && (exists i :: 0 <= i < |id| && !Text.IsSpace(id[i]))
    && |id| <= 512
    && forall i :: 0 <= i < |id| ==> id[i] != '\r' && id[i] != '\n'
  }

  /** The state of this very history, in a form this version writes. */
  predicate Usable(options: Options, st: State) {
    && st.kind == options.kind && st.id == options.id
    && (st.policy == ExactSurface || st.policy == CanonicalHistory)
    && st.otherAttributes == {}
    && st.native.Some? && st.native.value.bytes <= 8_388_608
    && st.native.value.records.Some? && !st.native.value.trailing
    && (st.responseID.Some? ==> UsableID(st.responseID.value))
  }

  /** A member that decodes as a string: absent and null are the empty one. */
  predicate Reads(fields: map<string, Value>, name: string, text: string) {
    if name in fields && !fields[name].Null? then fields[name].Str? && fields[name].text == text else text == ""
  }

  predicate ReadsSome(fields: map<string, Value>, name: string) {
    name in fields ==> fields[name].Null? || fields[name].Str?
  }

  /** A provider item that can be replayed: of a known type, and a call only to a tool of
      this namespace. */
  predicate Replayable(item: Item, namespace: string) {
    && item.Object?
    && ReadsSome(item.fields, "type") && ReadsSome(item.fields, "namespace")
    && (|| Reads(item.fields, "type", "reasoning")
        || Reads(item.fields, "type", "message")
        || Reads(item.fields, "type", "web_search_call")
        || (Reads(item.fields, "type", "function_call") && Reads(item.fields, "namespace", namespace)))
  }

  /** Record `k` comes after the records before it, within the range of an index, with a
      full fingerprint, output that can be replayed and visible items that are objects. */
  predicate WellFormedAt(records: seq<Record>, namespace: string, k: nat)
    requires k < |records|
  {
    var r := records[k];
    && 0 <= r.start
    && (k > 0 ==> records[k - 1].start + |records[k - 1].visible| <= r.start)
    && (r.prefix.Foreign? ==> |r.prefix.text| == 64)
    && r.output != []
    && r.start + |r.visible| <= 9_223_372_036_854_775_807
    && (forall i :: 0 <= i < |r.output| ==> Replayable(r.output[i], namespace))
    && (forall i :: 0 <= i < |r.visible| ==> r.visible[i].Object?)
  }

  predicate WellFormed(records: seq<Record>, namespace: string, n: nat)
    requires n <= |records|
  {
    forall k :: 0 <= k < n ==> WellFormedAt(records, namespace, k)
  }

  predicate Acceptable(options: Options, st: State) {
    Usable(options, st)
    && WellFormed(st.native.value.records.value, options.namespace, |st.native.value.records.value|)
  }

  // ----- The checks, read back -----

  lemma ValidIDIff(id: string)
    ensures ValidResponseID(id) <==> UsableID(id)
  {
    hide Text.Blank;
    Text.BlankIff(id);
  }

  lemma ReadsIs(fields: map<string, Value>, name: string, text: string)
    ensures StringMember(fields, name).Some? <==> ReadsSome(fields, name)
    ensures StringMember(fields, name) == Some(text) <==> Reads(fields, name, text)
  {
  }

  /** An item passes exactly if it can be replayed; otherwise what cannot be decoded is
      invalid, a call to another namespace unexpected and any other type unsupported. */
  lemma OutputProblemIs(item: Item, namespace: string)
    ensures OutputProblem(item, namespace).None? <==> Replayable(item, namespace)
    ensures OutputProblem(item, namespace) == Some(InvalidOutput) <==>
      item.Malformed? || (item.Object? && !(ReadsSome(item.fields, "type") && ReadsSome(item.fields, "namespace")))
    ensures OutputProblem(item, namespace) == Some(UnexpectedNamespace) <==>
      && item.Object? && ReadsSome(item.fields, "namespace") && Reads(item.fields, "type", "function_call")
      && !Reads(item.fields, "namespace", namespace)
    ensures OutputProblem(item, namespace).Some? ==>
      OutputProblem(item, namespace).value in {InvalidOutput, UnexpectedNamespace, UnsupportedOutput}
  {
    if item.Object? {
      ReadsIs(item.fields, "type", "function_call");
      ReadsIs(item.fields, "namespace", namespace);
    }
  }

  lemma ValidOutputIff(items: seq<Item>, namespace: string)
    ensures ValidOutput(items, namespace) <==> forall i :: 0 <= i < |items| ==> Replayable(items[i], namespace)
  {
    hide OutputProblem, Replayable;
    forall i | 0 <= i < |items|
      ensures OutputProblem(items[i], namespace).None? <==> Replayable(items[i], namespace)
    {
      OutputProblemIs(items[i], namespace);
    }
  }

  lemma StateProblemIs(options: Options, st: State)
    ensures CheckState(options, st).None? <==> Usable(options, st)
  {
    hide ValidResponseID, UsableID;
    if st.responseID.Some? {
      ValidIDIff(st.responseID.value);
    }
  }

  lemma RecordProblemIs(records: seq<Record>, namespace: string, k: nat)
    requires k < |records|
    ensures CheckRecord(namespace, End(records, k), records[k]).None? <==> WellFormedAt(records, namespace, k)
  {
    hide ValidOutput, Replayable;
    ValidOutputIff(records[k].output, namespace);
  }

  lemma {:induction false} ReplayedMeans(c: seq<Item>, namespace: string, saved: seq<Record>, k: nat)
    requires k <= |saved| && ReplayAll(c, namespace, saved, k).Ok?
    ensures WellFormed(saved, namespace, k)
    ensures ReplayAll(c, namespace, saved, k).value.previousEnd == End(saved, k)
  {
    hide WellFormedAt, CheckRecord, MatchVisible, NormalAll;
    if k > 0 {
      ReplayedMeans(c, namespace, saved, k - 1);
      RecordProblemIs(saved, namespace, k - 1);
    }
  }

  /** The record that ends a failing replay. */
  lemma {:induction false} FailingRecord(c: seq<Item>, namespace: string, saved: seq<Record>, n: nat) returns (k: nat)
    requires n <= |saved| && ReplayAll(c, namespace, saved, n).Err?
    ensures k < n && ReplayAll(c, namespace, saved, k).Ok?
    ensures ReplayOne(c, namespace, k, ReplayAll(c, namespace, saved, k).value, saved[k])
         == ReplayAll(c, namespace, saved, n)
  {
    hide ReplayOne;
    if ReplayAll(c, namespace, saved, n - 1).Ok? {
      k := n - 1;
    } else {
      k := FailingRecord(c, namespace, saved, n - 1);
    }
  }

  // ----- The one history that a preparation returns -----

  predicate Named(options: Options) {
    && (exists i :: 0 <= i < |options.kind| && !Text.IsSpace(options.kind[i]))
    && exists i :: 0 <= i < |options.id| && !Text.IsSpace(options.id[i])
  }

  lemma NamedIff(options: Options)
    ensures Named(options) <==> !Text.Blank(options.kind) && !Text.Blank(options.id)
  {
    hide Text.Blank;
    Text.BlankIff(options.kind);
    Text.BlankIff(options.id);
  }

  function RecordsOf(previous: Option<State>): seq<Record>
    requires previous.Some? ==> previous.value.native.Some? && previous.value.native.value.records.Some?
  {
    if previous.Some? then previous.value.native.value.records.value else []
  }

  function ResponseIDOf(previous: Option<State>): string {
    if previous.Some? && previous.value.responseID.Some? then previous.value.responseID.value else ""
  }

  /** `h` binds a front of the saved records to the conversation, drops the others only
      because the conversation before them changed, replays the bound segments in their
      native form, and can continue on the server exactly if nothing was dropped. */
  ghost predicate Describes(options: Options, canonical: seq<Item>, saved: seq<Record>, savedID: string, h: History) {
    && h.options == options
    && h.canonical == NormalAll(canonical)
    && Bound(h.canonical, h.records) && Rebased(h.canonical, h.records, saved)
    && (|h.records| < |saved| ==> PrefixChanged(h.canonical, h.records, saved))
    && 0 <= End(h.records, |h.records|) <= |h.canonical|
    && h.input == Splice(h.canonical, h.records, |h.records|) + h.canonical[End(h.records, |h.records|)..]
    && h.responseID == (if |h.records| < |saved| || saved == [] then "" else savedID)
    && h.continuationStart == if h.responseID == "" then -1 else End(h.records, |h.records|)
  }

  /** One record that is kept: found where its start says, under the prefix it names. */
  lemma ReplayOneKeeps(c: seq<Item>, namespace: string, index: nat, s: Replay, r: Record, next: Record)
    requires InBounds(c, s) && !s.pruned && CheckRecord(namespace, s.previousEnd, r).None?
    requires s.cursor <= next.start == r.start - s.originalCursor + s.cursor <= |c|
    requires r.prefix == Of(s.originalPrefix + c[s.cursor..next.start])
    requires MatchVisible(c[next.start..], NormalAll(r.visible), r.output) == Some(next.visible)
    requires next.prefix == Of(c[..next.start]) && next.output == r.output
    ensures ReplayOne(c, namespace, index, s, r) ==
      Ok(Replay(next.start + |next.visible|, r.start + |r.visible|,
                s.originalPrefix + c[s.cursor..next.start] + NormalAll(r.visible),
                s.input + c[s.cursor..next.start] + next.output, s.kept + [next], false, r.start + |r.visible|))
  {
    hide CheckRecord, MatchVisible;
  }

  ghost function KeptSoFar(c: seq<Item>, kept: seq<Record>, saved: seq<Record>, k: nat): Replay
    requires Bound(c, kept) && k <= |kept| <= |saved|
  {
    BoundEnds(c, kept, k);
    var n := |AsSaved(c, kept, saved, k)|;
    Replay(End(kept, k), n, AsSaved(c, kept, saved, k), Splice(c, kept, k), kept[..k], false, n)
  }

  lemma {:induction false} ReplayKept(c: seq<Item>, namespace: string, kept: seq<Record>, saved: seq<Record>, k: nat)
    requires Bound(c, kept) && Rebased(c, kept, saved) && k <= |kept| && WellFormed(saved, namespace, k)
    ensures |AsSaved(c, kept, saved, k)| == End(saved, k)
    ensures ReplayAll(c, namespace, saved, k) == Ok(KeptSoFar(c, kept, saved, k))
  {
    hide WellFormedAt, CheckRecord, MatchVisible, NormalAll, ReplayOne, ValidOutput;
    if k > 0 {
      ReplayKept(c, namespace, kept, saved, k - 1);
      RecordProblemIs(saved, namespace, k - 1);
      BoundEnds(c, kept, k - 1);
      assert BoundAt(c, kept, k - 1) && RebasedAt(c, kept, saved, k - 1);
      ReplayOneKeeps(c, namespace, k - 1, KeptSoFar(c, kept, saved, k - 1), saved[k - 1], kept[k - 1]);
      assert kept[..k - 1] + [kept[k - 1]] == kept[..k];
    }
  }

  ghost predicate DroppedFrom(c: seq<Item>, kept: seq<Record>, t: Replay)
    requires Bound(c, kept)
  {
    t.pruned && t.kept == kept && t.cursor == End(kept, |kept|) && t.input == Splice(c, kept, |kept|)
  }

  lemma {:induction false} ReplayDropped(c: seq<Item>, namespace: string, kept: seq<Record>, saved: seq<Record>, m: nat)
    requires Bound(c, kept) && Rebased(c, kept, saved) && |kept| < m <= |saved| && WellFormed(saved, namespace, m)
    requires PrefixChanged(c, kept, saved)
    ensures ReplayAll(c, namespace, saved, m).Ok?
    ensures DroppedFrom(c, kept, ReplayAll(c, namespace, saved, m).value)
    decreases m
  {
    hide WellFormedAt, CheckRecord, MatchVisible, NormalAll, ReplayOne, Rebased, Splice;
    RecordProblemIs(saved, namespace, m - 1);
    BoundEnds(c, kept, |kept|);
    if |kept| == m - 1 {
      var n := |kept|;
      ReplayKept(c, namespace, kept, saved, n);
      var s := ReplayAll(c, namespace, saved, n).value;
      StartsBehind(saved, namespace, n);
      ReplayOneStops(c, namespace, n, s, saved[n], saved[n].start - s.originalCursor + s.cursor);
      assert kept[..n] == kept;
    } else {
      ReplayDropped(c, namespace, kept, saved, m - 1);
      ReplayedMeans(c, namespace, saved, m - 1);
      ReplayOneAfterPrune(c, namespace, m - 1, ReplayAll(c, namespace, saved, m - 1).value, saved[m - 1]);
    }
  }

  lemma StartsBehind(saved: seq<Record>, namespace: string, k: nat)
    requires k < |saved| && WellFormed(saved, namespace, k + 1)
    ensures End(saved, k) <= saved[k].start
  {
    assert WellFormedAt(saved, namespace, k);
  }

  /** The replay of well-formed records returns exactly the described history. */
  lemma FinishIff(options: Options, c: seq<Item>, saved: seq<Record>, savedID: string, h: History)
    requires WellFormed(saved, options.namespace, |saved|)
    requires Describes(options, c, saved, savedID, h) && IsNormal(c)
    ensures var run := ReplayAll(c, options.namespace, saved, |saved|);
      run.Ok? && h == ResponsesHistory.Finish(options, c, saved, savedID, run.value)
  {
    hide WellFormed, PrefixChanged, Rebased, Splice, ReplayAll, NormalAll, Bound;
    NormalFixpoint(c);
    BoundEnds(c, h.records, |h.records|);
    if |h.records| < |saved| {
      ReplayDropped(c, options.namespace, h.records, saved, |saved|);
    } else {
      assert |h.records| == |saved| by {
        RebasedLength(c, h.records, saved);
      }
      ReplayKept(c, options.namespace, h.records, saved, |saved|);
      assert h.records[..|saved|] == h.records;
    }
  }

  lemma RebasedLength(c: seq<Item>, kept: seq<Record>, saved: seq<Record>)
    requires Bound(c, kept) && Rebased(c, kept, saved)
    ensures |kept| <= |saved|
  {
  }

  /** Success, exactly: the history has a kind and an ID, the canonical items are objects,
      a saved state is of this very history and well-formed throughout, and the result is
      the history described above. A state of another kind or ID, with another policy,
      attribute or document, is never replayed. */
  lemma PreparedIff(options: Options, canonical: seq<Item>, previous: Option<State>, h: History)
    ensures Prepared(options, canonical, previous) == Ok(h) <==>
      && Named(options)
      && (forall i :: 0 <= i < |canonical| ==> canonical[i].Object?)
      && (previous.Some? ==> Acceptable(options, previous.value))
      && Describes(options, canonical, RecordsOf(previous), ResponseIDOf(previous), h)
  {
    hide Text.Blank, Rebased, Splice, PrefixChanged, Bound, WellFormedAt, ReplayAll, Usable, CheckState, NormalAll;
    hide ResponsesHistory.Finish;
    NamedIff(options);
    var c := NormalAll(canonical);
    if previous.Some? {
      StateProblemIs(options, previous.value);
    }
    if Prepared(options, canonical, previous) == Ok(h) {
      PrepareKeepsBoundFront(options, canonical, previous);
      assert SavedRecords(previous) == RecordsOf(previous);
      ReplayedMeans(c, options.namespace, RecordsOf(previous), |RecordsOf(previous)|);
    }
    if && (previous.Some? ==> Acceptable(options, previous.value)) && AllObjects(canonical)
       && Describes(options, canonical, RecordsOf(previous), ResponseIDOf(previous), h) {
      NormalIsNormal(canonical);
      NormalFixpoint(c);
      FinishIff(options, c, RecordsOf(previous), ResponseIDOf(previous), h);
    }
  }

  lemma NormalIsNormal(items: seq<Item>)
    requires AllObjects(items)
    ensures IsNormal(NormalAll(items))
  {
  }

  // ----- The errors -----

  /** The conversation before saved record `k` is as it was, and its segment is neither there
      nor regrouped. */
  ghost predicate SegmentChanged(c: seq<Item>, kept: seq<Record>, saved: seq<Record>, k: nat, start: nat)
    requires k < |saved|
  {
    && |kept| == k && Bound(c, kept) && Rebased(c, kept, saved)
    && 0 <= End(kept, k) <= start <= |c|
    && saved[k].start == |AsSaved(c, kept, saved, k)| + start - End(kept, k)
    && saved[k].prefix == Of(AsSaved(c, kept, saved, k) + c[End(kept, k)..start])
    && !(NormalAll(saved[k].visible) <= c[start..])
    && !Regroups(c[start..], NormalAll(saved[k].visible), saved[k].output)
  }

  lemma ReplayOneFails(c: seq<Item>, namespace: string, k: nat, s: Replay, r: Record)
    requires InBounds(c, s) && CheckRecord(namespace, s.previousEnd, r).None?
    ensures var start, visible := r.start - s.originalCursor + s.cursor, NormalAll(r.visible);
      ReplayOne(c, namespace, k, s, r).Err? <==>
        && !s.pruned && start <= |c| && r.prefix == Of(s.originalPrefix + c[s.cursor..start])
        && !(visible <= c[start..]) && !Regroups(c[start..], visible, r.output)
    ensures ReplayOne(c, namespace, k, s, r).Err? ==>
      var start := r.start - s.originalCursor + s.cursor;
      ReplayOne(c, namespace, k, s, r) == Err(Mismatch(k, start, |r.visible|, |c| - start))
  {
    hide CheckRecord, Regroups;
  }

  lemma ReplayFailsAt(c: seq<Item>, namespace: string, kept: seq<Record>, saved: seq<Record>, k: nat, start: nat)
    requires k < |saved| && WellFormed(saved, namespace, k + 1) && SegmentChanged(c, kept, saved, k, start)
    ensures ReplayAll(c, namespace, saved, |saved|) == Err(Mismatch(k, start, |saved[k].visible|, |c| - start))
  {
    hide WellFormedAt, CheckRecord, Regroups, NormalAll, ReplayOne, Rebased, Splice;
    ReplayKept(c, namespace, kept, saved, k);
    RecordProblemIs(saved, namespace, k);
    ReplayOneFails(c, namespace, k, KeptSoFar(c, kept, saved, k), saved[k]);
    ErrorStays(c, namespace, saved, k + 1, |saved|);
  }

  lemma MismatchMeans(c: seq<Item>, namespace: string, saved: seq<Record>, e: Error) returns (kept: seq<Record>)
    requires ReplayAll(c, namespace, saved, |saved|) == Err(e) && e.Mismatch?
    ensures e.recordIndex < |saved| && WellFormed(saved, namespace, e.recordIndex + 1)
    ensures SegmentChanged(c, kept, saved, e.recordIndex, e.canonicalIndex)
    ensures e.expectedItems == |saved[e.recordIndex].visible| && e.availableItems == |c| - e.canonicalIndex
  {
    hide WellFormedAt, CheckRecord, Regroups, NormalAll, Rebased, Splice, ReplayAll, Bound, FirstProblem, MatchVisible;
    var k := FailingRecord(c, namespace, saved, |saved|);
    var s := ReplayAll(c, namespace, saved, k).value;
    ReplayIsFaithful(c, namespace, saved, k);
    ReplayedMeans(c, namespace, saved, k);
    RecordProblemIs(saved, namespace, k);
    kept := s.kept;
    BoundEnds(c, kept, |kept|);
    assert CheckRecord(namespace, s.previousEnd, saved[k]).None?;
    ReplayOneFails(c, namespace, k, s, saved[k]);
    StartsBehind(saved, namespace, k);
  }

  /** The mismatch error, exactly: some front of the saved records is still bound, the
      conversation before the next record is the one it was saved in, and its segment has
      changed. The error names that record, its boundary and the two lengths. */
  lemma MismatchIff(options: Options, canonical: seq<Item>, previous: Option<State>, e: Error)
    requires e.Mismatch?
    ensures Prepared(options, canonical, previous) == Err(e) <==>
      && Named(options) && AllObjects(canonical)
      && previous.Some? && Usable(options, previous.value)
      && e.recordIndex < |RecordsOf(previous)|
      && WellFormed(RecordsOf(previous), options.namespace, e.recordIndex + 1)
      && (exists kept ::
            SegmentChanged(NormalAll(canonical), kept, RecordsOf(previous), e.recordIndex, e.canonicalIndex))
      && e.expectedItems == |RecordsOf(previous)[e.recordIndex].visible|
      && e.availableItems == |canonical| - e.canonicalIndex
  {
    hide Text.Blank, WellFormed, ReplayAll, Usable, CheckState, NormalAll, SegmentChanged, ResponsesHistory.Finish;
    NamedIff(options);
    var c := NormalAll(canonical);
    if previous.Some? {
      StateProblemIs(options, previous.value);
    }
    if Prepared(options, canonical, previous) == Err(e) {
      if previous.None? {
        assert ReplayAll(c, options.namespace, [], 0) == Ok(START) by {
          NothingReplayed(c, options.namespace);
        }
      }
      var kept := MismatchMeans(c, options.namespace, RecordsOf(previous), e);
    }
    if previous.Some? && Usable(options, previous.value) && Named(options) && AllObjects(canonical)
       && e.recordIndex < |RecordsOf(previous)| && e.canonicalIndex <= |c|
       && WellFormed(RecordsOf(previous), options.namespace, e.recordIndex + 1) {
      forall kept | SegmentChanged(c, kept, RecordsOf(previous), e.recordIndex, e.canonicalIndex)
        ensures ReplayAll(c, options.namespace, RecordsOf(previous), |RecordsOf(previous)|) ==
          Err(Mismatch(e.recordIndex, e.canonicalIndex, |RecordsOf(previous)[e.recordIndex].visible|,
                       |c| - e.canonicalIndex))
      {
        ReplayFailsAt(c, options.namespace, kept, RecordsOf(previous), e.recordIndex, e.canonicalIndex);
      }
    }
  }

  lemma NothingReplayed(c: seq<Item>, namespace: string)
    ensures ReplayAll(c, namespace, [], 0) == Ok(START)
  {
  }

  /** The checks on a saved state, in the order in which the first one that fails decides. */
  lemma StateErrorIs(options: Options, canonical: seq<Item>, st: State)
    requires Named(options) && forall i :: 0 <= i < |canonical| ==> canonical[i].Object?
    ensures var out := Prepared(options, canonical, Some(st));
      if st.kind != options.kind || st.id != options.id then out == Err(Rejected(IncompatibleIdentity))
      else if st.policy != ExactSurface && st.policy != CanonicalHistory then out == Err(Rejected(UnsupportedPolicy))
      else if st.otherAttributes != {} then out == Err(Rejected(UnsupportedAttribute))
      else if st.native.Some? && st.native.value.bytes > 8_388_608 then out == Err(Rejected(StateLimit))
      else if st.native.None? || st.native.value.records.None? then out == Err(Rejected(InvalidRecords))
      else if st.native.value.trailing then out == Err(Rejected(TrailingData))
      else if st.responseID.Some? && !UsableID(st.responseID.value) then out == Err(Rejected(InvalidResponseID))
      else Usable(options, st)
  {
    hide Text.Blank, ReplayAll, ValidResponseID, NormalAll, ResponsesHistory.Finish, UsableID;
    NamedIff(options);
    if st.responseID.Some? {
      ValidIDIff(st.responseID.value);
    }
  }

  /** Before any state is looked at: the history needs a kind and an ID, and the canonical
      items must be objects. */
  lemma InputErrorIs(options: Options, canonical: seq<Item>, previous: Option<State>)
    ensures !Named(options) ==> Prepared(options, canonical, previous) == Err(Rejected(MissingIdentity))
    ensures Named(options) && (exists i :: 0 <= i < |canonical| && !canonical[i].Object?) ==>
      Prepared(options, canonical, previous) == Err(Rejected(InvalidItem))
  {
    hide Text.Blank, ReplayAll, CheckState, NormalAll, ResponsesHistory.Finish;
    NamedIff(options);
  }

  /** What is wrong with a record, checked in this order: where it starts, its fingerprint
      and that it has output; its end; its output items, the first bad one deciding; its
      visible items. */
  predicate RecordErrorIs(records: seq<Record>, namespace: string, k: nat, code: Code)
    requires k < |records|
  {
    var r := records[k];
    if r.start < 0 || (k > 0 && r.start < records[k - 1].start + |records[k - 1].visible|)
       || (r.prefix.Foreign? && |r.prefix.text| != 64) || r.output == [] then code == InvalidRecord
    else if r.start + |r.visible| > 9_223_372_036_854_775_807 then code == InvalidBoundary
    else if exists i :: 0 <= i < |r.output| && !Replayable(r.output[i], namespace) then
      exists i :: 0 <= i < |r.output| && !Replayable(r.output[i], namespace)
        && (forall j :: 0 <= j < i ==> Replayable(r.output[j], namespace))
        && ItemErrorIs(r.output[i], namespace, code)
    else code == InvalidItem && exists i :: 0 <= i < |r.visible| && !r.visible[i].Object?
  }

  predicate ItemErrorIs(item: Item, namespace: string, code: Code) {
    if item.Malformed? then code == InvalidOutput
    else if item.NullItem? then code == UnsupportedOutput
    else if !ReadsSome(item.fields, "type") || !ReadsSome(item.fields, "namespace") then code == InvalidOutput
    else if Reads(item.fields, "type", "function_call") then code == UnexpectedNamespace
    else code == UnsupportedOutput
  }

  lemma ItemErrorIsIt(item: Item, namespace: string)
    requires !Replayable(item, namespace)
    ensures OutputProblem(item, namespace).Some?
    ensures ItemErrorIs(item, namespace, OutputProblem(item, namespace).value)
  {
    OutputProblemIs(item, namespace);
  }

  lemma {:induction false} FirstProblemIs(items: seq<Item>, namespace: string) returns (i: nat)
    requires FirstProblem(items, namespace).Some?
    ensures i < |items| && !Replayable(items[i], namespace)
    ensures forall j :: 0 <= j < i ==> Replayable(items[j], namespace)
    ensures ItemErrorIs(items[i], namespace, FirstProblem(items, namespace).value)
  {
    hide OutputProblem, Replayable, ItemErrorIs;
    OutputProblemIs(items[0], namespace);
    if OutputProblem(items[0], namespace).Some? {
      ItemErrorIsIt(items[0], namespace);
      i := 0;
    } else {
      var k := FirstProblemIs(items[1..], namespace);
      i := k + 1;
      assert items[i] == items[1..][k];
      forall j | 0 <= j < i ensures Replayable(items[j], namespace) {
        assert j > 0 ==> items[j] == items[1..][j - 1];
      }
    }
  }

  lemma RecordErrorIsIt(records: seq<Record>, namespace: string, k: nat)
    requires k < |records| && CheckRecord(namespace, End(records, k), records[k]).Some?
    ensures RecordErrorIs(records, namespace, k, CheckRecord(namespace, End(records, k), records[k]).value)
  {
    hide OutputProblem, Replayable, ItemErrorIs;
    var output := records[k].output;
    if FirstProblem(output, namespace).Some? {
      var i := FirstProblemIs(output, namespace);
    } else {
      ValidOutputIff(output, namespace);
    }
  }

  /** With a usable state, preparation rejects only for the first record that is not well
      formed, and names what is wrong with it; without any, it succeeds. */
  lemma RecordErrorDecides(options: Options, canonical: seq<Item>, st: State)
    requires Named(options) && Usable(options, st) && forall i :: 0 <= i < |canonical| ==> canonical[i].Object?
    ensures var out, saved := Prepared(options, canonical, Some(st)), st.native.value.records.value;
      out.Err? && out.error.Rejected? ==>
        exists k :: 0 <= k < |saved| && WellFormed(saved, options.namespace, k)
          && !WellFormedAt(saved, options.namespace, k)
          && RecordErrorIs(saved, options.namespace, k, out.error.code)
    ensures Prepared(options, canonical, None).Ok?
  {
    hide Text.Blank, WellFormedAt, ReplayAll, Usable, CheckState, NormalAll, ResponsesHistory.Finish, RecordErrorIs;
    hide CheckRecord, MatchVisible;
    NamedIff(options);
    StateProblemIs(options, st);
    var c, saved, namespace := NormalAll(canonical), RecordsOf(Some(st)), options.namespace;
    NothingReplayed(c, namespace);
    var run := ReplayAll(c, namespace, saved, |saved|);
    if run.Err? && run.error.Rejected? {
      var k := FailingRecord(c, namespace, saved, |saved|);
      ReplayedMeans(c, namespace, saved, k);
      RecordProblemIs(saved, namespace, k);
      RecordErrorIsIt(saved, namespace, k);
    }
  }

  // ----- Committing -----

  /** Two items that differ at most in spacing and bare characters, which are settled. */
  predicate Encoded(item: Item, saved: Item) {
    if item.Object? then saved == Object(item.order, 0, 0, item.fields) else saved == item
  }

  predicate AllEncoded(items: seq<Item>, saved: seq<Item>) {
    |saved| == |items| && forall i :: 0 <= i < |items| ==> Encoded(items[i], saved[i])
  }

  predicate RecordEncoded(r: Record, saved: Record) {
    saved.start == r.start && saved.prefix == r.prefix
    && AllEncoded(r.visible, saved.visible) && AllEncoded(r.output, saved.output)
  }

  /** What a commit saves: the records as encoded, then one that binds the new items to the
      whole conversation before them. */
  ghost predicate SavesAnswer(h: History, visible: seq<Item>, output: seq<Item>, records: seq<Record>) {
    var n := |h.records|;
    && |records| == n + 1
    && (forall i :: 0 <= i < n ==> RecordEncoded(h.records[i], records[i]))
    && records[n].start == |h.canonical| && records[n].prefix == Of(h.canonical)
    && AllEncoded(output, records[n].output)
    && |records[n].visible| == |visible|
    && forall i :: 0 <= i < |visible| && visible[i].Object? ==>
      records[n].visible[i] == Object(0, 0, 0, visible[i].fields)
  }

  predicate CommitAccepts(namespace: string, responseID: string, visible: seq<Item>, output: seq<Item>, bytes: nat) {
    && (responseID != "" ==> UsableID(responseID))
    && output != [] && (forall i :: 0 <= i < |output| ==> Replayable(output[i], namespace))
    && (forall i :: 0 <= i < |visible| ==> visible[i].Object?)
    && bytes <= 8_388_608
  }

  /** A commit succeeds exactly with a usable response ID or none, output that can be
      replayed, visible objects and a state within the limit; it then saves the answer. */
  lemma CommitIff(h: History, responseID: string, visible: seq<Item>, output: seq<Item>, bytes: nat)
    ensures var out := Commit(h, responseID, visible, output, bytes);
      && (out.Ok? <==> CommitAccepts(h.options.namespace, responseID, visible, output, bytes))
      && (out.Ok? ==>
            var st := out.value;
            && st.kind == h.options.kind && st.id == h.options.id && st.policy == CanonicalHistory
            && st.otherAttributes == {}
            && st.responseID == (if responseID == "" then None else Some(responseID))
            && st.native.Some? && st.native.value.bytes == bytes && !st.native.value.trailing
            && st.native.value.records.Some?
            && SavesAnswer(h, visible, output, st.native.value.records.value))
  {
    hide ValidResponseID, UsableID, OutputProblem, Replayable;
    ValidIDIff(responseID);
    ValidOutputIff(output, h.options.namespace);
  }

  /** The refusals of a commit, in the order in which they are looked for. */
  lemma CommitErrorIs(h: History, responseID: string, visible: seq<Item>, output: seq<Item>, bytes: nat)
    ensures var out := Commit(h, responseID, visible, output, bytes);
      if responseID != "" && !UsableID(responseID) then out == Err(Rejected(InvalidResponseID))
      else if output == [] then out == Err(Rejected(MissingOutput))
      else if exists i :: 0 <= i < |output| && !Replayable(output[i], h.options.namespace) then
        exists i :: 0 <= i < |output| && !Replayable(output[i], h.options.namespace)
          && (forall j :: 0 <= j < i ==> Replayable(output[j], h.options.namespace))
          && out.Err? && out.error.Rejected? && ItemErrorIs(output[i], h.options.namespace, out.error.code)
      else if exists i :: 0 <= i < |visible| && !visible[i].Object? then out == Err(Rejected(InvalidItem))
      else bytes > 8_388_608 ==> out == Err(Rejected(StateLimit))
  {
    hide ValidResponseID, UsableID, OutputProblem, Replayable, ItemErrorIs, CompactRecords, NormalAll;
    ValidIDIff(responseID);
    ValidOutputIff(output, h.options.namespace);
    if FirstProblem(output, h.options.namespace).Some? {
      var i := FirstProblemIs(output, h.options.namespace);
    }
  }

  /** The segment of an answer: one plain message with its trimmed text unless nothing is
      left of it, then its calls in order. */
  lemma AssistantSegmentIs(text: string, calls: seq<Item>, inner: string)
    requires Text.Trims(text, inner)
    ensures inner == "" ==> AssistantVisible(text, calls) == calls
    ensures inner != "" ==>
      && |AssistantVisible(text, calls)| == 1 + |calls|
      && AssistantVisible(text, calls)[0].Object?
      && AssistantVisible(text, calls)[0].fields == map["role" := Str(0, "assistant"), "content" := Str(0, inner)]
      && AssistantVisible(text, calls)[1..] == calls
  {
    hide Text.Trim;
    Text.TrimIff(text, inner);
  }

  /** A call passes exactly if it is a function call of this namespace; a call of another
      namespace is unexpected and anything else invalid. */
  lemma CallProblemIs(call: Item, namespace: string)
    ensures CallProblem(call, namespace).None? <==>
      && call.Object? && Reads(call.fields, "type", "function_call") && Reads(call.fields, "namespace", namespace)
    ensures CallProblem(call, namespace).Some? ==>
      if call.Object? && Reads(call.fields, "type", "function_call") && ReadsSome(call.fields, "namespace")
      then CallProblem(call, namespace) == Some(UnexpectedNamespace)
      else CallProblem(call, namespace) == Some(InvalidItem)
  {
    if call.Object? {
      ReadsIs(call.fields, "type", "function_call");
      ReadsIs(call.fields, "namespace", namespace);
    }
  }
}
