/** Answers shown as one message: what merging does to a run of them, and what the saved
    signatures can take apart again. */
module DeepSeekRuns {
  import opened Wrappers
  import opened DeepSeekHistory
  import opened DeepSeekHistoryLaws

  // ----- Messages taken one by one -----

  /** Messages `i` to `n`, every one on its own: nothing merged and nothing split. */
  function Apart(units: seq<Message>, i: nat, n: nat, r: Rendered, img: bool): Result<Rendered, Failure>
    requires i <= n <= |units|
    decreases n - i
  {
    if i == n then Ok(r)
    else
      var next := Emit(r, units[i], img);
      if next.Err? then next else Apart(units, i + 1, n, next.value, img)
  }

  /** One message in front of an already merged list. */
  function Led(m: Message, rest: seq<Message>): seq<Message> {
    if rest != [] && Mergeable(m) && Mergeable(rest[0]) then [Joined(m, rest[0])] + rest[1..] else [m] + rest
  }

  /** Merging from the back: every run of neighbours that may merge becomes one message. */
  function Runs(units: seq<Message>, i: nat): (r: seq<Message>)
    requires i <= |units|
    ensures (i == |units|) == (r == [])
    ensures i < |units| ==> Mergeable(r[0]) == Mergeable(units[i])
    decreases |units| - i
  {
    if i == |units| then [] else Led(units[i], Runs(units, i + 1))
  }

  lemma LedGrows(m: Message, rest: seq<Message>, next: Message)
    ensures Led(m, Grown(rest, next)) == Grown(Led(m, rest), next)
  {
    if |rest| == 0 {
      assert Grown(rest, next) == [next];
      assert [m][..0] + [Joined(m, next)] == [Joined(m, next)];
    } else if |rest| == 1 {
      LedGrowsOne(m, rest[0], next);
      assert rest == [rest[0]];
    } else {
      LedGrowsBehind(m, rest, next);
    }
  }

  lemma LedGrowsOne(m: Message, u: Message, next: Message)
    ensures Led(m, Grown([u], next)) == Grown(Led(m, [u]), next)
  {
    hide Mergeable;
    JoinedAssociates(m, u, next);
    assert Mergeable(Joined(m, u)) == Mergeable(m) && Mergeable(Joined(u, next)) == Mergeable(u) by {
      JoinedMergesAlike(m, u);
      JoinedMergesAlike(u, next);
    }
    assert Grown([u], next) == if Mergeable(u) && Mergeable(next) then [Joined(u, next)] else [u, next];
    assert Led(m, [u]) == if Mergeable(m) && Mergeable(u) then [Joined(m, u)] else [m, u];
    if Mergeable(u) {
      assert Grown([m, u], next) == if Mergeable(next) then [m, Joined(u, next)] else [m, u, next];
      assert Grown([Joined(m, u)], next) ==
        if Mergeable(m) && Mergeable(next) then [Joined(Joined(m, u), next)] else [Joined(m, u), next];
    }
  }

  lemma JoinedAssociates(a: Message, b: Message, c: Message)
    ensures Joined(Joined(a, b), c) == Joined(a, Joined(b, c))
  {
    assert a.text + b.text + c.text == a.text + (b.text + c.text);
    assert a.reasoning + b.reasoning + c.reasoning == a.reasoning + (b.reasoning + c.reasoning);
    assert a.calls + b.calls + c.calls == a.calls + (b.calls + c.calls);
  }

  lemma JoinedMergesAlike(a: Message, b: Message)
    ensures Mergeable(Joined(a, b)) == Mergeable(a)
  {
  }

  lemma LedGrowsBehind(m: Message, rest: seq<Message>, next: Message)
    requires |rest| > 1
    ensures Led(m, Grown(rest, next)) == Grown(Led(m, rest), next)
  {
    hide Mergeable, Joined;
    var first := Led(m, [rest[0]]);
    assert rest == [rest[0]] + rest[1..];
    assert Led(m, rest) == first + rest[1..];
    GrownBehind([rest[0]], rest[1..], next);
    GrownBehind(first, rest[1..], next);
    assert ([rest[0]] + Grown(rest[1..], next))[1..] == Grown(rest[1..], next);
  }

  lemma {:induction false} RunsGrow(units: seq<Message>, m: Message, i: nat)
    requires i <= |units|
    ensures Runs(units + [m], i) == Grown(Runs(units, i), m)
    decreases |units| - i
  {
    hide Mergeable, Joined, Led;
    if i == |units| {
      assert Runs(units + [m], i + 1) == [];
      assert Led(m, []) == [m] by {
        LedAlone(m);
      }
    } else {
      RunsGrow(units, m, i + 1);
      LedGrows(units[i], Runs(units, i + 1), m);
    }
  }

  lemma LedAlone(m: Message)
    ensures Led(m, []) == [m]
  {
  }

  /** The runtime's merging is the same as merging from the back. */
  lemma {:induction false} MergedIsRuns(units: seq<Message>)
    ensures Merged(units, |units|) == Runs(units, 0)
  {
    if units != [] {
      var front, m := units[..|units| - 1], units[|units| - 1];
      assert front + [m] == units;
      MergedIsRuns(front);
      MergedLooksBack(front, [m], |front|);
      RunsGrow(front, m, 0);
    }
  }

  // ----- Cutting one fragment off -----

  /** Reasoning alone, or text alone. */
  predicate Partial(m: Message) {
    Mergeable(m) && m.calls == [] && ((m.text == []) != (m.reasoning == []))
  }

  /** The search can find where `a` ends in front of `rest`: text is only searched in a
      message without reasoning. */
  predicate Cuts(a: Message, rest: Message) {
    && Partial(a) && Mergeable(rest) && HasContent(rest)
    && (a.text != [] ==> rest.reasoning == [] && rest.text != [])
  }

  /** The search for the boundary may look at the whole fragment. */
  predicate Reaches(limits: Limits, m: Message) {
    Bytes(m.text, |m.text|) <= limits.text && Bytes(m.reasoning, |m.reasoning|) <= limits.reasoning
  }

  /** The signatures of `m` are saved at `offset`. */
  predicate Saves(prefix: seq<Sig>, offset: nat, m: Message) {
    offset <= |prefix| && AssistantSigs(m) <= prefix[offset..]
  }

  lemma FragmentSigned(a: Message, prefix: seq<Sig>, offset: nat)
    requires Partial(a) && Saves(prefix, offset, a)
    ensures offset < |prefix|
    ensures prefix[offset] == if a.text != [] then StringSig(a.text, false) else StringSig(a.reasoning, true)
  {
    hide StringSig, Signature;
    SignedAlone(a);
    assert prefix[offset..][0] == AssistantSigs(a)[0];
  }

  lemma SignedAlone(a: Message)
    requires Partial(a)
    ensures AssistantSigs(a) == [if a.text != [] then StringSig(a.text, false) else StringSig(a.reasoning, true)]
  {
  }

  lemma SignedFirst(m: Message)
    requires m.text != []
    ensures AssistantSigs(m) != [] && AssistantSigs(m)[0] == StringSig(m.text, false)
  {
  }

  lemma GroupSignedApart(a: Message, rest: Message)
    requires Partial(a) && Mergeable(rest) && HasContent(rest) && a.text == []
    ensures var sigs := AssistantSigs(Joined(a, rest));
      sigs != [] && sigs[0] != StringSig(a.reasoning, true)
  {
    hide Spelled;
    var m := Joined(a, rest);
    if m.text == [] && m.calls == [] {
      DifferentLengthsSignApart(m.reasoning, a.reasoning, true);
    }
  }

  lemma PartReached(part: Runes, more: Runes, reasoning: bool, limit: nat)
    requires part != [] && Bytes(part, |part|) <= limit
    ensures limit > 0 && BoundPrefix(part + more, StringSig(part, reasoning), reasoning, limit) == Some(|part|)
    ensures (part + more)[..|part|] == part && (part + more)[|part|..] == more
  {
    hide BoundPrefix, StringSig;
    FirstPartFound(part + more, part, reasoning, limit);
  }

  /** A signed fragment in front of the rest of its run is cut off. */
  lemma FragmentSplitsOff(a: Message, rest: Message, prefix: seq<Sig>, offset: nat, limits: Limits)
    requires Cuts(a, rest) && Reaches(limits, a) && Saves(prefix, offset, a)
    ensures SplitFirst(Joined(a, rest), prefix, offset, limits) == Some((a, rest))
  {
    hide BoundPrefix, Bytes, StringSig, AssistantSigs, Saves;
    var m := Joined(a, rest);
    var sigs := AssistantSigs(m);
    FragmentSigned(a, prefix, offset);
    if a.text != [] {
      PartReached(a.text, rest.text, false, limits.text);
      SignedFirst(m);
      DifferentLengthsSignApart(m.text, a.text, false);
      assert m.reasoning == [] && m.calls == rest.calls && m.(text := rest.text) == rest;
    } else {
      PartReached(a.reasoning, rest.reasoning, true, limits.reasoning);
      GroupSignedApart(a, rest);
      assert m.text == rest.text && m.calls == rest.calls && m.(reasoning := rest.reasoning) == rest;
    }
    assert a == Piece(a.text, a.reasoning);
    assert sigs != [] && sigs[0] != prefix[offset];
    assert forall n :: 0 < n <= |sigs| && offset + n <= |prefix| ==> sigs[..n][0] != prefix[offset..offset + n][0];
    assert !Continues(m, prefix, offset);
  }

  // ----- The same books -----

  /** What decides how rendering goes on; only unsigned items may differ. */
  predicate Alike(r: Rendered, s: Rendered) {
    r.prefix == s.prefix && r.pending == s.pending && r.seen == s.seen && r.system == s.system
  }

  lemma {:induction false} CallsAlike(r: Rendered, s: Rendered, calls: seq<Call>, k: nat)
    requires k <= |calls| && Alike(r, s)
    ensures AddCalls(r, calls, k).Ok? == AddCalls(s, calls, k).Ok?
    ensures AddCalls(r, calls, k).Ok? ==> Alike(AddCalls(r, calls, k).value, AddCalls(s, calls, k).value)
  {
    hide Signature;
    if k > 0 {
      CallsAlike(r, s, calls, k - 1);
    }
  }

  lemma WordsAlike(r: Rendered, s: Rendered, m: Message)
    requires Alike(r, s)
    ensures Alike(AddWords(r, m), AddWords(s, m))
  {
    hide Signature;
  }

  lemma EmitAlike(r: Rendered, s: Rendered, m: Message, img: bool)
    requires Alike(r, s)
    ensures Emit(r, m, img).Ok? == Emit(s, m, img).Ok?
    ensures Emit(r, m, img).Ok? ==> Alike(Emit(r, m, img).value, Emit(s, m, img).value)
  {
    hide AddWords, AddCalls, Signature;
    WordsAlike(r, s, m);
    CallsAlike(AddWords(r, m), AddWords(s, m), m.calls, |m.calls|);
  }

  lemma {:induction false} FeedAlike(work: seq<Message>, r: Rendered, s: Rendered, p: seq<Sig>, l: Limits, img: bool)
    requires Alike(r, s)
    ensures Feed(work, r, p, l, img).Ok? == Feed(work, s, p, l, img).Ok?
    ensures Feed(work, r, p, l, img).Ok? ==> Alike(Feed(work, r, p, l, img).value, Feed(work, s, p, l, img).value)
    decreases Weight(work)
  {
    hide SplitFirst, Emit;
    if work != [] {
      var split := SplitNext(work[0], p, |r.prefix|, l);
      if split.None? {
        EmitAlike(r, s, work[0], img);
        if Emit(r, work[0], img).Ok? {
          FeedAlike(work[1..], Emit(r, work[0], img).value, Emit(s, work[0], img).value, p, l, img);
        }
      } else {
        var (piece, rest) := split.value;
        SplitShrinks(work[0], p, |r.prefix|, l);
        EmitAlike(r, s, piece, img);
        if Emit(r, piece, img).Ok? {
          FeedAlike([rest] + work[1..], Emit(r, piece, img).value, Emit(s, piece, img).value, p, l, img);
        }
      }
    }
  }

  // ----- Calls behind what is signed -----

  predicate CallsOnly(m: Message) { m.text == [] && m.calls != [] }

  /** Calls behind text or calls are signed the same as one message and as two. */
  predicate Stays(a: Message, rest: Message) {
    && Mergeable(a) && Mergeable(rest)
    && (a.text != [] || a.calls != [])
    && CallsOnly(rest)
  }

  lemma StayedSigns(a: Message, rest: Message)
    requires Stays(a, rest)
    ensures AssistantSigs(Joined(a, rest)) == AssistantSigs(a) + AssistantSigs(rest)
  {
    hide Signature;
    var m := Joined(a, rest);
    assert CallSigs(m.calls) == CallSigs(a.calls) + CallSigs(rest.calls);
    assert m.text == a.text;
  }

  lemma StayedStays(a: Message, rest: Message, prefix: seq<Sig>, offset: nat, limits: Limits)
    requires Stays(a, rest) && Saves(prefix, offset, a) && Saves(prefix, offset + |AssistantSigs(a)|, rest)
    ensures Saves(prefix, offset, Joined(a, rest)) && SplitFirst(Joined(a, rest), prefix, offset, limits).None?
  {
    hide AssistantSigs, SplitFirst;
    StayedSigns(a, rest);
    var n := |AssistantSigs(a)|;
    assert prefix[offset..][n..] == prefix[offset + n..];
    assert prefix[offset..] == prefix[offset..][..n] + prefix[offset..][n..];
    WholeStays(Joined(a, rest), prefix, limits, offset);
  }

  lemma {:induction false} CallsInTwo(r: Rendered, front: seq<Call>, back: seq<Call>, k: nat)
    requires k <= |back| && AddCalls(r, front, |front|).Ok?
    ensures AddCalls(r, front + back, |front| + k) == AddCalls(AddCalls(r, front, |front|).value, back, k)
  {
    hide Signature, InvalidNext;
    if k == 0 {
      CallsLookBack(r, front, back, |front|);
    } else {
      CallsInTwo(r, front, back, k - 1);
      assert (front + back)[|front| + k - 1] == back[k - 1];
    }
  }

  lemma {:induction false} CallsLookBack(r: Rendered, front: seq<Call>, back: seq<Call>, k: nat)
    requires k <= |front|
    ensures AddCalls(r, front + back, k) == AddCalls(r, front, k)
  {
    hide Signature, InvalidNext;
    if k > 0 {
      CallsLookBack(r, front, back, k - 1);
      assert (front + back)[k - 1] == front[k - 1];
    }
  }

  /** The words of the joined message are those of `a`, up to reasoning that is not signed. */
  lemma StayedWords(r: Rendered, s: Rendered, a: Message, rest: Message)
    requires Stays(a, rest)
    ensures Alike(AddWords(r, Joined(a, rest)), AddWords(r, a)) && Alike(AddWords(s, rest), s)
    ensures rest.reasoning == [] ==> AddWords(r, Joined(a, rest)) == AddWords(r, a) && AddWords(s, rest) == s
  {
    hide Signature;
    var m := Joined(a, rest);
    assert m.text == a.text && m.calls != [];
    assert rest.reasoning == [] ==> m.reasoning == a.reasoning;
  }

  lemma StayedEmits(r: Rendered, a: Message, rest: Message, img: bool)
    requires Stays(a, rest) && Emit(r, a, img).Ok? && Emit(Emit(r, a, img).value, rest, img).Ok?
    ensures Emit(r, Joined(a, rest), img).Ok?
    ensures Alike(Emit(r, Joined(a, rest), img).value, Emit(Emit(r, a, img).value, rest, img).value)
    ensures rest.reasoning == [] ==> Emit(r, Joined(a, rest), img) == Emit(Emit(r, a, img).value, rest, img)
  {
    hide AddWords, AddCalls, Signature;
    var m, s := Joined(a, rest), Emit(r, a, img).value;
    assert m.calls == a.calls + rest.calls && m.text == a.text;
    StayedWords(r, s, a, rest);
    var words := AddWords(r, m);
    CallsAlike(words, AddWords(r, a), a.calls, |a.calls|);
    CallsInTwo(words, a.calls, rest.calls, |rest.calls|);
    CallsAlike(AddCalls(words, a.calls, |a.calls|).value, AddWords(s, rest), rest.calls, |rest.calls|);
  }

  lemma {:induction false} CallsPend(r: Rendered, calls: seq<Call>, k: nat)
    requires 0 < k <= |calls| && AddCalls(r, calls, k).Ok?
    ensures AddCalls(r, calls, k).value.pending != {}
  {
    hide Signature, InvalidNext;
    assert calls[k - 1].id in AddCalls(r, calls, k).value.pending;
  }

  lemma AnsweredPends(r: Rendered, m: Message, img: bool)
    requires Mergeable(m) && m.calls != [] && Emit(r, m, img).Ok?
    ensures Emit(r, m, img).value.pending != {}
  {
    hide AddWords, AddCalls;
    CallsPend(AddWords(r, m), m.calls, |m.calls|);
  }

  /** Before their results, calls can only be followed by calls. */
  lemma PendingAsksForCalls(r: Rendered, m: Message, img: bool)
    requires Mergeable(m) && r.pending != {} && Emit(r, m, img).Ok?
    ensures CallsOnly(m)
  {
    hide AddWords, AddCalls;
  }

  // ----- Runs of fragments -----

  /** Neighbours that the runtime merges. */
  predicate Joins(units: seq<Message>, i: nat) {
    i + 1 < |units| && Mergeable(units[i]) && Mergeable(units[i + 1])
  }

  /** What continues an answer with text without hiding where that text ends: more text, if
      there is no reasoning around, or calls. */
  predicate Proven(a: Message, b: Message) {
    a.text != [] ==> if b.text != [] then a.reasoning == [] && b.reasoning == [] else b.calls != []
  }

  /** The next fragment and the rest of the run as a whole both continue fragment `i`. */
  predicate Linked(units: seq<Message>, i: nat)
    requires Joins(units, i)
  {
    && HasContent(units[i]) && HasContent(units[i + 1])
    && Proven(units[i], units[i + 1])
    && Proven(units[i], Runs(units, i + 1)[0])
  }

  ghost predicate Chained(units: seq<Message>, limits: Limits) {
    forall i: nat :: Joins(units, i) ==> Linked(units, i) && Reaches(limits, units[i])
  }

  /** No reasoning stands between a signed fragment and the calls behind it, where it would
      be shown before that fragment. */
  predicate Tight(units: seq<Message>) {
    forall i :: 0 <= i < |units| && Joins(units, i) && (units[i].text != [] || units[i].calls != []) ==>
      units[i + 1].reasoning == []
  }

  lemma RunsApart(units: seq<Message>, i: nat)
    requires i < |units| && !Joins(units, i)
    ensures Runs(units, i) == [units[i]] + Runs(units, i + 1)
  {
    hide Mergeable;
  }

  lemma RunsTogether(units: seq<Message>, i: nat)
    requires Joins(units, i)
    ensures var rest := Runs(units, i + 1);
      Runs(units, i) == [Joined(units[i], rest[0])] + rest[1..] && Mergeable(rest[0])
  {
    hide Mergeable, Joined;
  }

  lemma RunHasContent(units: seq<Message>, i: nat)
    requires i < |units| && HasContent(units[i])
    ensures HasContent(Runs(units, i)[0])
    ensures units[i].text != [] ==> Runs(units, i)[0].text != []
    ensures units[i].reasoning != [] ==> Runs(units, i)[0].reasoning != []
    ensures units[i].calls != [] ==> Runs(units, i)[0].calls != []
  {
  }

  lemma {:induction false} ApartExtends(units: seq<Message>, i: nat, n: nat, r: Rendered, img: bool)
    requires i <= n <= |units| && Apart(units, i, n, r, img).Ok?
    ensures r.prefix <= Apart(units, i, n, r, img).value.prefix
    decreases n - i
  {
    hide Emit;
    if i < n {
      EmitSigns(r, units[i], img);
      ApartExtends(units, i + 1, n, Emit(r, units[i], img).value, img);
    }
  }

  /** A message below the bound has its signatures saved where rendering stands. */
  lemma BoundIsSaved(units: seq<Message>, i: nat, n: nat, r: Rendered, img: bool)
    requires i < n <= |units| && Apart(units, i, n, r, img).Ok? && Mergeable(units[i])
    ensures Saves(Apart(units, i, n, r, img).value.prefix, |r.prefix|, units[i])
    ensures Emit(r, units[i], img).Ok?
    ensures Emit(r, units[i], img).value.prefix == r.prefix + AssistantSigs(units[i])
  {
    hide Emit, AssistantSigs, Mergeable;
    EmitSigns(r, units[i], img);
    ApartExtends(units, i + 1, n, Emit(r, units[i], img).value, img);
  }

  lemma ApartNext(units: seq<Message>, i: nat, n: nat, r: Rendered, img: bool)
    requires i < n <= |units| && Apart(units, i, n, r, img).Ok?
    ensures Emit(r, units[i], img).Ok?
    ensures Apart(units, i, n, r, img) == Apart(units, i + 1, n, Emit(r, units[i], img).value, img)
  {
    hide Emit;
  }

  lemma FeedSplit(m: Message, piece: Message, rest: Message, work: seq<Message>, r: Rendered, p: seq<Sig>, l: Limits,
      img: bool)
    requires Mergeable(m) && SplitFirst(m, p, |r.prefix|, l) == Some((piece, rest))
    ensures var next := Emit(r, piece, img);
      Feed([m] + work, r, p, l, img) == if next.Err? then next else Feed([rest] + work, next.value, p, l, img)
  {
    hide SplitFirst, Emit;
    assert ([m] + work)[1..] == work;
  }

  /** Before their results, a whole run is calls. */
  lemma {:induction false} RunOfCalls(units: seq<Message>, i: nat, r: Rendered, img: bool)
    requires i < |units| && Mergeable(units[i]) && r.pending != {} && Apart(units, i, |units|, r, img).Ok?
    ensures CallsOnly(units[i]) && CallsOnly(Runs(units, i)[0])
    ensures Tight(units) && units[i].reasoning == [] ==> Runs(units, i)[0].reasoning == []
    decreases |units| - i
  {
    hide Emit, Runs, Apart;
    ApartNext(units, i, |units|, r, img);
    PendingAsksForCalls(r, units[i], img);
    if Joins(units, i) {
      AnsweredPends(r, units[i], img);
      RunOfCalls(units, i + 1, Emit(r, units[i], img).value, img);
      RunsTogether(units, i);
    } else {
      RunsApart(units, i);
    }
  }

  /** Such a run stays whole and renders at once. */
  lemma {:induction false} RunOfCallsStays(units: seq<Message>, i: nat, r: Rendered, prefix: seq<Sig>, img: bool)
    requires i < |units| && Mergeable(units[i]) && CallsOnly(units[i]) && Apart(units, i, |units|, r, img).Ok?
    requires Apart(units, i, |units|, r, img).value.prefix == prefix
    ensures CallsOnly(Runs(units, i)[0]) && Mergeable(Runs(units, i)[0])
    ensures Saves(prefix, |r.prefix|, Runs(units, i)[0]) && Emit(r, Runs(units, i)[0], img).Ok?
    ensures Tight(units) && units[i].reasoning == [] ==> Runs(units, i)[0].reasoning == []
    decreases |units| - i
  {
    hide Emit, Runs, Apart, AssistantSigs, Saves;
    BoundIsSaved(units, i, |units|, r, img);
    ApartNext(units, i, |units|, r, img);
    if Joins(units, i) {
      var next := Emit(r, units[i], img).value;
      AnsweredPends(r, units[i], img);
      RunOfCalls(units, i + 1, next, img);
      RunOfCallsStays(units, i + 1, next, prefix, img);
      RunsTogether(units, i);
      var rest := Runs(units, i + 1)[0];
      StayedStays(units[i], rest, prefix, |r.prefix|, Limits(0, 0));
      StayedEmits(r, units[i], rest, img);
      JoinedMergesAlike(units[i], rest);
    } else {
      RunsApart(units, i);
    }
  }

  /** What the rest of a run needs so that its first fragment is cut off or stays. */
  lemma RunCutsOrStays(units: seq<Message>, i: nat, r: Rendered, img: bool)
    requires Joins(units, i) && HasContent(units[i]) && HasContent(units[i + 1])
    requires Apart(units, i, |units|, r, img).Ok?
    ensures var a, rest := units[i], Runs(units, i + 1)[0];
      && Mergeable(rest)
      && (Proven(a, units[i + 1]) && Proven(a, rest) ==>
            Cuts(a, rest) || (Stays(a, rest) && CallsOnly(units[i + 1])))
      && (Cuts(a, rest) ==> Proven(a, units[i + 1]) && Proven(a, rest))
      && (Stays(a, rest) && CallsOnly(units[i + 1]) ==> Proven(a, units[i + 1]) && Proven(a, rest))
      && (a.calls != [] ==> Stays(a, rest) && CallsOnly(units[i + 1]))
  {
    hide Emit, Runs, Apart;
    RunHasContent(units, i + 1);
    ApartNext(units, i, |units|, r, img);
    RunStartsAlike(units, i + 1);
    if units[i].calls != [] {
      AnsweredPends(r, units[i], img);
      RunOfCalls(units, i + 1, Emit(r, units[i], img).value, img);
    }
  }

  lemma RunStartsAlike(units: seq<Message>, i: nat)
    requires i < |units|
    ensures Mergeable(Runs(units, i)[0]) == Mergeable(units[i])
  {
  }

  // ----- Rendering a run -----

  lemma LoneStays(units: seq<Message>, i: nat, r: Rendered, prefix: seq<Sig>, limits: Limits, img: bool)
    requires i < |units| && Apart(units, i, |units|, r, img).Ok?
    requires Apart(units, i, |units|, r, img).value.prefix == prefix
    ensures SplitNext(units[i], prefix, |r.prefix|, limits).None?
  {
    hide Emit, SplitFirst, AssistantSigs;
    if Mergeable(units[i]) {
      BoundIsSaved(units, i, |units|, r, img);
      WholeStays(units[i], prefix, limits, |r.prefix|);
    }
  }

  /** One message on its own: `r` is where rendering stands, `q` where it would stand apart. */
  lemma LoneRenders(units: seq<Message>, i: nat, r: Rendered, q: Rendered, prefix: seq<Sig>, limits: Limits, img: bool)
    requires i < |units| && !Joins(units, i) && Alike(r, q) && Apart(units, i, |units|, q, img).Ok?
    requires Apart(units, i, |units|, q, img).value.prefix == prefix
    ensures Emit(r, units[i], img).Ok? && Emit(q, units[i], img).Ok?
    ensures Alike(Emit(r, units[i], img).value, Emit(q, units[i], img).value)
    ensures Feed(Runs(units, i), r, prefix, limits, img) ==
      Feed(Runs(units, i + 1), Emit(r, units[i], img).value, prefix, limits, img)
  {
    hide Runs, Emit, SplitNext, Apart, Feed;
    RunsApart(units, i);
    LoneStays(units, i, q, prefix, limits, img);
    ApartNext(units, i, |units|, q, img);
    EmitAlike(r, q, units[i], img);
    FeedOne(units[i], Runs(units, i + 1), r, prefix, limits, img);
  }

  lemma CutRenders(units: seq<Message>, i: nat, r: Rendered, q: Rendered, prefix: seq<Sig>, limits: Limits, img: bool)
    requires Joins(units, i) && Cuts(units[i], Runs(units, i + 1)[0]) && Reaches(limits, units[i])
    requires Alike(r, q) && Apart(units, i, |units|, q, img).Ok?
    requires Apart(units, i, |units|, q, img).value.prefix == prefix
    ensures Emit(r, units[i], img).Ok? && Emit(q, units[i], img).Ok?
    ensures Alike(Emit(r, units[i], img).value, Emit(q, units[i], img).value)
    ensures Feed(Runs(units, i), r, prefix, limits, img) ==
      Feed(Runs(units, i + 1), Emit(r, units[i], img).value, prefix, limits, img)
  {
    hide Runs, Emit, SplitFirst, Apart, Feed, Cuts, Saves, Reaches, AssistantSigs;
    RunsTogether(units, i);
    BoundIsSaved(units, i, |units|, q, img);
    EmitAlike(r, q, units[i], img);
    var rest := Runs(units, i + 1);
    FragmentSplitsOff(units[i], rest[0], prefix, |r.prefix|, limits);
    JoinedMergesAlike(units[i], rest[0]);
    FeedSplit(Joined(units[i], rest[0]), units[i], rest[0], rest[1..], r, prefix, limits, img);
    assert [rest[0]] + rest[1..] == rest;
  }

  /** A fragment that stays with the calls behind it: rendered at once or one after the
      other, what follows finds the same books. */
  lemma StayRenders(units: seq<Message>, i: nat, r: Rendered, q: Rendered, prefix: seq<Sig>, limits: Limits, img: bool)
    requires Joins(units, i) && Stays(units[i], Runs(units, i + 1)[0]) && CallsOnly(units[i + 1])
    requires Alike(r, q) && Apart(units, i, |units|, q, img).Ok?
    requires Apart(units, i, |units|, q, img).value.prefix == prefix
    ensures Emit(r, units[i], img).Ok? && Emit(q, units[i], img).Ok?
    ensures Alike(Emit(r, units[i], img).value, Emit(q, units[i], img).value)
    ensures var one, two := Feed(Runs(units, i), r, prefix, limits, img),
                            Feed(Runs(units, i + 1), Emit(r, units[i], img).value, prefix, limits, img);
      && one.Ok? == two.Ok?
      && (one.Ok? ==> Alike(one.value, two.value))
      && (Tight(units) ==> one == two)
  {
    hide Runs, Emit, SplitFirst, Apart, Feed, Saves, AssistantSigs, Alike;
    RunsTogether(units, i);
    BoundIsSaved(units, i, |units|, q, img);
    ApartNext(units, i, |units|, q, img);
    EmitAlike(r, q, units[i], img);
    var rest, s := Runs(units, i + 1), Emit(r, units[i], img).value;
    var after := Emit(q, units[i], img).value;
    RunOfCallsStays(units, i + 1, after, prefix, img);
    EmitAlike(s, after, rest[0], img);
    AlikeStands(r, q);
    AlikeStands(s, after);
    StayedFeeds(units[i], rest[0], rest[1..], r, prefix, limits, img);
    assert [rest[0]] + rest[1..] == rest;
    if Tight(units) {
      assert units[i + 1].reasoning == [];
    }
  }

  lemma AlikeStands(r: Rendered, s: Rendered)
    requires Alike(r, s)
    ensures r.prefix == s.prefix
  {
  }

  lemma StayedFeeds(a: Message, rest: Message, work: seq<Message>, r: Rendered, prefix: seq<Sig>, limits: Limits,
                    img: bool)
    requires Stays(a, rest) && Emit(r, a, img).Ok? && Emit(Emit(r, a, img).value, rest, img).Ok?
    requires Emit(r, a, img).value.prefix == r.prefix + AssistantSigs(a)
    requires Saves(prefix, |r.prefix|, a) && Saves(prefix, |Emit(r, a, img).value.prefix|, rest)
    ensures var one, two := Feed([Joined(a, rest)] + work, r, prefix, limits, img),
                            Feed([rest] + work, Emit(r, a, img).value, prefix, limits, img);
      && one.Ok? == two.Ok?
      && (one.Ok? ==> Alike(one.value, two.value))
      && (rest.reasoning == [] ==> one == two)
  {
    hide Emit, SplitFirst, Feed, AssistantSigs, Alike;
    var s := Emit(r, a, img).value;
    StayedStays(a, rest, prefix, |r.prefix|, limits);
    WholeStays(rest, prefix, limits, |s.prefix|);
    StayedEmits(r, a, rest, img);
    FeedOne(Joined(a, rest), work, r, prefix, limits, img);
    FeedOne(rest, work, s, prefix, limits, img);
    FeedAlike(work, Emit(r, Joined(a, rest), img).value, Emit(s, rest, img).value, prefix, limits, img);
  }

  /** The merged messages under the signatures they were saved with keep the same books as
      if they had never been merged; and they render the same, unless reasoning was given
      between a signed fragment and the calls behind it. */
  lemma {:induction false} RunsRenderApart(units: seq<Message>, i: nat, r: Rendered, q: Rendered, prefix: seq<Sig>,
      limits: Limits, img: bool)
    requires Chained(units, limits) && i <= |units| && Alike(r, q)
    requires Apart(units, i, |units|, q, img).Ok? && Apart(units, i, |units|, q, img).value.prefix == prefix
    ensures var out := Feed(Runs(units, i), r, prefix, limits, img);
      && out.Ok? && Alike(out.value, Apart(units, i, |units|, q, img).value)
      && (Tight(units) && r == q ==> out == Apart(units, i, |units|, q, img))
    decreases |units| - i
  {
    hide Runs, Emit, Apart, Feed, Cuts, Stays, Tight, Proven, Reaches, CallsOnly, HasContent;
    if i == |units| {
      NothingToFeed(units, r, q, prefix, limits, img);
    } else {
      if !Joins(units, i) {
        LoneRenders(units, i, r, q, prefix, limits, img);
      } else {
        assert Linked(units, i) && Reaches(limits, units[i]);
        RunCutsOrStays(units, i, q, img);
        if Cuts(units[i], Runs(units, i + 1)[0]) {
          CutRenders(units, i, r, q, prefix, limits, img);
        } else {
          StayRenders(units, i, r, q, prefix, limits, img);
        }
      }
      ApartNext(units, i, |units|, q, img);
      RunsRenderApart(units, i + 1, Emit(r, units[i], img).value, Emit(q, units[i], img).value, prefix, limits, img);
    }
  }

  lemma NothingToFeed(units: seq<Message>, r: Rendered, q: Rendered, prefix: seq<Sig>, limits: Limits, img: bool)
    ensures Feed(Runs(units, |units|), r, prefix, limits, img) == Ok(r)
    ensures Apart(units, |units|, |units|, q, img) == Ok(q)
  {
  }

  // ----- Which runs are proven -----

  /** One answer and what continued it, piece by piece. */
  predicate IsRun(units: seq<Message>) {
    forall i :: 0 <= i < |units| ==> Mergeable(units[i]) && HasContent(units[i])
  }

  /** The saved signatures are found again. */
  predicate Finds(out: Result<Rendered, Failure>, saved: seq<Sig>) {
    out.Ok? && saved <= out.value.prefix
  }

  /** Text with reasoning anywhere in its message is not searched. */
  lemma TextAmongReasoningStays(a: Message, rest: Message, prefix: seq<Sig>, offset: nat, limits: Limits)
    requires a.text != [] && a.reasoning + rest.reasoning != [] && Saves(prefix, offset, a)
    ensures SplitFirst(Joined(a, rest), prefix, offset, limits).None?
  {
    hide BoundPrefix, Continues, AssistantSigs;
    var m := Joined(a, rest);
    SignedFirst(a);
    assert prefix[offset..][0] == AssistantSigs(a)[0];
    assert prefix[offset].MessageSig?;
    BoundPrefixInside(m.reasoning, prefix[offset], true, limits.reasoning);
  }

  /** Text that continues text changes what is signed first. */
  lemma LongerTextSignsApart(a: Message, rest: Message, saved: seq<Sig>)
    requires a.text != [] && rest.text != [] && AssistantSigs(a) <= saved
    ensures !(saved <= AssistantSigs(Joined(a, rest)))
  {
    hide StringSig, Signature;
    var m := Joined(a, rest);
    SignedFirst(a);
    SignedFirst(m);
    DifferentLengthsSignApart(m.text, a.text, false);
    assert saved[0] == AssistantSigs(a)[0];
  }

  /** Reasoning behind text is signed on its own, but not in one message with that text. */
  lemma ReasoningBehindTextSignsApart(a: Message, b: Message, rest: Message, saved: seq<Sig>)
    requires a.text != [] && a.calls == [] && rest.text == []
    requires b.reasoning != [] && b.text == [] && b.calls == []
    requires AssistantSigs(a) + AssistantSigs(b) <= saved
    ensures !(saved <= AssistantSigs(Joined(a, rest)))
  {
    var m := Joined(a, rest);
    WordsSignOnce(a);
    WordsSignOnce(b);
    SignedBehindText(m);
    hide AssistantSigs;
    assert saved[1] == (AssistantSigs(a) + AssistantSigs(b))[1];
  }

  lemma WordsSignOnce(m: Message)
    requires m.calls == [] && HasContent(m)
    ensures AssistantSigs(m) == [if m.text != [] then StringSig(m.text, false) else StringSig(m.reasoning, true)]
    ensures m.text == [] ==> AssistantSigs(m)[0].ReasoningSig?
  {
  }

  lemma SignedBehindText(m: Message)
    requires m.text != []
    ensures forall i :: 0 < i < |AssistantSigs(m)| ==> AssistantSigs(m)[i].CallSig?
  {
  }

  lemma UncutIsNotFound(m: Message, r: Rendered, saved: seq<Sig>, limits: Limits, img: bool)
    requires Mergeable(m) && SplitFirst(m, saved, |r.prefix|, limits).None?
    requires r.prefix <= saved && !(saved[|r.prefix|..] <= AssistantSigs(m))
    ensures !Finds(Feed([m], r, saved, limits, img), saved)
  {
    hide Emit, SplitFirst, Feed, AssistantSigs;
    FeedOne(m, [], r, saved, limits, img);
    assert [m] + [] == [m];
    if Emit(r, m, img).Ok? {
      EmitSigns(r, m, img);
      FeedNone(Emit(r, m, img).value, saved, limits, img);
      var prefix := Emit(r, m, img).value.prefix;
      assert prefix[|r.prefix|..] == AssistantSigs(m);
      if saved <= prefix {
        PrefixBehind(saved, prefix, |r.prefix|);
      }
    }
  }

  lemma PrefixBehind(a: seq<Sig>, b: seq<Sig>, n: nat)
    requires n <= |a| && a <= b
    ensures a[n..] <= b[n..]
  {
  }

  lemma FeedNone(r: Rendered, p: seq<Sig>, l: Limits, img: bool)
    ensures Feed([], r, p, l, img) == Ok(r)
  {
  }

  lemma {:induction false} RunIsOne(units: seq<Message>, i: nat)
    requires IsRun(units) && i < |units|
    ensures Runs(units, i) == [Runs(units, i)[0]]
    decreases |units| - i
  {
    hide HasContent, Joined;
    if i + 1 < |units| {
      RunIsOne(units, i + 1);
    } else {
      assert Runs(units, i + 1) == [];
    }
  }

  /** A fragment that is neither cut off nor followed by calls alone hides its signature. */
  lemma UnlinkedIsNotFound(units: seq<Message>, i: nat, r: Rendered, saved: seq<Sig>, limits: Limits, img: bool)
    requires IsRun(units) && Joins(units, i) && !Linked(units, i)
    requires Apart(units, i, |units|, r, img).Ok? && Apart(units, i, |units|, r, img).value.prefix == saved
    ensures !Finds(Feed(Runs(units, i), r, saved, limits, img), saved)
  {
    hide Emit, Runs, Apart, Feed, SplitFirst, AssistantSigs, Finds, StringSig;
    var a, b, rest := units[i], units[i + 1], Runs(units, i + 1)[0];
    RunIsOne(units, i);
    RunsTogether(units, i);
    RunCutsOrStays(units, i, r, img);
    RunHasContent(units, i + 1);
    BoundIsSaved(units, i, |units|, r, img);
    ApartNext(units, i, |units|, r, img);
    BoundIsSaved(units, i + 1, |units|, Emit(r, a, img).value, img);
    JoinedMergesAlike(a, rest);
    ApartExtends(units, i, |units|, r, img);
    assert a.reasoning + rest.reasoning != [];
    TextAmongReasoningStays(a, rest, saved, |r.prefix|, limits);
    var own := saved[|r.prefix|..];
    assert own[|AssistantSigs(a)|..] == saved[|r.prefix| + |AssistantSigs(a)|..];
    assert own == own[..|AssistantSigs(a)|] + own[|AssistantSigs(a)|..];
    if rest.text != [] {
      LongerTextSignsApart(a, rest, own);
    } else {
      ReasoningBehindTextSignsApart(a, b, rest, own);
    }
    UncutIsNotFound(Joined(a, rest), r, saved, limits, img);
  }

  /** Shown as one message, the fragments of an answer reproduce their signatures if and
      only if each of them is continued so that its end can be told. */
  lemma {:induction false} RunIsProvenIff(units: seq<Message>, i: nat, r: Rendered, saved: seq<Sig>, limits: Limits,
      img: bool)
    requires IsRun(units) && i < |units| && (forall j :: i <= j < |units| - 1 ==> Reaches(limits, units[j]))
    requires Apart(units, i, |units|, r, img).Ok? && Apart(units, i, |units|, r, img).value.prefix == saved
    ensures Finds(Feed(Runs(units, i), r, saved, limits, img), saved) <==>
      forall j: nat :: i <= j && Joins(units, j) ==> Linked(units, j)
    decreases |units| - i
  {
    hide Emit, Runs, Apart, Feed, Cuts, Stays, Proven, Reaches, CallsOnly, HasContent, Finds, Linked, Mergeable;
    if i + 1 == |units| {
      LastIsFound(units, i, r, saved, limits, img);
    } else {
      assert Joins(units, i) && Mergeable(units[i]);
      ApartNext(units, i, |units|, r, img);
      var next := Emit(r, units[i], img).value;
      if !Linked(units, i) {
        UnlinkedIsNotFound(units, i, r, saved, limits, img);
      } else {
        RunIsProvenIff(units, i + 1, next, saved, limits, img);
        LinkedIsFoundLater(units, i, r, saved, limits, img);
      }
    }
  }

  lemma LastIsFound(units: seq<Message>, i: nat, r: Rendered, saved: seq<Sig>, limits: Limits, img: bool)
    requires IsRun(units) && i + 1 == |units|
    requires Apart(units, i, |units|, r, img).Ok? && Apart(units, i, |units|, r, img).value.prefix == saved
    ensures Finds(Feed(Runs(units, i), r, saved, limits, img), saved)
  {
    hide Emit, Runs, Feed, Apart;
    LoneRenders(units, i, r, r, saved, limits, img);
    ApartNext(units, i, |units|, r, img);
    NothingToFeed(units, Emit(r, units[i], img).value, Emit(r, units[i], img).value, saved, limits, img);
  }

  lemma LinkedIsFoundLater(units: seq<Message>, i: nat, r: Rendered, saved: seq<Sig>, limits: Limits, img: bool)
    requires IsRun(units) && Joins(units, i) && Linked(units, i) && Reaches(limits, units[i])
    requires Apart(units, i, |units|, r, img).Ok? && Apart(units, i, |units|, r, img).value.prefix == saved
    ensures Emit(r, units[i], img).Ok?
    ensures Finds(Feed(Runs(units, i), r, saved, limits, img), saved) <==>
      Finds(Feed(Runs(units, i + 1), Emit(r, units[i], img).value, saved, limits, img), saved)
  {
    hide Emit, Runs, Apart, Feed, Cuts, Stays, Proven, Reaches, CallsOnly, HasContent;
    RunCutsOrStays(units, i, r, img);
    if Cuts(units[i], Runs(units, i + 1)[0]) {
      CutRenders(units, i, r, r, saved, limits, img);
    } else {
      StayRenders(units, i, r, r, saved, limits, img);
    }
  }

  /** An answer and one continuation: text with reasoning around it is proven in front of
      calls alone, text without reasoning in front of text or calls, and reasoning alone or
      calls in front of anything that may follow them. */
  lemma GroupIsProvenIff(a: Message, b: Message, r: Rendered, limits: Limits, img: bool)
    requires Mergeable(a) && HasContent(a) && Mergeable(b) && HasContent(b) && Reaches(limits, a)
    requires Emit(r, a, img).Ok? && Emit(Emit(r, a, img).value, b, img).Ok?
    ensures var saved := r.prefix + AssistantSigs(a) + AssistantSigs(b);
      var out := Feed([Joined(a, b)], r, saved, limits, img);
      out.Ok? && saved <= out.value.prefix <==>
        (a.text != [] ==> if b.text != [] then a.reasoning == [] && b.reasoning == [] else b.calls != [])
  {
    hide Emit, AssistantSigs, SplitFirst, Feed, HasContent, Reaches, Mergeable;
    var units, saved := [a, b], r.prefix + AssistantSigs(a) + AssistantSigs(b);
    EmitSigns(r, a, img);
    EmitSigns(Emit(r, a, img).value, b, img);
    TwoApart(a, b, r, img);
    RunsTogether(units, 0);
    RunsApart(units, 1);
    assert Runs(units, 2) == [];
    assert Runs(units, 0) == [Joined(a, b)] && Runs(units, 1)[0] == b;
    RunIsProvenIff(units, 0, r, saved, limits, img);
    assert Joins(units, 0) && forall j: nat :: Joins(units, j) ==> j == 0;
  }

  lemma TwoApart(a: Message, b: Message, r: Rendered, img: bool)
    requires Emit(r, a, img).Ok?
    ensures Apart([a, b], 0, 2, r, img) == Emit(Emit(r, a, img).value, b, img)
  {
    hide Emit;
    var next := Emit(Emit(r, a, img).value, b, img);
    assert Apart([a, b], 1, 2, Emit(r, a, img).value, img) ==
      if next.Err? then next else Apart([a, b], 2, 2, next.value, img);
  }
}
