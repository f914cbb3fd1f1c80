/** What splitting conserves, and that saved histories replay over whole conversations. */
module DeepSeekHistoryLaws {
  import opened Wrappers
  import opened DeepSeekHistory

  // ----- The boundary search -----

  /** Within one value a signature names at most one boundary. */
  lemma BoundaryIsUnique(value: Runes, reasoning: bool, i: nat, j: nat)
    requires i <= |value| && j <= |value|
    requires StringSig(value[..i], reasoning) == StringSig(value[..j], reasoning)
    ensures i == j
  {
    assert |Spelled(value[..i])| == i && |Spelled(value[..j])| == j;
  }

  lemma BytesGrow(value: Runes, i: nat, j: nat)
    requires i <= j <= |value|
    ensures i - j + Bytes(value, j) >= Bytes(value, i)
    decreases j
  {
    if i < j {
      BytesGrow(value, i, j - 1);
    }
  }

  predicate IsBound(value: Runes, signature: Sig, reasoning: bool, limit: nat, i: nat) {
    0 < i <= |value| && StringSig(value[..i], reasoning) == signature && WithinLimit(value, i, limit)
  }

  lemma {:induction false} BoundFound(value: Runes, signature: Sig, reasoning: bool, limit: nat, i: nat, k: nat)
    requires k < i && IsBound(value, signature, reasoning, limit, i)
    ensures BoundFrom(value, signature, reasoning, limit, k) == Some(i)
    decreases i - k
  {
    BytesGrow(value, k + 1, i);
    if StringSig(value[..k + 1], reasoning) == signature {
      BoundaryIsUnique(value, reasoning, i, k + 1);
    } else {
      BoundFound(value, signature, reasoning, limit, i, k + 1);
    }
  }

  /** The search returns the one rune boundary inside the limit whose prefix was signed,
      and nothing exactly when there is none. */
  lemma BoundPrefixIff(value: Runes, signature: Sig, reasoning: bool, limit: nat, i: nat)
    ensures BoundPrefix(value, signature, reasoning, limit) == Some(i) <==>
      IsBound(value, signature, reasoning, limit, i)
    ensures BoundPrefix(value, signature, reasoning, limit).None? <==>
      forall j: nat :: !IsBound(value, signature, reasoning, limit, j)
  {
    BoundPrefixInside(value, signature, reasoning, limit);
    var r := BoundPrefix(value, signature, reasoning, limit);
    assert r.Some? ==> IsBound(value, signature, reasoning, limit, r.value);
    forall j: nat | IsBound(value, signature, reasoning, limit, j)
      ensures BoundPrefix(value, signature, reasoning, limit) == Some(j)
    {
      BoundFound(value, signature, reasoning, limit, j, 0);
    }
  }

  // ----- Splitting conserves -----

  function Texts(ms: seq<Message>, k: nat): Runes
    requires k <= |ms|
  {
    if k == 0 then [] else Texts(ms, k - 1) + ms[k - 1].text
  }

  function Reasonings(ms: seq<Message>, k: nat): Runes
    requires k <= |ms|
  {
    if k == 0 then [] else Reasonings(ms, k - 1) + ms[k - 1].reasoning
  }

  function AllCalls(ms: seq<Message>, k: nat): seq<Call>
    requires k <= |ms|
  {
    if k == 0 then [] else AllCalls(ms, k - 1) + ms[k - 1].calls
  }

  lemma {:induction false} TextsPrepend(m: Message, ms: seq<Message>, k: nat)
    requires k <= |ms|
    ensures Texts([m] + ms, k + 1) == m.text + Texts(ms, k)
  {
    assert ([m] + ms)[k] == if k == 0 then m else ms[k - 1];
    if k > 0 {
      TextsPrepend(m, ms, k - 1);
    }
  }

  lemma {:induction false} ReasoningsPrepend(m: Message, ms: seq<Message>, k: nat)
    requires k <= |ms|
    ensures Reasonings([m] + ms, k + 1) == m.reasoning + Reasonings(ms, k)
  {
    assert ([m] + ms)[k] == if k == 0 then m else ms[k - 1];
    if k > 0 {
      ReasoningsPrepend(m, ms, k - 1);
    }
  }

  lemma {:induction false} CallsPrepend(m: Message, ms: seq<Message>, k: nat)
    requires k <= |ms|
    ensures AllCalls([m] + ms, k + 1) == m.calls + AllCalls(ms, k)
  {
    assert ([m] + ms)[k] == if k == 0 then m else ms[k - 1];
    if k > 0 {
      CallsPrepend(m, ms, k - 1);
    }
  }

  predicate Spells(pieces: seq<Message>, m: Message) {
    && Texts(pieces, |pieces|) == m.text
    && Reasonings(pieces, |pieces|) == m.reasoning
    && AllCalls(pieces, |pieces|) == m.calls
  }

  lemma SpellsMore(piece: Message, later: seq<Message>, rest: Message, m: Message)
    requires Spells(later, rest)
    requires piece.text + rest.text == m.text && piece.reasoning + rest.reasoning == m.reasoning
    requires piece.calls + rest.calls == m.calls
    ensures Spells([piece] + later, m)
  {
    TextsPrepend(piece, later, |later|);
    ReasoningsPrepend(piece, later, |later|);
    CallsPrepend(piece, later, |later|);
  }

  lemma SpellsItself(m: Message)
    ensures Spells([m], m)
    ensures !HasContent(m) ==> Spells([], m)
  {
  }

  /** Whatever prefix was saved, the pieces spell the message in order, every piece but the
      last is proven by the next saved signature, and no piece is empty. */
  lemma {:induction false} PiecesConserve(m: Message, prefix: seq<Sig>, offset: nat, limits: Limits)
    requires Mergeable(m)
    ensures var pieces := Pieces(m, prefix, offset, limits);
      && Spells(pieces, m)
      && (offset <= |prefix| ==> |pieces| <= 1 + |prefix| - offset)
      && (forall i :: 0 <= i < |pieces| ==> HasContent(pieces[i]) && Mergeable(pieces[i]))
      && (forall i :: 0 <= i < |pieces| - 1 ==>
            offset + i < |prefix| && AssistantSigs(pieces[i]) == [prefix[offset + i]])
    decreases |prefix| - offset
  {
    hide SplitFirst, AssistantSigs, HasContent, Spells, Mergeable;
    var split := SplitFirst(m, prefix, offset, limits);
    SpellsItself(m);
    if split.Some? {
      var (piece, rest) := split.value;
      var later := Pieces(rest, prefix, offset + 1, limits);
      SplitPieceBound(m, prefix, offset, limits);
      SplitShrinks(m, prefix, offset, limits);
      SplitParts(m, prefix, offset, limits);
      PiecesConserve(rest, prefix, offset + 1, limits);
      SpellsMore(piece, later, rest, m);
    }
  }

  lemma SplitParts(m: Message, prefix: seq<Sig>, offset: nat, limits: Limits)
    requires SplitFirst(m, prefix, offset, limits).Some?
    ensures var (piece, rest) := SplitFirst(m, prefix, offset, limits).value;
      && HasContent(piece)
      && piece.text + rest.text == m.text
      && piece.reasoning + rest.reasoning == m.reasoning
      && piece.calls + rest.calls == m.calls
  {
    hide BoundPrefix, Continues;
    BoundPrefixInside(m.reasoning, prefix[offset], true, limits.reasoning);
    BoundPrefixInside(m.text, prefix[offset], false, limits.text);
  }

  // ----- Regrouped answers split back -----

  function Flat(parts: seq<Runes>, k: nat): Runes
    requires k <= |parts|
    decreases |parts| - k
  {
    if k == |parts| then [] else parts[k] + Flat(parts, k + 1)
  }

  /** What the saved history signed for text fragments followed by calls. */
  function FragmentSigs(parts: seq<Runes>, reasoning: bool): (r: seq<Sig>)
    ensures |r| == |parts|
  {
    seq(|parts|, i requires 0 <= i < |parts| => StringSig(parts[i], reasoning))
  }

  function Fragments(parts: seq<Runes>, k: nat, last: nat, reasoning: bool): seq<Message>
    requires k <= last <= |parts|
    decreases last - k
  {
    if k == last then []
    else [if reasoning then Piece([], parts[k]) else Piece(parts[k], [])] + Fragments(parts, k + 1, last, reasoning)
  }

  predicate FitParts(parts: seq<Runes>, limit: nat) {
    limit > 0 && forall i :: 0 <= i < |parts| ==> parts[i] != [] && Bytes(parts[i], |parts[i]|) <= limit
  }

  lemma BytesOfPrefix(value: Runes, part: Runes, k: nat)
    requires k <= |part| <= |value| && value[..|part|] == part
    ensures Bytes(value, k) == Bytes(part, k)
  {
    if k > 0 {
      BytesOfPrefix(value, part, k - 1);
      assert value[k - 1] == value[..|part|][k - 1];
    }
  }

  lemma FirstPartFound(value: Runes, part: Runes, reasoning: bool, limit: nat)
    requires part != [] && |part| <= |value| && value[..|part|] == part && Bytes(part, |part|) <= limit
    ensures BoundPrefix(value, StringSig(part, reasoning), reasoning, limit) == Some(|part|)
  {
    BytesOfPrefix(value, part, |part|);
    BoundFound(value, StringSig(part, reasoning), reasoning, limit, |part|, 0);
  }

  /** The message that grouping leaves once the first `k` text fragments are gone. */
  function Grouped(texts: seq<Runes>, k: nat, calls: seq<Call>): Message
    requires k <= |texts|
  {
    Message(Assistant, Flat(texts, k), [], calls, None, [])
  }

  lemma SigsOfLastText(text: Runes, calls: seq<Call>, prefix: seq<Sig>, offset: nat, limits: Limits)
    requires offset <= |prefix| && text != []
    requires [StringSig(text, false)] + CallSigs(calls) <= prefix[offset..]
    ensures SplitFirst(Message(Assistant, text, [], calls, None, []), prefix, offset, limits).None?
  {
    var m := Message(Assistant, text, [], calls, None, []);
    var sigs := AssistantSigs(m);
    assert sigs == [StringSig(text, false)] + CallSigs(calls);
    assert prefix[offset..][..|sigs|] == prefix[offset..offset + |sigs|];
  }

  /** Text fragments that were saved one by one and then grouped into one message, with the
      calls that followed, split back into exactly the saved fragments. */
  lemma {:induction false} GroupedTextSplitsBack(texts: seq<Runes>, k: nat, calls: seq<Call>, prefix: seq<Sig>,
      offset: nat, limits: Limits)
    requires k < |texts| && FitParts(texts, limits.text)
    requires offset <= |prefix| && FragmentSigs(texts, false)[k..] + CallSigs(calls) <= prefix[offset..]
    ensures Pieces(Grouped(texts, k, calls), prefix, offset, limits)
         == Fragments(texts, k, |texts| - 1, false) + [Piece(texts[|texts| - 1], []).(calls := calls)]
    decreases |texts| - k
  {
    hide SplitFirst, BoundPrefix, AssistantSigs;
    var m := Grouped(texts, k, calls);
    var own := FragmentSigs(texts, false)[k..];
    var sigs := own + CallSigs(calls);
    assert own[0] == StringSig(texts[k], false) && sigs[0] == own[0];
    assert prefix[offset..][0] == prefix[offset];
    if k == |texts| - 1 {
      assert Flat(texts, k + 1) == [];
      assert m.text == texts[k];
      assert own == [StringSig(texts[k], false)];
      assert sigs == [StringSig(texts[k], false)] + CallSigs(calls);
      SigsOfLastText(texts[k], calls, prefix, offset, limits);
    } else {
      TextSplitsOff(texts, k, calls, prefix, offset, limits);
      assert own[1..] == FragmentSigs(texts, false)[k + 1..];
      assert sigs[1..] == own[1..] + CallSigs(calls);
      assert prefix[offset + 1..] == prefix[offset..][1..];
      GroupedTextSplitsBack(texts, k + 1, calls, prefix, offset + 1, limits);
    }
  }

  lemma TextSplitsOff(texts: seq<Runes>, k: nat, calls: seq<Call>, prefix: seq<Sig>, offset: nat, limits: Limits)
    requires k + 1 < |texts| && FitParts(texts, limits.text)
    requires offset < |prefix| && prefix[offset] == StringSig(texts[k], false)
    ensures SplitFirst(Grouped(texts, k, calls), prefix, offset, limits)
         == Some((Piece(texts[k], []), Grouped(texts, k + 1, calls)))
  {
    hide BoundPrefix;
    var m := Grouped(texts, k, calls);
    assert m.text == texts[k] + Flat(texts, k + 1);
    assert Flat(texts, k + 1) == texts[k + 1] + Flat(texts, k + 2);
    assert m.text[..|texts[k]|] == texts[k] && m.text[|texts[k]|..] == Flat(texts, k + 1);
    FirstPartFound(m.text, texts[k], false, limits.text);
    DifferentLengthsSignApart(m.text, texts[k], false);
    var sigs := AssistantSigs(m);
    assert sigs[0] == StringSig(m.text, false);
    assert forall n :: 0 < n <= |sigs| && offset + n <= |prefix| ==> sigs[..n][0] != prefix[offset..offset + n][0];
    assert !Continues(m, prefix, offset);
  }

  lemma DifferentLengthsSignApart(a: Runes, b: Runes, reasoning: bool)
    requires |a| != |b|
    ensures StringSig(a, reasoning) != StringSig(b, reasoning)
  {
    assert |Spelled(a)| != |Spelled(b)|;
  }

  function WithReasoning(reasonings: seq<Runes>, k: nat, texts: seq<Runes>, calls: seq<Call>): Message
    requires k <= |reasonings|
  {
    Message(Assistant, Flat(texts, 0), Flat(reasonings, k), calls, None, [])
  }

  function TextTail(texts: seq<Runes>, calls: seq<Call>): seq<Message> {
    if texts != [] then Fragments(texts, 0, |texts| - 1, false) + [Piece(texts[|texts| - 1], []).(calls := calls)]
    else if calls != [] then [Piece([], []).(calls := calls)]
    else []
  }

  /** The same for answers of reasoning alone, followed by text fragments and calls. */
  lemma {:induction false} GroupedAnswerSplitsBack(reasonings: seq<Runes>, k: nat, texts: seq<Runes>, calls: seq<Call>,
                                                   prefix: seq<Sig>, offset: nat, limits: Limits)
    requires k <= |reasonings| && FitParts(reasonings, limits.reasoning) && FitParts(texts, limits.text)
    requires offset <= |prefix|
    requires FragmentSigs(reasonings, true)[k..] + (FragmentSigs(texts, false) + CallSigs(calls)) <= prefix[offset..]
    ensures Pieces(WithReasoning(reasonings, k, texts, calls), prefix, offset, limits)
         == Fragments(reasonings, k, |reasonings|, true) + TextTail(texts, calls)
    decreases |reasonings| - k
  {
    hide SplitFirst, BoundPrefix, AssistantSigs;
    var m := WithReasoning(reasonings, k, texts, calls);
    var tail := FragmentSigs(texts, false) + CallSigs(calls);
    var sigs := FragmentSigs(reasonings, true)[k..] + tail;
    if k == |reasonings| {
      assert sigs == tail && m == Grouped(texts, 0, calls);
      assert FragmentSigs(texts, false)[0..] == FragmentSigs(texts, false);
      if texts != [] {
        GroupedTextSplitsBack(texts, 0, calls, prefix, offset, limits);
      } else {
        assert tail == CallSigs(calls);
        CallsStayWhole(calls, prefix, offset, limits);
      }
    } else {
      var own := FragmentSigs(reasonings, true)[k..];
      assert own[0] == StringSig(reasonings[k], true) && sigs[0] == own[0];
      assert prefix[offset..][0] == prefix[offset];
      if k + 1 == |reasonings| && texts == [] && calls == [] {
        assert Flat(reasonings, k + 1) == [] && Flat(texts, 0) == [];
        assert m.reasoning == reasonings[k];
        assert m == Piece([], reasonings[k]);
        LoneReasoningStays(reasonings[k], prefix, offset, limits);
      } else {
        ReasoningSplitsOff(reasonings, k, texts, calls, prefix, offset, limits);
        assert own[1..] == FragmentSigs(reasonings, true)[k + 1..];
        assert sigs[1..] == own[1..] + tail;
        assert prefix[offset + 1..] == prefix[offset..][1..];
        GroupedAnswerSplitsBack(reasonings, k + 1, texts, calls, prefix, offset + 1, limits);
      }
    }
  }

  lemma CallsStayWhole(calls: seq<Call>, prefix: seq<Sig>, offset: nat, limits: Limits)
    ensures SplitFirst(Piece([], []).(calls := calls), prefix, offset, limits).None?
  {
  }

  lemma LoneReasoningStays(reasoning: Runes, prefix: seq<Sig>, offset: nat, limits: Limits)
    requires reasoning != [] && offset < |prefix| && prefix[offset] == StringSig(reasoning, true)
    ensures SplitFirst(Piece([], reasoning), prefix, offset, limits).None?
  {
    BoundPieceStays(Piece([], reasoning), prefix, offset, limits);
  }

  lemma ReasoningSplitsOff(reasonings: seq<Runes>, k: nat, texts: seq<Runes>, calls: seq<Call>,
                           prefix: seq<Sig>, offset: nat, limits: Limits)
    requires k < |reasonings| && FitParts(reasonings, limits.reasoning) && FitParts(texts, limits.text)
    requires k + 1 < |reasonings| || texts != [] || calls != []
    requires offset < |prefix| && prefix[offset] == StringSig(reasonings[k], true)
    ensures SplitFirst(WithReasoning(reasonings, k, texts, calls), prefix, offset, limits)
         == Some((Piece([], reasonings[k]), WithReasoning(reasonings, k + 1, texts, calls)))
  {
    hide BoundPrefix;
    var m := WithReasoning(reasonings, k, texts, calls);
    assert m.reasoning == reasonings[k] + Flat(reasonings, k + 1);
    assert m.reasoning[..|reasonings[k]|] == reasonings[k] && m.reasoning[|reasonings[k]|..] == Flat(reasonings, k + 1);
    FirstPartFound(m.reasoning, reasonings[k], true, limits.reasoning);
    var sigs := AssistantSigs(m);
    if texts != [] {
      assert m.text == texts[0] + Flat(texts, 1);
      assert sigs[0].MessageSig?;
    } else if calls != [] {
      assert sigs[0].CallSig?;
    } else {
      assert Flat(reasonings, k + 1) == reasonings[k + 1] + Flat(reasonings, k + 2);
      DifferentLengthsSignApart(m.reasoning, reasonings[k], true);
      assert sigs[0] == StringSig(m.reasoning, true);
    }
    assert sigs[0] != prefix[offset];
    assert forall n :: 0 < n <= |sigs| && offset + n <= |prefix| ==> sigs[..n][0] != prefix[offset..offset + n][0];
    assert !Continues(m, prefix, offset);
  }

  // ----- Rendering in parts -----

  /** Rendering a list is rendering its front and then the rest. */
  lemma {:induction false} FeedInParts(front: seq<Message>, back: seq<Message>, r: Rendered, prefix: seq<Sig>,
      limits: Limits, img: bool)
    ensures var first := Feed(front, r, prefix, limits, img);
      Feed(front + back, r, prefix, limits, img) ==
      if first.Err? then first else Feed(back, first.value, prefix, limits, img)
    decreases Weight(front)
  {
    hide SplitFirst, Emit;
    if front == [] {
      assert front + back == back;
    } else {
      assert (front + back)[0] == front[0] && (front + back)[1..] == front[1..] + back;
      var split := SplitNext(front[0], prefix, |r.prefix|, limits);
      if split.None? {
        var next := Emit(r, front[0], img);
        if next.Ok? {
          FeedInParts(front[1..], back, next.value, prefix, limits, img);
        }
      } else {
        SplitShrinks(front[0], prefix, |r.prefix|, limits);
        var next := Emit(r, split.value.0, img);
        if next.Ok? {
          FeedInParts([split.value.1] + front[1..], back, next.value, prefix, limits, img);
          assert [split.value.1] + front[1..] + back == [split.value.1] + (front[1..] + back);
        }
      }
    }
  }

  /** Rendering only adds. */
  predicate Extends(r: Rendered, s: Rendered) {
    r.input <= s.input && r.prefix <= s.prefix && r.ends <= s.ends
  }

  /** The saved bookkeeping: one end for each signature, the last at the end of the input,
      since reasoning that is not signed is always followed by an item that is. */
  predicate Tidy(r: Rendered) {
    && |r.ends| == |r.prefix|
    && (r.ends == [] ==> r.input == [])
    && (r.ends != [] ==> r.ends[|r.ends| - 1] == |r.input|)
  }

  function ItemCount(m: Message): nat {
    (if m.reasoning != [] then 1 else 0) + (if m.text != [] then 1 else 0) + |m.calls|
  }

  lemma {:induction false} CallsTidy(r: Rendered, calls: seq<Call>, k: nat)
    requires k <= |calls| && AddCalls(r, calls, k).Ok?
    requires |r.ends| == |r.prefix|
    ensures var s := AddCalls(r, calls, k).value;
      Extends(r, s) && |s.ends| == |s.prefix| && |s.input| == |r.input| + k && (k > 0 || Tidy(r) ==> Tidy(s))
  {
    if k > 0 {
      CallsTidy(r, calls, k - 1);
    }
  }

  lemma WordsTidy(r: Rendered, m: Message)
    requires Tidy(r)
    ensures var s := AddWords(r, m);
      && Extends(r, s) && |s.ends| == |s.prefix| && (m.calls == [] ==> Tidy(s))
      && |s.input| == |r.input| + (if m.reasoning != [] then 1 else 0) + if m.text != [] || m.images != [] then 1 else 0
  {
  }

  lemma ResultTidy(r: Rendered, result: Outcome, img: bool)
    requires |r.ends| == |r.prefix| && AddResult(r, result, img).Ok?
    ensures Extends(r, AddResult(r, result, img).value) && Tidy(AddResult(r, result, img).value)
  {
  }

  lemma EmitTidy(r: Rendered, m: Message, img: bool)
    requires Tidy(r) && Emit(r, m, img).Ok?
    ensures var s := Emit(r, m, img).value;
      Extends(r, s) && Tidy(s) && (Mergeable(m) ==> |s.input| == |r.input| + ItemCount(m))
  {
    hide AddWords, AddCalls, AddResult;
    if m.role != System {
      WordsTidy(r, m);
      CallsTidy(AddWords(r, m), m.calls, |m.calls|);
      if m.result.Some? {
        ResultTidy(AddCalls(AddWords(r, m), m.calls, |m.calls|).value, m.result.value, img);
      }
    }
  }

  lemma {:induction false} FeedTidy(work: seq<Message>, r: Rendered, prefix: seq<Sig>, limits: Limits, img: bool)
    requires Tidy(r) && Feed(work, r, prefix, limits, img).Ok?
    ensures var s := Feed(work, r, prefix, limits, img).value;
      Extends(r, s) && Tidy(s)
    decreases Weight(work)
  {
    hide SplitFirst, Emit;
    if work != [] {
      var split := SplitNext(work[0], prefix, |r.prefix|, limits);
      if split.None? {
        EmitTidy(r, work[0], img);
        FeedTidy(work[1..], Emit(r, work[0], img).value, prefix, limits, img);
      } else {
        SplitShrinks(work[0], prefix, |r.prefix|, limits);
        EmitTidy(r, split.value.0, img);
        FeedTidy([split.value.1] + work[1..], Emit(r, split.value.0, img).value, prefix, limits, img);
      }
    }
  }

  /** Past the saved prefix nothing is split, so the prefix and the limits no longer matter. */
  lemma {:induction false} FeedPastPrefix(work: seq<Message>, r: Rendered, p: seq<Sig>, l: Limits, q: seq<Sig>,
      n: Limits, img: bool)
    requires |p| <= |r.prefix| && |q| <= |r.prefix|
    ensures Feed(work, r, p, l, img) == Feed(work, r, q, n, img)
    decreases Weight(work)
  {
    hide SplitFirst, Emit;
    if work != [] {
      PastPrefix(work[0], p, |r.prefix|, l);
      PastPrefix(work[0], q, |r.prefix|, n);
      if Emit(r, work[0], img).Ok? {
        EmitSigns(r, work[0], img);
        FeedPastPrefix(work[1..], Emit(r, work[0], img).value, p, l, q, n, img);
      }
    }
  }

  // ----- A longer saved prefix renders the same -----

  predicate LimitsGrow(l: Limits, n: Limits) {
    l.reasoning <= n.reasoning && l.text <= n.text
  }

  lemma BoundGrows(value: Runes, signature: Sig, reasoning: bool, l: nat, n: nat)
    requires 0 < l <= n && BoundPrefix(value, signature, reasoning, l).Some?
    ensures BoundPrefix(value, signature, reasoning, n) == BoundPrefix(value, signature, reasoning, l)
  {
    var i := BoundPrefix(value, signature, reasoning, l).value;
    BoundPrefixIff(value, signature, reasoning, l, i);
    assert IsBound(value, signature, reasoning, n, i);
    BoundPrefixIff(value, signature, reasoning, n, i);
  }

  lemma ContinuesShorter(m: Message, p: seq<Sig>, q: seq<Sig>, offset: nat)
    requires p <= q && offset < |p| && Continues(m, q, offset)
    ensures Continues(m, p, offset)
  {
    hide AssistantSigs;
    var sigs := AssistantSigs(m);
    var count := if |sigs| < |p| - offset then |sigs| else |p| - offset;
    var more := if |sigs| < |q| - offset then |sigs| else |q| - offset;
    assert sigs[..count] == sigs[..more][..count];
    assert p[offset..offset + count] == q[offset..offset + more][..count];
  }

  lemma SplitStays(m: Message, p: seq<Sig>, l: Limits, q: seq<Sig>, n: Limits, offset: nat)
    requires p <= q && LimitsGrow(l, n)
    requires SplitFirst(m, p, offset, l).Some?
    ensures SplitFirst(m, q, offset, n) == SplitFirst(m, p, offset, l)
  {
    hide BoundPrefix, Continues;
    if Continues(m, q, offset) {
      ContinuesShorter(m, p, q, offset);
    }
    BoundPrefixInside(m.reasoning, p[offset], true, l.reasoning);
    BoundPrefixInside(m.text, p[offset], false, l.text);
    assert q[offset] == p[offset];
    if m.reasoning != [] {
      BoundGrows(m.reasoning, p[offset], true, l.reasoning, n.reasoning);
    } else {
      BoundGrows(m.text, p[offset], false, l.text, n.text);
    }
  }

  /** An unsplit message whose signatures were rendered into the longer prefix stays unsplit. */
  lemma WholeStays(m: Message, q: seq<Sig>, n: Limits, offset: nat)
    requires Mergeable(m) && offset <= |q| && AssistantSigs(m) <= q[offset..]
    ensures SplitFirst(m, q, offset, n).None?
  {
    hide BoundPrefix;
    var sigs := AssistantSigs(m);
    assert q[offset..][..|sigs|] == q[offset..offset + |sigs|];
  }

  lemma {:induction false} FeedIsStable(work: seq<Message>, r: Rendered, p: seq<Sig>, l: Limits, q: seq<Sig>,
      n: Limits, img: bool)
    requires p <= q && LimitsGrow(l, n) && Tidy(r)
    requires Feed(work, r, p, l, img).Ok? && Feed(work, r, p, l, img).value.prefix <= q
    ensures Feed(work, r, q, n, img) == Feed(work, r, p, l, img)
    decreases Weight(work)
  {
    hide SplitFirst, Emit, AssistantSigs, Tidy;
    if work != [] {
      var offset := |r.prefix|;
      var split := SplitNext(work[0], p, offset, l);
      if split.None? {
        var next := Emit(r, work[0], img).value;
        EmitSigns(r, work[0], img);
        EmitTidy(r, work[0], img);
        FeedTidy(work[1..], next, p, l, img);
        FeedIsStable(work[1..], next, p, l, q, n, img);
        if Mergeable(work[0]) {
          assert AssistantSigs(work[0]) == next.prefix[offset..];
          WholeStays(work[0], q, n, offset);
        }
      } else {
        SplitStays(work[0], p, l, q, n, offset);
        SplitShrinks(work[0], p, offset, l);
        EmitTidy(r, split.value.0, img);
        FeedIsStable([split.value.1] + work[1..], Emit(r, split.value.0, img).value, p, l, q, n, img);
      }
    }
  }

  // ----- Merging -----

  predicate Closed(messages: seq<Message>) {
    messages == [] || !Mergeable(messages[|messages| - 1])
  }

  lemma {:induction false} MergedEndsAlike(messages: seq<Message>, k: nat)
    requires k <= |messages|
    ensures (k == 0) == (Merged(messages, k) == [])
    ensures k > 0 ==> Mergeable(Merged(messages, k)[|Merged(messages, k)| - 1]) == Mergeable(messages[k - 1])
  {
    if k > 0 {
      MergedEndsAlike(messages, k - 1);
    }
  }

  lemma GrownBehind(a: seq<Message>, b: seq<Message>, m: Message)
    requires b != [] || a == [] || !Mergeable(a[|a| - 1]) || !Mergeable(m)
    ensures Grown(a + b, m) == a + Grown(b, m)
  {
    hide Mergeable, Joined;
    if b == [] {
      assert a + b == a;
    } else {
      assert (a + b)[|a + b| - 1] == b[|b| - 1];
      assert (a + b)[..|a + b| - 1] == a + b[..|b| - 1];
    }
  }

  /** What cannot be merged over merges apart. */
  lemma {:induction false} MergedInParts(front: seq<Message>, back: seq<Message>, k: nat)
    requires k <= |back|
    requires front == [] || back == [] || !Mergeable(front[|front| - 1]) || !Mergeable(back[0])
    ensures Merged(front + back, |front| + k) == Merged(front, |front|) + Merged(back, k)
  {
    hide Grown, Mergeable;
    if k == 0 {
      MergedLooksBack(front, back, |front|);
    } else {
      MergedInParts(front, back, k - 1);
      MergedEndsAlike(front, |front|);
      MergedEndsAlike(back, k - 1);
      assert (front + back)[|front| + k - 1] == back[k - 1];
      GrownBehind(Merged(front, |front|), Merged(back, k - 1), back[k - 1]);
    }
  }

  lemma {:induction false} MergedLooksBack(front: seq<Message>, back: seq<Message>, k: nat)
    requires k <= |front|
    ensures Merged(front + back, k) == Merged(front, k)
  {
    if k > 0 {
      MergedLooksBack(front, back, k - 1);
      assert (front + back)[k - 1] == front[k - 1];
    }
  }

  predicate NothingToMerge(ms: seq<Message>) {
    forall i :: 0 < i < |ms| ==> !(Mergeable(ms[i - 1]) && Mergeable(ms[i]))
  }

  predicate SameWords(a: seq<Message>, b: seq<Message>, k: nat)
    requires k <= |b|
  {
    Texts(a, |a|) == Texts(b, k) && Reasonings(a, |a|) == Reasonings(b, k) && AllCalls(a, |a|) == AllCalls(b, k)
  }

  lemma GrownConserves(front: seq<Message>, m: Message)
    requires NothingToMerge(front)
    ensures NothingToMerge(Grown(front, m)) && SameWords(Grown(front, m), front + [m], |front| + 1)
  {
    var n := |front|;
    if n > 0 && Mergeable(front[n - 1]) && Mergeable(m) {
      var grown := Grown(front, m);
      var whole := front + [m];
      TotalsLookBack(grown, whole, n - 1);
      assert whole[n] == m && whole[n - 1] == front[n - 1];
      assert grown[n - 1] == Joined(front[n - 1], m);
      assert Texts(whole, n) == Texts(whole, n - 1) + front[n - 1].text;
      assert Reasonings(whole, n) == Reasonings(whole, n - 1) + front[n - 1].reasoning;
      assert AllCalls(whole, n) == AllCalls(whole, n - 1) + front[n - 1].calls;
    }
  }

  /** Merging keeps every text, reasoning and call in order, and leaves nothing to merge. */
  lemma {:induction false} MergedConserves(messages: seq<Message>, k: nat)
    requires k <= |messages|
    ensures NothingToMerge(Merged(messages, k)) && SameWords(Merged(messages, k), messages, k)
  {
    hide Grown;
    if k > 0 {
      MergedConserves(messages, k - 1);
      var front, m := Merged(messages, k - 1), messages[k - 1];
      GrownConserves(front, m);
      TotalsLookBack(front, front + [m], |front|);
    }
  }

  lemma {:induction false} TotalsLookBack(a: seq<Message>, b: seq<Message>, k: nat)
    requires k <= |a| && k <= |b| && a[..k] == b[..k]
    ensures Texts(a, k) == Texts(b, k) && Reasonings(a, k) == Reasonings(b, k) && AllCalls(a, k) == AllCalls(b, k)
  {
    if k > 0 {
      assert a[..k - 1] == a[..k][..k - 1] && b[..k - 1] == b[..k][..k - 1];
      assert a[k - 1] == a[..k][k - 1] && b[k - 1] == b[..k][k - 1];
      TotalsLookBack(a, b, k - 1);
    }
  }

  // ----- Saving and replaying -----

  lemma {:induction false} LimitsGrowWithInput(front: seq<Input>, back: seq<Input>, k: nat)
    requires k <= |back|
    ensures LimitsGrow(NativeLimits(front, |front|), NativeLimits(front + back, |front| + k))
  {
    if k == 0 {
      LimitsLookBack(front, back, |front|);
    } else {
      LimitsGrowWithInput(front, back, k - 1);
      assert (front + back)[|front| + k - 1] == back[k - 1];
    }
  }

  lemma {:induction false} LimitsLookBack(front: seq<Input>, back: seq<Input>, k: nat)
    requires k <= |front|
    ensures NativeLimits(front + back, k) == NativeLimits(front, k)
  {
    if k > 0 {
      LimitsLookBack(front, back, k - 1);
      assert (front + back)[k - 1] == front[k - 1];
    }
  }

  function LimitsOf(h: History): Limits { NativeLimits(h.input, |h.input|) }

  function Work(messages: seq<Message>): seq<Message> { Merged(messages, |messages|) }

  function Known(previous: Option<History>): History { if previous.Some? then previous.value else NO_HISTORY }

  /** The answer as later turns show it: the same words and the same calls, whose arguments
      may be spelled differently as long as they are equal as JSON. */
  predicate ShownAs(answer: Message, calls: seq<Call>) {
    Mergeable(answer) && CallSigs(answer.calls) == CallSigs(calls)
  }

  lemma WorkAround(front: seq<Message>, answer: Message, back: seq<Message>)
    requires Mergeable(answer) && Closed(front) && (back == [] || !Mergeable(back[0]))
    ensures Work(front + [answer] + back) == Work(front) + ([answer] + Work(back))
  {
    hide Mergeable, Merged;
    MergedInParts(front, [answer], 1);
    MergedOfOne(answer);
    assert (front + [answer])[|front|] == answer;
    MergedInParts(front + [answer], back, |back|);
  }

  lemma MergedOfOne(m: Message)
    ensures Merged([m], 1) == [m]
  {
    assert Merged([m], 0) == [];
  }

  lemma FeedOne(m: Message, work: seq<Message>, r: Rendered, p: seq<Sig>, l: Limits, img: bool)
    requires SplitNext(m, p, |r.prefix|, l).None?
    ensures var next := Emit(r, m, img);
      Feed([m] + work, r, p, l, img) == if next.Err? then next else Feed(work, next.value, p, l, img)
  {
    assert ([m] + work)[1..] == work;
  }

  /** Rendering up to the answer, then the answer alone, then the rest. */
  lemma RenderAround(front: seq<Message>, answer: Message, back: seq<Message>, r: Rendered, p: seq<Sig>, l: Limits,
      img: bool)
    requires Mergeable(answer) && Closed(front) && (back == [] || !Mergeable(back[0]))
    requires Feed(Work(front), BLANK_PAGE, p, l, img) == Ok(r)
    requires SplitNext(answer, p, |r.prefix|, l).None?
    ensures var answered := Emit(r, answer, img);
      Feed(Work(front + [answer] + back), BLANK_PAGE, p, l, img)
        == if answered.Err? then answered else Feed(Work(back), answered.value, p, l, img)
  {
    hide Emit, SplitNext, Mergeable, Merged, Feed, Work;
    WorkAround(front, answer, back);
    FeedInParts(Work(front), [answer] + Work(back), BLANK_PAGE, p, l, img);
    FeedOne(answer, Work(back), r, p, l, img);
  }

  predicate BindsRendering(messages: seq<Message>, h: History, img: bool) {
    var out := Rendering(messages, h, img);
    out.Ok? && h.prefix <= out.value.prefix
  }

  /** Saving an answer: the same conversation rendered under the grown prefix and limits
      renders the same, and binds the whole saved prefix. */
  lemma GrownPrefixRendersTheSame(front: seq<Message>, answer: Message, back: seq<Message>, h: History,
      saved: History, img: bool)
    requires Closed(front) && Mergeable(answer) && (back == [] || !Mergeable(back[0]))
    requires BindsRendering(front, h, img) && Rendering(front + [answer] + back, h, img).Ok?
    requires saved.prefix == Rendering(front, h, img).value.prefix + AssistantSigs(answer)
    requires LimitsGrow(LimitsOf(h), LimitsOf(saved))
    ensures Rendering(front + [answer] + back, saved, img) == Rendering(front + [answer] + back, h, img)
    ensures BindsRendering(front + [answer] + back, saved, img)
    ensures var before, whole := Rendering(front, h, img).value, Rendering(front + [answer] + back, h, img).value;
      var answered := Emit(before, answer, img);
      && answered.Ok? && answered.value.prefix == saved.prefix
      && Tidy(before) && Tidy(answered.value) && Extends(before, answered.value) && Extends(answered.value, whole)
  {
    hide Emit, SplitFirst, Merged, Feed, AssistantSigs, NativeLimits, Tidy, Closed;
    var p, l, q, n := h.prefix, LimitsOf(h), saved.prefix, LimitsOf(saved);
    var before := Rendering(front, h, img).value;
    assert Tidy(BLANK_PAGE) by {
      BlankIsTidy();
    }
    FeedTidy(Work(front), BLANK_PAGE, p, l, img);
    FeedIsStable(Work(front), BLANK_PAGE, p, l, q, n, img);
    PastPrefix(answer, p, |before.prefix|, l);
    RenderAround(front, answer, back, before, p, l, img);
    assert q[|before.prefix|..] == AssistantSigs(answer);
    WholeStays(answer, q, n, |before.prefix|);
    RenderAround(front, answer, back, before, q, n, img);
    var answered := Emit(before, answer, img).value;
    EmitSigns(before, answer, img);
    EmitTidy(before, answer, img);
    FeedPastPrefix(Work(back), answered, p, l, q, n, img);
    FeedTidy(Work(back), answered, p, l, img);
  }

  lemma BlankIsTidy()
    ensures Tidy(BLANK_PAGE)
  {
  }

  // ----- What a message contributes, on its own -----

  function Words(m: Message): seq<Input> {
    (if m.reasoning != [] then [ReasoningItem(m.reasoning)] else [])
    + if m.text != [] || m.images != [] then [MessageItem(m.role, ContentOf(m.text, m.images))] else []
  }

  function CallItems(calls: seq<Call>, k: nat): seq<Input>
    requires k <= |calls|
  {
    if k == 0 then [] else CallItems(calls, k - 1) + [CallItem(calls[k - 1])]
  }

  function ResultItems(m: Message): seq<Input> {
    if m.result.None? then []
    else [OutputItem(m.result.value.callID, ContentOf(m.result.value.text, m.result.value.images))]
  }

  function Items(m: Message): seq<Input> {
    if m.role == System then [] else Words(m) + CallItems(m.calls, |m.calls|) + ResultItems(m)
  }

  function ItemsOf(messages: seq<Message>, k: nat): seq<Input>
    requires k <= |messages|
    decreases |messages| - k
  {
    if k == |messages| then [] else Items(messages[k]) + ItemsOf(messages, k + 1)
  }

  lemma {:induction false} CallsAddItems(r: Rendered, calls: seq<Call>, k: nat)
    requires k <= |calls| && AddCalls(r, calls, k).Ok?
    ensures AddCalls(r, calls, k).value.input == r.input + CallItems(calls, k)
  {
    if k > 0 {
      CallsAddItems(r, calls, k - 1);
    }
  }

  lemma WordsAddItems(r: Rendered, m: Message)
    ensures AddWords(r, m).input == r.input + Words(m)
  {
  }

  lemma EmitItems(r: Rendered, m: Message, img: bool)
    requires Emit(r, m, img).Ok?
    ensures Emit(r, m, img).value.input == r.input + Items(m)
  {
    hide AddWords, AddCalls, Words, CallItems, Signature;
    if m.role != System {
      WordsAddItems(r, m);
      CallsAddItems(AddWords(r, m), m.calls, |m.calls|);
    }
  }

  lemma {:induction false} FeedItems(work: seq<Message>, k: nat, r: Rendered, p: seq<Sig>, l: Limits, img: bool)
    requires k <= |work| && |p| <= |r.prefix| && Feed(work[k..], r, p, l, img).Ok?
    ensures Feed(work[k..], r, p, l, img).value.input == r.input + ItemsOf(work, k)
    decreases |work| - k
  {
    hide SplitFirst, Emit, Items;
    if k < |work| {
      assert work[k..][0] == work[k] && work[k..][1..] == work[k + 1..];
      PastPrefix(work[k], p, |r.prefix|, l);
      EmitItems(r, work[k], img);
      EmitSigns(r, work[k], img);
      FeedItems(work, k + 1, Emit(r, work[k], img).value, p, l, img);
    }
  }

  /** Rendering a conversation whose saved prefix ends before the answer adds, after the
      answer's own items, the items of the rest. */
  lemma RestIsRendered(front: seq<Message>, answer: Message, back: seq<Message>, h: History, img: bool)
    requires Closed(front) && Mergeable(answer) && (back == [] || !Mergeable(back[0]))
    requires BindsRendering(front, h, img) && Rendering(front + [answer] + back, h, img).Ok?
    ensures var before, whole := Rendering(front, h, img).value, Rendering(front + [answer] + back, h, img).value;
      whole.input == before.input + Items(answer) + ItemsOf(Work(back), 0)
  {
    hide Emit, SplitFirst, Merged, Feed, AssistantSigs, NativeLimits, Closed, Items, ItemsOf;
    var before := Rendering(front, h, img).value;
    PastPrefix(answer, h.prefix, |before.prefix|, LimitsOf(h));
    RenderAround(front, answer, back, before, h.prefix, LimitsOf(h), img);
    EmitItems(before, answer, img);
    EmitSigns(before, answer, img);
    assert Work(back)[0..] == Work(back);
    FeedItems(Work(back), 0, Emit(before, answer, img).value, h.prefix, LimitsOf(h), img);
  }

  /** The round trip: saving a completed answer and rendering the longer conversation with
      that state passes the prefix check, and sends the saved native input, the native
      output, and then only the rendering of what followed the answer. */
  lemma SaveThenReplay(front: seq<Message>, answer: Message, back: seq<Message>, calls: seq<Call>, output: seq<Input>,
                       previous: Option<History>, compatibility: nat, h: History, img: bool)
    requires Closed(front) && ShownAs(answer, calls) && h.input + output != [] && (back == [] || !Mergeable(back[0]))
    requires Spliced(front, previous, compatibility, img) == Ok(h)
    requires Rendering(front + [answer] + back, Known(previous), img).Ok?
    ensures var saved := Saved(h, answer.text, answer.reasoning, calls, output);
      var whole := Rendering(front + [answer] + back, Known(previous), img).value;
      && Rendering(front + [answer] + back, saved, img) == Ok(whole)
      && Spliced(front + [answer] + back, Some(saved), compatibility, img)
           == Ok(History(compatibility, whole.prefix, h.input + output + ItemsOf(Work(back), 0)))
  {
    hide Emit, SplitFirst, Merged, Feed, NativeLimits, Closed, Items, ItemsOf, Rendering;
    var k := Known(previous);
    var saved := Saved(h, answer.text, answer.reasoning, calls, output);
    var full := front + [answer] + back;
    var before := Rendering(front, k, img).value;
    assert saved.prefix == before.prefix + AssistantSigs(answer);
    SavedLimitsGrow(front, calls, answer, output, previous, compatibility, h, img);
    GrownPrefixRendersTheSame(front, answer, back, k, saved, img);
    RestIsRendered(front, answer, back, k, img);
    var whole := Rendering(full, k, img).value;
    var answered := Emit(before, answer, img).value;
    EmitItems(before, answer, img);
    var rest := ItemsOf(Work(back), 0);
    assert whole.input == answered.input + rest;
    var end := if saved.prefix != [] && |saved.prefix| <= |whole.ends| then whole.ends[|saved.prefix| - 1] else 0;
    EndOfAnswer(answered, whole);
    assert end == |answered.input|;
    assert whole.input[end..] == rest;
    assert saved.input + rest == h.input + output + rest;
  }

  lemma EndOfAnswer(answered: Rendered, whole: Rendered)
    requires Tidy(answered) && Extends(answered, whole)
    ensures |answered.prefix| <= |whole.ends|
    ensures (if answered.prefix != [] then whole.ends[|answered.prefix| - 1] else 0) == |answered.input|
  {
  }

  lemma SavedLimitsGrow(front: seq<Message>, calls: seq<Call>, answer: Message, output: seq<Input>,
                        previous: Option<History>, compatibility: nat, h: History, img: bool)
    requires Spliced(front, previous, compatibility, img) == Ok(h)
    ensures LimitsGrow(LimitsOf(Known(previous)), LimitsOf(Saved(h, answer.text, answer.reasoning, calls, output)))
  {
    hide Rendering, AssistantSigs;
    var k := Known(previous);
    if previous.Some? {
      var added := h.input[|k.input|..];
      assert h.input == k.input + added;
      assert h.input + output == k.input + (added + output);
      LimitsGrowWithInput(k.input, added + output, |added + output|);
    }
  }

  // ----- A whole conversation -----

  /** What is asked, the answer as later turns show it, the calls as the provider spelled
      them, and the native output that was saved. */
  datatype Turn = Turn(asked: seq<Message>, answer: Message, calls: seq<Call>, output: seq<Input>)

  predicate GoodTurn(t: Turn) {
    && t.asked != []
    && Closed(t.asked)
    && !Mergeable(t.asked[0])
    && ShownAs(t.answer, t.calls)
    && (t.output != [] || ItemsOf(Work(t.asked), 0) != [])
  }

  function Canonical(turns: seq<Turn>, k: nat): seq<Message>
    requires k <= |turns|
  {
    if k == 0 then [] else Canonical(turns, k - 1) + turns[k - 1].asked + [turns[k - 1].answer]
  }

  function Asking(turns: seq<Turn>, k: nat): seq<Message>
    requires k < |turns|
  {
    Canonical(turns, k) + turns[k].asked
  }

  /** The state that `k` turns leave behind. */
  function StateAfter(turns: seq<Turn>, k: nat, compatibility: nat, img: bool): Option<History>
    requires k <= |turns|
  {
    if k == 0 then None
    else
      var h := Spliced(Asking(turns, k - 1), StateAfter(turns, k - 1, compatibility, img), compatibility, img);
      var t := turns[k - 1];
      if h.Err? then None else Some(Saved(h.value, t.answer.text, t.answer.reasoning, t.calls, t.output))
  }

  /** The conversation with every answer replaced by its native output. */
  function Native(turns: seq<Turn>, k: nat): seq<Input>
    requires k <= |turns|
  {
    if k == 0 then [] else Native(turns, k - 1) + ItemsOf(Work(turns[k - 1].asked), 0) + turns[k - 1].output
  }

  predicate GoodConversation(turns: seq<Turn>, img: bool) {
    && (forall k :: 0 <= k < |turns| ==> GoodTurn(turns[k]))
    && (forall k :: 0 <= k < |turns| ==> Rendering(Asking(turns, k), NO_HISTORY, img).Ok?)
  }

  predicate Replays(turns: seq<Turn>, k: nat, compatibility: nat, img: bool)
    requires k < |turns|
  {
    var state := StateAfter(turns, k, compatibility, img);
    var plain := Rendering(Asking(turns, k), NO_HISTORY, img);
    && plain.Ok?
    && Rendering(Asking(turns, k), Known(state), img) == plain
    && Known(state).prefix <= plain.value.prefix
    && Spliced(Asking(turns, k), state, compatibility, img)
         == Ok(History(compatibility, plain.value.prefix, Native(turns, k) + ItemsOf(Work(turns[k].asked), 0)))
  }

  lemma LaterRendersTheSame(front: seq<Message>, answer: Message, back: seq<Message>, h: History, img: bool)
    requires Closed(front) && Mergeable(answer) && (back == [] || !Mergeable(back[0]))
    requires BindsRendering(front, h, img) && Rendering(front, h, img) == Rendering(front, NO_HISTORY, img)
    ensures Rendering(front + [answer] + back, h, img) == Rendering(front + [answer] + back, NO_HISTORY, img)
  {
    hide Emit, SplitFirst, Merged, Feed, NativeLimits, Closed, Mergeable;
    var p, l, l0 := h.prefix, LimitsOf(h), NativeLimits([], 0);
    var before := Rendering(front, h, img).value;
    PastPrefix(answer, p, |before.prefix|, l);
    PastPrefix(answer, [], |before.prefix|, l0);
    RenderAround(front, answer, back, before, p, l, img);
    RenderAround(front, answer, back, before, [], l0, img);
    if Emit(before, answer, img).Ok? {
      EmitSigns(before, answer, img);
      FeedPastPrefix(Work(back), Emit(before, answer, img).value, p, l, [], l0, img);
    }
  }

  lemma FirstRequest(asked: seq<Message>, img: bool)
    requires Rendering(asked, NO_HISTORY, img).Ok?
    ensures Rendering(asked, NO_HISTORY, img).value.input == ItemsOf(Work(asked), 0)
  {
    hide Feed, Merged, ItemsOf;
    assert Work(asked)[0..] == Work(asked);
    FeedItems(Work(asked), 0, BLANK_PAGE, [], NativeLimits([], 0), img);
  }

  lemma AskingIsClosed(turns: seq<Turn>, k: nat)
    requires k < |turns| && GoodTurn(turns[k])
    ensures Closed(Asking(turns, k))
  {
  }

  /** Over any number of turns every request is accepted, and its input is the canonical
      conversation with each answer replaced by the native output that was saved for it. */
  lemma {:induction false} ConversationReplays(turns: seq<Turn>, k: nat, compatibility: nat, img: bool)
    requires k < |turns| && GoodConversation(turns, img)
    ensures Replays(turns, k, compatibility, img)
  {
    hide Rendering, Mergeable, Closed, Work, ItemsOf;
    if k == 0 {
      assert Asking(turns, 0) == turns[0].asked;
      FirstRequest(turns[0].asked, img);
      assert Native(turns, 0) + ItemsOf(Work(turns[0].asked), 0) == ItemsOf(Work(turns[0].asked), 0);
    } else {
      ConversationReplays(turns, k - 1, compatibility, img);
      NextTurnReplays(turns, k, compatibility, img);
    }
  }

  lemma NextTurnReplays(turns: seq<Turn>, k: nat, compatibility: nat, img: bool)
    requires 0 < k < |turns| && GoodConversation(turns, img)
    requires Replays(turns, k - 1, compatibility, img)
    ensures Replays(turns, k, compatibility, img)
  {
    hide Rendering, Mergeable, Closed, Work, ItemsOf, Spliced, Canonical, NativeLimits;
    var t, front, back := turns[k - 1], Asking(turns, k - 1), turns[k].asked;
    var before := StateAfter(turns, k - 1, compatibility, img);
    var h := Spliced(front, before, compatibility, img).value;
    var saved := Saved(h, t.answer.text, t.answer.reasoning, t.calls, t.output);
    assert GoodTurn(t) && GoodTurn(turns[k]);
    AskingIsClosed(turns, k - 1);
    AskingIsTheNext(turns, k);
    LaterRendersTheSame(front, t.answer, back, Known(before), img);
    SaveThenReplay(front, t.answer, back, t.calls, t.output, before, compatibility, h, img);
    SavedIsBound(front, t.answer, back, t.calls, t.output, before, compatibility, h, img);
    assert StateAfter(turns, k, compatibility, img) == Some(saved);
    assert Native(turns, k) == h.input + t.output;
  }

  lemma AskingIsTheNext(turns: seq<Turn>, k: nat)
    requires 0 < k < |turns|
    ensures Asking(turns, k) == Asking(turns, k - 1) + [turns[k - 1].answer] + turns[k].asked
  {
  }

  lemma SavedIsBound(front: seq<Message>, answer: Message, back: seq<Message>, calls: seq<Call>, output: seq<Input>,
                     previous: Option<History>, compatibility: nat, h: History, img: bool)
    requires Closed(front) && ShownAs(answer, calls) && h.input + output != [] && (back == [] || !Mergeable(back[0]))
    requires Spliced(front, previous, compatibility, img) == Ok(h)
    requires Rendering(front + [answer] + back, Known(previous), img).Ok?
    ensures
      Saved(h, answer.text, answer.reasoning, calls, output).prefix <=
      Rendering(front + [answer] + back, Known(previous), img).value.prefix
  {
    hide Rendering, ItemsOf, Merged;
    SaveThenReplay(front, answer, back, calls, output, previous, compatibility, h, img);
  }
}
