/** What a rendered DeepSeek request holds, read back from its items: every word, image,
    call and result of the conversation, once and in order. */
module DeepSeekContents {
  import opened Wrappers
  import opened DeepSeekHistory
  import Text
  import Utf8

  // ----- What one message adds -----

  function Thinking(m: Message): seq<Input> {
    if m.reasoning == [] then [] else [ReasoningItem(m.reasoning)]
  }

  function Talking(m: Message): seq<Input> {
    if m.images != [] then [MessageItem(m.role, PartContent(m.text, m.images))]
    else if m.text != [] then [MessageItem(m.role, TextContent(m.text))]
    else []
  }

  function Calling(calls: seq<Call>): seq<Input> {
    seq(|calls|, i requires 0 <= i < |calls| => CallItem(calls[i]))
  }

  /** A message's items: its reasoning, its text with its images, its calls, its result.
      Only what has images is sent in parts. */
  function ItemsFor(m: Message): seq<Input> {
    Thinking(m) + Talking(m) + Calling(m.calls) + ResultItem(m.result)
  }

  function ResultItem(result: Option<Outcome>): seq<Input> {
    if result.None? then []
    else
      var o := result.value;
      [OutputItem(o.callID, if o.images == [] then TextContent(o.text) else PartContent(o.text, o.images))]
  }

  lemma {:induction false} CallsAdd(r: Rendered, calls: seq<Call>, k: nat)
    requires k <= |calls| && AddCalls(r, calls, k).Ok?
    ensures var s := AddCalls(r, calls, k).value;
      s.input == r.input + Calling(calls[..k]) && s.system == r.system
  {
    hide InvalidNext, Signature;
    if k > 0 {
      CallsAdd(r, calls, k - 1);
      assert Calling(calls[..k]) == Calling(calls[..k - 1]) + [CallItem(calls[k - 1])];
    }
  }

  lemma WordsAdd(r: Rendered, m: Message)
    ensures AddWords(r, m).input == r.input + Thinking(m) + Talking(m)
    ensures AddWords(r, m).system == r.system
  {
    hide Signature;
  }

  lemma ResultAdds(r: Rendered, result: Outcome, img: bool)
    requires AddResult(r, result, img).Ok?
    ensures AddResult(r, result, img).value.input == r.input + ResultItem(Some(result))
    ensures AddResult(r, result, img).value.system == r.system
  {
    hide Signature;
  }

  /** An emitted message adds exactly its items; a system message only its text. */
  lemma EmitAdds(r: Rendered, m: Message, img: bool)
    requires Emit(r, m, img).Ok?
    ensures var s := Emit(r, m, img).value;
      if m.role == System then s == r.(system := r.system + [m.text])
      else s.input == r.input + ItemsFor(m) && s.system == r.system
  {
    hide AddWords, AddCalls, AddResult, Thinking, Talking, Calling;
    if m.role != System {
      WordsAdd(r, m);
      CallsAdd(AddWords(r, m), m.calls, |m.calls|);
      assert m.calls[..|m.calls|] == m.calls;
      if m.result.Some? {
        ResultAdds(AddCalls(AddWords(r, m), m.calls, |m.calls|).value, m.result.value, img);
      }
    }
  }

  // ----- Books -----

  /** What is said: messages that are not the assistant's or have images, one by one; the
      assistant's text and reasoning, however it is cut; calls and results. */
  datatype Said = Said(talk: seq<(Role, Runes, seq<nat>)>, answer: Runes, thought: Runes,
                       calls: seq<Call>, results: seq<Outcome>)

  const NOTHING := Said([], [], [], [], [])

  function Then(a: Said, b: Said): Said {
    Said(a.talk + b.talk, a.answer + b.answer, a.thought + b.thought, a.calls + b.calls, a.results + b.results)
  }

  function SaidByItem(item: Input): Said {
    match item
    case MessageItem(Assistant, TextContent(text)) => NOTHING.(answer := text)
    case MessageItem(role, TextContent(text)) => NOTHING.(talk := [(role, text, [])])
    case MessageItem(role, PartContent(text, images)) => NOTHING.(talk := [(role, text, images)])
    case ReasoningItem(text) => NOTHING.(thought := text)
    case CallItem(call) => NOTHING.(calls := [call])
    case OutputItem(id, TextContent(text)) => NOTHING.(results := [Outcome(id, text, [])])
    case OutputItem(id, PartContent(text, images)) => NOTHING.(results := [Outcome(id, text, images)])
    case _ => NOTHING
  }

  /** System messages are sent apart. */
  function SaidByMessage(m: Message): Said {
    if m.role == System then NOTHING
    else
      var words := if m.images == [] && m.role == Assistant then NOTHING.(answer := m.text)
                   else if m.images == [] && m.text == [] then NOTHING
                   else NOTHING.(talk := [(m.role, m.text, m.images)]);
      words.(thought := m.reasoning, calls := m.calls, results := if m.result.Some? then [m.result.value] else [])
  }

  function SaidIn(items: seq<Input>): Said {
    if items == [] then NOTHING else Then(SaidIn(items[..|items| - 1]), SaidByItem(items[|items| - 1]))
  }

  function SaidBy(ms: seq<Message>): Said {
    if ms == [] then NOTHING else Then(SaidBy(ms[..|ms| - 1]), SaidByMessage(ms[|ms| - 1]))
  }

  /** The texts of the system messages, in order. */
  function Instructions(ms: seq<Message>): seq<Runes> {
    if ms == [] then []
    else Instructions(ms[..|ms| - 1]) + if ms[|ms| - 1].role == System then [ms[|ms| - 1].text] else []
  }

  lemma ThenAssociates(a: Said, b: Said, c: Said)
    ensures Then(Then(a, b), c) == Then(a, Then(b, c))
    ensures Then(a, NOTHING) == a && Then(NOTHING, a) == a
  {
  }

  lemma {:induction false} SaidInTwo(a: seq<Input>, b: seq<Input>)
    ensures SaidIn(a + b) == Then(SaidIn(a), SaidIn(b))
  {
    hide Then, SaidByItem;
    ThenAssociates(SaidIn(a), NOTHING, NOTHING);
    if b == [] {
      assert a + b == a;
    } else {
      var front, last := b[..|b| - 1], SaidByItem(b[|b| - 1]);
      SaidInTwo(a, front);
      assert (a + b)[..|a + b| - 1] == a + front;
      ThenAssociates(SaidIn(a), SaidIn(front), last);
    }
  }

  lemma {:induction false} SaidByTwo(a: seq<Message>, b: seq<Message>)
    ensures SaidBy(a + b) == Then(SaidBy(a), SaidBy(b))
    ensures Instructions(a + b) == Instructions(a) + Instructions(b)
  {
    hide Then, SaidByMessage;
    ThenAssociates(SaidBy(a), NOTHING, NOTHING);
    if b == [] {
      assert a + b == a;
    } else {
      var front, last := b[..|b| - 1], SaidByMessage(b[|b| - 1]);
      SaidByTwo(a, front);
      assert (a + b)[..|a + b| - 1] == a + front;
      ThenAssociates(SaidBy(a), SaidBy(front), last);
    }
  }

  lemma SaidByOne(m: Message)
    ensures SaidBy([m]) == SaidByMessage(m)
    ensures Instructions([m]) == if m.role == System then [m.text] else []
  {
    assert [m][..0] == [];
    ThenAssociates(SaidByMessage(m), NOTHING, NOTHING);
  }

  lemma SaidInOne(item: Input)
    ensures SaidIn([item]) == SaidByItem(item)
  {
    assert [item][..0] == [];
    ThenAssociates(SaidByItem(item), NOTHING, NOTHING);
  }

  lemma SaidInShort(items: seq<Input>)
    requires |items| <= 1
    ensures SaidIn(items) == if items == [] then NOTHING else SaidByItem(items[0])
  {
    if items != [] {
      assert items == [items[0]];
      SaidInOne(items[0]);
    }
  }

  lemma {:induction false} SaidInCalls(calls: seq<Call>)
    ensures SaidIn(Calling(calls)) == NOTHING.(calls := calls)
  {
    if calls != [] {
      var front, last := calls[..|calls| - 1], calls[|calls| - 1];
      SaidInCalls(front);
      assert Calling(calls)[..|calls| - 1] == Calling(front);
      assert calls == front + [last];
    }
  }

  lemma SaidInResult(result: Option<Outcome>)
    ensures SaidIn(ResultItem(result)) == NOTHING.(results := if result.Some? then [result.value] else [])
  {
    hide SaidIn;
    SaidInShort(ResultItem(result));
    if result.Some? {
      var o := result.value;
      assert SaidByItem(ResultItem(result)[0]) == NOTHING.(results := [Outcome(o.callID, o.text, o.images)]);
    }
  }

  lemma PartsSay(m: Message)
    ensures SaidIn(Thinking(m)) == NOTHING.(thought := m.reasoning)
    ensures SaidIn(Talking(m)) ==
      if m.images == [] && m.role == Assistant then NOTHING.(answer := m.text)
      else if m.images == [] && m.text == [] then NOTHING
      else NOTHING.(talk := [(m.role, m.text, m.images)])
    ensures SaidIn(Calling(m.calls)) == NOTHING.(calls := m.calls)
    ensures SaidIn(ResultItem(m.result)) == NOTHING.(results := if m.result.Some? then [m.result.value] else [])
  {
    hide SaidIn, ResultItem, Calling;
    SaidInCalls(m.calls);
    SaidInShort(Thinking(m));
    SaidInShort(Talking(m));
    SaidInResult(m.result);
  }

  /** A message's items say what the message says. */
  lemma ItemsSay(m: Message)
    requires m.role != System
    ensures SaidIn(ItemsFor(m)) == SaidByMessage(m)
  {
    hide SaidIn, Thinking, Talking, Calling, ResultItem;
    SaidInTwo(Thinking(m) + Talking(m) + Calling(m.calls), ResultItem(m.result));
    SaidInTwo(Thinking(m) + Talking(m), Calling(m.calls));
    SaidInTwo(Thinking(m), Talking(m));
    PartsSay(m);
  }

  // ----- Merging and splitting -----

  lemma JoinedSays(a: Message, b: Message)
    requires Mergeable(a) && Mergeable(b)
    ensures SaidByMessage(Joined(a, b)) == Then(SaidByMessage(a), SaidByMessage(b))
  {
  }

  lemma GrownSays(front: seq<Message>, m: Message)
    ensures SaidBy(Grown(front, m)) == Then(SaidBy(front), SaidByMessage(m))
    ensures Instructions(Grown(front, m)) == Instructions(front) + if m.role == System then [m.text] else []
  {
    hide Then, SaidByMessage, Joined, SaidBy, Instructions;
    SaidByOne(m);
    if front != [] && Mergeable(front[|front| - 1]) && Mergeable(m) {
      var base, last := front[..|front| - 1], front[|front| - 1];
      assert front == base + [last];
      SaidByTwo(base, [last]);
      SaidByOne(last);
      SaidByTwo(base, [Joined(last, m)]);
      SaidByOne(Joined(last, m));
      JoinedSays(last, m);
      JoinedIsAssistant(last, m);
      ThenAssociates(SaidBy(base), SaidByMessage(last), SaidByMessage(m));
    } else {
      SaidByTwo(front, [m]);
    }
  }

  lemma {:induction false} MergedSays(messages: seq<Message>, k: nat)
    requires k <= |messages|
    ensures SaidBy(Merged(messages, k)) == SaidBy(messages[..k])
    ensures Instructions(Merged(messages, k)) == Instructions(messages[..k])
  {
    hide Then, SaidByMessage, Grown;
    if k > 0 {
      MergedSays(messages, k - 1);
      assert messages[..k][..k - 1] == messages[..k - 1];
      GrownSays(Merged(messages, k - 1), messages[k - 1]);
    }
  }

  lemma JoinedIsAssistant(a: Message, b: Message)
    requires Mergeable(a)
    ensures Joined(a, b).role == Assistant
  {
  }

  lemma SplitSays(m: Message, prefix: seq<Sig>, offset: nat, limits: Limits)
    requires SplitNext(m, prefix, offset, limits).Some?
    ensures var (piece, rest) := SplitNext(m, prefix, offset, limits).value;
      && SaidByMessage(m) == Then(SaidByMessage(piece), SaidByMessage(rest))
      && m.role == piece.role == rest.role == Assistant
  {
    hide BoundPrefix, Continues;
    var (piece, rest) := SplitNext(m, prefix, offset, limits).value;
    assert piece.text + rest.text == m.text && piece.reasoning + rest.reasoning == m.reasoning;
  }

  // ----- The whole request -----

  lemma EmitSays(r: Rendered, m: Message, img: bool)
    requires Emit(r, m, img).Ok?
    ensures SaidIn(Emit(r, m, img).value.input) == Then(SaidIn(r.input), SaidByMessage(m))
    ensures Emit(r, m, img).value.system == r.system + if m.role == System then [m.text] else []
  {
    hide Emit, ItemsFor, Then;
    EmitAdds(r, m, img);
    if m.role == System {
      ThenAssociates(SaidIn(r.input), NOTHING, NOTHING);
    } else {
      SaidInTwo(r.input, ItemsFor(m));
      ItemsSay(m);
    }
  }

  lemma {:induction false} FeedSays(work: seq<Message>, r: Rendered, prefix: seq<Sig>, limits: Limits, img: bool)
    requires Feed(work, r, prefix, limits, img).Ok?
    ensures var out := Feed(work, r, prefix, limits, img).value;
      SaidIn(out.input) == Then(SaidIn(r.input), SaidBy(work)) && out.system == r.system + Instructions(work)
    decreases Weight(work)
  {
    hide Emit, Then, SaidByMessage, SplitNext, SaidIn;
    if work == [] {
      ThenAssociates(SaidIn(r.input), NOTHING, NOTHING);
    } else {
      var m, later := work[0], work[1..];
      assert work == [m] + later;
      SaidByTwo([m], later);
      SaidByOne(m);
      var split := SplitNext(m, prefix, |r.prefix|, limits);
      if split.None? {
        var next := Emit(r, m, img).value;
        EmitSays(r, m, img);
        FeedSays(later, next, prefix, limits, img);
        ThenAssociates(SaidIn(r.input), SaidByMessage(m), SaidBy(later));
      } else {
        SplitFeeds(work, r, prefix, limits, img);
      }
    }
  }

  lemma SplitFeeds(work: seq<Message>, r: Rendered, prefix: seq<Sig>, limits: Limits, img: bool)
    requires work != [] && SplitNext(work[0], prefix, |r.prefix|, limits).Some?
    requires Feed(work, r, prefix, limits, img).Ok?
    ensures var out := Feed(work, r, prefix, limits, img).value;
      SaidIn(out.input) == Then(SaidIn(r.input), SaidBy(work)) && out.system == r.system + Instructions(work)
    decreases Weight(work), 0
  {
    hide Emit, Then, SaidByMessage, SplitFirst, SaidIn, SaidBy, Instructions;
    var m, later := work[0], work[1..];
    var (piece, rest) := SplitNext(m, prefix, |r.prefix|, limits).value;
    SplitShrinks(m, prefix, |r.prefix|, limits);
    SplitSays(m, prefix, |r.prefix|, limits);
    var next := Emit(r, piece, img).value;
    EmitSays(r, piece, img);
    assert ([rest] + later)[1..] == later;
    FeedSays([rest] + later, next, prefix, limits, img);
    assert work == [m] + later;
    SaidByTwo([m], later);
    SaidByOne(m);
    SaidByTwo([rest], later);
    SaidByOne(rest);
    var a, b, c, d := SaidIn(r.input), SaidByMessage(piece), SaidByMessage(rest), SaidBy(later);
    ThenAssociates(a, b, Then(c, d));
    ThenAssociates(b, c, d);
  }

  /** Every accepted request says exactly what its conversation says: however answers were
      merged and cut again, each message and result keeps its role or call ID, its text and
      its images, the assistant's text, reasoning and calls keep their order, and the system
      texts are sent apart. */
  lemma RequestSaysTheConversation(messages: seq<Message>, previous: History, img: bool)
    requires Rendering(messages, previous, img).Ok?
    ensures SaidIn(Rendering(messages, previous, img).value.input) == SaidBy(messages)
    ensures Rendering(messages, previous, img).value.system == Instructions(messages)
  {
    hide Emit, Then, SaidByMessage, SplitFirst, Feed, SaidBy, Instructions, Merged, NativeLimits;
    var work, limits := Merged(messages, |messages|), NativeLimits(previous.input, |previous.input|);
    FeedSays(work, BLANK_PAGE, previous.prefix, limits, img);
    MergedSays(messages, |messages|);
    assert messages[..|messages|] == messages;
    ThenAssociates(SaidBy(work), NOTHING, NOTHING);
  }

  // ----- Widths -----

  /** A rune is as wide as its encoding; a byte that is not valid UTF-8 is that byte. */
  lemma WidthIs(r: Rune)
    ensures r.Bad? ==> Width(r) == 1
    ensures r.Good? && Utf8.Scalar(r.code) ==> Width(r) == |Utf8.Encode(r.code)|
  {
  }

  /** The assistant's text in saved items, or its reasoning. */
  function SavedText(items: seq<Input>, reasoning: bool): Runes {
    if items == [] then []
    else
      var front := SavedText(items[..|items| - 1], reasoning);
      match items[|items| - 1]
      case ReasoningItem(text) => if reasoning then front + text else front
      case NativeReasoning(text, _) => if reasoning then front + text else front
      case MessageItem(Assistant, TextContent(text)) => if reasoning then front else front + text
      case MessageItem(Assistant, PartContent(text, _)) => if reasoning then front else front + text
      case NativeMessage(true, text, _) => if reasoning then front else front + text
      case _ => front
  }

  lemma {:induction false} BytesInTwo(a: Runes, b: Runes, k: nat)
    requires k <= |b|
    ensures Bytes(a + b, |a| + k) == Bytes(a, |a|) + Bytes(b, k)
  {
    if k == 0 {
      BytesFront(a, b, |a|);
    } else {
      BytesInTwo(a, b, k - 1);
      assert (a + b)[|a| + k - 1] == b[k - 1];
    }
  }

  lemma {:induction false} BytesFront(a: Runes, b: Runes, k: nat)
    requires k <= |a|
    ensures Bytes(a + b, k) == Bytes(a, k)
  {
    if k > 0 {
      BytesFront(a, b, k - 1);
    }
  }

  lemma SpelledInTwo(a: Runes, b: Runes)
    ensures Spelled(a + b) == Spelled(a) + Spelled(b)
    ensures Bytes(Spelled(a + b), |a + b|) == Bytes(Spelled(a), |a|) + Bytes(Spelled(b), |b|)
  {
    hide Bytes;
    assert Spelled(a + b) == Spelled(a) + Spelled(b);
    BytesInTwo(Spelled(a), Spelled(b), |b|);
  }

  /** A search for a boundary may go as far as the saved items have text of its kind, in
      bytes as encoded. */
  lemma {:induction false} LimitsAre(items: seq<Input>, k: nat)
    requires k <= |items|
    ensures var thought, text := SavedText(items[..k], true), SavedText(items[..k], false);
      NativeLimits(items, k) == Limits(Bytes(Spelled(thought), |thought|), Bytes(Spelled(text), |text|))
  {
    hide Bytes, Spelled;
    if k == 0 {
      NothingSaved();
    } else {
      LimitsAre(items, k - 1);
      var front, item := items[..k - 1], items[k - 1];
      assert items[..k][..k - 1] == front && items[..k][k - 1] == item;
      var added := if item.MessageItem? then item.content.text
                   else if item.ReasoningItem? || item.NativeMessage? || item.NativeReasoning? then item.text else [];
      SpelledInTwo(SavedText(front, true), added);
      SpelledInTwo(SavedText(front, false), added);
    }
  }

  lemma NothingSaved()
    ensures SavedText([], true) == [] && SavedText([], false) == [] && Bytes(Spelled([]), 0) == 0
  {
  }

  // ----- Signatures -----

  /** Runes that the encoder writes alike. */
  predicate SameRunes(a: Runes, b: Runes) {
    |a| == |b| && forall i :: 0 <= i < |a| ==> a[i] == b[i] || (Garbled(a[i]) && Garbled(b[i]))
  }

  predicate Garbled(r: Rune) {
    r.Bad? || r.code == 0xfffd
  }

  predicate SameContent(a: Content, b: Content) {
    && a.TextContent? == b.TextContent?
    && SameRunes(a.text, b.text)
    && (a.PartContent? ==> b.PartContent? && a.images == b.images)
  }

  /** Arguments are the same if they are equal JSON, or the same rejected text. */
  predicate SameArgs(a: Args, b: Args) {
    match a
    case Json(_, value) => b.Json? && b.value == value
    case Plain(text) => b == Plain(text)
  }

  predicate SameJson(a: Input, b: Input) {
    match a
    case MessageItem(role, content) => b.MessageItem? && b.role == role && SameContent(content, b.content)
    case ReasoningItem(text) => b.ReasoningItem? && SameRunes(text, b.text)
    case CallItem(call) =>
      b.CallItem? && b.call.id == call.id && b.call.name == call.name && SameArgs(call.args, b.call.args)
    case OutputItem(id, content) => b.OutputItem? && b.callID == id && SameContent(content, b.content)
    case NativeMessage(_, _, native) => NativeOf(b) == Some(native)
    case NativeReasoning(_, native) => NativeOf(b) == Some(native)
    case NativeOther(native) => NativeOf(b) == Some(native)
  }

  function NativeOf(item: Input): Option<nat> {
    if item.NativeMessage? || item.NativeReasoning? || item.NativeOther? then Some(item.native) else None
  }

  lemma SpelledAlikeIff(a: Runes, b: Runes)
    ensures Spelled(a) == Spelled(b) <==> SameRunes(a, b)
  {
    if Spelled(a) == Spelled(b) {
      forall i | 0 <= i < |a| ensures a[i] == b[i] || (Garbled(a[i]) && Garbled(b[i])) {
        assert Spelled(a)[i] == Spelled(b)[i];
      }
    }
  }

  /** A signature tells any two items apart that are sent differently, and no others. */
  lemma SignatureIff(a: Input, b: Input)
    ensures Signature(a) == Signature(b) <==> SameJson(a, b)
  {
    hide Spelled, SameRunes;
    if a.ReasoningItem? && b.ReasoningItem? {
      SpelledAlikeIff(a.text, b.text);
    }
    if (a.MessageItem? && b.MessageItem?) || (a.OutputItem? && b.OutputItem?) {
      SpelledAlikeIff(a.content.text, b.content.text);
    }
  }

  /** Signature `i` is that of the item before end `i`; ends go up, and whatever is not
      reasoning is signed. */
  ghost predicate SignedInPlace(r: Rendered) {
    && |r.ends| == |r.prefix|
    && (forall i :: 0 <= i < |r.ends| ==>
          0 < r.ends[i] <= |r.input| && Signature(r.input[r.ends[i] - 1]) == r.prefix[i])
    && (forall i, j :: 0 <= i < j < |r.ends| ==> r.ends[i] < r.ends[j])
    && (forall k :: 0 <= k < |r.input| && !r.input[k].ReasoningItem? ==> k + 1 in r.ends)
  }

  lemma AddSignsInPlace(r: Rendered, item: Input, canonical: bool)
    requires SignedInPlace(r) && (canonical || item.ReasoningItem?)
    ensures SignedInPlace(Add(r, item, canonical))
  {
    hide Signature;
    var s := Add(r, item, canonical);
    forall k | 0 <= k < |s.input| && !s.input[k].ReasoningItem? ensures k + 1 in s.ends {
      if k < |r.input| {
        assert k + 1 in r.ends;
        assert r.ends <= s.ends;
      } else {
        assert s.ends[|r.ends|] == k + 1;
      }
    }
  }

  lemma {:induction false} CallsSignInPlace(r: Rendered, calls: seq<Call>, k: nat)
    requires SignedInPlace(r) && k <= |calls| && AddCalls(r, calls, k).Ok?
    ensures SignedInPlace(AddCalls(r, calls, k).value)
  {
    hide InvalidNext, Signature, Add;
    if k > 0 {
      CallsSignInPlace(r, calls, k - 1);
      var before, id := AddCalls(r, calls, k - 1).value, calls[k - 1].id;
      var called := before.(seen := before.seen + {id}, pending := before.pending + {id});
      AddSignsInPlace(called, CallItem(calls[k - 1]), true);
    }
  }

  lemma EmitSignsInPlace(r: Rendered, m: Message, img: bool)
    requires SignedInPlace(r) && Emit(r, m, img).Ok?
    ensures SignedInPlace(Emit(r, m, img).value)
  {
    hide Signature, Add, AddCalls, SignedInPlace, InvalidNext;
    if m.role == System {
      SystemSignsInPlace(r, m);
    } else {
      var s := AddWords(r, m);
      WordsSignInPlace(r, m);
      CallsSignInPlace(s, m.calls, |m.calls|);
      if m.result.Some? {
        ResultSignsInPlace(AddCalls(s, m.calls, |m.calls|).value, m.result.value, img);
      }
    }
  }

  lemma SystemSignsInPlace(r: Rendered, m: Message)
    requires SignedInPlace(r)
    ensures SignedInPlace(r.(system := r.system + [m.text]))
  {
  }

  lemma WordsSignInPlace(r: Rendered, m: Message)
    requires SignedInPlace(r)
    ensures SignedInPlace(AddWords(r, m))
  {
    hide Signature, Add, SignedInPlace;
    var canonical := m.text == [] && m.calls == [];
    AddSignsInPlace(r, ReasoningItem(m.reasoning), canonical);
    var s := if m.reasoning != [] then Add(r, ReasoningItem(m.reasoning), canonical) else r;
    forall content: Content
      ensures SignedInPlace(Add(s, MessageItem(m.role, content), true))
    {
      AddSignsInPlace(s, MessageItem(m.role, content), true);
    }
  }

  lemma ResultSignsInPlace(r: Rendered, result: Outcome, img: bool)
    requires SignedInPlace(r) && AddResult(r, result, img).Ok?
    ensures SignedInPlace(AddResult(r, result, img).value)
  {
    hide Signature, Add;
    var t := r.(pending := r.pending - {result.callID});
    forall content: Content
      ensures SignedInPlace(Add(t, OutputItem(result.callID, content), true))
    {
      AddSignsInPlace(t, OutputItem(result.callID, content), true);
    }
  }

  function Sigs(items: seq<Input>): seq<Sig> {
    seq(|items|, i requires 0 <= i < |items| => Signature(items[i]))
  }

  /** Reasoning is signed only when neither text nor calls follow it. */
  function SignedFor(m: Message): seq<Input> {
    (if m.text == [] && m.calls == [] then Thinking(m) else []) + Talking(m) + Calling(m.calls) + ResultItem(m.result)
  }

  /** An emitted message adds the signatures of its items, reasoning only if it stands alone. */
  lemma EmitAddsSignatures(r: Rendered, m: Message, img: bool)
    requires Emit(r, m, img).Ok? && m.role != System
    ensures Emit(r, m, img).value.prefix == r.prefix + Sigs(SignedFor(m))
  {
    hide AddCalls, Signature, InvalidNext, AddWords, AddResult, Thinking, Talking, Calling, ResultItem, CallSigs;
    WordsAddSignatures(r, m);
    CallsKeepPrefix(AddWords(r, m), m.calls, |m.calls|);
    CallsSigned(m.calls);
    var words := (if m.text == [] && m.calls == [] then Thinking(m) else []) + Talking(m);
    SigsInTwo(words + Calling(m.calls), ResultItem(m.result));
    SigsInTwo(words, Calling(m.calls));
    if m.result.Some? {
      ResultAddsSignature(AddCalls(AddWords(r, m), m.calls, |m.calls|).value, m.result.value, img);
    } else {
      NoResultSigned();
    }
  }

  lemma SigsInTwo(a: seq<Input>, b: seq<Input>)
    ensures Sigs(a + b) == Sigs(a) + Sigs(b)
  {
    hide Signature;
  }

  lemma CallsSigned(calls: seq<Call>)
    ensures CallSigs(calls)[..|calls|] == Sigs(Calling(calls))
  {
    hide Signature;
  }

  lemma NoResultSigned()
    ensures Sigs(ResultItem(None)) == []
  {
  }

  lemma ResultAddsSignature(r: Rendered, result: Outcome, img: bool)
    requires AddResult(r, result, img).Ok?
    ensures AddResult(r, result, img).value.prefix == r.prefix + Sigs(ResultItem(Some(result)))
  {
    hide Signature;
  }

  lemma WordsAddSignatures(r: Rendered, m: Message)
    ensures AddWords(r, m).prefix ==
      r.prefix + Sigs((if m.text == [] && m.calls == [] then Thinking(m) else []) + Talking(m))
  {
    hide Signature;
  }

  // ----- When a message is accepted -----

  predicate ImagesAllowed(m: Message, img: bool) {
    m.images == [] || (m.role == User && img)
  }

  /** While calls are open, only results come, or more calls of the same answer. */
  predicate TurnAllowed(open: set<string>, m: Message) {
    open == {} || m.role == ToolRole || (m.role == Assistant && m.text == [] && m.calls != [])
  }

  predicate CallAllowed(called: set<string>, calls: seq<Call>, i: nat)
    requires i < |calls|
  {
    var c := calls[i];
    && c.id != "" && c.name != ""
    && (c.args.Plain? ==> exists j :: 0 <= j < |c.args.text| && !Text.IsSpace(c.args.text[j]))
    && c.id !in called && forall j :: 0 <= j < i ==> calls[j].id != c.id
  }

  function IDs(calls: seq<Call>): set<string> {
    set i | 0 <= i < |calls| :: calls[i].id
  }

  lemma IDsGrow(calls: seq<Call>, k: nat, id: string)
    requires 0 < k <= |calls|
    ensures IDs(calls[..k]) == IDs(calls[..k - 1]) + {calls[k - 1].id}
    ensures id in IDs(calls[..k - 1]) <==> exists j :: 0 <= j < k - 1 && calls[j].id == id
  {
    var some, all := calls[..k - 1], calls[..k];
    if j: nat :| j < k - 1 && calls[j].id == id {
      assert some[j] == calls[j];
    }
    forall id ensures id in IDs(all) <==> id in IDs(some) || id == calls[k - 1].id {
      if id in IDs(some) {
        var j :| 0 <= j < |some| && some[j].id == id;
        assert all[j].id == id;
      }
      assert all[k - 1] == calls[k - 1];
      if j: nat :| j < k && all[j].id == id {
        assert j < k - 1 ==> some[j] == all[j];
      }
    }
  }

  lemma {:induction false} CallsAllowedIff(r: Rendered, calls: seq<Call>, k: nat)
    requires k <= |calls|
    ensures AddCalls(r, calls, k).Ok? <==> forall i :: 0 <= i < k ==> CallAllowed(r.seen, calls, i)
    ensures AddCalls(r, calls, k).Err? ==> AddCalls(r, calls, k).error == InvalidCall
    ensures AddCalls(r, calls, k).Ok? ==>
      var s := AddCalls(r, calls, k).value;
      s.seen == r.seen + IDs(calls[..k]) && s.pending == r.pending + IDs(calls[..k])
  {
    hide Signature, Text.Blank;
    if k > 0 {
      CallsAllowedIff(r, calls, k - 1);
      var c := calls[k - 1];
      if c.args.Plain? {
        Text.BlankIff(c.args.text);
      }
      if AddCalls(r, calls, k - 1).Ok? {
        assert forall j :: 0 <= j < k - 1 ==> calls[..k - 1][j] == calls[j] == calls[..k][j];
        assert calls[..k][k - 1] == c;
        IDsGrow(calls, k, c.id);
        assert CallAllowed(r.seen, calls, k - 1) <==> !InvalidNext(AddCalls(r, calls, k - 1).value, c);
      }
    }
  }

  lemma WordsKeepBooks(r: Rendered, m: Message)
    ensures AddWords(r, m).seen == r.seen && AddWords(r, m).pending == r.pending
  {
    hide Signature;
  }

  /** A message is accepted exactly if its images can be sent, its turn has come, its calls
      are complete and new, and its result answers an open call; the first of these that
      fails names the error. Its calls are then open and its result closes one. */
  lemma EmitIff(r: Rendered, m: Message, img: bool)
    ensures var out, open := Emit(r, m, img), r.pending + IDs(m.calls);
      if !ImagesAllowed(m, img) then out == Err(UnsupportedImages)
      else if !TurnAllowed(r.pending, m) then out == Err(ResultsRequired)
      else if m.role == System then out == Ok(r.(system := r.system + [m.text]))
      else if exists i :: 0 <= i < |m.calls| && !CallAllowed(r.seen, m.calls, i) then out == Err(InvalidCall)
      else if m.result.Some? && m.result.value.callID !in open then out == Err(OrphanResult)
      else if m.result.Some? && m.result.value.images != [] && !img then out == Err(UnsupportedImages)
      else
        && out.Ok? && out.value.seen == r.seen + IDs(m.calls)
        && out.value.pending == if m.result.Some? then open - {m.result.value.callID} else open
  {
    hide Signature, AddWords, AddCalls, CallAllowed;
    WordsKeepBooks(r, m);
    CallsAllowedIff(AddWords(r, m), m.calls, |m.calls|);
    assert m.calls[..|m.calls|] == m.calls;
  }

  // ----- Calls and results in a request -----

  /** The calls of a request that have no result in it. */
  function Open(items: seq<Input>): set<string> {
    if items == [] then {}
    else OpenAfter(Open(items[..|items| - 1]), items[|items| - 1])
  }

  function OpenAfter(open: set<string>, item: Input): set<string> {
    match item
    case CallItem(call) => open + {call.id}
    case OutputItem(id, _) => open - {id}
    case _ => open
  }

  function Called(items: seq<Input>): set<string> {
    set i | 0 <= i < |items| && items[i].CallItem? :: items[i].call.id
  }

  /** Call IDs are new, results answer an open call, and no message of the user or the
      assistant stands between a call and its result. */
  predicate DisciplinedAt(items: seq<Input>, k: nat)
    requires k < |items|
  {
    match items[k]
    case CallItem(call) => call.id != "" && call.name != "" && call.id !in Called(items[..k])
    case OutputItem(id, _) => id in Open(items[..k])
    case MessageItem(role, _) => role == ToolRole || Open(items[..k]) == {}
    case ReasoningItem(_) => true
    case _ => false
  }

  ghost predicate Disciplined(items: seq<Input>) {
    forall k :: 0 <= k < |items| ==> DisciplinedAt(items, k)
  }

  ghost predicate Booked(r: Rendered) {
    Disciplined(r.input) && r.pending == Open(r.input) && r.seen == Called(r.input)
  }

  lemma NextCalled(items: seq<Input>, item: Input)
    ensures Called(items + [item]) == Called(items) + if item.CallItem? then {item.call.id} else {}
  {
    var all := items + [item];
    forall id ensures id in Called(all) <==> id in Called(items) || (item.CallItem? && id == item.call.id) {
      if id in Called(items) {
        var i :| 0 <= i < |items| && items[i].CallItem? && items[i].call.id == id;
        assert all[i] == items[i];
      }
      if item.CallItem? {
        assert all[|items|] == item;
      }
    }
  }

  lemma NextDisciplined(items: seq<Input>, item: Input)
    requires Disciplined(items) && DisciplinedAt(items + [item], |items|)
    ensures Disciplined(items + [item])
    ensures Open(items + [item]) == OpenAfter(Open(items), item)
    ensures Called(items + [item]) == Called(items) + if item.CallItem? then {item.call.id} else {}
  {
    hide Called, OpenAfter;
    NextCalled(items, item);
    var all := items + [item];
    assert all[..|items|] == items && all[..|all| - 1] == items;
    forall k | 0 <= k < |all| ensures DisciplinedAt(all, k) {
      if k < |items| {
        assert DisciplinedAt(items, k);
        assert all[..k] == items[..k];
      }
    }
  }

  lemma {:induction false} CallsBooked(r: Rendered, calls: seq<Call>, k: nat)
    requires Booked(r) && k <= |calls| && AddCalls(r, calls, k).Ok?
    ensures Booked(AddCalls(r, calls, k).value)
  {
    hide Signature, Disciplined, Open, Called, Text.Blank;
    if k > 0 {
      CallsBooked(r, calls, k - 1);
      var before := AddCalls(r, calls, k - 1).value;
      assert (before.input + [CallItem(calls[k - 1])])[..|before.input|] == before.input;
      NextDisciplined(before.input, CallItem(calls[k - 1]));
    }
  }

  lemma WordsBooked(r: Rendered, m: Message)
    requires Booked(r) && (m.images == [] || m.role == User)
    requires TurnAllowed(r.pending, m)
    ensures Booked(AddWords(r, m))
  {
    hide Signature, Disciplined, Open, Called;
    var canonical := m.text == [] && m.calls == [];
    var think := ReasoningItem(m.reasoning);
    assert (r.input + [think])[..|r.input|] == r.input;
    NextDisciplined(r.input, think);
    var s := if m.reasoning != [] then Add(r, think, canonical) else r;
    if m.text != [] || m.images != [] {
      var item := MessageItem(m.role, ContentOf(m.text, m.images));
      assert (s.input + [item])[..|s.input|] == s.input;
      NextDisciplined(s.input, item);
    }
  }

  lemma ResultBooked(r: Rendered, result: Outcome, img: bool)
    requires Booked(r) && AddResult(r, result, img).Ok?
    ensures Booked(AddResult(r, result, img).value)
  {
    hide Signature, Disciplined, Open, Called;
    var item := OutputItem(result.callID, ContentOf(result.text, result.images));
    assert (r.input + [item])[..|r.input|] == r.input;
    NextDisciplined(r.input, item);
  }

  lemma EmitBooked(r: Rendered, m: Message, img: bool)
    requires Booked(r) && Emit(r, m, img).Ok?
    ensures Booked(Emit(r, m, img).value)
  {
    hide Disciplined, Open, Called, AddWords, AddCalls, AddResult;
    if m.role != System {
      WordsBooked(r, m);
      CallsBooked(AddWords(r, m), m.calls, |m.calls|);
      if m.result.Some? {
        ResultBooked(AddCalls(AddWords(r, m), m.calls, |m.calls|).value, m.result.value, img);
      }
    }
  }

  lemma {:induction false} FeedKeepsBooks(work: seq<Message>, r: Rendered, prefix: seq<Sig>, limits: Limits, img: bool)
    requires Booked(r) && SignedInPlace(r) && Feed(work, r, prefix, limits, img).Ok?
    ensures Booked(Feed(work, r, prefix, limits, img).value)
    ensures SignedInPlace(Feed(work, r, prefix, limits, img).value)
    decreases Weight(work)
  {
    hide Emit, Booked, SignedInPlace, SplitNext;
    if work != [] {
      var split := SplitNext(work[0], prefix, |r.prefix|, limits);
      if split.None? {
        EmitBooked(r, work[0], img);
        EmitSignsInPlace(r, work[0], img);
        FeedKeepsBooks(work[1..], Emit(r, work[0], img).value, prefix, limits, img);
      } else {
        var (piece, rest) := split.value;
        SplitNextShrinks(work[0], prefix, |r.prefix|, limits);
        EmitBooked(r, piece, img);
        EmitSignsInPlace(r, piece, img);
        assert ([rest] + work[1..])[1..] == work[1..];
        FeedKeepsBooks([rest] + work[1..], Emit(r, piece, img).value, prefix, limits, img);
      }
    }
  }

  lemma SplitNextShrinks(m: Message, prefix: seq<Sig>, offset: nat, limits: Limits)
    requires SplitNext(m, prefix, offset, limits).Some?
    ensures var (piece, rest) := SplitNext(m, prefix, offset, limits).value;
      |rest.text| + |rest.reasoning| < |m.text| + |m.reasoning|
  {
    SplitShrinks(m, prefix, offset, limits);
  }

  lemma BlankIsBooked()
    ensures Booked(BLANK_PAGE) && SignedInPlace(BLANK_PAGE)
  {
  }

  /** Every accepted request is one that a stateless server can replay: each call is new
      and has one result behind it, with no message of the user or the assistant between
      them, and every item but reasoning that text or calls follow is signed at its place. */
  lemma RequestIsDisciplined(messages: seq<Message>, previous: History, img: bool)
    requires Rendering(messages, previous, img).Ok?
    ensures var out := Rendering(messages, previous, img).value;
      && Disciplined(out.input) && Open(out.input) == {}
      && SignedInPlace(out)
  {
    hide Emit, Feed, Merged, NativeLimits, Disciplined, Open, Called, SignedInPlace;
    BlankIsBooked();
    FeedKeepsBooks(Merged(messages, |messages|), BLANK_PAGE, previous.prefix,
                   NativeLimits(previous.input, |previous.input|), img);
  }

  // ----- The saved history in a request -----

  /** The item that the last saved signature stands for ends the saved part. */
  function SavedEnd(out: Rendered, n: nat): nat
    requires n <= |out.ends|
  {
    if n == 0 then 0 else out.ends[n - 1]
  }

  /** Without saved history a request is what was rendered. With it the history must be of
      this kind, hold something, and have signatures with which the rendered ones begin, all
      of them included; the request is then the saved input and what was rendered behind the
      last of them. */
  lemma SplicedIff(messages: seq<Message>, previous: Option<History>, compatibility: nat, img: bool)
    ensures var rendering := Rendering(messages, if previous.Some? then previous.value else NO_HISTORY, img);
      var r := Spliced(messages, previous, compatibility, img);
      if rendering.Err? then r == Err(rendering.error)
      else
        var out := rendering.value;
        if previous.None? then r == Ok(History(compatibility, out.prefix, out.input))
        else
          var saved, n := previous.value, |previous.value.prefix|;
          if saved.compatibility == compatibility && saved.input != [] && n <= |out.prefix|
             && forall i :: 0 <= i < n ==> saved.prefix[i] == out.prefix[i]
          then
            && n <= |out.ends| && SavedEnd(out, n) <= |out.input|
            && r == Ok(History(compatibility, out.prefix, saved.input + out.input[SavedEnd(out, n)..]))
          else r == Err(HistoryMismatch)
  {
    hide Rendering;
    var known := if previous.Some? then previous.value else NO_HISTORY;
    var rendering := Rendering(messages, known, img);
    if rendering.Ok? {
      RequestIsDisciplined(messages, known, img);
      EndsAreInside(rendering.value);
    }
  }

  lemma EndsAreInside(r: Rendered)
    requires SignedInPlace(r)
    ensures |r.ends| == |r.prefix| && forall i :: 0 <= i < |r.ends| ==> r.ends[i] <= |r.input|
  {
  }
}
