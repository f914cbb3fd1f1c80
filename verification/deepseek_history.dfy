/** Rendering a conversation for DeepSeek's stateless replay: adjacent assistant fragments
    merge, saved signatures split them again, and saved native items replace what they bind. */
module DeepSeekHistory {
  import opened Wrappers
  import Text

  // ----- Text -----

  /** A rune of a Go string; `Bad` is a byte that is not valid UTF-8. */
  datatype Rune = Good(code: nat) | Bad(byte: nat)

  type Runes = seq<Rune>

  function Width(r: Rune): (w: nat)
    ensures 1 <= w <= 4
  {
    match r
    case Bad(_) => 1
    case Good(code) => if code < 0x80 then 1 else if code < 0x800 then 2 else if code < 0x1_0000 then 3 else 4
  }

  function Bytes(text: Runes, k: nat): nat
    requires k <= |text|
  {
    if k == 0 then 0 else Bytes(text, k - 1) + Width(text[k - 1])
  }

  /** The encoder writes a byte that is not valid UTF-8 as U+FFFD, in a whole item and rune
      by rune alike. */
  function Spell(r: Rune): Rune {
    if r.Bad? then Good(0xfffd) else r
  }

  function Spelled(text: Runes): (r: Runes)
    ensures |r| == |text|
  {
    seq(|text|, i requires 0 <= i < |text| => Spell(text[i]))
  }

  // ----- Messages and items -----

  datatype Role = System | User | Assistant | ToolRole

  /** Function arguments: a JSON value in some spelling, or rejected text. */
  datatype Args = Json(spelling: nat, value: nat) | Plain(text: string)

  predicate BlankArgs(args: Args) { args.Plain? && Text.Blank(args.text) }

  function CanonicalArgs(args: Args): Args {
    if args.Json? then Json(0, args.value) else args
  }

  datatype Call = Call(id: string, name: string, args: Args)

  /** Images are the references of already resolved attachments. */
  datatype Outcome = Outcome(callID: string, text: Runes, images: seq<nat>)

  datatype Message = Message(role: Role, text: Runes, reasoning: Runes, calls: seq<Call>,
                             result: Option<Outcome>, images: seq<nat>)

  datatype Content = TextContent(text: Runes) | PartContent(text: Runes, images: seq<nat>)

  /** Rendered items, and native items; `native` stands for the JSON value that the provider
      returned, since saving encodes it again. */
  datatype Input =
    | MessageItem(role: Role, content: Content)
    | ReasoningItem(text: Runes)
    | CallItem(call: Call)
    | OutputItem(callID: string, content: Content)
    | NativeMessage(assistant: bool, text: Runes, native: nat)
    | NativeReasoning(text: Runes, native: nat)
    | NativeOther(native: nat)

  /** A hash of the item's JSON: injective, except that JSON-equal arguments and the
      spellings JSON replaces are the same. `Foreign` is any other saved text. */
  datatype Sig =
    | MessageSig(role: Role, content: Content)
    | ReasoningSig(text: Runes)
    | CallSig(id: string, name: string, args: Args)
    | OutputSig(callID: string, content: Content)
    | NativeSig(native: nat)
    | Foreign(raw: string)

  function SpelledContent(c: Content): Content {
    match c
    case TextContent(text) => TextContent(Spelled(text))
    case PartContent(text, images) => PartContent(Spelled(text), images)
  }

  function Signature(item: Input): Sig {
    match item
    case MessageItem(role, content) => MessageSig(role, SpelledContent(content))
    case ReasoningItem(text) => ReasoningSig(Spelled(text))
    case CallItem(call) => CallSig(call.id, call.name, CanonicalArgs(call.args))
    case OutputItem(id, content) => OutputSig(id, SpelledContent(content))
    case NativeMessage(_, _, native) => NativeSig(native)
    case NativeReasoning(_, native) => NativeSig(native)
    case NativeOther(native) => NativeSig(native)
  }

  function CallSigs(calls: seq<Call>): (r: seq<Sig>)
    ensures |r| == |calls|
  {
    seq(|calls|, i requires 0 <= i < |calls| => Signature(CallItem(calls[i])))
  }

  /** deepSeekAssistantSignatures: text first, or reasoning that stands alone, then calls. */
  function AssistantSigs(m: Message): seq<Sig> {
    (if m.text != [] then [Signature(MessageItem(Assistant, TextContent(m.text)))]
     else if m.reasoning != [] && m.calls == [] then [Signature(ReasoningItem(m.reasoning))]
     else [])
    + CallSigs(m.calls)
  }

  // ----- Splitting a grouped message -----

  function StringSig(text: Runes, reasoning: bool): Sig {
    if reasoning then Signature(ReasoningItem(text)) else Signature(MessageItem(Assistant, TextContent(text)))
  }

  predicate WithinLimit(value: Runes, k: nat, limit: nat)
    requires k <= |value|
  {
    limit == 0 || Bytes(value, k) <= limit
  }

  /** The first rune boundary past `k` whose prefix has the saved signature. */
  function BoundFrom(value: Runes, signature: Sig, reasoning: bool, limit: nat, k: nat): Option<nat>
    requires k <= |value|
    decreases |value| - k
  {
    if k == |value| || !WithinLimit(value, k + 1, limit) then None
    else if StringSig(value[..k + 1], reasoning) == signature then Some(k + 1)
    else BoundFrom(value, signature, reasoning, limit, k + 1)
  }

  function BoundPrefix(value: Runes, signature: Sig, reasoning: bool, limit: nat): Option<nat> {
    BoundFrom(value, signature, reasoning, limit, 0)
  }

  /** deepSeekBoundStringPrefix, hashing one rune at a time. */
  method FindBoundPrefix(value: Runes, signature: Sig, reasoning: bool, limit: nat) returns (r: Option<nat>)
    ensures r == BoundPrefix(value, signature, reasoning, limit)
  {
    var bytes: nat, hashed: Runes := 0, [];
    for i := 0 to |value|
      invariant bytes == Bytes(value, i) && hashed == value[..i]
      invariant BoundFrom(value, signature, reasoning, limit, i) == BoundPrefix(value, signature, reasoning, limit)
    {
      if limit > 0 && bytes >= limit {
        return None;
      }
      if limit > 0 && bytes + Width(value[i]) > limit {
        return None;
      }
      bytes := bytes + Width(value[i]);
      hashed := hashed + [value[i]];
      assert hashed == value[..i + 1];
      if StringSig(hashed, reasoning) == signature {
        return Some(i + 1);
      }
    }
    return None;
  }

  /** The signatures of `m` continue the saved prefix at `offset`, as far as both go. */
  predicate Continues(m: Message, prefix: seq<Sig>, offset: nat)
    requires offset <= |prefix|
  {
    var sigs := AssistantSigs(m);
    var count := if |sigs| < |prefix| - offset then |sigs| else |prefix| - offset;
    count > 0 && sigs[..count] == prefix[offset..offset + count]
  }

  datatype Limits = Limits(reasoning: nat, text: nat)

  /** One round of the splitting loop: the piece that the next signature proves. */
  function SplitFirst(m: Message, prefix: seq<Sig>, offset: nat, limits: Limits): Option<(Message, Message)> {
    if offset >= |prefix| || Continues(m, prefix, offset) then None
    else
      var r := if m.reasoning != [] && limits.reasoning > 0
               then BoundPrefix(m.reasoning, prefix[offset], true, limits.reasoning) else None;
      if r.Some? && r.value <= |m.reasoning| then
        Some((Piece([], m.reasoning[..r.value]), m.(reasoning := m.reasoning[r.value..])))
      else
        var t := if m.text != [] && m.reasoning == [] && limits.text > 0
                 then BoundPrefix(m.text, prefix[offset], false, limits.text) else None;
        if t.Some? && t.value <= |m.text| then Some((Piece(m.text[..t.value], []), m.(text := m.text[t.value..])))
        else None
  }

  function Piece(text: Runes, reasoning: Runes): Message {
    Message(Assistant, text, reasoning, [], None, [])
  }

  predicate HasContent(m: Message) {
    m.text != [] || m.reasoning != [] || m.calls != []
  }

  function Pieces(m: Message, prefix: seq<Sig>, offset: nat, limits: Limits): seq<Message>
    decreases |prefix| - offset
  {
    var split := SplitFirst(m, prefix, offset, limits);
    if split.Some? then [split.value.0] + Pieces(split.value.1, prefix, offset + 1, limits)
    else if HasContent(m) then [m]
    else []
  }

  /** deepSeekBoundAssistantPieces: each round consumes one saved signature. */
  method BoundAssistantPieces(m: Message, prefix: seq<Sig>, offset: nat, limits: Limits) returns (pieces: seq<Message>)
    ensures pieces == Pieces(m, prefix, offset, limits)
  {
    hide SplitFirst, HasContent;
    var rest, at: nat := m, offset;
    pieces := [];
    while at < |prefix|
      invariant pieces + Pieces(rest, prefix, at, limits) == Pieces(m, prefix, offset, limits)
      decreases |prefix| - at
    {
      var split := SplitRound(rest, prefix, at, limits);
      if split.None? {
        break;
      }
      pieces := pieces + [split.value.0];
      rest := split.value.1;
      at := at + 1;
    }
    if at >= |prefix| {
      PastPrefix(rest, prefix, at, limits);
    }
    if HasContent(rest) {
      pieces := pieces + [rest];
    }
  }

  lemma PastPrefix(m: Message, prefix: seq<Sig>, offset: nat, limits: Limits)
    requires offset >= |prefix|
    ensures SplitFirst(m, prefix, offset, limits).None?
  {
  }

  method SplitRound(m: Message, prefix: seq<Sig>, offset: nat, limits: Limits) returns (r: Option<(Message, Message)>)
    requires offset < |prefix|
    ensures r == SplitFirst(m, prefix, offset, limits)
  {
    hide BoundPrefix, AssistantSigs;
    var sigs := AssistantSigs(m);
    var count := if |sigs| < |prefix| - offset then |sigs| else |prefix| - offset;
    if count > 0 && sigs[..count] == prefix[offset..offset + count] {
      return None;
    }
    if |m.reasoning| > 0 && limits.reasoning > 0 {
      var end := FindBoundPrefix(m.reasoning, prefix[offset], true, limits.reasoning);
      BoundPrefixInside(m.reasoning, prefix[offset], true, limits.reasoning);
      if end.Some? {
        return Some((Piece([], m.reasoning[..end.value]), m.(reasoning := m.reasoning[end.value..])));
      }
    }
    // Text and reasoning that is not signed cannot be split independently.
    if |m.text| > 0 && |m.reasoning| == 0 && limits.text > 0 {
      var end := FindBoundPrefix(m.text, prefix[offset], false, limits.text);
      BoundPrefixInside(m.text, prefix[offset], false, limits.text);
      if end.Some? {
        return Some((Piece(m.text[..end.value], []), m.(text := m.text[end.value..])));
      }
    }
    return None;
  }

  lemma BoundPrefixInside(value: Runes, signature: Sig, reasoning: bool, limit: nat)
    ensures var r := BoundPrefix(value, signature, reasoning, limit);
      r.Some? ==>
        && 0 < r.value <= |value|
        && StringSig(value[..r.value], reasoning) == signature
        && WithinLimit(value, r.value, limit)
  {
    BoundInside(value, signature, reasoning, limit, 0);
  }

  lemma {:induction false} BoundInside(value: Runes, signature: Sig, reasoning: bool, limit: nat, k: nat)
    requires k <= |value|
    ensures var r := BoundFrom(value, signature, reasoning, limit, k);
      r.Some? ==>
        && k < r.value <= |value|
        && StringSig(value[..r.value], reasoning) == signature
        && WithinLimit(value, r.value, limit)
    decreases |value| - k
  {
    if k < |value| {
      BoundInside(value, signature, reasoning, limit, k + 1);
    }
  }

  // ----- Rendering -----

  datatype Failure =
    | UnsupportedImages | ResultsRequired | InvalidCall | OrphanResult | MissingResult | HistoryMismatch

  /** Everything the rendering loop accumulates. */
  datatype Rendered = Rendered(input: seq<Input>, prefix: seq<Sig>, ends: seq<nat>, system: seq<Runes>,
                               pending: set<string>, seen: set<string>)

  const BLANK_PAGE := Rendered([], [], [], [], {}, {})

  function Add(r: Rendered, item: Input, canonical: bool): Rendered {
    var input := r.input + [item];
    if canonical then r.(input := input, prefix := r.prefix + [Signature(item)], ends := r.ends + [|input|])
    else r.(input := input)
  }

  predicate InvalidNext(r: Rendered, call: Call) {
    call.id == "" || call.name == "" || BlankArgs(call.args) || call.id in r.seen
  }

  function AddCalls(r: Rendered, calls: seq<Call>, k: nat): Result<Rendered, Failure>
    requires k <= |calls|
  {
    if k == 0 then Ok(r)
    else
      var before := AddCalls(r, calls, k - 1);
      if before.Err? then before
      else if InvalidNext(before.value, calls[k - 1]) then Err(InvalidCall)
      else
        var id := calls[k - 1].id;
        var called := before.value.(seen := before.value.seen + {id}, pending := before.value.pending + {id});
        Ok(Add(called, CallItem(calls[k - 1]), true))
  }

  function ContentOf(text: Runes, images: seq<nat>): Content {
    if images == [] then TextContent(text) else PartContent(text, images)
  }

  function AddResult(r: Rendered, result: Outcome, supportsImages: bool): Result<Rendered, Failure> {
    if result.callID !in r.pending then Err(OrphanResult)
    else if result.images != [] && !supportsImages then Err(UnsupportedImages)
    else
      var item := OutputItem(result.callID, ContentOf(result.text, result.images));
      Ok(Add(r.(pending := r.pending - {result.callID}), item, true))
  }

  /** Reasoning is signed only when it is the whole message. */
  function AddWords(r: Rendered, m: Message): Rendered {
    var s := if m.reasoning != [] then Add(r, ReasoningItem(m.reasoning), m.text == [] && m.calls == []) else r;
    if m.text != [] || m.images != [] then Add(s, MessageItem(m.role, ContentOf(m.text, m.images)), true) else s
  }

  /** The loop body after splitting: one message, in the source's order of checks. */
  function Emit(r: Rendered, m: Message, supportsImages: bool): Result<Rendered, Failure> {
    if m.images != [] && (m.role != User || !supportsImages) then Err(UnsupportedImages)
    else if r.pending != {} && m.role != ToolRole && !(m.role == Assistant && m.text == [] && m.calls != []) then
      Err(ResultsRequired)
    else if m.role == System then Ok(r.(system := r.system + [m.text]))
    else
      var called := AddCalls(AddWords(r, m), m.calls, |m.calls|);
      if called.Err? || m.result.None? then called else AddResult(called.value, m.result.value, supportsImages)
  }

  /** Messages that one provider answer may have been split over, or grouped into. */
  predicate Mergeable(m: Message) {
    m.role == Assistant && m.result.None? && m.images == []
  }

  function Joined(a: Message, b: Message): Message {
    a.(text := a.text + b.text, reasoning := a.reasoning + b.reasoning, calls := a.calls + b.calls)
  }

  function Grown(front: seq<Message>, m: Message): seq<Message> {
    if front != [] && Mergeable(front[|front| - 1]) && Mergeable(m) then
      front[..|front| - 1] + [Joined(front[|front| - 1], m)]
    else front + [m]
  }

  function Merged(messages: seq<Message>, k: nat): seq<Message>
    requires k <= |messages|
  {
    if k == 0 then [] else Grown(Merged(messages, k - 1), messages[k - 1])
  }

  function SplitNext(m: Message, prefix: seq<Sig>, offset: nat, limits: Limits): Option<(Message, Message)> {
    if Mergeable(m) then SplitFirst(m, prefix, offset, limits) else None
  }

  function Weight(work: seq<Message>): nat {
    if work == [] then 0 else 1 + |work[0].text| + |work[0].reasoning| + Weight(work[1..])
  }

  lemma SplitShrinks(m: Message, prefix: seq<Sig>, offset: nat, limits: Limits)
    requires SplitFirst(m, prefix, offset, limits).Some?
    ensures var (piece, rest) := SplitFirst(m, prefix, offset, limits).value;
      |rest.text| + |rest.reasoning| < |m.text| + |m.reasoning| && (Mergeable(m) ==> Mergeable(rest))
  {
    if m.reasoning != [] {
      BoundInside(m.reasoning, prefix[offset], true, limits.reasoning, 0);
    }
    BoundInside(m.text, prefix[offset], false, limits.text, 0);
  }

  /** The meaning of the rendering loop: split one proven piece off the front, or take the
      whole front message, until nothing is left. */
  function Feed(work: seq<Message>, r: Rendered, prefix: seq<Sig>, limits: Limits, supportsImages: bool)
      : Result<Rendered, Failure>
    decreases Weight(work)
  {
    if work == [] then Ok(r)
    else
      var split := SplitNext(work[0], prefix, |r.prefix|, limits);
      if split.None? then
        var next := Emit(r, work[0], supportsImages);
        if next.Err? then next else Feed(work[1..], next.value, prefix, limits, supportsImages)
      else
        SplitShrinks(work[0], prefix, |r.prefix|, limits);
        var next := Emit(r, split.value.0, supportsImages);
        if next.Err? then next
        else Feed([split.value.1] + work[1..], next.value, prefix, limits, supportsImages)
  }

  // ----- Saved history -----

  datatype History = History(compatibility: nat, prefix: seq<Sig>, input: seq<Input>)

  /** The text bytes of saved reasoning and assistant messages. */
  function NativeLimits(input: seq<Input>, k: nat): Limits
    requires k <= |input|
  {
    if k == 0 then Limits(0, 0)
    else
      var l := NativeLimits(input, k - 1);
      match input[k - 1]
      case ReasoningItem(text) => l.(reasoning := l.reasoning + Bytes(Spelled(text), |text|))
      case NativeReasoning(text, _) => l.(reasoning := l.reasoning + Bytes(Spelled(text), |text|))
      case MessageItem(Assistant, content) => l.(text := l.text + Bytes(Spelled(content.text), |content.text|))
      case NativeMessage(true, text, _) => l.(text := l.text + Bytes(Spelled(text), |text|))
      case _ => l
  }

  const NO_HISTORY := History(0, [], [])

  function Rendering(messages: seq<Message>, previous: History, supportsImages: bool): Result<Rendered, Failure> {
    var limits := NativeLimits(previous.input, |previous.input|);
    var out := Feed(Merged(messages, |messages|), BLANK_PAGE, previous.prefix, limits, supportsImages);
    if out.Ok? && out.value.pending != {} then Err(MissingResult) else out
  }

  // ----- The loops of renderMessages -----

  method MergeMessages(messages: seq<Message>) returns (merged: seq<Message>)
    ensures merged == Merged(messages, |messages|)
  {
    merged := [];
    for i := 0 to |messages|
      invariant merged == Merged(messages, i)
    {
      var m := messages[i];
      if |merged| > 0 && Mergeable(m) && Mergeable(merged[|merged| - 1]) {
        merged := merged[..|merged| - 1] + [Joined(merged[|merged| - 1], m)];
      } else {
        merged := merged + [m];
      }
    }
  }

  lemma {:induction false} CallsFail(r: Rendered, calls: seq<Call>, k: nat, n: nat)
    requires k <= n <= |calls| && AddCalls(r, calls, k).Err?
    ensures AddCalls(r, calls, n) == AddCalls(r, calls, k)
  {
    hide InvalidNext, Add;
    if k < n {
      CallsFail(r, calls, k, n - 1);
    }
  }

  /** The loop body after splitting. */
  method EmitMessage(before: Rendered, m: Message, supportsImages: bool) returns (r: Result<Rendered, Failure>)
    ensures r == Emit(before, m, supportsImages)
  {
    hide Merged, Feed;
    if |m.images| > 0 && (m.role != User || !supportsImages) {
      return Err(UnsupportedImages);
    }
    if before.pending != {} && m.role != ToolRole && !(m.role == Assistant && m.text == [] && |m.calls| > 0) {
      return Err(ResultsRequired);
    }
    if m.role == System {
      return Ok(before.(system := before.system + [m.text]));
    }
    var out := AddWords(before, m);
    for i := 0 to |m.calls|
      invariant AddCalls(AddWords(before, m), m.calls, i) == Ok(out)
    {
      var call := m.calls[i];
      if call.id == "" || call.name == "" || BlankArgs(call.args) || call.id in out.seen {
        CallsFail(AddWords(before, m), m.calls, i + 1, |m.calls|);
        return Err(InvalidCall);
      }
      out := out.(seen := out.seen + {call.id}, pending := out.pending + {call.id});
      out := Add(out, CallItem(call), true);
    }
    if m.result.Some? {
      r := AddResult(out, m.result.value, supportsImages);
      return;
    }
    return Ok(out);
  }

  lemma {:induction false} CallsKeepPrefix(r: Rendered, calls: seq<Call>, k: nat)
    requires k <= |calls| && AddCalls(r, calls, k).Ok?
    ensures AddCalls(r, calls, k).value.prefix == r.prefix + CallSigs(calls)[..k]
    ensures AddCalls(r, calls, k).value.system == r.system
  {
    hide InvalidNext, Signature;
    if k > 0 {
      CallsKeepPrefix(r, calls, k - 1);
      assert CallSigs(calls)[..k] == CallSigs(calls)[..k - 1] + [Signature(CallItem(calls[k - 1]))];
    }
  }

  lemma WordsSign(r: Rendered, m: Message)
    ensures r.prefix <= AddWords(r, m).prefix
    ensures Mergeable(m) ==> AddWords(r, m).prefix + CallSigs(m.calls) == r.prefix + AssistantSigs(m)
  {
    hide CallSigs, Spelled;
  }

  /** A message that may be merged adds exactly its own signatures. */
  lemma EmitSigns(r: Rendered, m: Message, supportsImages: bool)
    requires Emit(r, m, supportsImages).Ok?
    ensures r.prefix <= Emit(r, m, supportsImages).value.prefix
    ensures Mergeable(m) ==> Emit(r, m, supportsImages).value.prefix == r.prefix + AssistantSigs(m)
  {
    hide AddWords, AddCalls, AssistantSigs, Signature, CallSigs;
    if m.role != System {
      WordsSign(r, m);
      CallsKeepPrefix(AddWords(r, m), m.calls, |m.calls|);
      assert CallSigs(m.calls)[..|m.calls|] == CallSigs(m.calls);
    }
  }

  /** A piece was cut where its own signature is the saved one. */
  lemma SplitPieceBound(m: Message, prefix: seq<Sig>, offset: nat, limits: Limits)
    requires SplitFirst(m, prefix, offset, limits).Some?
    ensures var piece := SplitFirst(m, prefix, offset, limits).value.0;
      offset < |prefix| && Mergeable(piece) && AssistantSigs(piece) == [prefix[offset]]
  {
    hide BoundPrefix;
    BoundPrefixInside(m.reasoning, prefix[offset], true, limits.reasoning);
    BoundPrefixInside(m.text, prefix[offset], false, limits.text);
  }

  lemma BoundPieceStays(piece: Message, prefix: seq<Sig>, offset: nat, limits: Limits)
    requires offset < |prefix| && AssistantSigs(piece) == [prefix[offset]]
    ensures SplitNext(piece, prefix, offset, limits).None?
  {
    hide BoundPrefix, AssistantSigs;
    assert prefix[offset..offset + 1] == [prefix[offset]];
    assert Continues(piece, prefix, offset);
  }

  /** Splitting a message ahead of time renders the same. */
  lemma {:induction false} PiecesRenderTheSame(m: Message, work: seq<Message>, r: Rendered, prefix: seq<Sig>,
      limits: Limits, supportsImages: bool)
    requires Mergeable(m) && HasContent(m)
    ensures Feed([m] + work, r, prefix, limits, supportsImages)
         == Feed(Pieces(m, prefix, |r.prefix|, limits) + work, r, prefix, limits, supportsImages)
    decreases |prefix| - |r.prefix|
  {
    hide SplitFirst, Emit, HasContent, AssistantSigs, BoundPrefix;
    var offset := |r.prefix|;
    var split := SplitFirst(m, prefix, offset, limits);
    if split.Some? {
      var (piece, rest) := split.value;
      SplitPieceBound(m, prefix, offset, limits);
      SplitShrinks(m, prefix, offset, limits);
      SplitLeavesContent(m, prefix, offset, limits);
      BoundPieceStays(piece, prefix, offset, limits);
      var pieces := Pieces(m, prefix, offset, limits) + work;
      var later := Pieces(rest, prefix, offset + 1, limits);
      assert pieces[0] == piece && pieces[1..] == later + work;
      assert ([m] + work)[1..] == work;
      var next := Emit(r, piece, supportsImages);
      if next.Ok? {
        EmitSigns(r, piece, supportsImages);
        PiecesRenderTheSame(rest, work, next.value, prefix, limits, supportsImages);
      }
    }
  }

  lemma SplitNotAlone(m: Message, prefix: seq<Sig>, offset: nat, limits: Limits)
    requires offset < |prefix| && SplitFirst(m, prefix, offset, limits).Some?
    ensures AssistantSigs(m) != [prefix[offset]]
  {
    assert prefix[offset..offset + 1] == [prefix[offset]];
  }

  /** Cutting a whole message off would have been a match before the cut. */
  lemma SplitLeavesContent(m: Message, prefix: seq<Sig>, offset: nat, limits: Limits)
    requires Mergeable(m) && SplitFirst(m, prefix, offset, limits).Some?
    ensures HasContent(SplitFirst(m, prefix, offset, limits).value.1)
  {
    hide BoundPrefix;
    var (piece, rest) := SplitFirst(m, prefix, offset, limits).value;
    SplitPieceBound(m, prefix, offset, limits);
    SplitNotAlone(m, prefix, offset, limits);
    assert rest.text == m.text[|piece.text|..] && rest.reasoning == m.reasoning[|piece.reasoning|..];
    assert rest.calls == m.calls;
    assert |piece.text| == |m.text| ==> piece.text == m.text;
    assert |piece.reasoning| == |m.reasoning| ==> piece.reasoning == m.reasoning;
  }

  /** renderMessages: pieces are inserted into the list that the loop is walking. */
  method RenderMessages(messages: seq<Message>, previous: History, supportsImages: bool)
      returns (r: Result<Rendered, Failure>)
    ensures r == Rendering(messages, previous, supportsImages)
  {
    hide Merged, Pieces, Emit, SplitFirst, NativeLimits, HasContent;
    var merged := MergeMessages(messages);
    var limits := NativeLimits(previous.input, |previous.input|);
    ghost var whole := Feed(merged, BLANK_PAGE, previous.prefix, limits, supportsImages);
    var out, i := BLANK_PAGE, 0;
    assert merged[0..] == merged;
    while i < |merged|
      invariant 0 <= i <= |merged|
      invariant Feed(merged[i..], out, previous.prefix, limits, supportsImages) == whole
      decreases if |out.prefix| < |previous.prefix| then |previous.prefix| - |out.prefix| else 0, |merged| - i
    {
      var m := merged[i];
      ghost var work := merged[i + 1..];
      assert merged[i..] == [m] + work;
      var pieces := [];
      if Mergeable(m) {
        pieces := BoundAssistantPieces(m, previous.prefix, |out.prefix|, limits);
        PiecesKeepWhole(m, previous.prefix, |out.prefix|, limits);
        if |pieces| > 1 {
          PiecesRenderTheSame(m, work, out, previous.prefix, limits, supportsImages);
          merged := merged[..i + 1] + pieces[1..] + merged[i + 1..];
          m := pieces[0];
          assert pieces + work == [m] + merged[i + 1..];
        }
      }
      assert SplitNext(m, previous.prefix, |out.prefix|, limits).None?;
      assert ([m] + merged[i + 1..])[1..] == merged[i + 1..];
      var next := EmitMessage(out, m, supportsImages);
      if next.Err? {
        return next;
      }
      EmitSigns(out, m, supportsImages);
      out := next.value;
      i := i + 1;
    }
    assert merged[i..] == [];
    if out.pending != {} {
      return Err(MissingResult);
    }
    return Ok(out);
  }

  /** Several pieces start with one that stands; one piece or none is the message unsplit. */
  lemma PiecesKeepWhole(m: Message, prefix: seq<Sig>, offset: nat, limits: Limits)
    requires Mergeable(m)
    ensures var pieces := Pieces(m, prefix, offset, limits);
      if |pieces| > 1 then
        && HasContent(m)
        && offset < |prefix|
        && Mergeable(pieces[0])
        && AssistantSigs(pieces[0]) == [prefix[offset]]
        && SplitNext(pieces[0], prefix, offset, limits).None?
      else SplitNext(m, prefix, offset, limits).None?
  {
    hide SplitFirst, HasContent, AssistantSigs;
    if SplitFirst(m, prefix, offset, limits).Some? {
      var (piece, rest) := SplitFirst(m, prefix, offset, limits).value;
      SplitPieceBound(m, prefix, offset, limits);
      SplitLeavesContent(m, prefix, offset, limits);
      SplitShrinks(m, prefix, offset, limits);
      BoundPieceStays(piece, prefix, offset, limits);
      SplitNeedsContent(m, prefix, offset, limits);
      assert |Pieces(rest, prefix, offset + 1, limits)| > 0;
    }
  }

  lemma SplitNeedsContent(m: Message, prefix: seq<Sig>, offset: nat, limits: Limits)
    requires SplitFirst(m, prefix, offset, limits).Some?
    ensures HasContent(m)
  {
  }

  /** The history splice of render: a saved prefix must bind the rendered one exactly. */
  function Spliced(messages: seq<Message>, previous: Option<History>, compatibility: nat, supportsImages: bool)
      : Result<History, Failure>
  {
    var saved := if previous.Some? then previous.value else NO_HISTORY;
    var out := Rendering(messages, saved, supportsImages);
    if out.Err? then Err(out.error)
    else if previous.None? then Ok(History(compatibility, out.value.prefix, out.value.input))
    else if saved.compatibility != compatibility || !(saved.prefix <= out.value.prefix) || saved.input == [] then
      Err(HistoryMismatch)
    else
      var end :=
        if saved.prefix != [] && |saved.prefix| <= |out.value.ends| then out.value.ends[|saved.prefix| - 1] else 0;
      var rest := if end <= |out.value.input| then out.value.input[end..] else [];
      Ok(History(compatibility, out.value.prefix, saved.input + rest))
  }

  /** What a completed response adds: the answer's signatures and its native items. */
  function Saved(h: History, text: Runes, reasoning: Runes, calls: seq<Call>, output: seq<Input>): History {
    var sigs := AssistantSigs(Message(Assistant, text, reasoning, calls, None, []));
    h.(prefix := h.prefix + sigs, input := h.input + output)
  }
}
