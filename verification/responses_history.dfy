/** Native Responses history: records of provider output bound to a canonical
    conversation, revalidated and spliced in on the next turn. */
module ResponsesHistory {
  import opened Wrappers
  import opened JsonItems
  import opened ResponsesBinding
  import Text

  const MAX_STATE_BYTES: nat := 0x80_0000
  const MAX_INT: int := 0x7fff_ffff_ffff_ffff

  datatype Options = Options(kind: string, id: string, namespace: string)

  /** A SHA-256 fingerprint: injective on normal items. `Foreign` is any other text
      that untrusted state may hold in its place. */
  datatype Digest = Of(items: seq<Item>) | Foreign(text: string)

  function DigestLength(d: Digest): nat {
    if d.Of? then 64 else |d.text|
  }

  datatype Record = Record(start: int, prefix: Digest, visible: seq<Item>, output: seq<Item>)

  datatype Policy = ExactSurface | CanonicalHistory | OtherPolicy

  /** The JSON text of the native_output attribute: its length and what decoding yields. */
  datatype Document = Document(bytes: nat, records: Option<seq<Record>>, trailing: bool)

  datatype State = State(kind: string, id: string, policy: Policy,
                         native: Option<Document>, responseID: Option<string>, otherAttributes: set<string>)

  datatype History = History(options: Options, canonical: seq<Item>, records: seq<Record>,
                             input: seq<Item>, responseID: string, continuationStart: int)

  datatype Code =
    | MissingIdentity | IncompatibleIdentity | UnsupportedPolicy | UnsupportedAttribute
    | StateLimit | InvalidRecords | TrailingData | InvalidResponseID
    | InvalidRecord | InvalidBoundary | VisibleMismatch | MissingOutput
    | InvalidItem | InvalidOutput | UnexpectedNamespace | UnsupportedOutput

  datatype Error =
    | Rejected(code: Code)
    | Mismatch(recordIndex: nat, canonicalIndex: nat, expectedItems: nat, availableItems: nat)

  predicate ValidResponseID(id: string) {
    !Text.Blank(id) && |id| <= 512 && '\r' !in id && '\n' !in id
  }

  // ----- Output validation -----

  function OutputProblem(item: Item, namespace: string): Option<Code> {
    if item.Malformed? then Some(InvalidOutput)
    else
      var fields := if item.Object? then item.fields else map[];
      var kind, space := StringMember(fields, "type"), StringMember(fields, "namespace");
      if kind.None? || space.None? then Some(InvalidOutput)
      else if kind.value in {"reasoning", "message", "web_search_call"} then None
      else if kind.value == "function_call" then
        if space.value != namespace then Some(UnexpectedNamespace) else None
      else Some(UnsupportedOutput)
  }

  predicate ValidOutput(items: seq<Item>, namespace: string) {
    forall i :: 0 <= i < |items| ==> OutputProblem(items[i], namespace).None?
  }

  /** The first problem, in item order. */
  function FirstProblem(items: seq<Item>, namespace: string): (r: Option<Code>)
    ensures r.None? <==> ValidOutput(items, namespace)
  {
    if items == [] then None
    else
      var p := OutputProblem(items[0], namespace);
      if p.Some? then p else FirstProblem(items[1..], namespace)
  }

  method ValidateOutput(items: seq<Item>, namespace: string) returns (r: Option<Code>)
    ensures r == FirstProblem(items, namespace)
  {
    for i := 0 to |items|
      invariant FirstProblem(items, namespace) == FirstProblem(items[i..], namespace)
    {
      r := OutputProblem(items[i], namespace);
      if r.Some? {
        return;
      }
    }
    r := None;
  }

  // ----- Replaying the saved records -----

  /** The loop state: how far the canonical items are consumed, in today's and in the
      saved coordinates; the saved-coordinate prefix; the input and records so far. */
  datatype Replay = Replay(cursor: nat, originalCursor: int, originalPrefix: seq<Item>,
                           input: seq<Item>, kept: seq<Record>, pruned: bool, previousEnd: int)

  const START := Replay(0, 0, [], [], [], false, 0)

  predicate InBounds(canonical: seq<Item>, s: Replay) {
    && s.cursor <= |canonical|
    && s.originalCursor <= s.previousEnd
    && (!s.pruned ==> s.originalCursor == s.previousEnd)
  }

  function CheckRecord(namespace: string, previousEnd: int, r: Record): Option<Code> {
    if r.start < previousEnd || r.start < 0 || DigestLength(r.prefix) != 64 || r.output == [] then Some(InvalidRecord)
    else if r.start > MAX_INT - |r.visible| then Some(InvalidBoundary)
    else if FirstProblem(r.output, namespace).Some? then FirstProblem(r.output, namespace)
    else if !AllObjects(r.visible) then Some(InvalidItem)
    else None
  }

  function ReplayOne(canonical: seq<Item>, namespace: string, index: nat, s: Replay, r: Record)
      : (out: Result<Replay, Error>)
    requires InBounds(canonical, s)
    ensures out.Ok? ==> InBounds(canonical, out.value)
  {
    var problem := CheckRecord(namespace, s.previousEnd, r);
    if problem.Some? then Err(Rejected(problem.value))
    else
      var visible := NormalAll(r.visible);
      var t := s.(previousEnd := r.start + |r.visible|);
      var start := r.start - s.originalCursor + s.cursor;
      if s.pruned || start > |canonical| then Ok(t.(pruned := true))
      else
        var gap := canonical[s.cursor..start];
        if Of(s.originalPrefix + gap) != r.prefix then
          Ok(t.(originalPrefix := s.originalPrefix + gap, pruned := true))
        else
          var matched := MatchVisible(canonical[start..], visible, r.output);
          if matched.None? then Err(Mismatch(index, start, |visible|, |canonical| - start))
          else
            Ok(Replay(start + |matched.value|, r.start + |visible|,
                      s.originalPrefix + gap + visible,
                      s.input + gap + r.output,
                      s.kept + [Record(start, Of(canonical[..start]), matched.value, r.output)],
                      false, t.previousEnd))
  }

  /** The first `k` records, in order; the first error ends it. */
  function ReplayAll(canonical: seq<Item>, namespace: string, records: seq<Record>, k: nat)
      : (out: Result<Replay, Error>)
    requires k <= |records|
    ensures out.Ok? ==> InBounds(canonical, out.value)
  {
    if k == 0 then Ok(START)
    else
      var before := ReplayAll(canonical, namespace, records, k - 1);
      if before.Err? then before else ReplayOne(canonical, namespace, k - 1, before.value, records[k - 1])
  }

  function CheckState(options: Options, previous: State): (r: Option<Code>)
    ensures r.None? ==> previous.native.Some? && previous.native.value.records.Some?
  {
    if previous.kind != options.kind || previous.id != options.id then Some(IncompatibleIdentity)
    else if previous.policy.OtherPolicy? then Some(UnsupportedPolicy)
    else if previous.otherAttributes != {} then Some(UnsupportedAttribute)
    else if previous.native.None? then Some(InvalidRecords)
    else if previous.native.value.bytes > MAX_STATE_BYTES then Some(StateLimit)
    else if previous.native.value.records.None? then Some(InvalidRecords)
    else if previous.native.value.trailing then Some(TrailingData)
    else if previous.responseID.Some? && !ValidResponseID(previous.responseID.value) then Some(InvalidResponseID)
    else None
  }

  function SavedRecords(previous: Option<State>): seq<Record> {
    if previous.Some? && previous.value.native.Some? && previous.value.native.value.records.Some?
    then previous.value.native.value.records.value else []
  }

  function SavedID(previous: Option<State>): string {
    if previous.Some? && previous.value.responseID.Some? then previous.value.responseID.value else ""
  }

  function Prepared(options: Options, canonical: seq<Item>, previous: Option<State>): Result<History, Error> {
    if Text.Blank(options.kind) || Text.Blank(options.id) then Err(Rejected(MissingIdentity))
    else if !AllObjects(canonical) then Err(Rejected(InvalidItem))
    else if previous.Some? && CheckState(options, previous.value).Some? then
      Err(Rejected(CheckState(options, previous.value).value))
    else
      var c, records := NormalAll(canonical), SavedRecords(previous);
      var run := ReplayAll(c, options.namespace, records, |records|);
      if run.Err? then Err(run.error) else Ok(Finish(options, c, records, SavedID(previous), run.value))
  }

  /** A dropped record, or none saved, ends the server-side continuation. */
  function Finish(options: Options, c: seq<Item>, records: seq<Record>, savedID: string, s: Replay): History
    requires InBounds(c, s)
  {
    var id := if s.pruned || records == [] then "" else savedID;
    History(options, c, s.kept, s.input + c[s.cursor..], id, if id != "" then s.cursor else -1)
  }

  method PrepareResponsesHistory(options: Options, canonical: seq<Item>, previous: Option<State>)
    returns (r: Result<History, Error>)
    ensures r == Prepared(options, canonical, previous)
  {
    if Text.Blank(options.kind) || Text.Blank(options.id) {
      return Err(Rejected(MissingIdentity));
    }
    var normalized := Normalize(canonical);
    if normalized.None? {
      return Err(Rejected(InvalidItem));
    }
    var c := normalized.value;
    var records, responseID := [], "";
    if previous.Some? {
      var problem := CheckState(options, previous.value);
      if problem.Some? {
        return Err(Rejected(problem.value));
      }
      records := previous.value.native.value.records.value;
      if previous.value.responseID.Some? {
        responseID := previous.value.responseID.value;
      }
    }
    var run := ReplayRecords(c, options.namespace, records);
    if run.Err? {
      return Err(run.error);
    }
    return Ok(Finish(options, c, records, responseID, run.value));
  }

  method ReplayRecords(c: seq<Item>, namespace: string, records: seq<Record>) returns (r: Result<Replay, Error>)
    ensures r == ReplayAll(c, namespace, records, |records|)
    ensures r.Ok? ==> InBounds(c, r.value)
  {
    hide ReplayOne;
    var s := START;
    for i := 0 to |records|
      invariant InBounds(c, s)
      invariant ReplayAll(c, namespace, records, i) == Ok(s)
    {
      var next := ReplayRecord(c, namespace, i, s, records[i]);
      if next.Err? {
        ErrorStays(c, namespace, records, i + 1, |records|);
        return next;
      }
      s := next.value;
    }
    return Ok(s);
  }

  /** The body of the record loop. */
  method ReplayRecord(c: seq<Item>, namespace: string, index: nat, s: Replay, record: Record)
      returns (r: Result<Replay, Error>)
    requires InBounds(c, s)
    ensures r == ReplayOne(c, namespace, index, s, record)
  {
    hide NormalAll, MatchVisible, FirstProblem, AllObjects, ValidOutput;
    if record.start < s.previousEnd || record.start < 0 || DigestLength(record.prefix) != 64 || |record.output| == 0 {
      return Err(Rejected(InvalidRecord));
    }
    // Bound arithmetic independently of untrusted integer values.
    if record.start > MAX_INT - |record.visible| {
      return Err(Rejected(InvalidBoundary));
    }
    var previousEnd := record.start + |record.visible|;
    var problem := ValidateOutput(record.output, namespace);
    if problem.Some? {
      return Err(Rejected(problem.value));
    }
    var visible := Normalize(record.visible);
    if visible.None? {
      return Err(Rejected(InvalidItem));
    }
    var start := record.start - s.originalCursor + s.cursor;
    if s.pruned || start > |c| {
      return Ok(s.(pruned := true, previousEnd := previousEnd));
    }
    var originalPrefix := s.originalPrefix + c[s.cursor..start];
    if Of(originalPrefix) != record.prefix {
      return Ok(s.(originalPrefix := originalPrefix, pruned := true, previousEnd := previousEnd));
    }
    var matched := FindVisible(c[start..], visible.value, record.output);
    if matched.None? {
      return Err(Mismatch(index, start, |visible.value|, |c| - start));
    }
    var rebased := Record(start, Of(c[..start]), matched.value, record.output);
    return Ok(Replay(start + |matched.value|, record.start + |visible.value|, originalPrefix + visible.value,
                     s.input + c[s.cursor..start] + record.output, s.kept + [rebased], false, previousEnd));
  }

  lemma {:induction false} ErrorStays(canonical: seq<Item>, namespace: string, records: seq<Record>, k: nat, n: nat)
    requires k <= n <= |records| && ReplayAll(canonical, namespace, records, k).Err?
    ensures ReplayAll(canonical, namespace, records, n) == ReplayAll(canonical, namespace, records, k)
  {
    hide ReplayOne;
    if k < n {
      ErrorStays(canonical, namespace, records, k, n - 1);
    }
  }

  function Continuation(h: History): Option<(string, seq<Item>)>
    requires h.continuationStart <= |h.canonical|
  {
    if h.responseID == "" || h.continuationStart < 0 then None
    else Some((h.responseID, h.canonical[h.continuationStart..]))
  }

  function CompactRecords(records: seq<Record>): seq<Record> {
    seq(|records|, i requires 0 <= i < |records| =>
      records[i].(visible := CompactAll(records[i].visible), output := CompactAll(records[i].output)))
  }

  /** `bytes` is the length of the JSON text that encodes the records. */
  function Commit(h: History, responseID: string, visible: seq<Item>, output: seq<Item>, bytes: nat)
      : Result<State, Error>
  {
    if responseID != "" && !ValidResponseID(responseID) then Err(Rejected(InvalidResponseID))
    else if output == [] then Err(Rejected(MissingOutput))
    else if FirstProblem(output, h.options.namespace).Some? then
      Err(Rejected(FirstProblem(output, h.options.namespace).value))
    else if !AllObjects(visible) then Err(Rejected(InvalidItem))
    else if bytes > MAX_STATE_BYTES then Err(Rejected(StateLimit))
    else
      var records := h.records + [Record(|h.canonical|, Of(h.canonical), NormalAll(visible), output)];
      Ok(State(h.options.kind, h.options.id, CanonicalHistory,
               Some(Document(bytes, Some(CompactRecords(records)), false)),
               if responseID != "" then Some(responseID) else None, {}))
  }

  /** The runtime's projection of an answer's text: one plain message. */
  function AssistantMessage(text: string): Item {
    Object(0, 0, 0, map["role" := Str(0, "assistant"), "content" := Str(0, text)])
  }

  function CallProblem(call: Item, namespace: string): Option<Code> {
    if call.Malformed? then Some(InvalidItem)
    else
      var fields := if call.Object? then call.fields else map[];
      var kind, space := StringMember(fields, "type"), StringMember(fields, "namespace");
      if kind.None? || space.None? || kind.value != "function_call" then Some(InvalidItem)
      else if space.value != namespace then Some(UnexpectedNamespace)
      else None
  }

  /** The canonical assistant turn: the trimmed text if any, then the calls in order. */
  function AssistantVisible(text: string, calls: seq<Item>): seq<Item> {
    (if Text.Trim(text) != "" then [AssistantMessage(Text.Trim(text))] else []) + calls
  }

  method CommitAssistant(h: History, responseID: string, text: string, calls: seq<Item>, output: seq<Item>, bytes: nat)
    returns (r: Result<State, Error>)
    ensures (forall i :: 0 <= i < |calls| ==> CallProblem(calls[i], h.options.namespace).None?) ==>
      r == Commit(h, responseID, AssistantVisible(text, calls), output, bytes)
    ensures (exists i :: 0 <= i < |calls| && CallProblem(calls[i], h.options.namespace).Some?) ==>
      exists i :: 0 <= i < |calls| && CallProblem(calls[i], h.options.namespace).Some? &&
        (forall j :: 0 <= j < i ==> CallProblem(calls[j], h.options.namespace).None?) &&
        r == Err(Rejected(CallProblem(calls[i], h.options.namespace).value))
  {
    hide Commit, CallProblem, AssistantMessage, Text.Trim;
    var trimmed := Text.Trim(text);
    var visible := if trimmed != "" then [AssistantMessage(trimmed)] else [];
    for i := 0 to |calls|
      invariant visible == AssistantVisible(text, calls[..i])
      invariant forall j :: 0 <= j < i ==> CallProblem(calls[j], h.options.namespace).None?
    {
      var problem := CallProblem(calls[i], h.options.namespace);
      if problem.Some? {
        return Err(Rejected(problem.value));
      }
      visible := visible + [calls[i]];
    }
    assert calls[..|calls|] == calls;
    r := Commit(h, responseID, visible, output, bytes);
  }
}
