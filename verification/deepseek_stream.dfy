/** Reading one streamed response: deltas are passed on as they arrive, and the terminal
    response is reconciled with them before any of its own events are passed on. */
module DeepSeekStream {
  import opened Wrappers
  import opened DeepSeekHistory

  datatype Kind = Spoken | Thought

  /** Where a piece of output stands; the source formats it into one unambiguous key. */
  datatype Place = Place(item: string, output: int, content: int)

  datatype Key = Key(place: Place, kind: Kind)

  // ----- Decoded provider events -----

  datatype Status = Completed | Incomplete | OtherStatus

  datatype Tokens = Tokens(input: int, output: int, cached: int, reasoning: int)

  /** Usage as the caller reports it: each token once, and their total. */
  datatype Usage = Usage(input: int, cached: int, output: int, reasoning: int, total: int)

  datatype Source = Source(url: string, title: string, snippet: string)

  /** What a hosted search was asked; a member that is not given is blank. */
  datatype Action = Action(kind: string, query: string, url: string, pattern: string,
                           queries: Option<seq<string>>, sources: Option<seq<Source>>)

  const BLANK_ACTION := Action("", "", "", "", None, None)

  datatype SearchError = SearchError(code: string, message: string)

  /** A part without text is one of an unsupported type. */
  datatype OutBody =
    | Words(kind: Kind, parts: seq<Option<Runes>>)
    | FunctionCall(callID: string, name: string, args: Args)
    | Search(status: string, action: Action, error: Option<SearchError>)
    | Unsupported

  /** A terminal output item with the native JSON that is saved for replay. */
  datatype OutItem = OutItem(id: string, body: OutBody, native: Input)

  datatype Response = Response(id: string, status: Status, failed: bool, output: seq<OutItem>,
                               usage: Option<Tokens>, reason: string)

  datatype Body =
    | Delta(kind: Kind, text: Runes)
    | CallAdded(id: string, callID: string, name: string, args: Args)
    | ArgsDelta(text: Runes)
    | CallDone(id: string, callID: string, name: string, args: Args)
    | SearchAdded(id: string, action: Action)
    | SearchUnderWay
    | SearchDone(id: string, status: string, action: Action, error: Option<SearchError>)
    | Terminal(truncated: bool, response: Response)
    | Failed
    | Undecodable
    | Ignored(id: string)

  datatype Incoming = Incoming(itemID: string, outputIndex: Option<int>, contentIndex: int, body: Body)

  // ----- What the caller receives -----

  datatype Fault =
    | BadJson | BadPosition | PositionConflict | BadCallStart | ArgsWithoutCall | BadCall | CallChanged | ProviderFailed
    | BadTerminal | DuplicateItem | ItemMoved | UnsupportedPart | PartDisagrees | IdentityOmitted | DuplicateCall
    | BadSearch
    | UnsupportedItem | CallOmitted | PartOmitted | MixedChannels | OutputDisagrees | BadUsage | BadReason | NoTerminal

  /** Results with an address, and whether the provider gave any list at all. */
  datatype SearchResult = SearchResult(given: bool, results: seq<Source>, error: Option<SearchError>)

  datatype Event =
    | Said(kind: Kind, text: Runes, place: Option<Place>)
    | CallStart(place: Option<Place>, id: string, name: string)
    | CallDelta(place: Option<Place>, text: Runes, id: string, name: string)
    | CallEnd(place: Option<Place>, id: string, name: string)
    | SearchStart(place: Option<Place>, id: string, action: Action)
    | SearchEnd(place: Option<Place>, id: string, action: Action, status: string, result: SearchResult)
    | Used(usage: Usage)
    | ToolCalls(calls: seq<Call>)
    | Finished(truncated: bool, toolCalls: bool, responseID: string, state: Option<History>)
    | Error(fault: Fault)

  // ----- The reader's locals -----

  datatype Reader = Reader(sent: seq<Event>, spoken: Runes, thought: Runes, native: set<Kind>, anonymous: set<Kind>,
                           streamed: map<Key, Runes>, places: map<string, int>, positions: map<int, string>,
                           calls: map<string, Call>, ended: set<string>,
                           searches: map<string, Action>, searched: set<string>)

  const NEW_READER := Reader([], [], [], {}, {}, map[], map[], map[], map[], {}, map[], {})

  datatype Step = More(reader: Reader) | Stop(sent: seq<Event>)

  function Fail(r: Reader, fault: Fault): Step { Stop(r.sent + [Error(fault)]) }

  function Send(r: Reader, e: Event): Reader { r.(sent := r.sent + [e]) }

  function StreamedAs(r: Reader, key: Key): Runes {
    if key in r.streamed then r.streamed[key] else []
  }

  function WithDelta(r: Reader, kind: Kind, text: Runes): Reader {
    if kind.Spoken? then r.(spoken := r.spoken + text) else r.(thought := r.thought + text)
  }

  function SendText(r: Reader, kind: Kind, text: Runes, place: Option<Place>): Reader {
    if text == [] then r
    else
      var s := Send(r, Said(kind, text, place));
      if place.None? then s.(anonymous := s.anonymous + {kind})
      else
        var key := Key(place.value, kind);
        s.(streamed := s.streamed[key := StreamedAs(r, key) + text], native := s.native + {kind})
  }

  function PlaceFor(places: map<string, int>, id: string): Option<Place> {
    if id in places then Some(Place(id, places[id], 0)) else None
  }

  function NamedItem(e: Incoming): string {
    if e.itemID != "" then e.itemID
    else
      match e.body
      case CallAdded(id, _, _, _) => id
      case CallDone(id, _, _, _) => id
      case SearchAdded(id, _) => id
      case SearchDone(id, _, _, _) => id
      case Ignored(id) => id
      case _ => ""
  }

  /** Registers the event's position and finds the place it belongs to. */
  function Locate(r: Reader, e: Incoming): Result<(Reader, Option<Place>), Fault> {
    var id := NamedItem(e);
    if id == "" then Ok((r, None))
    else if e.outputIndex.None? then
      Ok((r, if id in r.places then Some(Place(id, r.places[id], e.contentIndex)) else None))
    else
      var index := e.outputIndex.value;
      if index < 0 || e.contentIndex < 0 || (id in r.places && r.places[id] != index) then Err(BadPosition)
      else if index in r.positions && r.positions[index] != id then Err(PositionConflict)
      else
        var entered := r.(positions := r.positions[index := id], places := r.places[id := index]);
        Ok((entered, Some(Place(id, index, e.contentIndex))))
  }

  /** The calls so far and the events that finishing one call adds. */
  datatype Calls = Calls(open: map<string, Call>, ended: set<string>, events: seq<Event>)

  /** A call is announced when it is new, and ended once. */
  function FinishEvents(c: Calls, place: Option<Place>, id: string, callID: string, name: string): seq<Event> {
    if id !in c.open && id !in c.ended then [CallStart(place, callID, name), CallEnd(place, callID, name)]
    else if id !in c.open then [CallStart(place, callID, name)]
    else if id !in c.ended then [CallEnd(place, callID, name)]
    else []
  }

  function FinishCall(c: Calls, places: map<string, int>, id: string, callID: string, name: string, args: Args)
      : Result<Calls, Fault>
  {
    if id == "" || callID == "" || name == "" || BlankArgs(args) then Err(BadCall)
    else if id in c.open && (c.open[id].id != callID || c.open[id].name != name) then Err(CallChanged)
    else
      Ok(Calls(c.open[id := Call(callID, name, args)], c.ended + {id},
               c.events + FinishEvents(c, PlaceFor(places, id), id, callID, name)))
  }

  // ----- Hosted searches -----

  /** The searches so far, by item ID, those that have finished, and the events. */
  datatype Searches = Searches(known: map<string, Action>, done: set<string>, events: seq<Event>)

  function KnownAction(s: Searches, id: string): Action { if id in s.known then s.known[id] else BLANK_ACTION }

  /** Later members win, and what is not given again is kept. */
  function Filled(action: Action, before: Action): Action {
    Action(if action.kind != "" then action.kind else before.kind,
           if action.query != "" then action.query else before.query,
           if action.url != "" then action.url else before.url,
           if action.pattern != "" then action.pattern else before.pattern,
           if action.queries.Some? then action.queries else before.queries,
           if action.sources.Some? then action.sources else before.sources)
  }

  /** A search is announced when it is first heard of. */
  function NoteSearch(s: Searches, places: map<string, int>, id: string, action: Action): Searches {
    var full := Filled(action, KnownAction(s, id));
    Searches(s.known[id := full], s.done,
             s.events + if id in s.known then [] else [SearchStart(PlaceFor(places, id), id, full)])
  }

  const SEARCH_FAILED := SearchError("search_failed", "Web search failed")

  function Addressed(sources: seq<Source>): seq<Source> {
    if sources == [] then []
    else
      var last := sources[|sources| - 1];
      Addressed(sources[..|sources| - 1]) + if last.url != "" then [last] else []
  }

  function ResultOf(action: Action, status: string, error: Option<SearchError>): SearchResult {
    SearchResult(action.sources.Some?,
                 if action.sources.Some? then Addressed(action.sources.value) else [],
                 if error.Some? then error
                 else if status == "failed" || status == "incomplete" then Some(SEARCH_FAILED)
                 else None)
  }

  /** Its result is passed on once. */
  function FinishSearch(s: Searches, places: map<string, int>, id: string, status: string, action: Action,
      error: Option<SearchError>): Searches
  {
    var t := NoteSearch(s, places, id, action);
    if id in t.done then t
    else
      var end := SearchEnd(PlaceFor(places, id), id, t.known[id], status, ResultOf(t.known[id], status, error));
      Searches(t.known, t.done + {id}, t.events + [end])
  }

  /** What one event of the stream says of a search. */
  function Searching(s: Searches, places: map<string, int>, e: Incoming): Searches {
    match e.body
    case SearchAdded(id, action) => NoteSearch(s, places, id, action)
    case SearchUnderWay => NoteSearch(s, places, e.itemID, BLANK_ACTION)
    case SearchDone(id, status, action, error) => FinishSearch(s, places, id, status, action, error)
    case _ => s
  }

  function WithSearches(r: Reader, s: Searches): Reader {
    r.(searches := s.known, searched := s.done, sent := s.events)
  }

  function SearchesOf(r: Reader): Searches { Searches(r.searches, r.searched, r.sent) }

  // ----- Reconciling the terminal response -----

  datatype Final = Final(queue: seq<Event>, places: map<string, int>, items: set<string>, parts: set<Key>,
                         spoken: Runes, thought: Runes, open: map<string, Call>, ended: set<string>,
                         calls: seq<Call>, callIDs: set<string>,
                         searches: map<string, Action>, searched: set<string>)

  function FinalText(f: Final, kind: Kind): Runes { if kind.Spoken? then f.spoken else f.thought }

  function Streamed(r: Reader, kind: Kind): Runes { if kind.Spoken? then r.spoken else r.thought }

  function OnePart(r: Reader, f: Final, kind: Kind, place: Place, part: Option<Runes>): Result<Final, Fault> {
    if part.None? then Err(UnsupportedPart)
    else
      var text := part.value;
      var g := if kind.Spoken? then f.(spoken := f.spoken + text) else f.(thought := f.thought + text);
      var key := Key(place, kind);
      var prior := StreamedAs(r, key);
      if place.item != "" then
        if !(prior <= text) then Err(PartDisagrees)
        else
          var rest := text[|prior|..];
          Ok(g.(parts := g.parts + {key},
                queue := g.queue + if kind !in r.anonymous && rest != [] then [Said(kind, rest, Some(place))] else []))
      else if kind in r.native then Err(IdentityOmitted)
      else Ok(g.(queue := g.queue + if kind !in r.anonymous && text != [] then [Said(kind, text, None)] else []))
  }

  function ItemParts(r: Reader, f: Final, item: OutItem, index: nat, n: nat): Result<Final, Fault>
    requires item.body.Words? && n <= |item.body.parts|
  {
    if n == 0 then Ok(f)
    else
      var before := ItemParts(r, f, item, index, n - 1);
      if before.Err? then before
      else OnePart(r, before.value, item.body.kind, Place(item.id, index, n - 1), item.body.parts[n - 1])
  }

  /** A terminal item may appear once, and where its deltas were. */
  function Enter(f: Final, item: OutItem, index: nat): Result<Final, Fault> {
    if item.id == "" then Ok(f)
    else if item.id in f.items then Err(DuplicateItem)
    else if item.id in f.places && f.places[item.id] != index then Err(ItemMoved)
    else Ok(f.(items := f.items + {item.id}, places := f.places[item.id := index]))
  }

  function OneCall(f: Final, item: OutItem): Result<Final, Fault>
    requires item.body.FunctionCall?
  {
    var b := item.body;
    var done := FinishCall(Calls(f.open, f.ended, f.queue), f.places, item.id, b.callID, b.name, b.args);
    if done.Err? then Err(done.error)
    else if b.callID in f.callIDs then Err(DuplicateCall)
    else
      Ok(f.(open := done.value.open, ended := done.value.ended, queue := done.value.events,
            callIDs := f.callIDs + {b.callID}, calls := f.calls + [Call(b.callID, b.name, b.args)]))
  }

  function OneSearch(f: Final, item: OutItem): Result<Final, Fault>
    requires item.body.Search?
  {
    var b := item.body;
    if item.id == "" || b.status == "" then Err(BadSearch)
    else
      var s := FinishSearch(Searches(f.searches, f.searched, f.queue), f.places, item.id, b.status, b.action, b.error);
      Ok(f.(searches := s.known, searched := s.done, queue := s.events))
  }

  function OneItem(r: Reader, f: Final, status: Status, item: OutItem, index: nat): Result<Final, Fault> {
    var entered := Enter(f, item, index);
    if entered.Err? then entered
    else
      match item.body
      case Words(_, parts) => ItemParts(r, entered.value, item, index, |parts|)
      case FunctionCall(_, _, _) => if status.Incomplete? then entered else OneCall(entered.value, item)
      case Search(_, _, _) => OneSearch(entered.value, item)
      case Unsupported => Err(UnsupportedItem)
  }

  function StartFinal(r: Reader): Final {
    Final([], r.places, {}, {}, [], [], r.calls, r.ended, [], {}, r.searches, r.searched)
  }

  function Items(r: Reader, response: Response, n: nat): Result<Final, Fault>
    requires n <= |response.output|
  {
    if n == 0 then Ok(StartFinal(r))
    else
      var before := Items(r, response, n - 1);
      if before.Err? then before else OneItem(r, before.value, response.status, response.output[n - 1], n - 1)
  }

  /** An anonymous channel has one text for the whole response. */
  function Channel(r: Reader, f: Final, kind: Kind): Result<Final, Fault> {
    if kind !in r.anonymous then Ok(f)
    else if kind in r.native then Err(MixedChannels)
    else if !(Streamed(r, kind) <= FinalText(f, kind)) then Err(OutputDisagrees)
    else
      var rest := FinalText(f, kind)[|Streamed(r, kind)|..];
      Ok(f.(queue := f.queue + if rest != [] then [Said(kind, rest, None)] else []))
  }

  predicate OmitsCall(f: Final) {
    exists id :: id in f.open && f.open[id].id !in f.callIDs
  }

  predicate OmitsPart(r: Reader, f: Final) {
    exists key :: key in r.streamed && key !in f.parts
  }

  /** Everything that must hold before any terminal event is passed on. */
  function Reconcile(r: Reader, response: Response): Result<Final, Fault> {
    var items := Items(r, response, |response.output|);
    if items.Err? then items
    else if response.status.Completed? && OmitsCall(items.value) then Err(CallOmitted)
    else if OmitsPart(r, items.value) then Err(PartOmitted)
    else
      var thought := Channel(r, items.value, Thought);
      if thought.Err? then thought else Channel(r, thought.value, Spoken)
  }

  function UsageOf(u: Tokens): Usage {
    Usage(u.input - u.cached, u.cached, u.output - u.reasoning, u.reasoning, u.input + u.output)
  }

  predicate BadTokens(u: Tokens) {
    u.input < 0 || u.output < 0 || u.cached < 0 || u.cached > u.input || u.reasoning < 0 || u.reasoning > u.output
  }

  /** The native items that are saved, as JSON values: an incomplete response saves no calls. */
  function SavedOutput(response: Response, n: nat): seq<Input>
    requires n <= |response.output|
  {
    if n == 0 then []
    else
      var item := response.output[n - 1];
      var kept := if response.status.Incomplete? && item.body.FunctionCall? then [] else [item.native];
      SavedOutput(response, n - 1) + kept
  }

  function Ending(response: Response, f: Final, history: History, stateAllowed: bool): Event {
    var state := Saved(history, f.spoken, f.thought, f.calls, SavedOutput(response, |response.output|));
    Finished(response.status.Incomplete?, f.calls != [], response.id, if stateAllowed then Some(state) else None)
  }

  function Terminate(r: Reader, truncated: bool, response: Response, history: History, stateAllowed: bool): (step: Step)
    ensures step.Stop?
  {
    if response.id == "" || response.status != (if truncated then Incomplete else Completed) || response.failed then
      Fail(r, BadTerminal)
    else
      var f := Reconcile(r, response);
      if f.Err? then Fail(r, f.error)
      else if response.usage.Some? && BadTokens(response.usage.value) then Fail(r, BadUsage)
      else if response.status.Incomplete? && response.reason != "max_output_tokens" then Fail(r, BadReason)
      else
        var usage := if response.usage.Some? then [Used(UsageOf(response.usage.value))] else [];
        var calls := if f.value.calls != [] then [ToolCalls(f.value.calls)] else [];
        Stop(r.sent + f.value.queue + usage + calls + [Ending(response, f.value, history, stateAllowed)])
  }

  // ----- The stream -----

  function Receive(r: Reader, e: Incoming, history: History, stateAllowed: bool): Step {
    var located := Locate(r, e);
    if e.body.Undecodable? then Fail(r, BadJson)
    else if located.Err? then Fail(r, located.error)
    else
      var (s, place) := located.value;
      match e.body
      case Delta(kind, text) =>
        More(SendText(WithDelta(s, kind, text), kind, text, place))
      case CallAdded(id, callID, name, args) =>
        if id == "" || callID == "" || name == "" || id in s.calls then Fail(s, BadCallStart)
        else More(Send(s.(calls := s.calls[id := Call(callID, name, args)]), CallStart(place, callID, name)))
      case ArgsDelta(text) =>
        if e.itemID !in s.calls then Fail(s, ArgsWithoutCall)
        else More(Send(s, CallDelta(place, text, s.calls[e.itemID].id, s.calls[e.itemID].name)))
      case CallDone(id, callID, name, args) =>
        var done := FinishCall(Calls(s.calls, s.ended, s.sent), s.places, id, callID, name, args);
        if done.Err? then Fail(s, done.error)
        else More(s.(calls := done.value.open, ended := done.value.ended, sent := done.value.events))
      case SearchAdded(_, _) => More(WithSearches(s, Searching(SearchesOf(s), s.places, e)))
      case SearchUnderWay => More(WithSearches(s, Searching(SearchesOf(s), s.places, e)))
      case SearchDone(_, _, _, _) => More(WithSearches(s, Searching(SearchesOf(s), s.places, e)))
      case Terminal(truncated, response) => Terminate(s, truncated, response, history, stateAllowed)
      case Failed => Fail(s, ProviderFailed)
      case _ => More(s)
  }

  /** Everything the caller receives. */
  function Heed(r: Reader, events: seq<Incoming>, k: nat, history: History, stateAllowed: bool): seq<Event>
    requires k <= |events|
    decreases |events| - k
  {
    if k == |events| then r.sent + [Error(NoTerminal)]
    else
      var step := Receive(r, events[k], history, stateAllowed);
      if step.Stop? then step.sent else Heed(step.reader, events, k + 1, history, stateAllowed)
  }

  // ----- The loops -----

  method ReconcileItems(r: Reader, response: Response) returns (result: Result<Final, Fault>)
    ensures result == Items(r, response, |response.output|)
  {
    hide OnePart, OneCall, OneSearch, Enter;
    var f := StartFinal(r);
    for index := 0 to |response.output|
      invariant Items(r, response, index) == Ok(f)
    {
      var item := response.output[index];
      var entered := Enter(f, item, index);
      ghost var outcome := OneItem(r, f, response.status, item, index);
      if entered.Err? {
        ItemsFail(r, response, index + 1, |response.output|);
        return entered;
      }
      f := entered.value;
      match item.body {
        case Words(kind, parts) =>
          ghost var start := f;
          for n := 0 to |parts|
            invariant ItemParts(r, start, item, index, n) == Ok(f)
          {
            var next := OnePart(r, f, kind, Place(item.id, index, n), parts[n]);
            if next.Err? {
              PartsFail(r, start, item, index, n + 1, |parts|);
              ItemsFail(r, response, index + 1, |response.output|);
              return next;
            }
            f := next.value;
          }
        case FunctionCall(_, _, _) =>
          if !response.status.Incomplete? {
            var next := OneCall(f, item);
            if next.Err? {
              ItemsFail(r, response, index + 1, |response.output|);
              return next;
            }
            f := next.value;
          }
        case Search(_, _, _) =>
          var next := OneSearch(f, item);
          if next.Err? {
            ItemsFail(r, response, index + 1, |response.output|);
            return next;
          }
          f := next.value;
        case Unsupported =>
          ItemsFail(r, response, index + 1, |response.output|);
          return Err(UnsupportedItem);
      }
      assert outcome == Ok(f);
    }
    return Ok(f);
  }

  lemma {:induction false} ItemsFail(r: Reader, response: Response, k: nat, n: nat)
    requires k <= n <= |response.output| && Items(r, response, k).Err?
    ensures Items(r, response, n) == Items(r, response, k)
  {
    hide OneItem;
    if k < n {
      ItemsFail(r, response, k, n - 1);
    }
  }

  lemma {:induction false} PartsFail(r: Reader, f: Final, item: OutItem, index: nat, k: nat, n: nat)
    requires item.body.Words? && k <= n <= |item.body.parts| && ItemParts(r, f, item, index, k).Err?
    ensures ItemParts(r, f, item, index, n) == ItemParts(r, f, item, index, k)
  {
    hide OnePart;
    if k < n {
      PartsFail(r, f, item, index, k, n - 1);
    }
  }

  /** readStream: events are handled one by one until one of them ends the stream. */
  method ReadStream(events: seq<Incoming>, history: History, stateAllowed: bool) returns (sent: seq<Event>)
    ensures sent == Heed(NEW_READER, events, 0, history, stateAllowed)
  {
    hide Receive;
    var r := NEW_READER;
    for k := 0 to |events|
      invariant Heed(r, events, k, history, stateAllowed) == Heed(NEW_READER, events, 0, history, stateAllowed)
    {
      var step := Receive(r, events[k], history, stateAllowed);
      if step.Stop? {
        return step.sent;
      }
      r := step.reader;
    }
    return r.sent + [Error(NoTerminal)];
  }
}
