/** Which terminal responses a stream accepts, in terms of the response and of what was
    streamed, and which fault each of the others is refused with. */
module DeepSeekTerminal {
  import opened Wrappers
  import opened DeepSeekHistory
  import opened DeepSeekStream
  import opened DeepSeekStreamLaws
  import Text

  // ----- A snapshot that agrees with what was streamed -----

  /** An item with an ID has one place, the one its deltas had. */
  predicate PlaceFits(r: Reader, output: seq<OutItem>, n: nat)
    requires n < |output|
  {
    var id := output[n].id;
    id != "" ==> (forall j :: 0 <= j < n ==> output[j].id != id) && (id in r.places ==> r.places[id] == n)
  }

  /** A part is of a known type and extends what was streamed for it; without an ID, nothing
      of its kind was streamed under an ID. */
  predicate PartFits(r: Reader, output: seq<OutItem>, n: nat, p: nat)
    requires n < |output| && output[n].body.Words? && p < |output[n].body.parts|
  {
    var id, kind, part := output[n].id, output[n].body.kind, output[n].body.parts[p];
    && part.Some?
    && (if id == "" then kind !in r.native
        else
          var key := Key(Place(id, n, p), kind);
          key in r.streamed ==> r.streamed[key] <= part.value)
  }

  /** Every identifier is there, and the arguments are more than white space. */
  predicate CallComplete(item: OutItem)
    requires item.body.FunctionCall?
  {
    var b := item.body;
    && item.id != "" && b.callID != "" && b.name != ""
    && (b.args.Plain? ==> exists i :: 0 <= i < |b.args.text| && !Text.IsSpace(b.args.text[i]))
  }

  predicate CallUnchanged(r: Reader, item: OutItem)
    requires item.body.FunctionCall?
  {
    item.id in r.calls ==> r.calls[item.id].id == item.body.callID && r.calls[item.id].name == item.body.name
  }

  predicate CallIDIsNew(output: seq<OutItem>, n: nat)
    requires n < |output| && output[n].body.FunctionCall?
  {
    forall j :: 0 <= j < n && output[j].body.FunctionCall? ==> output[j].body.callID != output[n].body.callID
  }

  predicate BodyFits(r: Reader, response: Response, n: nat)
    requires n < |response.output|
  {
    var item := response.output[n];
    match item.body
    case Words(_, parts) => forall p :: 0 <= p < |parts| ==> PartFits(r, response.output, n, p)
    case FunctionCall(_, _, _) =>
      response.status == Incomplete
      || (CallComplete(item) && CallUnchanged(r, item) && CallIDIsNew(response.output, n))
    case Search(status, _, _) => item.id != "" && status != ""
    case Unsupported => false
  }

  predicate ItemFits(r: Reader, response: Response, n: nat)
    requires n < |response.output|
  {
    PlaceFits(r, response.output, n) && BodyFits(r, response, n)
  }

  /** Some item of the response is a call with this ID. */
  predicate Names(output: seq<OutItem>, n: nat, callID: string)
    requires n <= |output|
  {
    exists j :: 0 <= j < n && output[j].body.FunctionCall? && output[j].body.callID == callID
  }

  predicate CallsNamed(r: Reader, response: Response) {
    response.status == Completed ==>
      forall id :: id in r.calls ==> Names(response.output, |response.output|, r.calls[id].id)
  }

  predicate PartsNamed(r: Reader, response: Response) {
    forall key :: key in r.streamed ==> Identified(response.output, key)
  }

  /** Deltas without a place are of one text, which the response's text of that kind extends. */
  predicate ChannelFits(r: Reader, response: Response, kind: Kind) {
    kind in r.anonymous ==>
      kind !in r.native && Streamed(r, kind) <= OutputText(response.output, |response.output|, kind)
  }

  predicate TokensFit(usage: Option<Tokens>) {
    usage.Some? ==>
      var u := usage.value;
      0 <= u.cached <= u.input && 0 <= u.reasoning <= u.output
  }

  predicate HeaderFits(truncated: bool, response: Response) {
    response.id != "" && !response.failed && response.status == if truncated then Incomplete else Completed
  }

  /** The whole condition: a header for this event, items that agree with the deltas one by
      one and leave none of them out, possible token counts, and for a truncated answer the
      one reason that is understood. */
  predicate Acceptable(r: Reader, truncated: bool, response: Response) {
    && HeaderFits(truncated, response)
    && (forall n :: 0 <= n < |response.output| ==> ItemFits(r, response, n))
    && CallsNamed(r, response) && PartsNamed(r, response)
    && ChannelFits(r, response, Thought) && ChannelFits(r, response, Spoken)
    && TokensFit(response.usage)
    && (truncated ==> response.reason == "max_output_tokens")
  }

  // ----- Faults -----

  predicate PartFault(r: Reader, output: seq<OutItem>, n: nat, p: nat, fault: Fault)
    requires n < |output| && output[n].body.Words? && p < |output[n].body.parts|
  {
    if output[n].body.parts[p].None? then fault == UnsupportedPart
    else if output[n].id == "" then fault == IdentityOmitted
    else fault == PartDisagrees
  }

  /** The first of the first `m` parts that does not fit decides. */
  predicate PartsFault(r: Reader, output: seq<OutItem>, n: nat, m: nat, fault: Fault)
    requires n < |output| && output[n].body.Words? && m <= |output[n].body.parts|
  {
    exists p :: 0 <= p < m && !PartFits(r, output, n, p) && PartFault(r, output, n, p, fault)
      && forall q :: 0 <= q < p ==> PartFits(r, output, n, q)
  }

  /** Why item `n` is refused: its ID, its place, then its body. */
  predicate ItemFault(r: Reader, response: Response, n: nat, fault: Fault)
    requires n < |response.output|
  {
    var item := response.output[n];
    if item.id != "" && exists j :: 0 <= j < n && response.output[j].id == item.id then fault == DuplicateItem
    else if item.id != "" && item.id in r.places && r.places[item.id] != n then fault == ItemMoved
    else
      match item.body
      case Words(_, parts) => PartsFault(r, response.output, n, |parts|, fault)
      case FunctionCall(_, _, _) =>
        if !CallComplete(item) then fault == BadCall
        else if !CallUnchanged(r, item) then fault == CallChanged
        else fault == DuplicateCall
      case Search(_, _, _) => fault == BadSearch
      case Unsupported => fault == UnsupportedItem
  }

  // ----- The loop over the items -----

  predicate HasID(output: seq<OutItem>, n: nat, id: string)
    requires n <= |output|
  {
    id != "" && exists j :: 0 <= j < n && output[j].id == id
  }

  /** What the loop has written down after `n` items. */
  ghost predicate Noted(r: Reader, response: Response, n: nat, f: Final)
    requires n <= |response.output|
  {
    var output := response.output;
    && (forall id :: id in f.items <==> HasID(output, n, id))
    && (forall id :: id !in f.items ==> (id in f.places <==> id in r.places))
    && (forall id :: id !in f.items && id in r.places ==> f.places[id] == r.places[id])
    && (forall id :: id !in f.items ==> (id in f.open <==> id in r.calls))
    && (forall id :: id in r.calls ==>
          id in f.open && f.open[id].id == r.calls[id].id && f.open[id].name == r.calls[id].name)
    && (forall id :: id in f.open && id !in r.calls ==> f.open[id].id in f.callIDs)
    && (forall callID :: callID in f.callIDs <==> response.status != Incomplete && Names(output, n, callID))
  }

  lemma PartOutcome(r: Reader, f: Final, output: seq<OutItem>, n: nat, p: nat)
    requires n < |output| && output[n].body.Words? && p < |output[n].body.parts|
    ensures var out := OnePart(r, f, output[n].body.kind, Place(output[n].id, n, p), output[n].body.parts[p]);
      if PartFits(r, output, n, p) then out.Ok? && SameBooks(f, out.value)
      else out.Err? && PartFault(r, output, n, p, out.error)
  {
  }

  predicate SameBooks(f: Final, g: Final) {
    g.items == f.items && g.places == f.places && g.open == f.open && g.callIDs == f.callIDs
  }

  lemma {:induction false} PartsOutcome(r: Reader, f: Final, output: seq<OutItem>, n: nat, m: nat)
    requires n < |output| && output[n].body.Words? && m <= |output[n].body.parts|
    ensures var out := ItemParts(r, f, output[n], n, m);
      if forall p :: 0 <= p < m ==> PartFits(r, output, n, p) then out.Ok? && SameBooks(f, out.value)
      else out.Err? && PartsFault(r, output, n, m, out.error)
  {
    hide OnePart, PartFits, PartFault;
    if m > 0 {
      PartsOutcome(r, f, output, n, m - 1);
      var before := ItemParts(r, f, output[n], n, m - 1);
      if before.Ok? {
        PartOutcome(r, before.value, output, n, m - 1);
      }
    }
  }

  lemma EnterOutcome(r: Reader, response: Response, n: nat, f: Final)
    requires n < |response.output| && Noted(r, response, n, f)
    ensures var item, out := response.output[n], Enter(f, response.output[n], n);
      if PlaceFits(r, response.output, n) then
        out == Ok(if item.id == "" then f else f.(items := f.items + {item.id}, places := f.places[item.id := n]))
      else
        out.Err? && item.id != ""
        && out.error == if exists j :: 0 <= j < n && response.output[j].id == item.id then DuplicateItem else ItemMoved
  {
  }

  lemma {:induction false} NextNames(output: seq<OutItem>, n: nat, callID: string)
    requires n < |output|
    ensures Names(output, n + 1, callID) <==>
      Names(output, n, callID) || (output[n].body.FunctionCall? && output[n].body.callID == callID)
  {
  }

  lemma NextHasID(output: seq<OutItem>, n: nat, id: string)
    requires n < |output|
    ensures HasID(output, n + 1, id) <==> HasID(output, n, id) || (id != "" && output[n].id == id)
  {
  }

  predicate EnteredAs(f: Final, g: Final, item: OutItem, n: nat) {
    && g.items == (if item.id == "" then f.items else f.items + {item.id})
    && g.places == if item.id == "" then f.places else f.places[item.id := n]
  }

  lemma NotedPast(r: Reader, response: Response, n: nat, f: Final, g: Final)
    requires n < |response.output| && Noted(r, response, n, f) && EnteredAs(f, g, response.output[n], n)
    requires g.open == f.open && g.callIDs == f.callIDs
    requires !response.output[n].body.FunctionCall? || response.status == Incomplete
    ensures Noted(r, response, n + 1, g)
  {
    hide Names, HasID;
    forall id ensures id in g.items <==> HasID(response.output, n + 1, id) {
      NextHasID(response.output, n, id);
    }
    forall callID ensures callID in g.callIDs <==>
      response.status != Incomplete && Names(response.output, n + 1, callID)
    {
      NextNames(response.output, n, callID);
    }
  }

  lemma NotedCall(r: Reader, response: Response, n: nat, f: Final, g: Final)
    requires n < |response.output| && Noted(r, response, n, f) && EnteredAs(f, g, response.output[n], n)
    requires response.output[n].body.FunctionCall? && response.status != Incomplete && response.output[n].id != ""
    requires CallUnchanged(r, response.output[n])
    requires var b := response.output[n].body;
      g.callIDs == f.callIDs + {b.callID} && g.open == f.open[response.output[n].id := Call(b.callID, b.name, b.args)]
    ensures Noted(r, response, n + 1, g)
  {
    hide Names, HasID;
    forall id ensures id in g.items <==> HasID(response.output, n + 1, id) {
      NextHasID(response.output, n, id);
    }
    forall callID ensures callID in g.callIDs <==>
      response.status != Incomplete && Names(response.output, n + 1, callID)
    {
      NextNames(response.output, n, callID);
    }
  }

  lemma CallOutcome(r: Reader, response: Response, n: nat, f: Final, g: Final)
    requires n < |response.output| && Noted(r, response, n, f) && EnteredAs(f, g, response.output[n], n)
    requires PlaceFits(r, response.output, n) && g.open == f.open && g.callIDs == f.callIDs
    requires response.output[n].body.FunctionCall? && response.status != Incomplete
    ensures var item, out := response.output[n], OneCall(g, response.output[n]);
      if CallComplete(item) && CallUnchanged(r, item) && CallIDIsNew(response.output, n)
      then out.Ok? && Noted(r, response, n + 1, out.value)
      else
        out.Err? && out.error == if !CallComplete(item) then BadCall
                                 else if !CallUnchanged(r, item) then CallChanged else DuplicateCall
  {
    hide Text.Blank;
    var item := response.output[n];
    if item.body.args.Plain? {
      Text.BlankIff(item.body.args.text);
    }
    assert item.id != "" ==> item.id !in f.items;
    var out := OneCall(g, item);
    if out.Ok? {
      NotedCall(r, response, n, f, out.value);
    }
  }

  lemma FinalSearchOutcome(r: Reader, response: Response, n: nat, f: Final, g: Final)
    requires n < |response.output| && Noted(r, response, n, f) && EnteredAs(f, g, response.output[n], n)
    requires g.open == f.open && g.callIDs == f.callIDs && response.output[n].body.Search?
    ensures var item, out := response.output[n], OneSearch(g, response.output[n]);
      if item.id != "" && item.body.status != "" then out.Ok? && Noted(r, response, n + 1, out.value)
      else out == Err(BadSearch)
  {
    hide FinishSearch, Noted;
    var out := OneSearch(g, response.output[n]);
    if out.Ok? {
      NotedPast(r, response, n, f, out.value);
    }
  }

  lemma ItemOutcome(r: Reader, response: Response, n: nat, f: Final)
    requires n < |response.output| && Noted(r, response, n, f)
    ensures var out := OneItem(r, f, response.status, response.output[n], n);
      if ItemFits(r, response, n) then out.Ok? && Noted(r, response, n + 1, out.value)
      else out.Err? && ItemFault(r, response, n, out.error)
  {
    hide Noted, OneCall, OneSearch, PartFits, PartFault, CallComplete, CallUnchanged, CallIDIsNew, Enter;
    EnterOutcome(r, response, n, f);
    if PlaceFits(r, response.output, n) {
      var item, g := response.output[n], Enter(f, response.output[n], n).value;
      match item.body
      case Words(_, parts) =>
        PartsOutcome(r, g, response.output, n, |parts|);
        var out := ItemParts(r, g, item, n, |parts|);
        if out.Ok? {
          NotedPast(r, response, n, f, out.value);
        }
      case FunctionCall(_, _, _) =>
        if response.status == Incomplete {
          NotedPast(r, response, n, f, g);
        } else {
          CallOutcome(r, response, n, f, g);
        }
      case Search(_, _, _) => FinalSearchOutcome(r, response, n, f, g);
      case _ =>
    }
  }

  /** The first item that does not fit decides; if all do, the books are as noted. */
  lemma {:induction false} ItemsOutcome(r: Reader, response: Response, n: nat)
    requires n <= |response.output|
    ensures var out := Items(r, response, n);
      if forall i :: 0 <= i < n ==> ItemFits(r, response, i) then out.Ok? && Noted(r, response, n, out.value)
      else out.Err? && FirstFault(r, response, n, out.error)
  {
    hide OneItem, ItemFits, ItemFault, Noted;
    if n == 0 {
      NothingNoted(r, response);
    } else {
      ItemsOutcome(r, response, n - 1);
      var before := Items(r, response, n - 1);
      if before.Ok? {
        ItemOutcome(r, response, n - 1, before.value);
      }
    }
  }

  predicate FirstFault(r: Reader, response: Response, n: nat, fault: Fault)
    requires n <= |response.output|
  {
    exists i :: 0 <= i < n && !ItemFits(r, response, i) && ItemFault(r, response, i, fault)
      && forall j :: 0 <= j < i ==> ItemFits(r, response, j)
  }

  lemma NothingNoted(r: Reader, response: Response)
    ensures Noted(r, response, 0, StartFinal(r))
  {
  }

  // ----- The outcome of a terminal event -----

  /** What the reader answers to a terminal event: the first check that fails names the
      fault, and if none does the stream ends well. */
  lemma TerminalOutcome(r: Reader, truncated: bool, response: Response, history: History, stateAllowed: bool)
    requires Honest(r) && Open(r.sent)
    ensures var step, n := Terminate(r, truncated, response, history, stateAllowed), |response.output|;
      if !HeaderFits(truncated, response) then step == Stop(r.sent + [Error(BadTerminal)])
      else if exists i :: 0 <= i < n && !ItemFits(r, response, i) then
        exists fault :: step == Stop(r.sent + [Error(fault)]) && FirstFault(r, response, n, fault)
      else if !CallsNamed(r, response) then step == Stop(r.sent + [Error(CallOmitted)])
      else if !PartsNamed(r, response) then step == Stop(r.sent + [Error(PartOmitted)])
      else if !ChannelFits(r, response, Thought) then step == Stop(r.sent + [Error(ChannelFault(r, Thought))])
      else if !ChannelFits(r, response, Spoken) then step == Stop(r.sent + [Error(ChannelFault(r, Spoken))])
      else if !TokensFit(response.usage) then step == Stop(r.sent + [Error(BadUsage)])
      else if truncated && response.reason != "max_output_tokens" then step == Stop(r.sent + [Error(BadReason)])
      else EndsWell(r.sent, step.sent, response, history, stateAllowed)
  {
    hide Honest, HonestKeys, HonestChannel, Items, Channel, EndsWell, ItemFits, FirstFault, Noted, OmitsPart, OmitsCall;
    hide Open, Balanced, HasText, PartsNamed, CallsNamed, OutputText, Ending;
    TerminalIsAllOrNothing(r, truncated, response, history, stateAllowed);
    var n := |response.output|;
    ItemsOutcome(r, response, n);
    var items := Items(r, response, n);
    if items.Ok? {
      HonestHasKeys(r);
      ItemsBalance(r, response, n);
      CallsNamedIff(r, response, items.value);
      PartsNamedIff(r, response, items.value);
      ChannelOutcome(r, response, items.value, Thought);
      if Channel(r, items.value, Thought).Ok? {
        ChannelKeepsText(r, response, items.value, Thought);
        ChannelOutcome(r, response, Channel(r, items.value, Thought).value, Spoken);
      }
    }
    var step, f := Terminate(r, truncated, response, history, stateAllowed), Reconcile(r, response);
    if f.Ok? {
      EndingIsFinished(response, f.value, history, stateAllowed);
      assert !step.sent[|step.sent| - 1].Error? ==> EndsWell(r.sent, step.sent, response, history, stateAllowed);
    }
  }

  lemma HonestHasKeys(r: Reader)
    requires Honest(r)
    ensures HonestKeys(r)
  {
  }

  function ChannelFault(r: Reader, kind: Kind): Fault {
    if kind in r.native then MixedChannels else OutputDisagrees
  }

  lemma CallsNamedIff(r: Reader, response: Response, f: Final)
    requires Noted(r, response, |response.output|, f)
    ensures response.status == Completed && OmitsCall(f) <==> !CallsNamed(r, response)
  {
    var output, n := response.output, |response.output|;
    if response.status == Completed && OmitsCall(f) {
      var id :| id in f.open && f.open[id].id !in f.callIDs;
      assert id in r.calls;
    }
  }

  lemma PartsNamedIff(r: Reader, response: Response, f: Final)
    requires Balanced(r, f, response.output, |response.output|, 0)
    ensures OmitsPart(r, f) <==> !PartsNamed(r, response)
  {
    hide Heard;
    var output, n := response.output, |response.output|;
    forall key | key in r.streamed ensures key in f.parts <==> Identified(output, key) {
    }
  }

  lemma ChannelOutcome(r: Reader, response: Response, f: Final, kind: Kind)
    requires HasText(f, response.output, |response.output|, 0, kind)
    ensures var out := Channel(r, f, kind);
      if ChannelFits(r, response, kind) then out.Ok? else out == Err(ChannelFault(r, kind))
  {
    hide OutputText;
  }

  lemma ChannelKeepsText(r: Reader, response: Response, f: Final, kind: Kind)
    requires Channel(r, f, kind).Ok? && HasText(f, response.output, |response.output|, 0, Spoken)
    ensures HasText(Channel(r, f, kind).value, response.output, |response.output|, 0, Spoken)
  {
    hide OutputText;
  }

  lemma EndingHasNoError(streamed: seq<Event>, all: seq<Event>, response: Response, history: History,
      stateAllowed: bool)
    ensures EndsWell(streamed, all, response, history, stateAllowed) ==> all != [] && all[|all| - 1].Finished?
  {
    hide Reconciled, OutputText, CallsIn, SavedOutput, Saved;
  }

  /** A terminal event ends well if and only if its response is acceptable. */
  lemma EndsWellIff(r: Reader, truncated: bool, response: Response, history: History, stateAllowed: bool)
    requires Honest(r) && Open(r.sent)
    ensures var step := Terminate(r, truncated, response, history, stateAllowed);
      EndsWell(r.sent, step.sent, response, history, stateAllowed) <==> Acceptable(r, truncated, response)
  {
    hide Honest, EndsWell, ItemFits, FirstFault, PartsNamed, CallsNamed, ChannelFits, HeaderFits, TokensFit, Terminate;
    hide Open, ChannelFault;
    TerminalOutcome(r, truncated, response, history, stateAllowed);
    EndingHasNoError(r.sent, Terminate(r, truncated, response, history, stateAllowed).sent, response, history,
                     stateAllowed);
  }

  // ----- The other events -----

  /** The item that an event speaks of: by its item_id, or by the item it carries. */
  function IDOf(e: Incoming): string {
    if e.itemID != "" then e.itemID
    else if e.body.CallAdded? || e.body.CallDone? || e.body.SearchAdded? || e.body.SearchDone? || e.body.Ignored?
    then e.body.id else ""
  }

  /** An item keeps the position it was first seen at, and no two items share one. */
  predicate PositionFits(r: Reader, e: Incoming) {
    var id := IDOf(e);
    id != "" && e.outputIndex.Some? ==>
      var index := e.outputIndex.value;
      && 0 <= index && 0 <= e.contentIndex
      && (id in r.places ==> r.places[id] == index)
      && (index in r.positions ==> r.positions[index] == id)
  }

  function PlaceOf(r: Reader, e: Incoming): Option<Place> {
    var id := IDOf(e);
    if id == "" then None
    else if e.outputIndex.Some? then Some(Place(id, e.outputIndex.value, e.contentIndex))
    else if id in r.places then Some(Place(id, r.places[id], e.contentIndex))
    else None
  }

  function Placed(r: Reader, e: Incoming): Reader {
    var id := IDOf(e);
    if id == "" || e.outputIndex.None? then r
    else
      var index := e.outputIndex.value;
      r.(places := r.places[id := index], positions := r.positions[index := id])
  }

  lemma LocateOutcome(r: Reader, e: Incoming)
    ensures var out := Locate(r, e);
      if PositionFits(r, e) then out == Ok((Placed(r, e), PlaceOf(r, e)))
      else
        && IDOf(e) != "" && e.outputIndex.Some?
        && var index, id := e.outputIndex.value, IDOf(e);
        && var bad := index < 0 || e.contentIndex < 0 || (id in r.places && r.places[id] != index);
        && out == Err(if bad then BadPosition else PositionConflict)
  {
  }

  predicate ArgsGiven(args: Args) {
    args.Plain? ==> exists i :: 0 <= i < |args.text| && !Text.IsSpace(args.text[i])
  }

  // Before its ending, a stream passes on each event as it arrives and nothing else, and
  // stops at the first that does not fit what came before.

  /** A delta is passed on with its place unless it is empty. */
  lemma DeltaOutcome(r: Reader, e: Incoming, history: History, stateAllowed: bool)
    requires e.body.Delta? && PositionFits(r, e)
    ensures var step := Receive(r, e, history, stateAllowed);
      && step.More?
      && step.reader.sent ==
         r.sent + if e.body.text == [] then [] else [Said(e.body.kind, e.body.text, PlaceOf(r, e))]
  {
    hide Locate;
    LocateOutcome(r, e);
  }

  /** A new call with every identifier is announced; any other start stops the stream. */
  lemma CallAddedOutcome(r: Reader, e: Incoming, history: History, stateAllowed: bool)
    requires e.body.CallAdded? && PositionFits(r, e)
    ensures var b, step := e.body, Receive(r, e, history, stateAllowed);
      if b.id == "" || b.callID == "" || b.name == "" || b.id in r.calls then
        step == Stop(r.sent + [Error(BadCallStart)])
      else
        step == More(Placed(r, e).(calls := r.calls[b.id := Call(b.callID, b.name, b.args)],
                                   sent := r.sent + [CallStart(PlaceOf(r, e), b.callID, b.name)]))
  {
    hide Locate;
    LocateOutcome(r, e);
  }

  /** Arguments are passed on under the call they belong to. */
  lemma ArgsOutcome(r: Reader, e: Incoming, history: History, stateAllowed: bool)
    requires e.body.ArgsDelta? && PositionFits(r, e)
    ensures var step := Receive(r, e, history, stateAllowed);
      if e.itemID !in r.calls then step == Stop(r.sent + [Error(ArgsWithoutCall)])
      else
        var call := r.calls[e.itemID];
        step == More(Placed(r, e).(sent := r.sent + [CallDelta(PlaceOf(r, e), e.body.text, call.id, call.name)]))
  {
    hide Locate;
    LocateOutcome(r, e);
  }

  /** A finished call is announced if it was not, ended once, and keeps its identity; its
      arguments are then the final ones. */
  lemma CallDoneOutcome(r: Reader, e: Incoming, history: History, stateAllowed: bool)
    requires e.body.CallDone? && PositionFits(r, e)
    ensures var b, step := e.body, Receive(r, e, history, stateAllowed);
      if b.id == "" || b.callID == "" || b.name == "" || !ArgsGiven(b.args) then step == Stop(r.sent + [Error(BadCall)])
      else if b.id in r.calls && (r.calls[b.id].id != b.callID || r.calls[b.id].name != b.name) then
        step == Stop(r.sent + [Error(CallChanged)])
      else
        step == More(Placed(r, e).(calls := r.calls[b.id := Call(b.callID, b.name, b.args)],
                                   ended := r.ended + {b.id},
                                   sent := r.sent + Settled(Placed(r, e), b.id, b.callID, b.name)))
  {
    hide FinishCall, Locate, Settled, ArgsGiven, Terminate;
    LocateOutcome(r, e);
    FinishCallOutcome(Placed(r, e), e.body.id, e.body.callID, e.body.name, e.body.args);
  }

  lemma FinishCallOutcome(s: Reader, id: string, callID: string, name: string, args: Args)
    ensures var out := FinishCall(Calls(s.calls, s.ended, s.sent), s.places, id, callID, name, args);
      if id == "" || callID == "" || name == "" || !ArgsGiven(args) then out == Err(BadCall)
      else if id in s.calls && (s.calls[id].id != callID || s.calls[id].name != name) then out == Err(CallChanged)
      else
        out == Ok(Calls(s.calls[id := Call(callID, name, args)], s.ended + {id},
                        s.sent + Settled(s, id, callID, name)))
  {
    hide Text.Blank;
    if args.Plain? {
      Text.BlankIff(args.text);
    }
    var c := Calls(s.calls, s.ended, s.sent);
    assert FinishEvents(c, PlaceFor(s.places, id), id, callID, name) == Settled(s, id, callID, name);
  }

  lemma OtherOutcome(r: Reader, e: Incoming, history: History, stateAllowed: bool)
    requires (e.body.Failed? || e.body.Ignored?) && PositionFits(r, e)
    ensures Receive(r, e, history, stateAllowed) ==
      if e.body.Failed? then Stop(r.sent + [Error(ProviderFailed)]) else More(Placed(r, e))
  {
    hide Locate;
    LocateOutcome(r, e);
  }

  /** The events that settle a call at its item's place. */
  function Settled(r: Reader, id: string, callID: string, name: string): seq<Event> {
    var place := if id in r.places then Some(Place(id, r.places[id], 0)) else None;
    (if id in r.calls then [] else [CallStart(place, callID, name)])
    + (if id in r.ended then [] else [CallEnd(place, callID, name)])
  }

  // ----- Searches -----

  /** What is known of a search after it was heard of again: each member as it was last
      given. */
  predicate LastGiven(full: Action, action: Action, before: Action) {
    && full.kind == (if action.kind == "" then before.kind else action.kind)
    && full.query == (if action.query == "" then before.query else action.query)
    && full.url == (if action.url == "" then before.url else action.url)
    && full.pattern == (if action.pattern == "" then before.pattern else action.pattern)
    && full.queries == (if action.queries.None? then before.queries else action.queries)
    && full.sources == (if action.sources.None? then before.sources else action.sources)
  }

  /** The sources that have an address, in order. */
  function WithAddress(sources: seq<Source>): seq<Source> {
    if sources == [] then []
    else (if sources[0].url == "" then [] else [sources[0]]) + WithAddress(sources[1..])
  }

  lemma {:induction false} WithAddressSnoc(sources: seq<Source>, last: Source)
    ensures WithAddress(sources + [last]) == WithAddress(sources) + if last.url == "" then [] else [last]
  {
    if sources == [] {
      assert [last][1..] == [];
    } else {
      WithAddressSnoc(sources[1..], last);
      assert (sources + [last])[1..] == sources[1..] + [last];
    }
  }

  lemma {:induction false} AddressedIs(sources: seq<Source>)
    ensures Addressed(sources) == WithAddress(sources)
  {
    hide WithAddress;
    if sources == [] {
      NoAddress();
    } else {
      var front, last := sources[..|sources| - 1], sources[|sources| - 1];
      AddressedIs(front);
      WithAddressSnoc(front, last);
      assert sources == front + [last];
    }
  }

  lemma NoAddress()
    ensures WithAddress([]) == []
  {
  }

  /** A result lists the sources with an address, says whether any list was given, and fails
      with the provider's error or for a status that is no success. */
  predicate ResultTells(result: SearchResult, full: Action, status: string, error: Option<SearchError>) {
    && (result.given <==> full.sources.Some?)
    && result.results == (if full.sources.Some? then WithAddress(full.sources.value) else [])
    && result.error ==
       if error.Some? then error
       else if status in {"failed", "incomplete"} then Some(SearchError("search_failed", "Web search failed"))
       else None
  }

  predicate EndsSearch(events: seq<Event>, place: Option<Place>, id: string, full: Action, status: string,
      error: Option<SearchError>)
  {
    && |events| == 1 && events[0].SearchEnd?
    && events[0] == SearchEnd(place, id, full, status, events[0].result)
    && ResultTells(events[0].result, full, status, error)
  }

  /** What hearing of a search does: what is known of it is completed, it is announced if it
      was not, and when it is finished its result is passed on unless it was. */
  ghost predicate Heeded(s: Searches, t: Searches, place: Option<Place>, id: string, action: Action, done: bool,
      status: string, error: Option<SearchError>)
  {
    && id in t.known
    && LastGiven(t.known[id], action, if id in s.known then s.known[id] else Action("", "", "", "", None, None))
    && t.known == s.known[id := t.known[id]]
    && t.done == s.done + (if done then {id} else {})
    && s.events <= t.events
    && var added, n := t.events[|s.events|..], if id in s.known then 0 else 1;
    && n <= |added| && (id !in s.known ==> added[0] == SearchStart(place, id, t.known[id]))
    && if done && id !in s.done then EndsSearch(added[n..], place, id, t.known[id], status, error) else |added| == n
  }

  function PlaceNow(places: map<string, int>, id: string): Option<Place> {
    if id in places then Some(Place(id, places[id], 0)) else None
  }

  lemma NoteIs(s: Searches, places: map<string, int>, id: string, action: Action)
    ensures Heeded(s, NoteSearch(s, places, id, action), PlaceNow(places, id), id, action, false, "", None)
  {
    hide Filled;
    var t := NoteSearch(s, places, id, action);
    FilledIs(action, KnownAction(s, id));
  }

  lemma FilledIs(action: Action, before: Action)
    ensures LastGiven(Filled(action, before), action, before)
  {
  }

  lemma FinishIs(s: Searches, places: map<string, int>, id: string, status: string, action: Action,
      error: Option<SearchError>)
    ensures var t := FinishSearch(s, places, id, status, action, error);
      Heeded(s, t, PlaceNow(places, id), id, action, true, status, error)
  {
    hide NoteSearch, LastGiven, Addressed;
    var t, noted := FinishSearch(s, places, id, status, action, error), NoteSearch(s, places, id, action);
    NoteIs(s, places, id, action);
    if id !in noted.done {
      var full := noted.known[id];
      if full.sources.Some? {
        AddressedIs(full.sources.value);
      }
      var end := SearchEnd(PlaceFor(places, id), id, full, status, ResultOf(full, status, error));
      assert t.events == noted.events + [end];
      var n := if id in s.known then 0 else 1;
      assert t.events[|s.events|..][n..] == [end];
    }
  }

  /** A search is announced when it is first heard of, with what is known of it, and its
      result is passed on once. */
  lemma SearchOutcome(r: Reader, e: Incoming, history: History, stateAllowed: bool)
    requires (e.body.SearchAdded? || e.body.SearchUnderWay? || e.body.SearchDone?) && PositionFits(r, e)
    ensures var step, s, b := Receive(r, e, history, stateAllowed), Placed(r, e), e.body;
      var id := if b.SearchUnderWay? then e.itemID else b.id;
      var action := if b.SearchUnderWay? then Action("", "", "", "", None, None) else b.action;
      && step.More?
      && Heeded(SearchesOf(r), SearchesOf(step.reader), PlaceNow(s.places, id), id, action, b.SearchDone?,
                if b.SearchDone? then b.status else "", if b.SearchDone? then b.error else None)
      && step.reader.calls == r.calls && step.reader.streamed == r.streamed
  {
    hide Locate, NoteSearch, FinishSearch, Heeded, Terminate;
    LocateOutcome(r, e);
    var s := Placed(r, e);
    match e.body
    case SearchAdded(id, action) => NoteIs(SearchesOf(s), s.places, id, action);
    case SearchUnderWay => NoteIs(SearchesOf(s), s.places, e.itemID, BLANK_ACTION);
    case SearchDone(id, status, action, error) => FinishIs(SearchesOf(s), s.places, id, status, action, error);
  }

  /** A search in the terminal response is finished in the same way, at its place there. */
  lemma FinalSearchIs(f: Final, item: OutItem)
    requires item.body.Search? && item.id != "" && item.body.status != ""
    ensures OneSearch(f, item).Ok?
    ensures var g, b := OneSearch(f, item).value, item.body;
      && Heeded(Searches(f.searches, f.searched, f.queue), Searches(g.searches, g.searched, g.queue),
                PlaceNow(f.places, item.id), item.id, b.action, true, b.status, b.error)
      && SameBooks(f, g) && g.parts == f.parts && g.spoken == f.spoken && g.thought == f.thought && g.calls == f.calls
  {
    hide FinishSearch, Heeded;
    var b := item.body;
    FinishIs(Searches(f.searches, f.searched, f.queue), f.places, item.id, b.status, b.action, b.error);
  }

  /** An event that cannot be decoded, or stands where it cannot, stops the stream. */
  lemma MisplacedEventStops(r: Reader, e: Incoming, history: History, stateAllowed: bool)
    requires e.body.Undecodable? || !PositionFits(r, e)
    ensures Receive(r, e, history, stateAllowed) == Stop(r.sent + [Error(Misplacement(r, e))])
  {
    hide Terminate, FinishCall, Searching;
    LocateOutcome(r, e);
  }

  /** A position that changes or is no position, or else one that another item has. */
  function Misplacement(r: Reader, e: Incoming): Fault {
    if e.body.Undecodable? then BadJson
    else
      var id, index := IDOf(e), e.outputIndex;
      if index.Some? && (index.value < 0 || e.contentIndex < 0 || (id in r.places && r.places[id] != index.value))
      then BadPosition else PositionConflict
  }

  // ----- Whole streams -----

  /** The reader gets to event `j`, a terminal one whose response is acceptable there. */
  ghost predicate AcceptedAt(r: Reader, events: seq<Incoming>, k: nat, j: nat, history: History, stateAllowed: bool)
    requires k <= j < |events|
  {
    var before := ReaderAt(r, events, k, j, history, stateAllowed);
    && before.Some?
    && events[j].body.Terminal?
    && PositionFits(before.value, events[j])
    && Acceptable(Placed(before.value, events[j]), events[j].body.truncated, events[j].body.response)
  }

  ghost predicate SomeAccepted(r: Reader, events: seq<Incoming>, k: nat, history: History, stateAllowed: bool)
    requires k <= |events|
  {
    exists j :: k <= j < |events| && AcceptedAt(r, events, k, j, history, stateAllowed)
  }

  lemma PlacedKeepsHonest(r: Reader, e: Incoming)
    requires Honest(r)
    ensures Honest(Placed(r, e)) && Placed(r, e).sent == r.sent
  {
    assert Placed(r, e).sent == r.sent + [];
    SilentKeepsHonest(r, Placed(r, e), []);
  }

  /** An event that stops the reader finishes the stream exactly if it is accepted. */
  lemma StopFinishesIff(r: Reader, events: seq<Incoming>, k: nat, history: History, stateAllowed: bool)
    requires k < |events| && Honest(r) && Open(r.sent) && Receive(r, events[k], history, stateAllowed).Stop?
    ensures var all := Receive(r, events[k], history, stateAllowed).sent;
      all != [] && (all[|all| - 1].Finished? <==> SomeAccepted(r, events, k, history, stateAllowed))
  {
    hide Honest, Open, Terminate, EndsWell, Acceptable, Locate, PositionFits, FinishCall, ReaderAt, Placed;
    var e, all := events[k], Receive(r, events[k], history, stateAllowed).sent;
    LocateOutcome(r, e);
    OnlyHere(r, events, k, history, stateAllowed);
    if e.body.Terminal? && PositionFits(r, e) {
      var s := Placed(r, e);
      PlacedKeepsHonest(r, e);
      TerminalIsAllOrNothing(s, e.body.truncated, e.body.response, history, stateAllowed);
      EndsWellIff(s, e.body.truncated, e.body.response, history, stateAllowed);
      EndingHasNoError(s.sent, all, e.body.response, history, stateAllowed);
    }
  }

  lemma OnlyHere(r: Reader, events: seq<Incoming>, k: nat, history: History, stateAllowed: bool)
    requires k < |events| && Receive(r, events[k], history, stateAllowed).Stop?
    ensures SomeAccepted(r, events, k, history, stateAllowed) <==>
      events[k].body.Terminal? && PositionFits(r, events[k])
      && Acceptable(Placed(r, events[k]), events[k].body.truncated, events[k].body.response)
  {
    hide Receive, Acceptable, PositionFits, Placed;
    assert ReaderAt(r, events, k, k, history, stateAllowed) == Some(r);
    forall j | k < j < |events| ensures ReaderAt(r, events, k, j, history, stateAllowed).None? {
    }
    assert AcceptedAt(r, events, k, k, history, stateAllowed) <==>
      events[k].body.Terminal? && PositionFits(r, events[k])
      && Acceptable(Placed(r, events[k]), events[k].body.truncated, events[k].body.response);
  }

  lemma AcceptedLater(r: Reader, events: seq<Incoming>, k: nat, history: History, stateAllowed: bool)
    requires k < |events| && Receive(r, events[k], history, stateAllowed).More?
    ensures SomeAccepted(r, events, k, history, stateAllowed) <==>
      SomeAccepted(Receive(r, events[k], history, stateAllowed).reader, events, k + 1, history, stateAllowed)
  {
    hide Receive, Acceptable, PositionFits, Placed;
    var next := Receive(r, events[k], history, stateAllowed).reader;
    forall j | k < j < |events|
      ensures AcceptedAt(r, events, k, j, history, stateAllowed)
        <==> AcceptedAt(next, events, k + 1, j, history, stateAllowed)
    {
    }
    if SomeAccepted(r, events, k, history, stateAllowed) {
      var j :| k <= j < |events| && AcceptedAt(r, events, k, j, history, stateAllowed);
      if j == k {
        TerminalStops(r, events[k], history, stateAllowed);
      }
    }
    if SomeAccepted(next, events, k + 1, history, stateAllowed) {
      var j :| k + 1 <= j < |events| && AcceptedAt(next, events, k + 1, j, history, stateAllowed);
      assert AcceptedAt(r, events, k, j, history, stateAllowed);
    }
  }

  lemma TerminalStops(r: Reader, e: Incoming, history: History, stateAllowed: bool)
    requires e.body.Terminal?
    ensures Receive(r, e, history, stateAllowed).Stop?
  {
    hide Terminate, Locate;
  }

  lemma {:induction false} HeedFinishesIff(r: Reader, events: seq<Incoming>, k: nat, history: History,
      stateAllowed: bool)
    requires k <= |events| && Honest(r) && Open(r.sent)
    ensures var all := Heed(r, events, k, history, stateAllowed);
      all != [] && (all[|all| - 1].Finished? <==> SomeAccepted(r, events, k, history, stateAllowed))
    decreases |events| - k
  {
    hide Honest, Open, Receive, SomeAccepted;
    if k == |events| {
      NothingLeft(r, events, history, stateAllowed);
    } else {
      var step := Receive(r, events[k], history, stateAllowed);
      if step.More? {
        ReceiveKeepsHonest(r, events[k], history, stateAllowed);
        HeedFinishesIff(step.reader, events, k + 1, history, stateAllowed);
        AcceptedLater(r, events, k, history, stateAllowed);
      } else {
        StopFinishesIff(r, events, k, history, stateAllowed);
      }
    }
  }

  lemma NothingLeft(r: Reader, events: seq<Incoming>, history: History, stateAllowed: bool)
    ensures !SomeAccepted(r, events, |events|, history, stateAllowed)
  {
  }

  /** A stream ends without an error if and only if it comes to a terminal event whose
      response is acceptable behind what was streamed before it. */
  lemma StreamFinishesIff(events: seq<Incoming>, history: History, stateAllowed: bool)
    ensures var all := Heed(NEW_READER, events, 0, history, stateAllowed);
      && all != []
      && (all[|all| - 1].Finished? <==> SomeAccepted(NEW_READER, events, 0, history, stateAllowed))
  {
    hide Open, SomeAccepted, Receive;
    assert Honest(NEW_READER);
    assert Open(NEW_READER.sent) by {
      OpenFromStart();
    }
    HeedFinishesIff(NEW_READER, events, 0, history, stateAllowed);
  }

  lemma OpenFromStart()
    ensures Open([])
  {
  }

  /** An answer cut at the output limit: what was streamed is kept, the rest of it follows
      and the stream ends truncated. */
  lemma TruncatedStream(begun: Runes, more: Runes, id: string, usage: Option<Tokens>, native: Input,
      history: History, stateAllowed: bool)
    requires begun != [] && id != "" && TokensFit(usage)
    ensures var item := OutItem("", Words(Spoken, [Some(begun + more)]), native);
      var response := Response(id, Incomplete, false, [item], usage, "max_output_tokens");
      var all := Heed(NEW_READER, [Begins(begun), Cuts(response)], 0, history, stateAllowed);
      && all != []
      && all[|all| - 1].Finished? && all[|all| - 1].truncated && all[|all| - 1].responseID == id
      && Heard(all, Whole(Spoken)) == begun + more
  {
    hide EndsWell, Terminate, Acceptable, Heard, Begun, Heed, Begins, Cuts, OutputText, KindReconciled;
    var item := OutItem("", Words(Spoken, [Some(begun + more)]), native);
    var response := Response(id, Incomplete, false, [item], usage, "max_output_tokens");
    var r, all := Begun(begun), Terminate(Begun(begun), true, response, history, stateAllowed).sent;
    TwoEvents(begun, response, history, stateAllowed);
    OnlyText(item, begun + more);
    TruncatedFits(r, response, begun, more);
    EndsWellIff(r, true, response, history, stateAllowed);
    EndsTruncated(r.sent, all, response, history, stateAllowed);
    HeardWhole(begun, all, response.output);
  }

  function Begins(text: Runes): Incoming { Incoming("", None, 0, Delta(Spoken, text)) }

  function Cuts(response: Response): Incoming { Incoming("", None, 0, Terminal(true, response)) }

  /** The reader behind one delta without a place. */
  function Begun(text: Runes): Reader {
    NEW_READER.(spoken := text, sent := [Said(Spoken, text, None)], anonymous := {Spoken})
  }

  lemma TwoEvents(begun: Runes, response: Response, history: History, stateAllowed: bool)
    requires begun != []
    ensures Honest(Begun(begun)) && Open(Begun(begun).sent)
    ensures Heed(NEW_READER, [Begins(begun), Cuts(response)], 0, history, stateAllowed)
         == Terminate(Begun(begun), true, response, history, stateAllowed).sent
  {
    hide Honest, Open, Terminate, Heed;
    BlankIsHonest();
    OpenFromStart();
    var r, events := Begun(begun), [Begins(begun), Cuts(response)];
    assert Receive(NEW_READER, events[0], history, stateAllowed) == More(r);
    ReceiveKeepsHonest(NEW_READER, events[0], history, stateAllowed);
    assert Receive(r, events[1], history, stateAllowed) == Terminate(r, true, response, history, stateAllowed);
    HeedsTwo(NEW_READER, r, events, history, stateAllowed);
  }

  lemma HeedsTwo(r: Reader, s: Reader, events: seq<Incoming>, history: History, stateAllowed: bool)
    requires |events| == 2 && Receive(r, events[0], history, stateAllowed) == More(s)
    requires Receive(s, events[1], history, stateAllowed).Stop?
    ensures Heed(r, events, 0, history, stateAllowed) == Receive(s, events[1], history, stateAllowed).sent
  {
    hide Receive;
    assert Heed(s, events, 1, history, stateAllowed) == Receive(s, events[1], history, stateAllowed).sent;
  }

  lemma HeardWhole(begun: Runes, all: seq<Event>, output: seq<OutItem>)
    requires begun != [] && Reconciled(Begun(begun).sent, all, output)
    ensures Heard(all, Whole(Spoken)) == OutputText(output, |output|, Spoken)
  {
    hide OutputText;
    HeardFirst(begun);
  }

  lemma BlankIsHonest()
    ensures Honest(NEW_READER)
  {
  }

  lemma OnlyText(item: OutItem, text: Runes)
    requires item.body == Words(Spoken, [Some(text)])
    ensures OutputText([item], 1, Spoken) == text && OutputText([item], 1, Thought) == []
  {
    assert PartsText([Some(text)], 1) == PartsText([Some(text)], 0) + text;
    assert OutputText([item], 0, Spoken) == [] && OutputText([item], 0, Thought) == [];
  }

  lemma TruncatedFits(r: Reader, response: Response, begun: Runes, more: Runes)
    requires r == Begun(begun) && |response.output| == 1 && response.output[0].id == ""
    requires response.output[0].body == Words(Spoken, [Some(begun + more)])
    requires response.id != "" && response.status == Incomplete && !response.failed
    requires TokensFit(response.usage) && response.reason == "max_output_tokens"
    ensures Acceptable(r, true, response)
  {
    hide TokensFit, ItemFits, OutputText;
    OnlyText(response.output[0], begun + more);
    assert response.output == [response.output[0]];
    TruncatedItemFits(r, response, begun, more);
  }

  lemma TruncatedItemFits(r: Reader, response: Response, begun: Runes, more: Runes)
    requires r == Begun(begun) && |response.output| == 1 && response.output[0].id == ""
    requires response.output[0].body == Words(Spoken, [Some(begun + more)])
    ensures ItemFits(r, response, 0)
  {
  }

  lemma EndsTruncated(streamed: seq<Event>, all: seq<Event>, response: Response, history: History, stateAllowed: bool)
    requires EndsWell(streamed, all, response, history, stateAllowed) && response.status == Incomplete
    ensures all != [] && all[|all| - 1].Finished? && all[|all| - 1].truncated
    ensures all[|all| - 1].responseID == response.id && Reconciled(streamed, all, response.output)
  {
    hide Reconciled, OutputText, CallsIn, SavedOutput, Saved;
  }

  lemma HeardFirst(begun: Runes)
    ensures Heard([Said(Spoken, begun, None)], NoPlace(Spoken)) == begun
  {
    assert [Said(Spoken, begun, None)][..0] == [];
  }
}
