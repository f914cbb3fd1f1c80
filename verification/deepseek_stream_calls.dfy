/** Function calls in a streamed response: what was announced is what is handed over. */
module DeepSeekStreamCalls {
  import opened Wrappers
  import opened DeepSeekHistory
  import opened DeepSeekStream
  import opened DeepSeekStreamLaws

  function StartedIDs(events: seq<Event>): set<string> {
    set e | e in events && e.CallStart? :: e.id
  }

  function EndedIDs(events: seq<Event>): set<string> {
    set e | e in events && e.CallEnd? :: e.id
  }

  function IDsOf(calls: seq<Call>): set<string> {
    set c | c in calls :: c.id
  }

  function OpenIDs(open: map<string, Call>): set<string> {
    set id | id in open :: open[id].id
  }

  function ClosedIDs(open: map<string, Call>, ended: set<string>): set<string> {
    set id | id in open && id in ended :: open[id].id
  }

  /** The open calls are those announced, and the ended ones those announced as ended. */
  predicate Booked(c: Calls) {
    && c.ended <= c.open.Keys
    && StartedIDs(c.events) == OpenIDs(c.open)
    && EndedIDs(c.events) == ClosedIDs(c.open, c.ended)
  }

  function CallsOf(r: Reader): Calls { Calls(r.calls, r.ended, r.sent) }

  predicate Wordless(events: seq<Event>) {
    forall e :: e in events ==> !e.CallStart? && !e.CallEnd?
  }

  lemma OtherEventsKeepBooked(c: Calls, added: seq<Event>)
    requires Booked(c) && Wordless(added)
    ensures Booked(c.(events := c.events + added))
  {
    assert StartedIDs(c.events + added) == StartedIDs(c.events);
    assert EndedIDs(c.events + added) == EndedIDs(c.events);
  }

  lemma OpenKeepsBooked(c: Calls, id: string, call: Call, place: Option<Place>)
    requires Booked(c) && id !in c.open
    ensures Booked(Calls(c.open[id := call], c.ended, c.events + [CallStart(place, call.id, call.name)]))
  {
    var open, e := c.open[id := call], CallStart(place, call.id, call.name);
    assert e in c.events + [e];
    assert StartedIDs(c.events + [e]) == StartedIDs(c.events) + {call.id};
    assert OpenIDs(open) == OpenIDs(c.open) + {call.id} by {
      assert id in open && open[id].id == call.id;
      forall other | other in c.open
        ensures other in open && open[other] == c.open[other]
      {
      }
    }
    assert EndedIDs(c.events + [e]) == EndedIDs(c.events);
    assert ClosedIDs(open, c.ended) == ClosedIDs(c.open, c.ended) by {
      assert forall other :: other in c.ended ==> other in c.open && open[other] == c.open[other];
    }
  }

  lemma RenewKeepsBooked(c: Calls, id: string, call: Call)
    requires Booked(c) && id in c.open && c.open[id].id == call.id
    ensures Booked(c.(open := c.open[id := call]))
  {
    var open := c.open[id := call];
    assert forall other :: other in open <==> other in c.open;
    assert forall other :: other in open ==> open[other].id == c.open[other].id;
    assert OpenIDs(open) == OpenIDs(c.open);
    assert ClosedIDs(open, c.ended) == ClosedIDs(c.open, c.ended);
  }

  lemma EndKeepsBooked(c: Calls, id: string, place: Option<Place>)
    requires Booked(c) && id in c.open
    ensures Booked(Calls(c.open, c.ended + {id}, c.events + [CallEnd(place, c.open[id].id, c.open[id].name)]))
  {
    var e := CallEnd(place, c.open[id].id, c.open[id].name);
    assert e in c.events + [e];
    assert StartedIDs(c.events + [e]) == StartedIDs(c.events);
    assert EndedIDs(c.events + [e]) == EndedIDs(c.events) + {c.open[id].id};
    assert ClosedIDs(c.open, c.ended + {id}) == ClosedIDs(c.open, c.ended) + {c.open[id].id};
  }

  /** Announced when it was not open yet, and open now. */
  lemma BeginKeepsBooked(c: Calls, place: Option<Place>, id: string, call: Call)
    requires Booked(c) && (id in c.open ==> c.open[id].id == call.id)
    ensures
      var started := if id in c.open then [] else [CallStart(place, call.id, call.name)];
      var begun := Calls(c.open[id := call], c.ended, c.events + started);
      Booked(begun)
  {
    hide Booked;
    if id in c.open {
      RenewKeepsBooked(c, id, call);
      assert c.events + [] == c.events;
    } else {
      OpenKeepsBooked(c, id, call, place);
    }
  }

  lemma EventsInTwo(c: Calls, place: Option<Place>, id: string, callID: string, name: string)
    ensures c.events + FinishEvents(c, place, id, callID, name)
         == c.events + (if id in c.open then [] else [CallStart(place, callID, name)])
              + if id in c.ended then [] else [CallEnd(place, callID, name)]
  {
  }

  /** Finishing a call books it as started and ended, whatever was announced before. */
  lemma FinishKeepsBooked(c: Calls, places: map<string, int>, id: string, callID: string, name: string, args: Args)
    requires Booked(c) && FinishCall(c, places, id, callID, name, args).Ok?
    ensures var d := FinishCall(c, places, id, callID, name, args).value;
      && Booked(d) && id in d.open && id in d.ended && d.open[id].id == callID
      && d.open.Keys == c.open.Keys + {id}
      && (forall other :: other in c.open ==> d.open[other].id == c.open[other].id)
  {
    hide Booked, PlaceFor, BlankArgs, FinishEvents;
    var call, place := Call(callID, name, args), PlaceFor(places, id);
    var d := FinishCall(c, places, id, callID, name, args).value;
    var events := c.events + if id in c.open then [] else [CallStart(place, callID, name)];
    var begun := Calls(c.open[id := call], c.ended, events);
    BeginKeepsBooked(c, place, id, call);
    EventsInTwo(c, place, id, callID, name);
    if id in c.ended {
      assert c.ended + {id} == c.ended && events + [] == events;
      assert d == begun;
    } else {
      EndKeepsBooked(begun, id, place);
      assert d == Calls(begun.open, begun.ended + {id}, events + [CallEnd(place, callID, name)]);
    }
  }

  lemma FinishAfter(front: seq<Event>, c: Calls, places: map<string, int>, id: string, callID: string, name: string,
      args: Args)
    requires FinishCall(c, places, id, callID, name, args).Ok?
    ensures var d := FinishCall(c, places, id, callID, name, args).value;
      FinishCall(c.(events := front + c.events), places, id, callID, name, args) == Ok(d.(events := front + d.events))
  {
    var more := FinishEvents(c, PlaceFor(places, id), id, callID, name);
    assert front + c.events + more == front + (c.events + more);
  }

  // ----- The terminal response -----

  predicate Distinct(calls: seq<Call>) {
    forall i, j :: 0 <= i < j < |calls| ==> calls[i].id != calls[j].id
  }

  /** The final calls are distinct and have ended. */
  predicate Settled(r: Reader, f: Final) {
    && Booked(Calls(f.open, f.ended, r.sent + f.queue))
    && f.callIDs == IDsOf(f.calls) && Distinct(f.calls)
    && f.callIDs <= ClosedIDs(f.open, f.ended)
  }

  predicate SameCalls(f: Final, g: Final) {
    f.open == g.open && f.ended == g.ended && f.calls == g.calls && f.callIDs == g.callIDs
  }

  lemma QueueKeepsSettled(r: Reader, f: Final, g: Final, added: seq<Event>)
    requires Settled(r, f) && SameCalls(f, g) && g.queue == f.queue + added && Wordless(added)
    ensures Settled(r, g)
  {
    hide Booked;
    OtherEventsKeepBooked(Calls(f.open, f.ended, r.sent + f.queue), added);
    assert r.sent + f.queue + added == r.sent + g.queue;
  }

  lemma PartKeepsSettled(r: Reader, f: Final, kind: Kind, place: Place, part: Option<Runes>)
    requires Settled(r, f) && OnePart(r, f, kind, place, part).Ok?
    ensures Settled(r, OnePart(r, f, kind, place, part).value)
  {
    hide Settled, OnePart;
    PartAdds(r, f, kind, place, part);
    var g := OnePart(r, f, kind, place, part).value;
    var added := g.queue[|f.queue|..];
    assert g.queue == f.queue + added && Wordless(added);
    QueueKeepsSettled(r, f, g, added);
  }

  lemma {:induction false} PartsKeepSettled(r: Reader, f: Final, item: OutItem, index: nat, n: nat)
    requires item.body.Words? && n <= |item.body.parts| && Settled(r, f) && ItemParts(r, f, item, index, n).Ok?
    ensures Settled(r, ItemParts(r, f, item, index, n).value)
  {
    hide Settled, OnePart;
    if n > 0 {
      PartsKeepSettled(r, f, item, index, n - 1);
      var g := ItemParts(r, f, item, index, n - 1).value;
      PartKeepsSettled(r, g, item.body.kind, Place(item.id, index, n - 1), item.body.parts[n - 1]);
    }
  }

  lemma CallKeepsSettled(r: Reader, f: Final, item: OutItem)
    requires item.body.FunctionCall? && Settled(r, f) && OneCall(f, item).Ok?
    ensures Settled(r, OneCall(f, item).value)
  {
    hide Booked, FinishCall;
    var b, g := item.body, OneCall(f, item).value;
    var c := Calls(f.open, f.ended, f.queue);
    FinishAfter(r.sent, c, f.places, item.id, b.callID, b.name, b.args);
    FinishKeepsBooked(c.(events := r.sent + f.queue), f.places, item.id, b.callID, b.name, b.args);
    FinishKeepsEnded(c.(events := r.sent + f.queue), f.places, item.id, b.callID, b.name, b.args);
    var call := Call(b.callID, b.name, b.args);
    assert call in f.calls + [call];
    assert IDsOf(g.calls) == IDsOf(f.calls) + {b.callID};
    ClosedIDsGrow(f.open, f.ended, g.open, g.ended);
    forall i | 0 <= i < |f.calls|
      ensures f.calls[i].id != b.callID
    {
      assert f.calls[i].id in IDsOf(f.calls);
    }
  }

  lemma FinishKeepsEnded(c: Calls, places: map<string, int>, id: string, callID: string, name: string, args: Args)
    requires FinishCall(c, places, id, callID, name, args).Ok?
    ensures c.ended <= FinishCall(c, places, id, callID, name, args).value.ended
  {
  }

  lemma ClosedIDsGrow(open: map<string, Call>, ended: set<string>, more: map<string, Call>, done: set<string>)
    requires open.Keys <= more.Keys && ended <= done
    requires forall id :: id in open ==> more[id].id == open[id].id
    ensures ClosedIDs(open, ended) <= ClosedIDs(more, done)
  {
  }

  lemma SearchKeepsSettled(r: Reader, f: Final, item: OutItem)
    requires item.body.Search? && Settled(r, f) && OneSearch(f, item).Ok?
    ensures Settled(r, OneSearch(f, item).value)
  {
    hide Settled, FinishSearch;
    var g, b := OneSearch(f, item).value, item.body;
    SearchesAreAdded(Searches(f.searches, f.searched, f.queue), f.places, item.id, b.status, b.action, b.error);
    var added := g.queue[|f.queue|..];
    assert g.queue == f.queue + added;
    QueueKeepsSettled(r, f, g, added);
  }

  lemma ItemKeepsSettled(r: Reader, f: Final, status: Status, item: OutItem, index: nat)
    requires Settled(r, f) && OneItem(r, f, status, item, index).Ok?
    ensures Settled(r, OneItem(r, f, status, item, index).value)
  {
    hide Settled, OneCall, OneSearch, ItemParts;
    var entered := Enter(f, item, index).value;
    assert entered.queue == f.queue + [];
    QueueKeepsSettled(r, f, entered, []);
    match item.body
    case Words(_, parts) => PartsKeepSettled(r, entered, item, index, |parts|);
    case FunctionCall(_, _, _) =>
      if !status.Incomplete? {
        CallKeepsSettled(r, entered, item);
      }
    case Search(_, _, _) => SearchKeepsSettled(r, entered, item);
    case _ =>
  }

  lemma {:induction false} ItemsSettle(r: Reader, response: Response, n: nat)
    requires n <= |response.output| && Booked(CallsOf(r)) && Items(r, response, n).Ok?
    ensures Settled(r, Items(r, response, n).value)
  {
    hide OneItem, Booked;
    if n == 0 {
      assert r.sent + [] == r.sent;
    } else {
      ItemsSettle(r, response, n - 1);
      ItemKeepsSettled(r, Items(r, response, n - 1).value, response.status, response.output[n - 1], n - 1);
    }
  }

  lemma ChannelKeepsSettled(r: Reader, f: Final, kind: Kind)
    requires Settled(r, f) && Channel(r, f, kind).Ok?
    ensures Settled(r, Channel(r, f, kind).value) && SameCalls(f, Channel(r, f, kind).value)
  {
    hide Settled;
    var g := Channel(r, f, kind).value;
    var added := g.queue[|f.queue|..];
    assert g.queue == f.queue + added && Wordless(added);
    QueueKeepsSettled(r, f, g, added);
  }

  lemma ReconcileSettles(r: Reader, response: Response)
    requires Booked(CallsOf(r)) && Reconcile(r, response).Ok?
    ensures var f := Reconcile(r, response).value;
      Settled(r, f) && (response.status.Completed? ==> !OmitsCall(f))
  {
    hide Settled, Items, Channel;
    ItemsSettle(r, response, |response.output|);
    var f := Items(r, response, |response.output|).value;
    ChannelKeepsSettled(r, f, Thought);
    ChannelKeepsSettled(r, Channel(r, f, Thought).value, Spoken);
  }

  /** The calls in the event before the ending that announces them. */
  function HandedCalls(all: seq<Event>): seq<Call> {
    var n := |all|;
    if n >= 2 && all[n - 1].Finished? && all[n - 1].toolCalls && all[n - 2].ToolCalls? then all[n - 2].calls else []
  }

  function HandedOver(all: seq<Event>): set<string> { IDsOf(HandedCalls(all)) }

  /** A completed response hands over exactly the calls that were announced, and each of
      them, named once, was announced as ended. */
  predicate CallsSettled(all: seq<Event>) {
    all != [] && all[|all| - 1].Finished? && !all[|all| - 1].truncated ==>
      StartedIDs(all) == HandedOver(all) && EndedIDs(all) == HandedOver(all) && Distinct(HandedCalls(all))
  }

  lemma SettledHandsOver(r: Reader, f: Final, back: seq<Event>, all: seq<Event>)
    requires Settled(r, f) && !OmitsCall(f) && Wordless(back) && all == r.sent + f.queue + back
    requires HandedCalls(all) == f.calls
    ensures Distinct(f.calls)
    ensures StartedIDs(all) == HandedOver(all) && EndedIDs(all) == HandedOver(all)
  {
    OtherEventsKeepBooked(Calls(f.open, f.ended, r.sent + f.queue), back);
    forall id | id in f.open
      ensures f.open[id].id in f.callIDs
    {
    }
    assert OpenIDs(f.open) <= f.callIDs;
    assert ClosedIDs(f.open, f.ended) <= OpenIDs(f.open);
  }

  lemma TerminalSettlesCalls(r: Reader, truncated: bool, response: Response, history: History, stateAllowed: bool)
    requires Booked(CallsOf(r))
    ensures CallsSettled(Terminate(r, truncated, response, history, stateAllowed).sent)
  {
    hide Reconcile, Settled, StartedIDs, EndedIDs, IDsOf, Distinct, Saved, SavedOutput;
    var all := Terminate(r, truncated, response, history, stateAllowed).sent;
    if all[|all| - 1].Finished? && !all[|all| - 1].truncated {
      ReconcileSettles(r, response);
      var f := Reconcile(r, response).value;
      var usage := if response.usage.Some? then [Used(UsageOf(response.usage.value))] else [];
      var calls := if f.calls != [] then [ToolCalls(f.calls)] else [];
      var back := usage + calls + [Ending(response, f, history, stateAllowed)];
      assert all == r.sent + f.queue + back;
      assert calls != [] ==> all[|all| - 2] == ToolCalls(f.calls);
      SettledHandsOver(r, f, back, all);
    }
  }

  lemma SearchKeepsBooked(r: Reader, e: Incoming)
    requires Booked(CallsOf(r))
    ensures Booked(CallsOf(WithSearches(r, Searching(SearchesOf(r), r.places, e))))
  {
    hide Booked, Searching;
    var s := Searching(SearchesOf(r), r.places, e);
    SearchingAdds(SearchesOf(r), r.places, e);
    var added := s.events[|r.sent|..];
    assert s.events == r.sent + added;
    OtherEventsKeepBooked(CallsOf(r), added);
  }

  lemma ReceiveKeepsBooked(r: Reader, e: Incoming, history: History, stateAllowed: bool)
    requires Booked(CallsOf(r)) && Receive(r, e, history, stateAllowed).More?
    ensures Booked(CallsOf(Receive(r, e, history, stateAllowed).reader))
  {
    hide Booked, Locate, FinishCall, Searching, WithSearches, SearchesOf, Terminate;
    LocateKeepsCalls(r, e);
    var (s, place) := Locate(r, e).value;
    var t := Receive(r, e, history, stateAllowed).reader;
    match e.body
    case Delta(kind, text) =>
      if text != [] {
        OtherEventsKeepBooked(CallsOf(s), [Said(kind, text, place)]);
        assert CallsOf(t) == CallsOf(s).(events := s.sent + [Said(kind, text, place)]);
      }
    case CallAdded(id, callID, name, args) =>
      OpenKeepsBooked(CallsOf(s), id, Call(callID, name, args), place);
    case ArgsDelta(text) =>
      OtherEventsKeepBooked(CallsOf(s), [CallDelta(place, text, s.calls[e.itemID].id, s.calls[e.itemID].name)]);
    case CallDone(id, callID, name, args) => FinishKeepsBooked(CallsOf(s), s.places, id, callID, name, args);
    case SearchAdded(_, _) => SearchKeepsBooked(s, e);
    case SearchUnderWay => SearchKeepsBooked(s, e);
    case SearchDone(_, _, _, _) => SearchKeepsBooked(s, e);
    case _ =>
  }

  lemma {:induction false} StreamSettlesCalls(r: Reader, events: seq<Incoming>, k: nat, history: History,
      stateAllowed: bool)
    requires k <= |events| && Booked(CallsOf(r))
    ensures CallsSettled(Heed(r, events, k, history, stateAllowed))
    decreases |events| - k
  {
    hide Booked, Terminate, StartedIDs, EndedIDs, HandedCalls, Distinct, FinishCall, Locate;
    if k < |events| {
      var e := events[k];
      var step := Receive(r, e, history, stateAllowed);
      if step.More? {
        ReceiveKeepsBooked(r, e, history, stateAllowed);
        StreamSettlesCalls(step.reader, events, k + 1, history, stateAllowed);
      } else if e.body.Terminal? && Locate(r, e).Ok? {
        LocateKeepsCalls(r, e);
        TerminalSettlesCalls(Locate(r, e).value.0, e.body.truncated, e.body.response, history, stateAllowed);
      }
    }
  }

  lemma LocateKeepsCalls(r: Reader, e: Incoming)
    requires Locate(r, e).Ok?
    ensures CallsOf(Locate(r, e).value.0) == CallsOf(r)
  {
  }

  /** Over every stream. */
  lemma EveryStreamSettlesCalls(events: seq<Incoming>, history: History, stateAllowed: bool)
    ensures CallsSettled(Heed(NEW_READER, events, 0, history, stateAllowed))
  {
    hide CallsSettled;
    assert Booked(CallsOf(NEW_READER));
    StreamSettlesCalls(NEW_READER, events, 0, history, stateAllowed);
  }

  // ----- Opened calls that a response leaves out -----

  predicate IsCall(output: seq<OutItem>, j: nat) {
    j < |output| && output[j].body.FunctionCall?
  }

  /** The response has a call item with this item ID. */
  predicate Carries(output: seq<OutItem>, n: nat, id: string)
    requires n <= |output|
  {
    exists j :: 0 <= j < n && IsCall(output, j) && output[j].id == id
  }

  /** The response has a call item with this call ID. */
  predicate Names(output: seq<OutItem>, n: nat, callID: string)
    requires n <= |output|
  {
    exists j :: 0 <= j < n && IsCall(output, j) && output[j].body.callID == callID
  }

  /** What the loop over the terminal items knows of the calls. */
  ghost predicate Tracked(r: Reader, f: Final, output: seq<OutItem>, n: nat)
    requires n <= |output|
  {
    && (forall id :: id in f.open <==> id in r.calls || Carries(output, n, id))
    && (forall id :: id in r.calls ==> id in f.open && f.open[id].id == r.calls[id].id)
    && (forall callID :: callID in f.callIDs <==> Names(output, n, callID))
    && (forall j :: 0 <= j < n && IsCall(output, j) ==>
      output[j].id in f.open && f.open[output[j].id].id == output[j].body.callID)
    && (forall j, k :: 0 <= j < k < n && IsCall(output, j) && IsCall(output, k) ==>
      output[j].body.callID != output[k].body.callID)
  }

  lemma OneMoreCall(output: seq<OutItem>, n: nat)
    requires n < |output| && output[n].body.FunctionCall?
    ensures forall id :: Carries(output, n + 1, id) <==> Carries(output, n, id) || id == output[n].id
    ensures forall callID ::
      Names(output, n + 1, callID) <==> Names(output, n, callID) || callID == output[n].body.callID
  {
    hide Carries, Names;
    forall id
      ensures Carries(output, n + 1, id) <==> Carries(output, n, id) || id == output[n].id
    {
      OneMoreCarried(output, n, id);
    }
    forall callID
      ensures Names(output, n + 1, callID) <==> Names(output, n, callID) || callID == output[n].body.callID
    {
      OneMoreNamed(output, n, callID);
    }
  }

  lemma OneMoreCarried(output: seq<OutItem>, n: nat, id: string)
    requires n < |output| && output[n].body.FunctionCall?
    ensures Carries(output, n + 1, id) <==> Carries(output, n, id) || id == output[n].id
  {
    assert IsCall(output, n);
    if Carries(output, n + 1, id) {
      var j :| 0 <= j < n + 1 && IsCall(output, j) && output[j].id == id;
      assert j < n ==> Carries(output, n, id);
    }
    if Carries(output, n, id) {
      var j :| 0 <= j < n && IsCall(output, j) && output[j].id == id;
      assert Carries(output, n + 1, id);
    }
  }

  lemma OneMoreNamed(output: seq<OutItem>, n: nat, callID: string)
    requires n < |output| && output[n].body.FunctionCall?
    ensures Names(output, n + 1, callID) <==> Names(output, n, callID) || callID == output[n].body.callID
  {
    assert IsCall(output, n);
    if Names(output, n + 1, callID) {
      var j :| 0 <= j < n + 1 && IsCall(output, j) && output[j].body.callID == callID;
      assert j < n ==> Names(output, n, callID);
    }
    if Names(output, n, callID) {
      var j :| 0 <= j < n && IsCall(output, j) && output[j].body.callID == callID;
      assert Names(output, n + 1, callID);
    }
  }

  lemma OneCallOpens(f: Final, item: OutItem)
    requires item.body.FunctionCall? && OneCall(f, item).Ok?
    ensures var b, g := item.body, OneCall(f, item).value;
      && g.open == f.open[item.id := Call(b.callID, b.name, b.args)] && g.callIDs == f.callIDs + {b.callID}
      && b.callID !in f.callIDs && (item.id in f.open ==> f.open[item.id].id == b.callID)
  {
    hide FinishEvents;
  }

  lemma CallIsTracked(r: Reader, f: Final, output: seq<OutItem>, n: nat)
    requires n < |output| && output[n].body.FunctionCall? && Tracked(r, f, output, n) && OneCall(f, output[n]).Ok?
    ensures Tracked(r, OneCall(f, output[n]).value, output, n + 1)
  {
    hide OneCall, Carries, Names;
    OneCallOpens(f, output[n]);
    OneMoreCall(output, n);
    forall j: nat | j < n && IsCall(output, j)
      ensures output[j].body.callID != output[n].body.callID
    {
      CallIsNamed(output, n, j);
    }
  }

  lemma CallIsNamed(output: seq<OutItem>, n: nat, j: nat)
    requires j < n <= |output| && IsCall(output, j)
    ensures Names(output, n, output[j].body.callID)
  {
  }

  lemma OtherItemIsTracked(r: Reader, f: Final, g: Final, output: seq<OutItem>, n: nat)
    requires n < |output| && !output[n].body.FunctionCall? && Tracked(r, f, output, n)
    requires g.open == f.open && g.callIDs == f.callIDs
    ensures Tracked(r, g, output, n + 1)
  {
    forall id | true
      ensures Carries(output, n + 1, id) <==> Carries(output, n, id)
    {
    }
    forall callID | true
      ensures Names(output, n + 1, callID) <==> Names(output, n, callID)
    {
    }
  }

  lemma {:induction false} PartsKeepCalls(r: Reader, f: Final, item: OutItem, index: nat, n: nat)
    requires item.body.Words? && n <= |item.body.parts| && ItemParts(r, f, item, index, n).Ok?
    ensures SameCalls(f, ItemParts(r, f, item, index, n).value)
  {
    if n > 0 {
      PartsKeepCalls(r, f, item, index, n - 1);
    }
  }

  lemma ItemIsTracked(r: Reader, f: Final, status: Status, output: seq<OutItem>, n: nat)
    requires n < |output| && status.Completed? && Tracked(r, f, output, n) && OneItem(r, f, status, output[n], n).Ok?
    ensures Tracked(r, OneItem(r, f, status, output[n], n).value, output, n + 1)
  {
    hide Tracked, OneCall, ItemParts;
    var entered, g := Enter(f, output[n], n).value, OneItem(r, f, status, output[n], n).value;
    EnteredIsTracked(r, f, entered, output, n);
    match output[n].body
    case Words(_, parts) =>
      PartsKeepCalls(r, entered, output[n], n, |parts|);
      OtherItemIsTracked(r, entered, g, output, n);
    case FunctionCall(_, _, _) => CallIsTracked(r, entered, output, n);
    case _ => OtherItemIsTracked(r, entered, g, output, n);
  }

  lemma EnteredIsTracked(r: Reader, f: Final, g: Final, output: seq<OutItem>, n: nat)
    requires n <= |output| && Tracked(r, f, output, n) && SameCalls(f, g)
    ensures Tracked(r, g, output, n)
  {
  }

  lemma {:induction false} ItemsAreTracked(r: Reader, response: Response, n: nat)
    requires n <= |response.output| && response.status.Completed? && Items(r, response, n).Ok?
    ensures Tracked(r, Items(r, response, n).value, response.output, n)
  {
    hide Tracked, OneItem;
    if n == 0 {
      NothingIsTracked(r, response.output);
    } else {
      ItemsAreTracked(r, response, n - 1);
      ItemIsTracked(r, Items(r, response, n - 1).value, response.status, response.output, n - 1);
    }
  }

  lemma NothingIsTracked(r: Reader, output: seq<OutItem>)
    ensures Tracked(r, StartFinal(r), output, 0)
  {
  }

  /** A completed response is refused for an omitted call exactly when the call ID of some
      opened item is not among its own. */
  lemma CallsRefusedIff(r: Reader, response: Response)
    requires response.status.Completed? && Items(r, response, |response.output|).Ok?
    ensures OmitsCall(Items(r, response, |response.output|).value) <==>
      exists id :: id in r.calls && !Names(response.output, |response.output|, r.calls[id].id)
  {
    var output, n := response.output, |response.output|;
    ItemsAreTracked(r, response, n);
    var f := Items(r, response, n).value;
    if OmitsCall(f) {
      var id :| id in f.open && f.open[id].id !in f.callIDs;
      assert !Names(output, n, f.open[id].id);
    }
  }

  /** An accepted completed response leaves out an item that was opened exactly when
      another of its items carries that item's call ID. */
  lemma LeftOutIff(r: Reader, response: Response, id: string)
    requires response.status.Completed? && Items(r, response, |response.output|).Ok? && id in r.calls
    requires !OmitsCall(Items(r, response, |response.output|).value)
    ensures !Carries(response.output, |response.output|, id) <==>
      exists j: nat ::
        && IsCall(response.output, j)
        && response.output[j].id != id
        && response.output[j].body.callID == r.calls[id].id
  {
    var output, n := response.output, |response.output|;
    ItemsAreTracked(r, response, n);
    var f := Items(r, response, n).value;
    if Carries(output, n, id) {
      var k :| 0 <= k < n && IsCall(output, k) && output[k].id == id;
      assert output[k].body.callID == r.calls[id].id;
    } else {
      assert f.open[id].id in f.callIDs;
      assert Names(output, n, r.calls[id].id);
    }
  }

  function Opening(id: string, name: string, args: Args): Incoming {
    Incoming("", None, 0, CallAdded(id, "x", name, args))
  }

  function AloneResponse(name: string, args: Args, native: Input): Response {
    Response("r", Completed, false, [OutItem("a", FunctionCall("x", name, args), native)], None, "")
  }

  lemma TwoOpened(name: string, args: Args, history: History, stateAllowed: bool) returns (r: Reader, s: Reader)
    requires name != ""
    ensures Receive(NEW_READER, Opening("a", name, args), history, stateAllowed) == More(r)
    ensures Receive(r, Opening("b", name, args), history, stateAllowed) == More(s)
    ensures s.streamed == map[] && s.anonymous == {} && s.places == map[] && "a" != "b"
    ensures s.calls == map["a" := Call("x", name, args), "b" := Call("x", name, args)]
  {
    assert "a" != "b" by {
      assert "a"[0] != "b"[0];
    }
    r := Receive(NEW_READER, Opening("a", name, args), history, stateAllowed).reader;
    s := Receive(r, Opening("b", name, args), history, stateAllowed).reader;
  }

  /** It happens: two items are opened with one call ID, and the completed response is
      accepted with the first of them alone. */
  lemma SharedCallIDHidesAnItem(name: string, args: Args, native: Input, history: History, stateAllowed: bool)
    requires name != "" && !BlankArgs(args)
    ensures var response := AloneResponse(name, args, native);
      var last := Incoming("", None, 0, Terminal(false, response));
      var events := [Opening("a", name, args), Opening("b", name, args), last];
      var all := Heed(NEW_READER, events, 0, history, stateAllowed);
      && all != [] && all[|all| - 1].Finished? && HandedCalls(all) == [Call("x", name, args)]
      && !Carries(response.output, 1, "b")
  {
    hide Saved, SavedOutput, Reconcile, Receive, Heed, Carries, HandedCalls;
    var response := AloneResponse(name, args, native);
    var last := Incoming("", None, 0, Terminal(false, response));
    var r, s := TwoOpened(name, args, history, stateAllowed);
    var all := SharedCallEnds(s, name, args, native, history, stateAllowed);
    HeedsThree(Opening("a", name, args), Opening("b", name, args), last, r, s, all, history, stateAllowed);
    OtherIDIsNotCarried(response.output);
  }

  lemma OtherIDIsNotCarried(output: seq<OutItem>)
    requires |output| == 1 && output[0].id == "a"
    ensures !Carries(output, 1, "b")
  {
    assert "a"[0] != "b"[0];
  }

  lemma HeedsThree(first: Incoming, second: Incoming, last: Incoming, r: Reader, s: Reader, all: seq<Event>,
      history: History, stateAllowed: bool)
    requires Receive(NEW_READER, first, history, stateAllowed) == More(r)
    requires Receive(r, second, history, stateAllowed) == More(s)
    requires Receive(s, last, history, stateAllowed) == Stop(all)
    ensures Heed(NEW_READER, [first, second, last], 0, history, stateAllowed) == all
  {
    hide Receive;
    assert Heed(s, [first, second, last], 2, history, stateAllowed) == all;
    assert Heed(r, [first, second, last], 1, history, stateAllowed) == all;
  }

  lemma SharedCallEnds(s: Reader, name: string, args: Args, native: Input, history: History, stateAllowed: bool)
      returns (all: seq<Event>)
    requires name != "" && !BlankArgs(args) && s.streamed == map[] && s.anonymous == {} && s.places == map[]
    requires s.calls == map["a" := Call("x", name, args), "b" := Call("x", name, args)] && "a" != "b"
    ensures var last := Incoming("", None, 0, Terminal(false, AloneResponse(name, args, native)));
      Receive(s, last, history, stateAllowed) == Stop(all)
    ensures all != [] && all[|all| - 1].Finished? && HandedCalls(all) == [Call("x", name, args)]
  {
    hide Saved, SavedOutput, Reconcile, Receive, Terminate, Ending, HandedCalls;
    var response := AloneResponse(name, args, native);
    SharedCallIsAccepted(s, name, args, native);
    var f := Reconcile(s, response).value;
    TerminalIsTerminated(s, response, history, stateAllowed);
    all := CallsEnd(s, response, f, history, stateAllowed);
  }

  lemma TerminalIsTerminated(s: Reader, response: Response, history: History, stateAllowed: bool)
    ensures Receive(s, Incoming("", None, 0, Terminal(false, response)), history, stateAllowed)
         == Terminate(s, false, response, history, stateAllowed)
  {
    hide Terminate;
  }

  lemma CallsEnd(s: Reader, response: Response, f: Final, history: History, stateAllowed: bool)
      returns (all: seq<Event>)
    requires response.id != "" && response.status.Completed? && !response.failed && response.usage.None?
    requires Reconcile(s, response) == Ok(f) && f.calls != []
    ensures Terminate(s, false, response, history, stateAllowed) == Stop(all)
    ensures all != [] && all[|all| - 1].Finished? && HandedCalls(all) == f.calls
  {
    hide Saved, SavedOutput, Reconcile;
    var front, last := s.sent + f.queue, Ending(response, f, history, stateAllowed);
    all := front + [ToolCalls(f.calls)] + [last];
    assert front + [] == front;
    assert all[|all| - 2] == ToolCalls(f.calls) && all[|all| - 1] == last;
  }

  lemma SharedCallIsAccepted(s: Reader, name: string, args: Args, native: Input)
    requires name != "" && !BlankArgs(args) && s.streamed == map[] && s.anonymous == {} && s.places == map[]
    requires s.calls == map["a" := Call("x", name, args), "b" := Call("x", name, args)] && "a" != "b"
    ensures var response := AloneResponse(name, args, native);
      Reconcile(s, response).Ok? && Reconcile(s, response).value.calls == [Call("x", name, args)]
  {
    var response := AloneResponse(name, args, native);
    assert Items(s, response, 0) == Ok(StartFinal(s));
    assert Items(s, response, 1) == OneItem(s, StartFinal(s), Completed, response.output[0], 0);
  }
}
