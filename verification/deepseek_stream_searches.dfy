/** Hosted searches in a streamed response: each is announced once and finished at most once,
    and exactly those that a finished response left open can be told. */
module DeepSeekStreamSearches {
  import opened Wrappers
  import opened DeepSeekHistory
  import opened DeepSeekStream
  import opened DeepSeekStreamLaws

  predicate IsStart(e: Event, id: string) { e.SearchStart? && e.id == id }

  predicate IsEnd(e: Event, id: string) { e.SearchEnd? && e.id == id }

  /** How often search `id` was announced. */
  function Starts(events: seq<Event>, id: string): nat {
    if events == [] then 0
    else Starts(events[..|events| - 1], id) + if IsStart(events[|events| - 1], id) then 1 else 0
  }

  /** How often its result was passed on. */
  function Ends(events: seq<Event>, id: string): nat {
    if events == [] then 0
    else Ends(events[..|events| - 1], id) + if IsEnd(events[|events| - 1], id) then 1 else 0
  }

  /** Everything that `before` gave is given by `action`. */
  predicate Tells(action: Action, before: Action) {
    && (before.kind != "" ==> action.kind != "")
    && (before.query != "" ==> action.query != "")
    && (before.url != "" ==> action.url != "")
    && (before.pattern != "" ==> action.pattern != "")
    && (before.queries.Some? ==> action.queries.Some?)
    && (before.sources.Some? ==> action.sources.Some?)
  }

  /** A result comes behind its announcement and tells at least as much of the search. */
  predicate Announced(events: seq<Event>, j: nat)
    requires j < |events|
  {
    events[j].SearchEnd? ==>
      exists i :: 0 <= i < j && IsStart(events[i], events[j].id) && Tells(events[j].action, events[i].action)
  }

  predicate InOrder(events: seq<Event>) {
    forall j :: 0 <= j < |events| ==> Announced(events, j)
  }

  /** The books of the searches are what was passed on. */
  ghost predicate Kept(s: Searches) {
    && s.done <= s.known.Keys
    && (forall id :: Starts(s.events, id) == if id in s.known then 1 else 0)
    && (forall id :: Ends(s.events, id) == if id in s.done then 1 else 0)
    && (forall i :: 0 <= i < |s.events| && s.events[i].SearchStart? ==>
          s.events[i].id in s.known && Tells(s.known[s.events[i].id], s.events[i].action))
    && InOrder(s.events)
  }

  lemma OneMore(events: seq<Event>, e: Event, id: string)
    ensures Starts(events + [e], id) == Starts(events, id) + if IsStart(e, id) then 1 else 0
    ensures Ends(events + [e], id) == Ends(events, id) + if IsEnd(e, id) then 1 else 0
  {
    assert (events + [e])[..|events + [e]| - 1] == events;
  }

  lemma {:induction false} StartIsThere(events: seq<Event>, id: string)
    requires Starts(events, id) > 0
    ensures exists i :: 0 <= i < |events| && IsStart(events[i], id)
  {
    var n := |events| - 1;
    if IsStart(events[n], id) {
    } else {
      StartIsThere(events[..n], id);
      var i :| 0 <= i < |events[..n]| && IsStart(events[..n][i], id);
      assert IsStart(events[i], id);
    }
  }

  /** Appending an event keeps the order when that event is announced itself. */
  lemma OrderGrows(events: seq<Event>, e: Event)
    requires InOrder(events) && Announced(events + [e], |events|)
    ensures InOrder(events + [e])
  {
    forall j: nat | j < |events + [e]|
      ensures Announced(events + [e], j)
    {
      if j < |events| {
        assert Announced(events, j);
        if events[j].SearchEnd? {
          var i :| 0 <= i < j && IsStart(events[i], events[j].id) && Tells(events[j].action, events[i].action);
          assert IsStart((events + [e])[i], (events + [e])[j].id);
        }
      }
    }
  }

  lemma OtherEventKeeps(s: Searches, e: Event)
    requires Kept(s) && !e.SearchStart? && !e.SearchEnd?
    ensures Kept(s.(events := s.events + [e]))
  {
    hide Starts, Ends, Tells, InOrder;
    forall id: string
      ensures Starts(s.events + [e], id) == Starts(s.events, id) && Ends(s.events + [e], id) == Ends(s.events, id)
    {
      OneMore(s.events, e, id);
    }
    OrderGrows(s.events, e);
  }

  predicate NoSearches(events: seq<Event>) {
    forall e :: e in events ==> !e.SearchStart? && !e.SearchEnd?
  }

  lemma {:induction false} OtherEventsKeep(s: Searches, added: seq<Event>)
    requires Kept(s) && NoSearches(added)
    ensures Kept(s.(events := s.events + added))
  {
    hide Kept;
    if added == [] {
      assert s.events + [] == s.events;
    } else {
      var n := |added| - 1;
      OtherEventsKeep(s, added[..n]);
      assert added[n] in added;
      OtherEventKeeps(s.(events := s.events + added[..n]), added[n]);
      assert s.events + added == s.events + added[..n] + [added[n]];
    }
  }

  lemma FilledTells(action: Action, before: Action)
    ensures Tells(Filled(action, before), before) && Tells(Filled(action, before), action)
  {
  }

  lemma TellsOn(a: Action, b: Action, c: Action)
    requires Tells(a, b) && Tells(b, c)
    ensures Tells(a, c)
  {
  }

  /** Hearing again of a search that is known. */
  lemma KnownKeeps(s: Searches, id: string, full: Action)
    requires Kept(s) && id in s.known && Tells(full, s.known[id])
    ensures Kept(s.(known := s.known[id := full]))
  {
    hide Starts, Ends, Tells, InOrder;
    forall i | 0 <= i < |s.events| && s.events[i].SearchStart?
      ensures Tells(s.known[id := full][s.events[i].id], s.events[i].action)
    {
      if s.events[i].id == id {
        TellsOn(full, s.known[id], s.events[i].action);
      }
    }
  }

  lemma NewKeeps(s: Searches, id: string, full: Action, place: Option<Place>)
    requires Kept(s) && id !in s.known
    ensures Kept(Searches(s.known[id := full], s.done, s.events + [SearchStart(place, id, full)]))
  {
    hide Starts, Ends, InOrder;
    var e := SearchStart(place, id, full);
    forall other: string
      ensures Starts(s.events + [e], other) == Starts(s.events, other) + if other == id then 1 else 0
      ensures Ends(s.events + [e], other) == Ends(s.events, other)
    {
      OneMore(s.events, e, other);
    }
    OrderGrows(s.events, e);
  }

  lemma NoteKeeps(s: Searches, places: map<string, int>, id: string, action: Action)
    requires Kept(s)
    ensures Kept(NoteSearch(s, places, id, action))
  {
    hide Kept, Filled, Tells;
    var full := Filled(action, KnownAction(s, id));
    if id in s.known {
      FilledTells(action, s.known[id]);
      KnownKeeps(s, id, full);
      assert s.events + [] == s.events;
    } else {
      NewKeeps(s, id, full, PlaceFor(places, id));
    }
  }

  lemma EndKeeps(s: Searches, id: string, place: Option<Place>, status: string, result: SearchResult)
    requires Kept(s) && id in s.known && id !in s.done
    ensures Kept(Searches(s.known, s.done + {id}, s.events + [SearchEnd(place, id, s.known[id], status, result)]))
  {
    hide Starts, Ends, InOrder, Tells;
    var e := SearchEnd(place, id, s.known[id], status, result);
    forall other: string
      ensures Starts(s.events + [e], other) == Starts(s.events, other)
      ensures Ends(s.events + [e], other) == Ends(s.events, other) + if other == id then 1 else 0
    {
      OneMore(s.events, e, other);
    }
    StartIsThere(s.events, id);
    var i :| 0 <= i < |s.events| && IsStart(s.events[i], id);
    assert IsStart((s.events + [e])[i], id) && Tells(e.action, (s.events + [e])[i].action);
    OrderGrows(s.events, e);
  }

  /** Finishing a search announces it if need be, and passes its result on once. */
  lemma FinishSearchKeeps(s: Searches, places: map<string, int>, id: string, status: string, action: Action,
      error: Option<SearchError>)
    requires Kept(s)
    ensures var t := FinishSearch(s, places, id, status, action, error);
      Kept(t) && t.known.Keys == s.known.Keys + {id} && t.done == s.done + {id}
  {
    hide Kept, Filled, ResultOf, PlaceFor;
    var t := NoteSearch(s, places, id, action);
    NoteKeeps(s, places, id, action);
    if id in t.done {
      assert s.done + {id} == s.done;
    } else {
      EndKeeps(t, id, PlaceFor(places, id), status, ResultOf(t.known[id], status, error));
    }
    KeptIsKnown(FinishSearch(s, places, id, status, action, error));
  }

  lemma KeptIsKnown(s: Searches)
    requires s.done <= s.known.Keys || Kept(s)
    ensures s.done <= s.known.Keys
  {
  }

  lemma FinishSearchAfter(front: seq<Event>, s: Searches, places: map<string, int>, id: string, status: string,
      action: Action, error: Option<SearchError>)
    ensures var t := FinishSearch(s, places, id, status, action, error);
      FinishSearch(s.(events := front + s.events), places, id, status, action, error) ==
        t.(events := front + t.events)
  {
    hide Filled, ResultOf, PlaceFor;
    var noted := NoteSearch(s, places, id, action);
    var later := NoteSearch(s.(events := front + s.events), places, id, action);
    assert later.events == front + noted.events;
  }

  // ----- The terminal response -----

  predicate IsSearch(output: seq<OutItem>, j: nat) {
    j < |output| && output[j].body.Search?
  }

  /** The first `n` items of a response contain search `id`. */
  predicate Lists(output: seq<OutItem>, n: nat, id: string)
    requires n <= |output|
  {
    exists j :: 0 <= j < n && IsSearch(output, j) && output[j].id == id
  }

  function FinalSearches(r: Reader, f: Final): Searches { Searches(f.searches, f.searched, r.sent + f.queue) }

  /** What the loop over the terminal items knows of the searches. */
  ghost predicate Followed(r: Reader, f: Final, output: seq<OutItem>, n: nat)
    requires n <= |output|
  {
    && Kept(FinalSearches(r, f))
    && (forall id :: id in f.searches <==> id in r.searches || Lists(output, n, id))
    && (forall id :: id in f.searched <==> id in r.searched || Lists(output, n, id))
  }

  lemma OneMoreListed(output: seq<OutItem>, n: nat, id: string)
    requires n < |output|
    ensures Lists(output, n + 1, id) <==> Lists(output, n, id) || (IsSearch(output, n) && output[n].id == id)
  {
    if Lists(output, n + 1, id) {
      var j :| 0 <= j < n + 1 && IsSearch(output, j) && output[j].id == id;
      assert j < n ==> Lists(output, n, id);
    }
    if Lists(output, n, id) {
      var j :| 0 <= j < n && IsSearch(output, j) && output[j].id == id;
      assert Lists(output, n + 1, id);
    }
  }

  lemma SearchFollows(r: Reader, f: Final, output: seq<OutItem>, n: nat)
    requires n < |output| && output[n].body.Search? && Followed(r, f, output, n) && OneSearch(f, output[n]).Ok?
    ensures Followed(r, OneSearch(f, output[n]).value, output, n + 1)
  {
    hide Kept, Lists, FinishSearch;
    var b, id := output[n].body, output[n].id;
    var s := Searches(f.searches, f.searched, f.queue);
    FinishSearchAfter(r.sent, s, f.places, id, b.status, b.action, b.error);
    FinishSearchKeeps(s.(events := r.sent + f.queue), f.places, id, b.status, b.action, b.error);
    forall other: string
      ensures Lists(output, n + 1, other) <==> Lists(output, n, other) || other == id
    {
      OneMoreListed(output, n, other);
      assert IsSearch(output, n);
    }
  }

  predicate SameSearches(f: Final, g: Final) {
    f.searches == g.searches && f.searched == g.searched
  }

  lemma OtherItemFollows(r: Reader, f: Final, g: Final, added: seq<Event>, output: seq<OutItem>, n: nat)
    requires n < |output| && !output[n].body.Search? && Followed(r, f, output, n)
    requires SameSearches(f, g) && g.queue == f.queue + added && NoSearches(added)
    ensures Followed(r, g, output, n + 1)
  {
    hide Kept, Lists;
    OtherEventsKeep(FinalSearches(r, f), added);
    assert r.sent + f.queue + added == r.sent + g.queue;
    forall id: string
      ensures Lists(output, n + 1, id) <==> Lists(output, n, id)
    {
      OneMoreListed(output, n, id);
    }
  }

  lemma {:induction false} PartsAreNoSearches(r: Reader, f: Final, item: OutItem, index: nat, n: nat)
    requires item.body.Words? && n <= |item.body.parts| && ItemParts(r, f, item, index, n).Ok?
    ensures var g := ItemParts(r, f, item, index, n).value;
      SameSearches(f, g) && f.queue <= g.queue && NoSearches(g.queue[|f.queue|..])
  {
    hide OnePart;
    if n > 0 {
      PartsAreNoSearches(r, f, item, index, n - 1);
      var g := ItemParts(r, f, item, index, n - 1).value;
      PartIsNoSearch(r, g, item.body.kind, Place(item.id, index, n - 1), item.body.parts[n - 1]);
      var h := ItemParts(r, f, item, index, n).value;
      assert h.queue[|f.queue|..] == g.queue[|f.queue|..] + h.queue[|g.queue|..];
    }
  }

  lemma PartIsNoSearch(r: Reader, f: Final, kind: Kind, place: Place, part: Option<Runes>)
    requires OnePart(r, f, kind, place, part).Ok?
    ensures var g := OnePart(r, f, kind, place, part).value;
      SameSearches(f, g) && f.queue <= g.queue && NoSearches(g.queue[|f.queue|..])
  {
    hide OnePart;
    PartAdds(r, f, kind, place, part);
  }

  lemma CallIsNoSearch(f: Final, item: OutItem)
    requires item.body.FunctionCall? && OneCall(f, item).Ok?
    ensures var g := OneCall(f, item).value;
      SameSearches(f, g) && f.queue <= g.queue && NoSearches(g.queue[|f.queue|..])
  {
    hide PlaceFor;
    var b, g := item.body, OneCall(f, item).value;
    var more := FinishEvents(Calls(f.open, f.ended, f.queue), PlaceFor(f.places, item.id), item.id, b.callID, b.name);
    assert g.queue[|f.queue|..] == more;
  }

  lemma ItemFollows(r: Reader, f: Final, status: Status, output: seq<OutItem>, n: nat)
    requires n < |output| && Followed(r, f, output, n) && OneItem(r, f, status, output[n], n).Ok?
    ensures Followed(r, OneItem(r, f, status, output[n], n).value, output, n + 1)
  {
    hide Followed, OneCall, OneSearch, ItemParts;
    var entered, g := Enter(f, output[n], n).value, OneItem(r, f, status, output[n], n).value;
    match output[n].body
    case Words(_, parts) =>
      PartsAreNoSearches(r, entered, output[n], n, |parts|);
      OtherItemFollows(r, f, g, g.queue[|f.queue|..], output, n);
    case FunctionCall(_, _, _) =>
      if !status.Incomplete? {
        CallIsNoSearch(entered, output[n]);
      }
      OtherItemFollows(r, f, g, g.queue[|f.queue|..], output, n);
    case Search(_, _, _) =>
      EnteredFollows(r, f, entered, output, n);
      SearchFollows(r, entered, output, n);
    case _ =>
  }

  lemma EnteredFollows(r: Reader, f: Final, g: Final, output: seq<OutItem>, n: nat)
    requires n <= |output| && Followed(r, f, output, n) && SameSearches(f, g) && f.queue == g.queue
    ensures Followed(r, g, output, n)
  {
    hide Kept, Lists;
  }

  lemma {:induction false} ItemsFollow(r: Reader, response: Response, n: nat)
    requires n <= |response.output| && Kept(SearchesOf(r)) && Items(r, response, n).Ok?
    ensures Followed(r, Items(r, response, n).value, response.output, n)
  {
    hide OneItem, Kept, Followed;
    if n == 0 {
      StartFollows(r, response.output);
    } else {
      ItemsFollow(r, response, n - 1);
      ItemFollows(r, Items(r, response, n - 1).value, response.status, response.output, n - 1);
    }
  }

  lemma StartFollows(r: Reader, output: seq<OutItem>)
    requires Kept(SearchesOf(r))
    ensures Followed(r, StartFinal(r), output, 0)
  {
    hide Kept;
    assert r.sent + [] == r.sent;
  }

  lemma ChannelIsNoSearch(r: Reader, f: Final, kind: Kind)
    requires Channel(r, f, kind).Ok?
    ensures var g := Channel(r, f, kind).value;
      SameSearches(f, g) && f.queue <= g.queue && NoSearches(g.queue[|f.queue|..])
  {
  }

  /** The books of an accepted response, and everything it passes on. */
  lemma ReconcileFollows(r: Reader, response: Response)
    requires Kept(SearchesOf(r)) && Reconcile(r, response).Ok?
    ensures Followed(r, Reconcile(r, response).value, response.output, |response.output|)
  {
    hide Kept, Items, Channel, OmitsCall, OmitsPart, Lists;
    var n := |response.output|;
    ItemsFollow(r, response, n);
    var f := Items(r, response, n).value;
    var g := Channel(r, f, Thought).value;
    var h := Channel(r, g, Spoken).value;
    ChannelIsNoSearch(r, f, Thought);
    ChannelIsNoSearch(r, g, Spoken);
    QuietFollows(r, f, g, response.output, n);
    QuietFollows(r, g, h, response.output, n);
  }

  lemma QuietFollows(r: Reader, f: Final, g: Final, output: seq<OutItem>, n: nat)
    requires n <= |output| && Followed(r, f, output, n)
    requires SameSearches(f, g) && f.queue <= g.queue && NoSearches(g.queue[|f.queue|..])
    ensures Followed(r, g, output, n)
  {
    hide Kept, Lists;
    var added := g.queue[|f.queue|..];
    OtherEventsKeep(FinalSearches(r, f), added);
    assert r.sent + f.queue + added == r.sent + g.queue;
  }

  /** Every search was announced at most once and its result passed on at most once, behind
      the announcement. */
  ghost predicate OnceEach(all: seq<Event>) {
    && (forall id :: Ends(all, id) <= Starts(all, id) <= 1)
    && InOrder(all)
  }

  lemma KeptIsOnce(s: Searches)
    requires Kept(s)
    ensures OnceEach(s.events)
  {
    hide Starts, Ends, InOrder;
  }

  /** What a finished response settled: the searches it lists, and those that were settled
      before. */
  ghost predicate SearchesEnd(streamed: seq<Event>, all: seq<Event>, output: seq<OutItem>) {
    forall id ::
      && Starts(all, id) == (if Starts(streamed, id) > 0 || Lists(output, |output|, id) then 1 else 0)
      && Ends(all, id) == (if Ends(streamed, id) > 0 || Lists(output, |output|, id) then 1 else 0)
  }

  lemma FollowedEnds(r: Reader, f: Final, all: seq<Event>, output: seq<OutItem>)
    requires Kept(SearchesOf(r)) && Followed(r, f, output, |output|)
    requires Kept(FinalSearches(r, f).(events := all))
    ensures SearchesEnd(r.sent, all, output)
  {
    hide Starts, Ends, InOrder, Lists;
  }

  lemma TerminalSettlesSearches(r: Reader, truncated: bool, response: Response, history: History, stateAllowed: bool)
    requires Kept(SearchesOf(r))
    ensures var all := Terminate(r, truncated, response, history, stateAllowed).sent;
      && OnceEach(all)
      && all != [] && (all[|all| - 1].Finished? ==> SearchesEnd(r.sent, all, response.output))
  {
    hide Reconcile, Kept, OnceEach, Followed, SearchesEnd, Saved, SavedOutput;
    var all := Terminate(r, truncated, response, history, stateAllowed).sent;
    if all[|all| - 1].Finished? {
      ReconcileFollows(r, response);
      var f := Reconcile(r, response).value;
      var back := Closings(response, f) + [Ending(response, f, history, stateAllowed)];
      assert all == r.sent + f.queue + back;
      ClosingsSettleSearches(r, f, response, back, all);
    } else {
      assert all == r.sent + [all[|all| - 1]];
      OtherEventKeeps(SearchesOf(r), all[|all| - 1]);
      KeptIsOnce(SearchesOf(r).(events := all));
    }
  }

  lemma ClosingsSettleSearches(r: Reader, f: Final, response: Response, back: seq<Event>, all: seq<Event>)
    requires Kept(SearchesOf(r)) && Followed(r, f, response.output, |response.output|)
    requires |back| > 0 && back[..|back| - 1] == Closings(response, f) && back[|back| - 1].Finished?
    requires all == r.sent + f.queue + back
    ensures OnceEach(all) && SearchesEnd(r.sent, all, response.output)
  {
    hide Kept, OnceEach, Followed, SearchesEnd, Closings, NoSearches;
    FollowedIsKept(r, f, response.output);
    ClosingsAreNoSearches(response, f, back);
    OtherEventsKeep(FinalSearches(r, f), back);
    KeptIsOnce(FinalSearches(r, f).(events := all));
    FollowedEnds(r, f, all, response.output);
  }

  lemma ClosingsAreNoSearches(response: Response, f: Final, back: seq<Event>)
    requires |back| > 0 && back[..|back| - 1] == Closings(response, f) && back[|back| - 1].Finished?
    ensures NoSearches(back)
  {
    var last := back[|back| - 1];
    assert back == Closings(response, f) + [last];
  }

  lemma FollowedIsKept(r: Reader, f: Final, output: seq<OutItem>)
    requires Followed(r, f, output, |output|)
    ensures Kept(FinalSearches(r, f))
  {
  }

  // ----- The whole stream -----

  lemma LocateKeepsSearches(r: Reader, e: Incoming)
    requires Locate(r, e).Ok?
    ensures SearchesOf(Locate(r, e).value.0) == SearchesOf(r)
  {
  }

  lemma SentIsKept(r: Reader, t: Reader, added: seq<Event>)
    requires Kept(SearchesOf(r)) && NoSearches(added)
    requires t.searches == r.searches && t.searched == r.searched && t.sent == r.sent + added
    ensures Kept(SearchesOf(t))
  {
    hide Kept;
    OtherEventsKeep(SearchesOf(r), added);
  }

  lemma ReceiveKeepsSearches(r: Reader, e: Incoming, history: History, stateAllowed: bool)
    requires Kept(SearchesOf(r)) && Receive(r, e, history, stateAllowed).More?
    ensures Kept(SearchesOf(Receive(r, e, history, stateAllowed).reader))
  {
    hide Kept, Locate, FinishCall, Searching, WithSearches, SearchesOf, Terminate;
    LocateKeepsSearches(r, e);
    var (s, place) := Locate(r, e).value;
    var t := Receive(r, e, history, stateAllowed).reader;
    match e.body
    case Delta(kind, text) => SentIsKept(s, t, if text == [] then [] else [Said(kind, text, place)]);
    case CallAdded(id, callID, name, args) => SentIsKept(s, t, [CallStart(place, callID, name)]);
    case ArgsDelta(text) =>
      SentIsKept(s, t, [CallDelta(place, text, s.calls[e.itemID].id, s.calls[e.itemID].name)]);
    case CallDone(id, callID, name, args) => DoneIsKept(s, t, id, callID, name, args);
    case SearchAdded(_, _) => SearchingKeeps(s, e);
    case SearchUnderWay => SearchingKeeps(s, e);
    case SearchDone(_, _, _, _) => SearchingKeeps(s, e);
    case _ =>
  }

  lemma SearchingKeeps(r: Reader, e: Incoming)
    requires Kept(SearchesOf(r))
    ensures Kept(SearchesOf(WithSearches(r, Searching(SearchesOf(r), r.places, e))))
  {
    hide Kept, NoteSearch, FinishSearch;
    var s := SearchesOf(r);
    match e.body
    case SearchAdded(id, action) => NoteKeeps(s, r.places, id, action);
    case SearchUnderWay => NoteKeeps(s, r.places, e.itemID, BLANK_ACTION);
    case SearchDone(id, status, action, error) => FinishSearchKeeps(s, r.places, id, status, action, error);
    case _ =>
  }

  lemma DoneIsKept(s: Reader, t: Reader, id: string, callID: string, name: string, args: Args)
    requires Kept(SearchesOf(s))
    requires var done := FinishCall(Calls(s.calls, s.ended, s.sent), s.places, id, callID, name, args);
      done.Ok? && t == s.(calls := done.value.open, ended := done.value.ended, sent := done.value.events)
    ensures Kept(SearchesOf(t))
  {
    hide Kept, PlaceFor;
    SentIsKept(s, t, FinishEvents(Calls(s.calls, s.ended, s.sent), PlaceFor(s.places, id), id, callID, name));
  }

  lemma StopSettlesSearches(r: Reader, e: Incoming, history: History, stateAllowed: bool)
    requires Kept(SearchesOf(r)) && Receive(r, e, history, stateAllowed).Stop?
    ensures var all := Receive(r, e, history, stateAllowed).sent;
      && OnceEach(all)
      && all != [] && (all[|all| - 1].Finished? ==>
            e.body.Terminal? && SearchesEnd(r.sent, all, e.body.response.output))
  {
    hide Kept, Locate, FinishCall, Searching, SearchesOf, Terminate, OnceEach, SearchesEnd, Saved;
    var all := Receive(r, e, history, stateAllowed).sent;
    if !e.body.Undecodable? && Locate(r, e).Ok? {
      LocateKeepsSearches(r, e);
      LocateKeepsBooks(r, e);
      var s := Locate(r, e).value.0;
      if e.body.Terminal? {
        TerminalSettlesSearches(s, e.body.truncated, e.body.response, history, stateAllowed);
      } else {
        FailureIsOnce(s, all[|all| - 1]);
      }
    } else {
      FailureIsOnce(r, all[|all| - 1]);
    }
  }

  lemma FailureIsOnce(r: Reader, e: Event)
    requires Kept(SearchesOf(r)) && e.Error?
    ensures OnceEach(r.sent + [e])
  {
    hide Kept, OnceEach;
    OtherEventKeeps(SearchesOf(r), e);
    KeptIsOnce(SearchesOf(r).(events := r.sent + [e]));
  }

  lemma {:induction false} StreamKeepsSearches(r: Reader, events: seq<Incoming>, k: nat, history: History,
      stateAllowed: bool)
    requires k <= |events| && Kept(SearchesOf(r))
    ensures OnceEach(Heed(r, events, k, history, stateAllowed))
    decreases |events| - k
  {
    hide Kept, Receive, OnceEach, SearchesOf, SearchesEnd;
    if k == |events| {
      FailureIsOnce(r, Error(NoTerminal));
    } else {
      var step := Receive(r, events[k], history, stateAllowed);
      if step.More? {
        ReceiveKeepsSearches(r, events[k], history, stateAllowed);
        StreamKeepsSearches(step.reader, events, k + 1, history, stateAllowed);
      } else {
        StopSettlesSearches(r, events[k], history, stateAllowed);
      }
    }
  }

  /** Over every stream, whether it fails or not. */
  lemma EverySearchIsAnnouncedOnce(events: seq<Incoming>, history: History, stateAllowed: bool)
    ensures OnceEach(Heed(NEW_READER, events, 0, history, stateAllowed))
  {
    hide OnceEach;
    NothingIsKept();
    StreamKeepsSearches(NEW_READER, events, 0, history, stateAllowed);
  }

  lemma NothingIsKept()
    ensures Kept(SearchesOf(NEW_READER))
  {
  }

  lemma {:induction false} ReaderKeepsSearches(r: Reader, events: seq<Incoming>, k: nat, n: nat, history: History,
      stateAllowed: bool)
    requires k <= n <= |events| && Kept(SearchesOf(r)) && ReaderAt(r, events, k, n, history, stateAllowed).Some?
    ensures Kept(SearchesOf(ReaderAt(r, events, k, n, history, stateAllowed).value))
    decreases n - k
  {
    hide Kept, Receive;
    if k < n {
      ReceiveKeepsSearches(r, events[k], history, stateAllowed);
      ReaderKeepsSearches(Receive(r, events[k], history, stateAllowed).reader, events, k + 1, n, history, stateAllowed);
    }
  }

  /** When a response is accepted, a search has its result if and only if it was finished on
      the way or the response lists it. One that was only announced stays open. */
  lemma FinishedResponseSettlesSearches(events: seq<Incoming>, j: nat, all: seq<Event>, history: History,
      stateAllowed: bool)
    requires j < |events| && ReaderAt(NEW_READER, events, 0, j, history, stateAllowed).Some?
    requires var before := ReaderAt(NEW_READER, events, 0, j, history, stateAllowed).value;
      Receive(before, events[j], history, stateAllowed) == Stop(all) && all != [] && all[|all| - 1].Finished?
    ensures events[j].body.Terminal?
    ensures var before := ReaderAt(NEW_READER, events, 0, j, history, stateAllowed).value;
      SearchesEnd(before.sent, all, events[j].body.response.output)
  {
    hide Kept, Receive, SearchesEnd;
    NothingIsKept();
    ReaderKeepsSearches(NEW_READER, events, 0, j, history, stateAllowed);
    var before := ReaderAt(NEW_READER, events, 0, j, history, stateAllowed).value;
    StopSettlesSearches(before, events[j], history, stateAllowed);
  }

  /** It happens: a completed response without the announced search is accepted, unlike one
      without an announced call. */
  lemma OpenSearchIsAccepted(id: string, action: Action, history: History, stateAllowed: bool)
    ensures var response := Response("r", Completed, false, [], None, "");
      var events := [Incoming("", None, 0, SearchAdded(id, action)), Incoming("", None, 0, Terminal(false, response))];
      var all := Heed(NEW_READER, events, 0, history, stateAllowed);
      && all != [] && all[|all| - 1].Finished? && !all[|all| - 1].truncated
      && Starts(all, id) == 1 && Ends(all, id) == 0
  {
    hide Saved, Filled, Receive, Heed, Starts, Ends;
    var response := Response("r", Completed, false, [], None, "");
    var first, last := Incoming("", None, 0, SearchAdded(id, action)), Incoming("", None, 0, Terminal(false, response));
    var r := AnnouncedAlone(id, action, history, stateAllowed);
    var end := AloneEnds(r, history, stateAllowed);
    HeedsTwo(first, last, r, r.sent + [end], history, stateAllowed);
    OneMore([r.sent[0]], end, id);
    OneMore([], r.sent[0], id);
    assert [] + [r.sent[0]] == [r.sent[0]] == r.sent;
    NoneYet(id);
  }

  lemma NoneYet(id: string)
    ensures Starts([], id) == 0 && Ends([], id) == 0
  {
  }

  lemma AnnouncedAlone(id: string, action: Action, history: History, stateAllowed: bool) returns (r: Reader)
    ensures Receive(NEW_READER, Incoming("", None, 0, SearchAdded(id, action)), history, stateAllowed) == More(r)
    ensures |r.sent| == 1 && IsStart(r.sent[0], id)
    ensures r.calls == map[] && r.streamed == map[] && r.anonymous == {}
  {
    hide Filled;
    var e := Incoming("", None, 0, SearchAdded(id, action));
    r := WithSearches(NEW_READER, NoteSearch(SearchesOf(NEW_READER), map[], id, action));
    assert Locate(NEW_READER, e).value.0 == NEW_READER;
  }

  lemma AloneEnds(r: Reader, history: History, stateAllowed: bool) returns (end: Event)
    requires r.calls == map[] && r.streamed == map[] && r.anonymous == {}
    ensures var response := Response("r", Completed, false, [], None, "");
      Receive(r, Incoming("", None, 0, Terminal(false, response)), history, stateAllowed) == Stop(r.sent + [end])
    ensures end.Finished? && !end.truncated
  {
    hide Saved;
    var response := Response("r", Completed, false, [], None, "");
    assert Items(r, response, 0) == Ok(StartFinal(r));
    end := Ending(response, StartFinal(r), history, stateAllowed);
    assert r.sent + [] == r.sent;
  }

  lemma HeedsTwo(first: Incoming, last: Incoming, r: Reader, all: seq<Event>, history: History, stateAllowed: bool)
    requires Receive(NEW_READER, first, history, stateAllowed) == More(r)
    requires Receive(r, last, history, stateAllowed) == Stop(all)
    ensures Heed(NEW_READER, [first, last], 0, history, stateAllowed) == all
  {
    hide Receive;
    assert Heed(r, [first, last], 1, history, stateAllowed) == all;
  }
}
