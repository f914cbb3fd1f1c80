/** What the caller of a streamed response hears, over every sequence of events. */
module DeepSeekStreamLaws {
  import opened Wrappers
  import opened DeepSeekHistory
  import opened DeepSeekStream

  // ----- Listening -----

  /** One part, what was sent without a part, or a whole channel. */
  datatype Ear = AtKey(key: Key) | NoPlace(kind: Kind) | Whole(kind: Kind)

  predicate Hears(ear: Ear, e: Event) {
    e.Said? &&
    match ear
    case AtKey(key) => e.kind == key.kind && e.place == Some(key.place)
    case NoPlace(kind) => e.kind == kind && e.place.None?
    case Whole(kind) => e.kind == kind
  }

  function Heard(events: seq<Event>, ear: Ear): Runes {
    if events == [] then []
    else
      var last := events[|events| - 1];
      Heard(events[..|events| - 1], ear) + if Hears(ear, last) then last.text else []
  }

  lemma HeardOne(events: seq<Event>, e: Event, ear: Ear)
    ensures Heard(events + [e], ear) == Heard(events, ear) + if Hears(ear, e) then e.text else []
  {
    assert (events + [e])[..|events + [e]| - 1] == events;
  }

  lemma {:induction false} HeardInParts(front: seq<Event>, back: seq<Event>, ear: Ear)
    ensures Heard(front + back, ear) == Heard(front, ear) + Heard(back, ear)
  {
    assert Heard([], ear) == [];
    hide Hears, Heard;
    if back == [] {
      assert front + back == front;
    } else {
      var rest, last := back[..|back| - 1], back[|back| - 1];
      assert back == rest + [last];
      assert front + back == front + rest + [last];
      HeardInParts(front, rest, ear);
      HeardOne(rest, last, ear);
      HeardOne(front + rest, last, ear);
      var tail := if Hears(ear, last) then last.text else [];
      assert Heard(front, ear) + Heard(rest, ear) + tail == Heard(front, ear) + (Heard(rest, ear) + tail);
    }
  }

  predicate Silent(events: seq<Event>) {
    forall e :: e in events ==> !e.Said?
  }

  lemma {:induction false} SilentIsNotHeard(events: seq<Event>, ear: Ear)
    requires Silent(events)
    ensures Heard(events, ear) == []
  {
    if events != [] {
      assert events[|events| - 1] in events;
      forall e | e in events[..|events| - 1]
        ensures e in events
      {
      }
      SilentIsNotHeard(events[..|events| - 1], ear);
    }
  }

  lemma HeardPastSilence(front: seq<Event>, back: seq<Event>, ear: Ear)
    requires Silent(back)
    ensures Heard(front + back, ear) == Heard(front, ear)
  {
    HeardInParts(front, back, ear);
    SilentIsNotHeard(back, ear);
  }

  // ----- The reader's books -----

  ghost predicate HonestKeys(r: Reader) {
    && (forall key :: Heard(r.sent, AtKey(key)) == StreamedAs(r, key))
    && (forall key :: key in r.streamed ==> r.streamed[key] != [] && key.kind in r.native)
  }

  ghost predicate HonestChannel(r: Reader, kind: Kind) {
    && Heard(r.sent, Whole(kind)) == Streamed(r, kind)
    && (kind in r.anonymous <==> Heard(r.sent, NoPlace(kind)) != [])
    && (kind !in r.native ==> Heard(r.sent, Whole(kind)) == Heard(r.sent, NoPlace(kind)))
    && (kind in r.native ==> Heard(r.sent, Whole(kind)) != [])
  }

  /** What the reader remembers is what it has passed on. */
  ghost predicate Honest(r: Reader) {
    HonestKeys(r) && HonestChannel(r, Spoken) && HonestChannel(r, Thought)
  }

  lemma SilentKeepsHonest(r: Reader, s: Reader, events: seq<Event>)
    requires Honest(r) && Silent(events) && s.sent == r.sent + events
    requires s.spoken == r.spoken && s.thought == r.thought && s.streamed == r.streamed
    requires s.native == r.native && s.anonymous == r.anonymous
    ensures Honest(s)
  {
    forall ear | true
      ensures Heard(s.sent, ear) == Heard(r.sent, ear)
    {
      HeardPastSilence(r.sent, events, ear);
    }
  }

  lemma DeltaKeepsKeys(r: Reader, kind: Kind, text: Runes, place: Option<Place>)
    requires HonestKeys(r) && text != []
    ensures HonestKeys(SendText(WithDelta(r, kind, text), kind, text, place))
  {
    hide Heard;
    var s := SendText(WithDelta(r, kind, text), kind, text, place);
    forall key: Key | true
      ensures Heard(s.sent, AtKey(key)) == StreamedAs(s, key)
    {
      HeardOne(r.sent, Said(kind, text, place), AtKey(key));
    }
  }

  lemma DeltaKeepsChannel(r: Reader, kind: Kind, text: Runes, place: Option<Place>, at: Kind)
    requires HonestChannel(r, at) && text != []
    ensures HonestChannel(SendText(WithDelta(r, kind, text), kind, text, place), at)
  {
    hide Heard;
    HeardOne(r.sent, Said(kind, text, place), Whole(at));
    HeardOne(r.sent, Said(kind, text, place), NoPlace(at));
  }

  lemma DeltaKeepsHonest(r: Reader, kind: Kind, text: Runes, place: Option<Place>)
    requires Honest(r)
    ensures Honest(SendText(WithDelta(r, kind, text), kind, text, place))
  {
    hide Heard, HonestKeys, HonestChannel;
    if text != [] {
      DeltaKeepsKeys(r, kind, text, place);
      DeltaKeepsChannel(r, kind, text, place, Spoken);
      DeltaKeepsChannel(r, kind, text, place, Thought);
    } else {
      assert r.spoken + text == r.spoken && r.thought + text == r.thought;
      assert WithDelta(r, kind, text) == r;
    }
  }

  lemma LocateKeepsBooks(r: Reader, e: Incoming)
    requires Locate(r, e).Ok?
    ensures var s := Locate(r, e).value.0;
      && s.sent == r.sent && s.spoken == r.spoken && s.thought == r.thought && s.streamed == r.streamed
      && s.native == r.native && s.anonymous == r.anonymous && s.calls == r.calls && s.ended == r.ended
      && (Honest(r) ==> Honest(s))
  {
    hide Heard;
  }

  lemma FinishEventsAreSilent(c: Calls, place: Option<Place>, id: string, callID: string, name: string)
    ensures Silent(FinishEvents(c, place, id, callID, name)) && Open(FinishEvents(c, place, id, callID, name))
  {
  }

  lemma FinishCallIsSilent(c: Calls, places: map<string, int>, id: string, callID: string, name: string, args: Args)
    requires FinishCall(c, places, id, callID, name, args).Ok?
    ensures var added := FinishCall(c, places, id, callID, name, args).value.events;
      c.events <= added && Silent(added[|c.events|..]) && Open(added[|c.events|..])
  {
    hide FinishEvents, Silent, Open, PlaceFor;
    var more := FinishEvents(c, PlaceFor(places, id), id, callID, name);
    FinishEventsAreSilent(c, PlaceFor(places, id), id, callID, name);
    assert (c.events + more)[|c.events|..] == more;
  }

  predicate OnlySearches(events: seq<Event>) {
    forall e :: e in events ==> e.SearchStart? || e.SearchEnd?
  }

  lemma SearchesAreAdded(s: Searches, places: map<string, int>, id: string, status: string, action: Action,
      error: Option<SearchError>)
    ensures var noted, done := NoteSearch(s, places, id, action).events,
                               FinishSearch(s, places, id, status, action, error).events;
      && s.events <= noted && OnlySearches(noted[|s.events|..])
      && s.events <= done && OnlySearches(done[|s.events|..])
  {
    hide Filled, ResultOf, PlaceFor;
    var noted := NoteSearch(s, places, id, action).events;
    var started := noted[|s.events|..];
    assert noted == s.events + started;
    var done := FinishSearch(s, places, id, status, action, error).events;
    var ended := done[|noted|..];
    assert done == noted + ended;
    assert done[|s.events|..] == started + ended;
  }

  lemma SearchingAdds(s: Searches, places: map<string, int>, e: Incoming)
    ensures var t := Searching(s, places, e);
      s.events <= t.events && OnlySearches(t.events[|s.events|..])
  {
    hide NoteSearch, FinishSearch;
    match e.body
    case SearchAdded(id, action) => SearchesAreAdded(s, places, id, "", action, None);
    case SearchUnderWay => SearchesAreAdded(s, places, e.itemID, "", BLANK_ACTION, None);
    case SearchDone(id, status, action, error) => SearchesAreAdded(s, places, id, status, action, error);
    case _ =>
  }

  predicate OnlyWords(events: seq<Event>) {
    forall e :: e in events ==> e.Said?
  }

  lemma PartQueues(r: Reader, f: Final, kind: Kind, place: Place, part: Option<Runes>) returns (added: seq<Event>)
    requires OnePart(r, f, kind, place, part).Ok?
    ensures OnePart(r, f, kind, place, part).value.queue == f.queue + added && OnlyWords(added)
  {
    hide StreamedAs;
    var text, rest := part.value, part.value[if place.item != "" then |StreamedAs(r, Key(place, kind))| else 0..];
    if kind !in r.anonymous && rest != [] {
      added := [Said(kind, rest, if place.item != "" then Some(place) else None)];
    } else {
      added := [];
      assert f.queue + [] == f.queue;
    }
  }

  /** A terminal part adds words to the queue, and touches no other books. */
  lemma PartAdds(r: Reader, f: Final, kind: Kind, place: Place, part: Option<Runes>)
    requires OnePart(r, f, kind, place, part).Ok?
    ensures var g := OnePart(r, f, kind, place, part).value;
      && f.queue <= g.queue && OnlyWords(g.queue[|f.queue|..])
      && g.open == f.open && g.ended == f.ended && g.calls == f.calls && g.callIDs == f.callIDs
      && g.searches == f.searches && g.searched == f.searched
  {
    var added := PartQueues(r, f, kind, place, part);
    assert (f.queue + added)[|f.queue|..] == added;
    hide OnlyWords, StreamedAs;
  }

  /** No ending among these. */
  predicate Unended(events: seq<Event>) {
    forall e :: e in events ==> !e.Finished? && !e.Error?
  }

  /** Nor what a terminal response hands over right before it. */
  predicate Open(events: seq<Event>) {
    Unended(events) && forall e :: e in events ==> !e.Used? && !e.ToolCalls?
  }

  lemma SearchKeepsHonest(r: Reader, e: Incoming)
    requires Honest(r)
    ensures var t := WithSearches(r, Searching(SearchesOf(r), r.places, e));
      Honest(t) && (Open(r.sent) ==> Open(t.sent))
  {
    hide Honest, Searching;
    var s := Searching(SearchesOf(r), r.places, e);
    SearchingAdds(SearchesOf(r), r.places, e);
    var added := s.events[|r.sent|..];
    assert s.events == r.sent + added;
    SilentKeepsHonest(r, WithSearches(r, s), added);
  }

  lemma CallDoneKeepsHonest(s: Reader, id: string, callID: string, name: string, args: Args)
    requires Honest(s) && FinishCall(Calls(s.calls, s.ended, s.sent), s.places, id, callID, name, args).Ok?
    ensures var done := FinishCall(Calls(s.calls, s.ended, s.sent), s.places, id, callID, name, args).value;
      var t := s.(calls := done.open, ended := done.ended, sent := done.events);
      Honest(t) && (Open(s.sent) ==> Open(t.sent))
  {
    hide Honest, FinishCall;
    var c := Calls(s.calls, s.ended, s.sent);
    FinishCallIsSilent(c, s.places, id, callID, name, args);
    var done := FinishCall(c, s.places, id, callID, name, args).value;
    var added := done.events[|s.sent|..];
    assert done.events == s.sent + added;
    SilentKeepsHonest(s, s.(calls := done.open, ended := done.ended, sent := done.events), added);
  }

  lemma ReceiveKeepsHonest(r: Reader, e: Incoming, history: History, stateAllowed: bool)
    requires Honest(r) && Receive(r, e, history, stateAllowed).More?
    ensures Honest(Receive(r, e, history, stateAllowed).reader)
    ensures Open(r.sent) ==> Open(Receive(r, e, history, stateAllowed).reader.sent)
  {
    hide Heard, Honest, Locate, FinishCall, Searching, WithSearches, SearchesOf, Terminate, StreamedAs;
    LocateKeepsBooks(r, e);
    var (s, place) := Locate(r, e).value;
    var t := Receive(r, e, history, stateAllowed).reader;
    match e.body
    case Delta(kind, text) => DeltaKeepsHonest(s, kind, text, place);
    case CallAdded(id, callID, name, args) =>
      SilentKeepsHonest(s, t, [CallStart(place, callID, name)]);
    case ArgsDelta(text) =>
      SilentKeepsHonest(s, t, [CallDelta(place, text, s.calls[e.itemID].id, s.calls[e.itemID].name)]);
    case CallDone(id, callID, name, args) => CallDoneKeepsHonest(s, id, callID, name, args);
    case SearchAdded(_, _) => SearchKeepsHonest(s, e);
    case SearchUnderWay => SearchKeepsHonest(s, e);
    case SearchDone(_, _, _, _) => SearchKeepsHonest(s, e);
    case _ =>
  }

  // ----- The terminal response -----

  predicate IsPart(output: seq<OutItem>, key: Key) {
    && 0 <= key.place.output < |output|
    && output[key.place.output].body.Words?
    && output[key.place.output].body.kind == key.kind
    && output[key.place.output].id == key.place.item
    && 0 <= key.place.content < |output[key.place.output].body.parts|
  }

  /** Parts of items with an identity can be told apart in the stream. */
  predicate Identified(output: seq<OutItem>, key: Key) {
    IsPart(output, key) && key.place.item != ""
  }

  function TextOf(part: Option<Runes>): Runes { if part.None? then [] else part.value }

  function PartText(output: seq<OutItem>, key: Key): Runes
    requires IsPart(output, key)
  {
    TextOf(output[key.place.output].body.parts[key.place.content])
  }

  function PartsText(parts: seq<Option<Runes>>, n: nat): Runes
    requires n <= |parts|
  {
    if n == 0 then [] else PartsText(parts, n - 1) + TextOf(parts[n - 1])
  }

  /** The whole text of one kind in a terminal response. */
  function OutputText(output: seq<OutItem>, n: nat, kind: Kind): Runes
    requires n <= |output|
  {
    if n == 0 then []
    else
      var body := output[n - 1].body;
      OutputText(output, n - 1, kind)
      + if body.Words? && body.kind == kind then PartsText(body.parts, |body.parts|) else []
  }

  predicate Reached(key: Key, i: nat, n: nat) {
    key.place.output < i || (key.place.output == i && key.place.content < n)
  }

  ghost predicate BalancedKeys(r: Reader, f: Final, output: seq<OutItem>, i: nat, n: nat) {
    && (forall key :: key in f.parts <==> Identified(output, key) && Reached(key, i, n))
    && (forall key :: key in f.parts && key.kind !in r.anonymous ==>
          StreamedAs(r, key) + Heard(f.queue, AtKey(key)) == PartText(output, key))
    && (forall key :: key !in f.parts ==> Heard(f.queue, AtKey(key)) == [])
  }

  ghost predicate BalancedChannel(r: Reader, f: Final, kind: Kind) {
    && (kind in r.anonymous ==> Heard(f.queue, Whole(kind)) == [])
    && (kind in r.native ==> Heard(f.queue, NoPlace(kind)) == [])
    && (kind !in r.anonymous && kind !in r.native ==> Heard(f.queue, Whole(kind)) == FinalText(f, kind))
  }

  /** The part itself is the only key that processing it can add. */
  lemma ReachOnePart(output: seq<OutItem>, i: nat, n: nat, key: Key)
    requires i < |output| && output[i].body.Words? && n < |output[i].body.parts|
    ensures Identified(output, key) && Reached(key, i, n + 1) <==>
      (Identified(output, key) && Reached(key, i, n))
      || (key == Key(Place(output[i].id, i, n), output[i].body.kind) && output[i].id != "")
  {
  }

  lemma NamelessPartKeepsKeys(r: Reader, f: Final, output: seq<OutItem>, i: nat, n: nat)
    requires i < |output| && output[i].body.Words? && n < |output[i].body.parts| && output[i].id == ""
    requires BalancedKeys(r, f, output, i, n)
    requires OnePart(r, f, output[i].body.kind, Place("", i, n), output[i].body.parts[n]).Ok?
    ensures
      var g := OnePart(r, f, output[i].body.kind, Place("", i, n), output[i].body.parts[n]).value;
      BalancedKeys(r, g, output, i, n + 1)
  {
    hide Heard, Identified, Reached, PartText;
    var kind, part := output[i].body.kind, output[i].body.parts[n];
    var g := OnePart(r, f, kind, Place("", i, n), part).value;
    assert f.queue + [] == f.queue;
    forall key: Key | true
      ensures Heard(g.queue, AtKey(key)) == Heard(f.queue, AtKey(key))
      ensures Identified(output, key) && Reached(key, i, n + 1) <==> Identified(output, key) && Reached(key, i, n)
    {
      HeardOne(f.queue, Said(kind, part.value, None), AtKey(key));
      ReachOnePart(output, i, n, key);
    }
  }

  lemma NamedPart(r: Reader, f: Final, kind: Kind, place: Place, part: Option<Runes>)
    requires place.item != "" && OnePart(r, f, kind, place, part).Ok?
    ensures var g, own := OnePart(r, f, kind, place, part).value, Key(place, kind);
      && part.Some? && StreamedAs(r, own) <= part.value
      && var rest := part.value[|StreamedAs(r, own)|..];
      && StreamedAs(r, own) + rest == part.value
      && g.parts == f.parts + {own}
      && (kind !in r.anonymous && rest != [] ==> g.queue == f.queue + [Said(kind, rest, Some(place))])
      && (kind in r.anonymous || rest == [] ==> g.queue == f.queue)
  {
    hide StreamedAs;
    assert f.queue + [] == f.queue;
  }

  /** One key more, with exactly its text. */
  lemma KeyAdded(r: Reader, f: Final, g: Final, output: seq<OutItem>, i: nat, n: nat, own: Key, rest: Runes)
    requires BalancedKeys(r, f, output, i, n) && IsPart(output, own)
    requires own !in f.parts && g.parts == f.parts + {own}
    requires StreamedAs(r, own) + rest == PartText(output, own)
    requires forall key: Key ::
      Heard(g.queue, AtKey(key)) ==
      Heard(f.queue, AtKey(key)) + if key == own && own.kind !in r.anonymous then rest else []
    requires forall key: Key ::
      Identified(output, key) && Reached(key, i, n + 1) <==>
      (Identified(output, key) && Reached(key, i, n)) || key == own
    ensures BalancedKeys(r, g, output, i, n + 1)
  {
    hide Heard, Reached, PartText, StreamedAs;
    forall key: Key | key !in g.parts
      ensures Heard(g.queue, AtKey(key)) == []
    {
      assert key !in f.parts;
    }
    forall key: Key | key in g.parts && key.kind !in r.anonymous
      ensures IsPart(output, key) && StreamedAs(r, key) + Heard(g.queue, AtKey(key)) == PartText(output, key)
    {
      if key == own {
        assert Heard(f.queue, AtKey(own)) == [];
        assert Heard(g.queue, AtKey(own)) == rest;
      } else {
        assert key in f.parts && Heard(g.queue, AtKey(key)) == Heard(f.queue, AtKey(key));
      }
    }
  }

  lemma NamedPartKeepsKeys(r: Reader, f: Final, output: seq<OutItem>, i: nat, n: nat)
    requires i < |output| && output[i].body.Words? && n < |output[i].body.parts| && output[i].id != ""
    requires BalancedKeys(r, f, output, i, n)
    requires OnePart(r, f, output[i].body.kind, Place(output[i].id, i, n), output[i].body.parts[n]).Ok?
    ensures
      var g := OnePart(r, f, output[i].body.kind, Place(output[i].id, i, n), output[i].body.parts[n]).value;
      BalancedKeys(r, g, output, i, n + 1)
  {
    hide Heard, Reached, PartText, StreamedAs, OnePart;
    var kind, place, part := output[i].body.kind, Place(output[i].id, i, n), output[i].body.parts[n];
    var g := OnePart(r, f, kind, place, part).value;
    var own := Key(place, kind);
    NamedPart(r, f, kind, place, part);
    PartIsNew(output, i, n);
    var rest := part.value[|StreamedAs(r, own)|..];
    forall key: Key | true
      ensures
        Heard(g.queue, AtKey(key)) ==
        Heard(f.queue, AtKey(key)) + if key == own && own.kind !in r.anonymous then rest else []
      ensures
        Identified(output, key) && Reached(key, i, n + 1) <==>
        (Identified(output, key) && Reached(key, i, n)) || key == own
    {
      HeardOne(f.queue, Said(kind, rest, Some(place)), AtKey(key));
      ReachOnePart(output, i, n, key);
    }
    KeyAdded(r, f, g, output, i, n, own, rest);
  }

  lemma PartIsNew(output: seq<OutItem>, i: nat, n: nat)
    requires i < |output| && output[i].body.Words? && n < |output[i].body.parts| && output[i].body.parts[n].Some?
    ensures var key := Key(Place(output[i].id, i, n), output[i].body.kind);
      IsPart(output, key) && PartText(output, key) == output[i].body.parts[n].value && !Reached(key, i, n)
  {
  }

  lemma PartKeepsKeys(r: Reader, f: Final, output: seq<OutItem>, i: nat, n: nat)
    requires i < |output| && output[i].body.Words? && n < |output[i].body.parts|
    requires BalancedKeys(r, f, output, i, n)
    requires OnePart(r, f, output[i].body.kind, Place(output[i].id, i, n), output[i].body.parts[n]).Ok?
    ensures
      var g := OnePart(r, f, output[i].body.kind, Place(output[i].id, i, n), output[i].body.parts[n]).value;
      BalancedKeys(r, g, output, i, n + 1)
  {
    hide BalancedKeys, OnePart;
    if output[i].id == "" {
      NamelessPartKeepsKeys(r, f, output, i, n);
    } else {
      NamedPartKeepsKeys(r, f, output, i, n);
    }
  }

  lemma PartKeepsChannel(r: Reader, f: Final, kind: Kind, place: Place, part: Option<Runes>, at: Kind)
    requires HonestKeys(r) && BalancedChannel(r, f, at) && OnePart(r, f, kind, place, part).Ok?
    ensures BalancedChannel(r, OnePart(r, f, kind, place, part).value, at)
    ensures
      FinalText(OnePart(r, f, kind, place, part).value, at) ==
      FinalText(f, at) + if at == kind then part.value else []
  {
    hide Heard;
    var text := part.value;
    assert f.queue + [] == f.queue;
    if place.item == "" {
      HeardOne(f.queue, Said(kind, text, None), Whole(at));
      HeardOne(f.queue, Said(kind, text, None), NoPlace(at));
    } else {
      var rest := text[|StreamedAs(r, Key(place, kind))|..];
      HeardOne(f.queue, Said(kind, rest, Some(place)), Whole(at));
      HeardOne(f.queue, Said(kind, rest, Some(place)), NoPlace(at));
    }
  }

  ghost predicate Balanced(r: Reader, f: Final, output: seq<OutItem>, i: nat, n: nat)
    requires i <= |output|
  {
    && BalancedKeys(r, f, output, i, n)
    && BalancedChannel(r, f, Spoken)
    && BalancedChannel(r, f, Thought)
  }

  predicate HasText(f: Final, output: seq<OutItem>, i: nat, n: nat, kind: Kind)
    requires i <= |output|
  {
    FinalText(f, kind) == OutputText(output, i, kind)
      + if i < |output| && output[i].body.Words? && output[i].body.kind == kind && n <= |output[i].body.parts|
        then PartsText(output[i].body.parts, n) else []
  }

  lemma {:induction false} PartsKeepBalance(r: Reader, f: Final, output: seq<OutItem>, i: nat, n: nat)
    requires i < |output| && output[i].body.Words? && n <= |output[i].body.parts|
    requires HonestKeys(r) && Balanced(r, f, output, i, 0)
    requires HasText(f, output, i, 0, Spoken) && HasText(f, output, i, 0, Thought)
    requires ItemParts(r, f, output[i], i, n).Ok?
    ensures var g := ItemParts(r, f, output[i], i, n).value;
      Balanced(r, g, output, i, n) && HasText(g, output, i, n, Spoken) && HasText(g, output, i, n, Thought)
  {
    hide OnePart, HonestKeys, BalancedKeys, BalancedChannel, HasText;
    if n > 0 {
      PartsKeepBalance(r, f, output, i, n - 1);
      var g := ItemParts(r, f, output[i], i, n - 1).value;
      var kind, place, part := output[i].body.kind, Place(output[i].id, i, n - 1), output[i].body.parts[n - 1];
      PartKeepsKeys(r, g, output, i, n - 1);
      PartKeepsChannel(r, g, kind, place, part, Spoken);
      PartKeepsChannel(r, g, kind, place, part, Thought);
      PartIsText(r, g, kind, place, part);
      var h := OnePart(r, g, kind, place, part).value;
      TextGrows(g, h, output, i, n - 1, Spoken);
      TextGrows(g, h, output, i, n - 1, Thought);
    }
  }

  lemma TextGrows(f: Final, g: Final, output: seq<OutItem>, i: nat, n: nat, at: Kind)
    requires i < |output| && output[i].body.Words? && n < |output[i].body.parts| && output[i].body.parts[n].Some?
    requires HasText(f, output, i, n, at)
    requires
      FinalText(g, at) ==
      FinalText(f, at) + if at == output[i].body.kind then output[i].body.parts[n].value else []
    ensures HasText(g, output, i, n + 1, at)
  {
    hide FinalText, OutputText;
  }

  lemma PartIsText(r: Reader, f: Final, kind: Kind, place: Place, part: Option<Runes>)
    requires OnePart(r, f, kind, place, part).Ok?
    ensures part.Some?
  {
  }

  /** Moving on to the next item. */
  lemma NextItem(r: Reader, f: Final, output: seq<OutItem>, i: nat)
    requires i < |output|
    requires var n := if output[i].body.Words? then |output[i].body.parts| else 0;
      Balanced(r, f, output, i, n) && HasText(f, output, i, n, Spoken) && HasText(f, output, i, n, Thought)
    ensures Balanced(r, f, output, i + 1, 0) && HasText(f, output, i + 1, 0, Spoken)
    ensures HasText(f, output, i + 1, 0, Thought)
  {
    hide BalancedChannel, Heard, FinalText;
    var n := if output[i].body.Words? then |output[i].body.parts| else 0;
    forall key: Key | true
      ensures Identified(output, key) && Reached(key, i, n) <==> Identified(output, key) && Reached(key, i + 1, 0)
    {
    }
  }

  /** Entering an item and finishing a call leave the words alone. */
  lemma QuietKeepsBalance(r: Reader, f: Final, g: Final, added: seq<Event>, output: seq<OutItem>, i: nat, n: nat)
    requires i <= |output| && Balanced(r, f, output, i, n)
    requires HasText(f, output, i, n, Spoken) && HasText(f, output, i, n, Thought)
    requires g.queue == f.queue + added && Silent(added)
    requires g.parts == f.parts && g.spoken == f.spoken && g.thought == f.thought
    ensures Balanced(r, g, output, i, n) && HasText(g, output, i, n, Spoken) && HasText(g, output, i, n, Thought)
  {
    hide Heard, OutputText, PartsText;
    forall ear: Ear | true
      ensures Heard(g.queue, ear) == Heard(f.queue, ear)
    {
      HeardPastSilence(f.queue, added, ear);
    }
  }

  lemma EnterIsQuiet(r: Reader, f: Final, output: seq<OutItem>, i: nat)
    requires i < |output| && Balanced(r, f, output, i, 0) && HasText(f, output, i, 0, Spoken)
    requires HasText(f, output, i, 0, Thought)
    requires Enter(f, output[i], i).Ok?
    ensures var g := Enter(f, output[i], i).value;
      Balanced(r, g, output, i, 0) && HasText(g, output, i, 0, Spoken) && HasText(g, output, i, 0, Thought)
  {
    hide Balanced, HasText;
    var g := Enter(f, output[i], i).value;
    assert g.queue == f.queue + [];
    QuietKeepsBalance(r, f, g, [], output, i, 0);
  }

  lemma CallIsQuiet(r: Reader, f: Final, output: seq<OutItem>, i: nat)
    requires i < |output| && Balanced(r, f, output, i, 0) && HasText(f, output, i, 0, Spoken)
    requires HasText(f, output, i, 0, Thought)
    requires output[i].body.FunctionCall? && OneCall(f, output[i]).Ok?
    ensures var g := OneCall(f, output[i]).value;
      Balanced(r, g, output, i, 0) && HasText(g, output, i, 0, Spoken) && HasText(g, output, i, 0, Thought)
  {
    hide Balanced, HasText, FinishCall;
    var g, b := OneCall(f, output[i]).value, output[i].body;
    FinishCallIsSilent(Calls(f.open, f.ended, f.queue), f.places, output[i].id, b.callID, b.name, b.args);
    var added := g.queue[|f.queue|..];
    assert g.queue == f.queue + added;
    QuietKeepsBalance(r, f, g, added, output, i, 0);
  }

  lemma SearchIsQuiet(r: Reader, f: Final, output: seq<OutItem>, i: nat)
    requires i < |output| && Balanced(r, f, output, i, 0) && HasText(f, output, i, 0, Spoken)
    requires HasText(f, output, i, 0, Thought)
    requires output[i].body.Search? && OneSearch(f, output[i]).Ok?
    ensures var g := OneSearch(f, output[i]).value;
      Balanced(r, g, output, i, 0) && HasText(g, output, i, 0, Spoken) && HasText(g, output, i, 0, Thought)
  {
    hide Balanced, HasText, FinishSearch;
    var g, b := OneSearch(f, output[i]).value, output[i].body;
    SearchesAreAdded(Searches(f.searches, f.searched, f.queue), f.places, output[i].id, b.status, b.action, b.error);
    var added := g.queue[|f.queue|..];
    assert g.queue == f.queue + added;
    QuietKeepsBalance(r, f, g, added, output, i, 0);
  }

  lemma ItemKeepsBalance(r: Reader, f: Final, status: Status, output: seq<OutItem>, i: nat)
    requires i < |output| && HonestKeys(r)
    requires Balanced(r, f, output, i, 0) && HasText(f, output, i, 0, Spoken) && HasText(f, output, i, 0, Thought)
    requires OneItem(r, f, status, output[i], i).Ok?
    ensures var g := OneItem(r, f, status, output[i], i).value;
      Balanced(r, g, output, i + 1, 0) && HasText(g, output, i + 1, 0, Spoken) && HasText(g, output, i + 1, 0, Thought)
  {
    hide Balanced, HasText, Enter, OneCall, OneSearch, HonestKeys;
    EnterIsQuiet(r, f, output, i);
    var entered := Enter(f, output[i], i).value;
    match output[i].body
    case Words(_, parts) =>
      PartsKeepBalance(r, entered, output, i, |parts|);
      NextItem(r, OneItem(r, f, status, output[i], i).value, output, i);
    case FunctionCall(_, _, _) =>
      if !status.Incomplete? {
        CallIsQuiet(r, entered, output, i);
      }
      NextItem(r, OneItem(r, f, status, output[i], i).value, output, i);
    case Search(_, _, _) =>
      SearchIsQuiet(r, entered, output, i);
      NextItem(r, OneItem(r, f, status, output[i], i).value, output, i);
    case _ =>
      NextItem(r, entered, output, i);
  }

  lemma {:induction false} ItemsBalance(r: Reader, response: Response, n: nat)
    requires n <= |response.output| && HonestKeys(r) && Items(r, response, n).Ok?
    ensures var f := Items(r, response, n).value;
      && Balanced(r, f, response.output, n, 0)
      && HasText(f, response.output, n, 0, Spoken)
      && HasText(f, response.output, n, 0, Thought)
  {
    hide HonestKeys, OneItem;
    if n == 0 {
      StartIsBalanced(r, response.output);
    } else {
      ItemsBalance(r, response, n - 1);
      ItemKeepsBalance(r, Items(r, response, n - 1).value, response.status, response.output, n - 1);
    }
  }

  lemma StartIsBalanced(r: Reader, output: seq<OutItem>)
    ensures var f := StartFinal(r);
      Balanced(r, f, output, 0, 0) && HasText(f, output, 0, 0, Spoken) && HasText(f, output, 0, 0, Thought)
  {
  }

  // ----- What the caller has heard when a response ends well -----

  lemma {:induction false} PartsAreInTheWhole(events: seq<Event>, key: Key)
    ensures |Heard(events, AtKey(key))| <= |Heard(events, Whole(key.kind))|
    ensures |Heard(events, NoPlace(key.kind))| <= |Heard(events, Whole(key.kind))|
  {
    if events != [] {
      PartsAreInTheWhole(events[..|events| - 1], key);
    }
  }

  ghost predicate KindReconciled(streamed: seq<Event>, all: seq<Event>, output: seq<OutItem>, kind: Kind) {
    if Heard(streamed, NoPlace(kind)) != [] then
      && Heard(all, Whole(kind)) == OutputText(output, |output|, kind)
      && (forall key: Key :: key.kind == kind ==> Heard(all, AtKey(key)) == [])
    else
      && (forall key: Key :: key.kind == kind && Identified(output, key) ==>
        Heard(all, AtKey(key)) == PartText(output, key))
      && (forall key: Key :: key.kind == kind && Heard(all, AtKey(key)) != [] ==> Identified(output, key))
      && (if Heard(streamed, Whole(kind)) == [] then Heard(all, Whole(kind)) == OutputText(output, |output|, kind)
          else Heard(all, NoPlace(kind)) == [])
  }

  /** Every identified part was heard exactly, an anonymous channel was heard as one whole
      text, and nothing else was heard. */
  ghost predicate Reconciled(streamed: seq<Event>, all: seq<Event>, output: seq<OutItem>) {
    KindReconciled(streamed, all, output, Spoken) && KindReconciled(streamed, all, output, Thought)
  }

  function Closing(r: Reader, f: Final, kind: Kind, ear: Ear): Runes {
    if kind in r.anonymous && (ear == NoPlace(kind) || ear == Whole(kind)) && Streamed(r, kind) <= FinalText(f, kind)
    then FinalText(f, kind)[|Streamed(r, kind)|..] else []
  }

  /** What any ear hears of the closing suffix of channel `kind`. */
  lemma ChannelSends(r: Reader, f: Final, kind: Kind, ear: Ear)
    requires Channel(r, f, kind).Ok?
    ensures var g := Channel(r, f, kind).value;
      && FinalText(g, Spoken) == FinalText(f, Spoken)
      && FinalText(g, Thought) == FinalText(f, Thought)
      && g.parts == f.parts
      && (kind in r.anonymous ==> kind !in r.native && Streamed(r, kind) <= FinalText(f, kind))
      && Heard(g.queue, ear) == Heard(f.queue, ear) + Closing(r, f, kind, ear)
  {
    hide Heard;
    if kind in r.anonymous {
      var rest := FinalText(f, kind)[|Streamed(r, kind)|..];
      HeardOne(f.queue, Said(kind, rest, None), ear);
    }
    assert f.queue + [] == f.queue;
  }

  /** The queue of a reconciled response, as any ear hears it. */
  lemma QueueHeard(r: Reader, response: Response, ear: Ear)
    requires Reconcile(r, response).Ok?
    ensures Items(r, response, |response.output|).Ok?
    ensures var f, g := Items(r, response, |response.output|).value, Reconcile(r, response).value;
      && !OmitsPart(r, f)
      && FinalText(g, Spoken) == FinalText(f, Spoken) && FinalText(g, Thought) == FinalText(f, Thought)
      && Heard(g.queue, ear) == Heard(f.queue, ear) + Closing(r, f, Thought, ear) + Closing(r, f, Spoken, ear)
      && (forall kind :: kind in r.anonymous ==> kind !in r.native && Streamed(r, kind) <= FinalText(f, kind))
  {
    hide Heard, Channel, Items, OmitsPart;
    var f := Items(r, response, |response.output|).value;
    ChannelSends(r, f, Thought, ear);
    ChannelSends(r, Channel(r, f, Thought).value, Spoken, ear);
    forall kind | kind in r.anonymous
      ensures kind !in r.native && Streamed(r, kind) <= FinalText(f, kind)
    {
      assert kind == Spoken || kind == Thought;
    }
  }

  lemma KindReconciles(r: Reader, response: Response, kind: Kind)
    requires HonestKeys(r) && HonestChannel(r, kind) && Reconcile(r, response).Ok?
    requires var f := Items(r, response, |response.output|);
      f.Ok? && BalancedKeys(r, f.value, response.output, |response.output|, 0) && BalancedChannel(r, f.value, kind)
        && FinalText(f.value, kind) == OutputText(response.output, |response.output|, kind)
    ensures KindReconciled(r.sent, r.sent + Reconcile(r, response).value.queue, response.output, kind)
  {
    hide Heard, Items, Reconcile, OutputText;
    var f, g := Items(r, response, |response.output|).value, Reconcile(r, response).value;
    var all := r.sent + g.queue;
    QueueHeard(r, response, Whole(kind));
    QueueHeard(r, response, NoPlace(kind));
    HeardInParts(r.sent, g.queue, Whole(kind));
    HeardInParts(r.sent, g.queue, NoPlace(kind));
    forall key: Key | key.kind == kind
      ensures Heard(all, AtKey(key)) == StreamedAs(r, key) + Heard(f.queue, AtKey(key))
      ensures Heard(f.queue, Whole(kind)) == [] ==> Heard(f.queue, AtKey(key)) == []
      ensures Heard(f.queue, Whole(kind)) == [] ==> Heard(f.queue, NoPlace(kind)) == []
      ensures StreamedAs(r, key) != [] ==> key in f.parts
    {
      QueueHeard(r, response, AtKey(key));
      HeardInParts(r.sent, g.queue, AtKey(key));
      PartsAreInTheWhole(f.queue, key);
    }
    if kind in r.anonymous {
      assert Heard(all, Whole(kind)) == FinalText(f, kind);
    } else {
      assert forall key: Key ::
        key.kind == kind && Identified(response.output, key) ==> Reached(key, |response.output|, 0);
    }
  }

  lemma QueueReconciles(r: Reader, response: Response)
    requires Honest(r) && Reconcile(r, response).Ok?
    ensures Reconciled(r.sent, r.sent + Reconcile(r, response).value.queue, response.output)
    ensures Reconcile(r, response).value.spoken == OutputText(response.output, |response.output|, Spoken)
    ensures Reconcile(r, response).value.thought == OutputText(response.output, |response.output|, Thought)
  {
    hide HonestKeys, HonestChannel, BalancedKeys, BalancedChannel, Reconcile, KindReconciled, Items, OutputText;
    QueueHeard(r, response, Whole(Spoken));
    ItemsBalance(r, response, |response.output|);
    KindReconciles(r, response, Spoken);
    KindReconciles(r, response, Thought);
  }

  // ----- The calls of a response -----

  /** The function calls that a terminal response hands over: its call items, in order and
      with their arguments, and none when it is incomplete. */
  function CallsIn(response: Response, n: nat): seq<Call>
    requires n <= |response.output|
  {
    if n == 0 then []
    else
      var b := response.output[n - 1].body;
      CallsIn(response, n - 1)
        + if b.FunctionCall? && !response.status.Incomplete? then [Call(b.callID, b.name, b.args)] else []
  }

  lemma {:induction false} ItemsHandOver(r: Reader, response: Response, n: nat)
    requires n <= |response.output| && Items(r, response, n).Ok?
    ensures Items(r, response, n).value.calls == CallsIn(response, n)
  {
    hide OneItem;
    if n > 0 {
      ItemsHandOver(r, response, n - 1);
      ItemHandsOver(r, Items(r, response, n - 1).value, response.status, response.output[n - 1], n - 1);
    }
  }

  lemma ItemHandsOver(r: Reader, f: Final, status: Status, item: OutItem, index: nat)
    requires OneItem(r, f, status, item, index).Ok?
    ensures var b := item.body;
      OneItem(r, f, status, item, index).value.calls
        == f.calls + if b.FunctionCall? && !status.Incomplete? then [Call(b.callID, b.name, b.args)] else []
  {
    hide FinishCall, ItemParts;
    if item.body.Words? {
      PartsHandOverNothing(r, Enter(f, item, index).value, item, index, |item.body.parts|);
    }
  }

  lemma {:induction false} PartsHandOverNothing(r: Reader, f: Final, item: OutItem, index: nat, n: nat)
    requires item.body.Words? && n <= |item.body.parts| && ItemParts(r, f, item, index, n).Ok?
    ensures ItemParts(r, f, item, index, n).value.calls == f.calls
  {
    if n > 0 {
      PartsHandOverNothing(r, f, item, index, n - 1);
    }
  }

  lemma ReconcileHandsOver(r: Reader, response: Response)
    requires Reconcile(r, response).Ok?
    ensures Reconcile(r, response).value.calls == CallsIn(response, |response.output|)
  {
    hide Items, OmitsCall, OmitsPart;
    ItemsHandOver(r, response, |response.output|);
  }

  // ----- The whole stream -----

  /** What a response that ended well handed over: its words, its calls, and a state that
      binds exactly these. */
  ghost predicate EndsWell(streamed: seq<Event>, all: seq<Event>, response: Response, history: History,
      stateAllowed: bool)
  {
    && Reconciled(streamed, all, response.output)
    && var n := |response.output|;
    && var calls := CallsIn(response, n);
    && var last := |all| - 1;
    && var handed := if calls != [] then 1 else 0;
    && var told := if response.usage.Some? then 1 else 0;
    && |streamed| <= last - handed - told && streamed <= all
    && Open(all[..last - handed - told])
    && (calls != [] ==> all[last - 1] == ToolCalls(calls))
    && (response.usage.Some? ==> TellsUsage(all[last - handed - 1], response.usage.value))
    && all[last].Finished? && all[last].responseID == response.id
    && all[last].truncated == response.status.Incomplete?
    && all[last].toolCalls == (calls != [])
    && all[last].state == if !stateAllowed then None
         else
           var text, thought := OutputText(response.output, n, Spoken), OutputText(response.output, n, Thought);
           Some(Saved(history, text, thought, calls, SavedOutput(response, n)))
  }

  /** Input is told from what was cached of it and output from its reasoning, so that every
      token counts once. */
  predicate TellsUsage(e: Event, tokens: Tokens) {
    && e.Used?
    && var u := e.usage;
    && u.cached == tokens.cached && u.input + u.cached == tokens.input
    && u.reasoning == tokens.reasoning && u.output + u.reasoning == tokens.output
    && u.input + u.cached + u.output + u.reasoning == u.total
    && 0 <= u.input && 0 <= u.cached && 0 <= u.output && 0 <= u.reasoning
  }

  lemma EndsWellOnce(streamed: seq<Event>, all: seq<Event>, response: Response, history: History, stateAllowed: bool)
    requires EndsWell(streamed, all, response, history, stateAllowed)
    ensures all != [] && Unended(all[..|all| - 1])
  {
    hide Reconciled, OutputText, CallsIn, SavedOutput, Saved;
    var last := |all| - 1;
    var handed := if CallsIn(response, |response.output|) != [] then 1 else 0;
    var told := if response.usage.Some? then 1 else 0;
    var front := all[..last - handed - told];
    forall e | e in all[..last] ensures !e.Finished? && !e.Error? {
      var i :| 0 <= i < last && all[..last][i] == e;
      assert i < |front| ==> front[i] == e && e in front;
    }
  }

  lemma ReconciledPastSilence(streamed: seq<Event>, front: seq<Event>, back: seq<Event>, output: seq<OutItem>)
    requires Reconciled(streamed, front, output) && Silent(back)
    ensures Reconciled(streamed, front + back, output)
  {
    hide Heard, OutputText;
    forall ear: Ear | true
      ensures Heard(front + back, ear) == Heard(front, ear)
    {
      HeardPastSilence(front, back, ear);
    }
  }

  lemma {:induction false} ItemsOpen(r: Reader, response: Response, n: nat)
    requires n <= |response.output| && Items(r, response, n).Ok?
    ensures Open(Items(r, response, n).value.queue)
  {
    hide OneItem, Open;
    if n == 0 {
      StartsOpen(r);
    } else {
      ItemsOpen(r, response, n - 1);
      OneItemOpen(r, Items(r, response, n - 1).value, response.status, response.output[n - 1], n - 1);
    }
  }

  lemma StartsOpen(r: Reader)
    ensures Open(StartFinal(r).queue)
  {
  }

  lemma OneItemOpen(r: Reader, f: Final, status: Status, item: OutItem, index: nat)
    requires Open(f.queue) && OneItem(r, f, status, item, index).Ok?
    ensures Open(OneItem(r, f, status, item, index).value.queue)
  {
    hide FinishCall, OneSearch, OnePart;
    var entered := Enter(f, item, index).value;
    match item.body
    case Words(_, parts) => PartsOpen(r, entered, item, index, |parts|);
    case FunctionCall(callID, name, args) =>
      if !status.Incomplete? {
        var books := Calls(entered.open, entered.ended, entered.queue);
        FinishCallIsSilent(books, entered.places, item.id, callID, name, args);
        var queue := OneItem(r, f, status, item, index).value.queue;
        assert queue == f.queue + queue[|f.queue|..];
      }
    case Search(_, _, _) => SearchKeepsOpen(entered, item);
    case _ =>
  }

  lemma SearchKeepsOpen(f: Final, item: OutItem)
    requires item.body.Search? && Open(f.queue) && OneSearch(f, item).Ok?
    ensures Open(OneSearch(f, item).value.queue)
  {
    hide FinishSearch;
    var b, queue := item.body, OneSearch(f, item).value.queue;
    SearchesAreAdded(Searches(f.searches, f.searched, f.queue), f.places, item.id, b.status, b.action, b.error);
    assert queue == f.queue + queue[|f.queue|..];
  }

  lemma {:induction false} PartsOpen(r: Reader, f: Final, item: OutItem, index: nat, n: nat)
    requires item.body.Words? && n <= |item.body.parts| && Open(f.queue) && ItemParts(r, f, item, index, n).Ok?
    ensures Open(ItemParts(r, f, item, index, n).value.queue)
  {
    if n > 0 {
      PartsOpen(r, f, item, index, n - 1);
    }
  }

  lemma ReconcileOpen(r: Reader, response: Response)
    requires Reconcile(r, response).Ok?
    ensures Open(Reconcile(r, response).value.queue)
  {
    hide Items;
    ItemsOpen(r, response, |response.output|);
  }

  /** All or nothing: a terminal response either adds one error to what was streamed, or
      hands over everything it reconciled and then its one ending. */
  lemma TerminalIsAllOrNothing(r: Reader, truncated: bool, response: Response, history: History, stateAllowed: bool)
    requires Honest(r) && Open(r.sent)
    ensures var step := Terminate(r, truncated, response, history, stateAllowed);
      && step.Stop?
      && ((exists fault :: step.sent == r.sent + [Error(fault)])
          || EndsWell(r.sent, step.sent, response, history, stateAllowed))
  {
    hide Honest, Reconcile, Reconciled, Open, OutputText, SavedOutput, CallsIn, EndsWell;
    var step := Terminate(r, truncated, response, history, stateAllowed);
    if step.sent[|step.sent| - 1].Error? {
    } else {
      var f := Reconcile(r, response).value;
      QueueReconciles(r, response);
      ReconcileOpen(r, response);
      ReconcileHandsOver(r, response);
      FinishedEndsWell(r, response, f, history, stateAllowed);
    }
  }

  lemma OpenJoins(front: seq<Event>, back: seq<Event>)
    requires Open(front) && Open(back)
    ensures Open(front + back)
  {
  }

  /** What stands between the reconciled events and the ending. */
  function Closings(response: Response, f: Final): seq<Event> {
    (if response.usage.Some? then [Used(UsageOf(response.usage.value))] else [])
    + (if f.calls != [] then [ToolCalls(f.calls)] else [])
  }

  lemma FinishedEndsWell(r: Reader, response: Response, f: Final, history: History, stateAllowed: bool)
    requires Open(r.sent) && Open(f.queue) && Reconciled(r.sent, r.sent + f.queue, response.output)
    requires f.spoken == OutputText(response.output, |response.output|, Spoken)
    requires f.thought == OutputText(response.output, |response.output|, Thought)
    requires f.calls == CallsIn(response, |response.output|)
    requires response.usage.Some? ==> !BadTokens(response.usage.value)
    ensures var usage := if response.usage.Some? then [Used(UsageOf(response.usage.value))] else [];
      var calls := if f.calls != [] then [ToolCalls(f.calls)] else [];
      var all := r.sent + f.queue + usage + calls + [Ending(response, f, history, stateAllowed)];
      EndsWell(r.sent, all, response, history, stateAllowed)
  {
    hide Reconciled, OutputText, SavedOutput, Saved, Open, Silent, Closings, EndsWell, Ending, CallsIn;
    var usage := if response.usage.Some? then [Used(UsageOf(response.usage.value))] else [];
    var calls := if f.calls != [] then [ToolCalls(f.calls)] else [];
    var front, last := r.sent + f.queue, Ending(response, f, history, stateAllowed);
    var closings := Closings(response, f);
    EndingIsFinished(response, f, history, stateAllowed);
    ClosingsAreSilent(response, f, last);
    assert r.sent + f.queue + usage + calls + [last] == front + (closings + [last]);
    ReconciledPastSilence(r.sent, front, closings + [last], response.output);
    OpenJoins(r.sent, f.queue);
    BuiltEndsWell(r.sent, front, response, f, history, stateAllowed);
  }

  lemma EndingIsFinished(response: Response, f: Final, history: History, stateAllowed: bool)
    ensures Ending(response, f, history, stateAllowed).Finished?
  {
  }

  lemma BuiltEndsWell(streamed: seq<Event>, front: seq<Event>, response: Response, f: Final, history: History,
      stateAllowed: bool)
    requires f.spoken == OutputText(response.output, |response.output|, Spoken)
    requires f.thought == OutputText(response.output, |response.output|, Thought)
    requires f.calls == CallsIn(response, |response.output|)
    requires response.usage.Some? ==> !BadTokens(response.usage.value)
    requires streamed <= front && Open(front)
    requires
      var all := front + (Closings(response, f) + [Ending(response, f, history, stateAllowed)]);
      Reconciled(streamed, all, response.output)
    ensures
      var all := front + (Closings(response, f) + [Ending(response, f, history, stateAllowed)]);
      EndsWell(streamed, all, response, history, stateAllowed)
  {
    hide Reconciled, OutputText, SavedOutput, Saved, Open, CallsIn;
    var closings, last := Closings(response, f), Ending(response, f, history, stateAllowed);
    var all := front + (closings + [last]);
    assert all[..|front|] == front;
    assert all[|all| - 1] == last;
    if f.calls != [] {
      assert closings[|closings| - 1] == ToolCalls(f.calls);
      assert all[|all| - 2] == closings[|closings| - 1];
    }
    if response.usage.Some? {
      assert closings[0] == Used(UsageOf(response.usage.value));
      assert all[|front|] == closings[0];
    }
  }

  lemma ClosingsAreSilent(response: Response, f: Final, last: Event)
    requires last.Finished?
    ensures Silent(Closings(response, f) + [last])
    ensures Closings(response, f)
         == (if response.usage.Some? then [Used(UsageOf(response.usage.value))] else [])
            + if f.calls != [] then [ToolCalls(f.calls)] else []
  {
  }

  /** The reader when it gets to event `n`, unless an earlier event stopped it. */
  function ReaderAt(r: Reader, events: seq<Incoming>, k: nat, n: nat, history: History, stateAllowed: bool)
      : Option<Reader>
    requires k <= n <= |events|
    decreases n - k
  {
    if k == n then Some(r)
    else
      var step := Receive(r, events[k], history, stateAllowed);
      if step.Stop? then None else ReaderAt(step.reader, events, k + 1, n, history, stateAllowed)
  }

  /** Event `j` is the terminal one that stopped the reader; its response ends well behind
      exactly what the events before it sent. */
  ghost predicate EndsAt(r: Reader, all: seq<Event>, events: seq<Incoming>, k: nat, j: nat, history: History,
      stateAllowed: bool)
    requires k <= j < |events|
  {
    var before := ReaderAt(r, events, k, j, history, stateAllowed);
    && before.Some?
    && Receive(before.value, events[j], history, stateAllowed) == Stop(all)
    && events[j].body.Terminal?
    && EndsWell(before.value.sent, all, events[j].body.response, history, stateAllowed)
  }

  /** One ending, at the end: an error, or a terminal response that ends well. */
  ghost predicate StreamEnds(r: Reader, all: seq<Event>, events: seq<Incoming>, k: nat, history: History,
      stateAllowed: bool)
  {
    && all != [] && Unended(all[..|all| - 1])
    && (all[|all| - 1].Error? || exists j :: k <= j < |events| && EndsAt(r, all, events, k, j, history, stateAllowed))
  }

  lemma FailureEndsStream(r: Reader, fault: Fault, events: seq<Incoming>, k: nat, history: History, stateAllowed: bool)
    requires Open(r.sent)
    ensures StreamEnds(r, r.sent + [Error(fault)], events, k, history, stateAllowed)
  {
    var all := r.sent + [Error(fault)];
    assert all[..|all| - 1] == r.sent;
  }

  lemma {:induction false} StreamReconciles(r: Reader, events: seq<Incoming>, k: nat, history: History,
      stateAllowed: bool)
    requires k <= |events| && Honest(r) && Open(r.sent)
    ensures StreamEnds(r, Heed(r, events, k, history, stateAllowed), events, k, history, stateAllowed)
    decreases |events| - k
  {
    hide Honest, Open, Terminate, EndsWell, StreamEnds, EndsAt;
    if k == |events| {
      FailureEndsStream(r, NoTerminal, events, k, history, stateAllowed);
    } else {
      var step := Receive(r, events[k], history, stateAllowed);
      if step.More? {
        ReceiveKeepsHonest(r, events[k], history, stateAllowed);
        StreamReconciles(step.reader, events, k + 1, history, stateAllowed);
        EndsOneEarlier(r, Heed(r, events, k, history, stateAllowed), events, k, history, stateAllowed);
      } else {
        StopEndsStream(r, events, k, history, stateAllowed);
      }
    }
  }

  /** How a stream ends is the same seen from one event earlier. */
  lemma EndsOneEarlier(r: Reader, all: seq<Event>, events: seq<Incoming>, k: nat, history: History, stateAllowed: bool)
    requires k < |events| && Receive(r, events[k], history, stateAllowed).More?
    requires StreamEnds(Receive(r, events[k], history, stateAllowed).reader, all, events, k + 1, history, stateAllowed)
    ensures StreamEnds(r, all, events, k, history, stateAllowed)
  {
    hide Receive, Open, EndsWell;
    var next := Receive(r, events[k], history, stateAllowed).reader;
    if !all[|all| - 1].Error? {
      var j :| k + 1 <= j < |events| && EndsAt(next, all, events, k + 1, j, history, stateAllowed);
      assert EndsAt(r, all, events, k, j, history, stateAllowed);
    }
  }

  lemma StopEndsStream(r: Reader, events: seq<Incoming>, k: nat, history: History, stateAllowed: bool)
    requires k < |events| && Honest(r) && Open(r.sent)
    requires Receive(r, events[k], history, stateAllowed).Stop?
    ensures StreamEnds(r, Receive(r, events[k], history, stateAllowed).sent, events, k, history, stateAllowed)
  {
    hide Honest, Open, Terminate, EndsWell, StreamEnds, FinishCall, Locate;
    var e := events[k];
    var step := Receive(r, e, history, stateAllowed);
    if step.sent != [] && step.sent == r.sent + [step.sent[|step.sent| - 1]] && step.sent[|step.sent| - 1].Error? {
      FailureEndsStream(r, step.sent[|step.sent| - 1].fault, events, k, history, stateAllowed);
    } else {
      LocateKeepsBooks(r, e);
      var s := Locate(r, e).value.0;
      TerminalIsAllOrNothing(s, e.body.truncated, e.body.response, history, stateAllowed);
      EndsWellEndsStream(r, step.sent, events, k, history, stateAllowed);
    }
  }

  lemma EndsWellEndsStream(r: Reader, all: seq<Event>, events: seq<Incoming>, k: nat, history: History,
      stateAllowed: bool)
    requires k < |events| && events[k].body.Terminal?
    requires Receive(r, events[k], history, stateAllowed) == Stop(all)
    requires EndsWell(r.sent, all, events[k].body.response, history, stateAllowed)
    ensures StreamEnds(r, all, events, k, history, stateAllowed)
  {
    hide Receive, EndsWell, Unended;
    EndsWellOnce(r.sent, all, events[k].body.response, history, stateAllowed);
    assert EndsAt(r, all, events, k, k, history, stateAllowed);
  }

  /** Every stream: the caller gets exactly one ending, and it is last. When it is not an
      error, it answers the terminal event that the reader stopped at: what the events
      before it sent and what it added agree with its response, and the saved state binds
      exactly the words and calls of that response. */
  lemma EveryStreamReconciles(events: seq<Incoming>, history: History, stateAllowed: bool)
    ensures StreamEnds(NEW_READER, Heed(NEW_READER, events, 0, history, stateAllowed), events, 0, history, stateAllowed)
  {
    hide StreamEnds;
    assert Honest(NEW_READER);
    StreamReconciles(NEW_READER, events, 0, history, stateAllowed);
  }
}
