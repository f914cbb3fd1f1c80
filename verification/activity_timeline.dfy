/** The projected timeline as a whole: its order, its counters, what a stopped run shows,
    and which late events a terminal item absorbs. */
module ActivityTimeline {
  import opened Wrappers
  import opened ActivityItem
  import opened ActivityItemLaws
  import opened ActivityReducer
  import opened ActivityLaws
  import opened ActivityRuns
  import StableSort

  /** After a canceled or errored run end no snapshot shows unfinished work or an
      undecided approval, whatever came before or comes after. */
  lemma StoppedRunShowsNothingOpen(s: State, now: int)
    requires WellFormed(s) && s.runEnd.Some? && RunEndStops(s.runEnd.value)
    ensures forall item :: item in Timeline(s, now) ==> !Unresolved(item.core)
  {
    hide Projected, Timeline, Unresolved;
    TimelineItems(s, now);
    forall item | item in Timeline(s, now) ensures !Unresolved(item.core) {
      SettlesIff(s.items[item.id].item, s.runEnd.value, now);
    }
  }

  /** Later events keep it so until another run end replaces this one. */
  lemma StoppedRunStaysStopped(s: State, ev: Event, now: int)
    requires s.runEnd.Some? && RunEndStops(s.runEnd.value)
    requires ev.kind != RunEnd || ev.validationError || RunEndStops(ev)
    ensures Applied(s, ev, now).runEnd.Some? && RunEndStops(Applied(s, ev, now).runEnd.value)
  {
    AppliedGrows(s, ev, now);
  }

  /** Late calls, dispatches, updates, requests and approvals leave every terminal item
      terminal with the same status; results leave a rejected item declined. */
  lemma TerminalItemsAbsorb(s: State, ev: Event, now: int, key: string)
    requires WellFormed(s) && key in s.items && IsToolEvent(ev)
    requires var c := s.items[key].item.core;
      (Terminal(c.status) && !IsResult(ev) && (IsDecision(ev) ==> ev.kind == ApprovalApproved)) ||
      (c.status == Declined && c.approval == Rejected && IsResult(ev))
    ensures key in Applied(s, ev, now).items
    ensures Applied(s, ev, now).items[key].item.core.status == s.items[key].item.core.status
    ensures Applied(s, ev, now).items[key].item.core.approval == s.items[key].item.core.approval
  {
    hide Revise, ReviseCore, Created, Key, WellFormed;
    var item := s.items[key].item;
    RevisionKeepsID(item, ev, EventTime(ev, now));
    AppliedGrows(s, ev, now);
    if IsResult(ev) && item.core.approval == Rejected {
      RejectionOutranksResults(item.core, ev, EventTime(ev, now));
    } else {
      TerminalAbsorbs(item.core, ev, EventTime(ev, now));
    }
  }

  // ----- Order -----

  /** By sort time, then by arrival. */
  ghost predicate InTimeOrder(s: State, items: seq<Item>)
    requires forall item :: item in items ==> item.id in s.items
  {
    forall i, j :: 0 <= i < j < |items| ==>
      SortTime(items[i]) < SortTime(items[j]) ||
      (SortTime(items[i]) == SortTime(items[j]) && s.items[items[i].id].order <= s.items[items[j].id].order)
  }

  predicate Known(s: State, list: seq<Item>) {
    forall item :: item in list ==> item.id in s.items
  }

  function Order(s: State, item: Item): nat
    requires item.id in s.items
  {
    s.items[item.id].order
  }

  /** An untimed item arrived between two timed ones, the later of which started first. */
  predicate IsCrossing(s: State, x: Item, y: Item, z: Item)
    requires x.id in s.items && y.id in s.items && z.id in s.items
  {
    && SortTime(x) != 0 && SortTime(y) != 0 && SortTime(z) == 0
    && SortTime(x) < SortTime(y)
    && Order(s, y) < Order(s, z) < Order(s, x)
  }

  predicate Crossed(s: State, list: seq<Item>)
    requires Known(s, list)
  {
    exists x, y, z :: x in list && y in list && z in list && IsCrossing(s, x, y, z)
  }

  predicate DistinctOrders(s: State, list: seq<Item>)
    requires Known(s, list)
  {
    forall x, y :: x in list && y in list && Order(s, x) == Order(s, y) ==> x == y
  }

  lemma ComparatorHolds(s: State, list: seq<Item>)
    requires Known(s, list)
    ensures forall x, y :: x in list && y in list ==> (Comparator(s)(x, y) <==> Before(s, x, y))
  {
  }

  /** The comparator can be trusted on a list if and only if nothing in it is crossed. */
  lemma ComparatorIsConsistentIff(s: State, list: seq<Item>)
    requires Known(s, list) && DistinctOrders(s, list)
    ensures StableSort.Consistent(list, Comparator(s)) <==> !Crossed(s, list)
  {
    hide SortTime;
    ComparatorHolds(s, list);
    var less := Comparator(s);
    if Crossed(s, list) {
      var x, y, z :| x in list && y in list && z in list && IsCrossing(s, x, y, z);
      assert less(x, y) && less(y, z) && less(z, x);
      assert !less(z, y) && !less(x, z);
    } else {
      forall x, y, z | x in list && y in list && z in list && !less(y, x) && !less(z, y)
        ensures !less(z, x)
      {
        NotCrossedIsTransitive(s, list, x, y, z);
      }
    }
  }

  lemma NotCrossedIsTransitive(s: State, list: seq<Item>, x: Item, y: Item, z: Item)
    requires Known(s, list) && DistinctOrders(s, list) && !Crossed(s, list)
    requires x in list && y in list && z in list && !Before(s, y, x) && !Before(s, z, y)
    ensures !Before(s, z, x)
  {
    hide SortTime;
    assert !IsCrossing(s, z, x, y) && !IsCrossing(s, y, x, z) && !IsCrossing(s, z, y, x);
  }

  /** Three crossed items each come before the next, so no arrangement is sorted. */
  lemma CrossedHasNoOrder(s: State, list: seq<Item>)
    requires Known(s, list) && Crossed(s, list)
    ensures !StableSort.Sorted(list, Comparator(s))
  {
    hide SortTime;
    ComparatorHolds(s, list);
    var less := Comparator(s);
    var x, y, z :| x in list && y in list && z in list && IsCrossing(s, x, y, z);
    var i :| 0 <= i < |list| && list[i] == x;
    var j :| 0 <= j < |list| && list[j] == y;
    var k :| 0 <= k < |list| && list[k] == z;
    assert less(x, y) && less(y, z) && less(z, x);
    assert !(i < j && j < k && k < i);
  }

  lemma ShownItems(s: State, now: int)
    requires WellFormed(s)
    ensures Known(s, Timeline(s, now)) && DistinctOrders(s, Timeline(s, now))
  {
    hide Projected, Timeline;
    TimelineItems(s, now);
  }

  lemma SameElements(a: seq<Item>, b: seq<Item>)
    requires multiset(a) == multiset(b)
    ensures forall item :: item in a <==> item in b
  {
    forall item | item in a || item in b
      ensures item in a && item in b
    {
      assert item in multiset(a) && item in multiset(b);
    }
  }

  /** A snapshot is sorted by the comparator if and only if nothing in it is crossed; when
      something is, no other arrangement of its items is sorted either. */
  lemma TimelineIsSortedIff(s: State, now: int, other: seq<Item>)
    requires WellFormed(s) && multiset(other) == multiset(Timeline(s, now))
    ensures Known(s, Timeline(s, now))
    ensures StableSort.Sorted(Timeline(s, now), Comparator(s)) <==> !Crossed(s, Timeline(s, now))
    ensures Crossed(s, Timeline(s, now)) ==> !StableSort.Sorted(other, Comparator(s))
  {
    hide Projected, SortTime, IsCrossing;
    ShownItems(s, now);
    var list, items := Project(s, s.order, now), Timeline(s, now);
    SameElements(list, items);
    SameElements(other, items);
    if Crossed(s, items) {
      CrossedHasNoOrder(s, items);
      CrossedHasNoOrder(s, other);
    } else {
      ComparatorIsConsistentIff(s, list);
      StableSort.SortSorted(list, Comparator(s));
    }
  }

  /** When every item has a sort time, the snapshot is in time order. */
  lemma TimedItemsAreSorted(s: State, now: int)
    requires WellFormed(s)
    requires forall item :: item in Timeline(s, now) ==> SortTime(item) != 0
    ensures forall item :: item in Timeline(s, now) ==> item.id in s.items
    ensures InTimeOrder(s, Timeline(s, now))
  {
    hide Projected, SortTime, StableSort.Consistent, Timeline;
    var items := Timeline(s, now);
    TimelineIsSortedIff(s, now, items);
    assert !Crossed(s, items);
    forall i, j | 0 <= i < j < |items|
      ensures SortTime(items[i]) < SortTime(items[j])
        || (SortTime(items[i]) == SortTime(items[j]) && s.items[items[i].id].order <= s.items[items[j].id].order)
    {
      assert !Comparator(s)(items[j], items[i]);
      assert items[i] in items && items[j] in items;
    }
  }

  /** A call; a pending result of something else, without a duration; and a result of a
      third thing that began before the call. */
  predicate CrossingEvents(call: Event, pending: Event, early: Event) {
    && call.kind == ToolCall && pending.kind == ToolResult && early.kind == ToolResult
    && !call.validationError && !pending.validationError && !early.validationError
    && call.toolID == "a" && pending.toolID == "b" && early.toolID == "c"
    && call.observedAt == Some(2) && pending.observedAt == Some(2) && early.observedAt == Some(3)
    && pending.resultStatus == NoStatus && !pending.hasError && pending.pendingResult && pending.durationMS == 0
    && early.resultStatus == SuccessStatus && !early.hasError && !early.pendingResult && early.durationMS == 2
  }

  lemma CrossingCores(call: Event, pending: Event, early: Event)
    requires CrossingEvents(call, pending, early)
    ensures ReviseCore(CreatedCore(call, 2), call, 2).startedAt == 2
    ensures var c := ReviseCore(CreatedCore(pending, 2), pending, 2); c.startedAt == 0 && c.endedAt == 0
    ensures ReviseCore(CreatedCore(early, 3), early, 3).startedAt == 1
    ensures FirstAllowed(call) && FirstAllowed(pending) && FirstAllowed(early)
  {
  }

  /** One event that opens a new key. */
  lemma Opens(s: State, ev: Event, now: int)
    requires WellFormed(s) && s.runEnd.None? && IsToolEvent(ev) && !ev.validationError && Key(ev, s.index) !in s.items
    ensures var key, at, t := Key(ev, s.index), EventTime(ev, now), Applied(s, ev, now);
      && t.items.Keys == s.items.Keys + {key}
      && t.items[key].order == |s.order| && t.items[key].item.core == ReviseCore(CreatedCore(ev, at), ev, at)
      && t.index == s.index + 1 && |t.order| == |s.order| + 1 && t.runEnd.None?
      && forall other :: other in s.items ==> t.items[other] == s.items[other]
  {
    hide Key, Revise, ReviseCore, Created, CreatedCore;
    var key, at := Key(ev, s.index), EventTime(ev, now);
    RevisionKeepsID(Created(key, ev, at), ev, at);
    CreationNames(key, ev, at);
  }

  lemma CrossingKeys(call: Event, pending: Event, early: Event)
    requires CrossingEvents(call, pending, early)
    ensures Key(call, 0) == "tool:a" && Key(pending, 1) == "tool:b" && Key(early, 2) == "tool:c"
  {
    assert "tool:" + "a" == "tool:a" && "tool:" + "b" == "tool:b" && "tool:" + "c" == "tool:c";
  }

  lemma CrossingRun(call: Event, pending: Event, early: Event)
    requires CrossingEvents(call, pending, early)
    ensures var facts := [Fact(call, 0), Fact(pending, 0), Fact(early, 0)];
      && LegalRun(facts)
      && var s := Folded(facts, 3);
      && s.runEnd.None? && {"tool:a", "tool:b", "tool:c"} <= s.items.Keys
      && s.items["tool:a"].order == 0 && s.items["tool:b"].order == 1 && s.items["tool:c"].order == 2
      && s.items["tool:a"].item.core.startedAt == 2 && s.items["tool:c"].item.core.startedAt == 1
      && s.items["tool:b"].item.core.startedAt == 0 && s.items["tool:b"].item.core.endedAt == 0
  {
    hide Key, ReviseCore, CreatedCore, Applied, WellFormed, FirstAllowed;
    var facts := [Fact(call, 0), Fact(pending, 0), Fact(early, 0)];
    CrossingCores(call, pending, early);
    CrossingKeys(call, pending, early);
    assert "tool:a" != "tool:b" && "tool:b" != "tool:c" && "tool:a" != "tool:c" by {
      assert "tool:a"[5] == 'a' && "tool:b"[5] == 'b' && "tool:c"[5] == 'c';
    }
    var s0, s1, s2 := Folded(facts, 0), Folded(facts, 1), Folded(facts, 2);
    assert s0 == EMPTY;
    Opens(s0, call, 0);
    assert s1 == Applied(s0, call, 0);
    Opens(s1, pending, 0);
    assert s2 == Applied(s1, pending, 0);
    Opens(s2, early, 0);
    assert Folded(facts, 3) == Applied(s2, early, 0);
    assert LegalFact(s0, Clock(facts, 0), facts[0]);
    assert LegalFact(s1, Clock(facts, 1), facts[1]);
    assert LegalFact(s2, Clock(facts, 2), facts[2]);
  }

  /** It happens in a legal run: its snapshot, and every other arrangement of those three
      items, is out of order. */
  lemma UntimedItemsCanCycle(call: Event, pending: Event, early: Event, now: int)
    requires CrossingEvents(call, pending, early)
    ensures var facts := [Fact(call, 0), Fact(pending, 0), Fact(early, 0)];
      LegalRun(facts) && !StableSort.Sorted(Timeline(Folded(facts, 3), now), Comparator(Folded(facts, 3)))
  {
    hide Timeline, LegalRun, Folded, Known, Crossed;
    var facts := [Fact(call, 0), Fact(pending, 0), Fact(early, 0)];
    CrossingRun(call, pending, early);
    var s := Folded(facts, 3);
    var items := Timeline(s, now);
    TimelineItems(s, now);
    TimelineIsSortedIff(s, now, items);
    var a := Projected(s.items["tool:a"].item, None, now);
    var b := Projected(s.items["tool:b"].item, None, now);
    var c := Projected(s.items["tool:c"].item, None, now);
    CrossingShown(s, items, a, b, c, now);
  }

  lemma CrossingShown(s: State, items: seq<Item>, a: Item, b: Item, c: Item, now: int)
    requires WellFormed(s) && s.runEnd.None? && {"tool:a", "tool:b", "tool:c"} <= s.items.Keys
    requires items == Timeline(s, now)
    requires a == Projected(s.items["tool:a"].item, None, now)
    requires b == Projected(s.items["tool:b"].item, None, now)
    requires c == Projected(s.items["tool:c"].item, None, now)
    requires s.items["tool:a"].order == 0 && s.items["tool:b"].order == 1 && s.items["tool:c"].order == 2
    requires s.items["tool:a"].item.core.startedAt == 2 && s.items["tool:c"].item.core.startedAt == 1
    requires s.items["tool:b"].item.core.startedAt == 0 && s.items["tool:b"].item.core.endedAt == 0
    ensures Known(s, items) && Crossed(s, items)
  {
    hide Timeline, Projected;
    TimelineItems(s, now);
    ShownUnsettled(s, "tool:a", now);
    ShownUnsettled(s, "tool:b", now);
    ShownUnsettled(s, "tool:c", now);
    assert IsCrossing(s, c, a, b);
  }

  lemma ShownUnsettled(s: State, key: string, now: int)
    requires WellFormed(s) && s.runEnd.None? && key in s.items
    ensures var item := Projected(s.items[key].item, None, now);
      && item.id == key && item in Timeline(s, now)
      && item.core.startedAt == s.items[key].item.core.startedAt && item.core.endedAt == s.items[key].item.core.endedAt
  {
    hide Timeline;
    ProjectedKeepsID(s.items[key].item, None, now);
    ShownOf(s, key, now);
  }

  // ----- Counters -----

  datatype Counts = Counts(pending: nat, running: nat, waiting: nat, success: nat, failed: nat,
                           declined: nat, canceled: nat, unknown: nat, approval: nat)

  function CountStatus(items: seq<Item>, status: Status, k: nat): nat
    requires k <= |items|
  {
    if k == 0 then 0 else CountStatus(items, status, k - 1) + if items[k - 1].core.status == status then 1 else 0
  }

  function CountApprovals(items: seq<Item>, k: nat): nat
    requires k <= |items|
  {
    if k == 0 then 0 else CountApprovals(items, k - 1) + if items[k - 1].core.requiresApproval then 1 else 0
  }

  lemma {:induction false} NoneCounted(items: seq<Item>, status: Status, k: nat)
    requires k <= |items|
    ensures CountStatus(items, status, k) == 0 <==> forall i :: 0 <= i < k ==> items[i].core.status != status
  {
    if k > 0 {
      NoneCounted(items, status, k - 1);
    }
  }

  method CountItems(items: seq<Item>) returns (c: Counts)
    ensures c.pending == CountStatus(items, Pending, |items|)
    ensures c.running == CountStatus(items, Running, |items|)
    ensures c.waiting == CountStatus(items, Waiting, |items|)
    ensures c.success == CountStatus(items, Success, |items|)
    ensures c.failed == CountStatus(items, Failed, |items|)
    ensures c.declined == CountStatus(items, Declined, |items|)
    ensures c.canceled == CountStatus(items, Canceled, |items|)
    ensures c.unknown == CountStatus(items, Unknown, |items|)
    ensures c.pending + c.running + c.waiting + c.success + c.failed + c.declined + c.canceled + c.unknown == |items|
    ensures c.approval == CountApprovals(items, |items|)
  {
    c := Counts(0, 0, 0, 0, 0, 0, 0, 0, 0);
    for i := 0 to |items|
      invariant c.pending == CountStatus(items, Pending, i)
      invariant c.running == CountStatus(items, Running, i)
      invariant c.waiting == CountStatus(items, Waiting, i)
      invariant c.success == CountStatus(items, Success, i)
      invariant c.failed == CountStatus(items, Failed, i)
      invariant c.declined == CountStatus(items, Declined, i)
      invariant c.canceled == CountStatus(items, Canceled, i)
      invariant c.unknown == CountStatus(items, Unknown, i)
      invariant c.approval == CountApprovals(items, i)
    {
      match items[i].core.status {
        case Pending => c := c.(pending := c.pending + 1);
        case Running => c := c.(running := c.running + 1);
        case Waiting => c := c.(waiting := c.waiting + 1);
        case Success => c := c.(success := c.success + 1);
        case Failed => c := c.(failed := c.failed + 1);
        case Declined => c := c.(declined := c.declined + 1);
        case Canceled => c := c.(canceled := c.canceled + 1);
        case Unknown => c := c.(unknown := c.unknown + 1);
      }
      if items[i].core.requiresApproval {
        c := c.(approval := c.approval + 1);
      }
    }
    CountersAddUp(items, |items|);
  }

  lemma {:induction false} CountersAddUp(items: seq<Item>, k: nat)
    requires k <= |items|
    ensures CountStatus(items, Pending, k) + CountStatus(items, Running, k) + CountStatus(items, Waiting, k)
          + CountStatus(items, Success, k) + CountStatus(items, Failed, k) + CountStatus(items, Declined, k)
          + CountStatus(items, Canceled, k) + CountStatus(items, Unknown, k) == k
  {
    if k > 0 {
      CountersAddUp(items, k - 1);
    }
  }

  /** After a stopped run nothing is pending or running, no approval is open, and what is
      still counted as waiting are exactly the items that wait for no approval: the
      control items of signals and waiting run ends. */
  lemma StoppedRunCountsNothingActive(s: State, now: int)
    requires WellFormed(s) && s.runEnd.Some? && RunEndStops(s.runEnd.value)
    ensures CountStatus(Timeline(s, now), Pending, |Timeline(s, now)|) == 0
    ensures CountStatus(Timeline(s, now), Running, |Timeline(s, now)|) == 0
    ensures CountStatus(Timeline(s, now), Waiting, |Timeline(s, now)|) > 0 <==>
      exists key :: key in s.items && WaitsForNothing(s.items[key].item.core)
  {
    hide Projected, Timeline, WaitsForNothing;
    StoppedRunShowsNothingOpen(s, now);
    TimelineItems(s, now);
    var items := Timeline(s, now);
    assert forall i :: 0 <= i < |items| ==> items[i] in items;
    NoneCounted(items, Pending, |items|);
    NoneCounted(items, Running, |items|);
    NoneCounted(items, Waiting, |items|);
    forall key | key in s.items
      ensures Projected(s.items[key].item, s.runEnd, now).core.status == Waiting <==>
        WaitsForNothing(s.items[key].item.core)
      ensures Projected(s.items[key].item, s.runEnd, now) in items
    {
      WaitingAfterStop(s.items[key].item, s.runEnd.value, now);
      ShownOf(s, key, now);
    }
    if key :| key in s.items && WaitsForNothing(s.items[key].item.core) {
      var i :| 0 <= i < |items| && items[i] == Projected(s.items[key].item, s.runEnd, now);
    }
  }

  predicate WaitsForNothing(c: Core) {
    c.status == Waiting && !c.requiresApproval
  }

  lemma WaitingAfterStop(item: Item, end: Event, now: int)
    requires RunEndStops(end)
    ensures Projected(item, Some(end), now).core.status == Waiting <==> WaitsForNothing(item.core)
  {
    hide HasPendingMetadata, TerminalMetadata;
  }

  lemma ShownOf(s: State, key: string, now: int)
    requires WellFormed(s) && key in s.items
    ensures Projected(s.items[key].item, s.runEnd, now) in Timeline(s, now)
  {
    hide Timeline, Projected;
    TimelineItems(s, now);
    ProjectedKeepsID(s.items[key].item, s.runEnd, now);
  }
}
