/** Legal runs give legal timelines, a disciplined caller only makes legal runs, and a
    stopped run leaves nothing open. */
module ActivityRuns {
  import opened Wrappers
  import opened ActivityItem
  import opened ActivityItemLaws
  import opened ActivityReducer
  import opened ActivityLaws
  import Text

  datatype Fact = Fact(ev: Event, now: int)

  function At(fact: Fact): int { EventTime(fact.ev, fact.now) }

  /** The reducer after the first `k` facts. */
  function Folded(facts: seq<Fact>, k: nat): (r: State)
    requires k <= |facts|
    ensures WellFormed(r)
  {
    if k == 0 then EMPTY
    else
      AppliedKeepsShape(Folded(facts, k - 1), facts[k - 1].ev, facts[k - 1].now);
      Applied(Folded(facts, k - 1), facts[k - 1].ev, facts[k - 1].now)
  }

  function Clock(facts: seq<Fact>, k: nat): int
    requires k <= |facts|
  {
    if k == 0 then 0 else At(facts[k - 1])
  }

  // ----- Legal runs -----

  /** A fact the reducer can take: later than the one before, and a tool event only if
      the guard of its item, or of a first event, holds. */
  predicate LegalFact(s: State, clock: int, fact: Fact) {
    && 0 < At(fact) && clock <= At(fact)
    && (IsToolEvent(fact.ev) && !fact.ev.validationError ==>
        var key := Key(fact.ev, s.index);
        if key in s.items then Allowed(s.items[key].item.core, fact.ev, At(fact)) else FirstAllowed(fact.ev))
  }

  /** Facts are legal one by one; they may go on after a run end. */
  predicate LegalRun(facts: seq<Fact>) {
    forall k :: 0 <= k < |facts| ==> LegalFact(Folded(facts, k), Clock(facts, k), facts[k])
  }

  predicate ToolKeyed(key: string) { key != "" && key[0] == 't' }

  lemma KeysTellKinds(ev: Event, index: nat)
    ensures var key := Key(ev, index);
      && key != "" && !Text.Blank(key)
      && (ToolKeyed(key) <==> ev.kind !in {ControlSignal, BudgetExceeded, RunEnd})
  {
    var key := Key(ev, index);
    assert key[0] ==
      if ev.kind == BudgetExceeded then 'b' else if ev.kind in {ControlSignal, RunEnd} then 'c' else 't' by {
      assert "tool:"[0] == 't' && "control:"[0] == 'c' && "budget:"[0] == 'b' && "control:waiting:"[0] == 'c';
    }
    NotBlank(key);
  }

  lemma NotBlank(s: string)
    requires s != "" && !Text.IsSpace(s[0])
    ensures !Text.Blank(s)
  {
    TrimRightKeeps(s);
  }

  lemma {:induction false} TrimRightKeeps(s: string)
    requires s != "" && !Text.IsSpace(s[0])
    ensures Text.TrimRight(s) != ""
  {
    if Text.IsSpace(s[|s| - 1]) {
      TrimRightKeeps(s[..|s| - 1]);
    }
  }

  predicate EntrySound(key: string, item: Item, clock: int) {
    && item.id == key && !Text.Blank(key) && !item.needsAttention
    && Sound(item.core, clock)
    && if ToolKeyed(key) then ToolSound(item.core, clock)
       else item.core.approval == NoApproval && !item.core.requiresApproval
  }

  ghost predicate AllSound(s: State, clock: int) {
    0 <= clock && forall key :: key in s.items ==> EntrySound(key, s.items[key].item, clock)
  }

  lemma SoundLater(key: string, item: Item, clock: int, later: int)
    requires EntrySound(key, item, clock) && clock <= later
    ensures EntrySound(key, item, later)
  {
  }

  lemma OtherRevisionIsSound(c: Core, ev: Event, at: int)
    requires c.approval == NoApproval && !c.requiresApproval && Sound(c, at) && 0 < at
    requires ev.kind in {ControlSignal, BudgetExceeded, RunEnd}
    ensures var r := ReviseCore(c, ev, at); Sound(r, at) && r.approval == NoApproval && !r.requiresApproval
  {
  }

  lemma TouchedEntryIsSound(s: State, clock: int, fact: Fact)
    requires WellFormed(s) && AllSound(s, clock) && LegalFact(s, clock, fact) && Touches(s, fact.ev)
    ensures var key := Key(fact.ev, s.index);
      EntrySound(key, Revise(EntryFor(s, key, fact.ev, At(fact)).item, fact.ev, At(fact)), At(fact))
  {
    hide Revise, ReviseCore, Created, CreatedCore, Key, Allowed, Text.Blank, Sound, ToolSound;
    var ev, at, key := fact.ev, At(fact), Key(fact.ev, s.index);
    KeysTellKinds(ev, s.index);
    var entry := EntryFor(s, key, ev, at);
    RevisionKeepsID(entry.item, ev, at);
    CreationNames(key, ev, at);
    CreationIsCalm(key, ev, at);
    if key in s.items {
      SoundLater(key, entry.item, clock, at);
      if ToolKeyed(key) {
        ToolEvents(ev);
        RevisionIsSoundIff(entry.item.core, ev, at, at);
      } else {
        OtherRevisionIsSound(entry.item.core, ev, at);
      }
    } else if ToolKeyed(key) {
      ToolEvents(ev);
      CreationIsSoundIff(ev, at);
    } else {
      FreshOtherIsSound(ev, at);
    }
    SoundParts(Revise(entry.item, ev, at).core, at);
  }

  lemma SoundParts(c: Core, at: int)
    ensures ToolSound(c, at) ==> Sound(c, at)
  {
  }

  lemma CreationIsCalm(key: string, ev: Event, at: int)
    ensures !Created(key, ev, at).needsAttention
  {
  }

  lemma FreshOtherIsSound(ev: Event, at: int)
    requires ev.kind in {ControlSignal, BudgetExceeded, RunEnd} && 0 < at
    ensures
      var r := ReviseCore(CreatedCore(ev, at), ev, at);
      Sound(r, at) && r.approval == NoApproval && !r.requiresApproval
  {
  }

  lemma ToolEvents(ev: Event)
    ensures IsToolEvent(ev) <==> ev.kind !in {ControlSignal, BudgetExceeded, RunEnd, OtherEvent}
  {
  }

  lemma LegalFactKeepsSound(s: State, clock: int, fact: Fact)
    requires WellFormed(s) && AllSound(s, clock) && LegalFact(s, clock, fact)
    ensures AllSound(Applied(s, fact.ev, fact.now), At(fact))
  {
    hide Revise, Created, Key, LegalFact, EntrySound;
    var t, key := Applied(s, fact.ev, fact.now), Key(fact.ev, s.index);
    assert 0 < At(fact) && clock <= At(fact) by { LegalTimes(s, clock, fact); }
    if Touches(s, fact.ev) {
      TouchedEntryIsSound(s, clock, fact);
    }
    forall k | k in t.items ensures EntrySound(k, t.items[k].item, At(fact)) {
      if k in s.items && (k != key || !Touches(s, fact.ev)) {
        SoundLater(k, s.items[k].item, clock, At(fact));
      }
    }
  }

  lemma LegalTimes(s: State, clock: int, fact: Fact)
    requires LegalFact(s, clock, fact)
    ensures 0 < At(fact) && clock <= At(fact)
  {
  }

  lemma {:induction false} LegalRunIsSound(facts: seq<Fact>, k: nat)
    requires k <= |facts| && LegalRun(facts)
    ensures AllSound(Folded(facts, k), Clock(facts, k))
  {
    hide LegalFact, EntrySound, Applied, WellFormed, At;
    if k > 0 {
      LegalRunIsSound(facts, k - 1);
      LegalFactKeepsSound(Folded(facts, k - 1), Clock(facts, k - 1), facts[k - 1]);
    }
  }

  /** The latest run end dates some item before it started. */
  ghost predicate LateStart(s: State, now: int) {
    s.runEnd.Some? && exists key :: key in s.items && Overtaken(s.items[key].item, s.runEnd.value, now)
  }

  /** ValidateActivityTimeline on identity, lifecycle and time order. */
  ghost predicate ValidTimeline(items: seq<Item>) {
    && (forall i :: 0 <= i < |items| ==> ValidItem(items[i]))
    && (forall i, j :: 0 <= i < j < |items| ==> items[i].id != items[j].id)
  }

  lemma ProjectionHasDistinctIDs(s: State, now: int)
    requires WellFormed(s)
    ensures forall i, j :: 0 <= i < j < |s.order| ==> Project(s, s.order, now)[i].id != Project(s, s.order, now)[j].id
  {
    hide Projected;
    forall i | 0 <= i < |s.order| ensures Project(s, s.order, now)[i].id == s.order[i] {
      ProjectedKeepsID(s.items[s.order[i]].item, s.runEnd, now);
    }
  }

  /** No repeats survive a permutation. */
  lemma PermutationKeepsDistinct(a: seq<Item>, b: seq<Item>)
    requires multiset(a) == multiset(b)
    requires forall i, j :: 0 <= i < j < |a| ==> a[i].id != a[j].id
    ensures forall i, j :: 0 <= i < j < |b| ==> b[i].id != b[j].id
  {
    forall i, j | 0 <= i < j < |b| ensures b[i].id != b[j].id {
      assert b[i] in multiset(a) && b[j] in multiset(a);
      if b[i] == b[j] {
        ItemRepeats(b, i, j);
        ItemsCountOnce(a, b[i]);
      }
    }
  }

  lemma ItemRepeats(b: seq<Item>, i: nat, j: nat)
    requires i < j < |b| && b[i] == b[j]
    ensures multiset(b)[b[i]] >= 2
  {
    assert b == b[..j] + b[j..];
    assert b[..j][i] == b[i] && b[j..][0] == b[i];
    assert b[i] in multiset(b[..j]) && b[i] in multiset(b[j..]);
  }

  lemma {:induction false} ItemsCountOnce(a: seq<Item>, x: Item)
    requires forall i, j :: 0 <= i < j < |a| ==> a[i].id != a[j].id
    ensures multiset(a)[x] <= 1
    decreases |a|
  {
    if a != [] {
      var front := a[..|a| - 1];
      assert a == front + [a[|a| - 1]];
      ItemsCountOnce(front, x);
    }
  }

  lemma EntryIsValidIff(key: string, item: Item, end: Option<Event>, clock: int, now: int)
    requires EntrySound(key, item, clock)
    ensures ValidItem(Projected(item, end, now)) <==> !(end.Some? && Overtaken(item, end.value, now))
  {
    hide Sound, ToolSound, ToolKeyed, Text.Blank, Projected, ValidItem, Overtaken;
    if end.None? {
      SoundIsValid(item, None, clock, now);
    } else {
      SettledIsValidIff(item, end.value, clock, now);
    }
  }

  /** Approval lifecycle safety: at every point of every legal run, before and after run
      ends, whenever the snapshot is taken, the timeline passes the validator if and only
      if no item that the latest run end settles started after it. */
  lemma LegalRunsGiveValidTimelines(facts: seq<Fact>, k: nat, now: int)
    requires k <= |facts| && LegalRun(facts)
    ensures ValidTimeline(Timeline(Folded(facts, k), now)) <==> !LateStart(Folded(facts, k), now)
  {
    hide Projected, ValidItem, LegalFact, Timeline, EntrySound, Folded, Overtaken;
    var s := Folded(facts, k);
    LegalRunIsSound(facts, k);
    TimelineItems(s, now);
    var items := Timeline(s, now);
    forall key | key in s.items
      ensures ValidItem(Projected(s.items[key].item, s.runEnd, now)) <==>
        !(s.runEnd.Some? && Overtaken(s.items[key].item, s.runEnd.value, now))
      ensures Projected(s.items[key].item, s.runEnd, now) in items
    {
      EntryIsValidIff(key, s.items[key].item, s.runEnd, Clock(facts, k), now);
      EntryIsShown(facts, k, key, now);
    }
    ProjectionHasDistinctIDs(s, now);
    PermutationKeepsDistinct(Project(s, s.order, now), items);
    if LateStart(s, now) {
      var key :| key in s.items && Overtaken(s.items[key].item, s.runEnd.value, now);
      var i :| 0 <= i < |items| && items[i] == Projected(s.items[key].item, s.runEnd, now);
      assert !ValidItem(items[i]);
    } else {
      forall i | 0 <= i < |items|
        ensures ValidItem(items[i])
      {
        assert items[i] in items;
      }
    }
  }

  lemma EntryIsShown(facts: seq<Fact>, k: nat, key: string, now: int)
    requires k <= |facts| && LegalRun(facts) && key in Folded(facts, k).items
    ensures Projected(Folded(facts, k).items[key].item, Folded(facts, k).runEnd, now) in Timeline(Folded(facts, k), now)
  {
    hide Projected, LegalFact, Timeline, Folded, Sound, ToolSound, ToolKeyed, Text.Blank;
    var s := Folded(facts, k);
    LegalRunIsSound(facts, k);
    assert EntrySound(key, s.items[key].item, Clock(facts, k));
    ProjectedKeepsID(s.items[key].item, s.runEnd, now);
    TimelineItems(s, now);
  }

  /** Right after a run end nothing has started later, unless the clock that dates an
      untimed one goes back. */
  lemma RunEndIsNotOvertaken(facts: seq<Fact>, k: nat, now: int)
    requires k < |facts| && LegalRun(facts) && facts[k].ev.kind == RunEnd && !facts[k].ev.validationError
    requires facts[k].ev.observedAt.None? ==> facts[k].now <= now
    ensures !LateStart(Folded(facts, k + 1), now)
  {
    hide LegalFact, Applied, WellFormed, AllSound;
    LegalRunIsSound(facts, k + 1);
    AppliedGrows(Folded(facts, k), facts[k].ev, facts[k].now);
    SoundIsNotOvertaken(Folded(facts, k + 1), At(facts[k]), now);
  }

  lemma SoundIsNotOvertaken(s: State, clock: int, now: int)
    requires AllSound(s, clock) && (s.runEnd.Some? ==> clock <= EventTime(s.runEnd.value, now))
    ensures !LateStart(s, now)
  {
    hide Settles;
    assert forall key :: key in s.items ==> EntrySound(key, s.items[key].item, clock);
  }

  /** And only an event observed later than the run end can change that. */
  lemma OnlyLaterEventsOvertake(facts: seq<Fact>, k: nat, now: int)
    requires k < |facts| && LegalRun(facts)
    requires Folded(facts, k + 1).runEnd.Some? && LateStart(Folded(facts, k + 1), now)
    ensures EventTime(Folded(facts, k + 1).runEnd.value, now) < At(facts[k])
  {
    hide LegalFact, Applied, WellFormed, AllSound, LateStart;
    LegalRunIsSound(facts, k + 1);
    if At(facts[k]) <= EventTime(Folded(facts, k + 1).runEnd.value, now) {
      SoundIsNotOvertaken(Folded(facts, k + 1), At(facts[k]), now);
    }
  }

  /** It happens: a canceled run, and then a tool call that is observed later. */
  lemma LateCallBreaksTimeline(end: Event, call: Event, clock: int, now: int)
    requires end.kind == RunEnd && end.message == SaysCanceled && !end.validationError
    requires call.kind == ToolCall && !call.validationError
    requires end.observedAt.Some? && 0 < end.observedAt.value < EventTime(call, clock)
    ensures LegalRun([Fact(end, clock), Fact(call, clock)])
    ensures !ValidTimeline(Timeline(Folded([Fact(end, clock), Fact(call, clock)], 2), now))
  {
    hide Key, Revise, Created, ReviseCore, CreatedCore;
    hide Projected, Timeline, Text.Blank, ValidTimeline, HasPendingMetadata;
    var facts := [Fact(end, clock), Fact(call, clock)];
    assert Folded(facts, 0) == EMPTY;
    var s := Folded(facts, 1);
    assert s == Applied(EMPTY, end, clock) && s.index == 1;
    EndLeavesNothing(end, clock);
    assert Folded(facts, 2) == Applied(s, call, clock);
    var key, at := Key(call, 1), EventTime(call, clock);
    AppliedHere(s, call, clock);
    AppliedGrows(s, call, clock);
    var item := Revise(Created(key, call, at), call, at);
    RevisionKeepsID(Created(key, call, at), call, at);
    CreationNames(key, call, at);
    CalledIsOpen(call, at);
    assert LegalFact(EMPTY, 0, facts[0]) && LegalFact(s, Clock(facts, 1), facts[1]) by {
      FirstCallIsAllowed(call);
    }
    assert Folded(facts, 2).items[key].item == item;
    assert Overtaken(item, end, now);
    LegalRunsGiveValidTimelines(facts, 2, now);
  }

  lemma EndLeavesNothing(end: Event, clock: int)
    requires end.kind == RunEnd && end.message == SaysCanceled && !end.validationError
    ensures Applied(EMPTY, end, clock).items == map[] && Applied(EMPTY, end, clock).runEnd == Some(end)
    ensures Applied(EMPTY, end, clock).index == 1
  {
  }

  lemma FirstCallIsAllowed(call: Event)
    requires call.kind == ToolCall
    ensures FirstAllowed(call)
  {
  }

  lemma CalledIsOpen(call: Event, at: int)
    requires call.kind == ToolCall && 0 < at
    ensures var c := ReviseCore(CreatedCore(call, at), call, at);
      c.status in {Pending, Running} && c.startedAt == at && c.endedAt == 0
  {
  }

  // ----- A disciplined caller -----

  /** Where a tool key stands: unseen; open, and whether its kind may be gated; finished;
      asked; granted; denied. */
  datatype Phase = Fresh | Open(gateable: bool) | Finished(gateable: bool) | Asked | Granted | Denied

  /** Start before anything else, ask at most once, decide once, and only then dispatch
      or report; an approved call never reports an unknown outcome. */
  function Next(p: Phase, ev: Event): Option<Phase>
    requires IsToolEvent(ev)
  {
    match p
    case Fresh =>
      if IsCall(ev) || ev.kind == DispatchStarted || ev.kind == ActivityUpdated then Some(Open(Gateable(ToolKind(ev))))
      else if ev.kind == ApprovalRequested && Gateable(ToolKind(ev)) then Some(Asked)
      else None
    case Open(g) =>
      if IsCall(ev) || ev.kind == DispatchStarted || ev.kind == ActivityUpdated then Some(p)
      else if ev.kind == ApprovalRequested && g then Some(Asked)
      else if IsResult(ev) && ev.resultStatus != DeclinedStatus then Some(Finished(g))
      else None
    case Finished(g) =>
      if IsCall(ev) || ev.kind == DispatchStarted || ev.kind == ActivityUpdated then Some(p)
      else if IsResult(ev) && ev.resultStatus != DeclinedStatus then Some(p)
      else None
    case Asked =>
      if (IsCall(ev) && !ev.pendingResult) || ev.kind == ActivityUpdated then Some(p)
      else if ev.kind == ApprovalApproved then Some(Granted)
      else if IsDecision(ev) then Some(Denied)
      else None
    case Granted =>
      if IsCall(ev) || ev.kind == DispatchStarted || ev.kind == ActivityUpdated then Some(p)
      else if IsResult(ev) && ev.resultStatus !in {UnknownStatus, DeclinedStatus} then Some(p)
      else None
    case Denied =>
      if IsCall(ev) || ev.kind == ActivityUpdated then Some(p) else None
  }

  /** What a phase says about its item. */
  predicate Fits(p: Phase, c: Core) {
    0 < c.startedAt &&
    match p
    case Fresh => false
    case Open(g) => c.approval == NoApproval && !Terminal(c.status) && (g ==> Gateable(c.kind))
    case Finished(g) => c.approval == NoApproval
    case Asked => c.approval == Requested
    case Granted => c.approval == Approved && Gateable(c.kind)
    case Denied => c.approval in {Rejected, TimedOut, ApprovalCanceled} && Terminal(c.status)
  }

  lemma PhaseAllows(p: Phase, c: Core, ev: Event, clock: int, at: int)
    requires Fits(p, c) && ToolSound(c, clock) && IsToolEvent(ev) && Next(p, ev).Some? && 0 < at
    ensures Allowed(c, ev, at)
    ensures Fits(Next(p, ev).value, ReviseCore(c, ev, at))
  {
  }

  lemma PhaseStarts(ev: Event, at: int)
    requires IsToolEvent(ev) && Next(Fresh, ev).Some? && 0 < at
    ensures FirstAllowed(ev)
    ensures Fits(Next(Fresh, ev).value, ReviseCore(CreatedCore(ev, at), ev, at))
  {
  }

  /** The caller's own bookkeeping: one phase per tool key, or nothing once it broke the rule. */
  function Phases(facts: seq<Fact>, k: nat): Option<map<string, Phase>>
    requires k <= |facts|
  {
    if k == 0 then Some(map[])
    else
      var before, ev := Phases(facts, k - 1), facts[k - 1].ev;
      if before.None? || ev.validationError || !IsToolEvent(ev) then before
      else
        var key := Key(ev, k - 1);
        var p := if key in before.value then before.value[key] else Fresh;
        if Next(p, ev).None? then None else Some(before.value[key := Next(p, ev).value])
  }

  predicate Disciplined(facts: seq<Fact>) {
    && Phases(facts, |facts|).Some?
    && (forall k :: 0 <= k < |facts| ==> 0 < At(facts[k]) && Clock(facts, k) <= At(facts[k]))
  }

  ghost predicate PhasesFit(phases: map<string, Phase>, s: State) {
    && (forall key :: key in phases ==> ToolKeyed(key) && key in s.items && Fits(phases[key], s.items[key].item.core))
    && (forall key :: key in s.items && ToolKeyed(key) ==> key in phases)
  }

  lemma {:induction false} PhasesStay(facts: seq<Fact>, k: nat, n: nat)
    requires k <= n <= |facts| && Phases(facts, n).Some?
    ensures Phases(facts, k).Some?
  {
    if k < n {
      PhasesStay(facts, k, n - 1);
    }
  }

  lemma {:induction false} IndexCounts(facts: seq<Fact>, k: nat)
    requires k <= |facts|
    ensures Folded(facts, k).index == k
  {
    if k > 0 {
      IndexCounts(facts, k - 1);
    }
  }

  lemma DisciplinedStep(s: State, phases: map<string, Phase>, clock: int, fact: Fact)
    requires WellFormed(s) && AllSound(s, clock) && PhasesFit(phases, s)
    requires 0 < At(fact) && clock <= At(fact)
    requires IsToolEvent(fact.ev) && !fact.ev.validationError
    requires var key := Key(fact.ev, s.index); Next(if key in phases then phases[key] else Fresh, fact.ev).Some?
    ensures LegalFact(s, clock, fact)
    ensures var key := Key(fact.ev, s.index);
      var next := Next(if key in phases then phases[key] else Fresh, fact.ev).value;
      PhasesFit(phases[key := next], Applied(s, fact.ev, fact.now))
  {
    hide Revise, ReviseCore, Created, CreatedCore, Key, Allowed;
    hide Fits, Next, Text.Blank, Sound, ToolSound, Applied, ToolKeyed;
    var ev, at, key := fact.ev, At(fact), Key(fact.ev, s.index);
    KeysTellKinds(ev, s.index);
    ToolEvents(ev);
    var item := if key in s.items then s.items[key].item else Created(key, ev, at);
    RevisionKeepsID(item, ev, at);
    CreationNames(key, ev, at);
    AppliedHere(s, ev, fact.now);
    forall other | other != key
      ensures other in Applied(s, ev, fact.now).items <==> other in s.items
      ensures other in s.items ==> Applied(s, ev, fact.now).items[other] == s.items[other]
    {
      AppliedElsewhere(s, ev, fact.now, other);
    }
    if key in s.items {
      assert EntrySound(key, s.items[key].item, clock);
      PhaseAllows(phases[key], item.core, ev, clock, at);
    } else {
      PhaseStarts(ev, at);
    }
  }

  lemma SkippedIsLegal(s: State, clock: int, fact: Fact)
    requires 0 < At(fact) && clock <= At(fact) && (!IsToolEvent(fact.ev) || fact.ev.validationError)
    ensures LegalFact(s, clock, fact)
  {
    hide Revise, ReviseCore, Created, CreatedCore, Allowed;
    KeysTellKinds(fact.ev, s.index);
    ToolEvents(fact.ev);
  }

  lemma SkippedStep(s: State, phases: map<string, Phase>, clock: int, fact: Fact)
    requires PhasesFit(phases, s) && 0 < At(fact) && clock <= At(fact)
    requires !IsToolEvent(fact.ev) || fact.ev.validationError
    ensures LegalFact(s, clock, fact)
    ensures PhasesFit(phases, Applied(s, fact.ev, fact.now))
  {
    hide Key, Fits, LegalFact, Applied, ToolKeyed;
    SkippedIsLegal(s, clock, fact);
    KeysTellKinds(fact.ev, s.index);
    ToolEvents(fact.ev);
    assert Touches(s, fact.ev) ==> !ToolKeyed(Key(fact.ev, s.index));
    forall key: string | ToolKeyed(key)
      ensures key in Applied(s, fact.ev, fact.now).items <==> key in s.items
      ensures key in s.items ==> Applied(s, fact.ev, fact.now).items[key] == s.items[key]
    {
      AppliedElsewhere(s, fact.ev, fact.now, key);
    }
  }

  /** A disciplined caller's run is legal, whatever it does after a run end. */
  lemma {:induction false} DisciplinedRunsAreLegal(facts: seq<Fact>)
    requires Disciplined(facts)
    ensures LegalRun(facts)
  {
    hide LegalFact, WellFormed, Applied, Phases, AllSound, PhasesFit;
    forall k | 0 <= k < |facts| ensures LegalFact(Folded(facts, k), Clock(facts, k), facts[k]) {
      DisciplinedPrefix(facts, k + 1);
    }
  }

  lemma NothingYet(facts: seq<Fact>)
    ensures PhasesFit(map[], Folded(facts, 0)) && AllSound(Folded(facts, 0), Clock(facts, 0))
  {
  }

  lemma {:induction false} DisciplinedPrefix(facts: seq<Fact>, k: nat)
    requires k <= |facts| && Disciplined(facts)
    ensures Phases(facts, k).Some? && PhasesFit(Phases(facts, k).value, Folded(facts, k))
    ensures AllSound(Folded(facts, k), Clock(facts, k))
    ensures k > 0 ==> LegalFact(Folded(facts, k - 1), Clock(facts, k - 1), facts[k - 1])
  {
    hide LegalFact, AllSound, PhasesFit, WellFormed, Applied, Key, Next;
    PhasesStay(facts, k, |facts|);
    if k == 0 {
      NothingYet(facts);
    } else {
      DisciplinedPrefix(facts, k - 1);
      IndexCounts(facts, k - 1);
      var s, fact := Folded(facts, k - 1), facts[k - 1];
      var phases := Phases(facts, k - 1).value;
      if IsToolEvent(fact.ev) && !fact.ev.validationError {
        DisciplinedStep(s, phases, Clock(facts, k - 1), fact);
      } else {
        SkippedStep(s, phases, Clock(facts, k - 1), fact);
      }
      LegalFactKeepsSound(s, Clock(facts, k - 1), fact);
    }
  }
}
