/** Exactly which events keep one item legal, and what a run end leaves behind. */
module ActivityItemLaws {
  import opened Wrappers
  import opened ActivityItem
  import Text

  /** The lifecycle of a legal item at time `now`: its projection is valid before and
      after any later run end. */
  predicate Sound(c: Core, now: int) {
    && 0 <= c.startedAt <= now && 0 <= c.endedAt <= now
    && (c.status in {Pending, Running} ==> c.endedAt == 0)
    && ValidCore(c, false)
  }

  /** A legal item that only tool events touch: it waits for nothing but a decision. */
  predicate ToolSound(c: Core, now: int) {
    Sound(c, now) && (c.status == Waiting ==> c.approval == Requested)
  }

  /** The item has ended and never recorded a start, so an event that supplies a start
      now would date it after the end. */
  predicate Unstarted(c: Core, at: int) {
    c.startedAt == 0 && 0 < c.endedAt < at
  }

  predicate Gateable(kind: Kind) { kind == Tool || kind == Hosted }

  /** A result must agree with the decision that was made: none while one is open, no
      unknown outcome of an approved call, only the matching failure after a time-out or a
      cancellation, and a rejection only where approvals exist. */
  predicate ResultAllowed(c: Core, ev: Event) {
    if c.approval == Rejected || ev.resultStatus == DeclinedStatus then Gateable(c.kind)
    else
      match c.approval
      case Requested => false
      case Approved => ev.resultStatus != UnknownStatus
      case TimedOut => ev.resultStatus != UnknownStatus && (ev.hasError || ev.resultStatus == ErrorStatus)
      case ApprovalCanceled => ev.resultStatus == CanceledStatus && !ev.hasError && !ev.pendingResult
      case _ => true
  }

  /** The guard a caller can check before applying a tool event to an existing item. */
  predicate Allowed(c: Core, ev: Event, at: int) {
    if Ignores(c, ev) then true
    else if IsCall(ev) then !Unstarted(c, at) && (c.approval == Requested ==> !ev.pendingResult)
    else if IsResult(ev) then ResultAllowed(c, ev)
    else if ev.kind == DispatchStarted then c.approval != Requested
    else if ev.kind == ActivityUpdated then !Unstarted(c, at)
    else Gateable(c.kind)
  }

  /** The same guard for a key's first event. */
  predicate FirstAllowed(ev: Event) {
    || Gateable(ToolKind(ev))
    || !(IsDecision(ev) || ev.kind == ApprovalRequested || (IsResult(ev) && ev.resultStatus == DeclinedStatus))
  }

  lemma ResultIsSoundIff(c: Core, ev: Event, now: int, at: int)
    requires ToolSound(c, now) && IsResult(ev) && 0 < at && now <= at
    ensures ToolSound(ResultCore(c, ev, at), at) <==> ResultAllowed(c, ev)
  {
  }

  lemma DecisionIsSoundIff(c: Core, ev: Event, now: int, at: int)
    requires ToolSound(c, now) && IsDecision(ev) && 0 < at && now <= at
    ensures ToolSound(Decided(Started(c, at), ev, at), at) <==> Gateable(c.kind)
  {
  }

  /** For every tool event on every legal item: the revised item is legal if and only if
      the guard held. */
  lemma RevisionIsSoundIff(c: Core, ev: Event, now: int, at: int)
    requires ToolSound(c, now) && IsToolEvent(ev) && 0 < at && now <= at
    ensures ToolSound(ReviseCore(c, ev, at), at) <==> Allowed(c, ev, at)
  {
    hide ResultCore, ResultAllowed, Decided, Verdict;
    if IsResult(ev) {
      ResultIsSoundIff(c, ev, now, at);
    } else if IsDecision(ev) {
      IgnoredStaysSound(c, now, at);
      DecisionIsSoundIff(c, ev, now, at);
    }
  }

  lemma IgnoredStaysSound(c: Core, now: int, at: int)
    requires ToolSound(c, now) && now <= at
    ensures ToolSound(c, at)
  {
  }

  /** A key's first event: created, then revised by the same event. */
  lemma CreationIsSoundIff(ev: Event, at: int)
    requires IsToolEvent(ev) && 0 < at
    ensures ToolSound(ReviseCore(CreatedCore(ev, at), ev, at), at) <==> FirstAllowed(ev)
  {
  }

  /** Legal raw items are seen as valid, before a run end and after any later one. */
  lemma SoundIsValid(item: Item, end: Option<Event>, now: int, at: int)
    requires Sound(item.core, now) && !Text.Blank(item.id)
    requires end.Some? ==> now <= EventTime(end.value, at)
    ensures ValidItem(Projected(item, end, at))
  {
    hide TerminalMetadata, HasPendingMetadata, Text.Blank;
  }

  // ----- The guard and the validator -----

  /** What the validator says of a core that a run end may have settled. */
  predicate SeenValid(c: Core, pending: bool, end: Option<Event>, now: int) {
    var seen :=
      if end.None? then ReadApproval(c)
      else if Settles(c, pending, end.value) then SettledCore(c, end.value, now)
      else c;
    ValidCore(seen, Reasons(seen) != [])
  }

  lemma ProjectedIsSeen(item: Item, end: Option<Event>, now: int)
    requires !Text.Blank(item.id)
    ensures ValidItem(Projected(item, end, now)) <==> SeenValid(item.core, HasPendingMetadata(item.metadata), end, now)
  {
    hide TerminalMetadata, HasPendingMetadata, Text.Blank, ValidCore, Reasons, SettledCore, ReadApproval;
  }

  /** A result that the guard forbids is refused at once, or as soon as the run has ended. */
  lemma ForbiddenResultIsSeen(c: Core, ev: Event, now: int, at: int, pending: bool, end: Event, later: int)
    requires ToolSound(c, now) && IsResult(ev) && !ResultAllowed(c, ev) && 0 < at && now <= at <= EventTime(end, later)
    ensures var r := ResultCore(c, ev, at);
      !(SeenValid(r, pending, None, later) && SeenValid(r, pending, Some(end), later))
  {
    hide DurationStart;
  }

  lemma ForbiddenEventIsSeen(c: Core, ev: Event, now: int, at: int, pending: bool, end: Event, later: int)
    requires ToolSound(c, now) && IsToolEvent(ev) && !IsResult(ev) && !Allowed(c, ev, at)
    requires 0 < at && now <= at <= EventTime(end, later)
    ensures var r := ReviseCore(c, ev, at);
      !(SeenValid(r, pending, None, later) && SeenValid(r, pending, Some(end), later))
  {
    hide ResultCore, ResultAllowed;
  }

  /** The exact condition, for every tool event on every legal item and every later run
      end: the validator accepts the revised item before and after it if and only if the
      guard held. */
  lemma RevisionIsValidIff(item: Item, ev: Event, now: int, at: int, end: Event, later: int)
    requires ToolSound(item.core, now) && IsToolEvent(ev) && !Text.Blank(item.id)
    requires 0 < at && now <= at <= EventTime(end, later)
    ensures var r := Revise(item, ev, at);
      (ValidItem(Projected(r, None, later)) && ValidItem(Projected(r, Some(end), later))) <==>
      Allowed(item.core, ev, at)
  {
    hide ToolSound, Sound, Allowed, ReviseCore, ResultCore, Revise, Projected, ValidItem, SeenValid, HasPendingMetadata;
    var r := Revise(item, ev, at);
    RevisedCore(item, ev, at);
    RevisionIsSoundIff(item.core, ev, now, at);
    if Allowed(item.core, ev, at) {
      SoundPart(r.core, at);
      SoundIsValid(r, None, at, later);
      SoundIsValid(r, Some(end), at, later);
    } else {
      ProjectedIsSeen(r, None, later);
      ProjectedIsSeen(r, Some(end), later);
      ForbiddenIsSeen(item.core, ev, now, at, HasPendingMetadata(r.metadata), end, later);
    }
  }

  lemma ForbiddenIsSeen(c: Core, ev: Event, now: int, at: int, pending: bool, end: Event, later: int)
    requires ToolSound(c, now) && IsToolEvent(ev) && !Allowed(c, ev, at)
    requires 0 < at && now <= at <= EventTime(end, later)
    ensures var r := ReviseCore(c, ev, at);
      !(SeenValid(r, pending, None, later) && SeenValid(r, pending, Some(end), later))
  {
    hide ToolSound, SeenValid, ResultCore, ResultAllowed;
    if IsResult(ev) {
      ForbiddenResultIsSeen(c, ev, now, at, pending, end, later);
    } else {
      ForbiddenEventIsSeen(c, ev, now, at, pending, end, later);
    }
  }

  lemma SoundPart(c: Core, at: int)
    ensures ToolSound(c, at) ==> Sound(c, at)
  {
  }

  lemma RevisedCore(item: Item, ev: Event, at: int)
    ensures Revise(item, ev, at).id == item.id
    ensures Revise(item, ev, at).core == ReviseCore(item.core, ev, at)
  {
    hide ReviseCore, MergeMetadata, TerminalMetadata, FirstNonEmpty, Text.Trim;
    if Ignores(item.core, ev) {
      IgnoredCore(item.core, ev, at);
    }
  }

  lemma IgnoredCore(c: Core, ev: Event, at: int)
    requires Ignores(c, ev)
    ensures ReviseCore(c, ev, at) == c
  {
  }

  /** The same for the first event of a key. */
  lemma CreationIsValidIff(id: string, ev: Event, at: int, end: Event, later: int)
    requires IsToolEvent(ev) && !Text.Blank(id) && 0 < at <= EventTime(end, later)
    ensures var r := Revise(Created(id, ev, at), ev, at);
      (ValidItem(Projected(r, None, later)) && ValidItem(Projected(r, Some(end), later))) <==> FirstAllowed(ev)
  {
    hide ToolSound, Sound, FirstAllowed, ReviseCore, CreatedCore;
    hide Revise, Projected, ValidItem, SeenValid, HasPendingMetadata;
    var c := Created(id, ev, at);
    var r := Revise(c, ev, at);
    RevisedCore(c, ev, at);
    CreationIsSoundIff(ev, at);
    if FirstAllowed(ev) {
      SoundPart(r.core, at);
      SoundIsValid(r, None, at, later);
      SoundIsValid(r, Some(end), at, later);
    } else {
      ProjectedIsSeen(r, None, later);
      ProjectedIsSeen(r, Some(end), later);
      ForbiddenFirstIsSeen(ev, at, HasPendingMetadata(r.metadata), end, later);
    }
  }

  lemma ForbiddenFirstIsSeen(ev: Event, at: int, pending: bool, end: Event, later: int)
    requires IsToolEvent(ev) && !FirstAllowed(ev) && 0 < at <= EventTime(end, later)
    ensures var r := ReviseCore(CreatedCore(ev, at), ev, at);
      !(SeenValid(r, pending, None, later) && SeenValid(r, pending, Some(end), later))
  {
  }

  // ----- A run that goes on after its end -----

  /** The run end dates the item before it started. */
  predicate Overtaken(item: Item, end: Event, now: int) {
    && Settles(item.core, HasPendingMetadata(item.metadata), end)
    && item.core.endedAt == 0
    && 0 < EventTime(end, now) < item.core.startedAt
  }

  /** A legal item is valid under any run end, earlier or later, if and only if that run
      end does not settle it with a time before its start. */
  lemma SettledIsValidIff(item: Item, end: Event, clock: int, now: int)
    requires Sound(item.core, clock) && !Text.Blank(item.id)
    ensures ValidItem(Projected(item, Some(end), now)) <==> !Overtaken(item, end, now)
  {
    hide TerminalMetadata, HasPendingMetadata, Text.Blank;
  }

  // ----- The two ways an approval goes wrong -----

  /** An approved item whose result is unknown is refused by the validator. */
  lemma ApprovedUnknownIsInvalid(item: Item, ev: Event, at: int, now: int)
    requires IsResult(ev) && ev.resultStatus == UnknownStatus && item.core.approval == Approved
    ensures !ValidItem(Projected(Revise(item, ev, at), None, now))
  {
    hide MergeMetadata, FirstNonEmpty, TerminalMetadata, Text.Blank, Text.Trim;
  }

  /** An error result on an undecided request passes until the run ends, then fails. */
  lemma RequestedErrorFailsAtRunEnd(item: Item, ev: Event, at: int, end: Event, now: int)
    requires Sound(item.core, at) && item.core.approval == Requested && 0 < at && !Text.Blank(item.id)
    requires IsResult(ev) && ev.hasError && ev.resultStatus == NoStatus
    ensures ValidItem(Projected(Revise(item, ev, at), None, now))
    ensures !ValidItem(Projected(Revise(item, ev, at), Some(end), now))
  {
    hide MergeMetadata, FirstNonEmpty, TerminalMetadata, HasPendingMetadata, Text.Blank, Text.Trim;
    var r := Revise(item, ev, at).core;
    assert r.status == Failed && r.approval == Requested && r.requiresApproval && r.kind == item.core.kind;
  }

  // ----- Absorption -----

  /** Late calls, dispatches, updates, requests and approvals never reopen a terminal item. */
  lemma TerminalAbsorbs(c: Core, ev: Event, at: int)
    requires Terminal(c.status)
    requires IsCall(ev) || ev.kind in {DispatchStarted, ActivityUpdated, ApprovalRequested, ApprovalApproved}
    ensures var r := ReviseCore(c, ev, at); r.status == c.status && r.approval == c.approval && r.endedAt == c.endedAt
  {
  }

  /** No result overturns a canonical rejection. */
  lemma RejectionOutranksResults(c: Core, ev: Event, at: int)
    requires IsResult(ev) && c.approval == Rejected
    ensures var r := ReviseCore(c, ev, at); r.status == Declined && r.approval == Rejected && !r.requiresApproval
  {
  }

  /** An item stays unresolved after a run end if and only if the run did not stop and
      either did not complete or completed while the item waits on its own work or on a
      decision. */
  lemma SettlesIff(item: Item, end: Event, now: int)
    ensures Unresolved(Projected(item, Some(end), now).core) <==>
      Unresolved(item.core) && !RunEndStops(end) &&
      (end.message != SaysCompleted || HasPendingMetadata(item.metadata) || item.core.requiresApproval)
  {
    hide TerminalMetadata, HasPendingMetadata;
  }

  /** The projection depends on the clock exactly when an untimed run end dates the item. */
  lemma ClockMattersIff(item: Item, end: Option<Event>, now: int, later: int)
    requires now != later
    ensures Projected(item, end, now) == Projected(item, end, later) <==>
      !(end.Some? && end.value.observedAt.None? && item.core.endedAt == 0 &&
        Settles(item.core, HasPendingMetadata(item.metadata), end.value))
  {
    hide HasPendingMetadata, TerminalMetadata;
    assert Projected(item, end, now) == Projected(item, end, later) ==>
      Projected(item, end, now).core == Projected(item, end, later).core;
  }
}
