/** One activity item: how each event creates and revises it, how a run end settles it,
    and what the timeline validator demands of it. */
module ActivityItem {
  import opened Wrappers
  import Text

  datatype Status = Pending | Running | Waiting | Success | Failed | Declined | Canceled | Unknown

  datatype Severity = Quiet | Normal | Warning | Severe | Blocking

  datatype Kind = Tool | Hosted | Control | Budget

  datatype Approval = NoApproval | Requested | Approved | Rejected | TimedOut | ApprovalCanceled

  datatype Reason = RunningReason | WaitingReason | ApprovalReason | ErrorReason | UnknownReason

  /** The part of an item that its lifecycle is about. */
  datatype Core = Core(kind: Kind, status: Status, severity: Severity, requiresApproval: bool, approval: Approval,
                       startedAt: int, endedAt: int)

  datatype Item = Item(id: string, toolID: string, toolName: string, metadata: map<string, string>, core: Core,
                       reasons: seq<Reason>, needsAttention: bool)

  datatype EventType =
    | ToolCall | HostedToolCall | DispatchStarted | ActivityUpdated | ToolResult | HostedToolResult
    | ApprovalRequested | ApprovalApproved | ApprovalRejected | ApprovalTimedOut | ApprovalCanceledEvent
    | ControlSignal | BudgetExceeded | RunEnd | OtherEvent

  datatype ResultStatus = NoStatus | SuccessStatus | ErrorStatus | DeclinedStatus | CanceledStatus | UnknownStatus

  /** What a run end says: waiting; completed or success; failed or error; one of the
      three spellings of canceled; or anything else. */
  datatype RunMessage = SaysWaiting | SaysCompleted | SaysFailed | SaysCanceled | SaysOther

  /** A sanitized event. `metadata` is its normalized metadata; the flags are the raw
      metadata members read directly. `observedAt` is None for the zero time. */
  datatype Event = Event(kind: EventType, step: int, toolID: string, toolName: string, toolKind: string,
                         observedAt: Option<int>, durationMS: int, hasError: bool, pendingResult: bool,
                         resultStatus: ResultStatus, waitingDisposition: bool, message: RunMessage,
                         validationError: bool, metadata: map<string, string>)

  predicate Terminal(status: Status) {
    status in {Success, Failed, Declined, Canceled, Unknown}
  }

  predicate IsCall(ev: Event) { ev.kind == ToolCall || ev.kind == HostedToolCall }

  predicate IsResult(ev: Event) { ev.kind == ToolResult || ev.kind == HostedToolResult }

  predicate IsDecision(ev: Event) {
    ev.kind in {ApprovalApproved, ApprovalRejected, ApprovalTimedOut, ApprovalCanceledEvent}
  }

  predicate IsToolEvent(ev: Event) {
    IsCall(ev) || ev.kind == DispatchStarted || ev.kind == ActivityUpdated || IsResult(ev)
    || ev.kind == ApprovalRequested || IsDecision(ev)
  }

  function ToolKind(ev: Event): Kind {
    if ev.toolKind == "control" then Control
    else if ev.kind == HostedToolCall || ev.kind == HostedToolResult || ev.toolKind == "hosted" then Hosted
    else Tool
  }

  function FirstNonEmpty(left: string, right: string): string {
    if !Text.Blank(left) then left else right
  }

  function MergeMetadata(left: map<string, string>, right: map<string, string>): map<string, string> {
    if left == map[] then right else left + (map key | key in right && right[key] != "" :: right[key])
  }

  predicate PendingKey(key: string) { "pending_" <= key }

  predicate HasPendingMetadata(metadata: map<string, string>) {
    exists key :: key in metadata && PendingKey(key)
  }

  function TerminalMetadata(metadata: map<string, string>): map<string, string> {
    map key | key in metadata && !PendingKey(key) :: metadata[key]
  }

  // ----- Creation and revision -----

  /** The start that a result's own duration proves, or zero. */
  function DurationStart(ev: Event, at: int): int {
    if ev.durationMS > 0 && at > ev.durationMS then at - ev.durationMS else 0
  }

  function ControlStatus(ev: Event): Status {
    if ev.hasError then Failed else if ev.waitingDisposition then Waiting else Success
  }

  function ControlSeverity(ev: Event): Severity {
    match ControlStatus(ev)
    case Waiting => Blocking
    case Failed => Severe
    case _ => Normal
  }

  function CreatedCore(ev: Event, at: int): Core {
    match ev.kind
    case ToolCall => Core(ToolKind(ev), Pending, Quiet, false, NoApproval, at, 0)
    case HostedToolCall => Core(ToolKind(ev), Running, Normal, false, NoApproval, at, 0)
    case DispatchStarted => Core(ToolKind(ev), Running, Normal, false, NoApproval, at, 0)
    case ActivityUpdated => Core(ToolKind(ev), Running, Normal, false, NoApproval, at, 0)
    case ToolResult => Core(ToolKind(ev), Pending, Normal, false, NoApproval, DurationStart(ev, at), 0)
    case HostedToolResult => Core(ToolKind(ev), Pending, Normal, false, NoApproval, DurationStart(ev, at), 0)
    case ApprovalRequested => Core(ToolKind(ev), Waiting, Blocking, true, Requested, at, 0)
    case ControlSignal => Core(Control, ControlStatus(ev), ControlSeverity(ev), false, NoApproval, at, at)
    case BudgetExceeded => Core(Budget, Failed, Blocking, false, NoApproval, at, at)
    case RunEnd => Core(Control, Waiting, Blocking, false, NoApproval, at, at)
    case _ => Core(ToolKind(ev), Pending, Normal, true, NoApproval, at, 0)
  }

  /** The item an event creates when its key is new, before the same event revises it. */
  function Created(id: string, ev: Event, at: int): Item {
    if ev.kind == BudgetExceeded then Item(id, "", "", map[], CreatedCore(ev, at), [], false)
    else if ev.kind == RunEnd then Item(id, "", "", ev.metadata, CreatedCore(ev, at), [], false)
    else
      Item(id, Text.Trim(ev.toolID), Text.Trim(ev.toolName),
           if IsResult(ev) || IsDecision(ev) then map[] else ev.metadata, CreatedCore(ev, at), [], false)
  }

  function Started(c: Core, at: int): Core {
    if c.startedAt == 0 then c.(startedAt := at) else c
  }

  /** A result event's verdict; a canonical rejection outranks everything the result says. */
  function Verdict(c: Core, ev: Event): Core {
    if c.approval == Rejected || ev.resultStatus == DeclinedStatus then
      c.(status := Declined, severity := Quiet, requiresApproval := false, approval := Rejected)
    else if ev.resultStatus == UnknownStatus then c.(status := Unknown, severity := Warning)
    else if ev.hasError || ev.resultStatus == ErrorStatus then c.(status := Failed, severity := Severe)
    else if ev.pendingResult then c.(status := Running, severity := Warning, endedAt := 0)
    else if ev.resultStatus == CanceledStatus then c.(status := Canceled, severity := Warning)
    else c.(status := Success, severity := Normal)
  }

  function Decided(c: Core, ev: Event, at: int): Core
    requires IsDecision(ev)
  {
    match ev.kind
    case ApprovalApproved => Core(c.kind, Pending, Normal, true, Approved, c.startedAt, 0)
    case ApprovalRejected => Core(c.kind, Declined, Quiet, false, Rejected, c.startedAt, at)
    case ApprovalTimedOut => Core(c.kind, Failed, Blocking, true, TimedOut, c.startedAt, at)
    case ApprovalCanceledEvent => Core(c.kind, Canceled, Warning, true, ApprovalCanceled, c.startedAt, at)
  }

  function CalledCore(c: Core, ev: Event, at: int): Core {
    if !Terminal(c.status) && ev.pendingResult then Started(c, at).(status := Running, severity := Warning)
    else Started(c, at)
  }

  function ResultCore(c: Core, ev: Event, at: int): Core {
    var start := if DurationStart(ev, at) != 0 then DurationStart(ev, at) else c.startedAt;
    Verdict(c.(endedAt := at, startedAt := start), ev)
  }

  /** Late events that a terminal item ignores altogether. */
  predicate Ignores(c: Core, ev: Event) {
    Terminal(c.status) && ev.kind in {DispatchStarted, ApprovalRequested, ApprovalApproved}
  }

  /** What an event does to the lifecycle of the item under its key. */
  function ReviseCore(c: Core, ev: Event, at: int): Core {
    if Ignores(c, ev) then c
    else
      match ev.kind
      case ToolCall => CalledCore(c, ev, at)
      case HostedToolCall => CalledCore(c, ev, at)
      case DispatchStarted => Core(c.kind, Running, Normal, c.requiresApproval, c.approval, at, 0)
      case ActivityUpdated =>
        if !Terminal(c.status) && c.status != Waiting
        then Started(c, at).(status := Running, severity := Normal, endedAt := 0) else Started(c, at)
      case ToolResult => ResultCore(c, ev, at)
      case HostedToolResult => ResultCore(c, ev, at)
      case ApprovalRequested => Core(c.kind, Waiting, Blocking, true, Requested, Started(c, at).startedAt, 0)
      case ControlSignal =>
        Core(Control, ControlStatus(ev), ControlSeverity(ev), c.requiresApproval, c.approval, at, at)
      case BudgetExceeded => c.(status := Failed, severity := Blocking)
      case RunEnd => c.(status := Waiting, severity := Blocking, startedAt := at, endedAt := at)
      case OtherEvent => c
      case _ => Decided(Started(c, at), ev, at)
  }

  function Revise(item: Item, ev: Event, at: int): Item {
    if Ignores(item.core, ev) then item
    else
      var core := ReviseCore(item.core, ev, at);
      if ev.kind in {BudgetExceeded, RunEnd, OtherEvent} then item.(core := core)
      else
        var merged := MergeMetadata(item.metadata, ev.metadata);
        item.(toolID := FirstNonEmpty(item.toolID, Text.Trim(ev.toolID)),
              toolName := FirstNonEmpty(item.toolName, Text.Trim(ev.toolName)),
              metadata := if IsResult(ev) && core.status != Running then TerminalMetadata(merged) else merged,
              core := core)
  }

  // ----- Settlement at run end -----

  function EventTime(ev: Event, now: int): int {
    if ev.observedAt.Some? then ev.observedAt.value else now
  }

  /** The status a run end gives unresolved items; a failure without an error text gives none. */
  function RunEndStatus(end: Event): Option<(Status, Severity)> {
    if end.message == SaysCanceled then Some((Canceled, Warning))
    else if end.hasError then Some((Failed, Severe))
    else if end.message == SaysCompleted then Some((Success, Normal))
    else None
  }

  predicate RunEndStops(end: Event) { end.message == SaysCanceled || end.hasError }

  function SettledApproval(end: Event, approval: Approval): Approval {
    if end.message == SaysCanceled && (approval == Requested || approval == TimedOut) then ApprovalCanceled
    else if approval in {Approved, Rejected, TimedOut, ApprovalCanceled} then approval
    else if end.hasError then TimedOut
    else approval
  }

  /** Still open: work not ended, or a decision not made. */
  predicate Unresolved(c: Core) {
    c.status == Pending || c.status == Running || (c.status == Waiting && c.requiresApproval)
  }

  /** The guards of the settlement, in their order. */
  predicate Settles(c: Core, pending: bool, end: Event) {
    if !(RunEndStops(end) || end.message == SaysCompleted || end.message == SaysFailed) then false
    else if pending && !RunEndStops(end) then false
    else if c.requiresApproval && !RunEndStops(end) then false
    else if !Unresolved(c) then false
    else RunEndStatus(end).Some?
  }

  function SettledCore(c: Core, end: Event, now: int): Core
    requires RunEndStatus(end).Some?
  {
    Core(c.kind, RunEndStatus(end).value.0, RunEndStatus(end).value.1, c.requiresApproval,
         if c.requiresApproval then SettledApproval(end, c.approval) else c.approval,
         c.startedAt, if c.endedAt == 0 then EventTime(end, now) else c.endedAt)
  }

  function Settle(item: Item, end: Event, now: int): Item {
    if Settles(item.core, HasPendingMetadata(item.metadata), end)
    then item.(core := SettledCore(item.core, end, now), metadata := TerminalMetadata(item.metadata))
    else item
  }

  function Reasons(c: Core): seq<Reason> {
    (match c.status
     case Running => [RunningReason]
     case Waiting => [WaitingReason]
     case Failed => [ErrorReason]
     case Unknown => [UnknownReason]
     case _ => [])
    + if c.requiresApproval && c.status == Waiting then [ApprovalReason] else []
  }

  /** Before the run ends, an undecided request with a failed or canceled call reads as decided. */
  function ReadApproval(c: Core): Core {
    if c.requiresApproval && c.approval == Requested && c.status == Failed then c.(approval := TimedOut)
    else if c.requiresApproval && c.approval == Requested && c.status == Canceled then c.(approval := ApprovalCanceled)
    else c
  }

  /** The item as observers see it. */
  function Projected(item: Item, end: Option<Event>, now: int): Item {
    var i := if end.Some? then Settle(item, end.value, now) else item.(core := ReadApproval(item.core));
    i.(reasons := Reasons(i.core), needsAttention := Reasons(i.core) != [])
  }

  // ----- What the validator demands of one item -----

  predicate ValidLifecycle(c: Core, needsAttention: bool) {
    && (c.requiresApproval || c.approval == Rejected)
    && (c.kind == Tool || c.kind == Hosted)
    && match c.approval
       case Requested => c.status == Waiting && c.severity == Blocking && c.endedAt == 0
       case Approved => c.status in {Pending, Running, Success, Failed, Canceled}
       case Rejected =>
         && c.status in {Declined, Failed, Canceled}
         && (c.status == Declined ==> !c.requiresApproval && c.severity == Quiet && !needsAttention)
       case TimedOut => c.status == Failed
       case ApprovalCanceled => c.status == Canceled
       case NoApproval => true
  }

  predicate ValidTimes(c: Core) {
    c.startedAt > 0 && c.endedAt > 0 ==> c.startedAt <= c.endedAt
  }

  predicate ValidCore(c: Core, needsAttention: bool) {
    && ValidTimes(c)
    && (c.requiresApproval ==> c.approval != NoApproval)
    && (c.approval != NoApproval ==> ValidLifecycle(c, needsAttention))
  }

  predicate ValidItem(item: Item) {
    !Text.Blank(item.id) && ValidCore(item.core, item.needsAttention)
  }
}
