/** What each event says of its item, in the item's own fields, for a new item and for one
    that is already there; and what observers see of it before and after a run end. */
module ActivityEvents {
  import opened Wrappers
  import opened ActivityItem
  import Text

  /** The item under the event's key after the event. */
  function After(id: string, before: Option<Item>, ev: Event, at: int): Item {
    Revise(if before.Some? then before.value else Created(id, ev, at), ev, at)
  }

  predicate Over(before: Option<Item>) {
    before.Some? && before.value.core.status in {Success, Failed, Declined, Canceled, Unknown}
  }

  /** A start that is there is kept. */
  function StartKept(before: Option<Item>, at: int): int {
    if before.Some? && before.value.core.startedAt != 0 then before.value.core.startedAt else at
  }

  predicate ApprovalKept(before: Option<Item>, c: Core) {
    if before.Some? then
      c.approval == before.value.core.approval && c.requiresApproval == before.value.core.requiresApproval
    else c.approval == NoApproval && !c.requiresApproval
  }

  // ----- The lifecycle -----

  /** A control signal has happened when it is reported: failed exactly with an error, else
      waiting exactly when it says so, else a success. */
  lemma ControlIs(id: string, before: Option<Item>, ev: Event, at: int)
    requires ev.kind == ControlSignal
    ensures var c := After(id, before, ev, at).core;
      && c.kind == Control && c.startedAt == at && c.endedAt == at && ApprovalKept(before, c)
      && (c.status == Failed <==> ev.hasError)
      && (c.status == Waiting <==> ev.waitingDisposition && !ev.hasError)
      && (c.status == Success <==> !ev.waitingDisposition && !ev.hasError)
      && (c.severity == Severe <==> c.status == Failed)
      && (c.severity == Blocking <==> c.status == Waiting)
      && (c.severity == Normal <==> c.status == Success)
  {
    hide MergeMetadata, FirstNonEmpty, TerminalMetadata, Text.Trim;
  }

  /** A result that is not declined says, strongest first, that the outcome is unknown, that
      it failed, that it goes on, that it was canceled, or that it succeeded. Only work that
      goes on has no end; a measured duration dates the start. */
  lemma ResultIs(id: string, before: Option<Item>, ev: Event, at: int)
    requires IsResult(ev) && ev.resultStatus != DeclinedStatus
    requires before.Some? ==> before.value.core.approval != Rejected
    ensures var c := After(id, before, ev, at).core;
      && ApprovalKept(before, c)
      && VerdictSays(c, ev)
      && c.endedAt == (if c.status == Running then 0 else at)
      && c.startedAt ==
         if 0 < ev.durationMS < at then at - ev.durationMS
         else if before.Some? then before.value.core.startedAt else 0
  {
    hide ResultCore, After, ToolKind, VerdictSays;
    var c := if before.Some? then before.value.core else CreatedCore(ev, at);
    AfterResult(id, before, ev, at);
    ResultCoreIs(c, ev, at);
  }

  lemma AfterResult(id: string, before: Option<Item>, ev: Event, at: int)
    requires IsResult(ev)
    ensures After(id, before, ev, at).core ==
      ResultCore(if before.Some? then before.value.core else CreatedCore(ev, at), ev, at)
  {
    hide ResultCore, MergeMetadata, FirstNonEmpty, TerminalMetadata, Text.Trim, ToolKind;
  }

  lemma ResultCoreIs(c: Core, ev: Event, at: int)
    requires ev.resultStatus != DeclinedStatus && c.approval != Rejected
    ensures var v := ResultCore(c, ev, at);
      && VerdictSays(v, ev)
      && v.approval == c.approval && v.requiresApproval == c.requiresApproval
      && v.endedAt == (if v.status == Running then 0 else at)
      && v.startedAt == if 0 < ev.durationMS < at then at - ev.durationMS else c.startedAt
  {
    hide Verdict, VerdictSays;
    VerdictIs(c.(endedAt := at, startedAt := if DurationStart(ev, at) != 0 then DurationStart(ev, at) else c.startedAt),
              ev);
  }

  /** The status that each combination of a result's fields gives, and its severity. */
  predicate VerdictSays(v: Core, ev: Event) {
    var error := ev.hasError || ev.resultStatus == ErrorStatus;
    && (v.status == Unknown <==> ev.resultStatus == UnknownStatus)
    && (v.status == Failed <==> error && ev.resultStatus != UnknownStatus)
    && (v.status == Running <==> ev.pendingResult && !error && ev.resultStatus != UnknownStatus)
    && (v.status == Canceled <==> ev.resultStatus == CanceledStatus && !ev.pendingResult && !error)
    && (v.status == Success <==> ev.resultStatus in {NoStatus, SuccessStatus} && !ev.pendingResult && !error)
    && (v.severity == Severe <==> v.status == Failed)
    && (v.severity == Normal <==> v.status == Success)
    && (v.severity == Warning <==> v.status in {Unknown, Running, Canceled})
  }

  lemma VerdictIs(c: Core, ev: Event)
    requires ev.resultStatus != DeclinedStatus && c.approval != Rejected
    ensures var v := Verdict(c, ev);
      && VerdictSays(v, ev)
      && v.startedAt == c.startedAt && v.approval == c.approval && v.requiresApproval == c.requiresApproval
      && v.endedAt == (if v.status == Running then 0 else c.endedAt)
  {
  }

  /** A declined result, or any result of a rejected item, is a rejection. */
  lemma DeclinedResultIs(id: string, before: Option<Item>, ev: Event, at: int)
    requires IsResult(ev)
    requires ev.resultStatus == DeclinedStatus || (before.Some? && before.value.core.approval == Rejected)
    ensures var c := After(id, before, ev, at).core;
      && c.status == Declined && c.severity == Quiet && c.approval == Rejected && !c.requiresApproval
      && c.endedAt == at
      && c.startedAt ==
         if 0 < ev.durationMS < at then at - ev.durationMS
         else if before.Some? then before.value.core.startedAt else 0
  {
    hide MergeMetadata, FirstNonEmpty, TerminalMetadata, Text.Trim;
  }

  /** A call opens its item, pending for the caller's tools and running for hosted ones;
      a result that is still to come makes it run. It reopens nothing. */
  lemma CallIs(id: string, before: Option<Item>, ev: Event, at: int)
    requires IsCall(ev)
    ensures var c := After(id, before, ev, at).core;
      && c.startedAt == StartKept(before, at) && ApprovalKept(before, c)
      && c.endedAt == (if before.Some? then before.value.core.endedAt else 0)
      && if ev.pendingResult && !Over(before) then c.status == Running && c.severity == Warning
         else if before.Some? then c.status == before.value.core.status && c.severity == before.value.core.severity
         else if ev.kind == HostedToolCall then c.status == Running && c.severity == Normal
         else c.status == Pending && c.severity == Quiet
  {
    hide MergeMetadata, FirstNonEmpty, TerminalMetadata, Text.Trim;
  }

  /** A dispatch starts the work now; an update reports it unless it waits. */
  lemma DispatchIs(id: string, before: Option<Item>, ev: Event, at: int)
    requires ev.kind == DispatchStarted && !Over(before)
    ensures var c := After(id, before, ev, at).core;
      c.status == Running && c.severity == Normal && c.startedAt == at && c.endedAt == 0 && ApprovalKept(before, c)
  {
    hide MergeMetadata, FirstNonEmpty, TerminalMetadata, Text.Trim;
  }

  lemma UpdateIs(id: string, before: Option<Item>, ev: Event, at: int)
    requires ev.kind == ActivityUpdated
    ensures var c := After(id, before, ev, at).core;
      && c.startedAt == StartKept(before, at) && ApprovalKept(before, c)
      && if Over(before) || (before.Some? && before.value.core.status == Waiting)
         then
           c.status == before.value.core.status && c.severity == before.value.core.severity
           && c.endedAt == before.value.core.endedAt
         else c.status == Running && c.severity == Normal && c.endedAt == 0
  {
    hide MergeMetadata, FirstNonEmpty, TerminalMetadata, Text.Trim;
  }

  /** A request waits for a decision; each decision has its own outcome, and only an
      approval leaves the work to be done. */
  lemma ApprovalIs(id: string, before: Option<Item>, ev: Event, at: int)
    requires ev.kind == ApprovalRequested || IsDecision(ev)
    requires !(Over(before) && ev.kind in {ApprovalRequested, ApprovalApproved})
    ensures var c := After(id, before, ev, at).core;
      && c.startedAt == StartKept(before, at)
      && c.endedAt == (if ev.kind in {ApprovalRequested, ApprovalApproved} then 0 else at)
      && (c.requiresApproval <==> ev.kind != ApprovalRejected)
      && match ev.kind
         case ApprovalRequested => c.status == Waiting && c.severity == Blocking && c.approval == Requested
         case ApprovalApproved => c.status == Pending && c.severity == Normal && c.approval == Approved
         case ApprovalRejected => c.status == Declined && c.severity == Quiet && c.approval == Rejected
         case ApprovalTimedOut => c.status == Failed && c.severity == Blocking && c.approval == TimedOut
         case _ => c.status == Canceled && c.severity == Warning && c.approval == ApprovalCanceled
  {
    hide MergeMetadata, FirstNonEmpty, TerminalMetadata, Text.Trim;
  }

  /** An exceeded budget fails at once and blocks; a run that ends waiting shows an item that
      waits without asking for a decision. */
  lemma RunItemIs(id: string, before: Option<Item>, ev: Event, at: int)
    requires ev.kind == BudgetExceeded || ev.kind == RunEnd
    ensures var c := After(id, before, ev, at).core;
      && c.severity == Blocking && ApprovalKept(before, c)
      && c.status == (if ev.kind == RunEnd then Waiting else Failed)
      && c.kind == (if before.Some? then before.value.core.kind else if ev.kind == RunEnd then Control else Budget)
      && (ev.kind == RunEnd || before.None? ==> c.startedAt == at && c.endedAt == at)
    ensures var i := After(id, before, ev, at);
      if before.Some? then
        i.toolID == before.value.toolID && i.toolName == before.value.toolName && i.metadata == before.value.metadata
      else i.toolID == "" && i.toolName == "" && i.metadata == if ev.kind == RunEnd then ev.metadata else map[]
  {
  }

  /** Late dispatches, requests and approvals leave an item that is over as it is. */
  lemma LateEventIs(id: string, before: Item, ev: Event, at: int)
    requires Over(Some(before)) && ev.kind in {DispatchStarted, ApprovalRequested, ApprovalApproved}
    ensures After(id, Some(before), ev, at) == before
  {
  }

  /** A new item is of the kind its event names; later events change it only for control
      signals. */
  lemma KindIs(id: string, before: Option<Item>, ev: Event, at: int)
    requires IsToolEvent(ev)
    ensures var c := After(id, before, ev, at).core;
      if before.Some? then c.kind == before.value.core.kind
      else if ev.toolKind == "control" then c.kind == Control
      else if ev.toolKind == "hosted" || ev.kind == HostedToolCall || ev.kind == HostedToolResult then c.kind == Hosted
      else c.kind == Tool
  {
    hide MergeMetadata, FirstNonEmpty, TerminalMetadata, Text.Trim, ReviseCore;
    KindStays(if before.Some? then before.value.core else CreatedCore(ev, at), ev, at);
  }

  lemma KindStays(c: Core, ev: Event, at: int)
    requires IsToolEvent(ev)
    ensures ReviseCore(c, ev, at).kind == c.kind
  {
  }

  // ----- Names and metadata -----

  /** The first name that is not blank stays. */
  predicate NameKept(had: string, said: string, name: string) {
    if exists i :: 0 <= i < |had| && !Text.IsSpace(had[i]) then name == had else name == Text.Trim(said)
  }

  /** What an item is called: its key, and the first tool ID and name that are not blank. */
  lemma NamesAre(id: string, before: Option<Item>, ev: Event, at: int)
    requires (IsToolEvent(ev) || ev.kind == ControlSignal)
    requires !(Over(before) && ev.kind in {DispatchStarted, ApprovalRequested, ApprovalApproved})
    ensures var i := After(id, before, ev, at);
      && i.id == (if before.Some? then before.value.id else id)
      && NameKept(if before.Some? then before.value.toolID else "", ev.toolID, i.toolID)
      && NameKept(if before.Some? then before.value.toolName else "", ev.toolName, i.toolName)
  {
    hide ReviseCore, MergeMetadata, TerminalMetadata, Text.Trim, Text.Blank, CreatedCore;
    if before.Some? {
      Text.BlankIff(before.value.toolID);
      Text.BlankIff(before.value.toolName);
    } else {
      Text.BlankIff(Text.Trim(ev.toolID));
      Text.BlankIff(Text.Trim(ev.toolName));
      Text.TrimTwice(ev.toolID);
      Text.TrimTwice(ev.toolName);
    }
  }

  /** The value of a key is the event's if it says anything, and else what was there; what
      is pending goes with a result that ends the work. */
  lemma MetadataIs(id: string, before: Option<Item>, ev: Event, at: int, key: string)
    requires (IsToolEvent(ev) || ev.kind == ControlSignal)
    requires !(Over(before) && ev.kind in {DispatchStarted, ApprovalRequested, ApprovalApproved})
    ensures var i := After(id, before, ev, at);
      var had := if before.Some? then before.value.metadata else map[];
      var said := key in ev.metadata && (ev.metadata[key] != "" || had == map[]);
      var dropped := "pending_" <= key && IsResult(ev) && i.core.status != Running;
      if dropped then key !in i.metadata
      else if said then key in i.metadata && i.metadata[key] == ev.metadata[key]
      else (key in i.metadata <==> key in had) && (key in had ==> i.metadata[key] == had[key])
  {
    hide ReviseCore, FirstNonEmpty, Text.Trim, MergeMetadata;
    var i := if before.Some? then before.value else Created(id, ev, at);
    MergedValue(i.metadata, ev.metadata, key);
  }

  lemma MergedValue(left: map<string, string>, right: map<string, string>, key: string)
    ensures var m := MergeMetadata(left, right);
      if key in right && (right[key] != "" || left == map[]) then key in m && m[key] == right[key]
      else (key in m <==> key in left) && (key in left ==> m[key] == left[key])
  {
  }

  // ----- What observers see -----

  /** Attention goes to work in progress, to what waits, to errors and to unknown outcomes;
      an open decision is a reason of its own. */
  lemma AttentionIs(item: Item, end: Option<Event>, now: int)
    ensures var i := Projected(item, end, now);
      && (i.needsAttention <==> i.core.status in {Running, Waiting, Failed, Unknown})
      && (RunningReason in i.reasons <==> i.core.status == Running)
      && (WaitingReason in i.reasons <==> i.core.status == Waiting)
      && (ErrorReason in i.reasons <==> i.core.status == Failed)
      && (UnknownReason in i.reasons <==> i.core.status == Unknown)
      && (ApprovalReason in i.reasons <==> i.core.status == Waiting && i.core.requiresApproval)
      && forall j, k :: 0 <= j < k < |i.reasons| ==> i.reasons[j] != i.reasons[k]
  {
    hide Settle, ReadApproval;
  }

  /** Before the run ends an item is seen as it is, except that an open request whose call
      failed or was canceled reads as timed out or canceled. */
  lemma RunningViewIs(item: Item, now: int)
    ensures var i, c := Projected(item, None, now), item.core;
      && i.id == item.id && i.toolID == item.toolID && i.toolName == item.toolName && i.metadata == item.metadata
      && i.core == c.(approval := i.core.approval)
      && i.core.approval ==
         if c.requiresApproval && c.approval == Requested && c.status == Failed then TimedOut
         else if c.requiresApproval && c.approval == Requested && c.status == Canceled then ApprovalCanceled
         else c.approval
  {
  }

  /** The items that a run end settles: those that are open, when the run was canceled or
      failed with an error, or when it completed and they wait on nothing of their own. */
  predicate SettledBy(item: Item, end: Event) {
    && (|| item.core.status in {Pending, Running}
        || (item.core.status == Waiting && item.core.requiresApproval))
    && (|| end.message == SaysCanceled || end.hasError
        || (end.message == SaysCompleted && !item.core.requiresApproval
            && forall key :: key in item.metadata ==> !("pending_" <= key)))
  }

  /** What a run end makes of an item: canceled by a canceled run, failed by an error, and
      otherwise done; an approval that was never decided ends with it. Every other item is
      seen as it is. */
  lemma RunEndIs(item: Item, end: Event, now: int)
    ensures var i, c := Projected(item, Some(end), now), item.core;
      && i.id == item.id && i.toolID == item.toolID && i.toolName == item.toolName
      && if !SettledBy(item, end) then i.core == c && i.metadata == item.metadata
         else
           && i.core.kind == c.kind && i.core.requiresApproval == c.requiresApproval
           && i.core.startedAt == c.startedAt
           && i.core.endedAt ==
              (if c.endedAt != 0 then c.endedAt else if end.observedAt.Some? then end.observedAt.value else now)
           && (i.core.status == Canceled <==> end.message == SaysCanceled)
           && (i.core.status == Failed <==> end.hasError && end.message != SaysCanceled)
           && (i.core.status == Success <==> !end.hasError && end.message == SaysCompleted)
           && (i.core.severity == Warning <==> i.core.status == Canceled)
           && (i.core.severity == Severe <==> i.core.status == Failed)
           && (i.core.severity == Normal <==> i.core.status == Success)
           && i.core.approval == ApprovalAfter(c, end)
           && (forall key :: key in i.metadata <==> key in item.metadata && !("pending_" <= key))
           && (forall key :: key in i.metadata ==> i.metadata[key] == item.metadata[key])
  {
  }

  /** A canceled run cancels a request, also one that had timed out; an error times out what
      was not decided; a decision stays. */
  function ApprovalAfter(c: Core, end: Event): Approval {
    if !c.requiresApproval then c.approval
    else if end.message == SaysCanceled && c.approval in {Requested, TimedOut} then ApprovalCanceled
    else if c.approval in {Approved, Rejected, TimedOut, ApprovalCanceled} || !end.hasError then c.approval
    else TimedOut
  }

  // ----- Severity over a run -----

  /** The severities that each status is ever shown with. */
  predicate SeverityFits(c: Core) {
    match c.status
    case Pending => c.severity in {Quiet, Normal}
    case Running => c.severity in {Normal, Warning}
    case Waiting => c.severity == Blocking
    case Success => c.severity == Normal
    case Failed => c.severity in {Severe, Blocking}
    case Declined => c.severity == Quiet
    case Canceled => c.severity == Warning
    case Unknown => c.severity == Warning
  }

  /** Every event keeps status and severity in step, and so does every projection. */
  lemma SeverityFollowsStatus(id: string, before: Option<Item>, ev: Event, at: int,
      end: Option<Event>, now: int)
    requires before.Some? ==> SeverityFits(before.value.core)
    ensures SeverityFits(After(id, before, ev, at).core)
    ensures SeverityFits(Projected(After(id, before, ev, at), end, now).core)
  {
    hide After, ReviseCore, SeverityFits, CreatedCore, Projected;
    var c := if before.Some? then before.value.core else CreatedCore(ev, at);
    NewFits(ev, at);
    RevisedFits(c, ev, at);
    AfterIsRevised(id, before, ev, at);
    ShownFits(After(id, before, ev, at), end, now);
  }

  lemma NewFits(ev: Event, at: int)
    ensures SeverityFits(CreatedCore(ev, at))
  {
    hide ToolKind, DurationStart;
  }

  lemma RevisedFits(c: Core, ev: Event, at: int)
    requires SeverityFits(c)
    ensures SeverityFits(ReviseCore(c, ev, at))
  {
    hide ResultCore, Ignores;
    if IsResult(ev) {
      ResultFits(c, ev, at);
    }
  }

  lemma ResultFits(c: Core, ev: Event, at: int)
    ensures SeverityFits(ResultCore(c, ev, at))
  {
    hide DurationStart;
  }

  lemma AfterIsRevised(id: string, before: Option<Item>, ev: Event, at: int)
    ensures After(id, before, ev, at).core ==
      ReviseCore(if before.Some? then before.value.core else CreatedCore(ev, at), ev, at)
  {
    hide MergeMetadata, FirstNonEmpty, TerminalMetadata, Text.Trim, ToolKind, DurationStart, ResultCore, CalledCore;
    hide Decided;
  }

  lemma ShownFits(item: Item, end: Option<Event>, now: int)
    requires SeverityFits(item.core)
    ensures SeverityFits(Projected(item, end, now).core)
  {
    hide TerminalMetadata, HasPendingMetadata, Reasons;
  }

  /** What the timeline validator asks of an item: a key, a start that is not behind its
      end, a decision state where one is required, and a status that its decision allows. */
  lemma ValidItemIff(item: Item)
    ensures ValidItem(item) <==>
      (exists i :: 0 <= i < |item.id| && !Text.IsSpace(item.id[i])) && CoreAccepted(item.core, item.needsAttention)
  {
    hide Text.Blank, ValidCore, CoreAccepted;
    Text.BlankIff(item.id);
    ValidCoreIff(item.core, item.needsAttention);
  }

  predicate CoreAccepted(c: Core, needsAttention: bool) {
    && !(0 < c.endedAt < c.startedAt)
    && (c.requiresApproval ==> c.approval != NoApproval)
    && (c.approval != NoApproval ==> c.kind in {Tool, Hosted} && (c.requiresApproval || c.approval == Rejected))
    && (c.approval == Requested ==> c.status == Waiting && c.severity == Blocking && c.endedAt == 0)
    && (c.approval == Approved ==> c.status !in {Waiting, Declined, Unknown})
    && (c.approval == Rejected ==> c.status in {Declined, Failed, Canceled})
    && (c.approval == Rejected && c.status == Declined ==>
          !c.requiresApproval && c.severity == Quiet && !needsAttention)
    && (c.approval == TimedOut ==> c.status == Failed)
    && (c.approval == ApprovalCanceled ==> c.status == Canceled)
  }

  lemma ValidCoreIff(c: Core, needsAttention: bool)
    ensures ValidCore(c, needsAttention) <==> CoreAccepted(c, needsAttention)
  {
    match c.status
    case Waiting =>
    case Declined =>
    case Unknown =>
    case _ =>
  }
}
