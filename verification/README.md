# Verified model of an agent runtime's replay, activity, cache and lifetime code

This project models the parts of the repository where several pieces of state must keep
agreeing over a whole run, and proves that they do. One module stands for one component.

**Native-history replay and stream reconciliation (`provider`).**
`ResponsesHistory` saves native provider output as records bound to a canonical conversation;
the next turn revalidates each record, moves its coordinates, splices the native items in and
drops what no longer fits. `ResponsesBinding` recognises a saved answer, including one that was
saved as fragments and is now projected as one message. `DeepSeekHistory` does the same with one
signature per item, and splits messages again that the runtime merged. `DeepSeekStream` reads one
streamed response and reconciles its deltas with the terminal snapshot. `ResponsesOutput` collects
completed items and reconciles them with a snapshot. The main results are inductions over all turns
of a conversation, continued answers included, over all streams, and over all orders of events.
`ResponsesAcceptance`, `ResponsesRegrouping`, `ResponsesChoice`, `DeepSeekContents` and
`DeepSeekTerminal` say in terms of the inputs alone what each operation accepts, what it answers to
everything else, and what a request holds.

**Activity (`observation`).** `ActivityReducer` folds a run of events into items; `ActivityItem` is
the life of one item. Proved: the exact guard under which an event keeps an item valid, exactly which
snapshots of a legal run are valid and which are in order, and that an observer who only sees drained
batches holds the same items as a snapshot. `ActivityEvents` says what each event makes of its item,
and `ActivityKeys` which events speak of the same one.

**Caches and overlays (`runtime`).** `ResidentCache` is the eviction cache of frozen fields with
shared, reference-counted spilled bodies; `FieldReads` are its range reads; `InspectionOverlay` is
the copy-on-write view of a read transaction with a cached merged scan.

**Protocols (`runtime`).** `KeyedMutex`, `StorageReadiness`, `ThreadPreparation` and `StoreLifetime`
are state machines over all interleavings. A step is what a thread does while it holds the lock; a
function that drops the lock or waits is cut there. Where the source has an object, the step
functions are also the contracts of that object's methods. `StoreProgress` shows that a close that was
asked for can always be finished.

**Color profiles (`provider`).** `ColorProfile` writes an ICC profile into JPEG APP2 segments
(ICC.1:2010 Annex B; ITU-T T.81 section B.1.1) and reads it back; `ColorReading` says what reading
means for any image.

## How things are represented

- JSON items are values with their own spelling; normalising them is idempotent. Saved native items of
  the DeepSeek modules are JSON values, because saving encodes them again. SHA-256 is
  injective, and the digest of a function call only tells arguments apart that differ as JSON.
- Strings are sequences of bytes, except in the DeepSeek modules, where they are sequences of runes
  with their UTF-8 widths. A byte that is not valid UTF-8 is encoded as U+FFFD, in a whole item and rune
  by rune alike, as `provider/deepseek_boundaries_test.go:10-25` expects. Trimming and blankness look at
  ASCII white space.
- Integers are unbounded, except where the source's width decides something: the saved record
  boundary against the largest `int`, and the byte and 16-bit fields of JPEG segments.
- Pointers shared between objects (spilled bodies, lock entries, channels, attempts) are numbers that
  are never reused.
- The length of encoded JSON, generated identities, failing writes and closes, attachment contents
  and clocks are parameters.

## Where the code and its description differ

- Saved native output is said to come back byte for byte (`provider/responses_history_binding.go:236-242`),
  but encoding the records rewrites the JSON inside them: insignificant space goes, and the characters
  `<`, `>`, `&`, U+2028 and U+2029 are escaped. The model does the same, so `ConversationReplays` gives
  the native items as encoded again. `ReplayIsExactIff` says that this is what was sent if and only if
  no saved output had such a space or left such a character unescaped; `BareCharacterIsRewritten` is a
  message without any space that comes back changed.
- A scan of the overlay rejects a bad range or position only when its namespace has no writes. With
  writes, a range whose start is not before its end gives an empty page (`InspectionOverlay.Overlay.Scan`).
- Paging with a limit of one never gets past the empty key, whose `Next` is no position at all
  (`WalkVisitsAllIff` says that nothing else gets stuck).
- The comparator of the timeline is not transitive when a sort time is missing. A snapshot is in order
  if and only if no item without a time stands, in arrival order, between two timed ones that arrived
  the other way round (`TimelineIsSortedIff`), so always when every item has a time
  (`TimedItemsAreSorted`); three tool events reach one that is not (`UntimedItemsCanCycle`).
- The validator refuses items that the reducer makes. `RevisionIsValidIff` and `CreationIsValidIff` give
  the exact guard of every tool event. It keeps out an `unknown` result of an approved item
  (`ApprovedUnknownIsInvalid`) and an error result of a requested one once the run has ended
  (`RequestedErrorFailsAtRunEnd`), and also any other result of an open request; a dispatch or a pending
  call on it; a result that is no error after a time-out, or no cancellation after a canceled approval;
  an approval or a declined result on a control item; and a late call or update on an item that ended
  without a start. In runs where every event meets its guard one kind is left: an item that a run end
  settles with a time before its start, as when a call is observed after the run was canceled
  (`LateCallBreaksTimeline`). `LegalRunsGiveValidTimelines` says that nothing else breaks such a run.
- Two closers of the store can both start the physical close (`TwoClosersOverlap`). A run comes to that
  if and only if some Close was called while the store was not closed, no close was in progress and
  another closer was still waiting for operations to end (`OverlapIffCalledIntoDrain`); the Host never
  does it (`HostClosesOnce`). A Host whose store failed to close does not try again, although the store
  itself would allow it.
- A continued answer is shown as one message, and the saved signatures take it apart again
  (`ContinuedConversationReplays`). For text this works if and only if it is continued by text, with no
  reasoning on either side, or by calls alone; other answers can always be told apart
  (`GroupIsProvenIff`, and `RunIsProvenIff` for any number of fragments). An ordinary answer that thought
  and spoke, was cut off and then continued by more text, is therefore refused as changed history
  (`ThinkingAnswerIsRefused`).
- Streamed calls are compared with the terminal response by call ID, not by item. A streamed item can
  therefore be missing from an accepted response (`SharedCallIDHidesAnItem`): if and only if another
  item of that response has its call ID (`LeftOutIff`).
- A completed response that leaves out an announced call is refused, but one that leaves out an
  announced search is accepted, and that search never gets a result (`OpenSearchIsAccepted`);
  `FinishedResponseSettlesSearches` says exactly which searches get one.

## Model

| member | source | states |
|---|---|---|
| JsonItems.NormalIdempotent | provider/responses_history.go:215-229 | normalising or encoding again what was normalised, and encoding again what was encoded, changes nothing: order, space and bare characters are settled |
| ResponsesHistory.PrepareResponsesHistory | provider/responses_history.go:52-148 | every call gives the outcome that `PreparedIff`, `MismatchIff`, `StateErrorIs` and `RecordErrorDecides` determine: it checks the state and replays its records, with a loop over them |
| ResponsesAcceptance.PreparedIff | provider/responses_history.go:52-148 | preparation succeeds with a history exactly if kind and ID are named, the canonical items are objects, a saved state has this kind and ID, a known policy, no other attribute, one document within the limit, a usable response ID and only well-formed records, and the history keeps a rebased front of them, dropping the others only because the conversation before them changed |
| ResponsesAcceptance.MismatchIff | provider/responses_history.go:112-131 | the mismatch error comes exactly if some front of the saved records is still bound, the conversation before the next one is as saved, and its segment is neither there nor regrouped; it names that record, boundary and lengths |
| ResponsesAcceptance.StateErrorIs | provider/responses_history.go:63-91 | the error of each unusable state: another kind or ID first, then policy, attributes, size, decoding, trailing data, response ID |
| ResponsesAcceptance.InputErrorIs | provider/responses_history.go:53-59 | a missing kind or ID and canonical items that are no objects are refused before any state is looked at |
| ResponsesAcceptance.RecordErrorDecides | provider/responses_history.go:98-111 | with a usable state only the first record that is not well formed is refused, for what is wrong with it first; without a state preparation succeeds |
| ResponsesHistory.ReplayRecord | provider/responses_history.go:93-139 | one saved record is kept and rebased, pruned because the conversation before it changed, or refused |
| ResponsesHistory.ValidateOutput | provider/responses_history.go:230-250 | the first malformed or unsupported native item decides the error |
| ResponsesAcceptance.OutputProblemIs | provider/responses_history.go:230-250 | a native item can be replayed exactly if its type is known and a call has this namespace; which error each other item gets |
| ResponsesAcceptance.CommitIff | provider/responses_history.go:171-199 | a commit succeeds exactly with a usable ID or none, output that can be replayed, visible objects and a state within the limit; it then adds one record that binds the new items to the whole conversation before them |
| ResponsesAcceptance.CommitErrorIs | provider/responses_history.go:171-193 | the refusals of a commit, in their order |
| ResponsesHistory.CommitAssistant | provider/responses_history_binding.go:243-264 | an answer's trimmed text and its calls are committed as the visible projection; the first bad call decides the error |
| ResponsesAcceptance.AssistantSegmentIs | provider/responses_history_binding.go:243-264 | the committed segment is one plain message with the trimmed text, unless nothing is left of it, and then the calls in order |
| ResponsesAcceptance.CallProblemIs | provider/responses_history_binding.go:249-259 | a call passes exactly if it is a function call of this namespace; which error each other one gets |
| ResponsesBinding.FindVisible | provider/responses_history_binding.go:64-118 | a saved projection is found exactly, or as the one message its plain fragments were regrouped into |
| ResponsesBinding.ReadNativeText | provider/responses_history_binding.go:152-194 | the fragments and whole text that native output proves |
| ResponsesRegrouping.FoundIff | provider/responses_history_binding.go:64-144 | a segment is found exactly where the conversation goes on with its items or, if not, with one message that shows all its leading plain texts, two or more of one shape, followed by its other items |
| ResponsesRegrouping.NativeTextIs | provider/responses_history_binding.go:152-194 | the native text of an answer is none unless every item can be read, and then the stretches between its searches and its whole text, each trimmed |
| ResponsesHistoryLaws.PrepareKeepsBoundFront | provider/responses_history.go:88-147 | a success keeps exactly a rebased front of the saved records, bound and disjoint; the rest is dropped only because its prefix changed; input is that splice; any drop clears the response ID |
| ResponsesHistoryLaws.PrepareAfterFork | provider/responses_history.go:118-147 | for a conversation that repeats the bound one up to the end of some record but not up to the start of the next, how many records survive and what is replayed follows from where it departs |
| ResponsesHistoryLaws.ChangedSegmentFails | provider/responses_history.go:127-131 | a changed answer under an unchanged prefix is an error that names record, boundary and lengths |
| ResponsesHistoryLaws.PrepareIsFixpoint | provider/responses_history.go:52-148 | preparing the rebased records again gives the same history, whatever was regrouped |
| ResponsesHistoryLaws.CommitThenPrepare | provider/responses_history.go:52-199 | after a commit the next turn neither fails nor prunes, replays old input, native answer and new items, and continues from the answer's ID with the new items alone |
| ResponsesHistoryLaws.ConversationReplays | provider/responses_history.go:52-199 | after any number of turns the input is the conversation with every answer in native form, and continuation carries only what was said since |
| ResponsesHistoryLaws.ReplayIsExactIff | provider/responses_history.go:185-192 | the replayed conversation is the one that was sent, byte for byte, if and only if no saved output has an insignificant space or one of the five characters that the encoder escapes left bare |
| ResponsesHistoryLaws.BareCharacterIsRewritten | provider/responses_history_binding.go:236-242 | an answer without any space and with a bare < is committed, and the next turn replays it escaped |
| ResponsesHistoryLaws.FragmentsRegroup | provider/responses_history_binding.go:64-118 | fragments saved one by one are found as the one message the runtime projects |
| ResponsesBindingLaws.RegroupedIsNew | provider/responses_history_binding.go:105-112 | the regrouped text of at least two fragments is neither empty nor the first fragment, so it is never taken for the saved form |
| ResponsesOutput.ResponsesOutput.Add | provider/responses_output.go:42-66 | a completed item is retained at its index, accepted as a repeat, or refused, and the size is kept exact |
| ResponsesChoice.AddOutcome | provider/responses_output.go:42-66 | which event is taken in, repeated or refused, and with which error |
| ResponsesOutput.ResponsesOutput.Complete | provider/responses_output.go:77-169 | completing reads the collector without changing it |
| ResponsesChoice.CompleteOutcome | provider/responses_output.go:107-169 | every outcome of completion: the missing and incomplete cases, the limits, and the first index whose item does not decode, conflicts or no longer fits |
| ResponsesOutput.Choose | provider/responses_output.go:136-161 | which of a completed item and its terminal version is kept |
| ResponsesChoice.ChoiceIs | provider/responses_output.go:136-357 | a completed item stands for the terminal one exactly if they are one completed search that differs in valid sources alone, or one reasoning item that differs in a valid ciphertext alone; whose bytes are kept; all else conflicts |
| ResponsesOutput.AddKeepsSound | provider/responses_output.go:42-66 | the byte count is the sum of what is retained and stays within the limit |
| ResponsesOutputLaws.AddAllSucceedsIff | provider/responses_output.go:42-66 | a list of events is accepted exactly when it is clean and its first items fit the limit together |
| ResponsesOutputLaws.OrderDoesNotMatter | provider/responses_output.go:42-66 | any two accepted orders of the same events collect the same items up to JSON |
| ResponsesOutputLaws.EmptySnapshotIff | provider/responses_output.go:108-121 | without a snapshot, completion succeeds exactly when the indices are 0 to n-1, and returns them in order |
| ResponsesOutputLaws.ChosenAgrees | provider/responses_output.go:182-317 | a kept item differs from the terminal one only in reasoning ciphertext or search sources |
| ResponsesOutputLaws.SnapshotDecides | provider/responses_output.go:107-169 | a completed output covers every collected index, stays within the limit and otherwise says what the snapshot says |
| DeepSeekHistory.FindBoundPrefix | provider/deepseek.go:184-228 | hashing rune by rune finds the first boundary whose prefix was signed |
| DeepSeekHistory.BoundAssistantPieces | provider/deepseek.go:230-270 | the splitting loop gives the pieces of the specification |
| DeepSeekHistory.EmitMessage | provider/deepseek.go:344-432 | one message gives the outcome that `EmitIff` names, and adds the items and signatures that `EmitAdds` and `EmitAddsSignatures` name |
| DeepSeekContents.EmitIff | provider/deepseek.go:344-432 | a message is accepted exactly if its images can be sent, its turn has come, its calls are complete and new and its result answers an open call; the first that fails names the error; its calls are then open and its result closes one |
| DeepSeekContents.EmitAdds | provider/deepseek.go:381-431 | it adds its reasoning, its text in parts with exactly its images if it has any and plain otherwise, its calls and its result, in this order; a system message adds only its text, apart |
| DeepSeekContents.EmitAddsSignatures | provider/deepseek.go:160-182 | it adds the signatures of these items, but of reasoning only if neither text nor calls follow |
| DeepSeekContents.SignatureIff | provider/deepseek.go:146-158 | two items have one signature exactly if they are sent alike: equal but for argument spelling that JSON ignores and bytes that are written as U+FFFD |
| DeepSeekHistory.RenderMessages | provider/deepseek.go:309-438 | merging, splitting into the list being walked, and emitting give the rendering specified without that list; `RequestSaysTheConversation` and `RequestIsDisciplined` say what it holds |
| DeepSeekContents.RequestSaysTheConversation | provider/deepseek.go:309-438 | every accepted request says exactly what its conversation says: each message and result keeps its role or call ID, its text and its images, the text, reasoning and calls of the assistant keep their order however they were merged and cut, and the system texts are sent apart in order |
| DeepSeekContents.RequestIsDisciplined | provider/deepseek.go:351-438 | in every accepted request each call is new and has one result behind it, no message of the user or the assistant stands between them, and each signature stands at its own item |
| DeepSeekContents.LimitsAre | provider/deepseek.go:272-307 | a boundary is looked for as far as the saved items have text of its kind, in encoded bytes |
| DeepSeekContents.SplicedIff | provider/deepseek.go:467-488 | a saved history is accepted exactly if it is of this kind, holds something and its signatures are a front of the rendered ones; the request is then the saved input and what was rendered behind them |
| DeepSeekHistory.PiecesRenderTheSame | provider/deepseek.go:332-343 | splitting a message ahead of time and inserting its pieces renders the same as splitting on the way |
| DeepSeekHistory.SplitLeavesContent | provider/deepseek.go:237-268 | a message is never cut off whole |
| DeepSeekHistoryLaws.BoundaryIsUnique | provider/deepseek.go:180-228 | within one value a signature names at most one rune boundary |
| DeepSeekHistoryLaws.BoundPrefixIff | provider/deepseek.go:184-228 | the search returns the boundary inside the limit whose prefix was signed, and nothing exactly when there is none |
| DeepSeekHistoryLaws.PiecesConserve | provider/deepseek.go:230-270 | pieces keep texts, reasonings and calls in order; all but the last are proven by successive signatures; one round uses one signature |
| DeepSeekHistoryLaws.GroupedTextSplitsBack | provider/deepseek.go:251-262 | text fragments that were saved one by one and then grouped split back into those fragments |
| DeepSeekHistoryLaws.GroupedAnswerSplitsBack | provider/deepseek.go:237-268 | the same for answers of reasoning alone, followed by text and calls |
| DeepSeekHistoryLaws.MergedConserves | provider/deepseek.go:310-324 | merging keeps all words and calls in order and leaves nothing to merge |
| DeepSeekHistoryLaws.FeedTidy | provider/deepseek.go:160-167 | every signature has its end, and the last end is the end of the input, even behind reasoning that is not signed |
| DeepSeekHistoryLaws.FeedIsStable | provider/deepseek.go:309-438 | a longer saved prefix and larger limits that bind the same rendering render the same |
| DeepSeekHistoryLaws.SaveThenReplay | provider/deepseek.go:440-488 | after a saved answer, rendering the longer conversation passes the prefix check and sends saved input, native output and only what followed |
| DeepSeekHistoryLaws.ConversationReplays | provider/deepseek.go:309-488 | over any number of turns every request is accepted and its input is the conversation with each answer replaced by its native output |
| DeepSeekRuns.RunsRenderApart | provider/deepseek.go:230-270 | the merged messages under the signatures they were saved with keep the same books as if they had never been merged, and render the same unless reasoning was given between a signed fragment and the calls behind it |
| DeepSeekRuns.RunIsProvenIff | provider/deepseek.go:230-270 | any number of fragments of an answer, shown as one message, reproduce their signatures if and only if every fragment with text is continued, by the next and by the rest as a whole, by text without reasoning on either side or by calls alone |
| DeepSeekRuns.GroupIsProvenIff | provider/deepseek.go:230-270 | for every answer and every continuation that can be said: the one message reproduces both signatures if and only if text, where there is any, was continued by text without reasoning on either side or by calls alone |
| DeepSeekContinuationLaws.ContinuedConversationReplays | provider/deepseek.go:309-488 | the same induction when turns may ask nothing and only continue the answer before them, or follow an interrupted one: if the messages are acceptable one by one, every continuation can be told apart as in RunIsProvenIff, and saved output holds at least the words of the answer it was saved for, then every request is accepted and sends each answer in its native form |
| DeepSeekContinuationLaws.GroupingKeepsWork | provider/deepseek.go:310-324 | two neighbouring answers and the one message that joins them merge to the same conversation |
| DeepSeekContinuationLaws.GroupedRequestIsTheSame | provider/deepseek.go:310-324 | the request depends only on the merged conversation, so not on how the runtime groups neighbouring answers |
| DeepSeekContinuationLaws.ThinkingAnswerIsRefused | provider/deepseek.go:237-262 | an answer with reasoning and text, continued by text: both requests are accepted, and the next one is refused as changed history |
| DeepSeekStream.ReadStream | provider/deepseek.go:683-1174 | events are handled one by one until one ends the stream: what each passes on is given by the outcome lemmas, and how the stream ends by `StreamFinishesIff` and `TerminalOutcome` |
| DeepSeekTerminal.EndsWellIff | provider/deepseek.go:915-1145 | a terminal event ends well if and only if its response has an ID, the status of the event and no error, every item is in its place and extends what was streamed for it, no streamed call or part is left out, anonymous deltas are a front of the text, token counts are possible, and a truncated answer hit the output limit |
| DeepSeekTerminal.TerminalOutcome | provider/deepseek.go:915-1145 | the fault of every other terminal event: the first check that fails, item by item and part by part |
| DeepSeekTerminal.StreamFinishesIff | provider/deepseek.go:683-1175 | a stream ends without an error if and only if it comes to a terminal event whose response is acceptable behind what was streamed before it |
| DeepSeekTerminal.LocateOutcome | provider/deepseek.go:831-857 | an event is placed by its item and index; a position that changes, that is none or that another item has is a fault |
| DeepSeekTerminal.MisplacedEventStops | provider/deepseek.go:824-846 | an event that does not decode, or that stands where it cannot, stops the stream with the fault it has |
| DeepSeekTerminal.DeltaOutcome | provider/deepseek.go:704-725 | a delta is passed on with its place unless it is empty |
| DeepSeekTerminal.CallAddedOutcome | provider/deepseek.go:866-878 | a new call with every identifier is announced; any other start stops the stream |
| DeepSeekTerminal.ArgsOutcome | provider/deepseek.go:879-886 | arguments are passed on under the call they belong to |
| DeepSeekTerminal.CallDoneOutcome | provider/deepseek.go:779-800 | a finished call is announced if it was not, ended once, and keeps its identity |
| DeepSeekTerminal.SearchOutcome | provider/deepseek.go:727-778 | a search is announced when first heard of, with all that is known of it, and its result passed on once: the sources with an address, and the error of a failed or cut search |
| DeepSeekTerminal.FinalSearchIs | provider/deepseek.go:1034-1039 | a search in the terminal response is finished in the same way, at its place there |
| DeepSeekTerminal.OtherOutcome | provider/deepseek.go:899-914 | a failure event stops the stream; every other event only places its item |
| DeepSeekTerminal.TruncatedStream | provider/deepseek.go:1101-1107 | a stream that ends truncated: the cut answer is heard whole |
| DeepSeekStream.ReconcileItems | provider/deepseek.go:931-1044 | the loops over terminal items and their parts, calls and searches |
| DeepSeekStreamLaws.QueueReconciles | provider/deepseek.go:931-1078 | for each channel, deltas and terminal suffixes together are exactly the terminal text |
| DeepSeekStreamLaws.TerminalIsAllOrNothing | provider/deepseek.go:915-1144 | a terminal response adds one error and nothing else, or everything it reconciled and then one ending |
| DeepSeekStreamLaws.EveryStreamReconciles | provider/deepseek.go:683-1174 | every stream has exactly one ending, last; without an error it answers the terminal event that the reader stopped at: together with what the events before it sent, each identified part was heard exactly, an anonymous channel as one text and nothing else, the calls handed over are the function calls of that response in order with their arguments (none when it is incomplete), and the saved state binds those words, calls and items |
| DeepSeekStreamLaws.ReconcileHandsOver | provider/deepseek.go:1020-1034 | an accepted terminal response hands over exactly its own function calls |
| DeepSeekStreamCalls.FinishKeepsBooked | provider/deepseek.go:779-800 | a finished call is announced as started and as ended, whatever came before |
| DeepSeekStreamCalls.EveryStreamSettlesCalls | provider/deepseek.go:779-800 | a completed response hands over exactly the calls that were announced, each ended and named once |
| DeepSeekStreamCalls.CallsRefusedIff | provider/deepseek.go:1045-1052 | a completed response is refused for its calls if and only if some streamed call ID is on no function call of it |
| DeepSeekStreamCalls.LeftOutIff | provider/deepseek.go:1045-1052 | of an accepted completed response, a streamed item is missing if and only if another item of it has the same call ID |
| DeepSeekStreamCalls.SharedCallIDHidesAnItem | provider/deepseek.go:1045-1052 | a stream that opens two items under one call ID and completes with one of them is accepted |
| DeepSeekStreamSearches.FinishSearchKeeps | provider/deepseek.go:729-778 | finishing a search announces it if need be and passes its result on once, whatever came before |
| DeepSeekStreamSearches.EverySearchIsAnnouncedOnce | provider/deepseek.go:729-778 | over every stream and its terminal items, failed or not: each search is announced at most once, its result is passed on at most once, behind the announcement, and tells at least as much of what was searched |
| DeepSeekStreamSearches.FinishedResponseSettlesSearches | provider/deepseek.go:729-1044 | in an accepted response a search was announced, or has its result, if and only if it had before or the response lists it |
| DeepSeekStreamSearches.OpenSearchIsAccepted | provider/deepseek.go:1045-1058 | a completed response without the announced search is accepted |
| ActivityItemLaws.RevisionIsValidIff | observation/activity.go:236-522 | for every tool event on every legal item: the result passes the validator before the run end and after any later one if and only if the stated guard on the fields of item and event held |
| ActivityItemLaws.CreationIsValidIff | observation/activity.go:236-522 | the same for an item's first event |
| ActivityItemLaws.SettledIsValidIff | observation/activity.go:773-829 | a legal item is valid under any run end, earlier or later, if and only if that end does not settle it with a time before its start |
| ActivityItemLaws.SoundIsValid | observation/activity.go:1558-1602 | legal items pass the validator before and after any later run end |
| ActivityItemLaws.ApprovedUnknownIsInvalid | observation/activity.go:364-366 | an approved item with an unknown result fails the validator |
| ActivityItemLaws.RequestedErrorFailsAtRunEnd | observation/activity.go:1568-1571 | an error result on an undecided request passes until the run ends, then fails |
| ActivityItemLaws.TerminalAbsorbs | observation/activity.go:257-290 | late calls, dispatches, updates, requests and approvals leave a terminal item as it is |
| ActivityItemLaws.RejectionOutranksResults | observation/activity.go:355-363 | no result overturns a rejection |
| ActivityItemLaws.SettlesIff | observation/activity.go:773-829 | exactly which items a run end leaves unresolved |
| ActivityItemLaws.ClockMattersIff | observation/activity.go:550-568 | a projection depends on the clock exactly when an untimed run end dates the item |
| ActivityReducer.ActivityReducer.Apply | observation/activity.go:214-543 | one event has the effect that `AppliedTouchesOne` names, on the item that its key names, and the rows on single events say what becomes of that item |
| ActivityKeys.AppliedTouchesOne | observation/activity.go:214-548 | an event revises the item under its key or opens it behind all others, leaves every other item as it was, marks what changed and keeps the span of known times; rejected and unrelated events only take a position |
| ActivityKeys.KeySharedIff | observation/activity.go:716-734 | two events speak of one item exactly if they are of one family and go by one name |
| ActivityKeys.ToolIDsTellApart | observation/activity.go:716-734 | events of one tool ID share their item wherever they stand, and different tool IDs never do |
| ActivityKeys.PositionsTellApart | observation/activity.go:716-734 | without a tool ID every event of a run has an item of its own |
| ActivityEvents.ControlIs | observation/activity.go:480-506 | a control signal is failed exactly with an error, else waiting exactly when it says so, else a success, each with its severity, and starts and ends when it is reported |
| ActivityEvents.ResultIs | observation/activity.go:328-391 | the status of a result that is not declined, for each combination of its fields, the severity that goes with it, its end, and the start that a duration proves |
| ActivityEvents.DeclinedResultIs | observation/activity.go:354-362 | a declined result, or any result of a rejected item, is a rejection |
| ActivityEvents.CallIs | observation/activity.go:237-270 | how a call opens its item, and that it reopens nothing |
| ActivityEvents.DispatchIs | observation/activity.go:271-298 | a dispatch starts the work now |
| ActivityEvents.UpdateIs | observation/activity.go:299-327 | an update shows work running unless it waits or is over |
| ActivityEvents.ApprovalIs | observation/activity.go:392-479 | a request waits for a decision, and each decision has its own outcome |
| ActivityEvents.RunItemIs | observation/activity.go:507-543 | what an exceeded budget and a run that ends waiting show |
| ActivityEvents.LateEventIs | observation/activity.go:285-287 | late dispatches, requests and approvals leave an item that is over as it is |
| ActivityEvents.KindIs | observation/activity.go:736-744 | the kind of a new item, which later tool events keep |
| ActivityEvents.NamesAre | observation/activity.go:257-259 | an item keeps its key and the first tool ID and name that are not blank |
| ActivityEvents.MetadataIs | observation/activity.go:1274-1285 | each metadata key has the last value that said anything, and what is pending goes with a result that ends the work |
| ActivityReducer.ActivityReducer.ChangedItems | observation/activity.go:570-586 | drains the changed items in order and forgets them |
| ActivityReducer.ActivityReducer.RemoveItems | observation/activity.go:588-603 | drops items, compacts the order in place and renumbers |
| ActivityReducer.ActivityReducer.Snapshot | observation/activity.go:605-622 | all items, projected and sorted |
| ActivityEvents.RunEndIs | observation/activity.go:773-829 | exactly which items a run end settles, and the status, severity, approval, end and metadata it gives them |
| ActivityKeys.BeforeIs | observation/activity.go:609-619 | a snapshot compares items by start, or end if there is no start, where both are known and differ, and otherwise by arrival |
| ActivityEvents.RunningViewIs | observation/activity.go:550-568 | before a run end an item is seen as it is, but an open request of a failed or canceled call reads as decided |
| ActivityEvents.AttentionIs | observation/activity.go:1298-1314 | which items ask for attention and for which reasons |
| ActivityEvents.SeverityFollowsStatus | observation/activity.go:214-566 | every event and every projection keep severity in step with status |
| ActivityEvents.ValidItemIff | observation/activity.go:624-687 | what the validator asks of the modelled fields of an item |
| ActivityLaws.AppliedKeepsShape | observation/activity.go:214-548 | order and items name the same keys, each once, and every item knows its place |
| ActivityLaws.RemovedKeepsShape | observation/activity.go:588-603 | removing keeps that shape and every other item |
| ActivityLaws.DrainedObserverIsSnapshot | observation/activity.go:570-622 | along every run of events, drains and removals, right after a drain the observer holds exactly the items of the snapshot |
| ActivityRuns.LegalRunsGiveValidTimelines | observation/activity.go:624-687 | a snapshot of a legal run, before, at or after run ends, passes the validator if and only if no item is settled with a time before its start |
| ActivityRuns.RunEndIsNotOvertaken | observation/activity.go:523-543 | a snapshot right after a run end always passes |
| ActivityRuns.OnlyLaterEventsOvertake | observation/activity.go:523-543 | a snapshot that fails has just seen an event dated later than the run end |
| ActivityRuns.LateCallBreaksTimeline | observation/activity.go:523-543 | a canceled run end and a call observed after it are a legal run whose timeline is refused |
| ActivityRuns.DisciplinedRunsAreLegal | observation/activity.go:214-543 | a caller that asks, decides once and only then dispatches has a legal run, whatever it reports after the run end |
| ActivityTimeline.StoppedRunShowsNothingOpen | observation/activity.go:773-829 | after a canceled or errored run end no snapshot shows unfinished work or an undecided approval |
| ActivityTimeline.StoppedRunStaysStopped | observation/activity.go:523-543 | later events keep it so |
| ActivityTimeline.TerminalItemsAbsorb | observation/activity.go:257-290 | late events leave every terminal item of a reducer terminal |
| ActivityTimeline.ComparatorIsConsistentIff | observation/activity.go:613-619 | the comparator orders a list consistently if and only if no untimed item stands between two timed ones that arrived the other way round |
| ActivityTimeline.TimelineIsSortedIff | observation/activity.go:609-619 | a snapshot is in order if and only if there is no such item, and otherwise no arrangement of it is |
| ActivityTimeline.UntimedItemsCanCycle | observation/activity.go:613-619 | a legal run of three tool events whose snapshot is out of order |
| ActivityTimeline.CountItems | observation/activity.go:1364-1416 | the eight status counters add up to all items |
| ActivityTimeline.StoppedRunCountsNothingActive | observation/activity.go:1364-1420 | after a stopped run nothing counts as pending or running, and something counts as waiting if and only if an item waits without an approval |
| ResidentCache.HashSource | runtime/thread_activity_resident.go:72-89 | the chunked loop gives the digest of the source and of the candidate's prefix |
| ResidentCache.ResidentActivityFields.PickCandidate | runtime/thread_activity_resident.go:62-71 | the first region picks the longest spilled version of this place that is at its body's full extent and no longer than the source, or nothing exactly when there is none |
| ResidentCache.ResidentActivityFields.CandidateStaysTruthful | runtime/thread_activity_resident.go:62-110 | a description stays true however stale it gets |
| ResidentCache.ResidentActivityFields.MakeRoom | runtime/thread_activity_resident.go:110-133 | eviction ends with room, least recently used first, spares the body about to grow, and never runs out of victims |
| ResidentCache.ResidentActivityFields.RemoveEntry | runtime/thread_activity_resident.go:224-241 | swap-remove; a body goes with its last reference, and one that will not close keeps its entry |
| ResidentCache.ResidentActivityFields.Install | runtime/thread_activity_resident.go:90-165 | the returned ID denotes exactly the source: a source that this place already holds is only used again, with nothing else changed; otherwise it grows the body of the candidate if that still is a front of it, and is stored alone if not; either way it is the newest, and it evicts nothing if it fits |
| ResidentCache.ResidentActivityFields.Retain | runtime/thread_activity_resident.go:52-166 | with nothing in between, a source that is held is used again, and otherwise a longest version of its field grows into it if it is a front of it; a source over the limit is refused |
| ResidentCache.ResidentActivityFields.Lookup | runtime/thread_activity_resident.go:100-109 | finds an entry that holds the source whenever there is one, and otherwise the body that can grow into it exactly if there is one |
| ResidentCache.ResidentActivityFields.Read | runtime/thread_activity_resident.go:167-219 | a read finds exactly the live IDs of that place and answers from what its ID was issued for, whatever happened since; for valid UTF-8 it does not matter whether that was spilled; the entry read is then the newest, and nothing else changes |
| ResidentCache.ResidentActivityFields.Close | runtime/thread_activity_resident.go:242-250 | closing releases everything that closes: the bodies left are exactly those that would not close, with only their entries |
| ResidentFields.RemoveKeepsSound | runtime/thread_activity_resident.go:224-241 | removal keeps both byte counts, all reference counts, the three budgets and what every other ID denotes |
| ResidentFields.AddTextKeepsSound | runtime/thread_activity_resident.go:160-165 | so does adding a field held in memory |
| ResidentFields.AddSpillKeepsSound | runtime/thread_activity_resident.go:145-159 | so does adding a spilled field |
| ResidentFields.GrowthKeepsSound | runtime/thread_activity_resident.go:136-144 | so does growing a shared body |
| ResidentFields.VictimExists | runtime/thread_activity_resident.go:115-133 | whenever room is needed, some entry may go |
| FieldReads.ReadMemory | runtime/thread_activity_resident.go:205-217 | the loops that move an offset and an end back to rune starts |
| FieldReads.SpillIsInvisible | runtime/thread_activity_resident.go:187-217 | every read of a valid source gives the same answer from memory and from a spilled body |
| FieldReads.AlignedReadSucceeds | runtime/thread_activity_resident.go:187-217 | an aligned read moves back at most three bytes and never fails inside the text |
| FieldReads.ReadAdvances | runtime/thread_activity_resident.go:205-217 | a read at a boundary makes progress and stops at a boundary |
| FieldReads.ReadWhole | runtime/thread_activity_resident.go:167-219 | reading on from chunk to chunk ends with the whole source |
| FieldReads.BoundChunk | runtime/thread_activity_field.go:125-143 | one halving at a rune start always fits the wire limit, so bounding never fails |
| Utf8.ValidIff | runtime/thread_activity_resident.go:187-217 | the texts that the reads take for valid are exactly the UTF-8 encodings of scalar values |
| InspectionOverlay.Overlay.Get | runtime/storage_inspection.go:78-86 | a read of the base, its refusal of an empty namespace or key included, overridden by the writes |
| InspectionOverlay.Overlay.Put | runtime/storage_inspection.go:88-96 | the view gains the key in this namespace only, and no stale merge is left |
| InspectionOverlay.Overlay.Delete | runtime/storage_inspection.go:98-105 | the view loses the key in this namespace only, and no stale merge is left |
| InspectionOverlay.Overlay.Scan | runtime/storage_inspection.go:107-163 | a scan is the scan of that view, exactly when it is rejected, and a merge once made is kept |
| InspectionOverlay.ScanIs | runtime/storage_inspection.go:146-163 | a page holds rows that were asked for, in byte order, none left out before its end; it is cut short only when full, and then says where to go on |
| InspectionOverlay.Overlay.ReadAll | runtime/storage_inspection.go:118-133 | following the base's pages collects the whole base |
| InspectionOverlay.ScansOnce | florettest/backend_contract.go:52-66 | a table and a request determine the page |
| InspectionOverlay.SelectedAfter | florettest/backend_contract.go:52-66 | going on after a row selects exactly the rows behind it |
| InspectionOverlay.WalkStuck | runtime/storage_inspection.go:146-163 | a stuck walk returns its first row for ever |
| InspectionOverlay.WalkVisitsAllIff | runtime/storage_inspection.go:146-163 | following Next visits every selected row once, in order, if and only if the walk is not stuck |
| KeyOrder.RowsUnique | runtime/storage_inspection.go:141-145 | a table has only one sorted list of rows |
| KeyOrder.LessIff | runtime/storage_inspection.go:141-148 | the recursive order is byte order: where two keys first differ, or one ends within the other |
| KeyedMutex.Mutex.Lock | runtime/host_v2.go:222-234 | the first region finds or makes the entry and counts the caller in |
| KeyedMutex.Mutex.Unlock | runtime/host_v2.go:237-244 | the second region counts the caller out and drops an unused entry |
| KeyedMutex.LocksAreExclusive | runtime/host_v2.go:222-245 | in every interleaving: one thread inside per key, references are the threads bound to an entry, an entry in use is the one in the table, and the table ends empty |
| KeyedMutex.WaitersWaitOnTheTable | runtime/host_v2.go:222-245 | a waiter can go on unless another thread is inside for its key |
| StorageReadiness.Readiness.SetReady | runtime/storage_migration.go:62-73 | ends a running attempt, opens both gates and reports ready |
| StorageReadiness.Readiness.SetUsable | runtime/storage_migration.go:78-91 | opens the early gate and starts an attempt unless one runs |
| StorageReadiness.Readiness.Start | runtime/storage_migration.go:93-106 | starts an attempt unless ready or running, and says what to wait for |
| StorageReadiness.Readiness.End | runtime/storage_migration.go:120-143 | ends the attempt with its outcome and wakes its waiters |
| StorageReadiness.Readiness.Report | runtime/storage_migration.go:108-118 | progress is taken only of an attempt under way |
| StorageReadiness.SetReadyIs | runtime/storage_migration.go:62-73 | afterwards storage is ready for good, no channel is open and no failure is left |
| StorageReadiness.SetUsableIs | runtime/storage_migration.go:78-91 | afterwards early callers may pass and an attempt is under way, the one that was or a new one |
| StorageReadiness.StartIs | runtime/storage_migration.go:93-106 | an attempt begins exactly if storage is not ready and none is under way; the channel to wait for is open |
| StorageReadiness.ReportIs | runtime/storage_migration.go:108-118 | progress is recorded only for the attempt under way |
| StorageReadiness.EndIs | runtime/storage_migration.go:120-143 | a success makes storage ready; a failure is kept with its kind, text and progress; both wake the waiters of the attempt and nobody else |
| StorageReadiness.LookIs | runtime/storage_migration.go:152-212 | a waiter is let through exactly if what it waits for is there, refused exactly with the last failure, and otherwise waits for the attempt under way |
| StorageReadiness.WaitersGetThrough | runtime/storage_migration.go:152-212 | once storage is ready every waiter, blocked or not, can wake, look and is let through |
| StorageReadiness.NewcomersGetThrough | runtime/storage_migration.go:152-212 | so does everyone who comes later |
| StorageReadiness.OpKeeps | runtime/storage_migration.go:62-143 | running is an open attempt channel, usable a closed gate, ready implies usable, and nothing is closed twice or taken back |
| StorageReadiness.ReadinessIsKept | runtime/storage_migration.go:62-212 | over all interleavings with any number of waiters: all of that, and no waiter is left on an attempt that has ended |
| ThreadPreparation.Preparations.Trim | runtime/storage_migration.go:371-390 | drops finished attempts only, in any order, and only as many as are over 256 |
| ThreadPreparation.Preparations.Prepare | runtime/storage_migration.go:298-317 | joins the attempt under way or starts one |
| ThreadPreparation.Preparations.Finish | runtime/storage_migration.go:321-336 | a success forgets the attempt, a failure keeps and trims |
| ThreadPreparation.PrepareIs | runtime/storage_migration.go:298-317 | a caller joins the attempt under way; a finished one is forgotten, and a new one started while the store is open |
| ThreadPreparation.EndIs | runtime/storage_migration.go:321-336 | the end of an attempt is kept with its error; a success is forgotten at once, and no attempt under way is touched |
| ThreadPreparation.PreparationIsSingleFlight | runtime/storage_migration.go:298-390 | over every run: one attempt per thread at a time, the one every caller joins, and at most 256 finished ones, all failures |
| ThreadPreparation.JoinersShareTheAttempt | runtime/storage_migration.go:298-342 | callers join the same attempt, and its end never takes out a later one |
| StoreLifetime.Store.Enter | runtime/runtime.go:1149-1175 | how a call to Close first leaves the lock |
| StoreLifetime.Store.Resume | runtime/runtime.go:1162-1175 | how it goes on after waiting for another close |
| StoreProgress.EnterIs | runtime/runtime.go:1149-1175 | a call returns at once exactly if the store is closed, waits for a close in progress, then for operations, and else claims the close; an open store is closing for good |
| StoreProgress.BeginIs | runtime/runtime.go:1256-1269 | an operation is admitted exactly while the store is open |
| StoreProgress.ResumeIs | runtime/runtime.go:1162-1175 | woken from a close it looks again, woken from the drain it no longer asks about other closers |
| StoreProgress.FinishIs | runtime/runtime.go:1187-1194 | a close lets the next one in and closes the store exactly if it succeeded |
| StoreProgress.ClosersAre | runtime/runtime.go:1149-1180 | where each stretch under the lock leaves the closer: back, parked on what it waits for, or closing the backend; the others stay where they are |
| StoreProgress.OperationsAre | runtime/runtime.go:1256-1300 | an operation is admitted exactly while the store is open, and its finish takes effect once |
| StoreProgress.NobodyStaysParked | runtime/runtime.go:1162-1195 | the end of a close and of the last operation wake everyone |
| StoreLifetime.ClosesAreQuiet | runtime/runtime.go:1142-1195 | in every interleaving: once a physical close has started nothing is active or admitted, counts are exact, and every parked closer waits for something that will end |
| StoreLifetime.FailedCloseIsRetried | runtime/runtime.go:1187-1194 | after a failed close the next call goes through to the backend |
| StoreLifetime.TwoClosersOverlap | runtime/runtime.go:1162-1175 | two calls while one operation is active can both close the backend |
| StoreLifetime.OverlapIffCalledIntoDrain | runtime/runtime.go:1142-1195 | a run comes to where two physical closes can overlap if and only if some Close was called while the store was not closed, no close was in progress and another closer was draining |
| StoreLifetime.OtherRunsCloseOnce | runtime/runtime.go:1142-1195 | in every other run the backend is closed by one closer at a time and never again once it closed |
| StoreLifetime.HostClosesOnce | runtime/host_v2.go:601-665 | however often Shutdown is called, the Host starts at most one physical close |
| StoreProgress.HostRunsCanFinish | runtime/host_v2.go:601-665 | from every point of every run of the Host after Shutdown there is a way to its end, and on it the store is closed physically exactly once |
| ColorProfile.ModelImageWithProfile | provider/model_image.go:471-492 | the segments are written behind the start of image |
| ColorProfile.ModelImageColorProfile | provider/model_image.go:376-418 | the scan loop over marker segments and the joining of the chunks |
| ColorReading.ReadingIs | provider/model_image.go:376-418 | for every image: which payloads count, that the first that does not fit decides the error, and that otherwise the pieces are joined by index until one is missing or the limit is passed |
| ColorProfile.RoundTripIff | provider/model_image.go:376-492 | for every profile and image, reading back gives the profile exactly when it is within the limit and the image had no profile of its own |
| ColorProfile.ProfileNeverWraps | provider/model_image.go:471-492 | at most 17 segments, so neither the index, the count nor a length wraps |
| ColorProfile.ImageSurvives | provider/model_image.go:471-492 | a reader that takes out color profile segments finds the same image with and without the embedded one, and the original itself when that had none |

## Left out

- HTTP, server-sent-event lines, retry advice and failure details: a stream is a sequence of decoded events.
- Cancellation of a context inside a loop, and a caller that stops reading events.
- Argument text that streams before a call is finished: the finished item replaces it.
- Saved DeepSeek items of an unknown type, undecodable saved state, and the request around the rendered items.
- Attachments are already resolved: their MIME type, size and contents are not checked.
- Saved Responses documents are decoded by exact member names; Go also accepts other letter case.
- Raw item bytes that are not valid UTF-8.
- Field and detail lists of mismatch errors, and the JSON paths in them.
- URL parsing in search sources is reduced to the check for a scheme.
- Activity: presentation, run identity, summary durations and the overall status, metadata normalisation, and the time of the last sighting, which nothing reads.
- A run that ends as failed without error text settles nothing, in the source and in the model; nothing is claimed for it.
- DeepSeekStream.ReadStream: the citations of a response, which it passes on as sources before usage, are not events of the model.
- DeepSeekStream.ReconcileItems: annotations of a text part are not read.
- ActivityReducer.ActivityReducer.Apply: presentation, run identity and the time of the last sighting are not fields of the model.
- ActivityReducer.ActivityReducer.Snapshot: gives the items; summary and presentation are not part of it, and the counters are a function of the items.
- ResponsesHistoryLaws.PrepareAfterFork: leaves out a conversation that changes or regroups a record's own segment; `ChangedSegmentFails` and `PrepareKeepsBoundFront` speak of those.
- ActivityLaws.DrainedObserverIsSnapshot: asks that run ends carry their time, because an untimed one is dated anew by every projection.
- The spilled body itself: a read of it is modelled by its extent, and an append as one step that either happens or fails.
- Errors of the base transaction of the overlay, and the SQLite file it comes from.
- The gate of the serialized backend, a semaphore of one; a waiter may give up there when its context ends.
- Phases and counts that startup reports, and the workers that drive readiness and preparation.
- KeyedMutex.Mutex.Lock: the entry's own lock is a holder in the state machine, not a field that blocks.
- StorageReadiness.Readiness.End: the cancelled error kind is a flag of the error.
- StoreLifetime.Store.Enter: the checkpoint before the physical close, and background errors that Close returns.
- Turning an image, orientation metadata, PNG and WebP profiles: they need codecs, zlib and CRC.
- Token accounting, capability checks, schema recognition and migrations, and conversions between public and internal structs: each is settled by one branch or is not part of this model.
