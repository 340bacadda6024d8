# Verification of the chat backend's session engine and its companions

This project models, in Dafny, the parts of the repository whose correctness is hardest to see by
reading one function: the JSON-RPC session engine of the backend (`backend/src/rpc/`), the read
cursors, the chat list and the permission cache (`backend/src/services/`), the generator's schema and
codec transformations (`backend/src/rpc/schema.rs`, `pwa/scripts/api-codegen.ts`), and the two
serialized queues of the service worker (`pwa/public/serviceWorker.js`). It proves properties of whole
runs: what holds in every state that any order of events can reach.

`dafny verify dfyconfig.toml` checks everything.

## How it is organised

* `Json`, `Protocol`: JSON values; classification of messages and normalisation of request ids. The
  wire rules are those of the JSON-RPC 2.0 specification, sections 4, 4.1, 5 and 6.
* `SessionState`, `SessionSteps`, `SessionBatches`: the state of one session at a suspension point, the
  invariant (`Valid`), and a proof per elementary change that the change keeps it.
* `SessionSpec`, `SessionLoop`: the select loop as a class whose methods follow the source statement by
  statement; what each may change is a predicate on the state before and after. Wherever the source
  awaits, `Interference` lets every other party act: close the transport, bind an identity, publish
  events. Queue outcomes, admission, budget and serializer outcomes are nondeterministic. `Serve` is a
  whole session.
* `SessionGuarantees`: what a client can rely on, derived from the invariant.
* `Dispatch`: what the loop may assume of the results of supervised calls.
* `EventGate`: event publishers, watch replacements, suspension and the notice, lock step by lock step.
* `Frames`: the paired text and lease queues and the 64 MiB byte budget, with cancellation.
* `Admission`: the two levels of admission permits over any number of sessions.
* `SchemaProjection`, `SchemaTermination`, `SchemaDivergence`: flattening of `allOf`, its independence of
  order, when it ends and when it does not.
* `CompactCodecs`: the least fixpoint of needed codecs, and pruning that preserves conversion.
* `ReadCursor`, `ChatList`: SQL statements as functions of one snapshot of the tables.
* `Diagnostics`, `Notifications`: the service worker's queues.
* `PermissionCache`: the cache against changing policy tables, statement by statement.

The state of a session carries history fields that the loop never reads: the request that each reply
answers, where that reply is now, and who holds each outstanding id. They turn "answered once", "nothing
forgotten" and "`outstanding` is exactly the ids in use" into statements about one state.

## Where the code and its promise differ

* `project_schema` does not end for every component map without bare references. A nullable component
  whose `allOf` refers to the component itself is wrapped in an alternative before it is flattened, which
  hides the reference; when the result is projected again, it is resolved again, and so on
  (`SchemaDivergence.ProjectionNeedNotEnd`). Projection ends for every schema if the components can be
  ranked: the rank falls along every hidden reference whose list is kept, and does not rise along any other
  (`SchemaTermination.ProjectionEnds`). Cycles without hidden references are ranked
  (`SchemaTermination.CalmProjectionEnds`), and so are cycles of any shape through object schemas, whose lists
  dissolve when they are merged (`SchemaTermination.ObjectCyclesEnd`). A cycle of components that are no object
  schemas, through lists that hide the reference or are kept, makes a schema that is never projected, whatever
  else the components hold (`SchemaDivergence.KeptCycleNeverProjects`). If every component is a nullable reference or
  holds no reference, projection ends for every schema if and only if following those references always
  comes to an end (`SchemaDivergence.AliasesEndExactly`).
* The two probes for the hidden tail bound the second one by the largest 64-bit id when no visible row
  follows, so a hidden row with exactly that id is not passed (`ReadCursor.LastHiddenRowIsMissed`). The probes
  agree with the plain walk if and only if that row is not there (`ReadCursor.ProbesRefineTheWalk`).
* The comment on `shift_chat_read_pointers_on_delete` speaks of the newest surviving message; the statement
  also accepts a deleted one that still has a thread. The model follows the statement.
* A message can be shown twice within thirty days: the worker is killed after showing it and before
  remembering it, and the notification is dismissed before the worker starts again
  (`Notifications.ShownTwice`); or the write that should remember it fails
  (`Notifications.ShownTwiceAfterFailedWrite`). A push shows a message again if and only if it is neither
  suppressed nor covered by a read mark and no step has remembered the message since it was shown
  (`Notifications.ShownAgainExactly`, `Notifications.ShownOnceExactly`).
* A notification can stay open below the read mark of its scope. Closing up to a message raises the stored
  mark without asking whether that mark has expired, so an expired higher mark comes back to life over
  notifications shown in the meantime (`Notifications.ExpiredMarkRevives`); and a close can be cut short after
  it has stored the mark. It happens in no other way (`Notifications.StaysOpenExactly`).
* A cached permission answer need not be what the tables gave at any one instant: a load is up to three
  statements, each with its own snapshot (`PermissionCache.TornLoadGrantsTooMuch`). It is exact if and only if
  the policies of the subject are the same for the first two statements and for the last, whatever else
  changes meanwhile (`PermissionCache.LoadIsExact`, `PermissionCache.UndisturbedAnswersAreExact`).
* Pruning can take a fresh entry away: exactly one that was stored again between the collecting and the
  removing half of a pruning (`PermissionCache.PruningLosesExactlyRaces`), as in the run of
  `PermissionCache.PruningTakesFreshEntry`. The next request then loads for itself
  (`PermissionCache.RacedRemovalReloads`).

## Model

| member | source | states |
|---|---|---|
| Protocol.NumericIdsAgreeExactlyOnValue | backend/src/rpc/protocol.rs:15-43 | two numeric ids are tracked as one id exactly when they denote the same value, so 1 and 1.0 cannot be outstanding together and distinct values never collide |
| Protocol.EchoedIdIsRecognised | backend/src/rpc/protocol.rs:15-43 | an id echoed in a response and read back is the tracked id |
| Protocol.ItemClasses | backend/src/rpc/protocol.rs:128-155 | an item is a call exactly when it is a Request object, a peer response exactly when it is a Response object, and otherwise one fixed invalid-request error |
| Protocol.CallRoundTrip | backend/src/rpc/protocol.rs:128-155 | an encoded call parses back to itself: notifications stay notifications and a null id stays a request |
| Protocol.OwnRepliesAreNeverAnswered | backend/src/rpc/protocol.rs:112-135 | whatever a session emits, alone or as a batch, is ignored by a peer running the same engine |
| SessionState.RenderedLength | backend/src/rpc/session.rs:1862-1880 | the bytes reserved for a batch are exactly the length of its rendered array |
| SessionSteps.CloseKeepsValid | backend/src/rpc/session.rs:215-219 | closing at any moment keeps the session invariant |
| SessionSteps.PublishKeepsValid | backend/src/rpc/session.rs:1040-1065 | an event published while the session accepts and is activated keeps the invariant |
| SessionSteps.ActivateKeepsValid | backend/src/rpc/session.rs:847-866 | events may start once the opening reply is queued, and only then |
| SessionSteps.AnnounceSingleKeepsValid | backend/src/rpc/session.rs:1670-1685 | a new single request keeps `outstanding` the disjoint union of the ids in use |
| SessionSteps.AnnounceMemberKeepsValid | backend/src/rpc/session.rs:2238-2249 | a new batch member keeps the union and the count its batch waits for |
| SessionSteps.SpawnKeepsValid | backend/src/rpc/session.rs:1770-1823 | handing a call to the executor keeps every request traceable to exactly one place |
| SessionSteps.DropHandKeepsValid | backend/src/rpc/session.rs:1736-1752 | a request may be given up unanswered only by a closed session or after suspension |
| SessionSteps.TakeKeepsValid | backend/src/rpc/session.rs:1989-1994 | consuming a result, in any order, keeps the bookkeeping of ids and batches |
| SessionSteps.SendSingleKeepsValid | backend/src/rpc/session.rs:2003-2006 | queueing a single reply answers its request once, in place |
| SessionSteps.SuspendKeepsValid | backend/src/rpc/session.rs:963-966 | suspension separates the requests that must still be answered from later ones |
| SessionSteps.NoticeKeepsValid | backend/src/rpc/session.rs:1888-1917 | the notice may follow only a quiet output or the frame that carries the same failure |
| SessionBatches.BeginKeepsValid | backend/src/rpc/session.rs:2216-2218 | a batch starts with a fresh number and no members |
| SessionBatches.WithdrawKeepsValid | backend/src/rpc/session.rs:2055-2057 | subtracting a finished member keeps the count of members still in flight |
| SessionBatches.WaitingForCall | backend/src/rpc/session.rs:2055-2057 | there is always a member to subtract, so the saturating subtraction never saturates |
| SessionBatches.PushKeepsValid | backend/src/rpc/session.rs:1847-1851 | a reply joins the batch of its request and no other |
| SessionBatches.FlushKeepsValid | backend/src/rpc/session.rs:2064-2070 | a completed batch leaves with one complete frame, or none if nothing is owed, and frees exactly its own ids |
| SessionLoop.Session.Interference | backend/src/rpc/session.rs:1040-1065 | what other parties may change while the loop waits: the closed flag, the identity, and events while the session accepts and is activated |
| SessionLoop.Session.SuspendAuthorizedWork | backend/src/rpc/session.rs:963-966 | admission stops, nothing else of the loop changes, and no reply is added or lost |
| SessionLoop.Session.HandleLifecycleFailure | backend/src/rpc/session.rs:1888-1917 | the notice is the only frame queued (or none, if the transport failed), and the session ends closed, notified and not accepting |
| SessionLoop.Session.Activate | backend/src/rpc/session.rs:847-866 | events are enabled exactly for an accepting session with a bound identity, and stay enabled |
| SessionLoop.Session.SendSingle | backend/src/rpc/session.rs:464-493 | either exactly this reply is appended to the replies, or nothing is and the transport is closed |
| SessionLoop.Session.ScheduleCall | backend/src/rpc/session.rs:1653-1824 | a duplicate id is never dispatched, an unregistered name is never spawned, a call with an id is given up only by a closed or suspended session, a session or control call is turned away only then, and an immediate single answer frees its id |
| SessionLoop.Session.Finish | backend/src/rpc/session.rs:2007-2025 | after an answer: its failure is announced and ends the session, or else activation, and the loop goes on exactly if no failure and no close was asked for |
| SessionLoop.Session.DeliverSingle | backend/src/rpc/session.rs:1996-2025 | the reply, then the notice of the failure it carries, are queued in this order and nothing else is; the order is cut short only by the end of the session |
| SessionLoop.Session.HandleSingleResult | backend/src/rpc/session.rs:1989-2037 | consuming a single result queues exactly its reply and notice, enables events if the call asked for it, and returns to an idle loop or an ended session |
| SessionLoop.RenderBatch | backend/src/rpc/session.rs:1872-1880 | the loop builds the separated array of all texts in order, of the reserved length |
| SessionLoop.Session.FlushBatch | backend/src/rpc/session.rs:1854-1886 | an empty batch sends nothing, another sends its one frame and frees its ids, and a failure leaves everything in place |
| SessionLoop.Session.CompleteBatch | backend/src/rpc/session.rs:2064-2095 | the frame of a completed batch precedes the notice of the first failure among its replies |
| SessionLoop.Session.CollectResult | backend/src/rpc/session.rs:2045-2060 | the batch waits for one call fewer, gains the reply, and remembers the first failure |
| SessionLoop.Session.CountMember | backend/src/rpc/session.rs:2038-2095 | a member's outcome reaches its own batch, which is answered in full once it waits for nothing |
| SessionLoop.Session.HandleBatchResult | backend/src/rpc/session.rs:2038-2097 | consuming a member's result queues nothing unless it completes the batch; an ordinary notification never completes or changes one |
| SessionLoop.Session.Refuse | backend/src/rpc/session.rs:2162-2168 | the session ends, with at most the one refusal queued and no request recorded |
| SessionLoop.Session.Respond | backend/src/rpc/session.rs:2126-2147 | an error that answers no request is the only frame queued, or the session ends |
| SessionLoop.Session.ReadSingle | backend/src/rpc/session.rs:2172-2215 | a response of the peer changes nothing; otherwise exactly the call's request is recorded |
| SessionLoop.Session.ReadMember | backend/src/rpc/session.rs:2219-2273 | one item adds its id, its invalid answer, or nothing to the batch, and no frame to the output |
| SessionLoop.Session.ScheduleMember | backend/src/rpc/session.rs:2233-2271 | a call of the batch adds its id and is waited for, answered in the batch at once, or given up; a duplicate id ends the session; nothing leaves the output |
| SessionLoop.Session.ReadBatch | backend/src/rpc/session.rs:2216-2292 | exactly the batch's calls with an id are recorded, in order; the batch waits in the table or has been answered with one frame |
| SessionLoop.Session.ReadMessage | backend/src/rpc/session.rs:2149-2170 | any first well-formed message but a single `session.open` with a non-null id ends the session with no request recorded |
| SessionLoop.Session.ReadInput | backend/src/rpc/session.rs:2101-2147 | malformed text is answered and leaves the session unopened, an oversized message ends it, and otherwise the message's calls are recorded |
| SessionLoop.Session.HandleGuardFailure | backend/src/rpc/session.rs:1979-1982 | a failure found without a call queues only the notice and ends the session |
| SessionLoop.Session.ConsumeResult | backend/src/rpc/session.rs:1989-2099 | every result queues exactly what its kind and its batch require, takes nothing back, and enables events exactly when its call, or its completed batch, asked for it |
| SessionLoop.Session.Serve | backend/src/rpc/session.rs:1932-2302 | after any events in any order the session is closed and unbound, the invariant holds, no queued reply was lost, and for a failure that was carried the one notice was sent unless the transport failed first |
| SessionGuarantees.AnsweredAtMostOnce | backend/src/rpc/session.rs:1670-1685 | no request is answered twice, in one frame or two, and the answer carries its id |
| SessionGuarantees.BatchIsAnsweredExactly | backend/src/rpc/session.rs:1854-1886 | a batch frame holds exactly one reply per call with an id and per invalid item, none for notifications, is never empty, and has the reserved length |
| SessionGuarantees.OutstandingPartition | backend/src/rpc/session.rs:1670-1685 | while open and accepting, `outstanding` is the disjoint union of the ids of single calls in flight and of unflushed batches, without repetition |
| SessionGuarantees.NothingIsForgotten | backend/src/rpc/session.rs:2064-2070 | when nothing is in flight, no batch waits, no id is outstanding, and every request that arrived has its answer on the output |
| SessionGuarantees.OpeningComesFirst | backend/src/rpc/session.rs:2149-2170 | before the success of the opening call is queued nothing else was spawned, no event task started, and every frame is an error reply or the notice |
| SessionGuarantees.NoticeIsLast | backend/src/rpc/session.rs:1888-1917 | at most one notice is sent, it is the last frame, and the reply or batch that carried the failure directly precedes it |
| Dispatch.ResultsMeetTheAssumption | backend/src/rpc/methods.rs:326-332 | a result carries a reply exactly when the call has an id, under that id |
| Dispatch.FailuresAreReportedOnce | backend/src/rpc/methods.rs:261-320 | without an identity only the two opening methods run; a failed generation check, and activity that cannot be recorded, keep the handler from running; the failed check is reported once, in the reply or through the guard |
| EventGate.NextIsAfter | backend/src/rpc/session.rs:771-777 | the wrapping counter that skips zero has a closed form |
| EventGate.GenerationsRepeatOnlyAtWrap | backend/src/rpc/session.rs:771-777 | generations are never zero and two are equal exactly when a whole number of wraps lies between them |
| EventGate.RunIsValid | backend/src/rpc/session.rs:779-846 | in every schedule of lock steps the gate and the lock have one holder, and a party past its check can rely on it until it enqueues |
| EventGate.NothingStaleFollowsAReplacement | backend/src/rpc/session.rs:1040-1065 | every watch event queued after a replacement carries the generation and request id of the latest one of its kind |
| EventGate.GenerationsAreDistinct | backend/src/rpc/session.rs:779-846 | watches of all three kinds installed in one run have distinct generations below a wrap |
| EventGate.NothingFollowsSuspension | backend/src/rpc/session.rs:963-966 | after admission has stopped no event is queued and no watch replaced, and nothing follows the notice |
| EventGate.SuspensionIsFinal | backend/src/rpc/session.rs:963-966 | in every continuation admission stays stopped |
| Frames.RunIsValid | backend/src/rpc/session.rs:269-328 | the pairing, the bounds and the accounting hold in every schedule of senders, receivers and cancellations |
| Frames.BytesAreConserved | backend/src/rpc/session.rs:180-194 | free bytes and the bytes of live leases, shared ones counted once, always make 64 MiB |
| Frames.ReceivedInOrder | backend/src/rpc/session.rs:350-366 | the frames received are a prefix of the frames published, each with its own lease |
| Frames.RetainedTextHasItsLease | backend/src/rpc/session.rs:350-366 | a receiver that holds a text finds the lease of that text queued, or a sender about to publish it |
| Frames.LeaseLivesAsNeeded | backend/src/rpc/session.rs:144-166 | in every run the lease of a received frame is live, with exactly the bytes the frame needs, if and only if the frame has not been dropped or a call dispatched from it has not let go |
| Frames.FramesAreCovered | backend/src/rpc/session.rs:270-327 | every frame from its publication to the end of its writing or dispatch is covered by a lease of the bytes it needs, the whole budget if oversized |
| Frames.BytesReturnWithTheLastHolder | backend/src/rpc/session.rs:2244-2252 | the bytes of a shared input lease return in the very step in which the last of the frame and the calls dispatched from it lets go, and in no other |
| Frames.QueuesAreBounded | backend/src/rpc/session.rs:464-484 | both queues stay within 16 entries although the halves are published apart |
| Admission.RunConserves | backend/src/rpc/session.rs:1575-1582 | free and held permits are constant on all three levels, also when the second acquisition fails or a session ends |
| Admission.LimitsHold | backend/src/rpc/session.rs:1686-1735 | at most 16 ordinary and 9 control calls per connection and 128 ordinary calls in all, over any number of sessions |
| Admission.PermitsComeBack | backend/src/rpc/session.rs:1565-1582 | when no admitted work remains every permit is free again |
| SchemaProjection.MergeObjectSchema | backend/src/rpc/schema.rs:406-453 | the three loops compute the merge that the lemmas speak of, conflicts and the panic on non-object properties included |
| SchemaProjection.MergeParts | backend/src/rpc/schema.rs:372-375 | parts are merged in order up to the first failure |
| SchemaProjection.MergeAllMeans | backend/src/rpc/schema.rs:406-453 | merging succeeds exactly when all members agree on their common properties, and collects the properties and required names of all |
| SchemaProjection.OrderOfPartsDoesNotMatter | backend/src/rpc/schema.rs:372-375 | success, properties and required set do not depend on the order or repetition of merged parts |
| SchemaProjection.FlattenIgnoresOrder | backend/src/rpc/schema.rs:351-376 | flattening an `allOf` ends alike and yields the same properties and required set whatever the order of its entries |
| SchemaTermination.MoreFuelIsTheSame | backend/src/rpc/schema.rs:293-322 | an outcome that has been reached does not depend on the depth allowed |
| SchemaTermination.Terminates | backend/src/rpc/schema.rs:293-396 | by names off the stack, pass, level, depth and height, the projection of what the ranks admit ends, and its hidden references stay within the level |
| SchemaTermination.ProjectionEnds | backend/src/rpc/schema.rs:293-396 | the projection of every schema ends for every component map, cyclic ones included, whose components can be ranked: no cycle leads through a list that hides a reference and is kept |
| SchemaTermination.CalmProjectionEnds | backend/src/rpc/schema.rs:293-396 | it ends for every cyclic or acyclic component map that hides no reference, and what a calm schema becomes holds nothing left to resolve |
| SchemaTermination.ObjectCyclesEnd | backend/src/rpc/schema.rs:398-404 | it ends for every component map, with cycles of any length and shape, in which each list that refers to components refers to object schemas only, hidden or not |
| SchemaTermination.MutualContainmentEnds | backend/src/rpc/schema.rs:398-404 | two object schemas that contain each other through nullable references are such components |
| SchemaDivergence.KeptCycleNeverProjects | backend/src/rpc/schema.rs:293-396 | for every cycle of components that are no object schemas, each with a list that refers to the next one and is kept or hides it, there is a schema whose projection never succeeds, at any depth of calls |
| SchemaDivergence.MixedCycleNeverProjects | backend/src/rpc/schema.rs:293-396 | a nullable reference and a plain `allOf` that refer to each other are such a cycle |
| SchemaDivergence.KeptCycleDiverges | backend/src/rpc/schema.rs:316-318 | if that projection cannot fail, it does not end |
| SchemaDivergence.AliasCycleDiverges | backend/src/rpc/schema.rs:316-318 | a cycle of nullable references of any length cannot fail, so the projection runs out of every depth |
| SchemaDivergence.AliasesEndExactly | backend/src/rpc/schema.rs:293-396 | if every component is a nullable reference or holds none, projection ends for every schema if and only if following the references always comes to an end |
| SchemaDivergence.ProjectionNeedNotEnd | backend/src/rpc/schema.rs:316-318 | a nullable component that refers to itself, and a schema whose projection never ends |
| CompactCodecs.FindNeeded | pwa/scripts/api-codegen.ts:240-255 | the growing loop ends with exactly the names from which a number can be reached |
| CompactCodecs.ReachableIsLeast | pwa/scripts/api-codegen.ts:240-255 | the names from which a number is reachable are the least closed set |
| CompactCodecs.CompactCodecs | pwa/scripts/api-codegen.ts:236-272 | the result holds the pruned codec of every needed name and nothing else |
| CompactCodecs.ResultIsWellFormed | pwa/scripts/api-codegen.ts:256-271 | every surviving reference resolves and no entry is undefined or empty |
| CompactCodecs.CompactionPreservesMeaning | pwa/src/app/api/json-ids.ts:22-56 | for every value, depth and encoder, conversion with the pruned codecs gives what conversion with the originals gives whenever that completes |
| CompactCodecs.PruningCanOnlyHelp | pwa/src/app/api/json-ids.ts:39-39 | the converse fails: a codec that only refers to itself is removed, and conversion then completes |
| ReadCursor.ProbesRefineTheWalk | backend/src/services/chat.rs:89-117 | the two-probe statement equals the walk over hidden rows if and only if the largest id is not a hidden row beyond reach |
| ReadCursor.LastHiddenRowIsMissed | backend/src/services/chat.rs:89-117 | a snapshot on which the probes and the walk differ |
| ReadCursor.ProbesFindTheTail | backend/src/services/chat.rs:89-117 | all rows passed are membership events and the next eligible row is visible |
| ReadCursor.MarkingIsMonotoneAndExact | backend/src/services/chat.rs:49-83 | marking read never moves a cursor back, is idempotent on a snapshot, and leaves unread exactly what is visible above the old cursor and the confirmed id |
| ReadCursor.BatchedShiftIsOneByOne | backend/src/services/chat.rs:209-235 | one batched shift equals deleting and shifting one message at a time in any order |
| ReadCursor.NoCursorDangles | backend/src/services/chat.rs:189-235 | if every cursor was addressable before the deletion, every cursor is after the shift |
| ReadCursor.SurvivingUnreadIsUnchanged | backend/src/services/chat.rs:189-235 | no member's set of surviving unread messages changes, also where the cursor becomes NULL |
| ReadCursor.Store.MarkChatAsRead | backend/src/services/chat.rs:49-83 | the table after the update is the marked one, and the result says whether it changed |
| ReadCursor.Store.ShiftChatReadPointersOnDelete | backend/src/services/chat.rs:209-235 | every cursor on a deleted message moves, no other does, and the result counts them |
| ReadCursor.Store.RecalculateGroupLastMessage | backend/src/services/chat.rs:149-187 | the group names its newest live top-level message and when it was sent, or none, and no other group changes |
| ReadCursor.Store.ReconcileDeletions | backend/src/services/message_deletion.rs:111-148 | after a reconciled deletion no cursor dangles if none did before, and the group still names its latest message although it is looked up again only if it was deleted |
| ChatList.CursorFollowsTheOrder | backend/src/services/chat_list.rs:106-121 | both variants of the cursor filter keep exactly the rows that the order puts after the cursor row |
| ChatList.RestOfList | backend/src/services/chat_list.rs:99-128 | what a page draws from is the rest of the full list after its cursor |
| ChatList.PagesMakeTheList | backend/src/services/chat_list.rs:99-128 | following cursors with any limits of at least one yields the full list in order without gap or repetition |
| ChatList.HiddenEventsChangeNoPage | backend/src/services/chat_list.rs:51-70 | membership events that are hidden change no page, no order and no cursor |
| Diagnostics.TrimmedIsLongestFit | pwa/public/serviceWorker.js:156-156 | trimming keeps the longest suffix within 60 entries and 24 KiB |
| Diagnostics.Ring.Record | pwa/public/serviceWorker.js:142-145 | a record of an earlier epoch is refused at once, another waits its turn |
| Diagnostics.Ring.Clear | pwa/public/serviceWorker.js:41-47 | the epoch advances before the clear is queued |
| Diagnostics.Ring.Trim | pwa/public/serviceWorker.js:156-156 | the shifting loop ends with the trimmed ring and counts what it evicts |
| Diagnostics.Ring.RunNext | pwa/public/serviceWorker.js:145-158 | a queued record is kept only if no clear waits behind it, the ring fits afterwards, and retained and evicted counts equal the records accepted |
| Diagnostics.OnlyLaterRecords | pwa/public/serviceWorker.js:41-47 | in every run, once a clear has run, every record counted in the ring is of a request that began after the clear was called and was made by a later call, and nothing comes from storage |
| Diagnostics.InFlightIsDropped | pwa/public/serviceWorker.js:142-146 | a record queued before a clear has an epoch that is over when its turn comes |
| Notifications.RunIsValid | pwa/public/serviceWorker.js:362-372 | in every run, the notifications on the screen belong to the current account |
| Notifications.ShownAgainExactly | pwa/public/serviceWorker.js:286-315 | in every run, a push shows a message again within thirty days if and only if it is not suppressed, no read mark covers it, and no step has remembered the message since it was shown |
| Notifications.ShownOnceExactly | pwa/public/serviceWorker.js:286-315 | a run shows no message twice within thirty days if and only if it has no such push |
| Notifications.ShownAtMostOnce | pwa/public/serviceWorker.js:286-315 | with kills and restarts anywhere, a message is shown at most once in thirty days if no write fails and no notification is dismissed before it is remembered |
| Notifications.SeenMeansRecorded | pwa/public/serviceWorker.js:237-240 | for thirty days after it was shown a message counts as seen if and only if some step has remembered it since |
| Notifications.ShownTwice | pwa/public/serviceWorker.js:296-313 | a kill, a dismissal and a restart after which a message is shown twice |
| Notifications.ShownTwiceAfterFailedWrite | pwa/public/serviceWorker.js:270-273 | a failed write after which a message is shown twice |
| Notifications.MarksNeverDecrease | pwa/public/serviceWorker.js:316-323 | no step lowers an unexpired read mark |
| Notifications.NothingReadIsShown | pwa/public/serviceWorker.js:286-323 | in every run, for thirty days after a scope was acknowledged up to a message, nothing of that scope up to it is shown, even if the close was cut short |
| Notifications.LeavesExactly | pwa/public/serviceWorker.js:316-340 | a step leaves a notification open at or below its mark if and only if it is a close that was cut short before that notification, or that stores an expired higher mark again |
| Notifications.StaysOpenExactly | pwa/public/serviceWorker.js:316-340 | in every run, a notification is open although it is read if and only if such a close left it open and nothing has closed it since |
| Notifications.ExpiredMarkRevives | pwa/public/serviceWorker.js:317-322 | a run in which an expired mark is revived over an open notification |
| Notifications.NotificationWorker.Receive | pwa/public/serviceWorker.js:286-315 | an undisturbed push is the showing step followed by the remembering step |
| Notifications.NotificationWorker.Close | pwa/public/serviceWorker.js:316-340 | the handler performs exactly the closing step |
| Notifications.NotificationWorker.Start | pwa/public/serviceWorker.js:251-269 | starting drops expired records and remembers what is on the screen |
| PermissionCache.AnswersAreRecent | backend/src/services/authz.rs:128-165 | every answer comes from one load that ended at most 60 s earlier and whose statements saw tables in force while it ran, however loaders race |
| PermissionCache.LoadIsExact | backend/src/services/authz.rs:231-298 | a load gives what the tables gave at its last statement, for all permissions, if and only if the policies of the subject were the same by then |
| PermissionCache.UndisturbedAnswersAreExact | backend/src/services/authz.rs:231-298 | in every run, the answer is what the tables gave at one instant of its load if the policies of the subject were the same for its statements, whatever else changed |
| PermissionCache.TornLoadGrantsTooMuch | backend/src/services/authz.rs:222-298 | a run whose answer grants what no instant of the tables granted |
| PermissionCache.GroupChangeIsImmediate | backend/src/services/authz.rs:128-143 | whatever happens before and after, a user who asks is answered for the group that the tables name at the moment of asking |
| PermissionCache.PruningChangesNoAnswer | backend/src/services/authz.rs:300-316 | pruning removes only entries that could no longer answer |
| PermissionCache.PruningLosesExactlyRaces | backend/src/services/authz.rs:300-316 | in every run, a removal takes a fresh entry if and only if the key was stored again while it was marked, less than 60 s before, and not removed since |
| PermissionCache.PruningTakesFreshEntry | backend/src/services/authz.rs:300-316 | a run in which a pruning removes a fresh entry |
| PermissionCache.RacedRemovalReloads | backend/src/services/authz.rs:145-165 | after such a removal the next request loads for itself, and its answer, however the run goes on, comes from that load or a later one and is as recent as any |
| PermissionCache.PermissionStore.PruneStaleEntries | backend/src/services/authz.rs:300-316 | the removing loop leaves exactly the entries that were not stale |
| PermissionCache.PermissionStore.LoadCachedActions | backend/src/services/authz.rs:128-165 | an undisturbed lookup answers from a fresh entry or stores what was loaded, and no other key gains or loses a fresh entry |

## Left out

- SessionLoop.Session.Serve: a run reads fewer than 2^64 batches, because the source numbers them with a wrapping 64-bit counter and a wrapped number could meet an unflushed batch.
- SessionLoop.Session.Serve: that something is eventually answered is not stated; no fairness of the executor is assumed, and worker panics and failed serialization appear only as a closed transport.
- SessionLoop.Session.Interference: the order of steps inside the event gate is the subject of EventGate; here events are only known to need an accepting and activated session.
- SchemaTermination.ProjectionEnds: a component map that cannot be ranked may still end, because projection fails first or because lists dissolve that only merging shows to be lists of object schemas; SchemaDivergence.KeptCycleNeverProjects covers the cycles through kept lists, and the exact condition is proved for maps of nullable references (SchemaDivergence.AliasesEndExactly).
- SchemaProjection.Project: an entry that runs out of depth wins over a failing sibling, while the source stops at whichever comes first.
- Frames.RunIsValid: dropping a whole queue when its receiver goes away is not a step; frames leave one by one after they are received.
- PermissionCache.AnswersAreRecent: the 60 s are counted from the end of the load, as in the source, so a snapshot can be older by the duration of the load.
- The session's fields are kept as one value in the class, so aliasing between the loop's tables and the shared state is not modelled; exclusive access under the state lock is.
- EventGate, Frames, Admission and the runs of Notifications and PermissionCache are modelled on values, as steps of a state machine over the source's lock, queue and statement steps, not as updates in place.
- The text of requests and replies is arbitrary except for its length; JSON parsing and serialization themselves are not modelled, and floating-point ids are exact reals.
- A reply to an oversized message echoes an id without recording a request, so it may repeat an outstanding id; the session ends with it.
- Registration in the connection registry, timers, metrics and the ten-second send deadline: closing may happen at any step instead.
- Event order of `auth.createDevSession` and the number of generation checkers: notification results reach the activation branch as well.
- Merging of generated components, parameter descriptors and `validate_references`: each says little beyond its own body.
- Termination of `codecFor` on cyclic unions: it follows variant references without a guard, and pruning does not depend on it.
- The preview maps of the chat list, its single-chat filter and avatar lookup: wiring.
- Diagnostics.Ring.RunNext: the ring that is saved after each action is not modelled, and reading it back when the worker starts is a parameter.
- Notifications.NotificationWorker.Start: starting, and switching the session, are taken to complete; failed writes are modelled while a message is remembered and while notifications are closed.
- Messages without a valid id in the notification store: they are neither deduplicated nor compared with marks. Before the first session is known the source files messages under a placeholder account; in the model there is no account then.
- ReadCursor.Store.ReconcileDeletions: the statistics and cursors of threads are left out; which roots have lost their last reply is a parameter.
