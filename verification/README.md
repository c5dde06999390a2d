# Durable delivery between Matrix and Tumblr, verified

This Dafny project models the parts of the bridge that decide whether a message is lost, sent twice, or
reported wrongly, and proves what they promise:

- **Recognising echoes.** Sends that wait for their remote echo and the fetched messages form a bipartite
  graph. `BipartiteMatching` is the theory, `EchoMatching` the augmenting search on a mutable table,
  `EchoReconciliation` the run that blocks unverified components, claims forced pairs and splits the fetched
  messages, `ResponseClaim` the early claim from the reply to a send.
- **Outbound rows.** `OutboundTables` holds the rows, the schema's checks and indexes, the row scanner and every
  guarded statement; `OutboundInvariant`, `OutboundStatements` and `OutboundSteps` prove what each statement
  keeps, `OutboundGuards` when it takes effect and what it makes of its row; `OutboundProtocol` interleaves any
  number of processes, crashes, deletions and replies over whole runs, request by request, `OutboundRuns` states
  what holds in all of them and `OutboundProgress` what always remains possible; `OutboundSendQuery.dfy` is the
  query object, with nanosecond times over millisecond rows; `MessageSend` is the send with its one retry;
  `OutboundSender` puts the two together; `RecoverySchedule` bounds the recovery of an unresolved send.
- **Inbound sync.** `ConversationJobs` is the revision-guarded job table and its worker, `HistoryScan` the scan
  back to the saved head, `ConversationDelivery` the delivery and the move of the head, `SeenMessages` the cache.
- **Coordinators and codecs.** `SaveChain`, `ConnectionGenerations`, `PushRotation`, `McsFraming`,
  `ImageMetadata` and `JpegMetadata` over `Bytes`; `Sequences` holds the filter that several modules share.

Code that changes things step by step is a class with methods, each tied to a function of its old state; the
theorems about whole runs are lemmas over those functions. A process that may be interrupted anywhere is a state
machine whose steps are the atomic sections of the code, in any order.

Some expectations turned out to need a condition, and the project states it:

- An outbound failure or status claim whose two times fall into one millisecond passes the argument check, which
  compares nanoseconds, and is then refused by the schema (`OutboundSendQueries`).
- Acknowledging a job is safe only while nobody else deletes its row, because revisions start again at one
  (`ConversationJobs`).
- An accepted push registration stays known under four conditions on its callers: it is not staged a second time
  while it is pending; the copies passed to finishing and promoting carry its mark, as those of the receiver do; no
  token is used again after it was unregistered; and no rollback takes back a mark that another save made durable.
  The first and the last are proved exact, and a run of the model breaks the last (`PushRotation`).
- A full cache of seen messages reports a remembered message again exactly if the same fetch has displaced its key
  (`SeenMessages`).
- A frame beyond 16 MiB can be sent but is not read back (`McsFraming`).
- The early claim from a send's reply is never wrong, but it is forced exactly if the send's other messages are
  always taken, which a reply with all of them ensures (`ResponseClaim`).

## Model

| member | source | states |
|---|---|---|
| BipartiteMatching.FailedSearchKeepsMaximum | pkg/connector/outbound.go:94-130 | when a search from a sender fails, the matching of the earlier senders is still a largest one with that sender added |
| BipartiteMatching.GrownMatchingIsMaximum | pkg/connector/outbound.go:94-130 | a matching that grew by one with one sender added is a largest one |
| BipartiteMatching.ForcedWhenRemovalShrinks | pkg/connector/outbound.go:76-92 | an edge of a largest matching is in all of them exactly if the graph without it only has smaller ones |
| BipartiteMatching.UnknownEdgesKeepForced | pkg/connector/outbound.go:1444-1515 | edges that touch neither side of a closed part leave exactly the same edges of that part forced |
| EchoMatching.AugmentingSearch.Assign | pkg/connector/outbound.go:94-130 | the recursive search terminates; success matches one message more for the start set and leaves earlier visited entries alone, although one set may stand at two messages in between; failure leaves the table and an exhausted set of messages |
| EchoMatching.MaximumMatching | pkg/connector/outbound.go:94-130 | a matching of distinct messages of maximum size in the graph without the blocked edge; the returned size counts its entries |
| EchoMatching.ForcedMatches | pkg/connector/outbound.go:76-92 | reports, for distinct sends, exactly the pairs that every maximum matching contains |
| EchoReconciliation.BuildCandidateSets | pkg/connector/outbound.go:1411-1470 | the sets are the verified relations, and the initial blocks are both ends of every unverified one |
| EchoReconciliation.CloseBlocked | pkg/connector/outbound.go:1471-1507 | the nested loops end in the least set of sends and messages that contains the unverified ones and is closed under candidate edges |
| EchoReconciliation.ClaimsAreSettled | pkg/connector/outbound.go:1444-1515 | among the unblocked sends, a pair is forced in the known graph exactly if it is forced in every graph that the unverified relations could complete it to |
| EchoReconciliation.UnblockedClaimCouldBeWrong | pkg/connector/outbound.go:1471-1507 | without blocking, one unverified relation makes a wrong pair look forced |
| EchoReconciliation.Reconcile | pkg/connector/outbound.go:1385-1570 | a message goes out under the transaction of the send that owns it, by its row or by a settled pair, or is finalized if that send does not listen; of the others, exactly the possible echoes of waiting sends are held, and the rest is delivered in its place; it fails exactly if an owned message cannot be finished, else if a check failed, else with the first claim in order that does not go through |
| EchoReconciliation.OneReconciliation | pkg/connector/outbound.go:1411-1570 | the surroundings leave only one reconciliation |
| EchoReconciliation.OwnedStaysOwned | pkg/connector/outbound.go:1411-1443 | a message that a row already owns goes out under its transaction if its sender listens, and else is finalized and not delivered; it is never held |
| EchoReconciliation.TransactionsAreCertain | pkg/connector/outbound.go:1516-1568 | a delivered message has a transaction only of a listening send that owns it for certain, and none only if no row owns it and no waiting send could have produced it |
| EchoReconciliation.OtherMessagesAreDelivered | pkg/connector/outbound.go:1417-1421 | a message whose ID cannot be an echo, such as one of the bridge itself, always goes out as a new one |
| ResponseClaim.ClaimSendResponse | pkg/connector/outbound.go:1577-1662 | claims a message of the reply exactly if it matches the send alone and is the only one that does; fails exactly if a check failed before anything had settled that there is no claim, or if the claim found the graph changed |
| ResponseClaim.ResponseClaimIsSafe | pkg/connector/outbound.go:1572-1576 | whatever the rest of the conversation is, every maximum matching can be changed into one with the claimed pair, and no other send can explain the message |
| ResponseClaim.ResponseClaimNeedNotBeForced | pkg/connector/outbound.go:1572-1662 | the claimed pair need not be forced in the whole conversation |
| ResponseClaim.LonePairIsForcedExactly | pkg/connector/outbound.go:76-92 | a message with one possible sender is in every maximum matching with it exactly if each other message of that sender is covered by every maximum matching of the other senders |
| ResponseClaim.ResponseClaimIsForcedExactly | pkg/connector/outbound.go:1572-1662 | that condition decides, for every completion of the conversation's graph, whether the claimed pair is forced |
| ResponseClaim.CompleteReplyIsForced | pkg/connector/outbound.go:1572-1576 | a reply with every message of the conversation that can be the send's makes a forced claim |
| OutboundInvariant.UpdateKeepsGood | pkg/connector/tumblrdb/schema.sql:61-137 | an update to a good row of the same identity is accepted by all checks and indexes and keeps every row good |
| OutboundInvariant.TerminateKeepsGood | pkg/connector/tumblrdb/outbound.go:726-778 | a terminal transition and its permanent receipt succeed together and leave exactly the terminal rows with receipts |
| OutboundInvariant.ReceiptsAreSaved | pkg/connector/tumblrdb/outbound.go:1083-1129 | a cancelled conversation's receipts are all saved, in any order of the rows |
| OutboundInvariant.TransactionIDsDiffer | pkg/connector/tumblrdb/outbound.go:745-778 | transaction IDs of one login are equal only for the same event |
| OutboundStatements.StatementKeepsGood | pkg/connector/tumblrdb/outbound.go:107-369 | every statement keeps all rows acceptable to schema and scanner and the indexes unique; a constraint refuses only an insert for a deleted login |
| OutboundGuards.StatementIsExact | pkg/connector/tumblrdb/outbound.go:181-369 | on good tables a statement of one row takes effect exactly if the row is in a state that allows it, and then changes just the listed fields of that row, and adds just its receipt when the row becomes terminal; no constraint ever refuses it |
| OutboundGuards.InsertIsExact | pkg/connector/tumblrdb/outbound.go:113-127 | a new row is saved exactly if its event has left no trace, and refused only without its login |
| OutboundGuards.ForgetIsExact | pkg/connector/tumblrdb/outbound.go:339-369 | a row is deleted exactly if it is prepared, or a failure of the given kind that was notified |
| OutboundGuards.CancelIsExact | pkg/connector/tumblrdb/outbound.go:1083-1129 | cancelling a conversation fails exactly its prepared rows, leaves its posted ones unconfirmed, and saves just their receipts |
| OutboundSteps.StatementIsStep | pkg/connector/tumblrdb/outbound.go:181-369 | terminal rows are frozen; completed rows are never deleted and failures only after notification with their own receipt; only the current token records the notification or ends an unexpired claim; submitting is entered only from prepared |
| OutboundProtocol.StatementKeepsSound | pkg/connector/tumblrdb/outbound.go:113-369 | every statement but the submission keeps the invariant of the whole system, whoever runs it |
| OutboundProtocol.SubmitKeepsSound | pkg/connector/tumblrdb/outbound.go:203-209 | a submission starts only for an event that was neither submitted nor found unsent in this life of its login |
| OutboundProtocol.PostKeepsSound | pkg/tumblr/client.go:1375-1424 | a sender posts, first or again, only when no request of its submission is open or accepted |
| OutboundProtocol.AcceptKeepsSound | pkg/tumblr/client.go:1372-1374 | Tumblr may accept any open request at any time, whatever became of its sender; it is then the only one of its submission that could be accepted |
| OutboundProtocol.ReplyKeepsSound | pkg/tumblr/client.go:1396-1423 | a refusal closes the request that it answers; only a first request that was rejected for its credentials is followed by another, and an unknown outcome never is |
| OutboundProtocol.RefusalKeepsSound | pkg/connector/client.go:1008-1038 | a sender that was finally refused and finds its row submitting records the failure of its own submission, all of whose requests were rejected |
| OutboundProtocol.RunKeepsSound | pkg/connector/client.go:960-1038 | the invariant holds after any interleaving of processes, crashes, deletions and replies |
| OutboundRuns.EventsAreSubmittedOnce | pkg/connector/tumblrdb/outbound.go:113-127 | in any run an event is submitted a second time only after the login of the first submission was deleted |
| OutboundRuns.RequestsAreAcceptedOnce | pkg/tumblr/client.go:1372-1424 | in any run Tumblr accepts at most one request for an event in one life of its login; a submission has two requests at most, and the second only after the first was rejected |
| OutboundRuns.NotSubmittedIsTrue | pkg/connector/client.go:1008-1038 | once a row is not submitted, no request for its event was accepted, and none is however the run goes on |
| OutboundRuns.ReachableRowsAreGood | pkg/connector/tumblrdb/outbound.go:1212-1329 | every reachable row satisfies the schema and the scanner, remote IDs are unique in a conversation, and exactly terminal rows have their receipt |
| OutboundRuns.OutcomesAreFinal | pkg/connector/tumblrdb/outbound.go:344-369 | while the login lives, a terminal row's receipt stays, its outcome never changes, and a completed row stays |
| OutboundProgress.RowCanBeCreated | pkg/connector/tumblrdb/outbound.go:113-127 | from every reachable system, once its login exists, a row of an event that has left no trace can be created |
| OutboundProgress.StoppedProcessFreesLogin | pkg/connector/outbound.go:1187-1208 | a process that stops frees its login, whatever it was doing, and leaves the tables as they are |
| OutboundProgress.DeletedLoginIsForgotten | pkg/connector/tumblrdb/schema.sql:139-157 | the rows and receipts of a login go with it, and only these |
| OutboundProgress.SendCanBeAccepted | pkg/connector/client.go:960-1077 | from every reachable system, a prepared row whose login is free can be submitted with one request that is accepted |
| OutboundProgress.SecondRequestCanBeAccepted | pkg/tumblr/client.go:1396-1423 | a request that was rejected for its credentials can be followed by one that is accepted |
| OutboundProgress.SendCanBeRefused | pkg/connector/client.go:1008-1038 | a send that is refused for certain can be recorded as not submitted, with its receipt |
| OutboundProgress.SentRowCanComplete | pkg/connector/tumblrdb/outbound.go:1042-1081 | a sent row can be completed with an unclaimed message of its conversation |
| OutboundSendQueries.BindingIsReentrant | pkg/connector/tumblrdb/outbound.go:1361-1404 | a send is recognised again through every stage of binding its room, from the old and the new portal |
| OutboundSendQueries.OtherConversationIsNoReentry | pkg/connector/tumblrdb/outbound.go:1361-1397 | a bound row is never taken for a send of another conversation |
| OutboundSendQueries.OutboundSendQuery.LoadOrCreate | pkg/connector/tumblrdb/outbound.go:411-522 | the exact answer from the tables before each of its statements, whatever others leave there; a new row was saved by this call, and any other answer left the tables alone |
| OutboundSendQueries.TwoAttemptsAreMade | pkg/connector/tumblrdb/outbound.go:459-522 | a concurrent change is reported exactly if both attempts were refused by a trace of the event that was gone when they looked |
| OutboundSendQueries.QuietLoadAnswers | pkg/connector/tumblrdb/outbound.go:411-522 | when nobody else changes the tables the first attempt answers, so that a concurrent change is never reported |
| OutboundSendQueries.StatementKeepsReentry | pkg/connector/tumblrdb/outbound.go:1361-1404 | whatever else becomes of a row, only the binding of its conversation bears on whether it is taken for a send |
| OutboundSendQueries.ReentryHasSameContent | pkg/connector/tumblrdb/outbound.go:1361-1397 | a row that is taken for a send has its event, room, sender, type and content |
| OutboundSendQueries.CreatedRowIsReentry | pkg/connector/tumblrdb/outbound.go:1361-1397 | a row is recognised as the send that it was created for |
| OutboundSendQueries.OutboundSendQuery.MarkSubmitting | pkg/connector/tumblrdb/outbound.go:630-662 | success means that this call moved a prepared row to submitting with its baseline; otherwise nothing changed |
| OutboundSendQueries.OutboundSendQuery.MarkNotSubmitted | pkg/connector/tumblrdb/outbound.go:698-743 | transition and receipt in one transaction, rolled back together |
| OutboundSendQueries.OutboundSendQuery.ClaimStatusDelivery | pkg/connector/tumblrdb/outbound.go:780-805 | success means that an unnotified failure without an unexpired claim is now claimed by this token; otherwise nothing changed |
| OutboundSendQueries.OutboundSendQuery.FinishStatusDelivery | pkg/connector/tumblrdb/outbound.go:807-846 | succeeds exactly if the status counts as notified afterwards |
| OutboundSendQueries.OutboundSendQuery.BindConversation | pkg/connector/tumblrdb/outbound.go:869-921 | succeeds exactly if the row is bound to the conversation and portal afterwards; a conflict means exactly that it is bound to another, a mismatch that it was to be bound but its portal has another room |
| OutboundSendQueries.OutboundSendQuery.MarkCompleted | pkg/connector/tumblrdb/outbound.go:1042-1081 | success means completed with this message and a receipt, also on repetition; failure restores everything |
| OutboundSendQueries.OutboundSendQuery.TerminalizeConversation | pkg/connector/tumblrdb/outbound.go:1083-1129 | all rows and receipts of a conversation, or none |
| OutboundSendQueries.NotSubmittedIsRefusedExactly | pkg/connector/tumblrdb/outbound.go:698-743 | a failure that passes the argument check is refused exactly if both times are in one millisecond or the terminal time is before the first millisecond |
| OutboundSendQueries.CloseTimesAreRefused | pkg/connector/tumblrdb/outbound.go:707-709 | two such times that are refused |
| OutboundSendQueries.ClaimIsRefusedExactly | pkg/connector/tumblrdb/outbound.go:780-805 | a status claim is refused exactly if it expires in the millisecond of the row's terminal time |
| MessageSend.Client.RefreshAuthAfterFailure | pkg/tumblr/client.go:483-508 | does nothing when the credentials are newer than the failed ones; otherwise loads pages until one succeeds, fails for another reason than the session, three were tried, or the caller is cancelled; success means newer credentials |
| MessageSend.RefreshEndsExactly | pkg/tumblr/client.go:483-508 | a refresh ends with the first load that does not find the session invalid, with the third one, or where the patience of the caller ends |
| MessageSend.RefreshSucceedsExactly | pkg/tumblr/client.go:483-508 | a refresh succeeds exactly if some load within the patience of the caller brings a token after others that only found the session invalid |
| MessageSend.Client.DoMessageSend | pkg/tumblr/client.go:1375-1424 | at least one request goes out exactly if there are credentials for it, and a second one exactly if the first was rejected for its credentials and a refresh brought all of them; the result is that of the last request; the error is definite exactly if no request was sent or the last one was rejected with 4xx, and then none was accepted; at most one is |
| MessageSend.Client.SendMessage | pkg/tumblr/client.go:843-871 | with valid arguments the requests are those of the send; no error exactly if the last reply is a success that proves the message; an error that does not count as unknown means that nothing was accepted |
| OutboundSender.Sender.SendPrepared | pkg/connector/client.go:948-1077 | whatever other processes do in between, the send goes out exactly if the row is prepared at the look-up and at the claim and the baseline is valid; its requests and error are those of the send; what the error makes of the row, its receipt and the other rows is exact, also when others changed the row meanwhile; without a valid baseline a row that is still prepared goes, and nothing else does |
| OutboundSender.OutcomeIsRecorded | pkg/connector/client.go:1004-1077 | a claimed row that nobody else touches is not submitted exactly after a definite error, waits for its echo exactly after a success in a bound conversation, and is uncertain otherwise |
| OutboundSender.NotSubmittedWasNotAccepted | pkg/connector/client.go:1008-1038 | a row that this call made not submitted had no accepted request |
| RecoverySchedule.OutboundRecoveryBackoff | pkg/connector/outbound.go:864-876 | five minutes doubled up to an hour, moved by at most a fifth |
| RecoverySchedule.DeferralsAreBounded | pkg/connector/outbound.go:827-862 | however it is timed and jittered, and however often it was attempted before, a send is deferred at most 33 times before it is marked unconfirmed |
| RecoverySchedule.BoundIsReached | pkg/connector/outbound.go:827-876 | a prompt worker with the shortest delays does defer 33 times |
| ConversationJobs.ConversationJobQuery.Put | pkg/connector/tumblrdb/job.go:137-147 | evidence raises the revision of the row or creates it, keeps a planned deletion, and returns the row's revision |
| ConversationJobs.ConversationJobQuery.ScheduleDeleteRoom | pkg/connector/tumblrdb/job.go:200-224 | the row carries the room, is due at the later of now and the given time, starts its attempts over, and no earlier reader of it can acknowledge, postpone or mark it; other rows stay |
| ConversationJobs.EvidenceSupersedes | pkg/connector/tumblrdb/job.go:53-106 | evidence of any kind supersedes every earlier reader of its row and leaves all other rows alone |
| ConversationJobs.EvidenceShows | pkg/connector/tumblrdb/job.go:53-106 | live evidence cancels a planned deletion, a missing list entry keeps it, a room to delete replaces it; the attempts start over and the row is due at once or at the time of the deletion |
| ConversationJobs.WorkerStatementsShow | pkg/connector/tumblrdb/job.go:44-118 | what postponing, planning a deletion and ensuring a row change, exactly for the revision that was read |
| ConversationJobs.DeletionIsNeverOutdated | pkg/connector/tumblrdb/job.go:149-160 | in every run, a row that has a room to delete got it from a step that no live evidence came after |
| ConversationJobs.BeginsExactly | pkg/connector/inbound_sync.go:341-354 | a worker starts exactly on the revision that it read, if the row is still due |
| ConversationJobs.ConversationJobQuery.Delete | pkg/connector/tumblrdb/job.go:249-257 | reports success exactly if the row still had the revision that was read; then the row is gone and all others stay, otherwise nothing changes |
| ConversationJobs.NoEvidenceIsLost | pkg/connector/inbound_sync.go:323-467 | in any run where only the worker deletes the row it works on, evidence that no finished run knew of has a row |
| ConversationJobs.AcknowledgesWhatItKnew | pkg/connector/inbound_sync.go:454-466 | an acknowledgement removes the row exactly if no evidence arrived since the worker's check; otherwise the worker can neither acknowledge nor postpone it, nor plan its deletion |
| ConversationJobs.SecondDeleterLosesEvidence | pkg/connector/tumblrdb/job.go:44-118 | a second deleter lets the worker acknowledge a row that it never read |
| HistoryScan.AggregatePages | pkg/connector/sync.go:338-357 | the pages collected oldest first, skipping known valid IDs |
| HistoryScan.PagesAreCollected | pkg/connector/sync.go:338-357 | every message of every page is collected, each valid ID once, and nothing else |
| HistoryScan.CollectedInOrder | pkg/connector/sync.go:338-357 | the collected messages are those at the first places of their IDs in the pages, oldest page first, in that order |
| HistoryScan.PageHead | pkg/connector/sync.go:359-367 | the last of the newest messages with a valid ID |
| HistoryScan.FetchConversation | pkg/connector/sync.go:154-247 | success means the pages up to the first one that a stop rule accepts, by trimmed cursors; each error means the one place where the scan could not go on; only the first page can report a missing conversation |
| HistoryScan.OneOutcome | pkg/connector/sync.go:188-247 | the server's replies determine the pages and the result, so each error has its own cause |
| HistoryScan.CursorIsSent | pkg/connector/sync.go:229-242 | the next request carries the cursor as it came, but for the spaces around it |
| HistoryScan.HeadEndsScan | pkg/connector/sync.go:216-228 | no page is asked for beyond the first one with the saved head or a message from before its time, and only one when there is no room yet |
| HistoryScan.ScanIsComplete | pkg/connector/sync.go:188-247 | whichever rule stopped it, a catch-up scan returns every message after the saved head, each valid ID once, and only messages of the history |
| ConversationDelivery.SortedIsStable | pkg/connector/sync.go:845-857 | sorting keeps the messages of each time in their order, and puts the times in order |
| ConversationDelivery.OneOrder | pkg/connector/sync.go:845-857 | only one order of the same messages is sorted and stable |
| ConversationDelivery.ConversationSync.Prepare | pkg/connector/sync.go:724-745 | what goes out is each fetched message with a valid ID that is neither stored nor taken out, oldest first, those of one time in fetch order, with the transactions of the reconciliation |
| ConversationDelivery.DeliveryFollowsReconciliation | pkg/connector/outbound.go:1557-1570 | the messages that are neither held nor finalized are those that the reconciliation passes on, in their order, and of them just the valid and unstored ones go out |
| ConversationDelivery.ConversationSync.Deliver | pkg/connector/sync.go:412-435 | the events go out in order, each with its transaction and the read receipt last, up to the first that is refused or the end of the run; which one that is, how the delivery ends and what counts as accepted is exact |
| ConversationDelivery.ConversationSync.Commit | pkg/connector/sync.go:437-479 | the head moves exactly if no deletion is planned, the portal exists and the fetched head is valid |
| ConversationDelivery.ConversationSync.RunJob | pkg/connector/inbound_sync.go:401-422 | for any outcome of the reconciliation: the messages that go out, how many, and how the job ends; the head moves exactly if it ends without an error and there is one, and then nothing is held and everything fetched is stored, accepted or finalized |
| ConversationDelivery.JobSucceedsExactly | pkg/connector/inbound_sync.go:401-422 | a job succeeds exactly if nothing is held, every event is taken in time, and its row and portal still allow it |
| ConversationDelivery.NoEchoIsDeliveredAsNew | pkg/connector/outbound.go:1557-1568 | a message goes out under a transaction only of a listening send that owns it for certain, and without one only if no row owns it and no waiting send could have produced it |
| ConversationDelivery.OwnedEchoIsDelivered | pkg/connector/outbound.go:1411-1443 | a fetched message that a row already owns and that is not stored goes out under its transaction if its sender listens, and else is finalized |
| ConversationDelivery.ConversationSync.SyncConversation | pkg/connector/inbound_sync.go:401-422 | one run from fetch over reconciliation and delivery to commit: where it ends and with which error, what it delivers and finalizes; the head moves only after a complete scan of which everything is safe and nothing is held; whatever fails, it stays |
| ConversationDelivery.OneSyncEnd | pkg/connector/inbound_sync.go:401-422 | what a run meets decides what it reads, claims, delivers and reports |
| ConversationDelivery.RunKeepsCovered | pkg/connector/sync.go:465-478 | a run that met a grown history leaves everything safe from the origin to the end of what it covered, and the head within that |
| ConversationDelivery.FirstRunCovers | pkg/connector/sync.go:216-219 | the first run of a conversation without a room takes one page and covers the history from there |
| ConversationDelivery.RecoveredRoomIsComplete | pkg/connector/sync.go:183-186 | without a saved head, the runs cover the history of an existing room from its beginning |
| ConversationDelivery.NothingIsEverSkipped | pkg/connector/sync.go:465-478 | after any number of runs, whichever failed and wherever, every message from the origin up to the saved head is stored, accepted or finalized |
| SeenMessages.SeenCache.Store | pkg/connector/sync.go:826-836 | remembers the most recent keys in order, each once, within the limit |
| SeenMessages.SeenCache.MarkConversationSeen | pkg/connector/sync.go:749-775 | returns the unseen messages and remembers them |
| SeenMessages.SeenCache.ClearConversation | pkg/connector/conversation_delete.go:455-472 | removes the conversation's keys in place and keeps the order of the others |
| SeenMessages.ClearingForgetsOneConversation | pkg/connector/conversation_delete.go:463-471 | keys of other conversations and bare message keys survive, those of the cleared one do not |
| SeenMessages.CacheIsRecent | pkg/connector/sync.go:826-836 | however full it was, the cache ends up with the most recent of its keys and the new ones |
| SeenMessages.ReportedExactly | pkg/connector/sync.go:749-775 | in a fetch of any length, a message counts as new exactly if its ID is valid and neither its key nor its bare ID is among the most recent of the old keys and the new ones of this fetch |
| SeenMessages.MarkedOnce | pkg/connector/sync.go:749-775 | at any fill and for any fetch, all messages that were not remembered are reported, and a remembered one only if its key is among the oldest that this fetch displaces; a fetch of at most 10,000 messages reports each once |
| SeenMessages.OldestIsReportedAgain | pkg/connector/sync.go:826-836 | in a full cache, a fetch of a new message and the one with the oldest key reports both |
| SaveChain.SavesAreOrdered | pkg/connector/client.go:256-288 | under any cancellations finished tickets are a prefix, one save writes at a time, writes follow ticket order, and versions never go back |
| SaveChain.SavesCoverEarlierChanges | pkg/connector/client.go:256-288 | whatever happens meanwhile, a save that reaches the database has every change made before it was asked for |
| SaveChain.SaveReaches | pkg/connector/client.go:276-288 | a save whose turn it is can write the metadata as it is then |
| SaveChain.ChainNeverBlocks | pkg/connector/client.go:256-288 | the first open ticket can always finish on its own |
| SaveChain.Saver.Await | pkg/connector/client.go:262-276 | waking up either starts the save or leaves its ticket in the chain |
| ConnectionGenerations.OneGenerationRuns | pkg/connector/lifecycle.go:74-139 | at most one generation has running workers at any time |
| ConnectionGenerations.IDsGrow | pkg/connector/lifecycle.go:112-131 | a change takes an ID above all earlier ones |
| ConnectionGenerations.FinishedChangeLeavesOthersStopped | pkg/connector/lifecycle.go:74-110 | after a change only the published generation can have workers, after a stop none |
| ConnectionGenerations.ChangeCanFinish | pkg/connector/lifecycle.go:74-139 | a change can always be finished once the workers of the previous generation stop, and then has published its generation or none |
| ConnectionGenerations.ConnectReplacesGeneration | pkg/connector/lifecycle.go:74-99 | from every reachable state without a change, a Connect can replace the generation and get a worker running, and then no other generation has one |
| ConnectionGenerations.RetirementCanReturn | pkg/connector/lifecycle.go:54-63 | a retirement can always return |
| ConnectionGenerations.ClientCanAlwaysConnect | pkg/connector/lifecycle.go:65-99 | from every reachable state a client can get connected again, and then only its new generation has workers |
| ConnectionGenerations.FailureEndsCurrent | pkg/connector/lifecycle.go:151-166 | a failure ends the current generation, and only that one |
| ConnectionGenerations.RetiredClientIsQuiet | pkg/connector/lifecycle.go:34-72 | between the return of a retirement and its reactivation no owned operation is in flight or can start, and no worker starts from a Connect |
| ConnectionGenerations.Lifecycle.BeginGenerationChange | pkg/connector/lifecycle.go:112-131 | takes over the generation unless a change is under way |
| PushRotation.AcceptedRegistrationsStayKnown | pkg/connector/push.go:390-454 | with saves elsewhere, cleanups and restarts at any point of a rotation, an accepted registration stays active, pending or retiring until its token is unregistered, provided that it is not staged again while pending, the finished and promoted copies carry its mark, no unregistered token is used again, and no rollback takes back a mark that another save made durable |
| PushRotation.RotationReplaces | pkg/connector/push.go:390-454 | a registration that is staged, finished and promoted becomes the active one, and the one before it is retiring |
| PushRotation.RetiredIsForgotten | pkg/connector/push.go:698-729 | once it is unregistered and removed, the next save forgets a retiring registration, and no other one |
| PushRotation.UnsavedMarkIsRolledBackSafely | pkg/connector/push.go:443-451 | in every such run, the rollback of a mark that nobody else has saved is safe |
| PushRotation.RollbackKeepsExactly | pkg/connector/push.go:443-451 | the rollback of a mark loses a registration exactly if it has become durable as accepted and nothing else holds it |
| PushRotation.StagingKeepsExactly | pkg/connector/push.go:390-418 | staging loses the mark of an accepted registration exactly if the candidate is that pending registration and nothing else holds it |
| PushRotation.SaveInBetweenLosesRegistration | pkg/connector/push.go:420-454 | a run in which another save falls between the mark and its rollback, and the next registration displaces the accepted one |
| PushRotation.CleanupKeepsAccepted | pkg/connector/push.go:698-729 | a cleanup that stops half-way keeps what it did not unregister |
| PushRotation.PushKeys.PersistPending | pkg/connector/push.go:390-418 | stages the candidate and retires an accepted predecessor; a failed save leaves everything as it was |
| PushRotation.PushKeys.FinishPending | pkg/connector/push.go:420-454 | marks the pending registration and takes the mark back when the save fails |
| PushRotation.PushKeys.PromotePending | pkg/connector/push.go:609-639 | makes the pending registration active, retires the old one, and undoes it when the save fails |
| PushRotation.PushKeys.CleanupRetiring | pkg/connector/push.go:698-729 | unregisters the retiring registrations one by one until a request or save fails |
| McsFraming.VarintRoundTrip | internal/pushreceiver/mcs.go:146-160 | a varint is read back and consumes exactly its own bytes |
| McsFraming.VarintHasDigits | internal/pushreceiver/mcs.go:146-160 | the bytes are the digits to the base 128, lowest first, as few as possible, and all but the last carry the high bit |
| McsFraming.FrameRoundTrip | internal/pushreceiver/mcs.go:146-188 | a sent frame is read back with nothing left over exactly if its payload is within 16 MiB |
| McsFraming.FramesRoundTrip | internal/pushreceiver/mcs.go:146-188 | any list of such frames is read back frame by frame |
| McsFraming.CutFrameIsTruncated | internal/pushreceiver/mcs.go:174-188 | a connection that ends inside a frame yields no frame |
| McsFraming.Connection.ReceiveSize | internal/pushreceiver/mcs.go:234-249 | the byte loop reads exactly the varint, at most five bytes, and rejects sizes over the limit |
| McsFraming.Connection.PerformReadTag | internal/pushreceiver/mcs.go:174-217 | counts exactly the frames of known tags that decode, with 32-bit wrap-around, and answers a ping with the new count; a failed answer is an error after the frame was counted |
| ImageMetadata.ReadEXIFOrientation | pkg/tumblr/media.go:324-369 | the first orientation entry of a well-formed directory decides; anything malformed is invalid |
| Bytes.BytesHaveWeights | pkg/tumblr/media.go:332-340 | the value of two and four bytes in either order |
| ImageMetadata.HasUnsupportedPNGMetadata | pkg/tumblr/media.go:258-285 | the loop never indexes out of range, terminates, and computes the walk over chunks |
| ImageMetadata.PngIsRefusedExactly | pkg/tumblr/media.go:258-285 | an image passes exactly if it is the signature and a complete chunk list without colour chunks or other orientation |
| ImageMetadata.HasUnsupportedWebPMetadata | pkg/tumblr/media.go:287-322 | the loop never indexes out of range, terminates, and computes the walk over chunks |
| ImageMetadata.WebPIsRefusedExactly | pkg/tumblr/media.go:287-322 | an image passes exactly if it is the header and, to its declared end, a complete chunk list without profile, animation or other orientation |
| ImageMetadata.AnimatesExactly | pkg/tumblr/media.go:393-414 | an image counts as animated exactly if whole chunks lead to the header of an animation chunk |
| ImageMetadata.AnimatedWebPIsUnsupported | pkg/tumblr/media.go:393-414 | every image that counts as animated is also refused |
| JpegMetadata.HasUnsupportedJPEGMetadata | pkg/tumblr/media.go:215-256 | the loops never index out of range, terminate, and compute the walk over segments |
| JpegMetadata.JpegIsRefusedExactly | pkg/tumblr/media.go:215-256 | an image passes exactly if plain segments lead from its start to its end or scan |

## Left out

- HTTP, TLS, SQL drivers and locks: a granted lock is exclusive, a transaction is atomic, and a statement reads its
  clock in the same step; LoadOrCreate, whose statements others can come between, gets the tables before each one as a
  parameter.
- Several bridges in one database: one bridge ID is modelled.
- Digests: the one in a transaction ID stands for its preimage, as if it had no collisions; content hashes are opaque
  strings, and the comparison of a send with a message is a parameter with the results match, no match, unknown and
  failed.
- Unicode outside one character per code point: strings are sequences of characters.
- PortalKey.IsEmpty: taken to mean that ID and receiver are both empty, because its library is not part of this model.
- Room creation, portal moves and the event queue of bridgev2: their results are parameters; what a portal's room is
  called is a map that changes freely between steps.
- Whether Tumblr tells the truth: a 4xx reply is taken to mean that the request was not accepted.
- OutboundSendQueries.OutboundSendQuery: the statements that only validate a schedule and update one row are given in
  OutboundTables and have no method of their own.
- OutboundSender.Sender.SendPrepared: covers the send from the prepared row on, without binding a new conversation: a
  success in an unbound one counts as one whose binding failed. The clock stands still during one send.
- ConversationJobs: one worker per login; a second process that works on the same row is not modelled, nor is the
  order in which due rows are taken.
- MessageSend.Client.RefreshAuthAfterFailure: the waits between attempts have no length.
- HistoryScan.FetchConversation: the retry of its caller after a renamed blog and the logging of unfinished scans are
  left out.
- HistoryScan.PageHead: searches the page instead of sorting a copy of it.
- ConversationDelivery.ConversationSync: only the path that looks for missing messages, which every job takes; read
  receipts count only for their acceptance.
- PushRotation: the check-in refresh, which rewrites a registration's credentials, and the web push decryption; a
  failed save is taken to have written nothing, and a token that was unregistered is never handed out again.
- McsFraming: the protocol buffer messages themselves and the heartbeat timing.
- Image conversion, pixel comparison and isAnimatedPNG.
- Reconciliation of the conversation list, room deletion after a missing conversation, login, avatars, display names,
  capabilities, backfill and bridge-state messages.
