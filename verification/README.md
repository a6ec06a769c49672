# Verified model of the Telegram lead assistant

This project models the durable behaviour of the assistant in Dafny and proves what its design
relies on. Database tables are values, each transaction is one atomic step, and Telegram, the
classification model, the translation service and the clock are inputs of a step. Where the
program changes rows or fields step by step, so does the model: a class whose methods are proved
to take the stored state exactly where a specification function says. Results about whole runs are
then proved about those functions, for every sequence of steps.

## What is in it

- **Outbound replies.** `Outbound` holds the tables and what each step does to them;
  `OutboundDatabase` the repositories, workers and operator handlers; `OutboundInvariants` and
  `OutboundRuns` what every step keeps; `OutboundSafety` what was attempted at Telegram against
  what the tables say; `OutboundTheorems`, `OutboundAttempts`, `OutboundDrafts` and `OutboundEdits` the main
  results over runs; `OutboundOutcomes` and `OutboundConfirmations` what each single step writes, in
  terms of the rows alone.
- **Classification pipeline.** `Pipeline` holds the queue row through Stage 1, chain loading,
  Stage 2 and persistence; `PipelineDatabase` the repositories, handlers and workers with their
  savepoints; `PipelineTermination`, `PipelineSafety` and `PipelineHandoff` the main results over runs;
  `PipelineOutcomes` what each single step writes, in terms of the rows alone; `PipelineIngestion`
  where rows come from, joined with fingerprint admission.
- **Reply chains.** `ReplyChains` has the loader and an independent description of the one chain
  it must return; `ReplyChainSnapshots` the JSON hand-off and the Stage-2 input.
- **Notifications.** `GreedyGroups` is greedy grouping in general; `HtmlReader` a tag-stack reader
  of the HTML subset in use; `Notifications` and `NotificationRendering` the renderer;
  `NotificationReading` validity, size and recovery of the content; `QuestionContents` from the
  persisted rows to what the operator reads; `NotificationDelivery` and `QuestionDelivery` delivery.
- **Data structures and arithmetic.** `TopicTitles` (LRU cache), `Fingerprints` (rolling-window
  deduplication and its cleanup), `UsageAccounting` (cost accounting), `OperationalAlerts` (alerts
  once per episode), `Retention` (batched deletion), `RetryPolicies`, `Calendar`, `Wrappers`.

## Results that differ from what one might expect

- Completing an accepted edit is not always possible. It is exactly when no version was added
  since the edit was confirmed (`CompleteEditExactlyWhenNext`). Otherwise the tables roll back
  while the message has been edited (`OverlappingEditIsRejected`), and no later attempt or manual
  retry completes it (`OvertakenEditNeverCompletes`).
- Opening a question whose chat row is gone commits its new status although the operation is
  refused. That is the only way an open draft is not the active one
  (`StepKeepsOnlyActiveOpenExactly`, `DetachedDraftIsReachable`).
- A message enqueued again after an irrelevant Stage-1 run keeps that run, so a new relevant
  verdict routes the row to a persistence step that refuses it (`RouteIsBackedExactly`,
  `EnqueuedAgainIsRefused`). Ingestion lets this happen exactly when the message comes back at
  least a deduplication window later (`OfferedAgainIsEnqueuedAfterWindow`); within the window the
  hand-off results need no assumption about recorded runs (`HandoffHoldsWithinWindow`).
- Persistence of a loaded chain raises when the target message itself could not be read
  (`PersistSucceedsExactly`, `UnreadableTargetRaises`).
- A queued message leaves without a verdict or a question when its chat is removed or it has
  expired, and in no other way (`RowLeavesExactly`, `MessageGoesWithItsChat`).
- A send whose transaction is lost after Telegram accepted it is sent again
  (`LostSendIsRepeated`).
- Fingerprint retention is invisible to deduplication exactly when the retention time covers the
  window, up to one clock tick (`RetentionInvisibleIffTtlCoversWindow`).

## Model

| member | source | states |
|---|---|---|
| OutboundRuns.AlwaysSound | app/database/repositories/outbound_commands.py:81-448 | In every interleaving of operators, workers, claims left behind and stale recovery: each question has at most one send command; none exactly in the five pre-send statuses; SEND_REQUESTED iff it is pending or processing; SENT iff it succeeded with a stored id; SEND_FAILED iff it failed or needs review; every edit belongs to a sent question and carries that id; versions are numbered without gaps |
| OutboundTheorems.OnlyTheLastAttemptMayLand | app/listener/outbound/__init__.py:50-113 | Of all send attempts ever made for a question every one but the last was refused or lost with its transaction; where no transaction is lost, Telegram so accepts at most one and an ambiguous send is never followed by another |
| OutboundEdits.LostSendIsRepeated | app/listener/outbound/__init__.py:75-88 | The condition is needed: a send accepted by Telegram whose transaction is then lost is sent again |
| OutboundTheorems.SentExactlyWhenAccepted | app/listener/outbound/__init__.py:75-88 | A question is SENT exactly when Telegram accepted a send for it, and the stored message id is the accepted one |
| OutboundTheorems.AtMostFourPlainRetries | app/listener/outbound/__init__.py:90-113 | At most four retries are scheduled per command other than those Telegram asked for by a flood wait |
| OutboundAttempts.AttemptsAreBounded | app/listener/outbound/__init__.py:50-113 | The sends attempted for a command, lost transactions aside, are at most one more than its scheduled retries, so at most five and one more for each flood wait |
| OutboundSafety.ErrorsAreClassified | app/listener/outbound/__init__.py:90-113 | A failed attempt is retried after the given or scheduled delay exactly when temporary with retries left, fails exactly when permanent, and otherwise needs review; the question leaves SEND_REQUESTED exactly when there is no retry |
| OutboundOutcomes.DueSendsAreSendable | app/listener/outbound/__init__.py:115-126 | In every run a due send passes the comparison of its destination with the question: the question requests it and has the same destination |
| OutboundOutcomes.OtherSendRunsDoNothing | app/listener/outbound/__init__.py:115-149 | A run on anything but such a send, or whose check raises anything but a refusal or a transient error, leaves no trace |
| OutboundOutcomes.RefusedCheckFails | app/listener/outbound/__init__.py:61-64 | A refused check fails the command at once with its code, unlocked and counted, and fails the question; nothing is sent or scheduled and no other row changes |
| OutboundOutcomes.TransientCheckIsRetried | app/listener/outbound/__init__.py:65-74 | A transient check sends nothing and is retried as an unknown error after 15, 60, 300 and 1800 seconds, then goes to review with its question failed |
| OutboundOutcomes.FailedSendIsWritten | app/listener/outbound/__init__.py:75-113 | A failed send logs exactly one attempt, to the question's own destination with the command's text; command, delay, retry log and question then are what the failure's kind says, field by field, and no other row changes |
| OutboundOutcomes.AcceptedSendIsWritten | app/database/repositories/outbound_commands.py:342-359 | An accepted send logs one attempt and finishes command and question together with the id Telegram gave; no other row changes |
| OutboundOutcomes.LostSendWritesNothing | app/listener/outbound/__init__.py:75-88 | A lost transaction leaves one attempt in the log and the tables as they were |
| OutboundOutcomes.ClaimIsWritten | app/database/repositories/outbound_commands.py:170-212 | A claim locks and counts exactly a pending command of its kind whose time has come |
| OutboundOutcomes.RecoveryIsWritten | app/database/repositories/outbound_commands.py:81-112 | Exactly the claims older than the cutoff go to review, exactly the questions of the sends among them fail, and younger claims and all else stay |
| OutboundOutcomes.ManualRetryIsWritten | app/database/repositories/outbound_commands.py:148-168 | Exactly a failed edit of a stored message with an unknown error becomes pending, due at once; any other retry changes nothing |
| OutboundTheorems.EverySendIsConfirmedText | app/database/repositories/outbound_commands.py:389-448 | Every send goes to its question's own message with a text that is the stored final version and the draft numbered just before it |
| OutboundTheorems.EveryEditIsOnTarget | app/database/repositories/outbound_commands.py:236-273 | Every edit carries the text of a stored draft to the very message Telegram accepted for the question |
| OutboundTheorems.VersionNumbersAreOneToN | app/database/models/entities.py:419-424 | A question's version numbers are exactly 1..n, each taken once, in insertion order |
| OutboundTheorems.HistoryIsAppendOnly | app/database/repositories/outbound_commands.py:275-448 | No later step changes a stored version, a command's question, destination or text, or a send that has succeeded, failed or gone to review |
| OutboundTheorems.SendOutcomeIsAbsorbing | app/database/repositories/outbound_commands.py:342-387 | SENT and SEND_FAILED are never left, and the stored message id never changes |
| OutboundTheorems.RepeatedConfirmAddsNothing | app/database/repositories/outbound_commands.py:389-448 | Confirming a send again returns the same command and changes nothing; the first confirmation froze the newest draft's text |
| OutboundTheorems.RepeatedEditConfirmAddsNothing | app/database/repositories/outbound_commands.py:236-273 | Confirming an edit again returns the same command and changes nothing |
| OutboundRuns.CompleteEditExactlyWhenNext | app/database/repositories/outbound_commands.py:275-296 | Completing an accepted edit succeeds exactly when the latest version is below the edit's, and then appends exactly the next version |
| OutboundRuns.EditTargetIsValid | app/listener/outbound/__init__.py:178-184 | In every sound state the guard that records INVALID_EDIT_TARGET is false, so that code is unreachable |
| OutboundOutcomes.UntriedEditIsWritten | app/listener/outbound/__init__.py:178-184 | An edit without its target fails untried with INVALID_EDIT_TARGET; one that is not due is left alone |
| OutboundOutcomes.RefusedEditFails | app/database/repositories/outbound_commands.py:298-305 | A refused edit is attempted once and ends failed with its code; the question stays sent and versions and other commands stay as they were |
| OutboundOutcomes.AcceptedEditIsWritten | app/database/repositories/outbound_commands.py:275-296 | An accepted edit appends its text as final version and succeeds, unless a version of that number exists: then the tables stay as they were |
| OutboundEdits.EditIsPreparedExactlyWhenSent | app/database/repositories/outbound_commands.py:214-234 | In every sound state an edit can be prepared for exactly the sent questions: a stored id and a final version always exist there |
| OutboundEdits.OverlappingEditIsRejected | app/database/repositories/outbound_commands.py:283-296 | For any sent question, an edit overtaken by a second preparation is attempted, accepted and rolled back |
| OutboundEdits.OvertakenEditNeverCompletes | app/database/repositories/outbound_commands.py:148-168 | An overtaken edit is never completed in any continuation, manual retries included |
| OutboundEdits.SomeRunSends | app/bot/handlers/replies.py:141-290 | Detecting, drafting, confirming and sending reaches a sent question, so the results about sent questions are not empty |
| OutboundDrafts.AtMostOneOpenDraft | app/bot/handlers/replies.py:141-178 | In every reachable state at most one draft is open among questions whose chat row exists, and it is the operator's active one |
| OutboundDrafts.OnlyTheActiveDraftIsOpen | app/bot/handlers/replies.py:206-308 | While chat rows exist every open draft is the active question |
| OutboundDrafts.OpeningKeepsOnlyActiveOpenExactly | app/bot/handlers/replies.py:164-172 | Opening leaves a draft open that is not active exactly when it is not refused as a conflict, the question is not active already, its status permits opening, and its chat row is gone |
| OutboundDrafts.StepKeepsOnlyActiveOpenExactly | app/bot/handlers/replies.py:141-308 | Of all steps of operators, workers and recovery, only that one leaves a draft open that is not active |
| OutboundDrafts.DetachedDraftIsReachable | app/bot/handlers/replies.py:164-172 | A concrete run reaches it: detect a question, remove its chat, open the question |
| OutboundOutcomes.OpeningIsWritten | app/bot/handlers/replies.py:141-178 | Opening cancels the draft it replaces, moves the question to waiting for a draft exactly from the three statuses that allow it, and makes it active exactly if its chat row exists too; a conflict leaves no trace |
| OutboundOutcomes.DraftIsWritten | app/database/repositories/reply_drafts.py:54-74 | A draft becomes the next version exactly for the active question waiting for one in an existing chat, which then awaits confirmation |
| OutboundOutcomes.EditingIsWritten | app/database/repositories/reply_drafts.py:76-80 | Exactly the active question's preview is reopened, waiting for a draft again |
| OutboundOutcomes.CancellationIsWritten | app/bot/handlers/replies.py:292-308 | Exactly the active question in an open or cancelled status ends cancelled, and the session is cleared |
| OutboundOutcomes.FeedbackIsWritten | app/database/repositories/question_feedback.py:24-42 | Exactly a detected question is dismissed and exactly a dismissed one is detected again |
| OutboundOutcomes.FeedbackIsAnswered | app/database/repositories/question_feedback.py:24-42 | A repeat is accepted without a change, and from any other status feedback and cancellation are refused |
| OutboundConfirmations.SendIsQueued | app/database/repositories/outbound_commands.py:389-448 | Confirming a preview freezes the newest draft's text as the next version, queues one pending send of it to the question's own destination, due at once, and returns that command |
| OutboundConfirmations.OtherConfirmationsQueueNothing | app/database/repositories/outbound_commands.py:389-414 | Any other confirmation is refused or, for a send already requested, only closes the session |
| OutboundConfirmations.PreviewIsConfirmedExactlyWhenAwaited | app/bot/handlers/replies.py:276-286 | In every run confirming the active question queues its send exactly while it awaits confirmation: the preview is always there |
| OutboundConfirmations.EditDraftIsWritten | app/database/repositories/outbound_commands.py:214-234 | An edit's draft becomes the next version exactly for a sent question, and nothing else changes |
| OutboundConfirmations.EditIsQueued | app/database/repositories/outbound_commands.py:236-273 | Confirming the newest draft of a sent question queues one edit of the message its send stored, with that text, unless that draft's edit was queued before |
| OutboundConfirmations.OtherEditsAreRefused | app/database/repositories/outbound_commands.py:236-252 | No edit is queued for a question that is not sent or whose newest version is no draft |
| OutboundDatabase.OutboundCommandRepository.ConfirmSend | app/database/repositories/outbound_commands.py:389-448 | Takes the rows and result exactly where the specification says, failing exactly when it does |
| OutboundDatabase.OutboundCommandRepository.OldestDue | app/database/repositories/outbound_commands.py:170-184 | Finds a due command no other due command precedes by due time and then creation, or none when none is due |
| OutboundDatabase.OutboundCommandRepository.ClaimNext | app/database/repositories/outbound_commands.py:170-212 | Claims the oldest due command, counting the attempt and locking the row, or changes nothing when none is due |
| OutboundDatabase.OutboundCommandRepository.CompleteSend | app/database/repositories/outbound_commands.py:342-359 | Finishes command and question together, or refuses when the question is not awaiting its send |
| OutboundDatabase.OutboundCommandRepository.FailSend | app/database/repositories/outbound_commands.py:374-387 | Ends the command as failed or for review and fails its question |
| OutboundDatabase.OutboundCommandRepository.PrepareEdit | app/database/repositories/outbound_commands.py:214-234 | Appends the next draft version of a sent question, or refuses |
| OutboundDatabase.OutboundCommandRepository.ConfirmEdit | app/database/repositories/outbound_commands.py:236-273 | Queues one edit for the newest draft, or returns the one queued before, or refuses |
| OutboundDatabase.OutboundCommandRepository.CompleteEdit | app/database/repositories/outbound_commands.py:275-296 | Appends the final version and succeeds the command, or is refused by status or unique constraint |
| OutboundDatabase.OutboundCommandRepository.RecoverStale | app/database/repositories/outbound_commands.py:81-112 | Moves every expired claim to review, returns exactly those, and fails exactly the questions of the sends among them |
| OutboundDatabase.ReplyDraftRepository.OpenQuestion | app/database/repositories/reply_drafts.py:43-52 | Writes the status before noticing a missing chat row, and reports whether it raised |
| OutboundDatabase.ReplyDraftRepository.CreateVersion | app/database/repositories/reply_drafts.py:54-74 | Appends the next draft version and awaits confirmation, or raises |
| OutboundDatabase.ReplyDraftRepository.Cancel | app/database/repositories/reply_drafts.py:82-92 | Cancels an open draft and says so, tells a repeat from it, otherwise raises without a change |
| OutboundDatabase.SendReplyWorker.RunOnce | app/listener/outbound/__init__.py:50-88 | Works the oldest due send, if any, to exactly the state and log of the step whose outcomes `OutboundOutcomes` gives for every check and answer, a lost transaction included |
| OutboundDatabase.SendReplyWorker.RecordError | app/listener/outbound/__init__.py:90-113 | Retries flood waits and the first four other temporary failures, fails permanent ones, sends the rest to review |
| OutboundDatabase.EditReplyWorker.RunOnce | app/listener/outbound/__init__.py:171-193 | Works the oldest due edit, if any, rolling back when the transaction is lost or completion is refused |
| OutboundDatabase.ReplyHandlers.OpenQuestion | app/bot/handlers/replies.py:141-178 | Commits what was written even when it returns early |
| OutboundDatabase.ReplyHandlers.AcceptDraft | app/bot/handlers/replies.py:206-231 | Stores a draft of the active question, or rolls back |
| OutboundDatabase.ReplyHandlers.EditDraft | app/bot/handlers/replies.py:292-308 | Reopens the active question's draft, or rolls back |
| OutboundDatabase.ReplyHandlers.CancelDraft | app/bot/handlers/replies.py:292-308 | Cancels the active question's draft and clears the session together, or changes nothing |
| OutboundDatabase.ReplyHandlers.ConfirmDraft | app/bot/handlers/replies.py:276-286 | Confirms the active question's send and clears the session together, or changes nothing |
| OutboundDatabase.ReplyHandlers.AcceptSentEdit | app/bot/handlers/replies.py:81-99 | Stores an edit's draft, or changes nothing |
| OutboundDatabase.ReplyHandlers.ConfirmSentEdit | app/bot/handlers/replies.py:109-134 | Confirms an edit, or changes nothing |
| PipelineTermination.WorkDecreases | app/database/worker.py:66-158 | Every committed worker run that claims a row strictly decreases (phases left, claims left), for every input and outcome |
| PipelineTermination.AtMostTwentyClaims | app/database/worker.py:38-45 | A row sees at most twenty worker runs across all phases, whatever else is interleaved; claims whose worker vanished are not counted and do not raise the bound; one that has seen twenty is deleted or failed |
| PipelineTermination.FailedRowsStay | app/database/queue.py:135-149 | A failed row is never claimed or changed again; it stays until it is discarded with its chat or for its age |
| PipelineTermination.ClaimableRowsHaveAttemptsLeft | app/database/queue.py:74-95 | When claims and their work commit together, every row not failed is unlocked and has attempt count 0..4 |
| PipelineSafety.FailureLeavesOnlyTheClaim | app/database/worker.py:76-100 | A raising handler leaves the claim's own effects and the retry bookkeeping on that row, and every table otherwise unchanged |
| PipelineSafety.FailuresAreClassified | app/database/worker.py:82-97 | A raising run fails the row exactly when the error is not retryable or it was the fifth claim, and otherwise schedules it by the policy without leaving its phase |
| PipelineOutcomes.OnlyDueRowsAreWorked | app/database/queue.py:74-95 | A run or claim on a row that does not wait for its phase, is not due, or has a claim of the last five minutes does nothing |
| PipelineOutcomes.ArrivalIsWritten | app/database/queue.py:38-72 | A new message is queued for Stage 1 with no attempts, due at once; one already queued changes nothing |
| PipelineOutcomes.ClaimIsWritten | app/database/queue.py:74-95 | A claim locks and counts the row, and marks a Stage-1 row as being processed; nothing else changes |
| PipelineOutcomes.FailedCallIsWritten | app/database/worker.py:76-97 | A failing model call in Stage 1, or a chain that cannot be loaded, leaves its own code, cut to 100 characters, and the retry or failure of that row alone |
| PipelineOutcomes.Stage1IsWritten | app/classifier/worker.py:43-77 | An answer is recorded once under its own verdict, model and token counts, and releases the row to the phase of its verdict or deletes it |
| PipelineOutcomes.LoadIsWritten | app/listener/reply_chain_worker.py:18-26 | The row gets the serialization of the one bounded walk, due at once with its attempts counted afresh; nothing else changes |
| PipelineOutcomes.Stage2IsWritten | app/classifier/stage2.py:60-118 | When nothing is raised, the final verdict is recorded under Stage 2 and releases or deletes the row |
| PipelineOutcomes.RaisingStage2IsWritten | app/classifier/stage2.py:60-118 | What Stage 2 raises is decided by the recorded runs, the chain and the call alone, and is written to the row with nothing recorded |
| PipelineOutcomes.PersistOutcome | app/classifier/relevant.py:56-132 | Persistence raises exactly without a relevant run, without the message as the only target, on an incomplete or unavailable item, on more than ten items or on repeated ones, each with its own code |
| PipelineOutcomes.QuestionIsWritten | app/classifier/relevant.py:86-143 | Persisting adds one row per available item in order, each with that item's own text, author, time, reply link and translation, one question with the job's message, its target's translation, the chain's title, the chain's topic or else the message's and the latest relevant stage, and one notification, and deletes the row |
| PipelineOutcomes.RaisingPersistenceIsWritten | app/classifier/relevant.py:49-143 | A persistence that raises adds nothing and is written to the row with its code |
| PipelineOutcomes.RepeatedPersistenceIsWritten | app/classifier/relevant.py:61-69 | A message that has its question already only loses its row |
| PipelineOutcomes.BadHandoffIsWritten | app/classifier/downstream.py:32-46 | An unreadable snapshot is tried again; one of another chat fails the row for good |
| PipelineOutcomes.RecoveryIsWritten | app/database/queue.py:165-183 | Exactly the Stage-1 claims older than the cutoff are to be retried at once; younger claims and all else stay |
| PipelineOutcomes.RemovalIsWritten | app/database/repositories/monitored_chats.py:231-236 | Removing a chat deletes exactly its rows and detaches exactly its questions, which keep all else |
| PipelineOutcomes.CleanupIsWritten | app/database/repositories/retention.py:48-57 | Of a batch exactly the rows more than a day old or beyond the configured age are deleted |
| PipelineSafety.TablesAlwaysSound | app/database/models/entities.py:325-354 | In every run: one question per message, exactly one notification per question, chain positions 0..k-1 with k at most 10, distinct message ids, each row replying to the one before, only the last the target; every stored snapshot is one the loader can return for that message |
| PipelineSafety.RowLeavesExactly | app/classifier/relevant.py:49-143 | A step removes a message's row exactly when it found the message irrelevant, persisted it, or discarded the row with its removed chat or for its age; persisting leaves exactly one question and one notification |
| PipelineSafety.NoMessageIsLost | app/database/queue.py:38-72 | Every message that ever arrived is still queued, or has its one question and notification, or was found irrelevant, or its row was discarded with its chat or for its age |
| PipelineSafety.MessageGoesWithItsChat | app/database/repositories/monitored_chats.py:231-236 | A concrete run: a message queued when its chat is removed leaves with no verdict and no question |
| PipelineHandoff.RowsAlwaysAgree | app/classifier/stage2.py:67-84 | For first-time messages: awaiting context means a context-requiring Stage-1 run and no Stage-2 run; awaiting relevant processing means a relevant run; every question has a relevant run |
| PipelineHandoff.HandoffGuardsNeverFire | app/classifier/downstream.py:32-46 | For first-time messages a downstream run fails exactly when the model call fails or is not final, or the target message was unreadable; no hand-off guard fires |
| PipelineHandoff.Stage2SucceedsExactly | app/classifier/stage2.py:60-118 | On any loaded chain Stage 2 goes through exactly when its guards hold and the verdict is final |
| PipelineHandoff.PersistSucceedsExactly | app/classifier/relevant.py:56-132 | On any loaded chain persistence goes through exactly when the question exists, or a relevant run exists and the target could be read |
| PipelineHandoff.RouteIsBackedExactly | app/classifier/worker.py:59-77 | Stage 1 ignores whether its run was recorded: the route agrees with the recorded runs exactly when no earlier Stage-1 run says otherwise |
| PipelineHandoff.EnqueuedAgainIsRefused | app/classifier/relevant.py:73-84 | A concrete run: found irrelevant, enqueued again at any later time, found relevant, refused by persistence |
| PipelineHandoff.UnreadableTargetRaises | app/classifier/relevant.py:86-94 | A concrete honest, first-time run: the message's own text can no longer be read and its claimed row raises at the target's translation |
| PipelineIngestion.RunsWithinWindowAreFirstTime | app/listener/events/ingestion.py:47-73 | Fingerprint admission makes every run first-time in which no message is offered again a whole window after an earlier offer, cleanups of fingerprints interleaved |
| PipelineIngestion.HandoffHoldsWithinWindow | app/listener/events/ingestion.py:47-73 | So in every such run, with no assumption about recorded runs, a downstream row fails exactly by the model call or an unreadable target |
| PipelineIngestion.AdmittedOnlyAfterWindow | app/database/queue.py:192-218 | A message is enqueued again only a whole window after every earlier offer of it, suppressed ones included |
| PipelineIngestion.OfferedAgainIsEnqueuedAfterWindow | app/listener/events/ingestion.py:47-73 | Of a message offered twice, the second offer is enqueued exactly when it comes at least a window later, which is the run that persistence refuses |
| PipelineIngestion.MessagePersister.Persist | app/listener/events/ingestion.py:47-73 | Records the sighting unless the chat is inactive, and enqueues exactly the admitted messages |
| PipelineDatabase.JobRepository.Enqueue | app/database/queue.py:38-72 | Inserts a message once; a duplicate changes nothing |
| PipelineDatabase.JobRepository.ClaimNext | app/database/queue.py:74-95 | Claims a claimable row that no claimable row precedes by creation, or changes nothing when there is none |
| PipelineDatabase.JobRepository.RecoverStale | app/database/queue.py:165-183 | Returns exactly the expired Stage-1 claims to retry, and reports them |
| PipelineDatabase.MonitoredChatRepository.Remove | app/database/repositories/monitored_chats.py:231-236 | Removes the chat's queue rows and detaches its questions, and nothing else |
| PipelineDatabase.RetentionRepository.DeleteExpiredJobs | app/database/repositories/retention.py:48-57 | Deletes the oldest unlocked expired queue rows, at most a batch |
| Retention.OldestBatch | app/database/repositories/retention.py:84-105 | Selects the candidates that come first by their order, a whole batch if there are as many |
| PipelineDatabase.Stage1ClassificationHandler.Call | app/classifier/worker.py:43-77 | Records the run and routes or completes the row as specified |
| PipelineDatabase.ReplyChainSnapshotHandler.Call | app/listener/reply_chain_worker.py:18-26 | Runs the loader and stores the serialization of the one bounded walk |
| PipelineDatabase.Stage2ClassificationService.Classify | app/classifier/stage2.py:60-118 | Refuses, fails, routes or deletes as specified |
| PipelineDatabase.RelevantQuestionPersistenceService.Persist | app/classifier/relevant.py:49-143 | Inserts question, chain rows in order and notification and removes the job, or fails, exactly as the handler whose outcomes `PipelineOutcomes` gives |
| PipelineDatabase.RelevantQuestionPersistenceService.InsertChain | app/classifier/relevant.py:113-131 | Inserts the rows of the items in order, each with the translation at its own position; fails exactly on a missing time, more than ten rows or a repeated message |
| PipelineDatabase.DownstreamClassificationHandler.Call | app/classifier/downstream.py:32-46 | Validates the snapshot and dispatches by status as specified |
| PipelineDatabase.QueueWorker.RunOnce | app/database/worker.py:66-101 | Claims a Stage-1 row if any and commits, or rolls back to the savepoint and retries or fails, exactly as specified |
| PipelineDatabase.DownstreamQueueWorker.RunReplyChain | app/database/worker.py:129-158 | The same for the chain-loading phase |
| PipelineDatabase.DownstreamQueueWorker.RunDownstream | app/database/worker.py:129-158 | The same for the classification phase |
| ReplyChains.ReplyChainLoader.GetReplyChain | app/listener/reply_chain.py:168-232 | Returns the chain of the bounded parent walk for any message graph, cycles included, or rejects the depth |
| ReplyChains.WalkIsUnique | app/listener/reply_chain.py:168-232 | The declarative description of that walk has at most one solution |
| ReplyChains.LoadedChainIsWellShaped | app/listener/reply_chain.py:182-232 | 1..max_depth items, distinct ids, each a reply to the one before, only the oldest possibly unavailable, available ones complete and on the target's topic, only the last the target |
| ReplyChains.StopReasonIsExact | app/listener/reply_chain.py:13-21 | Each stop reason holds exactly when the chain ended for it |
| ReplyChains.LoadedChainCarriesMessages | app/listener/reply_chain.py:182-255 | Every item carries the text, author, time, links and topic Telegram gave for its own message, or nothing but the id when there is none in the target's chat and topic; topic and title are the target's |
| ReplyChainSnapshots.SnapshotRoundTrip | app/listener/reply_chain.py:96-147 | Every chain survives serialization and validation unchanged |
| ReplyChainSnapshots.AcceptedExactlyWhenSerialized | app/listener/reply_chain.py:56-147 | Validation gives a chain exactly for its own serialization: no other keys, types, times or stop reasons are accepted |
| ReplyChainSnapshots.ExtraKeyIsRejected | app/listener/reply_chain.py:83-93 | A snapshot with an undeclared key is rejected |
| ReplyChainSnapshots.FormatStage2Input | app/classifier/stage2.py:32-46 | Accepts exactly chains of 1..10 items whose last is the only target, with the texts of those available, and renders one piece per item in order between blank lines: the last under [TARGET], all others under [CONTEXT], each with its text or [unavailable message] |
| ReplyChainSnapshots.SingleMessageIsTarget | app/classifier/stage2.py:41-46 | A message without context is rendered as [TARGET] and its text |
| ReplyChainSnapshots.LoadedChainIsStage2Ready | app/classifier/stage2.py:34-37 | Every loaded chain is accepted by the formatter |
| ReplyChainSnapshots.RenderingIgnoresMetadata | app/classifier/stage2.py:32-46 | The Stage-2 input depends on markers and available texts only |
| Notifications.SplitEscapedText | app/bot/notifications.py:119-135 | Computes the greedy pieces, escaped |
| Notifications.EscapedTextSpells | app/bot/notifications.py:119-131 | Escaped text decodes to the text, whatever it was, and contributes no tag |
| Notifications.PiecesAreLossless | app/bot/notifications.py:119-135 | The pieces join to the text, so no character or entity is cut |
| Notifications.ChunksFit | app/bot/notifications.py:119-135 | Every escaped piece fits the limit |
| Notifications.SplitIsMinimal | app/bot/notifications.py:119-135 | No admissible cut of the text uses fewer pieces |
| Notifications.PackBlocks | app/bot/notifications.py:138-150 | Computes the packing |
| Notifications.PackingIsLossless | app/bot/notifications.py:138-150 | Joining the messages gives the joined blocks |
| Notifications.MessagesFit | app/bot/notifications.py:138-150 | Every message is within 4096 when every block is |
| Notifications.PackingIsMinimal | app/bot/notifications.py:138-150 | No admissible packing in order uses fewer messages |
| NotificationRendering.RenderNotification | app/bot/notifications.py:57-81 | Renders the packed blocks of the content, whose meaning `NotificationReading` gives, controls on the last part only |
| NotificationRendering.RenderChainItem | app/bot/notifications.py:98-108 | Heading, original and the shown translation or its absence, as blocks whose meaning `NotificationReading` gives |
| NotificationRendering.ByPositionSorts | app/bot/notifications.py:60-61 | Items are rendered in position order with none added or dropped |
| NotificationReading.EachPartIsValidHtml | app/bot/notifications.py:57-81 | A tag-stack reader started afresh on any part ends with no open tag and no cut entity |
| NotificationReading.PartsRecoverTheChain | app/bot/notifications.py:98-116 | Reading all parts in order recovers, for each item in position order, its number, whether it is the target, its author, its original, and its translation or that none is shown |
| NotificationReading.PartsRecoverTheMetadata | app/bot/notifications.py:84-95 | It recovers the chat title, the topic or that there is none, the category, and the confidence as the nearest whole percentage, each under its own caption |
| NotificationRendering.TagsAreWritten | app/bot/notifications.py:84-116 | The two tags are b and blockquote |
| QuestionContents.OperatorReadsTheQuestion | app/bot/delivery.py:106-133 | In every run what is read of a question's notification is its chain: one to ten messages numbered from one, each with its own text, author and translation, only the last marked as the target, which is the message the question was detected in |
| QuestionContents.OperatorReadsTheChain | app/bot/delivery.py:106-133 | Once a message is persisted the operator reads every available item of its loaded chain, in order, with that item's text and its own translation where it exists and differs |
| NotificationReading.EveryPartFits | app/bot/notifications.py:57-150 | Within the column limits there is at least one part and every part is 1..4096 long |
| NotificationDelivery.BotNotificationWorker.RunOnce | app/bot/delivery.py:54-96 | One claim delivers the parts up to the first refusal and moves the row as specified |
| NotificationDelivery.DeliversAPrefixOnce | app/bot/delivery.py:54-96 | Over all attempts what was accepted is a prefix of one rendering, no part twice; sent iff all of it was; at most five claims |
| NotificationDelivery.OutcomeIsFinal | app/database/repositories/bot_notifications.py:21-75 | A sent or failed notification is never touched again |
| NotificationDelivery.OnlyDueRowsAreClaimed | app/database/repositories/bot_notifications.py:21-48 | A claim happens exactly while the row is pending or to be retried, and due |
| NotificationDelivery.AcceptedPartsAreWritten | app/bot/delivery.py:92-93 | When all parts are accepted the row is sent with the id of the last |
| NotificationDelivery.RefusalIsWritten | app/bot/delivery.py:77-91 | The first refusal schedules a retry after 15, 60, 300 and 1800 seconds exactly while no part was accepted before it and fewer than five claims were made; otherwise the row fails |
| QuestionDelivery.DeliverQuestion | app/bot/delivery.py:54-96 | Delivers the rendering of the question as it is at the claim |
| RetryPolicies.DelayAfterAttempt | app/database/worker.py:38-45 | Rejects non-positive attempts; the first four are followed by 15, 60, 300 and 1800 seconds, and no later one is |
| TopicTitles.TopicTitleCache.Get | app/listener/mtproto/client.py:87-92 | A hit moves the key to the recent end; a miss changes nothing |
| TopicTitles.TopicTitleCache.Put | app/listener/mtproto/client.py:94-99 | Stores the title at the recent end and keeps the most recent `maxSize` entries |
| TopicTitles.HoldsMostRecentKeys | app/listener/mtproto/client.py:78-99 | The cache holds exactly the last `maxSize` distinct requested keys in recency order |
| TopicTitles.HitExactlyWhenRecent | app/listener/mtproto/client.py:367-373 | A call hits iff the key was requested and fewer than `maxSize` other keys were since |
| TopicTitles.HitsAmongAllCalls | app/listener/mtproto/client.py:367-373 | Calls whose load raises leave no trace: the two results hold of the answered calls among any calls |
| TopicTitles.UnansweredExactlyWhenRaising | app/listener/mtproto/client.py:367-373 | A call goes unanswered exactly when its load raises and its key is not among the recent ones |
| TopicTitles.HitAnswersLatestLoad | app/listener/mtproto/client.py:367-373 | A hit answers with the key's latest load |
| TopicTitles.ForumTopicClient.GetForumTopicTitle | app/listener/mtproto/client.py:367-373 | Answers from the latest load exactly when recent, and otherwise loads, or raises with the cache unchanged |
| Fingerprints.FingerprintRepository.RegisterFingerprint | app/database/queue.py:192-218 | Stores the sighting and reports whether the previous one is absent or old enough |
| Fingerprints.FingerprintRepository.DeleteBatch | app/database/repositories/retention.py:84-105 | Removes the oldest unlocked expired rows, at most a batch |
| Fingerprints.AdmittedExactlyWhenFresh | app/database/queue.py:192-218 | With cleanups interleaved, a sighting is admitted iff no earlier one, admitted or suppressed, lies inside the preceding window |
| Fingerprints.AdmissionsAreOneWindowApart | app/database/queue.py:192-218 | Admissions of a fingerprint are at least one window apart |
| Fingerprints.CleanupIsInvisible | app/database/repositories/retention.py:75-81 | Erasing all cleanups from a history leaves its last admission unchanged |
| Fingerprints.RetentionInvisibleIffTtlCoversWindow | app/maintenance/__main__.py:30 | Cleanup is invisible exactly when the retention time covers the window |
| UsageAccounting.UsageRepository.RecordStage | app/classifier/usage.py:50-123 | Records a run once and adds it to its daily row only when inserted |
| UsageAccounting.RecordingIsWritten | app/classifier/usage.py:60-123 | A new recording adds one run with its own verdict, model, tokens and estimate and counts them in the row of its day and model; a repeat changes nothing |
| UsageAccounting.EstimateIsNearest | app/classifier/usage.py:28-34 | An estimate is the nearest amount, ties away from zero, to input tokens at the input price plus output tokens at the output price |
| UsageAccounting.PricesAreSeparate | app/classifier/usage.py:28-34 | Input alone is charged at the input price, output alone at the output price |
| UsageAccounting.UsageRepository.ProjectedMonthCost | app/classifier/usage.py:125-134 | Projects the sum of the month's daily rows |
| UsageAccounting.OneRunPerStage | app/classifier/usage.py:72-103 | At most one run per message and stage, and one exactly when something was recorded |
| UsageAccounting.OneRowPerDay | app/classifier/usage.py:105-122 | There is at most one daily row per day and model |
| UsageAccounting.DailyRowsAreSums | app/classifier/usage.py:105-122 | Each daily row equals the sums over the runs inserted that day for that model |
| UsageAccounting.MonthCostIsSumOfRuns | app/classifier/usage.py:125-134 | The month's rows add up to the cost of the runs inserted that month, repeats excluded |
| UsageAccounting.RoundingErrorIsBounded | app/classifier/usage.py:28-34 | A stored daily cost differs from the exact one by at most half a micro-dollar per request |
| UsageAccounting.HalfUpIsNearest | app/classifier/usage.py:34 | Rounding is the nearest amount with ties away from zero, and the only such |
| UsageAccounting.ProjectionIsNearest | app/classifier/usage.py:37-41 | The projection is the nearest amount to the average day so far times the days of the Gregorian month |
| UsageAccounting.ProjectionOnLastDay | app/classifier/usage.py:37-41 | On the last day of a month the projection is the month's cost |
| UsageAccounting.ProjectionCoversSpending | app/classifier/usage.py:37-41 | A projection is never below what was spent |
| OperationalAlerts.OperationalAlertRepository.EnqueueBudgetThresholds | app/database/repositories/operational_alerts.py:22-47 | Adds the reached thresholds once and counts the new ones |
| OperationalAlerts.OperationalAlertRepository.ObserveCondition | app/database/repositories/operational_alerts.py:49-88 | Tracks the episode and adds its alert once it is due |
| OperationalAlerts.ObservationIsWritten | app/database/repositories/operational_alerts.py:49-74 | A failing observation keeps the time the condition began to fail and notes its own; a passing one forgets it; no other condition is touched |
| OperationalAlerts.BudgetAlertsAreReachedThresholds | app/database/repositories/operational_alerts.py:22-47 | A month's budget alerts are exactly the thresholds some observed cost reached |
| OperationalAlerts.AlertsAreUnique | app/database/repositories/operational_alerts.py:35-45 | No alert is created twice |
| OperationalAlerts.AlertsMatchEpisodes | app/database/repositories/operational_alerts.py:49-88 | With strictly increasing times, an episode has an alert exactly when an observation in it reached its threshold, and every alert belongs to one episode |

## Left out

- Telethon, aiogram, the model and translation services, HTTP, the session file lock and reconnecting: only their outcomes appear, as inputs.
- SQL isolation and lock contention: transactions are serial, so no row is skipped because another holds it; results over runs hold whichever claimable row a worker gets.
- Whether the text at Telegram agrees with the tables after an ambiguous edit error or a rejected completion: the code does not decide it.
- Clocks: database time and application time are one clock; times in the queue and the outbound tables are whole seconds, fingerprint and alert times whole microseconds.
- Message dates with fractions of a second or a zone other than UTC.
- ReplyChainSnapshots.AcceptedExactlyWhenSerialized: speaks of the forms serialization writes, because the lenient conversions of the snapshot validator (numeric strings, integers for booleans, other spellings of a time) are not modelled.
- Bot API answers without a message id: every delivery outcome is an id or a refusal.
- Concurrent topic lookups interleaving between a miss and its store: lookups in a history run one after the other, though `Put` itself accepts a key that is already there.
- PipelineSafety.NoMessageIsLost: does not model the deletion of persisted questions and of classification runs by age (60 days by default); a row's own expiry is modelled.
- The chat row itself, its activity and re-adding: a removed chat's rows go, and a message is offered only for an active chat.
- Chat verification requests after an access error, its counters, metrics, logging and worker names on locks.
- More than one operator, and the chat-state machine beside the session row.
- Message links, keyboards, menus, status and shadow reports, configuration and migrations.
- The prefilter's vocabulary and the hashing of fingerprints: fingerprints are opaque.
- Category, confidence and reason of a classification: a question names the stage of the run they are copied from.
- The size of integer columns and the 28-digit decimal context: amounts are exact integers and reals.
- Text length is counted in characters as the renderer does, not in the UTF-16 units Telegram counts.
- Queries that could in principle match several rows (a question's send, a message's run) return one of them; the invariants show there is at most one.
- Claims committed without their work occur in no worker's transaction; they are a step of the model so that stale recovery has something to repair.
- Listing of failures and drafts, which reads only.
