/**
 * The two-stage classification pipeline over one `processing_jobs` row per message: Stage 1,
 * reply-chain loading, Stage 2 and persistence, each a worker transaction with a savepoint.
 */
module Pipeline {
  import opened Wrappers
  import opened RetryPolicies
  import opened Calendar
  import opened ReplyChains
  import opened ReplyChainSnapshots
  import opened UsageAccounting

  // ----- Rows -----

  datatype MessageKey = MessageKey(chatId: int, messageId: int)

  datatype NewJob = NewJob(
    key: MessageKey,
    monitoredChat: int,
    text: string,
    createdAt: DateTime,
    topicId: Option<int>,
    senderId: Option<int>,
    senderName: Option<string>
  )

  datatype JobStatus = Pending | Processing | Retry | Failed | AwaitingRelevant | AwaitingContext

  datatype Job = Job(
    message: NewJob,
    createdAt: int,
    status: JobStatus,
    attempts: int,
    nextAttemptAt: int,
    lockedAt: Option<int>,
    lastError: Option<string>,
    snapshot: Option<Json>
  )

  datatype Translation = Translation(translated: Option<string>, language: Option<string>, status: string)

  /**
   * `chat` is the monitored chat row, None once that row has been removed; `stage` is the
   * classification run the question's category and confidence are copied from.
   */
  datatype DetectedRow = DetectedRow(
    message: NewJob,
    chat: Option<int>,
    topicId: Option<int>,
    topicTitle: Option<string>,
    translation: Translation,
    stage: int
  )

  datatype ChainRow = ChainRow(
    question: nat,
    position: int,
    messageId: int,
    replyTo: Option<int>,
    authorId: Option<int>,
    authorName: Option<string>,
    createdAt: DateTime,
    text: string,
    translation: Translation,
    isTarget: bool
  )

  /** `processing_jobs` by its unique message key; question ids are indices; a notification is its question's id. */
  datatype Tables = Tables(
    jobs: map<MessageKey, Job>,
    usage: Usage,
    questions: seq<DetectedRow>,
    chain: seq<ChainRow>,
    notifications: seq<nat>
  )

  // ----- Outcomes met outside the database -----

  /** An exception a handler raises: its recorded code, and whether it may be retried. */
  datatype Failure = Failure(code: string, retryable: bool)

  /** What the model call gives, with the usage it reports. */
  datatype ModelCall =
    | Answered(verdict: Verdict, today: Date, model: string, inputTokens: int, outputTokens: int, pricing: Pricing)
    | CallFails(failure: Failure)

  datatype ChainLoad = Loads(source: Source) | LoadFails(failure: Failure)

  datatype Phase = Stage1Phase | ReplyChainPhase | ClassificationPhase

  // ----- Queries -----

  /** The run of a message and stage; the unique constraint allows at most one. */
  function FindRun(runs: seq<Run>, key: RunKey): (r: Option<Run>)
    ensures r.Some? <==> Recorded(runs, key)
    ensures r.Some? ==> r.value.key == key
  {
    if runs == [] then None
    else
      var init, last := runs[..|runs| - 1], runs[|runs| - 1];
      assert forall i :: 0 <= i < |init| ==> init[i] == runs[i];
      if last.key == key then Some(last) else FindRun(init, key)
  }

  function StageVerdict(t: Tables, key: MessageKey, stage: int): Option<Verdict> {
    var run := FindRun(t.usage.runs, RunKey(key.chatId, key.messageId, stage));
    if run.Some? then Some(run.value.verdict) else None
  }

  /** The latest stage that found the message relevant. */
  function RelevantStage(t: Tables, key: MessageKey): Option<int> {
    if StageVerdict(t, key, 2) == Some(Relevant) then Some(2)
    else if StageVerdict(t, key, 1) == Some(Relevant) then Some(1)
    else None
  }

  predicate HasQuestion(t: Tables, key: MessageKey) {
    exists q :: 0 <= q < |t.questions| && t.questions[q].message.key == key
  }

  predicate Claimable(t: Tables, key: MessageKey, phase: Phase, now: int) {
    key in t.jobs && t.jobs[key].nextAttemptAt <= now
    && match phase
       case Stage1Phase => t.jobs[key].status in {Pending, Retry}
       case _ =>
         && t.jobs[key].status in {AwaitingRelevant, AwaitingContext}
         && (t.jobs[key].snapshot.None? <==> phase == ReplyChainPhase)
         && (t.jobs[key].lockedAt.None? || t.jobs[key].lockedAt.value < now - STALE_LOCK_AFTER)
  }

  const STALE_LOCK_AFTER := 300

  // ----- Repository writes -----

  function Enqueue(t: Tables, message: NewJob, now: int): Tables {
    if message.key in t.jobs then t
    else t.(jobs := t.jobs[message.key := Job(message, now, Pending, 0, now, None, None, None)])
  }

  function SetJob(t: Tables, key: MessageKey, job: Job): Tables {
    t.(jobs := t.jobs[key := job])
  }

  function Complete(t: Tables, key: MessageKey): Tables {
    t.(jobs := t.jobs - {key})
  }

  function Claim(t: Tables, key: MessageKey, phase: Phase, now: int): Tables
    requires key in t.jobs
  {
    var claimed := t.jobs[key].(lockedAt := Some(now), attempts := t.jobs[key].attempts + 1);
    SetJob(t, key, if phase == Stage1Phase then claimed.(status := Processing) else claimed)
  }

  function Route(t: Tables, key: MessageKey, status: JobStatus): Tables
    requires key in t.jobs
  {
    SetJob(t, key, t.jobs[key].(status := status, lockedAt := None, lastError := None, attempts := 0))
  }

  function Truncated(code: string): string {
    if |code| <= 100 then code else code[..100]
  }

  /** What a worker does when the handler has raised, with everything since the claim rolled back. */
  function Recovered(t: Tables, key: MessageKey, phase: Phase, f: Failure, now: int): Tables
    requires key in t.jobs
  {
    var job := t.jobs[key].(lockedAt := None, lastError := Some(Truncated(f.code)));
    if !f.retryable || !MayRetry(job.attempts) then SetJob(t, key, job.(status := Failed))
    else
      var again := job.(nextAttemptAt := now + RetryDelay(job.attempts));
      SetJob(t, key, if phase == Stage1Phase then again.(status := Retry) else again)
  }

  function SaveReplyChain(t: Tables, key: MessageKey, snapshot: Json, now: int): Tables
    requires key in t.jobs
  {
    SetJob(t, key, t.jobs[key].(
      snapshot := Some(snapshot), attempts := 0, nextAttemptAt := now, lockedAt := None, lastError := None))
  }

  predicate Stale(job: Job, staleBefore: int) {
    job.status == Processing && job.lockedAt.Some? && job.lockedAt.value < staleBefore
  }

  function RecoveredJob(job: Job, staleBefore: int, now: int): Job {
    if !Stale(job, staleBefore) then job
    else job.(status := Retry, nextAttemptAt := now, lockedAt := None, lastError := Some("STALE_LOCK_RECOVERED"))
  }

  function RecoverStale(t: Tables, staleBefore: int, now: int): Tables {
    t.(jobs := map key | key in t.jobs :: RecoveredJob(t.jobs[key], staleBefore, now))
  }

  const JOB_LIFETIME := 86400

  /** Past its own expiry, or older than the configured lifetime of temporary rows. */
  predicate Expired(job: Job, now: int, ttl: int) {
    job.createdAt + JOB_LIFETIME < now || job.createdAt < now - ttl
  }

  /** One retention batch: those of its rows that have expired are deleted. */
  function Expire(t: Tables, now: int, ttl: int, batch: set<MessageKey>): Tables {
    t.(jobs := t.jobs - (set key | key in batch && key in t.jobs && Expired(t.jobs[key], now, ttl)))
  }

  function Detached(questions: seq<DetectedRow>, chat: int): (r: seq<DetectedRow>)
    ensures |r| == |questions|
    ensures forall q :: 0 <= q < |r| ==>
              r[q] == if questions[q].chat == Some(chat) then questions[q].(chat := None) else questions[q]
  {
    seq(|questions|, q requires 0 <= q < |questions| =>
      if questions[q].chat == Some(chat) then questions[q].(chat := None) else questions[q])
  }

  /** Deleting a monitored chat cascades to its queue rows and detaches its questions. */
  function RemoveChatRow(t: Tables, chat: int): Tables {
    t.(jobs := t.jobs - (set key | key in t.jobs && t.jobs[key].message.monitoredChat == chat),
       questions := Detached(t.questions, chat))
  }

  // ----- Handlers -----

  function ToRecording(key: MessageKey, stage: int, call: ModelCall): Recording
    requires call.Answered?
  {
    Recording(call.today, RunKey(key.chatId, key.messageId, stage), call.verdict, call.model,
              call.inputTokens, call.outputTokens, call.pricing)
  }

  function RecordStage(t: Tables, key: MessageKey, stage: int, call: ModelCall): Tables
    requires call.Answered?
  {
    t.(usage := Record(t.usage, ToRecording(key, stage, call)))
  }

  /** Stage 1. Whether the run was newly recorded is not asked. */
  function Stage1(t: Tables, key: MessageKey, call: ModelCall): Result<Tables, Failure>
    requires key in t.jobs
  {
    match call
    case CallFails(f) => Err(f)
    case Answered(verdict, _, _, _, _, _) =>
      var recorded := RecordStage(t, key, 1, call);
      Ok(match verdict
         case ContextRequired => Route(recorded, key, AwaitingContext)
         case Relevant => Route(recorded, key, AwaitingRelevant)
         case Irrelevant => Complete(recorded, key))
  }

  function LoadChain(t: Tables, key: MessageKey, load: ChainLoad, now: int): Result<Tables, Failure>
    requires key in t.jobs
  {
    match load
    case LoadFails(f) => Err(f)
    case Loads(src) =>
      Ok(SaveReplyChain(t, key, SerializeReplyChain(LoadedChain(src, key.chatId, key.messageId)), now))
  }

  const STAGE2_REFUSED := Failure("Stage2ClassificationError", true)
  const STAGE2_NON_FINAL := Failure("STAGE2_NON_FINAL_RESULT", false)
  const BAD_HANDOFF := Failure("INVALID_DOWNSTREAM_HANDOFF", false)
  const BAD_SNAPSHOT := Failure("ValidationError", true)
  const VALUE_ERROR := Failure("ValueError", true)
  const PERSISTENCE_REFUSED := Failure("RelevantQuestionPersistenceError", true)
  const CONSTRAINT_VIOLATED := Failure("IntegrityError", true)

  function Stage2(t: Tables, key: MessageKey, c: ReplyChain, call: ModelCall): Result<Tables, Failure>
    requires key in t.jobs
  {
    if StageVerdict(t, key, 1) != Some(ContextRequired) then Err(STAGE2_REFUSED)
    else if StageVerdict(t, key, 2).Some? then Err(STAGE2_REFUSED)
    else if !Stage2Ready(c) then Err(VALUE_ERROR)
    else match call
      case CallFails(f) => Err(f)
      case Answered(ContextRequired, _, _, _, _, _) => Err(STAGE2_NON_FINAL)
      case Answered(Relevant, _, _, _, _, _) => Ok(Route(RecordStage(t, key, 2, call), key, AwaitingRelevant))
      case Answered(Irrelevant, _, _, _, _, _) => Ok(Complete(RecordStage(t, key, 2, call), key))
  }

  function Targets(items: seq<Item>): seq<Item> {
    if items == [] then []
    else Targets(items[..|items| - 1]) + if items[|items| - 1].isTarget then [items[|items| - 1]] else []
  }

  function Available(items: seq<Item>): seq<Item> {
    if items == [] then []
    else Available(items[..|items| - 1]) + if items[|items| - 1].isUnavailable then [] else [items[|items| - 1]]
  }

  predicate HasText(items: seq<Item>) {
    forall i :: 0 <= i < |items| ==> items[i].text.Some?
  }

  predicate HasTimes(items: seq<Item>) {
    forall i :: 0 <= i < |items| ==> items[i].createdAt.Some?
  }

  predicate DistinctIds(items: seq<Item>) {
    forall i, j :: 0 <= i < j < |items| ==> items[i].messageId != items[j].messageId
  }

  /** A translation never fails the transaction: without one it is recorded as failed. */
  function TranslationAt(translations: seq<Translation>, position: nat): Translation {
    if position < |translations| then translations[position] else Translation(None, None, "failed")
  }

  /** `translations` are the outcomes of the calls made for the available items, in order. */
  function ChainRowOf(question: nat, position: nat, item: Item, translations: seq<Translation>): ChainRow
    requires item.text.Some? && item.createdAt.Some?
  {
    ChainRow(question, position, item.messageId, item.replyTo, item.authorId, item.authorName, item.createdAt.value,
             item.text.value, TranslationAt(translations, position), item.isTarget)
  }

  function ChainRows(question: nat, items: seq<Item>, translations: seq<Translation>): (rows: seq<ChainRow>)
    requires HasText(items) && HasTimes(items)
    ensures |rows| == |items|
    ensures forall p :: 0 <= p < |rows| ==> rows[p] == ChainRowOf(question, p, items[p], translations)
  {
    seq(|items|, p requires 0 <= p < |items| => ChainRowOf(question, p, items[p], translations))
  }

  /** The first position of an item. */
  function IndexOf(items: seq<Item>, item: Item): (i: nat)
    requires item in items
    ensures i < |items| && items[i] == item
  {
    if items[0] == item then 0 else 1 + IndexOf(items[1..], item)
  }

  function DetectedRowOf(message: NewJob, c: ReplyChain, translation: Translation, stage: int): DetectedRow {
    DetectedRow(message, Some(message.monitoredChat), if c.topicId.Some? then c.topicId else message.topicId,
                c.topicTitle, translation, stage)
  }

  /** Question, chain, notification and the job's removal, all or nothing. */
  function Persist(t: Tables, key: MessageKey, c: ReplyChain, translations: seq<Translation>): Result<Tables, Failure>
    requires key in t.jobs
  {
    if HasQuestion(t, key) then Ok(Complete(t, key))
    else
      var stage, targets, items := RelevantStage(t, key), Targets(c.items), Available(c.items);
      if stage.None? then Err(PERSISTENCE_REFUSED)
      else if |targets| != 1 || targets[0].messageId != key.messageId then Err(PERSISTENCE_REFUSED)
      else if !HasText(items) then Err(PERSISTENCE_REFUSED)
      else if targets[0] !in items then Err(VALUE_ERROR)
      else if !HasTimes(items) then Err(PERSISTENCE_REFUSED)
      else if |items| > 10 || !DistinctIds(items) then Err(CONSTRAINT_VIOLATED)
      else
        var id, translation := |t.questions|, TranslationAt(translations, IndexOf(items, targets[0]));
        Ok(Complete(t, key).(
          questions := t.questions + [DetectedRowOf(t.jobs[key].message, c, translation, stage.value)],
          chain := t.chain + ChainRows(id, items, translations),
          notifications := t.notifications + [id]))
  }

  function Downstream(t: Tables, key: MessageKey, call: ModelCall, translations: seq<Translation>): Result<Tables, Failure>
    requires key in t.jobs
  {
    if t.jobs[key].snapshot.None? then Err(BAD_HANDOFF)
    else
      var c := DeserializeReplyChain(t.jobs[key].snapshot.value);
      if c.None? then Err(BAD_SNAPSHOT)
      else if c.value.chatId != key.chatId then Err(BAD_HANDOFF)
      else if t.jobs[key].status == AwaitingContext then Stage2(t, key, c.value, call)
      else if t.jobs[key].status == AwaitingRelevant then Persist(t, key, c.value, translations)
      else Err(BAD_HANDOFF)
  }

  // ----- Worker transactions -----

  /** Commit the handler's work, or roll back to just after the claim and retry or fail. */
  function Settled(claimed: Tables, key: MessageKey, phase: Phase, r: Result<Tables, Failure>, now: int): Tables
    requires key in claimed.jobs
  {
    match r
    case Ok(t) => t
    case Err(f) => Recovered(claimed, key, phase, f, now)
  }

  /** What the handler of each phase is given, beside the claimed row. */
  datatype Input = Stage1Input(call: ModelCall) | ChainInput(load: ChainLoad)
                 | DownstreamInput(call: ModelCall, translations: seq<Translation>)

  function PhaseOf(i: Input): Phase {
    match i
    case Stage1Input(_) => Stage1Phase
    case ChainInput(_) => ReplyChainPhase
    case DownstreamInput(_, _) => ClassificationPhase
  }

  function Handle(t: Tables, key: MessageKey, i: Input, now: int): Result<Tables, Failure>
    requires key in t.jobs
  {
    match i
    case Stage1Input(call) => Stage1(t, key, call)
    case ChainInput(load) => LoadChain(t, key, load, now)
    case DownstreamInput(call, translations) => Downstream(t, key, call, translations)
  }

  /** `run_once` of either worker on a claimable job. */
  function RunOnce(t: Tables, key: MessageKey, i: Input, now: int): Tables
    requires Claimable(t, key, PhaseOf(i), now)
  {
    var claimed := Claim(t, key, PhaseOf(i), now);
    Settled(claimed, key, PhaseOf(i), Handle(claimed, key, i, now), now)
  }

  // ----- Histories -----

  /** `ClaimOnly` commits a claim whose worker then vanishes, which is what stale recovery repairs. */
  datatype Event =
    | Arrive(message: NewJob, now: int)
    | Work(key: MessageKey, input: Input, now: int)
    | ClaimOnly(key: MessageKey, phase: Phase, now: int)
    | Recover(staleBefore: int, now: int)
    | RemoveChat(chat: int)
    | Cleanup(now: int, ttl: int, batch: set<MessageKey>)

  /** `claims` counts the worker runs on the current or last row of each message. */
  datatype World = World(tables: Tables, claims: map<MessageKey, nat>)

  const EMPTY := World(Tables(map[], Usage([], []), [], [], []), map[])

  function ClaimsOf(w: World, key: MessageKey): nat {
    if key in w.claims then w.claims[key] else 0
  }

  function Next(w: World, e: Event): World {
    var t := w.tables;
    match e
    case Arrive(message, now) =>
      if message.key in t.jobs then w
      else World(Enqueue(t, message, now), w.claims[message.key := 0])
    case Work(key, input, now) =>
      if !Claimable(t, key, PhaseOf(input), now) then w
      else World(RunOnce(t, key, input, now), w.claims[key := ClaimsOf(w, key) + 1])
    case ClaimOnly(key, phase, now) => if Claimable(t, key, phase, now) then w.(tables := Claim(t, key, phase, now)) else w
    case Recover(staleBefore, now) => w.(tables := RecoverStale(t, staleBefore, now))
    case RemoveChat(chat) => w.(tables := RemoveChatRow(t, chat))
    case Cleanup(now, ttl, batch) => w.(tables := Expire(t, now, ttl, batch))
  }

  function After(h: seq<Event>): World {
    if h == [] then EMPTY else Next(After(h[..|h| - 1]), h[|h| - 1])
  }
}
