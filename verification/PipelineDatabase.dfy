/**
 * The queue repositories, handlers and workers, changing the rows step by step. Each worker run
 * is proved to take the tables where the functions of `Pipeline` say, savepoint rollback included.
 */
module PipelineDatabase {
  import opened Wrappers
  import opened RetryPolicies
  import opened ReplyChains
  import opened ReplyChainSnapshots
  import opened UsageAccounting
  import opened Pipeline
  import opened Retention

  class Session {
    var jobs: map<MessageKey, Job>
    var questions: seq<DetectedRow>
    var chain: seq<ChainRow>
    var notifications: seq<nat>
    const usage: UsageRepository

    function Contents(): Tables
      reads this, usage
    {
      Tables(jobs, Usage(usage.runs, usage.daily), questions, chain, notifications)
    }

    constructor ()
      ensures Contents() == Pipeline.EMPTY.tables && fresh(usage)
    {
      jobs, questions, chain, notifications := map[], [], [], [];
      usage := new UsageRepository();
    }

    /** Back to a savepoint. */
    method Rollback(saved: Tables)
      modifies this, usage
      ensures Contents() == saved
    {
      jobs, questions, chain, notifications := saved.jobs, saved.questions, saved.chain, saved.notifications;
      usage.runs, usage.daily := saved.usage.runs, saved.usage.daily;
    }
  }

  // ----- Repositories -----

  function CreationTimes(jobs: map<MessageKey, Job>): map<MessageKey, int> {
    map k | k in jobs :: jobs[k].createdAt
  }

  function Deletable(jobs: map<MessageKey, Job>, now: int, ttl: int, locked: set<MessageKey>): set<MessageKey> {
    set k | k in jobs && Expired(jobs[k], now, ttl) && k !in locked
  }

  lemma SoleMember<K>(s: set<K>, k: K)
    requires |s| == 1 && k in s
    ensures s == {k}
  {
    assert |s - {k}| == 0;
  }

  /** No claimable row was created before it. */
  ghost predicate IsOldestClaimable(t: Tables, key: MessageKey, phase: Phase, now: int) {
    Claimable(t, key, phase, now)
    && forall k :: Claimable(t, k, phase, now) ==> t.jobs[key].createdAt <= t.jobs[k].createdAt
  }

  function ClaimableKeys(t: Tables, phase: Phase, now: int): set<MessageKey> {
    set k | k in t.jobs && Claimable(t, k, phase, now)
  }

  lemma FirstIsOldest(t: Tables, phase: Phase, now: int, key: MessageKey)
    requires IsOldestBatch(CreationTimes(t.jobs), ClaimableKeys(t, phase, now), 1, {key})
    ensures IsOldestClaimable(t, key, phase, now)
  {
    assert key in ClaimableKeys(t, phase, now);
    forall k | Claimable(t, k, phase, now) ensures t.jobs[key].createdAt <= t.jobs[k].createdAt {
      assert k in ClaimableKeys(t, phase, now);
    }
  }

  class JobRepository {
    const session: Session

    constructor (session: Session)
      ensures this.session == session
    {
      this.session := session;
    }

    /** ON CONFLICT DO NOTHING on the message key. */
    method Enqueue(message: NewJob, now: int) returns (inserted: bool)
      modifies session`jobs
      ensures session.Contents() == Pipeline.Enqueue(old(session.Contents()), message, now)
      ensures inserted <==> message.key !in old(session.jobs)
      ensures message.key in session.jobs
    {
      inserted := message.key !in session.jobs;
      if inserted {
        session.jobs := session.jobs[message.key := Job(message, now, Pending, 0, now, None, None, None)];
      }
    }

    /** The oldest claimable row of the phase, claimed. */
    method ClaimNext(phase: Phase, now: int) returns (key: Option<MessageKey>)
      modifies session`jobs
      ensures key.None? ==> session.Contents() == old(session.Contents())
      ensures key.None? ==> forall k :: !Claimable(session.Contents(), k, phase, now)
      ensures key.Some? ==> IsOldestClaimable(old(session.Contents()), key.value, phase, now)
      ensures key.Some? ==> session.Contents() == Claim(old(session.Contents()), key.value, phase, now)
    {
      var t := session.Contents();
      var claimable := ClaimableKeys(t, phase, now);
      if claimable == {} {
        assert forall k :: Claimable(t, k, phase, now) ==> k in claimable;
        return None;
      }
      var oldest := OldestBatch(CreationTimes(session.jobs), claimable, 1);
      var k :| k in oldest;
      SoleMember(oldest, k);
      FirstIsOldest(t, phase, now, k);
      var job := session.jobs[k];
      if phase == Stage1Phase {
        job := job.(status := Processing);
      }
      session.jobs := session.jobs[k := job.(lockedAt := Some(now), attempts := job.attempts + 1)];
      return Some(k);
    }

    method Complete(key: MessageKey)
      modifies session`jobs
      ensures session.Contents() == Pipeline.Complete(old(session.Contents()), key)
    {
      session.jobs := session.jobs - {key};
    }

    method Route(key: MessageKey, status: JobStatus)
      requires key in session.jobs
      modifies session`jobs
      ensures session.Contents() == Pipeline.Route(old(session.Contents()), key, status)
    {
      var job := session.jobs[key].(status := status, lockedAt := None);
      session.jobs := session.jobs[key := job.(lastError := None, attempts := 0)];
    }

    method SaveReplyChain(key: MessageKey, snapshot: Json, now: int)
      requires key in session.jobs
      modifies session`jobs
      ensures session.Contents() == Pipeline.SaveReplyChain(old(session.Contents()), key, snapshot, now)
    {
      var job := session.jobs[key].(snapshot := Some(snapshot), attempts := 0, nextAttemptAt := now);
      session.jobs := session.jobs[key := job.(lockedAt := None, lastError := None)];
    }

    method RetryJob(key: MessageKey, code: string, retryAt: int, phase: Phase)
      requires key in session.jobs
      modifies session`jobs
      ensures session.jobs == old(session.jobs)[key :=
                old(session.jobs)[key].(status := if phase == Stage1Phase then Retry else old(session.jobs)[key].status,
                                        nextAttemptAt := retryAt, lockedAt := None, lastError := Some(code))]
    {
      var job := session.jobs[key].(nextAttemptAt := retryAt, lockedAt := None, lastError := Some(code));
      session.jobs := session.jobs[key := if phase == Stage1Phase then job.(status := Retry) else job];
    }

    method FailJob(key: MessageKey, code: string)
      requires key in session.jobs
      modifies session`jobs
      ensures session.jobs == old(session.jobs)[key :=
                old(session.jobs)[key].(status := Failed, lockedAt := None, lastError := Some(code))]
    {
      session.jobs := session.jobs[key := session.jobs[key].(status := Failed, lockedAt := None, lastError := Some(code))];
    }

    /** Returns the recovered rows. */
    method RecoverStale(staleBefore: int, now: int) returns (recovered: set<MessageKey>)
      modifies session`jobs
      ensures session.Contents() == Pipeline.RecoverStale(old(session.Contents()), staleBefore, now)
      ensures forall k :: k in recovered <==> k in old(session.jobs) && Stale(old(session.jobs)[k], staleBefore)
    {
      recovered := set k | k in session.jobs && session.jobs[k].status == Processing
                           && session.jobs[k].lockedAt.Some? && session.jobs[k].lockedAt.value < staleBefore;
      session.jobs := map k | k in session.jobs ::
        if k in recovered
        then session.jobs[k].(status := Retry, nextAttemptAt := now, lockedAt := None,
                              lastError := Some("STALE_LOCK_RECOVERED"))
        else session.jobs[k];
    }
  }

  class MonitoredChatRepository {
    const session: Session

    constructor (session: Session)
      ensures this.session == session
    {
      this.session := session;
    }

    /** Deletes the chat row, with what the foreign keys to it do. */
    method Remove(chat: int)
      modifies session`jobs, session`questions
      ensures session.Contents() == RemoveChatRow(old(session.Contents()), chat)
    {
      session.jobs := map k | k in session.jobs && session.jobs[k].message.monitoredChat != chat :: session.jobs[k];
      session.questions := seq(|session.questions|, q requires 0 <= q < |session.questions| reads session =>
        if session.questions[q].chat == Some(chat) then session.questions[q].(chat := None) else session.questions[q]);
    }
  }

  class RetentionRepository {
    const session: Session

    constructor (session: Session)
      ensures this.session == session
    {
      this.session := session;
    }

    /** Deletes the oldest expired queue rows that no one has locked, at most a batch. */
    method DeleteExpiredJobs(now: int, ttl: int, batchSize: nat, locked: set<MessageKey>) returns (batch: set<MessageKey>)
      modifies session`jobs
      ensures session.Contents() == Expire(old(session.Contents()), now, ttl, batch)
      ensures IsOldestBatch(CreationTimes(old(session.jobs)), Deletable(old(session.jobs), now, ttl, locked), batchSize, batch)
    {
      batch := OldestBatch(CreationTimes(session.jobs), Deletable(session.jobs, now, ttl, locked), batchSize);
      session.jobs := session.jobs - batch;
    }
  }

  // ----- Handlers -----

  datatype Disposition = CompleteRow | RetainRow

  class Stage1ClassificationHandler {
    const session: Session

    constructor (session: Session)
      ensures this.session == session
    {
      this.session := session;
    }

    /** `CompleteRow` leaves the row's deletion to the worker. A row that is not being processed is left alone. */
    method Call(key: MessageKey, call: ModelCall) returns (r: Result<Disposition, Failure>)
      requires key in session.jobs
      modifies session`jobs, session.usage
      ensures old(session.jobs)[key].status != Processing ==> r == Ok(RetainRow) && session.Contents() == old(session.Contents())
      ensures old(session.jobs)[key].status == Processing ==>
                var spec := Stage1(old(session.Contents()), key, call);
                && (r.Err? <==> spec.Err?)
                && (r.Err? ==> r.error == spec.error)
                && (r == Ok(RetainRow) ==> session.Contents() == spec.value)
                && (r == Ok(CompleteRow) ==> Pipeline.Complete(session.Contents(), key) == spec.value)
    {
      if session.jobs[key].status != Processing {
        return Ok(RetainRow);
      }
      if call.CallFails? {
        return Err(call.failure);
      }
      // Whether the run was inserted is not used.
      var inserted := session.usage.RecordStage(ToRecording(key, 1, call));
      var jobs := new JobRepository(session);
      if call.verdict == ContextRequired {
        jobs.Route(key, AwaitingContext);
        return Ok(RetainRow);
      }
      if call.verdict == Relevant {
        jobs.Route(key, AwaitingRelevant);
        return Ok(RetainRow);
      }
      return Ok(CompleteRow);
    }
  }

  class ReplyChainSnapshotHandler {
    const session: Session

    constructor (session: Session)
      ensures this.session == session
    {
      this.session := session;
    }

    method Call(key: MessageKey, load: ChainLoad, now: int) returns (r: Result<(), Failure>)
      requires key in session.jobs
      modifies session`jobs
      ensures var spec := LoadChain(old(session.Contents()), key, load, now);
              && (r.Err? <==> spec.Err?)
              && (r.Err? ==> r.error == spec.error)
              && (r.Ok? ==> session.Contents() == spec.value)
    {
      if load.LoadFails? {
        return Err(load.failure);
      }
      var loader := new ReplyChainLoader(load.source);
      var loaded, path := loader.GetReplyChain(key.chatId, key.messageId);
      LoadedChainIsTheWalk(load.source, key.chatId, key.messageId, path, loaded.value.stopReason);
      var jobs := new JobRepository(session);
      jobs.SaveReplyChain(key, SerializeReplyChain(loaded.value), now);
      return Ok(());
    }
  }

  class Stage2ClassificationService {
    const session: Session

    constructor (session: Session)
      ensures this.session == session
    {
      this.session := session;
    }

    method Classify(key: MessageKey, c: ReplyChain, call: ModelCall) returns (r: Result<Disposition, Failure>)
      requires key in session.jobs
      modifies session`jobs, session.usage
      ensures old(session.jobs)[key].status != AwaitingContext ==> r == Err(STAGE2_REFUSED)
      ensures old(session.jobs)[key].status == AwaitingContext ==>
                var spec := Stage2(old(session.Contents()), key, c, call);
                && (r.Err? <==> spec.Err?)
                && (r.Err? ==> r.error == spec.error)
                && (r.Ok? ==> session.Contents() == spec.value)
    {
      if session.jobs[key].status != AwaitingContext {
        return Err(STAGE2_REFUSED);
      }
      if StageVerdict(session.Contents(), key, 1) != Some(ContextRequired) {
        return Err(STAGE2_REFUSED);
      }
      if StageVerdict(session.Contents(), key, 2).Some? {
        return Err(STAGE2_REFUSED);
      }
      var input := FormatStage2Input(c);
      if input.Err? {
        return Err(VALUE_ERROR);
      }
      if call.CallFails? {
        return Err(call.failure);
      }
      if call.verdict == ContextRequired {
        return Err(STAGE2_NON_FINAL);
      }
      // With no Stage-2 run recorded the insertion cannot conflict.
      var inserted := session.usage.RecordStage(ToRecording(key, 2, call));
      var jobs := new JobRepository(session);
      if call.verdict == Relevant {
        jobs.Route(key, AwaitingRelevant);
        return Ok(RetainRow);
      }
      jobs.Complete(key);
      return Ok(CompleteRow);
    }
  }

  class RelevantQuestionPersistenceService {
    const session: Session

    constructor (session: Session)
      ensures this.session == session
    {
      this.session := session;
    }

    method Persist(key: MessageKey, c: ReplyChain, translations: seq<Translation>) returns (r: Result<(), Failure>)
      requires key in session.jobs
      modifies session`jobs, session`questions, session`chain, session`notifications
      ensures old(session.jobs)[key].status != AwaitingRelevant || c.chatId != key.chatId ==> r == Err(PERSISTENCE_REFUSED)
      ensures old(session.jobs)[key].status == AwaitingRelevant && c.chatId == key.chatId ==>
                var spec := Pipeline.Persist(old(session.Contents()), key, c, translations);
                && (r.Err? <==> spec.Err?)
                && (r.Err? ==> r.error == spec.error)
                && (r.Ok? ==> session.Contents() == spec.value)
    {
      if session.jobs[key].status != AwaitingRelevant || c.chatId != key.chatId {
        return Err(PERSISTENCE_REFUSED);
      }
      var jobs := new JobRepository(session);
      if HasQuestion(session.Contents(), key) {
        jobs.Complete(key);
        return Ok(());
      }
      var stage := RelevantStage(session.Contents(), key);
      if stage.None? {
        return Err(PERSISTENCE_REFUSED);
      }
      var targets := Targets(c.items);
      if |targets| != 1 || targets[0].messageId != key.messageId {
        return Err(PERSISTENCE_REFUSED);
      }
      var items := Available(c.items);
      if !HasText(items) {
        return Err(PERSISTENCE_REFUSED);
      }
      if targets[0] !in items {
        return Err(VALUE_ERROR);
      }
      var id := |session.questions|;
      var translation := TranslationAt(translations, IndexOf(items, targets[0]));
      session.questions :=
        session.questions + [DetectedRowOf(session.jobs[key].message, c, translation, stage.value)];
      var failure := InsertChain(id, items, translations);
      if failure.Some? {
        return Err(failure.value);
      }
      session.notifications := session.notifications + [id];
      jobs.Complete(key);
      return Ok(());
    }

    /** One row per item in order; the constraints are checked when the rows are flushed. */
    method InsertChain(id: nat, items: seq<Item>, translations: seq<Translation>) returns (failure: Option<Failure>)
      requires HasText(items)
      modifies session`chain
      ensures failure.None? <==> HasTimes(items) && |items| <= 10 && DistinctIds(items)
      ensures failure.Some? ==> failure.value == if HasTimes(items) then CONSTRAINT_VIOLATED else PERSISTENCE_REFUSED
      ensures failure.None? ==> session.chain == old(session.chain) + ChainRows(id, items, translations)
    {
      for position := 0 to |items|
        invariant HasTimes(items[..position])
        invariant session.chain == old(session.chain) + ChainRows(id, items[..position], translations)
      {
        var item := items[position];
        if item.createdAt.None? {
          return Some(PERSISTENCE_REFUSED);
        }
        ChainRowsSnoc(id, items, position, translations);
        session.chain := session.chain + [ChainRowOf(id, position, item, translations)];
      }
      assert items[..|items|] == items;
      if |items| > 10 || !DistinctIds(items) {
        return Some(CONSTRAINT_VIOLATED);
      }
      return None;
    }
  }

  lemma ChainRowsSnoc(id: nat, items: seq<Item>, n: nat, translations: seq<Translation>)
    requires n < |items| && HasText(items) && HasTimes(items[..n]) && items[n].createdAt.Some?
    ensures HasTimes(items[..n + 1])
    ensures ChainRows(id, items[..n + 1], translations) ==
            ChainRows(id, items[..n], translations) + [ChainRowOf(id, n, items[n], translations)]
  {
  }

  class DownstreamClassificationHandler {
    const session: Session

    constructor (session: Session)
      ensures this.session == session
    {
      this.session := session;
    }

    method Call(key: MessageKey, call: ModelCall, translations: seq<Translation>) returns (r: Result<(), Failure>)
      requires key in session.jobs
      modifies session`jobs, session`questions, session`chain, session`notifications, session.usage
      ensures var spec := Downstream(old(session.Contents()), key, call, translations);
              && (r.Err? <==> spec.Err?)
              && (r.Err? ==> r.error == spec.error)
              && (r.Ok? ==> session.Contents() == spec.value)
    {
      var job := session.jobs[key];
      if job.snapshot.None? {
        return Err(BAD_HANDOFF);
      }
      var c := DeserializeReplyChain(job.snapshot.value);
      if c.None? {
        return Err(BAD_SNAPSHOT);
      }
      if c.value.chatId != key.chatId {
        return Err(BAD_HANDOFF);
      }
      if job.status == AwaitingContext {
        var stage2 := new Stage2ClassificationService(session);
        var classified := stage2.Classify(key, c.value, call);
        return if classified.Ok? then Ok(()) else Err(classified.error);
      }
      if job.status == AwaitingRelevant {
        var persistence := new RelevantQuestionPersistenceService(session);
        r := persistence.Persist(key, c.value, translations);
        return r;
      }
      return Err(BAD_HANDOFF);
    }
  }

  // ----- Workers -----

  /** What both workers do when a handler raises: back to the savepoint, then retry or fail. */
  method Settle(session: Session, key: MessageKey, phase: Phase, failure: Failure, savepoint: Tables, now: int)
    requires key in savepoint.jobs
    modifies session, session.usage
    ensures session.Contents() == Recovered(savepoint, key, phase, failure, now)
  {
    session.Rollback(savepoint);
    var repository := new JobRepository(session);
    var attempts := session.jobs[key].attempts;
    if failure.retryable && MayRetry(attempts) {
      repository.RetryJob(key, Truncated(failure.code), now + RetryDelay(attempts), phase);
    } else {
      repository.FailJob(key, Truncated(failure.code));
    }
  }

  class QueueWorker {
    const session: Session

    constructor (session: Session)
      ensures this.session == session
    {
      this.session := session;
    }

    /** The Stage-1 worker: `call` is what the model does with the claimed message, `key`. */
    method RunOnce(now: int, call: ModelCall) returns (claimed: bool, ghost key: MessageKey)
      modifies session, session.usage
      ensures claimed <==> exists k :: Claimable(old(session.Contents()), k, Stage1Phase, now)
      ensures claimed ==> IsOldestClaimable(old(session.Contents()), key, Stage1Phase, now)
      ensures session.Contents() ==
              if claimed then Pipeline.RunOnce(old(session.Contents()), key, Stage1Input(call), now) else old(session.Contents())
    {
      var repository := new JobRepository(session);
      var next := repository.ClaimNext(Stage1Phase, now);
      if next.None? {
        return false, MessageKey(0, 0);
      }
      key := next.value;
      var savepoint := session.Contents();
      var handler := new Stage1ClassificationHandler(session);
      var r := handler.Call(next.value, call);
      if r.Err? {
        Settle(session, next.value, Stage1Phase, r.error, savepoint, now);
      } else if r.value != RetainRow {
        repository.Complete(next.value);
      }
      return true, key;
    }
  }

  class DownstreamQueueWorker {
    const session: Session

    constructor (session: Session)
      ensures this.session == session
    {
      this.session := session;
    }

    /** The listener's reply-chain worker. */
    method RunReplyChain(now: int, load: ChainLoad) returns (claimed: bool, ghost key: MessageKey)
      modifies session, session.usage
      ensures claimed <==> exists k :: Claimable(old(session.Contents()), k, ReplyChainPhase, now)
      ensures claimed ==> IsOldestClaimable(old(session.Contents()), key, ReplyChainPhase, now)
      ensures session.Contents() ==
              if claimed then Pipeline.RunOnce(old(session.Contents()), key, ChainInput(load), now) else old(session.Contents())
    {
      var repository := new JobRepository(session);
      var next := repository.ClaimNext(ReplyChainPhase, now);
      if next.None? {
        return false, MessageKey(0, 0);
      }
      key := next.value;
      var savepoint := session.Contents();
      var handler := new ReplyChainSnapshotHandler(session);
      var r := handler.Call(next.value, load, now);
      if r.Err? {
        Settle(session, next.value, ReplyChainPhase, r.error, savepoint, now);
      }
      return true, key;
    }

    /** The classifier's downstream worker. */
    method RunDownstream(now: int, call: ModelCall, translations: seq<Translation>)
      returns (claimed: bool, ghost key: MessageKey)
      modifies session, session.usage
      ensures claimed <==> exists k :: Claimable(old(session.Contents()), k, ClassificationPhase, now)
      ensures claimed ==> IsOldestClaimable(old(session.Contents()), key, ClassificationPhase, now)
      ensures session.Contents() ==
              if claimed then Pipeline.RunOnce(old(session.Contents()), key, DownstreamInput(call, translations), now)
              else old(session.Contents())
    {
      var repository := new JobRepository(session);
      var next := repository.ClaimNext(ClassificationPhase, now);
      if next.None? {
        return false, MessageKey(0, 0);
      }
      key := next.value;
      var savepoint := session.Contents();
      var handler := new DownstreamClassificationHandler(session);
      var r := handler.Call(next.value, call, translations);
      if r.Err? {
        Settle(session, next.value, ClassificationPhase, r.error, savepoint, now);
      }
      return true, key;
    }
  }
}
