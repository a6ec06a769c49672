/** What each step of the pipeline writes, row by row and in terms of the rows alone. */
module PipelineOutcomes {
  import opened Wrappers
  import opened Calendar
  import opened ReplyChains
  import opened ReplyChainSnapshots
  import opened UsageAccounting
  import opened Pipeline

  // ----- Rows that stay -----

  /** Only the queue differs. */
  ghost predicate SameBesideQueue(t: Tables, u: Tables) {
    u.usage == t.usage && u.questions == t.questions && u.chain == t.chain && u.notifications == t.notifications
  }

  /** Of the queue only this message's row differs. */
  ghost predicate SameOtherJobs(t: Tables, u: Tables, key: MessageKey) {
    forall k :: k != key ==> (k in u.jobs <==> k in t.jobs) && (k in t.jobs ==> u.jobs[k] == t.jobs[k])
  }

  /** The message's row is now `job`, and nothing else has changed. */
  ghost predicate RowBecomes(t: Tables, u: Tables, key: MessageKey, job: Job) {
    SameBesideQueue(t, u) && SameOtherJobs(t, u, key) && key in u.jobs && u.jobs[key] == job
  }

  // ----- Arrival -----

  /** A new message is queued for Stage 1, due at once; one already queued changes nothing. */
  lemma ArrivalIsWritten(w: World, message: NewJob, now: int)
    ensures var t, r := w.tables, Pipeline.Next(w, Arrive(message, now));
            if message.key in t.jobs then r == w
            else
              && RowBecomes(t, r.tables, message.key, Job(message, now, JobStatus.Pending, 0, now, None, None, None))
              && ClaimsOf(r, message.key) == 0
  {
  }

  // ----- Which runs are worked -----

  /**
   * The row waits for this phase and is due: for Stage 1 new or to be retried, for the other
   * phases classified, with no claim of the last five minutes, and with or without its chain.
   */
  predicate IsDue(t: Tables, key: MessageKey, phase: Phase, now: int) {
    && key in t.jobs
    && var job := t.jobs[key];
    && job.nextAttemptAt <= now
    && match phase
       case Stage1Phase => job.status == JobStatus.Pending || job.status == Retry
       case ReplyChainPhase => IsUnclaimedDownstream(job, now) && job.snapshot.None?
       case ClassificationPhase => IsUnclaimedDownstream(job, now) && job.snapshot.Some?
  }

  predicate IsUnclaimedDownstream(job: Job, now: int) {
    && (job.status == AwaitingRelevant || job.status == AwaitingContext)
    && match job.lockedAt
       case None => true
       case Some(time) => time + 300 < now
  }

  lemma DueMeansClaimable(t: Tables, key: MessageKey, phase: Phase, now: int)
    ensures IsDue(t, key, phase, now) <==> Claimable(t, key, phase, now)
  {
  }

  /** A worker run or a claim on a row that is not due does nothing; on a due row it is counted. */
  lemma OnlyDueRowsAreWorked(w: World, key: MessageKey, i: Input, phase: Phase, now: int)
    ensures !IsDue(w.tables, key, PhaseOf(i), now) ==> Pipeline.Next(w, Work(key, i, now)) == w
    ensures IsDue(w.tables, key, PhaseOf(i), now) ==>
              ClaimsOf(Pipeline.Next(w, Work(key, i, now)), key) == ClaimsOf(w, key) + 1
    ensures !IsDue(w.tables, key, phase, now) ==> Pipeline.Next(w, ClaimOnly(key, phase, now)) == w
  {
    DueMeansClaimable(w.tables, key, PhaseOf(i), now);
    DueMeansClaimable(w.tables, key, phase, now);
  }

  /** The row as a claim leaves it: locked and counted, and for Stage 1 marked as being processed. */
  function Claimed(job: Job, phase: Phase, now: int): Job {
    var counted := job.(attempts := job.attempts + 1, lockedAt := Some(now));
    match phase
    case Stage1Phase => counted.(status := JobStatus.Processing)
    case _ => counted
  }

  lemma ClaimIsWritten(w: World, key: MessageKey, phase: Phase, now: int)
    requires IsDue(w.tables, key, phase, now)
    ensures var r := Pipeline.Next(w, ClaimOnly(key, phase, now));
            r.claims == w.claims && RowBecomes(w.tables, r.tables, key, Claimed(w.tables.jobs[key], phase, now))
  {
  }

  // ----- Runs that raise -----

  /** What a raising run leaves of the row, counting the claim: its code, and when it is tried again, if it is. */
  function AfterFailure(job: Job, phase: Phase, f: Failure, now: int): Job
    requires job.attempts >= 0
  {
    var noted := job.(attempts := job.attempts + 1, lockedAt := None,
                      lastError := Some(if |f.code| > 100 then f.code[..100] else f.code));
    if !f.retryable || job.attempts >= 4 then noted.(status := JobStatus.Failed)
    else
      var again := noted.(nextAttemptAt := now + [15, 60, 300, 1800][job.attempts]);
      if phase == Stage1Phase then again.(status := Retry) else again
  }

  lemma FailureIsWritten(t: Tables, key: MessageKey, i: Input, f: Failure, now: int)
    requires Claimable(t, key, PhaseOf(i), now) && t.jobs[key].attempts >= 0
    requires Handle(Pipeline.Claim(t, key, PhaseOf(i), now), key, i, now) == Err(f)
    ensures RowBecomes(t, Pipeline.RunOnce(t, key, i, now), key, AfterFailure(t.jobs[key], PhaseOf(i), f, now))
  {
  }

  /** A model call that fails in Stage 1, and a chain that cannot be loaded, are written with their own codes. */
  lemma FailedCallIsWritten(w: World, key: MessageKey, f: Failure, now: int)
    requires key in w.tables.jobs && w.tables.jobs[key].attempts >= 0
    ensures IsDue(w.tables, key, Stage1Phase, now) ==>
              RowBecomes(w.tables, Pipeline.Next(w, Work(key, Stage1Input(CallFails(f)), now)).tables, key,
                         AfterFailure(w.tables.jobs[key], Stage1Phase, f, now))
    ensures IsDue(w.tables, key, ReplyChainPhase, now) ==>
              RowBecomes(w.tables, Pipeline.Next(w, Work(key, ChainInput(LoadFails(f)), now)).tables, key,
                         AfterFailure(w.tables.jobs[key], ReplyChainPhase, f, now))
  {
    if IsDue(w.tables, key, Stage1Phase, now) {
      FailureIsWritten(w.tables, key, Stage1Input(CallFails(f)), f, now);
    }
    if IsDue(w.tables, key, ReplyChainPhase, now) {
      FailureIsWritten(w.tables, key, ChainInput(LoadFails(f)), f, now);
    }
  }

  // ----- Recorded runs -----

  /** A run of the message and stage is recorded. */
  predicate AnyRan(u: Usage, key: MessageKey, stage: int) {
    exists i :: 0 <= i < |u.runs| && u.runs[i].key == RunKey(key.chatId, key.messageId, stage)
  }

  /** A run of the message and stage with this verdict is recorded. */
  predicate Ran(u: Usage, key: MessageKey, stage: int, verdict: Verdict) {
    exists i :: 0 <= i < |u.runs| && u.runs[i].key == RunKey(key.chatId, key.messageId, stage) && u.runs[i].verdict == verdict
  }

  lemma {:induction false} FoundRunIsRecorded(runs: seq<Run>, key: RunKey, i: nat)
    requires UniqueKeys(runs) && i < |runs| && runs[i].key == key
    ensures FindRun(runs, key) == Some(runs[i])
  {
    if i < |runs| - 1 {
      FoundRunIsRecorded(runs[..|runs| - 1], key, i);
    }
  }

  /** Looking a verdict up finds exactly what is recorded. */
  lemma VerdictIsRecorded(t: Tables, key: MessageKey, stage: int, verdict: Verdict)
    requires UniqueKeys(t.usage.runs)
    ensures StageVerdict(t, key, stage) == Some(verdict) <==> Ran(t.usage, key, stage, verdict)
    ensures StageVerdict(t, key, stage).Some? <==> AnyRan(t.usage, key, stage)
  {
    var runs, k := t.usage.runs, RunKey(key.chatId, key.messageId, stage);
    if AnyRan(t.usage, key, stage) {
      var i :| 0 <= i < |runs| && runs[i].key == k;
      FoundRunIsRecorded(runs, k, i);
    }
  }

  function AddedTotals(before: Totals, date: Date, model: string, call: ModelCall, cost: int): Totals
    requires call.Answered?
  {
    if date == call.today && model == call.model
    then Totals(before.requests + 1, before.inputTokens + call.inputTokens, before.outputTokens + call.outputTokens,
                before.costMicros + cost)
    else before
  }

  /** The run of a first answer: its verdict and tokens under their own names, counted in the row of its day and model. */
  ghost predicate RunIsAdded(u: Usage, v: Usage, key: MessageKey, stage: int, call: ModelCall)
    requires call.Answered?
  {
    var cost := call.pricing.Estimate(call.inputTokens, call.outputTokens);
    && v.runs == u.runs +
         [Run(RunKey(key.chatId, key.messageId, stage), call.verdict, call.model, call.inputTokens, call.outputTokens, cost)]
    && forall date, model ::
         TotalsAt(v.daily, date, model) == AddedTotals(TotalsAt(u.daily, date, model), date, model, call, cost)
  }

  /** A stage is recorded once: a repeat leaves the run there was. */
  ghost predicate StageIsRecorded(u: Usage, v: Usage, key: MessageKey, stage: int, call: ModelCall)
    requires call.Answered?
  {
    if AnyRan(u, key, stage) then v == u else RunIsAdded(u, v, key, stage, call)
  }

  lemma RecordingIsStored(t: Tables, key: MessageKey, stage: int, call: ModelCall)
    requires call.Answered?
    ensures StageIsRecorded(t.usage, Pipeline.RecordStage(t, key, stage, call).usage, key, stage, call)
  {
    var v, r := Pipeline.RecordStage(t, key, stage, call).usage, ToRecording(key, stage, call);
    var cost := call.pricing.Estimate(call.inputTokens, call.outputTokens);
    forall date, model | !AnyRan(t.usage, key, stage)
      ensures TotalsAt(v.daily, date, model) == AddedTotals(TotalsAt(t.usage.daily, date, model), date, model, call, cost)
    {
      RecordingIsWritten(t.usage, r, date, model);
    }
    RecordingIsWritten(t.usage, r, call.today, call.model);
  }

  lemma RecordingKeepsRunsUnique(t: Tables, key: MessageKey, stage: int, call: ModelCall)
    requires call.Answered? && UniqueKeys(t.usage.runs)
    ensures UniqueKeys(Pipeline.RecordStage(t, key, stage, call).usage.runs)
  {
  }

  lemma WorkKeepsRunsUnique(t: Tables, key: MessageKey, i: Input, now: int)
    requires Claimable(t, key, PhaseOf(i), now) && UniqueKeys(t.usage.runs)
    ensures UniqueKeys(Pipeline.RunOnce(t, key, i, now).usage.runs)
  {
    var claimed := Pipeline.Claim(t, key, PhaseOf(i), now);
    match i
    case Stage1Input(call) => if call.Answered? { RecordingKeepsRunsUnique(claimed, key, 1, call); }
    case DownstreamInput(call, _) => if call.Answered? { RecordingKeepsRunsUnique(claimed, key, 2, call); }
    case _ =>
  }

  /** In every run a message and stage have at most one recorded run. */
  lemma {:induction false} RunsAreUnique(h: seq<Event>)
    ensures UniqueKeys(Pipeline.After(h).tables.usage.runs)
  {
    if h != [] {
      var w, e := Pipeline.After(h[..|h| - 1]), h[|h| - 1];
      RunsAreUnique(h[..|h| - 1]);
      if e.Work? && Claimable(w.tables, e.key, PhaseOf(e.input), e.now) {
        WorkKeepsRunsUnique(w.tables, e.key, e.input, e.now);
      }
    }
  }

  // ----- Stage 1 and chain loading -----

  /** The row released to another phase, with its attempts counted afresh. */
  function Released(job: Job, status: JobStatus): Job {
    job.(status := status, attempts := 0, lockedAt := None, lastError := None)
  }

  /** The message's row is released to the phase its verdict calls for, or deleted. */
  ghost predicate RowFollowsVerdict(t: Tables, u: Tables, key: MessageKey, verdict: Verdict)
    requires key in t.jobs
  {
    && SameOtherJobs(t, u, key)
    && u.questions == t.questions && u.chain == t.chain && u.notifications == t.notifications
    && (key in u.jobs <==> verdict != Irrelevant)
    && (verdict == ContextRequired ==> u.jobs[key] == Released(t.jobs[key], AwaitingContext))
    && (verdict == Relevant ==> u.jobs[key] == Released(t.jobs[key], AwaitingRelevant))
  }

  lemma VerdictIsFollowed(t: Tables, key: MessageKey, phase: Phase, stage: int, call: ModelCall, now: int)
    requires key in t.jobs && call.Answered?
    ensures var recorded := Pipeline.RecordStage(Pipeline.Claim(t, key, phase, now), key, stage, call);
            && RowFollowsVerdict(t, Route(recorded, key, AwaitingContext), key, ContextRequired)
            && RowFollowsVerdict(t, Route(recorded, key, AwaitingRelevant), key, Relevant)
            && RowFollowsVerdict(t, Pipeline.Complete(recorded, key), key, Irrelevant)
            && StageIsRecorded(t.usage, recorded.usage, key, stage, call)
  {
    RecordingIsStored(Pipeline.Claim(t, key, phase, now), key, stage, call);
  }

  /** An answer in Stage 1 is recorded and decides where the row goes. */
  lemma Stage1IsWritten(w: World, key: MessageKey, call: ModelCall, now: int)
    requires IsDue(w.tables, key, Stage1Phase, now) && call.Answered?
    ensures var u := Pipeline.Next(w, Work(key, Stage1Input(call), now)).tables;
            && StageIsRecorded(w.tables.usage, u.usage, key, 1, call)
            && RowFollowsVerdict(w.tables, u, key, call.verdict)
  {
    VerdictIsFollowed(w.tables, key, Stage1Phase, 1, call, now);
  }

  lemma LoadIsStored(t: Tables, key: MessageKey, src: Source, now: int)
    requires Claimable(t, key, ReplyChainPhase, now)
    ensures RowBecomes(t, Pipeline.RunOnce(t, key, ChainInput(Loads(src)), now), key, t.jobs[key].(
              snapshot := Some(SerializeReplyChain(LoadedChain(src, key.chatId, key.messageId))),
              attempts := 0, nextAttemptAt := now, lockedAt := None, lastError := None))
  {
  }

  /** A loaded chain is stored with the row, which is due at once with its attempts counted afresh. */
  lemma LoadIsWritten(w: World, key: MessageKey, src: Source, path: seq<int>, stop: Option<StopReason>, now: int)
    requires IsDue(w.tables, key, ReplyChainPhase, now)
    requires IsBoundedWalk(src, key.chatId, key.messageId, MAX_DEPTH, path, stop)
    ensures var u := Pipeline.Next(w, Work(key, ChainInput(Loads(src)), now)).tables;
            var snapshot := SerializeReplyChain(ChainOf(src, key.chatId, path, stop));
            RowBecomes(w.tables, u, key, w.tables.jobs[key].(
              snapshot := Some(snapshot), attempts := 0, nextAttemptAt := now, lockedAt := None, lastError := None))
  {
    LoadedChainIsTheWalk(src, key.chatId, key.messageId, path, stop);
    LoadIsStored(w.tables, key, src, now);
  }

  // ----- Stage 2 -----

  /** The row is due for its second classification, with this chain of its own chat. */
  ghost predicate AwaitsStage2(t: Tables, key: MessageKey, c: ReplyChain, now: int) {
    && IsDue(t, key, ClassificationPhase, now)
    && t.jobs[key].status == AwaitingContext
    && DeserializeReplyChain(t.jobs[key].snapshot.value) == Some(c)
    && c.chatId == key.chatId
  }

  /** The chain can be put to the model: 1..10 items, with the texts of those available, ending in their only target. */
  ghost predicate CanBeAsked(c: ReplyChain) {
    && 1 <= |c.items| <= 10 && EndsInOnlyTarget(c.items)
    && forall i :: 0 <= i < |c.items| && !c.items[i].isUnavailable ==> c.items[i].text.Some?
  }

  /**
   * What Stage 2 raises, if anything. It asks the model only when Stage 1 required context, no
   * Stage-2 run is recorded and the chain can be put to it, and takes no answer but a final one.
   */
  ghost function Stage2Raises(u: Usage, key: MessageKey, c: ReplyChain, call: ModelCall): Option<Failure> {
    if !Ran(u, key, 1, ContextRequired) || AnyRan(u, key, 2) then Some(Failure("Stage2ClassificationError", true))
    else if !CanBeAsked(c) then Some(Failure("ValueError", true))
    else if call.CallFails? then Some(call.failure)
    else if call.verdict == ContextRequired then Some(Failure("STAGE2_NON_FINAL_RESULT", false))
    else None
  }

  lemma CanBeAskedIsReady(c: ReplyChain)
    ensures CanBeAsked(c) <==> Stage2Ready(c)
  {
    if c.items != [] {
      OneTargetAtEnd(c.items);
    }
  }

  lemma Stage2Outcome(t: Tables, key: MessageKey, c: ReplyChain, call: ModelCall)
    requires key in t.jobs && UniqueKeys(t.usage.runs)
    ensures var raised, r := Stage2Raises(t.usage, key, c, call), Stage2(t, key, c, call);
            if raised.Some? then r == Err(raised.value)
            else
              var recorded := Pipeline.RecordStage(t, key, 2, call);
              r == Ok(if call.verdict == Relevant then Route(recorded, key, AwaitingRelevant) else Pipeline.Complete(recorded, key))
  {
    VerdictIsRecorded(t, key, 1, ContextRequired);
    VerdictIsRecorded(t, key, 2, ContextRequired);
    CanBeAskedIsReady(c);
  }

  lemma Stage2IsDispatched(t: Tables, key: MessageKey, c: ReplyChain, call: ModelCall, translations: seq<Translation>, now: int)
    requires AwaitsStage2(t, key, c, now)
    ensures var claimed := Pipeline.Claim(t, key, ClassificationPhase, now);
            Handle(claimed, key, DownstreamInput(call, translations), now) == Stage2(claimed, key, c, call)
  {
  }

  /** A final verdict is recorded and decides where the row goes. */
  lemma Stage2IsWritten(w: World, key: MessageKey, c: ReplyChain, call: ModelCall, translations: seq<Translation>, now: int)
    requires AwaitsStage2(w.tables, key, c, now) && UniqueKeys(w.tables.usage.runs)
    requires Stage2Raises(w.tables.usage, key, c, call).None?
    ensures var u := Pipeline.Next(w, Work(key, DownstreamInput(call, translations), now)).tables;
            RunIsAdded(w.tables.usage, u.usage, key, 2, call) && RowFollowsVerdict(w.tables, u, key, call.verdict)
  {
    var claimed := Pipeline.Claim(w.tables, key, ClassificationPhase, now);
    Stage2IsDispatched(w.tables, key, c, call, translations, now);
    Stage2Outcome(claimed, key, c, call);
    VerdictIsFollowed(w.tables, key, ClassificationPhase, 2, call, now);
  }

  /** A Stage 2 that raises is written with what it raises, and records nothing. */
  lemma RaisingStage2IsWritten(w: World, key: MessageKey, c: ReplyChain, call: ModelCall, translations: seq<Translation>, now: int)
    requires AwaitsStage2(w.tables, key, c, now) && UniqueKeys(w.tables.usage.runs) && w.tables.jobs[key].attempts >= 0
    requires Stage2Raises(w.tables.usage, key, c, call).Some?
    ensures var u := Pipeline.Next(w, Work(key, DownstreamInput(call, translations), now)).tables;
            var raised := Stage2Raises(w.tables.usage, key, c, call).value;
            RowBecomes(w.tables, u, key, AfterFailure(w.tables.jobs[key], ClassificationPhase, raised, now))
  {
    var claimed := Pipeline.Claim(w.tables, key, ClassificationPhase, now);
    Stage2IsDispatched(w.tables, key, c, call, translations, now);
    Stage2Outcome(claimed, key, c, call);
    FailureIsWritten(w.tables, key, DownstreamInput(call, translations), Stage2Raises(w.tables.usage, key, c, call).value, now);
  }

  // ----- Persistence -----

  /** `at` lists, in order, the places of the items that are available. */
  ghost predicate AreAvailable(items: seq<Item>, at: seq<nat>) {
    && (forall p :: 0 <= p < |at| ==> at[p] < |items| && !items[at[p]].isUnavailable)
    && (forall p, r :: 0 <= p < r < |at| ==> at[p] < at[r])
    && (forall i :: 0 <= i < |items| && !items[i].isUnavailable ==> i in at)
  }

  lemma AvailableInit(items: seq<Item>, at: seq<nat>)
    requires items != [] && AreAvailable(items, at)
    ensures items[|items| - 1].isUnavailable ==> AreAvailable(items[..|items| - 1], at)
    ensures !items[|items| - 1].isUnavailable ==>
              at != [] && at[|at| - 1] == |items| - 1 && AreAvailable(items[..|items| - 1], at[..|at| - 1])
  {
    var init, last := items[..|items| - 1], |items| - 1;
    if !items[last].isUnavailable {
      assert last in at;
      var front := at[..|at| - 1];
      forall i | 0 <= i < |init| && !init[i].isUnavailable ensures i in front {
        var p :| 0 <= p < |at| && at[p] == i;
        assert front[p] == i;
      }
    }
  }

  lemma NoPlaces(at: seq<nat>, size: nat)
    requires forall p :: 0 <= p < |at| ==> at[p] < size
    ensures size == 0 ==> at == []
  {
    if at != [] {
      var first := at[0];
    }
  }

  /** `kept` are the items at these places. */
  ghost predicate AreAt(kept: seq<Item>, items: seq<Item>, at: seq<nat>) {
    |kept| == |at| && forall p :: 0 <= p < |at| ==> at[p] < |items| && kept[p] == items[at[p]]
  }

  lemma AreAtStill(kept: seq<Item>, items: seq<Item>, at: seq<nat>)
    requires items != [] && AreAt(kept, items[..|items| - 1], at)
    ensures AreAt(kept, items, at)
  {
  }

  lemma AreAtWithLast(kept: seq<Item>, items: seq<Item>, at: seq<nat>)
    requires items != [] && at != [] && at[|at| - 1] == |items| - 1
    requires AreAt(kept, items[..|items| - 1], at[..|at| - 1])
    ensures AreAt(kept + [items[|items| - 1]], items, at)
  {
    AreAtStill(kept, items, at[..|at| - 1]);
    forall p | 0 <= p < |at| ensures at[p] < |items| && (kept + [items[|items| - 1]])[p] == items[at[p]] {
      assert p < |at| - 1 ==> at[p] == at[..|at| - 1][p];
    }
  }

  /** The chosen items are exactly those, in order. */
  lemma {:induction false} ChosenAreAvailable(items: seq<Item>, at: seq<nat>)
    requires AreAvailable(items, at)
    ensures AreAt(Available(items), items, at)
  {
    if items == [] {
      NoPlaces(at, |items|);
    } else {
      var init := items[..|items| - 1];
      AvailableInit(items, at);
      if items[|items| - 1].isUnavailable {
        ChosenAreAvailable(init, at);
        AreAtStill(Available(init), items, at);
        assert Available(init) + [] == Available(init);
      } else {
        ChosenAreAvailable(init, at[..|at| - 1]);
        AreAtWithLast(Available(init), items, at);
      }
    }
  }

  lemma {:induction false} TargetsAreMarked(items: seq<Item>)
    ensures forall i :: 0 <= i < |items| && items[i].isTarget ==> items[i] in Targets(items)
    ensures forall x :: x in Targets(items) ==> x in items && x.isTarget
  {
    if items != [] {
      TargetsAreMarked(items[..|items| - 1]);
    }
  }

  /** The `p`th translation, or a failed one when the call for it gave none. */
  function TranslationFor(translations: seq<Translation>, p: nat): Translation {
    if |translations| > p then translations[p] else Translation(None, None, "failed")
  }

  /** The row shows this item of the chain, with its own translation, at this place of the question. */
  ghost predicate Shows(row: ChainRow, q: nat, p: nat, item: Item, translation: Translation) {
    && row.question == q && row.position == p
    && row.messageId == item.messageId && row.replyTo == item.replyTo
    && row.authorId == item.authorId && row.authorName == item.authorName
    && Some(row.createdAt) == item.createdAt && Some(row.text) == item.text
    && row.isTarget == item.isTarget
    && row.translation == translation
  }

  /** Rows `t` has are kept; the rows added show the available items in order, each with its own translation. */
  ghost predicate ChainIsAdded(t: Tables, u: Tables, items: seq<Item>, at: seq<nat>, translations: seq<Translation>)
    requires AreAvailable(items, at)
  {
    && |u.chain| == |t.chain| + |at| && u.chain[..|t.chain|] == t.chain
    && forall p: nat :: p < |at| ==>
         Shows(u.chain[|t.chain| + p], |t.questions|, p, items[at[p]], TranslationFor(translations, p))
  }

  /**
   * One question is added: the job's message, in its chat, under the chain's topic if that is known
   * and else the message's, with the chain's topic title, the latest relevant stage, and the
   * translation of its own row in the chain, the one marked as the target.
   */
  ghost predicate QuestionIsAdded(t: Tables, u: Tables, key: MessageKey, c: ReplyChain)
    requires key in t.jobs && |u.chain| >= |t.chain|
  {
    var message := t.jobs[key].message;
    && |u.questions| == |t.questions| + 1 && u.questions[..|t.questions|] == t.questions
    && (var q := u.questions[|t.questions|];
        && q.message == message
        && q.chat == Some(message.monitoredChat)
        && q.topicId == (match c.topicId case Some(id) => Some(id) case None => message.topicId)
        && q.topicTitle == c.topicTitle
        && q.stage == (if Ran(t.usage, key, 2, Relevant) then 2 else 1)
        && Ran(t.usage, key, q.stage, Relevant)
        && exists p :: |t.chain| <= p < |u.chain| && u.chain[p].isTarget && u.chain[p].messageId == key.messageId
                       && q.translation == u.chain[p].translation)
  }

  /** The message's row has given way to a question with its chain and one notification. */
  ghost predicate IsPersisted(t: Tables, u: Tables, key: MessageKey, c: ReplyChain, translations: seq<Translation>, at: seq<nat>)
    requires key in t.jobs && AreAvailable(c.items, at)
  {
    && u.jobs == t.jobs - {key} && u.usage == t.usage
    && ChainIsAdded(t, u, c.items, at, translations)
    && QuestionIsAdded(t, u, key, c)
    && u.notifications == t.notifications + [|t.questions|]
  }

  lemma StageIsLatest(t: Tables, key: MessageKey)
    requires UniqueKeys(t.usage.runs) && RelevantStage(t, key).Some?
    ensures RelevantStage(t, key).value == if Ran(t.usage, key, 2, Relevant) then 2 else 1
    ensures Ran(t.usage, key, RelevantStage(t, key).value, Relevant)
  {
    VerdictIsRecorded(t, key, 1, Relevant);
    VerdictIsRecorded(t, key, 2, Relevant);
  }

  /** What success leaves, in the words of the handler. */
  lemma PersistedForm(t: Tables, key: MessageKey, c: ReplyChain, translations: seq<Translation>)
    requires key in t.jobs && !HasQuestion(t, key) && Persist(t, key, c, translations).Ok?
    ensures var u, items, targets := Persist(t, key, c, translations).value, Available(c.items), Targets(c.items);
            && RelevantStage(t, key).Some? && |targets| == 1 && targets[0].messageId == key.messageId
            && HasText(items) && HasTimes(items) && targets[0] in items
            && u.jobs == t.jobs - {key} && u.usage == t.usage
            && u.questions == t.questions + [DetectedRowOf(t.jobs[key].message, c,
                 TranslationAt(translations, IndexOf(items, targets[0])), RelevantStage(t, key).value)]
            && u.chain == t.chain + ChainRows(|t.questions|, items, translations)
            && u.notifications == t.notifications + [|t.questions|]
  {
  }

  lemma RowsShowItems(q: nat, items: seq<Item>, at: seq<nat>, kept: seq<Item>, translations: seq<Translation>, p: nat)
    requires AreAvailable(items, at) && AreAt(kept, items, at) && HasText(kept) && HasTimes(kept) && p < |at|
    ensures Shows(ChainRows(q, kept, translations)[p], q, p, items[at[p]], TranslationFor(translations, p))
  {
  }

  lemma AppendedRow<T>(before: seq<T>, added: seq<T>, p: nat)
    requires p < |added|
    ensures (before + added)[|before| + p] == added[p]
  {
  }

  lemma PersistedChain(t: Tables, key: MessageKey, c: ReplyChain, translations: seq<Translation>, at: seq<nat>)
    requires key in t.jobs && !HasQuestion(t, key) && Persist(t, key, c, translations).Ok?
    requires AreAvailable(c.items, at)
    ensures ChainIsAdded(t, Persist(t, key, c, translations).value, c.items, at, translations)
  {
    var u, items := Persist(t, key, c, translations).value, Available(c.items);
    PersistedForm(t, key, c, translations);
    ChosenAreAvailable(c.items, at);
    var rows := ChainRows(|t.questions|, items, translations);
    forall p: nat | p < |at|
      ensures Shows(u.chain[|t.chain| + p], |t.questions|, p, c.items[at[p]], TranslationFor(translations, p))
    {
      AppendedRow(t.chain, rows, p);
      RowsShowItems(|t.questions|, c.items, at, items, translations, p);
    }
  }

  lemma PersistedQuestion(t: Tables, key: MessageKey, c: ReplyChain, translations: seq<Translation>)
    requires key in t.jobs && !HasQuestion(t, key) && Persist(t, key, c, translations).Ok?
    requires UniqueKeys(t.usage.runs)
    ensures |Persist(t, key, c, translations).value.chain| >= |t.chain|
    ensures QuestionIsAdded(t, Persist(t, key, c, translations).value, key, c)
  {
    var u, items, target := Persist(t, key, c, translations).value, Available(c.items), Targets(c.items)[0];
    PersistedForm(t, key, c, translations);
    StageIsLatest(t, key);
    TargetsAreMarked(c.items);
    assert target in Targets(c.items);
    var p := IndexOf(items, target);
    AppendedRow(t.chain, ChainRows(|t.questions|, items, translations), p);
    assert u.chain[|t.chain| + p] == ChainRowOf(|t.questions|, p, target, translations);
  }

  /**
   * Persisting a message that has no question yet adds one question, its chain with every item's own
   * text, author, time, reply link and translation, and one notification, and deletes the row;
   * persisting one that has a question deletes the row alone.
   */
  lemma PersistenceIsWritten(t: Tables, key: MessageKey, c: ReplyChain, translations: seq<Translation>, at: seq<nat>)
    requires key in t.jobs && UniqueKeys(t.usage.runs) && AreAvailable(c.items, at)
    requires Persist(t, key, c, translations).Ok?
    ensures var u := Persist(t, key, c, translations).value;
            && u.jobs == t.jobs - {key} && u.usage == t.usage
            && (if exists q :: 0 <= q < |t.questions| && t.questions[q].message.key == key
                then SameBesideQueue(t, u) else IsPersisted(t, u, key, c, translations, at))
  {
    if !HasQuestion(t, key) {
      PersistedForm(t, key, c, translations);
      PersistedChain(t, key, c, translations, at);
      PersistedQuestion(t, key, c, translations);
    }
  }

  lemma SamePlaces(items: seq<Item>, before: seq<nat>)
    requires items != [] && items[|items| - 1].isUnavailable && AreAvailable(items[..|items| - 1], before)
    ensures AreAvailable(items, before)
  {
    var init := items[..|items| - 1];
    forall i | 0 <= i < |items| && !items[i].isUnavailable ensures i in before {
      assert items[i] == init[i];
    }
  }

  lemma OneMorePlace(items: seq<Item>, before: seq<nat>)
    requires items != [] && !items[|items| - 1].isUnavailable && AreAvailable(items[..|items| - 1], before)
    ensures AreAvailable(items, before + [|items| - 1])
  {
    var init, at := items[..|items| - 1], before + [|items| - 1];
    forall p | 0 <= p < |at| ensures at[p] < |items| && !items[at[p]].isUnavailable {
      assert p < |before| ==> items[before[p]] == init[before[p]];
    }
    forall i | 0 <= i < |items| && !items[i].isUnavailable ensures i in at {
      if i < |init| {
        assert items[i] == init[i];
        assert i in before;
      } else {
        assert at[|before|] == i;
      }
    }
  }

  /** Every chain has such places. */
  lemma {:induction false} PlacesExist(items: seq<Item>) returns (at: seq<nat>)
    ensures AreAvailable(items, at)
  {
    at := [];
    if items != [] {
      at := PlacesExist(items[..|items| - 1]);
      if items[|items| - 1].isUnavailable {
        SamePlaces(items, at);
      } else {
        OneMorePlace(items, at);
        at := at + [|items| - 1];
      }
    }
  }

  // ----- When persistence raises -----

  /** Item `i` is marked as the target, and no other item is. */
  ghost predicate IsOnlyTarget(items: seq<Item>, i: nat) {
    i < |items| && items[i].isTarget && forall j :: 0 <= j < |items| && items[j].isTarget ==> j == i
  }

  lemma {:induction false} NoTargets(items: seq<Item>)
    ensures Targets(items) == [] <==> forall i :: 0 <= i < |items| ==> !items[i].isTarget
  {
    if items != [] {
      NoTargets(items[..|items| - 1]);
    }
  }

  lemma {:induction false} OnlyTargetIsFound(items: seq<Item>, i: nat)
    requires IsOnlyTarget(items, i)
    ensures Targets(items) == [items[i]]
  {
    var init := items[..|items| - 1];
    if i == |items| - 1 {
      NoTargets(init);
    } else {
      OnlyTargetIsFound(init, i);
    }
  }

  lemma {:induction false} SoleTargetIsOnly(items: seq<Item>) returns (i: nat)
    requires |Targets(items)| == 1
    ensures IsOnlyTarget(items, i) && Targets(items) == [items[i]]
  {
    var init, last := items[..|items| - 1], |items| - 1;
    if items[last].isTarget {
      NoTargets(init);
      i := last;
    } else {
      i := SoleTargetIsOnly(init);
    }
  }

  lemma {:induction false} AvailableItems(items: seq<Item>, x: Item)
    ensures x in Available(items) <==> x in items && !x.isUnavailable
  {
    if items != [] {
      AvailableItems(items[..|items| - 1], x);
    }
  }

  ghost predicate HasTarget(items: seq<Item>, id: int) {
    exists i: nat :: IsOnlyTarget(items, i) && items[i].messageId == id
  }

  ghost predicate LacksText(items: seq<Item>) {
    exists x :: x in items && !x.isUnavailable && x.text.None?
  }

  ghost predicate LacksTime(items: seq<Item>) {
    exists x :: x in items && !x.isUnavailable && x.createdAt.None?
  }

  ghost predicate TargetIsUnavailable(items: seq<Item>) {
    exists x :: x in items && x.isTarget && x.isUnavailable
  }

  const REFUSED := Failure("RelevantQuestionPersistenceError", true)

  /**
   * What persistence raises, if anything, for a message without a question: it needs a relevant run,
   * the message itself as the chain's only target, which must be available, and available items
   * complete with text and time, at most ten and all different.
   */
  ghost function PersistRaises(u: Usage, key: MessageKey, c: ReplyChain): Option<Failure> {
    if !Ran(u, key, 1, Relevant) && !Ran(u, key, 2, Relevant) then Some(REFUSED)
    else if !HasTarget(c.items, key.messageId) then Some(REFUSED)
    else if LacksText(c.items) then Some(REFUSED)
    else if TargetIsUnavailable(c.items) then Some(Failure("ValueError", true))
    else if LacksTime(c.items) then Some(REFUSED)
    else if !AtMostTen(c.items) || !AllDifferent(c.items) then Some(Failure("IntegrityError", true))
    else None
  }

  ghost predicate AtMostTen(items: seq<Item>) {
    forall at :: AreAvailable(items, at) ==> |at| <= 10
  }

  lemma RelevantStageIsRecorded(t: Tables, key: MessageKey)
    requires UniqueKeys(t.usage.runs)
    ensures RelevantStage(t, key).Some? <==> Ran(t.usage, key, 1, Relevant) || Ran(t.usage, key, 2, Relevant)
  {
    VerdictIsRecorded(t, key, 1, Relevant);
    VerdictIsRecorded(t, key, 2, Relevant);
  }

  lemma TargetIsTheMessage(items: seq<Item>, id: int)
    ensures (|Targets(items)| == 1 && Targets(items)[0].messageId == id) <==> HasTarget(items, id)
    ensures |Targets(items)| == 1 ==> (Targets(items)[0] in Available(items) <==> !TargetIsUnavailable(items))
  {
    if |Targets(items)| == 1 {
      var i := SoleTargetIsOnly(items);
      AvailableItems(items, items[i]);
    }
    forall i: nat | IsOnlyTarget(items, i) ensures Targets(items) == [items[i]] {
      OnlyTargetIsFound(items, i);
    }
  }

  lemma ItemsAreComplete(items: seq<Item>)
    ensures HasText(Available(items)) <==> !LacksText(items)
    ensures HasTimes(Available(items)) <==> !LacksTime(items)
  {
    forall x ensures x in Available(items) <==> x in items && !x.isUnavailable {
      AvailableItems(items, x);
    }
  }

  lemma PlacesAreUnique(items: seq<Item>)
    ensures AtMostTen(items) <==> |Available(items)| <= 10
  {
    var at := PlacesExist(items);
    ChosenAreAvailable(items, at);
    forall other | AreAvailable(items, other) ensures |other| == |Available(items)| {
      ChosenAreAvailable(items, other);
    }
  }

  ghost predicate AllDifferent(items: seq<Item>) {
    forall i, j :: 0 <= i < j < |items| && !items[i].isUnavailable && !items[j].isUnavailable ==>
      items[i].messageId != items[j].messageId
  }

  lemma DifferentItems(items: seq<Item>)
    ensures DistinctIds(Available(items)) <==> AllDifferent(items)
  {
    var at := PlacesExist(items);
    ChosenAreAvailable(items, at);
    var kept := Available(items);
    if DistinctIds(kept) {
      forall i, j | 0 <= i < j < |items| && !items[i].isUnavailable && !items[j].isUnavailable
        ensures items[i].messageId != items[j].messageId
      {
        var p :| 0 <= p < |at| && at[p] == i;
        var r :| 0 <= r < |at| && at[r] == j;
        assert p < r && kept[p] == items[i] && kept[r] == items[j];
      }
    }
  }

  /** Persistence raises exactly so. */
  lemma PersistOutcome(t: Tables, key: MessageKey, c: ReplyChain, translations: seq<Translation>)
    requires key in t.jobs && UniqueKeys(t.usage.runs) && !HasQuestion(t, key)
    ensures var raised, r := PersistRaises(t.usage, key, c), Persist(t, key, c, translations);
            if raised.Some? then r == Err(raised.value) else r.Ok?
  {
    RelevantStageIsRecorded(t, key);
    TargetIsTheMessage(c.items, key.messageId);
    ItemsAreComplete(c.items);
    PlacesAreUnique(c.items);
    DifferentItems(c.items);
  }

  // ----- The persistence run -----

  /** The row is due for persistence, with this chain of its own chat. */
  ghost predicate AwaitsPersistence(t: Tables, key: MessageKey, c: ReplyChain, now: int) {
    && IsDue(t, key, ClassificationPhase, now)
    && t.jobs[key].status == AwaitingRelevant
    && DeserializeReplyChain(t.jobs[key].snapshot.value) == Some(c)
    && c.chatId == key.chatId
  }

  lemma PersistenceIsDispatched(t: Tables, key: MessageKey, c: ReplyChain, call: ModelCall, translations: seq<Translation>, now: int)
    requires AwaitsPersistence(t, key, c, now)
    ensures var claimed := Pipeline.Claim(t, key, ClassificationPhase, now);
            Handle(claimed, key, DownstreamInput(call, translations), now) == Persist(claimed, key, c, translations)
  {
  }

  lemma PersistenceRuns(w: World, key: MessageKey, c: ReplyChain, call: ModelCall, translations: seq<Translation>, now: int)
    requires AwaitsPersistence(w.tables, key, c, now)
    requires Persist(Pipeline.Claim(w.tables, key, ClassificationPhase, now), key, c, translations).Ok?
    ensures Pipeline.Next(w, Work(key, DownstreamInput(call, translations), now)).tables ==
            Persist(Pipeline.Claim(w.tables, key, ClassificationPhase, now), key, c, translations).value
  {
    PersistenceIsDispatched(w.tables, key, c, call, translations, now);
    DueMeansClaimable(w.tables, key, ClassificationPhase, now);
  }

  lemma ClaimChangesOnlyWorkflow(t: Tables, key: MessageKey, now: int)
    requires key in t.jobs
    ensures var claimed := Pipeline.Claim(t, key, ClassificationPhase, now);
            && SameBesideQueue(t, claimed) && claimed.jobs - {key} == t.jobs - {key}
            && claimed.jobs[key].message == t.jobs[key].message
  {
  }

  /** What persistence adds does not depend on the claim. */
  lemma OnlyTheMessageMatters(
    t: Tables, claimed: Tables, u: Tables, key: MessageKey, c: ReplyChain, translations: seq<Translation>, at: seq<nat>
  )
    requires key in t.jobs && key in claimed.jobs && claimed.jobs[key].message == t.jobs[key].message
    requires SameBesideQueue(t, claimed) && AreAvailable(c.items, at)
    requires ChainIsAdded(claimed, u, c.items, at, translations) && QuestionIsAdded(claimed, u, key, c)
    ensures ChainIsAdded(t, u, c.items, at, translations) && QuestionIsAdded(t, u, key, c)
  {
  }

  lemma ClaimedPersistence(t: Tables, key: MessageKey, c: ReplyChain, translations: seq<Translation>, at: seq<nat>, now: int)
    requires key in t.jobs && UniqueKeys(t.usage.runs) && !HasQuestion(t, key)
    requires PersistRaises(t.usage, key, c).None? && AreAvailable(c.items, at)
    ensures var r := Persist(Pipeline.Claim(t, key, ClassificationPhase, now), key, c, translations);
            r.Ok? && IsPersisted(t, r.value, key, c, translations, at)
  {
    var claimed := Pipeline.Claim(t, key, ClassificationPhase, now);
    ClaimChangesOnlyWorkflow(t, key, now);
    PersistOutcome(claimed, key, c, translations);
    PersistenceIsWritten(claimed, key, c, translations, at);
    OnlyTheMessageMatters(t, claimed, Persist(claimed, key, c, translations).value, key, c, translations, at);
  }

  /** A run that persists a message adds its question, chain and notification and deletes its row. */
  lemma QuestionIsWritten(
    w: World, key: MessageKey, c: ReplyChain, call: ModelCall, translations: seq<Translation>, at: seq<nat>, now: int
  )
    requires AwaitsPersistence(w.tables, key, c, now) && UniqueKeys(w.tables.usage.runs)
    requires !HasQuestion(w.tables, key) && PersistRaises(w.tables.usage, key, c).None? && AreAvailable(c.items, at)
    ensures var u := Pipeline.Next(w, Work(key, DownstreamInput(call, translations), now)).tables;
            IsPersisted(w.tables, u, key, c, translations, at)
  {
    ClaimedPersistence(w.tables, key, c, translations, at, now);
    PersistenceRuns(w, key, c, call, translations, now);
  }

  /** A run whose persistence raises adds nothing. */
  lemma RaisingPersistenceIsWritten(w: World, key: MessageKey, c: ReplyChain, call: ModelCall, translations: seq<Translation>, now: int)
    requires AwaitsPersistence(w.tables, key, c, now) && UniqueKeys(w.tables.usage.runs) && w.tables.jobs[key].attempts >= 0
    requires !HasQuestion(w.tables, key) && PersistRaises(w.tables.usage, key, c).Some?
    ensures var u := Pipeline.Next(w, Work(key, DownstreamInput(call, translations), now)).tables;
            var raised := PersistRaises(w.tables.usage, key, c).value;
            RowBecomes(w.tables, u, key, AfterFailure(w.tables.jobs[key], ClassificationPhase, raised, now))
  {
    var claimed := Pipeline.Claim(w.tables, key, ClassificationPhase, now);
    PersistenceIsDispatched(w.tables, key, c, call, translations, now);
    PersistOutcome(claimed, key, c, translations);
    FailureIsWritten(w.tables, key, DownstreamInput(call, translations), PersistRaises(w.tables.usage, key, c).value, now);
  }

  /** A message that has its question already only loses its row. */
  lemma RepeatedPersistenceIsWritten(w: World, key: MessageKey, c: ReplyChain, call: ModelCall, translations: seq<Translation>, now: int)
    requires AwaitsPersistence(w.tables, key, c, now)
    requires exists q :: 0 <= q < |w.tables.questions| && w.tables.questions[q].message.key == key
    ensures var u := Pipeline.Next(w, Work(key, DownstreamInput(call, translations), now)).tables;
            u.jobs == w.tables.jobs - {key} && SameBesideQueue(w.tables, u)
  {
    assert HasQuestion(Pipeline.Claim(w.tables, key, ClassificationPhase, now), key);
    ClaimChangesOnlyWorkflow(w.tables, key, now);
    PersistenceRuns(w, key, c, call, translations, now);
  }

  /** A snapshot that cannot be read is tried again; one of another chat fails the row for good. */
  lemma BadHandoffIsWritten(w: World, key: MessageKey, call: ModelCall, translations: seq<Translation>, now: int)
    requires IsDue(w.tables, key, ClassificationPhase, now) && w.tables.jobs[key].attempts >= 0
    ensures var u := Pipeline.Next(w, Work(key, DownstreamInput(call, translations), now)).tables;
            var c := DeserializeReplyChain(w.tables.jobs[key].snapshot.value);
            && (c.None? ==>
                  RowBecomes(w.tables, u, key,
                             AfterFailure(w.tables.jobs[key], ClassificationPhase, Failure("ValidationError", true), now)))
            && (c.Some? && c.value.chatId != key.chatId ==>
                  RowBecomes(w.tables, u, key,
                             AfterFailure(w.tables.jobs[key], ClassificationPhase, Failure("INVALID_DOWNSTREAM_HANDOFF", false), now)))
  {
    var c := DeserializeReplyChain(w.tables.jobs[key].snapshot.value);
    if c.None? {
      FailureIsWritten(w.tables, key, DownstreamInput(call, translations), Failure("ValidationError", true), now);
    } else if c.value.chatId != key.chatId {
      FailureIsWritten(w.tables, key, DownstreamInput(call, translations), Failure("INVALID_DOWNSTREAM_HANDOFF", false), now);
    }
  }

  // ----- Stale claims, removed chats and old rows -----

  /** Stage-1 claims made before the cutoff are to be retried at once; younger claims and all else stay. */
  lemma RecoveryIsWritten(w: World, cutoff: int, now: int)
    ensures var t, r := w.tables, Pipeline.Next(w, Recover(cutoff, now));
            && r.claims == w.claims && SameBesideQueue(t, r.tables) && r.tables.jobs.Keys == t.jobs.Keys
            && forall key :: key in t.jobs ==>
                 var job := t.jobs[key];
                 r.tables.jobs[key] ==
                 match job.lockedAt
                 case None => job
                 case Some(time) =>
                   if job.status == JobStatus.Processing && time < cutoff
                   then job.(status := Retry, nextAttemptAt := now, lockedAt := None, lastError := Some("STALE_LOCK_RECOVERED"))
                   else job
  {
  }

  /** Removing a chat deletes exactly its rows and detaches exactly its questions, which keep all else. */
  lemma RemovalIsWritten(w: World, chat: int)
    ensures var t, u := w.tables, Pipeline.Next(w, RemoveChat(chat)).tables;
            && u.usage == t.usage && u.chain == t.chain && u.notifications == t.notifications
            && (forall key :: key in u.jobs <==> key in t.jobs && t.jobs[key].message.monitoredChat != chat)
            && (forall key :: key in u.jobs ==> u.jobs[key] == t.jobs[key])
            && |u.questions| == |t.questions|
            && forall q :: 0 <= q < |t.questions| ==>
                 u.questions[q] == t.questions[q].(chat := if t.questions[q].chat == Some(chat) then None else t.questions[q].chat)
  {
  }

  /** A cleanup deletes, of its batch, exactly the rows more than a day old or beyond the configured age. */
  lemma CleanupIsWritten(w: World, now: int, ttl: int, batch: set<MessageKey>)
    ensures var t, u := w.tables, Pipeline.Next(w, Cleanup(now, ttl, batch)).tables;
            && SameBesideQueue(t, u)
            && (forall key :: key in u.jobs <==>
                  key in t.jobs
                  && !(key in batch && (now - t.jobs[key].createdAt > 24 * 60 * 60 || now - t.jobs[key].createdAt > ttl)))
            && (forall key :: key in u.jobs ==> u.jobs[key] == t.jobs[key])
  {
  }
}
