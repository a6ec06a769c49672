/** For messages enqueued once, the guards between the phases never fire. */
module PipelineHandoff {
  import opened Wrappers
  import Calendar
  import opened ReplyChains
  import opened ReplyChainSnapshots
  import opened UsageAccounting
  import opened Pipeline
  import opened PipelineTermination
  import opened PipelineSafety

  /** No run of either stage is recorded for the message. */
  predicate Unclassified(t: Tables, key: MessageKey) {
    StageVerdict(t, key, 1).None? && StageVerdict(t, key, 2).None?
  }

  /** A row's status goes with the runs recorded for its message. */
  ghost predicate Agrees(t: Tables, key: MessageKey)
    requires key in t.jobs
  {
    match t.jobs[key].status
    case Pending => Unclassified(t, key) && !HasQuestion(t, key)
    case Processing => Unclassified(t, key) && !HasQuestion(t, key)
    case Retry => Unclassified(t, key) && !HasQuestion(t, key)
    case AwaitingContext =>
      StageVerdict(t, key, 1) == Some(ContextRequired) && StageVerdict(t, key, 2).None? && !HasQuestion(t, key)
    case AwaitingRelevant => RelevantStage(t, key).Some? && !HasQuestion(t, key)
    case Failed => true
  }

  ghost predicate AllAgree(t: Tables) {
    forall key :: key in t.jobs ==> Agrees(t, key)
  }

  /** A question exists only for a message some run found relevant. */
  ghost predicate QuestionsRelevant(t: Tables) {
    forall q :: 0 <= q < |t.questions| ==> RelevantStage(t, t.questions[q].message.key).Some?
  }

  /** Messages are enqueued only while no run is recorded for them. */
  ghost predicate FirstTime(h: seq<Event>) {
    h == [] || (FirstTime(h[..|h| - 1]) && ArrivesUnclassified(Pipeline.After(h[..|h| - 1]), h[|h| - 1]))
  }

  ghost predicate ArrivesUnclassified(w: World, e: Event) {
    e.Arrive? && e.message.key !in w.tables.jobs ==> Unclassified(w.tables, e.message.key)
  }

  // ----- What one run changes -----

  /** Recording a stage sets that stage's verdict if there was none, and no other. */
  lemma VerdictAfterRecord(t: Tables, key: MessageKey, stage: int, call: ModelCall, other: MessageKey, s: int)
    requires call.Answered?
    ensures StageVerdict(RecordStage(t, key, stage, call), other, s) ==
            if other == key && s == stage && StageVerdict(t, key, stage).None? then Some(call.verdict)
            else StageVerdict(t, other, s)
  {
  }

  ghost predicate SameFacts(t: Tables, u: Tables, key: MessageKey) {
    && StageVerdict(u, key, 1) == StageVerdict(t, key, 1)
    && StageVerdict(u, key, 2) == StageVerdict(t, key, 2)
    && (HasQuestion(u, key) <==> HasQuestion(t, key))
  }

  lemma HasQuestionSnoc(t: Tables, u: Tables, row: DetectedRow, key: MessageKey)
    requires u.questions == t.questions + [row]
    ensures HasQuestion(u, key) <==> HasQuestion(t, key) || row.message.key == key
  {
    assert u.questions[|t.questions|] == row;
    if HasQuestion(t, key) {
      QuestionStays(t, u, key);
    }
  }

  lemma FactsAreOfRunsAndQuestions(t: Tables, u: Tables, key: MessageKey)
    requires u.usage == t.usage && u.questions == t.questions
    ensures SameFacts(t, u, key)
  {
  }

  lemma SameFactsTransitive(t: Tables, u: Tables, v: Tables, key: MessageKey)
    requires SameFacts(t, u, key) && SameFacts(u, v, key)
    ensures SameFacts(t, v, key)
  {
  }

  lemma RecordingKeepsOthers(t: Tables, key: MessageKey, stage: int, call: ModelCall, other: MessageKey)
    requires call.Answered? && other != key
    ensures SameFacts(t, RecordStage(t, key, stage, call), other)
  {
  }

  /** A worker run records nothing about other messages. */
  lemma PersistKeepsOthers(t: Tables, key: MessageKey, c: ReplyChain, translations: seq<Translation>, other: MessageKey)
    requires key in t.jobs && t.jobs[key].message.key == key && other != key && Persist(t, key, c, translations).Ok?
    ensures SameFacts(t, Persist(t, key, c, translations).value, other)
  {
    if !HasQuestion(t, key) {
      var u := Persist(t, key, c, translations).value;
      HasQuestionSnoc(t, u, u.questions[|t.questions|], other);
    }
  }

  lemma Stage2Form(t: Tables, key: MessageKey, c: ReplyChain, call: ModelCall)
    requires key in t.jobs && Stage2(t, key, c, call).Ok?
    ensures call.Answered?
    ensures var u, recorded := Stage2(t, key, c, call).value, RecordStage(t, key, 2, call);
            u.usage == recorded.usage && u.questions == recorded.questions
  {
  }

  lemma Stage2KeepsOthers(t: Tables, key: MessageKey, c: ReplyChain, call: ModelCall, other: MessageKey)
    requires key in t.jobs && other != key && Stage2(t, key, c, call).Ok?
    ensures SameFacts(t, Stage2(t, key, c, call).value, other)
  {
    Stage2Form(t, key, c, call);
    RecordingKeepsOthers(t, key, 2, call, other);
    FactsAreOfRunsAndQuestions(RecordStage(t, key, 2, call), Stage2(t, key, c, call).value, other);
    SameFactsTransitive(t, RecordStage(t, key, 2, call), Stage2(t, key, c, call).value, other);
  }

  /** What succeeds downstream is one of the two services, on the chain the row carries. */
  lemma DownstreamForm(t: Tables, key: MessageKey, call: ModelCall, translations: seq<Translation>)
    requires key in t.jobs && Downstream(t, key, call, translations).Ok?
    ensures t.jobs[key].snapshot.Some? && DeserializeReplyChain(t.jobs[key].snapshot.value).Some?
    ensures var c := DeserializeReplyChain(t.jobs[key].snapshot.value).value;
            Downstream(t, key, call, translations) ==
            if t.jobs[key].status == AwaitingContext then Stage2(t, key, c, call) else Persist(t, key, c, translations)
  {
  }

  lemma DownstreamKeepsOthers(
    t: Tables, key: MessageKey, call: ModelCall, translations: seq<Translation>, other: MessageKey
  )
    requires key in t.jobs && t.jobs[key].message.key == key && other != key
    requires Downstream(t, key, call, translations).Ok?
    ensures SameFacts(t, Downstream(t, key, call, translations).value, other)
  {
    DownstreamForm(t, key, call, translations);
    var c := DeserializeReplyChain(t.jobs[key].snapshot.value).value;
    if t.jobs[key].status == AwaitingContext {
      Stage2KeepsOthers(t, key, c, call, other);
    } else {
      PersistKeepsOthers(t, key, c, translations, other);
    }
  }

  lemma Stage1Form(t: Tables, key: MessageKey, call: ModelCall)
    requires key in t.jobs && Stage1(t, key, call).Ok?
    ensures call.Answered?
    ensures var u, recorded := Stage1(t, key, call).value, RecordStage(t, key, 1, call);
            u.usage == recorded.usage && u.questions == recorded.questions
  {
  }

  lemma Stage1KeepsOthers(t: Tables, key: MessageKey, call: ModelCall, other: MessageKey)
    requires key in t.jobs && other != key && Stage1(t, key, call).Ok?
    ensures SameFacts(t, Stage1(t, key, call).value, other)
  {
    Stage1Form(t, key, call);
    RecordingKeepsOthers(t, key, 1, call, other);
    FactsAreOfRunsAndQuestions(RecordStage(t, key, 1, call), Stage1(t, key, call).value, other);
    SameFactsTransitive(t, RecordStage(t, key, 1, call), Stage1(t, key, call).value, other);
  }

  lemma LoadingKeepsOthers(t: Tables, key: MessageKey, load: ChainLoad, now: int, other: MessageKey)
    requires key in t.jobs && LoadChain(t, key, load, now).Ok?
    ensures SameFacts(t, LoadChain(t, key, load, now).value, other)
  {
  }

  lemma HandlingKeepsOthers(t: Tables, key: MessageKey, i: Input, now: int, other: MessageKey)
    requires key in t.jobs && t.jobs[key].message.key == key && other != key
    requires Handle(t, key, i, now).Ok?
    ensures SameFacts(t, Handle(t, key, i, now).value, other)
  {
    match i
    case Stage1Input(call) => Stage1KeepsOthers(t, key, call, other);
    case ChainInput(load) => LoadingKeepsOthers(t, key, load, now, other);
    case DownstreamInput(call, translations) => DownstreamKeepsOthers(t, key, call, translations, other);
  }

  lemma WorkKeepsOthers(t: Tables, key: MessageKey, i: Input, now: int, other: MessageKey)
    requires Claimable(t, key, PhaseOf(i), now) && t.jobs[key].message.key == key && other != key
    ensures SameFacts(t, RunOnce(t, key, i, now), other)
  {
    var claimed := Claim(t, key, PhaseOf(i), now);
    if Handle(claimed, key, i, now).Ok? {
      HandlingKeepsOthers(claimed, key, i, now, other);
    }
  }

  lemma Stage1Agrees(t: Tables, key: MessageKey, call: ModelCall)
    requires key in t.jobs && t.jobs[key].status == Processing && Agrees(t, key)
    ensures var r := Stage1(t, key, call); r.Ok? && key in r.value.jobs ==> Agrees(r.value, key)
  {
    if call.Answered? {
      VerdictAfterRecord(t, key, 1, call, key, 1);
      VerdictAfterRecord(t, key, 1, call, key, 2);
    }
  }

  lemma Stage2Agrees(t: Tables, key: MessageKey, c: ReplyChain, call: ModelCall)
    requires key in t.jobs && t.jobs[key].status == AwaitingContext && Agrees(t, key)
    ensures var r := Stage2(t, key, c, call); r.Ok? && key in r.value.jobs ==> Agrees(r.value, key)
  {
  }

  lemma DownstreamAgrees(t: Tables, key: MessageKey, call: ModelCall, translations: seq<Translation>)
    requires key in t.jobs && Agrees(t, key)
    ensures var r := Downstream(t, key, call, translations); r.Ok? && key in r.value.jobs ==> Agrees(r.value, key)
  {
    if t.jobs[key].snapshot.Some? {
      var c := DeserializeReplyChain(t.jobs[key].snapshot.value);
      if c.Some? && t.jobs[key].status == AwaitingContext {
        Stage2Agrees(t, key, c.value, call);
      } else if c.Some? {
        PersistIsLocal(t, key, c.value, translations);
      }
    }
  }

  lemma SameRunsAgree(t: Tables, u: Tables, key: MessageKey)
    requires key in t.jobs && key in u.jobs && Agrees(t, key)
    requires u.usage == t.usage && u.questions == t.questions
    requires u.jobs[key].status == t.jobs[key].status || u.jobs[key].status == Failed
             || (t.jobs[key].status in {Pending, Processing, Retry} && u.jobs[key].status in {Processing, Retry})
    ensures Agrees(u, key)
  {
  }

  /** One worker run keeps its own row in agreement with what is recorded. */
  lemma WorkAgrees(t: Tables, key: MessageKey, i: Input, now: int)
    requires Claimable(t, key, PhaseOf(i), now) && Agrees(t, key)
    ensures key in RunOnce(t, key, i, now).jobs ==> Agrees(RunOnce(t, key, i, now), key)
  {
    var claimed := Claim(t, key, PhaseOf(i), now);
    var r := Handle(claimed, key, i, now);
    SameRunsAgree(t, claimed, key);
    if r.Err? {
      SameRunsAgree(claimed, Recovered(claimed, key, PhaseOf(i), r.error, now), key);
    } else {
      match i
      case Stage1Input(call) => Stage1Agrees(claimed, key, call);
      case ChainInput(load) => SameRunsAgree(claimed, r.value, key);
      case DownstreamInput(call, translations) => DownstreamAgrees(claimed, key, call, translations);
    }
  }

  lemma WorkKeepsAllAgree(t: Tables, key: MessageKey, i: Input, now: int)
    requires AllAgree(t) && Claimable(t, key, PhaseOf(i), now) && t.jobs[key].message.key == key
    ensures AllAgree(RunOnce(t, key, i, now))
  {
    var u := RunOnce(t, key, i, now);
    WorkAgrees(t, key, i, now);
    WorkIsLocal(t, key, i, now);
    forall other | other in u.jobs ensures Agrees(u, other) {
      if other != key {
        SameElsewhere(u.jobs, t.jobs, key, other);
        WorkKeepsOthers(t, key, i, now, other);
        assert Agrees(t, other);
      }
    }
  }

  // ----- Questions stay relevant -----

  lemma VerdictStays(t: Tables, key: MessageKey, stage: int, call: ModelCall, other: MessageKey)
    requires call.Answered? && RelevantStage(t, other).Some?
    ensures RelevantStage(RecordStage(t, key, stage, call), other).Some?
  {
  }

  lemma DownstreamKeepsRelevant(
    t: Tables, key: MessageKey, call: ModelCall, translations: seq<Translation>, other: MessageKey
  )
    requires key in t.jobs && RelevantStage(t, other).Some? && Downstream(t, key, call, translations).Ok?
    ensures RelevantStage(Downstream(t, key, call, translations).value, other).Some?
  {
    DownstreamForm(t, key, call, translations);
    if t.jobs[key].status == AwaitingContext {
      VerdictStays(t, key, 2, call, other);
    }
  }

  lemma HandlingKeepsRelevant(t: Tables, key: MessageKey, i: Input, now: int, other: MessageKey)
    requires key in t.jobs && RelevantStage(t, other).Some? && Handle(t, key, i, now).Ok?
    ensures RelevantStage(Handle(t, key, i, now).value, other).Some?
  {
    match i
    case Stage1Input(call) => VerdictStays(t, key, 1, call, other);
    case ChainInput(load) =>
    case DownstreamInput(call, translations) => DownstreamKeepsRelevant(t, key, call, translations, other);
  }

  lemma HandlingAsksOnlyRelevant(t: Tables, key: MessageKey, i: Input, now: int)
    requires key in t.jobs && t.jobs[key].message.key == key && QuestionsRelevant(t) && Handle(t, key, i, now).Ok?
    ensures QuestionsRelevant(Handle(t, key, i, now).value)
  {
    var u := Handle(t, key, i, now).value;
    NewQuestionIsRelevant(t, key, i, now);
    forall q | 0 <= q < |u.questions| ensures RelevantStage(u, u.questions[q].message.key).Some? {
      if q < |t.questions| {
        assert u.questions[q] == t.questions[q];
        HandlingKeepsRelevant(t, key, i, now, t.questions[q].message.key);
      }
    }
  }

  /** At most one question is added, for this message, once some run has found it relevant. */
  lemma NewQuestionIsRelevant(t: Tables, key: MessageKey, i: Input, now: int)
    requires key in t.jobs && t.jobs[key].message.key == key && Handle(t, key, i, now).Ok?
    ensures var u := Handle(t, key, i, now).value;
            && t.questions <= u.questions
            && (u.questions == t.questions
                || (|u.questions| == |t.questions| + 1 && u.questions[|t.questions|].message.key == key
                    && RelevantStage(u, key).Some?))
  {
  }

  lemma WorkAsksOnlyRelevant(t: Tables, key: MessageKey, i: Input, now: int)
    requires Claimable(t, key, PhaseOf(i), now) && t.jobs[key].message.key == key && QuestionsRelevant(t)
    ensures QuestionsRelevant(RunOnce(t, key, i, now))
  {
    var claimed := Claim(t, key, PhaseOf(i), now);
    SameRunsSameRelevance(t, claimed);
    var r := Handle(claimed, key, i, now);
    if r.Ok? {
      HandlingAsksOnlyRelevant(claimed, key, i, now);
    } else {
      SameRunsSameRelevance(claimed, Recovered(claimed, key, PhaseOf(i), r.error, now));
    }
  }

  lemma SameRunsSameRelevance(t: Tables, u: Tables)
    requires QuestionsRelevant(t) && u.usage == t.usage && u.questions == t.questions
    ensures QuestionsRelevant(u)
  {
  }

  // ----- Whole runs -----

  lemma ArrivalAgrees(t: Tables, message: NewJob, now: int)
    requires AllAgree(t) && QuestionsRelevant(t) && message.key !in t.jobs && Unclassified(t, message.key)
    ensures AllAgree(Enqueue(t, message, now)) && QuestionsRelevant(Enqueue(t, message, now))
  {
  }

  lemma ClaimAgrees(t: Tables, key: MessageKey, phase: Phase, now: int)
    requires AllAgree(t) && QuestionsRelevant(t) && Claimable(t, key, phase, now)
    ensures AllAgree(Claim(t, key, phase, now)) && QuestionsRelevant(Claim(t, key, phase, now))
  {
    var u := Claim(t, key, phase, now);
    SameRunsSameRelevance(t, u);
    forall other | other in u.jobs ensures Agrees(u, other) {
      SameRunsAgree(t, u, other);
    }
  }

  lemma RecoveryAgrees(t: Tables, staleBefore: int, now: int)
    requires AllAgree(t) && QuestionsRelevant(t)
    ensures AllAgree(RecoverStale(t, staleBefore, now)) && QuestionsRelevant(RecoverStale(t, staleBefore, now))
  {
  }

  /** Fewer rows and detached questions: nothing recorded about any message changes. */
  lemma RemovingRowsAgrees(t: Tables, u: Tables)
    requires AllAgree(t) && QuestionsRelevant(t)
    requires u.usage == t.usage && |u.questions| == |t.questions|
    requires forall q :: 0 <= q < |u.questions| ==> u.questions[q].message == t.questions[q].message
    requires forall key :: key in u.jobs ==> key in t.jobs && u.jobs[key] == t.jobs[key]
    ensures AllAgree(u) && QuestionsRelevant(u)
  {
    forall key ensures HasQuestion(u, key) <==> HasQuestion(t, key) {
    }
    forall key | key in u.jobs ensures Agrees(u, key) {
      assert Agrees(t, key);
    }
    forall q | 0 <= q < |u.questions| ensures RelevantStage(u, u.questions[q].message.key).Some? {
      assert RelevantStage(t, t.questions[q].message.key).Some?;
    }
  }

  lemma StepAgrees(w: World, e: Event)
    requires AllAgree(w.tables) && QuestionsRelevant(w.tables) && JobsSound(w.tables) && ArrivesUnclassified(w, e)
    ensures AllAgree(Next(w, e).tables) && QuestionsRelevant(Next(w, e).tables)
  {
    var t := w.tables;
    match e
    case Arrive(message, now) => if message.key !in t.jobs { ArrivalAgrees(t, message, now); }
    case Work(key, input, now) =>
      if Claimable(t, key, PhaseOf(input), now) {
        assert SnapshotSound(t.jobs[key], key);
        WorkKeepsAllAgree(t, key, input, now);
        WorkAsksOnlyRelevant(t, key, input, now);
      }
    case ClaimOnly(key, phase, now) => if Claimable(t, key, phase, now) { ClaimAgrees(t, key, phase, now); }
    case Recover(staleBefore, now) => RecoveryAgrees(t, staleBefore, now);
    case RemoveChat(chat) => RemovingRowsAgrees(t, RemoveChatRow(t, chat));
    case Cleanup(now, ttl, batch) => RemovingRowsAgrees(t, Expire(t, now, ttl, batch));
  }

  /**
   * In runs where messages are enqueued only while nothing is recorded for them, a row awaiting
   * context has a context-requiring Stage-1 run and no Stage-2 run, and a row awaiting relevant
   * processing has a relevant run.
   */
  lemma {:induction false} RowsAlwaysAgree(h: seq<Event>)
    requires HonestRun(h) && FirstTime(h)
    ensures AllAgree(Pipeline.After(h).tables) && QuestionsRelevant(Pipeline.After(h).tables)
  {
    if h != [] {
      RowsAlwaysAgree(h[..|h| - 1]);
      TablesAlwaysSound(h[..|h| - 1]);
      StepAgrees(Pipeline.After(h[..|h| - 1]), h[|h| - 1]);
    }
  }

  // ----- The guards -----

  /** The chain a claimed downstream row carries. */
  function CarriedChain(t: Tables, key: MessageKey): Option<ReplyChain> {
    if key in t.jobs && t.jobs[key].snapshot.Some? then DeserializeReplyChain(t.jobs[key].snapshot.value) else None
  }

  /** On a loaded chain, Stage 2 goes through exactly when its guards hold and the model gives a final verdict. */
  lemma Stage2SucceedsExactly(t: Tables, key: MessageKey, c: ReplyChain, call: ModelCall)
    requires key in t.jobs && WellShaped(c, key.messageId, MAX_DEPTH)
    ensures var r := Stage2(t, key, c, call);
            var guards := StageVerdict(t, key, 1) == Some(ContextRequired) && StageVerdict(t, key, 2).None?;
            && (r.Ok? <==> guards && call.Answered? && call.verdict != ContextRequired)
            && (guards && r.Err? ==> r.error == if call.CallFails? then call.failure else STAGE2_NON_FINAL)
  {
    LoadedChainIsStage2Ready(c, key.messageId);
  }

  lemma PersistGivenItems(t: Tables, key: MessageKey, c: ReplyChain, target: Item, translations: seq<Translation>)
    requires key in t.jobs && Targets(c.items) == [target] && target.messageId == key.messageId
    requires var items := Available(c.items); HasText(items) && HasTimes(items) && DistinctIds(items) && |items| <= 10
    ensures var r := Persist(t, key, c, translations);
            && (r.Ok? <==> HasQuestion(t, key) || (RelevantStage(t, key).Some? && target in Available(c.items)))
            && (r.Err? ==> r.error == if RelevantStage(t, key).None? then PERSISTENCE_REFUSED else VALUE_ERROR)
  {
  }

  /**
   * On a loaded chain, persistence goes through exactly when the question exists already, or some
   * run found the message relevant and the loader could read the message itself.
   */
  lemma PersistSucceedsExactly(t: Tables, key: MessageKey, c: ReplyChain, translations: seq<Translation>)
    requires key in t.jobs && WellShaped(c, key.messageId, MAX_DEPTH)
    ensures var r, target := Persist(t, key, c, translations), c.items[|c.items| - 1];
            && (r.Ok? <==> HasQuestion(t, key) || (RelevantStage(t, key).Some? && !target.isUnavailable))
            && (r.Err? ==> r.error == if RelevantStage(t, key).None? then PERSISTENCE_REFUSED else VALUE_ERROR)
  {
    TargetAvailability(c, key.messageId);
    AvailableIsUsable(c, key.messageId);
    PersistGivenItems(t, key, c, c.items[|c.items| - 1], translations);
  }

  /** The carried chain is one the loader can return, and which handler gets it follows the status. */
  lemma DownstreamDispatches(t: Tables, key: MessageKey, call: ModelCall, translations: seq<Translation>)
    requires key in t.jobs && SnapshotSound(t.jobs[key], key) && t.jobs[key].snapshot.Some?
    requires t.jobs[key].status in {AwaitingContext, AwaitingRelevant}
    ensures CarriedChain(t, key).Some? && WellShaped(CarriedChain(t, key).value, key.messageId, MAX_DEPTH)
    ensures Downstream(t, key, call, translations) ==
            if t.jobs[key].status == AwaitingContext then Stage2(t, key, CarriedChain(t, key).value, call)
            else Persist(t, key, CarriedChain(t, key).value, translations)
  {
  }

  /**
   * The claimed row carries a chain, and its handler fails exactly when the model call fails or is
   * not final (Stage 2), or when the target message itself could not be read (persistence).
   */
  ghost predicate FailsOnlyAsExpected(t: Tables, key: MessageKey, call: ModelCall, translations: seq<Translation>) {
    && key in t.jobs && CarriedChain(t, key).Some? && CarriedChain(t, key).value.items != []
    && t.jobs[key].status in {AwaitingContext, AwaitingRelevant}
    && (var r, items := Downstream(t, key, call, translations), CarriedChain(t, key).value.items;
        if t.jobs[key].status == AwaitingContext
        then (r.Err? <==> call.CallFails? || call.verdict == ContextRequired)
             && (r.Err? ==> r.error == if call.CallFails? then call.failure else STAGE2_NON_FINAL)
        else (r.Err? <==> items[|items| - 1].isUnavailable) && (r.Err? ==> r.error == VALUE_ERROR))
  }

  /**
   * In such runs no hand-off guard ever fires. A claimed downstream row fails exactly when the
   * model call fails or is not final, or, for persistence, when the target message itself was
   * unavailable to the loader, which raises at the lookup of the target's translation.
   */
  lemma {:induction false} HandoffGuardsNeverFire(
    h: seq<Event>, key: MessageKey, call: ModelCall, translations: seq<Translation>, now: int
  )
    requires HonestRun(h) && FirstTime(h)
    requires Claimable(Pipeline.After(h).tables, key, ClassificationPhase, now)
    ensures FailsOnlyAsExpected(Claim(Pipeline.After(h).tables, key, ClassificationPhase, now), key, call, translations)
  {
    var t := Pipeline.After(h).tables;
    RowsAlwaysAgree(h);
    TablesAlwaysSound(h);
    assert SnapshotSound(t.jobs[key], key) && Agrees(t, key);
    GuardsOfClaimed(t, key, call, translations, now);
  }

  lemma GuardsOfClaimed(t: Tables, key: MessageKey, call: ModelCall, translations: seq<Translation>, now: int)
    requires Claimable(t, key, ClassificationPhase, now) && SnapshotSound(t.jobs[key], key) && Agrees(t, key)
    ensures FailsOnlyAsExpected(Claim(t, key, ClassificationPhase, now), key, call, translations)
  {
    var claimed := Claim(t, key, ClassificationPhase, now);
    SameRunsAgree(t, claimed, key);
    DownstreamDispatches(claimed, key, call, translations);
    var c := CarriedChain(claimed, key).value;
    if claimed.jobs[key].status == AwaitingContext {
      Stage2SucceedsExactly(claimed, key, c, call);
    } else {
      PersistSucceedsExactly(claimed, key, c, translations);
    }
  }

  // ----- Messages enqueued again -----

  /**
   * Stage 1 ignores whether its run was recorded, so a route is backed by the recorded runs
   * exactly when no earlier Stage-1 run says otherwise.
   */
  lemma RouteIsBackedExactly(t: Tables, key: MessageKey, call: ModelCall)
    requires key in t.jobs && call.Answered? && call.verdict != Irrelevant
    ensures var r := Stage1(t, key, call);
            && r.Ok? && key in r.value.jobs
            && (call.verdict == Relevant ==>
                  && r.value.jobs[key].status == AwaitingRelevant
                  && (RelevantStage(r.value, key).Some? <==>
                        StageVerdict(t, key, 1) in {None, Some(Relevant)} || StageVerdict(t, key, 2) == Some(Relevant)))
            && (call.verdict == ContextRequired ==>
                  && r.value.jobs[key].status == AwaitingContext
                  && (StageVerdict(r.value, key, 1) == Some(ContextRequired) <==>
                        StageVerdict(t, key, 1) in {None, Some(ContextRequired)}))
  {
  }

  /** An answer of the model that reports no usage. */
  function Answer(verdict: Verdict): ModelCall {
    Answered(verdict, Calendar.Date(2026, 1, 1), "model", 0, 0, Pricing(0.0, 0.0))
  }

  /** A message found irrelevant, enqueued again at `later`, and found relevant. */
  function EnqueuedAgain(message: NewJob, later: int): seq<Event> {
    [Arrive(message, 0)] + [Work(message.key, Stage1Input(Answer(Irrelevant)), 0)]
    + [Arrive(message, later)] + [Work(message.key, Stage1Input(Answer(Relevant)), later)]
  }

  lemma ArrivesAndIsIrrelevant(w: World, message: NewJob, now: int)
    requires message.key !in w.tables.jobs
    ensures var key := message.key;
            var u := Next(Next(w, Arrive(message, now)), Work(key, Stage1Input(Answer(Irrelevant)), now));
            key !in u.tables.jobs && u.tables.questions == w.tables.questions
            && (Unclassified(w.tables, key) ==>
                  StageVerdict(u.tables, key, 1) == Some(Irrelevant) && StageVerdict(u.tables, key, 2).None?)
  {
    var t := Claim(Enqueue(w.tables, message, now), message.key, Stage1Phase, now);
    VerdictAfterRecord(t, message.key, 1, Answer(Irrelevant), message.key, 1);
    VerdictAfterRecord(t, message.key, 1, Answer(Irrelevant), message.key, 2);
  }

  lemma ArrivesAndIsRelevant(w: World, message: NewJob, now: int)
    requires message.key !in w.tables.jobs
    ensures var key := message.key;
            var u := Next(Next(w, Arrive(message, now)), Work(key, Stage1Input(Answer(Relevant)), now));
            && key in u.tables.jobs && u.tables.jobs[key].status == AwaitingRelevant
            && u.tables.jobs[key].message == message && u.tables.jobs[key].snapshot == None
            && u.tables.jobs[key].lockedAt == None && u.tables.jobs[key].nextAttemptAt == now
            && u.tables.questions == w.tables.questions
            && (RelevantStage(u.tables, key).Some? <==>
                  StageVerdict(w.tables, key, 1) in {None, Some(Relevant)} || StageVerdict(w.tables, key, 2) == Some(Relevant))
  {
    var t := Claim(Enqueue(w.tables, message, now), message.key, Stage1Phase, now);
    RouteIsBackedExactly(t, message.key, Answer(Relevant));
  }

  /**
   * Such a row is reachable, however much later the message comes back, and no chain lets it be
   * persisted while nothing else is recorded.
   */
  lemma {:induction false} EnqueuedAgainIsRefused(message: NewJob, later: int, c: ReplyChain, translations: seq<Translation>)
    ensures var t := Pipeline.After(EnqueuedAgain(message, later)).tables;
            && message.key in t.jobs && t.jobs[message.key].status == AwaitingRelevant
            && Persist(t, message.key, c, translations) == Err(PERSISTENCE_REFUSED)
  {
    var rejected := [] + [Arrive(message, 0)] + [Work(message.key, Stage1Input(Answer(Irrelevant)), 0)];
    AfterTwo([], Arrive(message, 0), Work(message.key, Stage1Input(Answer(Irrelevant)), 0));
    AfterTwo(rejected, Arrive(message, later), Work(message.key, Stage1Input(Answer(Relevant)), later));
    assert [] + [Arrive(message, 0)] == [Arrive(message, 0)];
    NothingIsKnownAtFirst(message.key);
    ArrivesAndIsIrrelevant(Pipeline.EMPTY, message, 0);
    ArrivesAndIsRelevant(Pipeline.After(rejected), message, later);
  }

  // ----- A target that could not be read -----

  const NOTHING_READABLE := Source(map[], map[])

  /** A message found relevant whose own text Telegram no longer answers with. */
  function TargetUnreadable(message: NewJob): seq<Event> {
    FoundRelevant(message) + [Work(message.key, ChainInput(Loads(NOTHING_READABLE)), 0)]
  }

  lemma NothingReadableChain(chatId: int, target: int)
    ensures LoadedChain(NOTHING_READABLE, chatId, target).items == [UnavailableItem(target).(isTarget := true)]
  {
  }

  lemma ChainIsLoaded(w: World, key: MessageKey, src: Source, now: int)
    requires Claimable(w.tables, key, ReplyChainPhase, now)
    ensures var u := Next(w, Work(key, ChainInput(Loads(src)), now)).tables;
            && u.questions == w.tables.questions && u.usage == w.tables.usage
            && key in u.jobs && u.jobs[key].status == w.tables.jobs[key].status
            && Claimable(u, key, ClassificationPhase, now)
            && CarriedChain(u, key) == Some(LoadedChain(src, key.chatId, key.messageId))
  {
    SnapshotRoundTrip(LoadedChain(src, key.chatId, key.messageId));
  }

  /** The failure is reachable in a first-time, honest run, whatever the model and the translator would answer. */
  lemma UnreadableTargetRaises(message: NewJob, call: ModelCall, translations: seq<Translation>)
    ensures var h, key := TargetUnreadable(message), message.key;
            && HonestRun(h) && FirstTime(h)
            && Claimable(Pipeline.After(h).tables, key, ClassificationPhase, 0)
            && Downstream(Claim(Pipeline.After(h).tables, key, ClassificationPhase, 0), key, call, translations)
               == Err(VALUE_ERROR)
  {
    var key, h := message.key, TargetUnreadable(message);
    UnreadableState(message);
    HandoffGuardsNeverFire(h, key, call, translations, 0);
    NothingReadableChain(key.chatId, key.messageId);
  }

  /** Arrived and routed to persistence, with no chain loaded yet. */
  function FoundRelevant(message: NewJob): seq<Event> {
    [Arrive(message, 0)] + [Work(message.key, Stage1Input(Answer(Relevant)), 0)]
  }

  lemma {:induction false} AfterTwo(h: seq<Event>, first: Event, second: Event)
    ensures Pipeline.After(h + [first] + [second]) == Next(Next(Pipeline.After(h), first), second)
  {
    AfterSnoc(h, first);
    AfterSnoc(h + [first], second);
  }

  lemma NothingIsKnownAtFirst(key: MessageKey)
    ensures key !in Pipeline.EMPTY.tables.jobs && Unclassified(Pipeline.EMPTY.tables, key)
  {
  }

  lemma {:induction false} FirstArrivalIsFirstTime(message: NewJob, work: Event)
    requires !work.Arrive?
    ensures FirstTime([] + [Arrive(message, 0)] + [work])
  {
    NothingIsKnownAtFirst(message.key);
    FirstTimeSnoc([], Arrive(message, 0));
    FirstTimeSnoc([] + [Arrive(message, 0)], work);
  }

  lemma {:induction false} FoundRelevantState(message: NewJob)
    ensures FirstTime(FoundRelevant(message))
    ensures Claimable(Pipeline.After(FoundRelevant(message)).tables, message.key, ReplyChainPhase, 0)
    ensures Pipeline.After(FoundRelevant(message)).tables.jobs[message.key].status == AwaitingRelevant
  {
    var work := Work(message.key, Stage1Input(Answer(Relevant)), 0);
    assert [] + [Arrive(message, 0)] + [work] == FoundRelevant(message);
    AfterTwo([], Arrive(message, 0), work);
    FirstArrivalIsFirstTime(message, work);
    NothingIsKnownAtFirst(message.key);
    ArrivesAndIsRelevant(Pipeline.EMPTY, message, 0);
  }

  lemma UnreadableState(message: NewJob)
    ensures var h, key := TargetUnreadable(message), message.key;
            && FirstTime(h)
            && Claimable(Pipeline.After(h).tables, key, ClassificationPhase, 0)
            && Pipeline.After(h).tables.jobs[key].status == AwaitingRelevant
            && CarriedChain(Pipeline.After(h).tables, key) == Some(LoadedChain(NOTHING_READABLE, key.chatId, key.messageId))
  {
    var load := Work(message.key, ChainInput(Loads(NOTHING_READABLE)), 0);
    FoundRelevantState(message);
    AfterSnoc(FoundRelevant(message), load);
    FirstTimeSnoc(FoundRelevant(message), load);
    ChainIsLoaded(Pipeline.After(FoundRelevant(message)), message.key, NOTHING_READABLE, 0);
  }

  lemma FirstTimeSnoc(h: seq<Event>, e: Event)
    requires FirstTime(h) && ArrivesUnclassified(Pipeline.After(h), e)
    ensures FirstTime(h + [e])
  {
    assert (h + [e])[..|h|] == h;
  }
}
