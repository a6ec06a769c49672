/** No message is lost, and what is persisted for a relevant one is complete. */
module PipelineSafety {
  import opened Wrappers
  import opened ReplyChains
  import opened ReplyChainSnapshots
  import UsageAccounting
  import opened Pipeline
  import opened PipelineTermination

  // ----- Failure -----

  /** A run whose handler raises leaves the claim's own effects and the retry bookkeeping, nothing else. */
  lemma FailureLeavesOnlyTheClaim(t: Tables, key: MessageKey, i: Input, now: int)
    requires Claimable(t, key, PhaseOf(i), now)
    requires Handle(Claim(t, key, PhaseOf(i), now), key, i, now).Err?
    ensures var r := RunOnce(t, key, i, now);
            && r.usage == t.usage && r.questions == t.questions
            && r.chain == t.chain && r.notifications == t.notifications
            && r.jobs - {key} == t.jobs - {key}
            && key in r.jobs
            && r.jobs[key].attempts == t.jobs[key].attempts + 1
            && r.jobs[key].lockedAt == None
            && r.jobs[key].message == t.jobs[key].message && r.jobs[key].snapshot == t.jobs[key].snapshot
  {
  }

  /** The row of a failed run is retried after the scheduled delay, or failed, exactly as the policy says. */
  lemma FailuresAreClassified(t: Tables, key: MessageKey, i: Input, now: int)
    requires Claimable(t, key, PhaseOf(i), now) && t.jobs[key].attempts >= 0
    requires Handle(Claim(t, key, PhaseOf(i), now), key, i, now).Err?
    ensures var failure := Handle(Claim(t, key, PhaseOf(i), now), key, i, now).error;
            var before, after := t.jobs[key], RunOnce(t, key, i, now).jobs;
            && key in after
            && (after[key].status == Failed <==> !failure.retryable || before.attempts >= 4)
            && (after[key].status != Failed ==>
                  && after[key].status == (if i.Stage1Input? then Retry else before.status)
                  && after[key].nextAttemptAt == now + [15, 60, 300, 1800][before.attempts])
            && (|failure.code| <= 100 ==> after[key].lastError == Some(failure.code))
  {
  }

  // ----- The shape of what is persisted -----

  /** The chain rows of one question, in insertion order. */
  function RowsOf(chain: seq<ChainRow>, q: nat): seq<ChainRow> {
    if chain == [] then []
    else
      var last := chain[|chain| - 1];
      RowsOf(chain[..|chain| - 1], q) + if last.question == q then [last] else []
  }

  lemma {:induction false} RowsOfAppended(chain: seq<ChainRow>, rows: seq<ChainRow>, id: nat, q: nat)
    requires forall p :: 0 <= p < |rows| ==> rows[p].question == id
    ensures RowsOf(chain + rows, q) == RowsOf(chain, q) + if q == id then rows else []
  {
    if rows == [] {
      assert chain + rows == chain;
    } else {
      var init, last := rows[..|rows| - 1], rows[|rows| - 1];
      assert (chain + rows)[..|chain + rows| - 1] == chain + init;
      RowsOfAppended(chain, init, id, q);
      assert init + [last] == rows;
    }
  }

  lemma {:induction false} NoRowsYet(chain: seq<ChainRow>, q: nat)
    requires forall p :: 0 <= p < |chain| ==> chain[p].question < q
    ensures RowsOf(chain, q) == []
  {
    if chain != [] {
      NoRowsYet(chain[..|chain| - 1], q);
    }
  }

  /** Positions 0..k-1 with k at most ten, distinct messages, each a reply to the one before, the last the target. */
  ghost predicate CompleteChain(rows: seq<ChainRow>, key: MessageKey) {
    && 1 <= |rows| <= 10
    && (forall p :: 0 <= p < |rows| ==> rows[p].position == p)
    && (forall p, r :: 0 <= p < r < |rows| ==> rows[p].messageId != rows[r].messageId)
    && (forall p :: 1 <= p < |rows| ==> rows[p].replyTo == Some(rows[p - 1].messageId))
    && (forall p :: 0 <= p < |rows| ==> (rows[p].isTarget <==> p == |rows| - 1))
    && rows[|rows| - 1].messageId == key.messageId
  }

  lemma {:induction false} OnlyTarget(items: seq<Item>)
    requires items != [] && forall i :: 0 <= i < |items| ==> (items[i].isTarget <==> i == |items| - 1)
    ensures Targets(items) == [items[|items| - 1]]
  {
    NoTarget(items[..|items| - 1]);
  }

  lemma {:induction false} NoTarget(items: seq<Item>)
    requires forall i :: 0 <= i < |items| ==> !items[i].isTarget
    ensures Targets(items) == []
  {
    if items != [] {
      NoTarget(items[..|items| - 1]);
    }
  }

  /** Only the oldest item of a loaded chain can be missing from what is available. */
  lemma {:induction false} AvailableTail(items: seq<Item>)
    requires items != [] && forall i :: 1 <= i < |items| ==> !items[i].isUnavailable
    ensures Available(items) == if items[0].isUnavailable then items[1..] else items
  {
    var init, last := items[..|items| - 1], items[|items| - 1];
    if init == [] {
      assert items == [last];
    } else {
      AvailableTail(init);
      assert items == init + [last];
      assert items[1..] == init[1..] + [last];
    }
  }

  lemma AvailableIsUsable(c: ReplyChain, target: int)
    requires WellShaped(c, target, MAX_DEPTH)
    ensures var items := Available(c.items);
            && items == (if c.items[0].isUnavailable then c.items[1..] else c.items)
            && HasText(items) && HasTimes(items) && DistinctIds(items) && |items| <= 10
  {
    AvailableTail(c.items);
  }

  lemma TargetAvailability(c: ReplyChain, target: int)
    requires WellShaped(c, target, MAX_DEPTH)
    ensures var last := c.items[|c.items| - 1];
            Targets(c.items) == [last] && (last in Available(c.items) <==> !last.isUnavailable)
  {
    var last := c.items[|c.items| - 1];
    OnlyTarget(c.items);
    AvailableTail(c.items);
    if !last.isUnavailable && c.items[0].isUnavailable {
      assert c.items[1..][|c.items| - 2] == last;
    }
  }

  /** The same shape, on the items the rows are made from. */
  ghost predicate CompleteItems(items: seq<Item>, target: int) {
    && 1 <= |items| <= 10
    && DistinctIds(items)
    && (forall p :: 1 <= p < |items| ==> items[p].replyTo == Some(items[p - 1].messageId))
    && (forall p :: 0 <= p < |items| ==> (items[p].isTarget <==> p == |items| - 1))
    && items[|items| - 1].messageId == target
  }

  lemma DroppingOldest(items: seq<Item>, target: int)
    requires CompleteItems(items, target) && |items| > 1
    ensures CompleteItems(items[1..], target)
  {
  }

  lemma LoadedItemsAreComplete(c: ReplyChain, target: int)
    requires WellShaped(c, target, MAX_DEPTH)
    ensures CompleteItems(c.items, target)
  {
  }

  lemma RowsOfItems(items: seq<Item>, key: MessageKey, id: nat, translations: seq<Translation>)
    requires HasText(items) && HasTimes(items) && CompleteItems(items, key.messageId)
    ensures CompleteChain(ChainRows(id, items, translations), key)
  {
  }

  lemma RowsAreComplete(c: ReplyChain, key: MessageKey, id: nat, translations: seq<Translation>)
    requires WellShaped(c, key.messageId, MAX_DEPTH) && !c.items[|c.items| - 1].isUnavailable
    ensures HasText(Available(c.items)) && HasTimes(Available(c.items))
    ensures CompleteChain(ChainRows(id, Available(c.items), translations), key)
  {
    AvailableIsUsable(c, key.messageId);
    LoadedItemsAreComplete(c, key.messageId);
    if c.items[0].isUnavailable {
      DroppingOldest(c.items, key.messageId);
    }
    RowsOfItems(Available(c.items), key, id, translations);
  }

  // ----- Invariant of the tables -----

  ghost predicate UniqueQuestions(questions: seq<DetectedRow>) {
    forall p, q :: 0 <= p < q < |questions| ==> questions[p].message.key != questions[q].message.key
  }

  ghost predicate OneNotificationEach(t: Tables) {
    |t.notifications| == |t.questions| && forall q :: 0 <= q < |t.notifications| ==> t.notifications[q] == q
  }

  ghost predicate ChainsComplete(t: Tables) {
    && (forall p :: 0 <= p < |t.chain| ==> t.chain[p].question < |t.questions|)
    && (forall q :: 0 <= q < |t.questions| ==> CompleteChain(RowsOf(t.chain, q), t.questions[q].message.key))
  }

  /** A stored snapshot is the serialization of a chain the loader can return for the message. */
  ghost predicate SnapshotSound(job: Job, key: MessageKey) {
    && job.message.key == key
    && (job.snapshot.Some? ==>
          var c := DeserializeReplyChain(job.snapshot.value);
          c.Some? && c.value.chatId == key.chatId && WellShaped(c.value, key.messageId, MAX_DEPTH))
  }

  ghost predicate JobsSound(t: Tables) {
    forall key :: key in t.jobs ==> SnapshotSound(t.jobs[key], key)
  }

  ghost predicate RowsSound(t: Tables) {
    UniqueQuestions(t.questions) && OneNotificationEach(t) && ChainsComplete(t)
  }

  lemma OneMoreQuestion(t: Tables, u: Tables, key: MessageKey, row: DetectedRow, rows: seq<ChainRow>)
    requires RowsSound(t) && !HasQuestion(t, key) && row.message.key == key
    requires u.questions == t.questions + [row]
    requires u.chain == t.chain + rows && u.notifications == t.notifications + [|t.questions|]
    requires CompleteChain(rows, key) && forall p :: 0 <= p < |rows| ==> rows[p].question == |t.questions|
    ensures RowsSound(u)
  {
    forall q | 0 <= q < |u.questions| ensures CompleteChain(RowsOf(u.chain, q), u.questions[q].message.key) {
      RowsOfAppended(t.chain, rows, |t.questions|, q);
      if q == |t.questions| {
        NoRowsYet(t.chain, q);
      } else {
        assert RowsOf(u.chain, q) == RowsOf(t.chain, q);
      }
    }
  }

  /** Persisting a loaded chain: nothing, or one more complete question. */
  lemma PersistKeepsRowsSound(t: Tables, key: MessageKey, c: ReplyChain, translations: seq<Translation>)
    requires RowsSound(t) && key in t.jobs && t.jobs[key].message.key == key
    requires WellShaped(c, key.messageId, MAX_DEPTH) && Persist(t, key, c, translations).Ok?
    ensures var u := Persist(t, key, c, translations).value; RowsSound(u) && HasQuestion(u, key)
  {
    var u := Persist(t, key, c, translations).value;
    if !HasQuestion(t, key) {
      TargetAvailability(c, key.messageId);
      RowsAreComplete(c, key, |t.questions|, translations);
      OneMoreQuestion(t, u, key, u.questions[|t.questions|], ChainRows(|t.questions|, Available(c.items), translations));
      assert u.questions[|t.questions|].message.key == key;
    }
  }

  /** Only persistence touches questions, chains and notifications. */
  lemma OthersKeepRows(t: Tables, key: MessageKey, i: Input, now: int)
    requires key in t.jobs && Handle(t, key, i, now).Ok?
    requires !(i.DownstreamInput? && t.jobs[key].status == AwaitingRelevant)
    ensures var u := Handle(t, key, i, now).value;
            u.questions == t.questions && u.chain == t.chain && u.notifications == t.notifications
  {
  }

  lemma SameRowsStaySound(t: Tables, u: Tables)
    requires RowsSound(t) && u.questions == t.questions && u.chain == t.chain && u.notifications == t.notifications
    ensures RowsSound(u)
  {
  }

  lemma HandlingKeepsRowsSound(t: Tables, key: MessageKey, i: Input, now: int)
    requires RowsSound(t) && key in t.jobs && SnapshotSound(t.jobs[key], key)
    requires Handle(t, key, i, now).Ok?
    ensures RowsSound(Handle(t, key, i, now).value)
  {
    if i.DownstreamInput? && t.jobs[key].status == AwaitingRelevant {
      PersistKeepsRowsSound(t, key, DeserializeReplyChain(t.jobs[key].snapshot.value).value, i.translations);
    } else {
      OthersKeepRows(t, key, i, now);
      SameRowsStaySound(t, Handle(t, key, i, now).value);
    }
  }

  lemma WorkKeepsRowsSound(t: Tables, key: MessageKey, i: Input, now: int)
    requires RowsSound(t) && Claimable(t, key, PhaseOf(i), now) && SnapshotSound(t.jobs[key], key)
    ensures RowsSound(RunOnce(t, key, i, now))
  {
    var claimed := Claim(t, key, PhaseOf(i), now);
    if Handle(claimed, key, i, now).Ok? {
      HandlingKeepsRowsSound(claimed, key, i, now);
    }
  }

  // ----- Snapshots -----

  ghost predicate HonestInput(i: Input) {
    i.ChainInput? && i.load.Loads? ==> Honest(i.load.source)
  }

  lemma LoadedSnapshotIsSound(t: Tables, key: MessageKey, src: Source, now: int)
    requires key in t.jobs && t.jobs[key].message.key == key && Honest(src)
    ensures SnapshotSound(LoadChain(t, key, Loads(src), now).value.jobs[key], key)
  {
    LoadingIsWellShaped(src, key.chatId, key.messageId);
    SnapshotRoundTrip(LoadedChain(src, key.chatId, key.messageId));
  }

  lemma HandlingKeepsSnapshot(t: Tables, key: MessageKey, i: Input, now: int)
    requires key in t.jobs && SnapshotSound(t.jobs[key], key) && HonestInput(i)
    ensures var r := Handle(t, key, i, now);
            r.Ok? && key in r.value.jobs ==> SnapshotSound(r.value.jobs[key], key)
  {
    match i
    case Stage1Input(call) =>
    case ChainInput(load) => if load.Loads? { LoadedSnapshotIsSound(t, key, load.source, now); }
    case DownstreamInput(call, translations) =>
      if t.jobs[key].status == AwaitingRelevant && t.jobs[key].snapshot.Some? {
        PersistIsLocal(t, key, DeserializeReplyChain(t.jobs[key].snapshot.value).value, translations);
      }
  }

  lemma WorkKeepsSnapshot(t: Tables, key: MessageKey, i: Input, now: int)
    requires Claimable(t, key, PhaseOf(i), now) && SnapshotSound(t.jobs[key], key) && HonestInput(i)
    ensures key in RunOnce(t, key, i, now).jobs ==> SnapshotSound(RunOnce(t, key, i, now).jobs[key], key)
  {
    HandlingKeepsSnapshot(Claim(t, key, PhaseOf(i), now), key, i, now);
  }

  lemma WorkKeepsJobsSound(t: Tables, key: MessageKey, i: Input, now: int)
    requires JobsSound(t) && Claimable(t, key, PhaseOf(i), now) && HonestInput(i)
    ensures JobsSound(RunOnce(t, key, i, now))
  {
    var u := RunOnce(t, key, i, now);
    WorkKeepsSnapshot(t, key, i, now);
    WorkIsLocal(t, key, i, now);
    forall other | other in u.jobs ensures SnapshotSound(u.jobs[other], other) {
      if other != key {
        SameElsewhere(u.jobs, t.jobs, key, other);
      }
    }
  }

  ghost predicate HonestRun(h: seq<Event>) {
    forall i :: 0 <= i < |h| && h[i].Work? ==> HonestInput(h[i].input)
  }

  /** Removing a chat drops queue rows and detaches questions; it changes no question's message. */
  lemma RemovalKeepsTablesSound(t: Tables, chat: int)
    requires JobsSound(t) && RowsSound(t)
    ensures JobsSound(RemoveChatRow(t, chat)) && RowsSound(RemoveChatRow(t, chat))
  {
    var u := RemoveChatRow(t, chat);
    forall q | 0 <= q < |u.questions| ensures CompleteChain(RowsOf(u.chain, q), u.questions[q].message.key) {
      assert u.questions[q].message == t.questions[q].message;
    }
  }

  lemma StepKeepsTablesSound(w: World, e: Event)
    requires JobsSound(w.tables) && RowsSound(w.tables)
    requires e.Work? ==> HonestInput(e.input)
    ensures JobsSound(Next(w, e).tables) && RowsSound(Next(w, e).tables)
  {
    match e
    case Work(key, input, now) =>
      if Claimable(w.tables, key, PhaseOf(input), now) {
        WorkKeepsJobsSound(w.tables, key, input, now);
        WorkKeepsRowsSound(w.tables, key, input, now);
      }
    case RemoveChat(chat) => RemovalKeepsTablesSound(w.tables, chat);
    case _ =>
  }

  /**
   * In every reachable state each message has at most one question, each question exactly one
   * notification and a complete chain, and every snapshot is one the loader can return.
   */
  lemma {:induction false} TablesAlwaysSound(h: seq<Event>)
    requires HonestRun(h)
    ensures JobsSound(After(h).tables) && RowsSound(After(h).tables)
  {
    if h != [] {
      TablesAlwaysSound(h[..|h| - 1]);
      StepKeepsTablesSound(After(h[..|h| - 1]), h[|h| - 1]);
    }
  }

  // ----- Which steps remove a message's row -----

  /** The step is a successful worker run that asks the model about the message and is told it is irrelevant. */
  predicate Rejects(w: World, e: Event, key: MessageKey) {
    && e.Work? && e.key == key && Claimable(w.tables, key, PhaseOf(e.input), e.now)
    && (e.input.Stage1Input? || (e.input.DownstreamInput? && w.tables.jobs[key].status == AwaitingContext))
    && e.input.call.Answered? && e.input.call.verdict == UsageAccounting.Irrelevant
    && Handle(Claim(w.tables, key, PhaseOf(e.input), e.now), key, e.input, e.now).Ok?
  }

  /** The step is a successful persistence run on the message. */
  predicate Persists(w: World, e: Event, key: MessageKey) {
    && e.Work? && e.key == key && Claimable(w.tables, key, PhaseOf(e.input), e.now)
    && e.input.DownstreamInput? && w.tables.jobs[key].status == AwaitingRelevant
    && Handle(Claim(w.tables, key, PhaseOf(e.input), e.now), key, e.input, e.now).Ok?
  }

  /** Exactly one question of the message, with exactly one notification. */
  ghost predicate NotifiedOnce(t: Tables, key: MessageKey) {
    exists q :: IsQuestionOf(t, q, key)
                && (forall p :: IsQuestionOf(t, p, key) ==> p == q)
                && (exists n :: 0 <= n < |t.notifications| && t.notifications[n] == q
                                && forall m :: 0 <= m < |t.notifications| && t.notifications[m] == q ==> m == n)
  }

  predicate IsQuestionOf(t: Tables, q: int, key: MessageKey) {
    0 <= q < |t.questions| && t.questions[q].message.key == key
  }

  lemma QuestionIsNotifiedOnce(t: Tables, key: MessageKey)
    requires RowsSound(t) && HasQuestion(t, key)
    ensures NotifiedOnce(t, key)
  {
    var q :| 0 <= q < |t.questions| && t.questions[q].message.key == key;
    assert IsQuestionOf(t, q, key);
    assert t.notifications[q] == q;
  }

  lemma PersistLeavesQuestion(t: Tables, key: MessageKey, c: ReplyChain, translations: seq<Translation>)
    requires key in t.jobs && t.jobs[key].message.key == key && Persist(t, key, c, translations).Ok?
    ensures HasQuestion(Persist(t, key, c, translations).value, key)
    ensures key !in Persist(t, key, c, translations).value.jobs
  {
    var u := Persist(t, key, c, translations).value;
    if !HasQuestion(t, key) {
      assert u.questions[|t.questions|].message.key == key;
    }
  }

  lemma Stage2RemovesExactly(t: Tables, key: MessageKey, c: ReplyChain, call: ModelCall)
    requires key in t.jobs && Stage2(t, key, c, call).Ok?
    ensures call.Answered?
    ensures key !in Stage2(t, key, c, call).value.jobs <==> call.verdict == UsageAccounting.Irrelevant
  {
  }

  lemma WorkRemovesExactly(w: World, e: Event, key: MessageKey)
    requires e.Work? && e.key == key && Claimable(w.tables, key, PhaseOf(e.input), e.now)
    requires w.tables.jobs[key].message.key == key
    ensures key !in Next(w, e).tables.jobs <==> Rejects(w, e, key) || Persists(w, e, key)
    ensures Persists(w, e, key) ==> HasQuestion(Next(w, e).tables, key)
  {
    var claimed := Claim(w.tables, key, PhaseOf(e.input), e.now);
    if e.input.DownstreamInput? && Handle(claimed, key, e.input, e.now).Ok? {
      var c := DeserializeReplyChain(claimed.jobs[key].snapshot.value).value;
      if claimed.jobs[key].status == AwaitingRelevant {
        PersistLeavesQuestion(claimed, key, c, e.input.translations);
      } else {
        Stage2RemovesExactly(claimed, key, c, e.input.call);
      }
    }
  }

  lemma StepRemovesExactly(w: World, e: Event, key: MessageKey)
    requires key in w.tables.jobs && w.tables.jobs[key].message.key == key
    ensures key !in Next(w, e).tables.jobs <==> Rejects(w, e, key) || Persists(w, e, key) || Discards(w, e, key)
    ensures Persists(w, e, key) ==> HasQuestion(Next(w, e).tables, key)
  {
    if e.Work? && Claimable(w.tables, e.key, PhaseOf(e.input), e.now) {
      if e.key == key {
        WorkRemovesExactly(w, e, key);
      } else {
        WorkElsewhere(w, e, key);
      }
    }
  }

  /**
   * In any run, a step removes a message's row exactly when it found the message irrelevant,
   * persisted it, or discarded the row with its chat or for its age. Persisting leaves exactly one
   * question and one notification for the message.
   */
  lemma {:induction false} RowLeavesExactly(h: seq<Event>, e: Event, key: MessageKey)
    requires HonestRun(h) && (e.Work? ==> HonestInput(e.input))
    requires key in After(h).tables.jobs
    ensures var w := After(h);
            && (key !in Next(w, e).tables.jobs <==> Rejects(w, e, key) || Persists(w, e, key) || Discards(w, e, key))
            && (Persists(w, e, key) ==> NotifiedOnce(Next(w, e).tables, key))
  {
    TablesAlwaysSound(h);
    StepKeepsTablesSound(After(h), e);
    assert SnapshotSound(After(h).tables.jobs[key], key);
    StepRemovesExactly(After(h), e, key);
    if Persists(After(h), e, key) {
      QuestionIsNotifiedOnce(Next(After(h), e).tables, key);
    }
  }

  // ----- No message is lost -----

  ghost predicate RejectedIn(h: seq<Event>, key: MessageKey) {
    exists i :: 0 <= i < |h| && Rejects(After(h[..i]), h[i], key)
  }

  ghost predicate DiscardedIn(h: seq<Event>, key: MessageKey) {
    exists i :: 0 <= i < |h| && Discards(After(h[..i]), h[i], key)
  }

  lemma PrefixOfInit<T>(h: seq<T>, i: nat)
    requires h != [] && i < |h| - 1
    ensures h[..|h| - 1][..i] == h[..i] && h[..|h| - 1][i] == h[i]
  {
  }

  lemma {:induction false} RejectedGrows(h: seq<Event>, key: MessageKey)
    requires h != []
    ensures RejectedIn(h[..|h| - 1], key) || Rejects(After(h[..|h| - 1]), h[|h| - 1], key) ==> RejectedIn(h, key)
  {
    var init := h[..|h| - 1];
    if RejectedIn(init, key) {
      var i :| 0 <= i < |init| && Rejects(After(init[..i]), init[i], key);
      PrefixOfInit(h, i);
    }
  }

  lemma {:induction false} DiscardedGrows(h: seq<Event>, key: MessageKey)
    requires h != []
    ensures DiscardedIn(h[..|h| - 1], key) || Discards(After(h[..|h| - 1]), h[|h| - 1], key) ==> DiscardedIn(h, key)
  {
    var init := h[..|h| - 1];
    if DiscardedIn(init, key) {
      var i :| 0 <= i < |init| && Discards(After(init[..i]), init[i], key);
      PrefixOfInit(h, i);
    }
  }

  lemma WorkKeepsQuestions(t: Tables, key: MessageKey, i: Input, now: int)
    requires Claimable(t, key, PhaseOf(i), now)
    ensures t.questions <= RunOnce(t, key, i, now).questions
  {
  }

  lemma QuestionStays(t: Tables, u: Tables, key: MessageKey)
    requires HasQuestion(t, key) && t.questions <= u.questions
    ensures HasQuestion(u, key)
  {
    var q :| 0 <= q < |t.questions| && t.questions[q].message.key == key;
    assert u.questions[q].message.key == key;
  }

  lemma RemovalKeepsQuestion(t: Tables, chat: int, key: MessageKey)
    ensures HasQuestion(RemoveChatRow(t, chat), key) <==> HasQuestion(t, key)
  {
    var u := RemoveChatRow(t, chat);
    assert forall q :: 0 <= q < |t.questions| ==> u.questions[q].message == t.questions[q].message;
  }

  /** No step removes a question. */
  lemma StepKeepsQuestion(w: World, e: Event, key: MessageKey)
    requires HasQuestion(w.tables, key)
    ensures HasQuestion(Next(w, e).tables, key)
  {
    match e
    case Work(worked, input, now) =>
      if Claimable(w.tables, worked, PhaseOf(input), now) {
        WorkKeepsQuestions(w.tables, worked, input, now);
        QuestionStays(w.tables, Next(w, e).tables, key);
      }
    case RemoveChat(chat) => RemovalKeepsQuestion(w.tables, chat, key);
    case _ =>
  }

  /** Still queued, or persisted with its one notification. */
  ghost predicate Accounted(t: Tables, key: MessageKey) {
    key in t.jobs || NotifiedOnce(t, key)
  }

  predicate Arrived(h: seq<Event>, key: MessageKey) {
    exists i :: 0 <= i < |h| && h[i].Arrive? && h[i].message.key == key
  }

  lemma ArrivedBefore(h: seq<Event>, key: MessageKey)
    requires h != [] && Arrived(h, key)
    ensures Arrived(h[..|h| - 1], key) || (h[|h| - 1].Arrive? && h[|h| - 1].message.key == key)
  {
    var i :| 0 <= i < |h| && h[i].Arrive? && h[i].message.key == key;
    if i < |h| - 1 {
      assert h[..|h| - 1][i] == h[i];
    }
  }

  ghost predicate QueuedOrAsked(t: Tables, key: MessageKey) {
    key in t.jobs || HasQuestion(t, key)
  }

  lemma StepKeepsQueuedOrAsked(w: World, e: Event, key: MessageKey)
    requires JobsSound(w.tables) && QueuedOrAsked(w.tables, key)
    ensures QueuedOrAsked(Next(w, e).tables, key) || Rejects(w, e, key) || Discards(w, e, key)
  {
    if HasQuestion(w.tables, key) {
      StepKeepsQuestion(w, e, key);
    } else {
      assert SnapshotSound(w.tables.jobs[key], key);
      StepRemovesExactly(w, e, key);
    }
  }

  lemma {:induction false} QueuedOrAskedOrEnded(h: seq<Event>, key: MessageKey)
    requires HonestRun(h) && Arrived(h, key)
    ensures QueuedOrAsked(After(h).tables, key) || RejectedIn(h, key) || DiscardedIn(h, key)
  {
    ArrivedBefore(h, key);
    RejectedGrows(h, key);
    DiscardedGrows(h, key);
    var init := h[..|h| - 1];
    if Arrived(init, key) {
      QueuedOrAskedOrEnded(init, key);
      if QueuedOrAsked(After(init).tables, key) {
        TablesAlwaysSound(init);
        StepKeepsQueuedOrAsked(After(init), h[|h| - 1], key);
      }
    }
  }

  /**
   * Every message that ever arrived is still queued, or has its one question and notification, or
   * was found irrelevant, or its row was discarded with its chat or for its age.
   */
  lemma {:induction false} NoMessageIsLost(h: seq<Event>, key: MessageKey)
    requires HonestRun(h) && Arrived(h, key)
    ensures Accounted(After(h).tables, key) || RejectedIn(h, key) || DiscardedIn(h, key)
  {
    QueuedOrAskedOrEnded(h, key);
    if HasQuestion(After(h).tables, key) {
      TablesAlwaysSound(h);
      QuestionIsNotifiedOnce(After(h).tables, key);
    }
  }

  lemma AfterSnoc(h: seq<Event>, e: Event)
    ensures After(h + [e]) == Next(After(h), e)
  {
    assert (h + [e])[..|h|] == h;
  }

  /** The discarding is real: a message queued when its chat is removed leaves without a verdict or a question. */
  lemma MessageGoesWithItsChat(message: NewJob, now: int)
    ensures var h := [Arrive(message, now)] + [RemoveChat(message.monitoredChat)];
            && HonestRun(h) && Arrived(h, message.key)
            && !Accounted(After(h).tables, message.key) && !RejectedIn(h, message.key)
  {
    var h := [Arrive(message, now)] + [RemoveChat(message.monitoredChat)];
    assert h[0].Arrive? && h[0].message.key == message.key;
    assert [] + [Arrive(message, now)] == [Arrive(message, now)];
    AfterSnoc([], Arrive(message, now));
    AfterSnoc([Arrive(message, now)], RemoveChat(message.monitoredChat));
  }
}
