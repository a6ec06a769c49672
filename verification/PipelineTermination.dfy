/** Every queue row is deleted or failed after a bounded number of worker claims. */
module PipelineTermination {
  import opened Wrappers
  import opened ReplyChainSnapshots
  import opened Pipeline

  // ----- The measure -----

  /** How far a row has come: Stage 1, chain load, Stage 2, persistence. */
  function Rank(job: Job): (r: nat)
    ensures r <= 3
  {
    if job.status in {Pending, Processing, Retry} then 0
    else if job.snapshot.None? then 1
    else if job.status == AwaitingContext then 2
    else 3
  }

  /** Claims left in the current phase. */
  function Left(attempts: int): (n: int)
    ensures n >= 1
  {
    if attempts <= 4 then 5 - attempts else 1
  }

  /** The lexicographic measure (phases left, claims left) as one number; nothing is left of a failed row. */
  function Measure(job: Job): int {
    if job.status == Failed then 0 else 5 * (3 - Rank(job)) + Left(job.attempts)
  }

  function RowMeasure(t: Tables, key: MessageKey): int {
    if key in t.jobs then Measure(t.jobs[key]) else 0
  }

  lemma RetryingDecreases(t: Tables, key: MessageKey, phase: Phase, f: Failure, now: int)
    requires Claimable(t, key, phase, now)
    ensures RowMeasure(Recovered(Claim(t, key, phase, now), key, phase, f, now), key) < RowMeasure(t, key)
  {
  }

  lemma Stage1Decreases(t: Tables, key: MessageKey, call: ModelCall, now: int)
    requires Claimable(t, key, Stage1Phase, now)
    ensures var r := Stage1(Claim(t, key, Stage1Phase, now), key, call);
            r.Ok? ==> RowMeasure(r.value, key) < RowMeasure(t, key)
  {
  }

  lemma LoadingDecreases(t: Tables, key: MessageKey, load: ChainLoad, now: int)
    requires Claimable(t, key, ReplyChainPhase, now)
    ensures var r := LoadChain(Claim(t, key, ReplyChainPhase, now), key, load, now);
            r.Ok? ==> RowMeasure(r.value, key) < RowMeasure(t, key)
  {
  }

  lemma Stage2Decreases(t: Tables, key: MessageKey, c: ReplyChains.ReplyChain, call: ModelCall, now: int)
    requires Claimable(t, key, ClassificationPhase, now) && t.jobs[key].status == AwaitingContext
    ensures var r := Stage2(Claim(t, key, ClassificationPhase, now), key, c, call);
            r.Ok? ==> RowMeasure(r.value, key) < RowMeasure(t, key)
  {
  }

  lemma PersistDecreases(t: Tables, key: MessageKey, c: ReplyChains.ReplyChain, translations: seq<Translation>, now: int)
    requires Claimable(t, key, ClassificationPhase, now)
    ensures var r := Persist(Claim(t, key, ClassificationPhase, now), key, c, translations);
            r.Ok? ==> key !in r.value.jobs && RowMeasure(r.value, key) < RowMeasure(t, key)
  {
  }

  /** Every committed worker transaction that claims a row strictly decreases its measure. */
  lemma WorkDecreases(t: Tables, key: MessageKey, i: Input, now: int)
    requires Claimable(t, key, PhaseOf(i), now)
    ensures RowMeasure(RunOnce(t, key, i, now), key) < RowMeasure(t, key)
  {
    var claimed := Claim(t, key, PhaseOf(i), now);
    var r := Handle(claimed, key, i, now);
    if r.Err? {
      RetryingDecreases(t, key, PhaseOf(i), r.error, now);
    } else {
      match i
      case Stage1Input(call) => Stage1Decreases(t, key, call, now);
      case ChainInput(load) => LoadingDecreases(t, key, load, now);
      case DownstreamInput(call, translations) =>
        var c := DeserializeReplyChain(claimed.jobs[key].snapshot.value);
        if claimed.jobs[key].status == AwaitingContext {
          Stage2Decreases(t, key, c.value, call, now);
        } else {
          PersistDecreases(t, key, c.value, translations, now);
        }
    }
  }

  // ----- Other rows, other steps -----

  /** A worker run touches no other row. */
  lemma WorkIsLocal(t: Tables, key: MessageKey, i: Input, now: int)
    requires Claimable(t, key, PhaseOf(i), now)
    ensures RunOnce(t, key, i, now).jobs - {key} == t.jobs - {key}
  {
    var claimed := Claim(t, key, PhaseOf(i), now);
    HandlersAreLocal(claimed, key, i, now);
    assert claimed.jobs - {key} == t.jobs - {key};
    var r := Handle(claimed, key, i, now);
    if r.Err? {
      RecoveryIsLocal(claimed, key, PhaseOf(i), r.error, now);
    }
  }

  lemma SetJobIsLocal(t: Tables, key: MessageKey, job: Job)
    ensures SetJob(t, key, job).jobs - {key} == t.jobs - {key}
  {
  }

  lemma RecoveryIsLocal(t: Tables, key: MessageKey, phase: Phase, f: Failure, now: int)
    requires key in t.jobs
    ensures Recovered(t, key, phase, f, now).jobs - {key} == t.jobs - {key}
  {
  }

  lemma PersistIsLocal(t: Tables, key: MessageKey, c: ReplyChains.ReplyChain, translations: seq<Translation>)
    requires key in t.jobs
    ensures var r := Persist(t, key, c, translations); r.Ok? ==> r.value.jobs == t.jobs - {key}
  {
  }

  lemma RemovedTwice<K, V>(m: map<K, V>, k: K)
    ensures m - {k} - {k} == m - {k}
  {
  }

  lemma HandlersAreLocal(t: Tables, key: MessageKey, i: Input, now: int)
    requires key in t.jobs
    ensures var r := Handle(t, key, i, now); r.Ok? ==> r.value.jobs - {key} == t.jobs - {key}
  {
    RemovedTwice(t.jobs, key);
    forall job ensures SetJob(t, key, job).jobs - {key} == t.jobs - {key} {
      SetJobIsLocal(t, key, job);
    }
    match i
    case Stage1Input(call) =>
    case ChainInput(load) =>
    case DownstreamInput(call, translations) =>
      if t.jobs[key].snapshot.Some? {
        var c := DeserializeReplyChain(t.jobs[key].snapshot.value);
        if c.Some? {
          PersistIsLocal(t, key, c.value, translations);
        }
      }
  }

  lemma SameElsewhere<K, V>(m: map<K, V>, n: map<K, V>, key: K, other: K)
    requires m - {key} == n - {key} && other != key
    ensures other in m <==> other in n
    ensures other in m ==> m[other] == n[other]
  {
    assert other in m <==> other in m - {key};
    assert other in n <==> other in n - {key};
    if other in m {
      assert m[other] == (m - {key})[other] == (n - {key})[other] == n[other];
    }
  }

  lemma WorkElsewhere(w: World, e: Event, key: MessageKey)
    requires e.Work? && e.key != key && Claimable(w.tables, e.key, PhaseOf(e.input), e.now)
    ensures var t, u := w.tables, Next(w, e).tables;
            && (key in t.jobs <==> key in u.jobs)
            && (key in t.jobs ==> t.jobs[key] == u.jobs[key])
  {
    WorkIsLocal(w.tables, e.key, e.input, e.now);
    SameElsewhere(RunOnce(w.tables, e.key, e.input, e.now).jobs, w.tables.jobs, e.key, key);
  }

  /** No step but a worker's claims, and none raises a row's measure unless it creates the row. */
  lemma StepKeepsBudget(w: World, e: Event, key: MessageKey)
    requires ClaimsOf(w, key) + RowMeasure(w.tables, key) <= 20
    ensures ClaimsOf(Next(w, e), key) + RowMeasure(Next(w, e).tables, key) <= 20
  {
    if e.Work? && Claimable(w.tables, e.key, PhaseOf(e.input), e.now) {
      if e.key == key {
        WorkDecreases(w.tables, key, e.input, e.now);
      } else {
        WorkElsewhere(w, e, key);
      }
    }
  }

  /**
   * Between its arrival and any later moment a row sees at most twenty worker runs, whatever is
   * interleaved; one that has seen twenty is deleted or failed. Claims whose worker vanished are
   * not counted.
   */
  lemma {:induction false} AtMostTwentyClaims(h: seq<Event>, key: MessageKey)
    ensures ClaimsOf(After(h), key) + RowMeasure(After(h).tables, key) <= 20
    ensures ClaimsOf(After(h), key) <= 20
    ensures ClaimsOf(After(h), key) == 20 && key in After(h).tables.jobs ==> After(h).tables.jobs[key].status == Failed
  {
    if h != [] {
      AtMostTwentyClaims(h[..|h| - 1], key);
      StepKeepsBudget(After(h[..|h| - 1]), h[|h| - 1], key);
    }
    MeasureIsPositive(After(h).tables, key);
  }

  lemma MeasureIsPositive(t: Tables, key: MessageKey)
    ensures RowMeasure(t, key) >= 0
    ensures RowMeasure(t, key) == 0 <==> key !in t.jobs || t.jobs[key].status == Failed
  {
  }

  // ----- Failed rows -----

  /** The step removes the row with its monitored chat, or because it has expired. */
  predicate Discards(w: World, e: Event, key: MessageKey) {
    && key in w.tables.jobs
    && ((e.RemoveChat? && w.tables.jobs[key].message.monitoredChat == e.chat)
        || (e.Cleanup? && key in e.batch && Expired(w.tables.jobs[key], e.now, e.ttl)))
  }

  lemma StepKeepsFailed(w: World, e: Event, key: MessageKey)
    requires key in w.tables.jobs && w.tables.jobs[key].status == Failed
    ensures if Discards(w, e, key) then key !in Next(w, e).tables.jobs
            else key in Next(w, e).tables.jobs && Next(w, e).tables.jobs[key] == w.tables.jobs[key]
  {
    if e.Work? && Claimable(w.tables, e.key, PhaseOf(e.input), e.now) {
      WorkElsewhere(w, e, key);
    }
  }

  ghost predicate DiscardedSince(h: seq<Event>, more: seq<Event>, key: MessageKey) {
    exists i :: 0 <= i < |more| && Discards(After(h + more[..i]), more[i], key)
  }

  lemma InitOfMore<T>(h: seq<T>, more: seq<T>)
    requires more != []
    ensures h + more != [] && (h + more)[|h + more| - 1] == more[|more| - 1]
    ensures (h + more)[..|h + more| - 1] == h + more[..|more| - 1]
  {
  }

  lemma {:induction false} AfterMore(h: seq<Event>, more: seq<Event>)
    ensures more == [] ==> After(h + more) == After(h)
    ensures more != [] ==> After(h + more) == Next(After(h + more[..|more| - 1]), more[|more| - 1])
  {
    if more == [] {
      assert h + more == h;
    } else {
      InitOfMore(h, more);
    }
  }

  lemma DiscardedSinceGrows(h: seq<Event>, more: seq<Event>, key: MessageKey)
    requires more != [] && DiscardedSince(h, more[..|more| - 1], key)
    ensures DiscardedSince(h, more, key)
  {
    var init := more[..|more| - 1];
    var i :| 0 <= i < |init| && Discards(After(h + init[..i]), init[i], key);
    assert more[..i] == init[..i];
  }

  /** A failed row is never claimed or changed again; it stays until it is discarded. */
  lemma {:induction false} FailedRowsStay(h: seq<Event>, more: seq<Event>, key: MessageKey)
    requires key in After(h).tables.jobs && After(h).tables.jobs[key].status == Failed
    ensures DiscardedSince(h, more, key)
            || (key in After(h + more).tables.jobs && After(h + more).tables.jobs[key] == After(h).tables.jobs[key])
  {
    AfterMore(h, more);
    if more != [] {
      var init := more[..|more| - 1];
      FailedRowsStay(h, init, key);
      if DiscardedSince(h, init, key) {
        DiscardedSinceGrows(h, more, key);
      } else {
        StepKeepsFailed(After(h + init), more[|more| - 1], key);
      }
    }
  }

  // ----- Attempt counters -----

  /** When every worker that claims also finishes, no row is left claimed, and each may still be retried. */
  ghost predicate Ready(job: Job) {
    job.status != Failed ==> 0 <= job.attempts <= 4 && job.lockedAt.None? && job.status != Processing
  }

  ghost predicate AllReady(t: Tables) {
    forall key :: key in t.jobs ==> Ready(t.jobs[key])
  }

  lemma WorkLeavesReady(t: Tables, key: MessageKey, i: Input, now: int)
    requires Claimable(t, key, PhaseOf(i), now) && Ready(t.jobs[key])
    ensures key in RunOnce(t, key, i, now).jobs ==> Ready(RunOnce(t, key, i, now).jobs[key])
  {
    var claimed := Claim(t, key, PhaseOf(i), now);
    var r := Handle(claimed, key, i, now);
    if r.Ok? && i.DownstreamInput? {
      var c := DeserializeReplyChain(claimed.jobs[key].snapshot.value).value;
      if claimed.jobs[key].status == AwaitingRelevant {
        PersistIsLocal(claimed, key, c, i.translations);
      }
    }
  }

  lemma StepKeepsReady(w: World, e: Event)
    requires AllReady(w.tables) && !e.ClaimOnly?
    ensures AllReady(Next(w, e).tables)
  {
    match e
    case Work(worked, input, now) =>
      if Claimable(w.tables, worked, PhaseOf(input), now) {
        WorkLeavesReady(w.tables, worked, input, now);
        WorkIsLocal(w.tables, worked, input, now);
        var t := RunOnce(w.tables, worked, input, now);
        forall key | key in t.jobs ensures Ready(t.jobs[key]) {
          if key != worked {
            SameElsewhere(t.jobs, w.tables.jobs, worked, key);
          }
        }
      }
    case _ =>
  }

  lemma {:induction false} ClaimableRowsHaveAttemptsLeft(h: seq<Event>)
    requires forall i :: 0 <= i < |h| ==> !h[i].ClaimOnly?
    ensures AllReady(After(h).tables)
  {
    if h != [] {
      ClaimableRowsHaveAttemptsLeft(h[..|h| - 1]);
      StepKeepsReady(After(h[..|h| - 1]), h[|h| - 1]);
    }
  }
}
