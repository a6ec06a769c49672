/**
 * Where queue rows come from (app/listener/events/ingestion.py): a message is enqueued only when
 * its fingerprint is admitted. Here times are whole microseconds of one clock; the queue's are
 * the whole seconds they fall in.
 */
module PipelineIngestion {
  import opened Wrappers
  import F = Fingerprints
  import opened Pipeline
  import opened PipelineTermination
  import opened PipelineSafety
  import opened PipelineHandoff
  import PipelineDatabase
  import UsageAccounting

  const SECOND := 1000000

  // ----- The persister -----

  datatype PersistOutcome = Enqueued | DuplicateSuppressed | InactiveChat

  class MessagePersister {
    const session: PipelineDatabase.Session
    const fingerprints: F.FingerprintRepository

    constructor (session: PipelineDatabase.Session, fingerprints: F.FingerprintRepository)
      ensures this.session == session && this.fingerprints == fingerprints
    {
      this.session, this.fingerprints := session, fingerprints;
    }

    /**
     * `activeChat` is the monitored chat row of the message's chat while it is active. The
     * sighting is recorded even when the message is suppressed, but not for an inactive chat.
     */
    method Persist(message: NewJob, activeChat: Option<int>, fingerprint: string, now: int, window: int)
      returns (outcome: PersistOutcome)
      modifies session`jobs, fingerprints
      ensures var k, seen := F.Key(message.key.chatId, fingerprint), old(fingerprints.seen);
              && (outcome == InactiveChat <==> activeChat.None?)
              && (outcome == Enqueued <==> activeChat.Some? && F.Admits(seen, k, now, window))
              && fingerprints.seen == (if activeChat.None? then seen else seen[k := now])
              && session.Contents() ==
                 if outcome != Enqueued then old(session.Contents())
                 else Enqueue(old(session.Contents()), message.(monitoredChat := activeChat.value), now / SECOND)
    {
      if activeChat.None? {
        return InactiveChat;
      }
      var admitted := fingerprints.RegisterFingerprint(F.Key(message.key.chatId, fingerprint), now, window);
      if !admitted {
        return DuplicateSuppressed;
      }
      var repository := new PipelineDatabase.JobRepository(session);
      var inserted := repository.Enqueue(message.(monitoredChat := activeChat.value), now / SECOND);
      return Enqueued;
    }
  }

  // ----- Histories of both tables -----

  /** A message offered for an active chat, a batch of forgotten fingerprints, or any other step of the queue. */
  datatype Step =
    | Offered(message: NewJob, fingerprint: string, now: int)
    | Forgotten(now: int, locked: set<F.Key>, removed: set<F.Key>)
    | Other(event: Event)

  function Sighted(s: Step): seq<F.Event> {
    match s
    case Offered(message, fingerprint, now) => [F.Sighting(now, F.Key(message.key.chatId, fingerprint))]
    case Forgotten(now, locked, removed) => [F.Cleanup(now, locked, removed)]
    case Other(_) => []
  }

  /** What the fingerprint table goes through. */
  function Sightings(h: seq<Step>): seq<F.Event> {
    if h == [] then [] else Sightings(h[..|h| - 1]) + Sighted(h[|h| - 1])
  }

  /** What the last step does to the queue. */
  function Queued(h: seq<Step>, window: int): seq<Event>
    requires h != []
  {
    match h[|h| - 1]
    case Offered(message, fingerprint, now) =>
      if F.Admits(F.After(Sightings(h[..|h| - 1])), F.Key(message.key.chatId, fingerprint), now, window)
      then [Arrive(message, now / SECOND)] else []
    case Forgotten(_, _, _) => []
    case Other(event) => [event]
  }

  /** What the queue goes through: the admitted messages arrive. */
  function Queue(h: seq<Step>, window: int): seq<Event> {
    if h == [] then [] else Queue(h[..|h| - 1], window) + Queued(h, window)
  }

  /** Messages arrive only by being offered, time does not run backwards, and cleanups are batches. */
  ghost predicate Legal(h: seq<Step>, ttl: int, batchSize: nat) {
    F.Legal(Sightings(h), ttl, batchSize) && forall i :: 0 <= i < |h| && h[i].Other? ==> !h[i].event.Arrive?
  }

  /** A message keeps its text, and so its fingerprint. */
  ghost predicate TextsKeep(h: seq<Step>) {
    forall i, j :: 0 <= i < |h| && 0 <= j < |h| && SameMessage(h, i, j) ==> h[i].fingerprint == h[j].fingerprint
  }

  predicate SameMessage(h: seq<Step>, i: int, j: int)
    requires 0 <= i < |h| && 0 <= j < |h|
  {
    h[i].Offered? && h[j].Offered? && h[i].message.key == h[j].message.key
  }

  /** No message is offered again a whole window after it was offered before. */
  ghost predicate WithinWindow(h: seq<Step>, window: int) {
    forall i, j :: 0 <= i < j < |h| && SameMessage(h, i, j) ==> h[j].now - h[i].now < window
  }

  // ----- From one history to the other -----

  lemma PrefixIsLegal(h: seq<Step>, ttl: int, batchSize: nat)
    requires h != [] && Legal(h, ttl, batchSize)
    ensures Legal(h[..|h| - 1], ttl, batchSize)
  {
    var init := h[..|h| - 1];
    if Sighted(h[|h| - 1]) != [] {
      assert Sightings(h)[..|Sightings(h)| - 1] == Sightings(init);
    } else {
      assert Sightings(h) == Sightings(init);
    }
    forall i | 0 <= i < |init| && init[i].Other? ensures !init[i].event.Arrive? {
      assert h[i] == init[i];
    }
  }

  lemma {:induction false} OfferIsSighted(h: seq<Step>, i: nat)
    requires i < |h| && h[i].Offered?
    ensures F.Sighting(h[i].now, F.Key(h[i].message.key.chatId, h[i].fingerprint)) in Sightings(h)
  {
    if i < |h| - 1 {
      OfferIsSighted(h[..|h| - 1], i);
    }
  }

  /** An admitted message was last offered, suppressed offers included, at least a window before. */
  lemma AdmittedOnlyAfterWindow(h: seq<Step>, i: nat, window: int, ttl: int, batchSize: nat)
    requires Legal(h, ttl, batchSize) && window <= ttl + 1
    requires i < |h| - 1 && SameMessage(h, i, |h| - 1) && h[i].fingerprint == h[|h| - 1].fingerprint
    requires Queued(h, window) != []
    ensures h[i].now + window <= h[|h| - 1].now
  {
    var init, last := h[..|h| - 1], h[|h| - 1];
    assert init[i] == h[i];
    OfferIsSighted(init, i);
    var all := Sightings(h);
    assert all[..|all| - 1] == Sightings(init);
    F.AdmittedExactlyWhenFresh(all, window, ttl, batchSize);
  }

  /** A row arrived by an offer of its message. */
  lemma {:induction false} ArrivalWasOffered(h: seq<Step>, window: int, key: MessageKey) returns (i: nat)
    requires forall j :: 0 <= j < |h| && h[j].Other? ==> !h[j].event.Arrive?
    requires Arrived(Queue(h, window), key)
    ensures i < |h| && h[i].Offered? && h[i].message.key == key
  {
    var init, last := h[..|h| - 1], |h| - 1;
    if Arrived(Queue(init, window), key) {
      assert forall j :: 0 <= j < |init| ==> init[j] == h[j];
      i := ArrivalWasOffered(init, window, key);
    } else {
      i := last;
      LastArrived(Queue(init, window), Queued(h, window), key);
    }
  }

  lemma LastArrived(before: seq<Event>, more: seq<Event>, key: MessageKey)
    requires Arrived(before + more, key)
    ensures Arrived(before, key) || Arrived(more, key)
  {
    var all := before + more;
    var i :| 0 <= i < |all| && all[i].Arrive? && all[i].message.key == key;
    if i < |before| {
      assert before[i] == all[i];
    } else {
      assert more[i - |before|] == all[i];
    }
  }

  // ----- Runs are recorded only for messages that arrived -----

  ghost predicate KnownArrived(h: seq<Event>, key: MessageKey) {
    key in After(h).tables.jobs || !Unclassified(After(h).tables, key) ==> Arrived(h, key)
  }

  lemma ArrivedStays(h: seq<Event>, key: MessageKey)
    requires h != [] && Arrived(h[..|h| - 1], key)
    ensures Arrived(h, key)
  {
    var i :| 0 <= i < |h| - 1 && h[..|h| - 1][i].Arrive? && h[..|h| - 1][i].message.key == key;
    assert h[i] == h[..|h| - 1][i];
  }

  /** A step brings in a row by its arrival, and records runs only about a row that is there. */
  lemma StepKnowsOnlyArrived(w: World, e: Event, key: MessageKey)
    requires JobsSound(w.tables)
    requires key !in w.tables.jobs && Unclassified(w.tables, key)
    requires !(e.Arrive? && e.message.key == key)
    ensures key !in Next(w, e).tables.jobs && Unclassified(Next(w, e).tables, key)
  {
    if e.Work? && Claimable(w.tables, e.key, PhaseOf(e.input), e.now) {
      assert SnapshotSound(w.tables.jobs[e.key], e.key);
      WorkElsewhere(w, e, key);
      WorkKeepsOthers(w.tables, e.key, e.input, e.now, key);
    }
  }

  lemma {:induction false} OnlyArrivedIsKnown(h: seq<Event>, key: MessageKey)
    requires HonestRun(h)
    ensures KnownArrived(h, key)
  {
    if h != [] {
      var init, last := h[..|h| - 1], h[|h| - 1];
      OnlyArrivedIsKnown(init, key);
      TablesAlwaysSound(init);
      if Arrived(init, key) {
        ArrivedStays(h, key);
      } else if !(last.Arrive? && last.message.key == key) {
        StepKnowsOnlyArrived(After(init), last, key);
      }
    }
  }

  // ----- First-time arrival, for every run within the window -----

  lemma HonestPrefix(before: seq<Event>, more: seq<Event>)
    requires HonestRun(before + more)
    ensures HonestRun(before)
  {
    forall i | 0 <= i < |before| && before[i].Work? ensures HonestInput(before[i].input) {
      assert (before + more)[i] == before[i];
    }
  }

  /** The last offer, if admitted, is of a message nothing is known about. */
  lemma AdmittedIsUnclassified(h: seq<Step>, window: int, ttl: int, batchSize: nat)
    requires Legal(h, ttl, batchSize) && TextsKeep(h) && WithinWindow(h, window) && window <= ttl + 1
    requires h != [] && h[|h| - 1].Offered? && Queued(h, window) != []
    requires HonestRun(Queue(h[..|h| - 1], window))
    ensures Unclassified(After(Queue(h[..|h| - 1], window)).tables, h[|h| - 1].message.key)
  {
    var init, key := h[..|h| - 1], h[|h| - 1].message.key;
    OnlyArrivedIsKnown(Queue(init, window), key);
    if Arrived(Queue(init, window), key) {
      PrefixIsLegal(h, ttl, batchSize);
      var i := ArrivalWasOffered(init, window, key);
      assert h[i] == init[i];
      assert SameMessage(h, i, |h| - 1);
      AdmittedOnlyAfterWindow(h, i, window, ttl, batchSize);
    }
  }

  lemma StepsStayWithin(h: seq<Step>, window: int)
    requires h != [] && TextsKeep(h) && WithinWindow(h, window)
    ensures TextsKeep(h[..|h| - 1]) && WithinWindow(h[..|h| - 1], window)
  {
    var init := h[..|h| - 1];
    forall i, j | 0 <= i < |init| && 0 <= j < |init| && SameMessage(init, i, j)
      ensures init[i].fingerprint == init[j].fingerprint && (i < j ==> init[j].now - init[i].now < window)
    {
      assert SameMessage(h, i, j);
    }
  }

  /** Ingestion makes every run first-time in which no message comes back after a whole window. */
  lemma {:induction false} RunsWithinWindowAreFirstTime(h: seq<Step>, window: int, ttl: int, batchSize: nat)
    requires Legal(h, ttl, batchSize) && TextsKeep(h) && WithinWindow(h, window) && window <= ttl + 1
    requires HonestRun(Queue(h, window))
    ensures FirstTime(Queue(h, window))
  {
    if h != [] {
      var init := h[..|h| - 1];
      PrefixIsLegal(h, ttl, batchSize);
      StepsStayWithin(h, window);
      HonestPrefix(Queue(init, window), Queued(h, window));
      RunsWithinWindowAreFirstTime(init, window, ttl, batchSize);
      if Queued(h, window) == [] {
        assert Queue(h, window) == Queue(init, window);
      } else {
        if h[|h| - 1].Offered? {
          AdmittedIsUnclassified(h, window, ttl, batchSize);
        }
        FirstTimeSnoc(Queue(init, window), Queued(h, window)[0]);
      }
    }
  }

  /**
   * So for every such run, with no assumption about recorded runs, a claimed downstream row fails
   * exactly by the model call or because the message itself could not be read.
   */
  lemma {:induction false} HandoffHoldsWithinWindow(
    h: seq<Step>, window: int, ttl: int, batchSize: nat,
    key: MessageKey, call: ModelCall, translations: seq<Translation>, now: int
  )
    requires Legal(h, ttl, batchSize) && TextsKeep(h) && WithinWindow(h, window) && window <= ttl + 1
    requires HonestRun(Queue(h, window)) && Claimable(After(Queue(h, window)).tables, key, ClassificationPhase, now)
    ensures FailsOnlyAsExpected(Claim(After(Queue(h, window)).tables, key, ClassificationPhase, now), key, call, translations)
  {
    RunsWithinWindowAreFirstTime(h, window, ttl, batchSize);
    HandoffGuardsNeverFire(Queue(h, window), key, call, translations, now);
  }

  // ----- A message that comes back later -----

  /** The same message offered twice; the model finds it irrelevant, then relevant. */
  function OfferedAgain(message: NewJob, fingerprint: string, later: int): seq<Step> {
    [Offered(message, fingerprint, 0)]
    + [Other(Work(message.key, Stage1Input(Answer(UsageAccounting.Irrelevant)), 0))]
    + [Offered(message, fingerprint, later)]
    + [Other(Work(message.key, Stage1Input(Answer(UsageAccounting.Relevant)), later / SECOND))]
  }

  lemma QueueSnoc(h: seq<Step>, s: Step, window: int)
    ensures Queue(h + [s], window) == Queue(h, window) + Queued(h + [s], window)
    ensures Sightings(h + [s]) == Sightings(h) + Sighted(s)
  {
    assert (h + [s])[..|h|] == h;
  }

  lemma OfferedOnce(message: NewJob, fingerprint: string, window: int)
    ensures var h := [Offered(message, fingerprint, 0)] + [Other(Work(message.key, Stage1Input(Answer(UsageAccounting.Irrelevant)), 0))];
            && Sightings(h) == [F.Sighting(0, F.Key(message.key.chatId, fingerprint))]
            && Queue(h, window) == [Arrive(message, 0)] + [Work(message.key, Stage1Input(Answer(UsageAccounting.Irrelevant)), 0)]
  {
    var first := Offered(message, fingerprint, 0);
    assert [] + [first] == [first];
    assert [first][..0] == [];
    QueueSnoc([], first, window);
    QueueSnoc([first], Other(Work(message.key, Stage1Input(Answer(UsageAccounting.Irrelevant)), 0)), window);
  }

  /** It is enqueued again exactly when it comes back at least a window later, and is then refused. */
  lemma OfferedAgainIsEnqueuedAfterWindow(message: NewJob, fingerprint: string, later: int, window: int)
    requires 0 <= later
    ensures later >= window ==> Queue(OfferedAgain(message, fingerprint, later), window) == EnqueuedAgain(message, later / SECOND)
    ensures later < window ==> !exists i :: 2 <= i < |Queue(OfferedAgain(message, fingerprint, later), window)|
                                            && Queue(OfferedAgain(message, fingerprint, later), window)[i].Arrive?
  {
    var h2 := [Offered(message, fingerprint, 0)] + [Other(Work(message.key, Stage1Input(Answer(UsageAccounting.Irrelevant)), 0))];
    var again := Offered(message, fingerprint, later);
    var work := Other(Work(message.key, Stage1Input(Answer(UsageAccounting.Relevant)), later / SECOND));
    OfferedOnce(message, fingerprint, window);
    OnceSeen(F.Key(message.key.chatId, fingerprint));
    QueueSnoc(h2, again, window);
    assert (h2 + [again])[..|h2|] == h2;
    QueueSnoc(h2 + [again], work, window);
  }

  /** Both offers are possible: nothing else is asked of the run than that time goes forward. */
  lemma OfferedAgainIsLegal(message: NewJob, fingerprint: string, later: int, ttl: int, batchSize: nat)
    requires 0 <= later
    ensures Legal(OfferedAgain(message, fingerprint, later), ttl, batchSize) && TextsKeep(OfferedAgain(message, fingerprint, later))
  {
    var h2 := [Offered(message, fingerprint, 0)] + [Other(Work(message.key, Stage1Input(Answer(UsageAccounting.Irrelevant)), 0))];
    var again := Offered(message, fingerprint, later);
    var work := Other(Work(message.key, Stage1Input(Answer(UsageAccounting.Relevant)), later / SECOND));
    OfferedOnce(message, fingerprint, 0);
    QueueSnoc(h2, again, 0);
    QueueSnoc(h2 + [again], work, 0);
    TwoSightingsAreLegal(F.Key(message.key.chatId, fingerprint), later, ttl, batchSize);
    assert Sightings(OfferedAgain(message, fingerprint, later)) == Sighted(Offered(message, fingerprint, 0)) + Sighted(again);
  }

  lemma TwoSightingsAreLegal(k: F.Key, later: int, ttl: int, batchSize: nat)
    requires 0 <= later
    ensures F.Legal([F.Sighting(0, k)] + [F.Sighting(later, k)], ttl, batchSize)
  {
    assert [F.Sighting(0, k)][..0] == [];
    F.LegalGrows([F.Sighting(0, k)], F.Sighting(later, k), ttl, batchSize);
  }

  lemma OnceSeen(k: F.Key)
    ensures F.After([F.Sighting(0, k)]) == map[k := 0]
  {
    assert [F.Sighting(0, k)][..0] == [];
  }
}
