/** Deduplicated operator alerts (app/database/repositories/operational_alerts.py). */
module OperationalAlerts {
  import opened Wrappers

  /** The unique `deduplication_key`; amounts are micro-dollars, times microseconds. */
  datatype AlertKey =
    | BudgetKey(month: string, threshold: int)
    | FailureKey(condition: string, episode: int)

  datatype Condition = Condition(failingSince: int, updatedAt: int)

  datatype State = State(alerts: seq<AlertKey>, conditions: map<string, Condition>)

  /** INSERT ... ON CONFLICT DO NOTHING. */
  function Insert(alerts: seq<AlertKey>, k: AlertKey): seq<AlertKey> {
    if k in alerts then alerts else alerts + [k]
  }

  function EnqueueBudget(alerts: seq<AlertKey>, month: string, cost: int, thresholds: seq<int>): seq<AlertKey> {
    if thresholds == [] then alerts
    else
      var t := thresholds[|thresholds| - 1];
      var before := EnqueueBudget(alerts, month, cost, thresholds[..|thresholds| - 1]);
      if cost < t then before else Insert(before, BudgetKey(month, t))
  }

  function Observe(s: State, now: int, condition: string, failing: bool, threshold: int): State {
    if !failing then s.(conditions := s.conditions - {condition})
    else
      var since := if condition in s.conditions then s.conditions[condition].failingSince else now;
      State(
        if now - since < threshold then s.alerts else Insert(s.alerts, FailureKey(condition, since)),
        s.conditions[condition := Condition(since, now)])
  }

  class OperationalAlertRepository {
    var alerts: seq<AlertKey>
    var conditions: map<string, Condition>

    ghost function Contents(): State
      reads this
    {
      State(alerts, conditions)
    }

    constructor ()
      ensures Contents() == State([], map[])
    {
      alerts, conditions := [], map[];
    }

    method EnqueueBudgetThresholds(month: string, cost: int, thresholds: seq<int>) returns (created: int)
      modifies this`alerts
      ensures alerts == EnqueueBudget(old(alerts), month, cost, thresholds)
      ensures created == |alerts| - |old(alerts)|
    {
      created := 0;
      for i := 0 to |thresholds|
        invariant alerts == EnqueueBudget(old(alerts), month, cost, thresholds[..i])
        invariant created == |alerts| - |old(alerts)|
      {
        assert thresholds[..i + 1][..i] == thresholds[..i];
        if cost < thresholds[i] {
          continue;
        }
        var key := BudgetKey(month, thresholds[i]);
        if key !in alerts {
          alerts := alerts + [key];
          created := created + 1;
        }
      }
      assert thresholds[..|thresholds|] == thresholds;
    }

    method ObserveCondition(now: int, condition: string, failing: bool, threshold: int) returns (created: bool)
      modifies this
      ensures Contents() == Observe(old(Contents()), now, condition, failing, threshold)
      ensures created <==> alerts != old(alerts)
    {
      if !failing {
        if condition in conditions {
          conditions := conditions - {condition};
        }
        return false;
      }
      if condition !in conditions {
        conditions := conditions[condition := Condition(now, now)];
      } else {
        conditions := conditions[condition := conditions[condition].(updatedAt := now)];
      }
      if now - conditions[condition].failingSince < threshold {
        return false;
      }
      var key := FailureKey(condition, conditions[condition].failingSince);
      if key in alerts {
        return false;
      }
      alerts := alerts + [key];
      assert |alerts| == |old(alerts)| + 1;
      return true;
    }
  }

  // ----- Histories -----

  datatype Event =
    | Budget(month: string, cost: int, thresholds: seq<int>)
    | Observation(now: int, condition: string, failing: bool, threshold: int)

  function Next(s: State, e: Event): State {
    match e
    case Budget(month, cost, thresholds) => s.(alerts := EnqueueBudget(s.alerts, month, cost, thresholds))
    case Observation(now, c, failing, threshold) => Observe(s, now, c, failing, threshold)
  }

  function After(h: seq<Event>): State {
    if h == [] then State([], map[]) else Next(After(h[..|h| - 1]), h[|h| - 1])
  }

  ghost predicate Unique(alerts: seq<AlertKey>) {
    forall i, j :: 0 <= i < j < |alerts| ==> alerts[i] != alerts[j]
  }

  lemma {:induction false} EnqueueBudgetAlerts(alerts: seq<AlertKey>, month: string, cost: int, thresholds: seq<int>)
    ensures forall k :: k in EnqueueBudget(alerts, month, cost, thresholds) <==>
              k in alerts || (k.BudgetKey? && k.month == month && k.threshold in thresholds && cost >= k.threshold)
    ensures Unique(alerts) ==> Unique(EnqueueBudget(alerts, month, cost, thresholds))
  {
    if thresholds != [] {
      EnqueueBudgetAlerts(alerts, month, cost, thresholds[..|thresholds| - 1]);
      assert thresholds == thresholds[..|thresholds| - 1] + [thresholds[|thresholds| - 1]];
    }
  }

  /** No alert is ever created twice. */
  lemma {:induction false} AlertsAreUnique(h: seq<Event>)
    ensures Unique(After(h).alerts)
  {
    if h != [] {
      var last := h[|h| - 1];
      AlertsAreUnique(h[..|h| - 1]);
      if last.Budget? {
        EnqueueBudgetAlerts(After(h[..|h| - 1]).alerts, last.month, last.cost, last.thresholds);
      }
    }
  }

  /** A month's alerts are exactly the thresholds that some observed cost of the month reached. */
  lemma {:induction false} BudgetAlertsAreReachedThresholds(h: seq<Event>, month: string, threshold: int)
    ensures BudgetKey(month, threshold) in After(h).alerts <==>
            exists e :: e in h && e.Budget? && e.month == month && threshold in e.thresholds && e.cost >= threshold
  {
    if h != [] {
      var init, last := h[..|h| - 1], h[|h| - 1];
      assert h == init + [last];
      BudgetAlertsAreReachedThresholds(init, month, threshold);
      if last.Budget? {
        EnqueueBudgetAlerts(After(init).alerts, last.month, last.cost, last.thresholds);
      }
      assert last in h;
    }
  }

  /**
   * A failing observation keeps the time the condition began to fail and notes its own; a passing one
   * forgets the condition. No other condition is touched.
   */
  lemma ObservationIsWritten(s: State, now: int, condition: string, failing: bool, threshold: int)
    ensures var t := Observe(s, now, condition, failing, threshold);
            && (condition in t.conditions <==> failing)
            && (failing ==>
                  && t.conditions[condition].updatedAt == now
                  && t.conditions[condition].failingSince ==
                     (if condition in s.conditions then s.conditions[condition].failingSince else now))
            && (forall c :: c != condition ==>
                  (c in t.conditions <==> c in s.conditions)
                  && (c in t.conditions ==> t.conditions[c] == s.conditions[c]))
  {
  }

  // ----- Failure episodes -----

  datatype Sample = Sample(now: int, failing: bool, threshold: int)

  /** The observations of one condition, in order. */
  function SamplesOf(h: seq<Event>, condition: string): seq<Sample> {
    if h == [] then []
    else
      var before, last := SamplesOf(h[..|h| - 1], condition), h[|h| - 1];
      if last.Observation? && last.condition == condition
      then before + [Sample(last.now, last.failing, last.threshold)] else before
  }

  /** Sample `i` begins a maximal run of failing samples. */
  predicate StartsEpisode(o: seq<Sample>, i: int) {
    0 <= i < |o| && o[i].failing && (i > 0 ==> !o[i - 1].failing)
  }

  /** Sample `j` lies in the episode that sample `i` begins. */
  predicate InEpisode(o: seq<Sample>, i: int, j: int) {
    StartsEpisode(o, i) && i <= j < |o| && forall m :: i <= m <= j ==> o[m].failing
  }

  /** Some sample of the episode reached its threshold. */
  ghost predicate EpisodeIsDue(o: seq<Sample>, i: int) {
    exists j :: InEpisode(o, i, j) && o[j].now - o[i].now >= o[j].threshold
  }

  ghost predicate TimesIncrease(o: seq<Sample>) {
    forall i, j :: 0 <= i < j < |o| ==> o[i].now < o[j].now
  }

  /** The index where the episode still running at the end of `o` began. */
  function OpenEpisode(o: seq<Sample>): (i: Option<int>)
    ensures i.Some? ==> InEpisode(o, i.value, |o| - 1)
    ensures i.None? ==> o == [] || !o[|o| - 1].failing
  {
    if o == [] || !o[|o| - 1].failing then None
    else
      var before := OpenEpisode(o[..|o| - 1]);
      if before.Some? then before else Some(|o| - 1)
  }

  lemma OpenEpisodeGrows(o: seq<Sample>, x: Sample)
    ensures OpenEpisode(o + [x]) ==
            if !x.failing then None else if OpenEpisode(o).Some? then OpenEpisode(o) else Some(|o|)
  {
  }

  /** The stored condition row is the start of the running episode. */
  lemma {:induction false} ConditionRowIsOpenEpisode(h: seq<Event>, c: string)
    ensures var o, s := SamplesOf(h, c), After(h);
            (c in s.conditions <==> OpenEpisode(o).Some?)
            && (c in s.conditions ==> s.conditions[c].failingSince == o[OpenEpisode(o).value].now)
  {
    if h != [] {
      var before, last := SamplesOf(h[..|h| - 1], c), h[|h| - 1];
      ConditionRowIsOpenEpisode(h[..|h| - 1], c);
      if last.Observation? && last.condition == c {
        OpenEpisodeGrows(before, Sample(last.now, last.failing, last.threshold));
      }
    }
  }

  lemma OnlyOneOpenEpisode(o: seq<Sample>, i: int, j: int)
    requires InEpisode(o, i, |o| - 1) && InEpisode(o, j, |o| - 1)
    ensures i == j
  {
  }

  lemma InEpisodePrefix(o: seq<Sample>, x: Sample, i: int, j: int)
    requires j < |o|
    ensures InEpisode(o + [x], i, j) <==> InEpisode(o, i, j)
  {
    var p := o + [x];
    if InEpisode(p, i, j) {
      assert forall m :: i <= m <= j ==> p[m] == o[m];
      assert forall m :: i <= m <= j ==> o[m].failing by {
        forall m | i <= m <= j ensures o[m].failing {
          assert p[m].failing;
        }
      }
    }
    if InEpisode(o, i, j) {
      forall m | i <= m <= j ensures p[m].failing {
        assert o[m].failing;
      }
    }
  }

  /** One more sample makes an episode due only if it lies in it and reaches its threshold. */
  lemma DueGrows(o: seq<Sample>, x: Sample, i: int)
    requires 0 <= i <= |o|
    ensures EpisodeIsDue(o + [x], i) <==>
            (i < |o| && EpisodeIsDue(o, i)) || (InEpisode(o + [x], i, |o|) && x.now - (o + [x])[i].now >= x.threshold)
  {
    var p := o + [x];
    if EpisodeIsDue(p, i) {
      var j :| InEpisode(p, i, j) && p[j].now - p[i].now >= p[j].threshold;
      if j < |o| {
        InEpisodePrefix(o, x, i, j);
        assert InEpisode(o, i, j) && o[j].now - o[i].now >= o[j].threshold;
      }
    }
    if i < |o| && EpisodeIsDue(o, i) {
      var j :| InEpisode(o, i, j) && o[j].now - o[i].now >= o[j].threshold;
      InEpisodePrefix(o, x, i, j);
      assert InEpisode(p, i, j) && p[j].now - p[i].now >= p[j].threshold;
    }
    if InEpisode(p, i, |o|) && x.now - p[i].now >= x.threshold {
      assert p[|o|].now - p[i].now >= p[|o|].threshold;
    }
  }

  ghost predicate DueAt(o: seq<Sample>, s: int) {
    exists i :: 0 <= i < |o| && o[i].now == s && EpisodeIsDue(o, i)
  }

  /** What one more sample adds to the due starts: at most the start of the running episode. */
  lemma DueAtGrows(o: seq<Sample>, x: Sample, s: int)
    ensures var p := o + [x];
            DueAt(p, s) <==>
            DueAt(o, s) || (x.failing && s == p[OpenEpisode(p).value].now && x.now - s >= x.threshold)
  {
    var p := o + [x];
    if DueAt(p, s) {
      var i :| 0 <= i < |p| && p[i].now == s && EpisodeIsDue(p, i);
      DueGrows(o, x, i);
      if i < |o| && EpisodeIsDue(o, i) {
        assert o[i].now == s;
      } else {
        OnlyOneOpenEpisode(p, i, OpenEpisode(p).value);
      }
    }
    if DueAt(o, s) {
      var i :| 0 <= i < |o| && o[i].now == s && EpisodeIsDue(o, i);
      DueGrows(o, x, i);
      assert p[i].now == s;
    }
    if x.failing {
      DueGrows(o, x, OpenEpisode(p).value);
    }
  }

  /** An alert for a condition carries exactly the start time of an episode that became due. */
  lemma {:induction false} FailureAlertsAreDueStarts(h: seq<Event>, c: string, s: int)
    ensures FailureKey(c, s) in After(h).alerts <==> DueAt(SamplesOf(h, c), s)
  {
    if h != [] {
      var init, last := h[..|h| - 1], h[|h| - 1];
      FailureAlertsAreDueStarts(init, c, s);
      if last.Budget? {
        EnqueueBudgetAlerts(After(init).alerts, last.month, last.cost, last.thresholds);
      } else if last.condition == c {
        var x := Sample(last.now, last.failing, last.threshold);
        DueAtGrows(SamplesOf(init, c), x, s);
        ConditionRowIsOpenEpisode(init, c);
        OpenEpisodeGrows(SamplesOf(init, c), x);
      }
    }
  }

  /**
   * With strictly increasing times, an episode has an alert exactly when one of its observations
   * reached its threshold, and every alert belongs to exactly one episode.
   */
  lemma AlertsMatchEpisodes(h: seq<Event>, c: string)
    requires TimesIncrease(SamplesOf(h, c))
    ensures var o := SamplesOf(h, c);
            && (forall i :: StartsEpisode(o, i) ==> (FailureKey(c, o[i].now) in After(h).alerts <==> EpisodeIsDue(o, i)))
            && (forall s :: FailureKey(c, s) in After(h).alerts ==>
                  exists i :: StartsEpisode(o, i) && o[i].now == s && forall k :: 0 <= k < |o| && o[k].now == s ==> k == i)
  {
    var o := SamplesOf(h, c);
    forall i | StartsEpisode(o, i) ensures FailureKey(c, o[i].now) in After(h).alerts <==> EpisodeIsDue(o, i) {
      FailureAlertsAreDueStarts(h, c, o[i].now);
      if DueAt(o, o[i].now) {
        var k :| 0 <= k < |o| && o[k].now == o[i].now && EpisodeIsDue(o, k);
        assert k == i;
      }
    }
    forall s | FailureKey(c, s) in After(h).alerts
      ensures exists i :: StartsEpisode(o, i) && o[i].now == s && forall k :: 0 <= k < |o| && o[k].now == s ==> k == i
    {
      FailureAlertsAreDueStarts(h, c, s);
      var i :| 0 <= i < |o| && o[i].now == s && EpisodeIsDue(o, i);
      assert StartsEpisode(o, i);
    }
  }
}
