/** Idempotent classification usage and cost accounting (app/classifier/usage.py). */
module UsageAccounting {
  import opened Calendar

  // ----- Money: amounts are whole micro-dollars, the database quantum -----

  /** `n` is the whole amount nearest to `x`, an exact half rounded away from zero. */
  predicate IsNearest(n: int, x: real) {
    && -0.5 <= n as real - x <= 0.5
    && (x >= 0.0 ==> n as real - x != -0.5)
    && (x < 0.0 ==> n as real - x != 0.5)
  }

  /** Decimal quantisation with ROUND_HALF_UP: to the nearest unit, ties away from zero. */
  function HalfUp(x: real): (r: int)
    ensures IsNearest(r, x)
    ensures x >= 0.0 ==> r >= 0
  {
    if x >= 0.0 then (x + 0.5).Floor else -(-x + 0.5).Floor
  }

  /** Any nearest whole amount that breaks ties away from zero is the rounded one. */
  lemma HalfUpIsNearest(x: real, n: int)
    requires IsNearest(n, x)
    ensures n == HalfUp(x)
  {
  }

  function Charge(tokens: int, perMillion: real): real {
    tokens as real * perMillion
  }

  /** Prices in dollars per million tokens, which is micro-dollars per token. */
  datatype Pricing = Pricing(inputPerMillion: real, outputPerMillion: real) {
    function Estimate(inputTokens: int, outputTokens: int): int {
      var input, output := Charge(inputTokens, inputPerMillion), Charge(outputTokens, outputPerMillion);
      HalfUp(input + output)
    }
  }

  lemma SumIsRounded(n: int, x: real, y: real, a: real, b: real)
    requires n == HalfUp(x + y) && x == a && y == b
    ensures IsNearest(n, a + b)
  {
  }

  /** An estimate is the nearest amount to the price of the input tokens plus the price of the output tokens. */
  lemma EstimateIsNearest(p: Pricing, inputTokens: int, outputTokens: int)
    ensures IsNearest(p.Estimate(inputTokens, outputTokens),
                      inputTokens as real * p.inputPerMillion + outputTokens as real * p.outputPerMillion)
  {
    SumIsRounded(p.Estimate(inputTokens, outputTokens),
                 Charge(inputTokens, p.inputPerMillion), Charge(outputTokens, p.outputPerMillion),
                 inputTokens as real * p.inputPerMillion, outputTokens as real * p.outputPerMillion);
  }

  lemma NoTokensCostNothing(price: real)
    ensures 0 as real * price == 0.0
  {
  }

  /** Input alone is charged at the input price, output alone at the output price. */
  lemma PricesAreSeparate(p: Pricing, tokens: int)
    ensures IsNearest(p.Estimate(tokens, 0), tokens as real * p.inputPerMillion)
    ensures IsNearest(p.Estimate(0, tokens), tokens as real * p.outputPerMillion)
  {
    EstimateIsNearest(p, tokens, 0);
    EstimateIsNearest(p, 0, tokens);
    NoTokensCostNothing(p.inputPerMillion);
    NoTokensCostNothing(p.outputPerMillion);
  }

  function ProjectMonthCost(monthToDate: int, asOf: Date): int
    requires asOf.Valid()
  {
    HalfUp(monthToDate as real * DaysInMonth(asOf.year, asOf.month) as real / asOf.day as real)
  }

  /** The projection is the nearest amount to the average day so far, times the days of the month. */
  lemma ProjectionIsNearest(monthToDate: int, asOf: Date)
    requires asOf.Valid()
    ensures var leap := asOf.year % 400 == 0 || (asOf.year % 4 == 0 && asOf.year % 100 != 0);
            var days := [31, if leap then 29 else 28, 31, 30, 31, 30, 31, 31, 30, 31, 30, 31][asOf.month - 1];
            IsNearest(ProjectMonthCost(monthToDate, asOf), monthToDate as real * days as real / asOf.day as real)
  {
  }

  /** On the last day of a month the projection is the month's cost itself. */
  lemma ProjectionOnLastDay(monthToDate: int, asOf: Date)
    requires asOf.Valid() && asOf.day == DaysInMonth(asOf.year, asOf.month)
    ensures ProjectMonthCost(monthToDate, asOf) == monthToDate
  {
  }

  /** A projection never falls below what has already been spent. */
  lemma ProjectionCoversSpending(monthToDate: int, asOf: Date)
    requires asOf.Valid() && monthToDate >= 0
    ensures ProjectMonthCost(monthToDate, asOf) >= monthToDate
  {
    var total, days, d := monthToDate as real, DaysInMonth(asOf.year, asOf.month) as real, asOf.day as real;
    assert total * days >= total * d;
    QuotientCovers(total * days, d, total);
  }

  lemma QuotientCovers(a: real, d: real, t: real)
    requires d > 0.0 && a >= t * d
    ensures a / d >= t
  {
  }

  // ----- Tables -----

  datatype RunKey = RunKey(chatId: int, messageId: int, stage: int)

  datatype Verdict = Irrelevant | Relevant | ContextRequired

  datatype Run = Run(key: RunKey, verdict: Verdict, model: string, inputTokens: int, outputTokens: int, costMicros: int)

  datatype Totals = Totals(requests: int, inputTokens: int, outputTokens: int, costMicros: int) {
    function Plus(t: Totals): Totals {
      Totals(requests + t.requests, inputTokens + t.inputTokens, outputTokens + t.outputTokens, costMicros + t.costMicros)
    }
  }

  const ZERO := Totals(0, 0, 0, 0)

  datatype DailyRow = DailyRow(date: Date, model: string, totals: Totals)

  /** `classification_runs` and `api_usage_daily`. */
  datatype Usage = Usage(runs: seq<Run>, daily: seq<DailyRow>)

  predicate Recorded(runs: seq<Run>, key: RunKey) {
    exists i :: 0 <= i < |runs| && runs[i].key == key
  }

  /** INSERT ... ON CONFLICT (usage_date, model) DO UPDATE, adding to the existing row. */
  function Upsert(rows: seq<DailyRow>, date: Date, model: string, extra: Totals): seq<DailyRow> {
    if rows == [] then [DailyRow(date, model, extra)]
    else if rows[0].date == date && rows[0].model == model then
      [rows[0].(totals := rows[0].totals.Plus(extra))] + rows[1..]
    else [rows[0]] + Upsert(rows[1..], date, model, extra)
  }

  /** One model call whose usage is to be recorded. */
  datatype Recording = Recording(
    today: Date, key: RunKey, verdict: Verdict, model: string, inputTokens: int, outputTokens: int, pricing: Pricing
  ) {
    function Cost(): int {
      pricing.Estimate(inputTokens, outputTokens)
    }

    function ToRun(): Run {
      Run(key, verdict, model, inputTokens, outputTokens, Cost())
    }

    function ToTotals(): Totals {
      Totals(1, inputTokens, outputTokens, Cost())
    }
  }

  function Record(u: Usage, r: Recording): Usage {
    if Recorded(u.runs, r.key) then u
    else Usage(u.runs + [r.ToRun()], Upsert(u.daily, r.today, r.model, r.ToTotals()))
  }

  class UsageRepository {
    var runs: seq<Run>
    var daily: seq<DailyRow>

    ghost function Contents(): Usage
      reads this
    {
      Usage(runs, daily)
    }

    constructor ()
      ensures Contents() == Usage([], [])
    {
      runs, daily := [], [];
    }

    method RecordStage(r: Recording) returns (inserted: bool)
      modifies this
      ensures Contents() == Record(old(Contents()), r)
      ensures inserted <==> !Recorded(old(runs), r.key)
    {
      if Recorded(runs, r.key) {
        return false;
      }
      runs := runs + [r.ToRun()];
      daily := Upsert(daily, r.today, r.model, r.ToTotals());
      return true;
    }

    /** SUM over the daily rows of the month, then the projection. */
    method ProjectedMonthCost(asOf: Date) returns (cost: int)
      requires asOf.Valid()
      ensures cost == ProjectMonthCost(MonthSum(daily, asOf), asOf)
    {
      var total := 0;
      for i := 0 to |daily|
        invariant total == MonthSum(daily[..i], asOf)
      {
        if InMonthUpTo(daily[i].date, asOf) {
          total := total + daily[i].totals.costMicros;
        }
        assert daily[..i + 1][..i] == daily[..i];
      }
      assert daily[..|daily|] == daily;
      cost := ProjectMonthCost(total, asOf);
    }
  }

  predicate InMonthUpTo(d: Date, asOf: Date) {
    d.year == asOf.year && d.month == asOf.month && 1 <= d.day <= asOf.day
  }

  function MonthSum(rows: seq<DailyRow>, asOf: Date): int {
    if rows == [] then 0
    else
      MonthSum(rows[..|rows| - 1], asOf)
      + (if InMonthUpTo(rows[|rows| - 1].date, asOf) then rows[|rows| - 1].totals.costMicros else 0)
  }

  // ----- Histories of recordings -----

  function After(h: seq<Recording>): Usage {
    if h == [] then Usage([], []) else Record(After(h[..|h| - 1]), h[|h| - 1])
  }

  /** The last recording of `h` is the first one for its message and stage. */
  predicate IsFirst(h: seq<Recording>)
    requires h != []
  {
    forall i :: 0 <= i < |h| - 1 ==> h[i].key != h[|h| - 1].key
  }

  /** Independent reference: sum over the first recordings of a day and model. */
  function Expected(h: seq<Recording>, date: Date, model: string): Totals {
    if h == [] then ZERO
    else
      var before, last := Expected(h[..|h| - 1], date, model), h[|h| - 1];
      if IsFirst(h) && last.today == date && last.model == model then
        Totals(before.requests + 1,
               before.inputTokens + last.inputTokens,
               before.outputTokens + last.outputTokens,
               before.costMicros + last.pricing.Estimate(last.inputTokens, last.outputTokens))
      else before
  }

  function ExpectedMonth(h: seq<Recording>, asOf: Date): int {
    if h == [] then 0
    else
      var before, last := ExpectedMonth(h[..|h| - 1], asOf), h[|h| - 1];
      if IsFirst(h) && last.today.year == asOf.year && last.today.month == asOf.month && 1 <= last.today.day <= asOf.day
      then before + last.pricing.Estimate(last.inputTokens, last.outputTokens) else before
  }

  /** The exact, unrounded cost of the same recordings. */
  function ExactCost(h: seq<Recording>, date: Date, model: string): real {
    if h == [] then 0.0
    else
      var before, last := ExactCost(h[..|h| - 1], date, model), h[|h| - 1];
      if IsFirst(h) && last.today == date && last.model == model
      then before + (last.inputTokens as real * last.pricing.inputPerMillion
                     + last.outputTokens as real * last.pricing.outputPerMillion)
      else before
  }

  function TotalsAt(rows: seq<DailyRow>, date: Date, model: string): Totals {
    if rows == [] then ZERO
    else if rows[0].date == date && rows[0].model == model then rows[0].totals
    else TotalsAt(rows[1..], date, model)
  }

  ghost predicate UniqueKeys(runs: seq<Run>) {
    forall i, j :: 0 <= i < j < |runs| ==> runs[i].key != runs[j].key
  }

  ghost predicate UniqueRows(rows: seq<DailyRow>) {
    forall i, j :: 0 <= i < j < |rows| ==> (rows[i].date, rows[i].model) != (rows[j].date, rows[j].model)
  }

  /** At most one run per message and stage, and one exists exactly when something was recorded. */
  lemma {:induction false} OneRunPerStage(h: seq<Recording>)
    ensures UniqueKeys(After(h).runs)
    ensures forall k :: Recorded(After(h).runs, k) <==> exists i :: 0 <= i < |h| && h[i].key == k
  {
    if h != [] {
      var init, last := h[..|h| - 1], h[|h| - 1];
      OneRunPerStage(init);
      forall k ensures Recorded(After(h).runs, k) <==> exists i :: 0 <= i < |h| && h[i].key == k {
        RecordedAfter(After(init), last, k);
        if Recorded(After(init).runs, k) {
          var i :| 0 <= i < |init| && init[i].key == k;
          assert h[i].key == k;
        }
        if exists i :: 0 <= i < |h| && h[i].key == k {
          var i :| 0 <= i < |h| && h[i].key == k;
          if i < |init| {
            assert init[i].key == k;
          }
        }
        assert h[|h| - 1] == last;
      }
    }
  }

  lemma RecordedAfter(u: Usage, r: Recording, k: RunKey)
    ensures Recorded(Record(u, r).runs, k) <==> Recorded(u.runs, k) || k == r.key
  {
    if !Recorded(u.runs, r.key) {
      var runs := Record(u, r).runs;
      assert runs[|u.runs|].key == r.key;
      if Recorded(u.runs, k) {
        var i :| 0 <= i < |u.runs| && u.runs[i].key == k;
        assert runs[i].key == k;
      }
    }
  }

  lemma {:induction false} UpsertTotals(rows: seq<DailyRow>, date: Date, model: string, extra: Totals, d: Date, m: string)
    ensures TotalsAt(Upsert(rows, date, model, extra), d, m) ==
            if d == date && m == model then TotalsAt(rows, d, m).Plus(extra) else TotalsAt(rows, d, m)
  {
    if rows != [] {
      UpsertTotals(rows[1..], date, model, extra, d, m);
    }
  }

  lemma {:induction false} UpsertKeepsRowsUnique(rows: seq<DailyRow>, date: Date, model: string, extra: Totals)
    requires UniqueRows(rows)
    ensures UniqueRows(Upsert(rows, date, model, extra))
    ensures forall r :: r in Upsert(rows, date, model, extra) ==>
              (r.date == date && r.model == model) || r in rows
  {
    if rows != [] {
      UpsertKeepsRowsUnique(rows[1..], date, model, extra);
    }
  }

  /**
   * A recording whose message and stage are new adds one run with its own verdict, model, tokens and
   * estimate, and counts them in the row of its day and model; any other changes nothing.
   */
  lemma RecordingIsWritten(u: Usage, r: Recording, date: Date, model: string)
    ensures var v, cost := Record(u, r), r.pricing.Estimate(r.inputTokens, r.outputTokens);
            if exists i :: 0 <= i < |u.runs| && u.runs[i].key == r.key then v == u
            else
              && v.runs == u.runs + [Run(r.key, r.verdict, r.model, r.inputTokens, r.outputTokens, cost)]
              && (var before := TotalsAt(u.daily, date, model);
                  TotalsAt(v.daily, date, model) ==
                  if date == r.today && model == r.model
                  then Totals(before.requests + 1, before.inputTokens + r.inputTokens,
                              before.outputTokens + r.outputTokens, before.costMicros + cost)
                  else before)
  {
    UpsertTotals(u.daily, r.today, r.model, r.ToTotals(), date, model);
  }

  /** One daily row per day and model. */
  lemma {:induction false} OneRowPerDay(h: seq<Recording>)
    ensures UniqueRows(After(h).daily)
  {
    if h != [] {
      OneRowPerDay(h[..|h| - 1]);
      var last := h[|h| - 1];
      UpsertKeepsRowsUnique(After(h[..|h| - 1]).daily, last.today, last.model, last.ToTotals());
    }
  }

  function MonthSumFromFront(rows: seq<DailyRow>, asOf: Date): int {
    if rows == [] then 0
    else (if InMonthUpTo(rows[0].date, asOf) then rows[0].totals.costMicros else 0) + MonthSumFromFront(rows[1..], asOf)
  }

  lemma {:induction false} MonthSumAgrees(rows: seq<DailyRow>, asOf: Date)
    ensures MonthSum(rows, asOf) == MonthSumFromFront(rows, asOf)
  {
    if |rows| > 1 {
      MonthSumAgrees(rows[1..], asOf);
      MonthSumAgrees(rows[..|rows| - 1], asOf);
      assert rows[1..][..|rows| - 2] == rows[..|rows| - 1][1..];
      MonthSumAgrees(rows[1..][..|rows| - 2], asOf);
    }
  }

  lemma {:induction false} UpsertMonthSum(rows: seq<DailyRow>, date: Date, model: string, extra: Totals, asOf: Date)
    ensures MonthSumFromFront(Upsert(rows, date, model, extra), asOf) ==
            MonthSumFromFront(rows, asOf) + (if InMonthUpTo(date, asOf) then extra.costMicros else 0)
  {
    if rows != [] {
      UpsertMonthSum(rows[1..], date, model, extra, asOf);
    }
  }

  lemma FirstMeansUnrecorded(h: seq<Recording>)
    requires h != []
    ensures IsFirst(h) <==> !Recorded(After(h[..|h| - 1]).runs, h[|h| - 1].key)
  {
    var init := h[..|h| - 1];
    OneRunPerStage(init);
    if !IsFirst(h) {
      var i :| 0 <= i < |h| - 1 && h[i].key == h[|h| - 1].key;
      assert init[i].key == h[|h| - 1].key;
    }
  }

  /** Each daily row is the sum over the runs inserted that day for that model. */
  lemma {:induction false} DailyRowsAreSums(h: seq<Recording>, date: Date, model: string)
    ensures TotalsAt(After(h).daily, date, model) == Expected(h, date, model)
  {
    if h != [] {
      DailyRowsAreSums(h[..|h| - 1], date, model);
      FirstMeansUnrecorded(h);
      var last := h[|h| - 1];
      UpsertTotals(After(h[..|h| - 1]).daily, last.today, last.model, last.ToTotals(), date, model);
    }
  }

  /** The month's daily rows add up to the cost of the runs inserted that month, repeats excluded. */
  lemma {:induction false} MonthCostIsSumOfRuns(h: seq<Recording>, asOf: Date)
    ensures MonthSum(After(h).daily, asOf) == ExpectedMonth(h, asOf)
  {
    MonthSumAgrees(After(h).daily, asOf);
    if h != [] {
      var before, last := After(h[..|h| - 1]).daily, h[|h| - 1];
      MonthCostIsSumOfRuns(h[..|h| - 1], asOf);
      MonthSumAgrees(before, asOf);
      FirstMeansUnrecorded(h);
      UpsertMonthSum(before, last.today, last.model, last.ToTotals(), asOf);
    }
  }

  /** At most half a unit off for each request. */
  predicate Within(cost: int, exact: real, requests: int) {
    requests >= 0 && -(0.5 * requests as real) <= cost as real - exact <= 0.5 * requests as real
  }

  lemma OneMoreRounded(cost: int, exact: real, requests: int, more: int, extra: real)
    requires Within(cost, exact, requests) && IsNearest(more, extra)
    ensures Within(cost + more, exact + extra, requests + 1)
  {
  }

  lemma {:induction false} ExpectedIsWithin(h: seq<Recording>, date: Date, model: string)
    ensures var t := Expected(h, date, model); Within(t.costMicros, ExactCost(h, date, model), t.requests)
  {
    if h != [] {
      var init, last := h[..|h| - 1], h[|h| - 1];
      ExpectedIsWithin(init, date, model);
      if IsFirst(h) && last.today == date && last.model == model {
        var t := Expected(init, date, model);
        var p := last.pricing;
        EstimateIsNearest(p, last.inputTokens, last.outputTokens);
        OneMoreRounded(t.costMicros, ExactCost(init, date, model), t.requests,
                       p.Estimate(last.inputTokens, last.outputTokens),
                       last.inputTokens as real * p.inputPerMillion + last.outputTokens as real * p.outputPerMillion);
      }
    }
  }

  /** A day's stored cost is within half a micro-dollar per request of the exact cost. */
  lemma {:induction false} RoundingErrorIsBounded(h: seq<Recording>, date: Date, model: string)
    ensures var t := TotalsAt(After(h).daily, date, model); Within(t.costMicros, ExactCost(h, date, model), t.requests)
  {
    DailyRowsAreSums(h, date, model);
    ExpectedIsWithin(h, date, model);
  }
}
