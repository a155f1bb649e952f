/** Plan evaluation: from the solver's 24 decisions to the hourly plan
    rows with running savings against the baseline cost. */
module Evaluation {
  import opened Formulation

  /** One row of the plan: hour label (1..24), appliance state as an
      integer, purchased and injected power, cumulative savings (Bs) and
      savings as a fraction of the baseline cost. */
  datatype Row = Row(hour: int, on: int, purchased: real, injected: real, savings: real, pct: real)

  /** The integer the plan reports for a binary ON value. */
  function OnFlag(on: bool): int
  {
    if on then 1 else 0
  }

  /** Sum of buy tariff times baseline load over the first `n` rows. */
  function BaseSum(table: seq<Hour>, n: nat): real
    requires n <= |table|
  {
    if n == 0 then 0.0 else BaseSum(table, n - 1) + table[n - 1].buy * table[n - 1].base
  }

  /** The cost of covering the baseline load from the grid at the buy
      tariff, summed over every row of the table (not only the first 24). */
  function BaselineCost(table: seq<Hour>): real
  {
    BaseSum(table, |table|)
  }

  /** Savings as a fraction of the baseline cost; 0 when the baseline cost
      is 0 (no division by zero). */
  function Percent(savings: real, baseline: real): (r: real)
    ensures baseline != 0.0 ==> r * baseline == savings
    ensures baseline == 0.0 ==> r == 0.0
  {
    if baseline != 0.0 then savings / baseline else 0.0
  }

  /** Row `t` of the plan carries hour label `t + 1`, the integer value of
      the solver's ON, and the solver's purchase and injection. */
  predicate RowsCarryDecisions(s: seq<Decision>, rows: seq<Row>)
  {
    && |rows| == |s|
    && forall t :: 0 <= t < |s| ==>
         && rows[t].hour == t + 1 && rows[t].on == OnFlag(s[t].on)
         && rows[t].purchased == s[t].purchased && rows[t].injected == s[t].injected
  }

  /** Row `t` reports as savings the baseline cost less the net cost of
      hours 0..t. */
  predicate RowsCarrySavings(table: seq<Hour>, s: seq<Decision>, baseline: real, rows: seq<Row>)
    requires |s| <= |table|
  {
    && |rows| == |s|
    && forall t :: 0 <= t < |s| ==> rows[t].savings == baseline - NetCost(table, s, t + 1)
  }

  /** Every row's percentage is its savings relative to the baseline cost. */
  predicate RowsCarryPercent(baseline: real, rows: seq<Row>)
  {
    forall t :: 0 <= t < |rows| ==> rows[t].pct == Percent(rows[t].savings, baseline)
  }

  /** Computes the baseline cost and builds the plan rows hour by hour,
      keeping a running net cost. */
  method Evaluate(table: seq<Hour>, s: seq<Decision>) returns (baseline: real, rows: seq<Row>)
    requires |s| == Horizon <= |table|
    ensures baseline == BaselineCost(table)
    ensures RowsCarryDecisions(s, rows)
    ensures RowsCarrySavings(table, s, baseline, rows)
    ensures RowsCarryPercent(baseline, rows)
  {
    baseline := BaselineCost(table);
    var running := 0.0;
    rows := [];
    var t := 0;
    while t < |s|
      invariant 0 <= t <= |s|
      invariant running == NetCost(table, s, t)
      invariant |rows| == t
      invariant forall k :: 0 <= k < t ==>
        && rows[k].hour == k + 1 && rows[k].on == OnFlag(s[k].on)
        && rows[k].purchased == s[k].purchased && rows[k].injected == s[k].injected
      invariant forall k :: 0 <= k < t ==> rows[k].savings == baseline - NetCost(table, s, k + 1)
      invariant RowsCarryPercent(baseline, rows)
    {
      var comp, iny := s[t].purchased, s[t].injected;
      running := running + HourCost(table[t], s[t]);
      assert running == NetCost(table, s, t + 1);
      var savings := baseline - running;
      var row := Row(t + 1, OnFlag(s[t].on), comp, iny, savings, Percent(savings, baseline));
      ghost var before := rows;
      rows := rows + [row];
      assert forall k :: 0 <= k < t ==> rows[k] == before[k];
      assert rows[t] == row;
      t := t + 1;
    }
  }

  /** The hour labels run 1..24 in order, one apart. */
  lemma RowsInHourOrder(s: seq<Decision>, rows: seq<Row>)
    requires |s| == Horizon && RowsCarryDecisions(s, rows)
    ensures forall t :: 0 <= t < |rows| - 1 ==> rows[t + 1].hour == rows[t].hour + 1
    ensures rows[0].hour == 1 && rows[|rows| - 1].hour == 24
  {
    assert rows[0].hour == 0 + 1;
  }

  /** Consecutive rows differ in savings by exactly the later hour's net
      cost. */
  lemma SavingsSteps(table: seq<Hour>, s: seq<Decision>, baseline: real, rows: seq<Row>)
    requires |s| <= |table| && RowsCarrySavings(table, s, baseline, rows)
    ensures forall t :: 0 <= t < |s| - 1 ==>
      rows[t].savings - rows[t + 1].savings == HourCost(table[t + 1], s[t + 1])
  {
  }

  /** The last row's savings is the baseline cost less the objective. */
  lemma FinalSavings(table: seq<Hour>, s: seq<Decision>, baseline: real, rows: seq<Row>)
    requires 0 < |s| <= |table| && RowsCarrySavings(table, s, baseline, rows)
    ensures rows[|s| - 1].savings == baseline - Objective(table, s)
  {
    NetCostIsObjective(table, s);
  }

  /** With a zero baseline cost every percentage is 0; otherwise every
      percentage times the baseline cost is the row's savings. */
  lemma PercentGuard(baseline: real, rows: seq<Row>)
    requires RowsCarryPercent(baseline, rows)
    ensures baseline == 0.0 ==> forall t :: 0 <= t < |rows| ==> rows[t].pct == 0.0
    ensures baseline != 0.0 ==> forall t :: 0 <= t < |rows| ==> rows[t].pct * baseline == rows[t].savings
  {
  }

  /** Evaluated on an admitted schedule, every row's purchase lies within
      the contracted power. */
  lemma PlanWithinCapacity(table: seq<Hour>, a: Appliance, s: seq<Decision>, rows: seq<Row>)
    requires Feasible(table, a, s) && RowsCarryDecisions(s, rows)
    ensures forall t :: 0 <= t < |rows| ==> 0.0 <= rows[t].purchased <= a.contractedKW
  {
    forall t | 0 <= t < |rows|
      ensures 0.0 <= rows[t].purchased <= a.contractedKW
    {
      assert HourAdmits(table[t], a, s[t]);
    }
  }

  /** Evaluated on an admitted schedule, the plan has exactly `minHours`
      ON rows. */
  lemma PlanOnCount(table: seq<Hour>, a: Appliance, s: seq<Decision>, rows: seq<Row>)
    requires Feasible(table, a, s) && RowsCarryDecisions(s, rows)
    ensures OnRows(rows, |rows|) == a.minHours
  {
    OnRowsIsOnCount(s, rows, |rows|);
  }

  /** Evaluated on the oracle's schedule, the final savings is no smaller
      than what any other admitted schedule would report. */
  lemma OptimalPlanSavesMost(table: seq<Hour>, a: Appliance, s: seq<Decision>, baseline: real, rows: seq<Row>)
    requires Optimal(table, a, s) && RowsCarrySavings(table, s, baseline, rows)
    ensures forall s' :: Feasible(table, a, s') ==> baseline - Objective(table, s') <= rows[|rows| - 1].savings
  {
    FinalSavings(table, s, baseline, rows);
  }

  /** Number of ON rows among the first `n`. */
  function OnRows(rows: seq<Row>, n: nat): int
    requires n <= |rows|
  {
    if n == 0 then 0 else OnRows(rows, n - 1) + rows[n - 1].on
  }

  /** Counting the rows' ON flags gives the schedule's ON count. */
  lemma {:induction false} OnRowsIsOnCount(s: seq<Decision>, rows: seq<Row>, n: nat)
    requires n <= |s| && n <= |rows|
    requires forall t :: 0 <= t < n ==> rows[t].on == OnFlag(s[t].on)
    ensures OnRows(rows, n) == OnCount(s, n)
  {
    if n > 0 {
      OnRowsIsOnCount(s, rows, n - 1);
    }
  }

  /** The baseline cost reads only the buy tariff and the baseline load:
      tables that agree on those have the same baseline cost, whatever
      their solar and sell columns. */
  lemma {:induction false} BaselineCostReadsBuyAndBase(table: seq<Hour>, other: seq<Hour>, n: nat)
    requires n <= |table| == |other|
    requires forall t :: 0 <= t < |table| ==> table[t].buy == other[t].buy && table[t].base == other[t].base
    ensures BaseSum(table, n) == BaseSum(other, n)
  {
    if n > 0 {
      BaselineCostReadsBuyAndBase(table, other, n - 1);
    }
  }

  /** With non-negative tariffs and loads the baseline cost is non-negative. */
  lemma {:induction false} BaselineCostNonNegative(table: seq<Hour>, n: nat)
    requires n <= |table|
    requires forall t :: 0 <= t < |table| ==> table[t].buy >= 0.0 && table[t].base >= 0.0
    ensures BaseSum(table, n) >= 0.0
  {
    if n > 0 {
      BaselineCostNonNegative(table, n - 1);
    }
  }

  /** For a table of exactly 24 rows, the baseline cost is the objective of
      the idle schedule: appliance OFF, the baseline bought from the grid,
      nothing injected. */
  lemma BaselineIsIdleCost(table: seq<Hour>)
    requires |table| == Horizon
    ensures BaselineCost(table) == Objective(table, seq(Horizon, t requires 0 <= t < Horizon => Decision(table[t].base, 0.0, false)))
  {
    var idle := seq(Horizon, t requires 0 <= t < Horizon => Decision(table[t].base, 0.0, false));
    IdlePrefix(table, idle, Horizon);
    NetCostIsObjective(table, idle);
  }

  /** On every prefix, the baseline sum is the idle schedule's net cost. */
  lemma {:induction false} IdlePrefix(table: seq<Hour>, idle: seq<Decision>, n: nat)
    requires n <= |table| && n <= |idle|
    requires forall t :: 0 <= t < n ==> idle[t] == Decision(table[t].base, 0.0, false)
    ensures BaseSum(table, n) == NetCost(table, idle, n)
  {
    if n > 0 {
      IdlePrefix(table, idle, n - 1);
    }
  }
}
