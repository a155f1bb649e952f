/** The day-ahead scheduling formulation: one controllable appliance, a
    24-hour horizon, per-hour grid purchase and injection, and a binary
    ON decision per hour. The MILP is stated as predicates over a schedule;
    the external MILP solver is an oracle whose output is any schedule
    satisfying `Optimal`. */
module Formulation {

  /** Number of hours the formulation ranges over (`range(24)`). */
  const Horizon: nat := 24

  /** One row of the hourly input table, already cleaned to numbers:
      available solar (kW), buy tariff and sell tariff (Bs/kWh) and the
      obligatory baseline consumption (kW). */
  datatype Hour = Hour(solar: real, buy: real, sell: real, base: real)

  /** The appliance parameters: rated power in kW, contracted grid power
      in kW, and the number of hours the appliance must run. */
  datatype Appliance = Appliance(ratedKW: real, contractedKW: real, minHours: int)

  /** The solver's values for one hour: power purchased from the grid,
      power injected into the grid, and the binary ON variable. */
  datatype Decision = Decision(purchased: real, injected: real, on: bool)

  /** The appliance's draw in an hour: rated power times the binary ON. */
  function Draw(a: Appliance, on: bool): real
  {
    if on then a.ratedKW else 0.0
  }

  /** Net demand on the grid in hour `h` when the appliance state is `on`. */
  function Need(h: Hour, a: Appliance, on: bool): real
  {
    h.base + Draw(a, on) - h.solar
  }

  /** The per-hour constraints: non-negative purchase and injection, the
      energy balance, and the contracted-power cap (ON is binary by type). */
  predicate HourAdmits(h: Hour, a: Appliance, d: Decision)
  {
    && d.purchased >= 0.0
    && d.injected >= 0.0
    && d.purchased + h.solar == h.base + Draw(a, d.on) + d.injected
    && d.purchased <= a.contractedKW
  }

  /** Number of ON hours among the first `n`. */
  function OnCount(s: seq<Decision>, n: nat): nat
    requires n <= |s|
  {
    if n == 0 then 0 else OnCount(s, n - 1) + (if s[n - 1].on then 1 else 0)
  }

  /** A schedule the formulation admits: 24 hours that each meet the
      per-hour constraints, and exactly `minHours` of them ON. */
  predicate Feasible(table: seq<Hour>, a: Appliance, s: seq<Decision>)
  {
    && |table| >= Horizon
    && |s| == Horizon
    && (forall t :: 0 <= t < Horizon ==> HourAdmits(table[t], a, s[t]))
    && OnCount(s, |s|) == a.minHours
  }

  /** The objective term of one hour: purchase cost minus injection revenue. */
  function HourCost(h: Hour, d: Decision): real
  {
    h.buy * d.purchased - h.sell * d.injected
  }

  /** Net cost of the first `n` hours, hour by hour. */
  function NetCost(table: seq<Hour>, s: seq<Decision>, n: nat): real
    requires n <= |table| && n <= |s|
  {
    if n == 0 then 0.0 else NetCost(table, s, n - 1) + HourCost(table[n - 1], s[n - 1])
  }

  /** Cost of the power purchased in the first `n` hours. */
  function PurchaseCost(table: seq<Hour>, s: seq<Decision>, n: nat): real
    requires n <= |table| && n <= |s|
  {
    if n == 0 then 0.0 else PurchaseCost(table, s, n - 1) + table[n - 1].buy * s[n - 1].purchased
  }

  /** Revenue of the power injected in the first `n` hours. */
  function InjectionRevenue(table: seq<Hour>, s: seq<Decision>, n: nat): real
    requires n <= |table| && n <= |s|
  {
    if n == 0 then 0.0 else InjectionRevenue(table, s, n - 1) + table[n - 1].sell * s[n - 1].injected
  }

  /** The objective the solver minimises: total purchase cost minus total
      injection revenue over the horizon. */
  function Objective(table: seq<Hour>, s: seq<Decision>): real
    requires |s| <= |table|
  {
    PurchaseCost(table, s, |s|) - InjectionRevenue(table, s, |s|)
  }

  /** The oracle's promise: a feasible schedule with the least objective
      among all feasible schedules. */
  ghost predicate Optimal(table: seq<Hour>, a: Appliance, s: seq<Decision>)
  {
    && Feasible(table, a, s)
    && forall s' :: Feasible(table, a, s') ==> Objective(table, s) <= Objective(table, s')
  }

  /** Summing hour by hour gives purchase cost minus injection revenue. */
  lemma {:induction false} NetCostSplits(table: seq<Hour>, s: seq<Decision>, n: nat)
    requires n <= |table| && n <= |s|
    ensures NetCost(table, s, n) == PurchaseCost(table, s, n) - InjectionRevenue(table, s, n)
  {
    if n > 0 {
      NetCostSplits(table, s, n - 1);
    }
  }

  /** After the last hour the hour-by-hour net cost is the objective. */
  lemma NetCostIsObjective(table: seq<Hour>, s: seq<Decision>)
    requires |s| <= |table|
    ensures NetCost(table, s, |s|) == Objective(table, s)
  {
    NetCostSplits(table, s, |s|);
  }

  /** `Feasible` spelled out for readers, hour by hour: every admitted
      schedule meets the per-hour constraints and the exact ON count, and
      in every hour the injection is the surplus left after purchase and
      solar cover the baseline and the appliance. */
  lemma FeasibleSchedule(table: seq<Hour>, a: Appliance, s: seq<Decision>, t: nat)
    requires Feasible(table, a, s) && t < Horizon
    ensures 0.0 <= s[t].purchased <= a.contractedKW && s[t].injected >= 0.0
    ensures s[t].injected == s[t].purchased - Need(table[t], a, s[t].on)
    ensures s[t].purchased >= Need(table[t], a, s[t].on)
    ensures OnCount(s, |s|) == a.minHours
  {
  }

  // ---------------------------------------------------------------------
  // When is the formulation feasible?

  /** Hour `h` can be operated in state `on`: the grid purchase needed to
      cover the net demand fits under the contracted power. */
  predicate CanRun(h: Hour, a: Appliance, on: bool)
  {
    0.0 <= a.contractedKW && Need(h, a, on) <= a.contractedKW
  }

  /** Operating hour `h` in state `on` by buying only the shortfall and
      injecting only the surplus; when sell <= buy this is the cheapest
      way (`DispatchIsCheapest`). */
  function Dispatch(h: Hour, a: Appliance, on: bool): (d: Decision)
    ensures d.on == on && d.purchased >= 0.0 && d.injected >= 0.0
    ensures d.purchased - d.injected == Need(h, a, on)
    ensures d.purchased == 0.0 || d.injected == 0.0
  {
    var need := Need(h, a, on);
    if need >= 0.0 then Decision(need, 0.0, on) else Decision(0.0, -need, on)
  }

  /** The cheapest dispatch meets the per-hour constraints whenever the
      hour can run in that state. */
  lemma DispatchAdmits(h: Hour, a: Appliance, on: bool)
    requires CanRun(h, a, on)
    ensures HourAdmits(h, a, Dispatch(h, a, on))
  {
  }

  /** An hour admits some decision with a given binary state exactly when
      it can run in that state. */
  lemma HourAdmitsIff(h: Hour, a: Appliance, on: bool)
    ensures (exists d: Decision :: d.on == on && HourAdmits(h, a, d)) <==> CanRun(h, a, on)
  {
    if CanRun(h, a, on) {
      DispatchAdmits(h, a, on);
    }
    if d: Decision :| d.on == on && HourAdmits(h, a, d) {
      assert d.purchased == Need(h, a, on) + d.injected;
    }
  }

  /** Number of the first `n` hours that cannot be OFF (they must be ON). */
  function MustOn(table: seq<Hour>, a: Appliance, n: nat): nat
    requires n <= |table|
  {
    if n == 0 then 0
    else MustOn(table, a, n - 1) + (if CanRun(table[n - 1], a, false) then 0 else 1)
  }

  /** Number of the first `n` hours that can be ON. */
  function MayOn(table: seq<Hour>, a: Appliance, n: nat): nat
    requires n <= |table|
  {
    if n == 0 then 0
    else MayOn(table, a, n - 1) + (if CanRun(table[n - 1], a, true) then 1 else 0)
  }

  /** Every hour can be operated in at least one state. */
  predicate EveryHourRuns(table: seq<Hour>, a: Appliance, n: nat)
    requires n <= |table|
  {
    forall t :: 0 <= t < n ==> CanRun(table[t], a, false) || CanRun(table[t], a, true)
  }

  /** The feasibility condition: every hour can run in some state, and the
      required hour count lies between the hours that must be ON and the
      hours that may be ON. */
  predicate Satisfiable(table: seq<Hour>, a: Appliance)
  {
    && |table| >= Horizon
    && EveryHourRuns(table, a, Horizon)
    && MustOn(table, a, Horizon) <= a.minHours <= MayOn(table, a, Horizon)
  }

  /** A prefix that meets the per-hour constraints has an ON sum between
      the must-ON and the may-ON counts. */
  lemma {:induction false} OnCountBounds(table: seq<Hour>, a: Appliance, s: seq<Decision>, n: nat)
    requires n <= |table| && n <= |s|
    requires forall t :: 0 <= t < n ==> HourAdmits(table[t], a, s[t])
    ensures MustOn(table, a, n) <= OnCount(s, n) <= MayOn(table, a, n)
  {
    if n > 0 {
      OnCountBounds(table, a, s, n - 1);
      var h, d := table[n - 1], s[n - 1];
      assert HourAdmits(h, a, d);
      assert d.purchased == Need(h, a, d.on) + d.injected;
      assert CanRun(h, a, d.on);
    }
  }

  /** Every feasible schedule witnesses the feasibility condition. */
  lemma FeasibleImpliesSatisfiable(table: seq<Hour>, a: Appliance, s: seq<Decision>)
    requires Feasible(table, a, s)
    ensures Satisfiable(table, a)
  {
    OnCountBounds(table, a, s, |s|);
    forall t | 0 <= t < Horizon
      ensures CanRun(table[t], a, false) || CanRun(table[t], a, true)
    {
      assert HourAdmits(table[t], a, s[t]);
      assert s[t].purchased == Need(table[t], a, s[t].on) + s[t].injected;
    }
  }

  /** Fewer hours must be ON than may be ON when every hour can run. */
  lemma {:induction false} MustOnAtMostMayOn(table: seq<Hour>, a: Appliance, n: nat)
    requires n <= |table| && EveryHourRuns(table, a, n)
    ensures MustOn(table, a, n) <= MayOn(table, a, n)
  {
    if n > 0 {
      MustOnAtMostMayOn(table, a, n - 1);
    }
  }

  /** Whether `Build` turns hour `n - 1` ON when `k` hours remain to be
      placed among the first `n`: when the hour cannot be OFF, or when it
      can be ON and the earlier hours can do without one of the `k`. */
  function BuildOn(table: seq<Hour>, a: Appliance, n: nat, k: int): bool
    requires 0 < n <= |table|
  {
    !CanRun(table[n - 1], a, false) || (CanRun(table[n - 1], a, true) && k > MustOn(table, a, n - 1))
  }

  /** A schedule for the first `n` hours with `k` ON hours, built from
      cheapest dispatches, last hour first. */
  function Build(table: seq<Hour>, a: Appliance, n: nat, k: int): (r: seq<Decision>)
    requires n <= |table|
    ensures |r| == n
  {
    if n == 0 then []
    else
      var on := BuildOn(table, a, n, k);
      Build(table, a, n - 1, if on then k - 1 else k) + [Dispatch(table[n - 1], a, on)]
  }

  /** Within the feasibility bounds, `Build` turns on exactly `k` hours. */
  lemma {:induction false} BuildCount(table: seq<Hour>, a: Appliance, n: nat, k: int)
    requires n <= |table| && EveryHourRuns(table, a, n)
    requires MustOn(table, a, n) <= k <= MayOn(table, a, n)
    ensures OnCount(Build(table, a, n, k), n) == k
  {
    if n > 0 {
      var on := BuildOn(table, a, n, k);
      var k' := if on then k - 1 else k;
      MustOnAtMostMayOn(table, a, n - 1);
      BuildCount(table, a, n - 1, k');
      var p := Build(table, a, n - 1, k');
      var r := Build(table, a, n, k);
      assert r == p + [Dispatch(table[n - 1], a, on)];
      OnCountPrefix(r, p, n - 1);
    }
  }

  /** Every hour of `Build` meets the per-hour constraints when every hour
      can run in some state, and is a cheapest dispatch. */
  lemma {:induction false} BuildAdmits(table: seq<Hour>, a: Appliance, n: nat, k: int)
    requires n <= |table| && EveryHourRuns(table, a, n)
    ensures forall t :: 0 <= t < n ==> HourAdmits(table[t], a, Build(table, a, n, k)[t])
    ensures forall t :: 0 <= t < n ==> Build(table, a, n, k)[t] == Dispatch(table[t], a, Build(table, a, n, k)[t].on)
  {
    if n > 0 {
      var on := BuildOn(table, a, n, k);
      var k' := if on then k - 1 else k;
      BuildAdmits(table, a, n - 1, k');
      var p := Build(table, a, n - 1, k');
      var r := Build(table, a, n, k);
      assert r == p + [Dispatch(table[n - 1], a, on)];
      DispatchAdmits(table[n - 1], a, on);
    }
  }

  /** `OnCount` over the first `n` hours only reads those hours' states. */
  lemma {:induction false} OnCountPrefix(s: seq<Decision>, p: seq<Decision>, n: nat)
    requires n <= |s| && n <= |p|
    requires forall t :: 0 <= t < n ==> s[t].on == p[t].on
    ensures OnCount(s, n) == OnCount(p, n)
  {
    if n > 0 {
      OnCountPrefix(s, p, n - 1);
    }
  }

  /** The feasibility condition yields a feasible schedule. */
  lemma SatisfiableImpliesFeasible(table: seq<Hour>, a: Appliance)
    requires Satisfiable(table, a)
    ensures Feasible(table, a, Build(table, a, Horizon, a.minHours))
  {
    BuildAdmits(table, a, Horizon, a.minHours);
    BuildCount(table, a, Horizon, a.minHours);
  }

  /** The formulation admits a schedule exactly when the feasibility
      condition holds. */
  lemma FeasibleIff(table: seq<Hour>, a: Appliance)
    ensures (exists s :: Feasible(table, a, s)) <==> Satisfiable(table, a)
  {
    if s :| Feasible(table, a, s) {
      FeasibleImpliesSatisfiable(table, a, s);
    }
    if Satisfiable(table, a) {
      SatisfiableImpliesFeasible(table, a);
    }
  }

  /** The ON count is an equality, not a minimum: when all 24 hours are
      required ON but one hour cannot run ON within the contracted power,
      the formulation admits no schedule at all. */
  lemma AllHoursRequiredButOneBlocked(table: seq<Hour>, a: Appliance, b: nat)
    requires |table| >= Horizon && a.minHours == Horizon
    requires b < Horizon && !CanRun(table[b], a, true)
    ensures forall s :: !Feasible(table, a, s)
  {
    MayOnBelow(table, a, Horizon, b);
    if s :| Feasible(table, a, s) {
      FeasibleImpliesSatisfiable(table, a, s);
    }
  }

  /** A prefix has no more may-ON hours than hours. */
  lemma {:induction false} MayOnAtMost(table: seq<Hour>, a: Appliance, n: nat)
    requires n <= |table|
    ensures MayOn(table, a, n) <= n
  {
    if n > 0 {
      MayOnAtMost(table, a, n - 1);
    }
  }

  /** One hour that cannot run ON keeps the may-ON count below the number
      of hours. */
  lemma {:induction false} MayOnBelow(table: seq<Hour>, a: Appliance, n: nat, b: nat)
    requires b < n <= |table| && !CanRun(table[b], a, true)
    ensures MayOn(table, a, n) < n
  {
    if b == n - 1 {
      MayOnAtMost(table, a, n - 1);
    } else {
      MayOnBelow(table, a, n - 1, b);
    }
  }

  /** In an admitted hour, solar beyond the baseline and the appliance's
      draw is injected, and a shortfall is bought. */
  lemma SurplusAndShortfall(h: Hour, a: Appliance, d: Decision)
    requires HourAdmits(h, a, d)
    ensures h.solar > h.base + Draw(a, d.on) ==> d.injected > 0.0
    ensures h.solar < h.base + Draw(a, d.on) ==> d.purchased > 0.0
  {
  }

  // ---------------------------------------------------------------------
  // Cost of a fixed ON vector

  /** Net cost of the first `n` hours when each keeps its ON value and is
      operated by `Dispatch`. */
  function DispatchCost(table: seq<Hour>, a: Appliance, s: seq<Decision>, n: nat): real
    requires n <= |table| && n <= |s|
  {
    if n == 0 then 0.0
    else DispatchCost(table, a, s, n - 1) + DispatchedHourCost(table[n - 1], a, s[n - 1].on)
  }

  /** Objective term of hour `h` operated by `Dispatch` in state `on`. */
  function DispatchedHourCost(h: Hour, a: Appliance, on: bool): real
  {
    HourCost(h, Dispatch(h, a, on))
  }

  /** What running the appliance in hour `h` adds to that hour's cheapest
      cost, compared with leaving it OFF. */
  function OnPremium(h: Hour, a: Appliance): real
  {
    DispatchedHourCost(h, a, true) - DispatchedHourCost(h, a, false)
  }

  /** When injection pays no more than purchase costs, no admitted decision
      is cheaper than the cheapest dispatch with the same ON value. */
  lemma DispatchIsCheapest(h: Hour, a: Appliance, d: Decision)
    requires HourAdmits(h, a, d) && h.sell <= h.buy
    ensures HourCost(h, Dispatch(h, a, d.on)) <= HourCost(h, d)
  {
    var d0 := Dispatch(h, a, d.on);
    var extra := d.purchased - d0.purchased;
    assert extra >= 0.0;
    assert d.injected - d0.injected == extra;
    assert HourCost(h, d) - HourCost(h, d0) == (h.buy - h.sell) * extra;
  }

  /** Summed over the hours: with injection paying no more than purchase,
      any admitted schedule costs at least the dispatch cost of its ON
      values. */
  lemma {:induction false} DispatchCostIsLowerBound(table: seq<Hour>, a: Appliance, s: seq<Decision>, n: nat)
    requires n <= |table| && n <= |s|
    requires forall t :: 0 <= t < n ==> HourAdmits(table[t], a, s[t]) && table[t].sell <= table[t].buy
    ensures DispatchCost(table, a, s, n) <= NetCost(table, s, n)
  {
    if n > 0 {
      DispatchCostIsLowerBound(table, a, s, n - 1);
      DispatchIsCheapest(table[n - 1], a, s[n - 1]);
    }
  }

  /** A schedule whose every hour is already a cheapest dispatch costs
      exactly its dispatch cost. */
  lemma {:induction false} DispatchedCost(table: seq<Hour>, a: Appliance, s: seq<Decision>, n: nat)
    requires n <= |table| && n <= |s|
    requires forall t :: 0 <= t < n ==> s[t] == Dispatch(table[t], a, s[t].on)
    ensures DispatchCost(table, a, s, n) == NetCost(table, s, n)
  {
    if n > 0 {
      DispatchedCost(table, a, s, n - 1);
    }
  }

  // ---------------------------------------------------------------------
  // What the oracle's minimisation implies

  /** Every hour of `s` replaced by the dispatch of its ON value. */
  function Redispatch(table: seq<Hour>, a: Appliance, s: seq<Decision>): (r: seq<Decision>)
    requires |s| <= |table|
    ensures |r| == |s|
    ensures forall t :: 0 <= t < |s| ==> r[t] == Dispatch(table[t], a, s[t].on)
  {
    seq(|s|, t requires 0 <= t < |s| => Dispatch(table[t], a, s[t].on))
  }

  /** An admitted decision shows that its hour can run in its state. */
  lemma AdmitsCanRun(h: Hour, a: Appliance, d: Decision)
    requires HourAdmits(h, a, d)
    ensures CanRun(h, a, d.on)
  {
  }

  /** Redispatching an admitted schedule keeps it admitted. */
  lemma RedispatchFeasible(table: seq<Hour>, a: Appliance, s: seq<Decision>)
    requires Feasible(table, a, s)
    ensures Feasible(table, a, Redispatch(table, a, s))
  {
    var r := Redispatch(table, a, s);
    forall t | 0 <= t < Horizon
      ensures HourAdmits(table[t], a, r[t])
    {
      AdmitsCanRun(table[t], a, s[t]);
      DispatchAdmits(table[t], a, s[t].on);
    }
    OnCountPrefix(s, r, |s|);
  }

  /** The dispatch cost reads only the ON values. */
  lemma {:induction false} DispatchCostReadsOn(table: seq<Hour>, a: Appliance, s: seq<Decision>, p: seq<Decision>, n: nat)
    requires n <= |table| && n <= |s| && n <= |p|
    requires forall t :: 0 <= t < n ==> s[t].on == p[t].on
    ensures DispatchCost(table, a, s, n) == DispatchCost(table, a, p, n)
  {
    if n > 0 {
      DispatchCostReadsOn(table, a, s, p, n - 1);
    }
  }

  /** When injection pays no more than purchase in every hour, the
      oracle's schedule costs exactly the dispatch cost of its ON values. */
  lemma OptimalCostsDispatch(table: seq<Hour>, a: Appliance, s: seq<Decision>)
    requires Optimal(table, a, s)
    requires forall t :: 0 <= t < Horizon ==> table[t].sell <= table[t].buy
    ensures Objective(table, s) == DispatchCost(table, a, s, |s|)
  {
    var r := Redispatch(table, a, s);
    RedispatchFeasible(table, a, s);
    NetCostIsObjective(table, s);
    NetCostIsObjective(table, r);
    DispatchedCost(table, a, r, |r|);
    DispatchCostReadsOn(table, a, s, r, |s|);
    DispatchCostIsLowerBound(table, a, s, |s|);
  }

  /** A prefix whose net cost equals its dispatch cost costs the dispatch
      cost in every hour. */
  lemma {:induction false} TightHours(table: seq<Hour>, a: Appliance, s: seq<Decision>, n: nat)
    requires n <= |table| && n <= |s|
    requires forall t :: 0 <= t < n ==> HourAdmits(table[t], a, s[t]) && table[t].sell <= table[t].buy
    requires DispatchCost(table, a, s, n) == NetCost(table, s, n)
    ensures forall t :: 0 <= t < n ==> HourCost(table[t], s[t]) == DispatchedHourCost(table[t], a, s[t].on)
  {
    if n > 0 {
      DispatchCostIsLowerBound(table, a, s, n - 1);
      DispatchIsCheapest(table[n - 1], a, s[n - 1]);
      TightHours(table, a, s, n - 1);
    }
  }

  /** With injection paying strictly less than purchase, an admitted
      decision that costs no more than the dispatch is the dispatch. */
  lemma OnlyDispatchIsCheapest(h: Hour, a: Appliance, d: Decision)
    requires HourAdmits(h, a, d) && h.sell < h.buy
    requires HourCost(h, d) == DispatchedHourCost(h, a, d.on)
    ensures d == Dispatch(h, a, d.on)
  {
    var d0 := Dispatch(h, a, d.on);
    var extra := d.purchased - d0.purchased;
    assert d.injected - d0.injected == extra;
    assert HourCost(h, d) - HourCost(h, d0) == (h.buy - h.sell) * extra;
    assert extra == ((h.buy - h.sell) * extra) / (h.buy - h.sell);
  }

  /** With injection paying strictly less than purchase in every hour, the
      oracle's schedule buys only the shortfall and injects only the
      surplus: it never buys and injects in the same hour, and an hour
      whose solar does not cover the baseline load and the appliance's
      draw buys exactly the shortfall and injects nothing. */
  lemma OptimalIsDispatched(table: seq<Hour>, a: Appliance, s: seq<Decision>)
    requires Optimal(table, a, s)
    requires forall t :: 0 <= t < Horizon ==> table[t].sell < table[t].buy
    ensures forall t :: 0 <= t < Horizon ==> s[t] == Dispatch(table[t], a, s[t].on)
    ensures forall t :: 0 <= t < Horizon ==> s[t].purchased == 0.0 || s[t].injected == 0.0
    ensures forall t :: 0 <= t < Horizon && Need(table[t], a, s[t].on) >= 0.0 ==>
      s[t].injected == 0.0 && s[t].purchased == Need(table[t], a, s[t].on)
  {
    OptimalCostsDispatch(table, a, s);
    NetCostIsObjective(table, s);
    TightHours(table, a, s, |s|);
    forall t | 0 <= t < Horizon
      ensures s[t] == Dispatch(table[t], a, s[t].on)
    {
      OnlyDispatchIsCheapest(table[t], a, s[t]);
    }
  }

  /** Two schedules whose ON values agree except at hours `b` and `c`
      differ in ON count by their differences at those two hours. */
  lemma {:induction false} OnCountDiff(s: seq<Decision>, p: seq<Decision>, n: nat, b: nat, c: nat)
    requires n <= |s| && n <= |p| && b != c
    requires forall t :: 0 <= t < n && t != b && t != c ==> s[t].on == p[t].on
    ensures OnCount(s, n) - OnCount(p, n) ==
      (if b < n then (if s[b].on then 1 else 0) - (if p[b].on then 1 else 0) else 0) +
      (if c < n then (if s[c].on then 1 else 0) - (if p[c].on then 1 else 0) else 0)
  {
    if n > 0 {
      OnCountDiff(s, p, n - 1, b, c);
    }
  }

  /** Two schedules whose ON values agree except at hours `b` and `c`
      differ in dispatch cost by their differences at those two hours. */
  lemma {:induction false} DispatchCostDiff(table: seq<Hour>, a: Appliance, s: seq<Decision>, p: seq<Decision>, n: nat, b: nat, c: nat)
    requires n <= |table| && n <= |s| && n <= |p| && b != c
    requires forall t :: 0 <= t < n && t != b && t != c ==> s[t].on == p[t].on
    ensures DispatchCost(table, a, s, n) - DispatchCost(table, a, p, n) ==
      (if b < n then DispatchedHourCost(table[b], a, s[b].on) - DispatchedHourCost(table[b], a, p[b].on) else 0.0) +
      (if c < n then DispatchedHourCost(table[c], a, s[c].on) - DispatchedHourCost(table[c], a, p[c].on) else 0.0)
  {
    if n > 0 {
      DispatchCostDiff(table, a, s, p, n - 1, b, c);
    }
  }

  /** `s` redispatched, with hour `b` switched OFF and hour `c` switched ON. */
  function Swap(table: seq<Hour>, a: Appliance, s: seq<Decision>, b: nat, c: nat): (r: seq<Decision>)
    requires |s| <= |table| && b < |s| && c < |s|
    ensures |r| == |s|
  {
    Redispatch(table, a, s)[b := Dispatch(table[b], a, false)][c := Dispatch(table[c], a, true)]
  }

  /** Moving the ON hour from `b` to `c` keeps an admitted schedule
      admitted when `b` can run OFF and `c` can run ON. */
  lemma SwapFeasible(table: seq<Hour>, a: Appliance, s: seq<Decision>, b: nat, c: nat)
    requires Feasible(table, a, s) && b < Horizon && c < Horizon
    requires s[b].on && !s[c].on
    requires CanRun(table[b], a, false) && CanRun(table[c], a, true)
    ensures Feasible(table, a, Swap(table, a, s, b, c))
  {
    var p := Swap(table, a, s, b, c);
    forall t | 0 <= t < Horizon
      ensures HourAdmits(table[t], a, p[t])
    {
      if t == c {
        DispatchAdmits(table[t], a, true);
      } else if t == b {
        DispatchAdmits(table[t], a, false);
      } else {
        AdmitsCanRun(table[t], a, s[t]);
        DispatchAdmits(table[t], a, s[t].on);
      }
    }
    OnCountDiff(s, p, |s|, b, c);
  }

  /** An admitted schedule that runs hour `b` and not hour `c`, where ON
      costs more extra at `b` than at `c` and both hours can take the
      other state, is not what the oracle returns: moving the ON hour
      from `b` to `c` gives a strictly cheaper admitted schedule. */
  lemma DearerHourNotOptimal(table: seq<Hour>, a: Appliance, s: seq<Decision>, b: nat, c: nat)
    requires Feasible(table, a, s) && b < Horizon && c < Horizon
    requires forall t :: 0 <= t < Horizon ==> table[t].sell <= table[t].buy
    requires s[b].on && !s[c].on
    requires CanRun(table[b], a, false) && CanRun(table[c], a, true)
    requires OnPremium(table[b], a) > OnPremium(table[c], a)
    ensures Feasible(table, a, Swap(table, a, s, b, c))
    ensures Objective(table, Swap(table, a, s, b, c)) < Objective(table, s)
    ensures !Optimal(table, a, s)
  {
    var p := Swap(table, a, s, b, c);
    SwapFeasible(table, a, s, b, c);
    DispatchCostDiff(table, a, s, p, |s|, b, c);
    DispatchedCost(table, a, p, |p|);
    DispatchCostIsLowerBound(table, a, s, |s|);
    NetCostIsObjective(table, s);
    NetCostIsObjective(table, p);
  }
}
