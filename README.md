# Zapdos day-ahead appliance scheduler — Dafny model

Zapdos plans one day of operation for a single household appliance in a home
with solar panels. The input is an hourly table with four columns: solar
generation, the buy tariff, the sell (injection) tariff and the baseline load.
The user also gives the appliance's rated power, the contracted grid power and
how many hours the appliance must run. A mixed-integer linear programme then
chooses, for each of the 24 hours, three values:

- how much power to buy from the grid;
- how much to inject into the grid;
- whether the appliance is ON.

The plan reports, hour by hour, the decisions and the cumulative savings
against the cost of buying the baseline load from the grid.

The project has three modules, one file each:

- `inputs.dfy` (`Inputs`): what the table and the form must pass before any
  optimisation.
  - The four required columns are checked, and the missing ones are listed in
    required order.
  - The solar column's "no reading" marker `"-"` and empty cells become 0.
  - The rated power is converted from W to kW.
  - A name that is blank after Python's `str.strip()` is rejected.
- `formulation.dfy` (`Formulation`): the programme as predicates and functions.
  - Per hour: the energy balance, non-negative purchase and injection, and
    purchase at most the contracted power.
  - Over the day: exactly `minHours` ON hours, and the objective
    Σ buy·purchased − sell·injected.
  - The solver is an oracle whose promise is the predicate `Optimal`.
  - The module characterises exactly when a schedule exists (`FeasibleIff`),
    with a constructive witness (`Build`).
  - It proves that buying only the shortfall is never dearer than any other
    admitted purchase when sell ≤ buy.
  - It derives what the optimum must look like. With sell < buy in every hour,
    the optimum buys only the shortfall and never injects in an hour with a
    shortfall (`OptimalIsDispatched`). When sell ≤ buy in every hour, the
    optimum never runs the appliance in an hour b where running costs more
    while leaving a cheaper hour c OFF, provided hour b can run OFF and hour c
    can run ON within the contracted power (`DearerHourNotOptimal`).
- `evaluation.dfy` (`Evaluation`): the loop that turns the solver's 24
  decisions into plan rows.
  - The baseline cost is computed first.
  - A running optimised cost is updated step by step.
  - Each row records its cumulative savings and a percentage with a zero-guard.

Modelling choices:

- Quantities are Dafny `real`: exact, with no rounding.
- The binary ON variable is a `bool`. The plan reports it as 1 or 0 (`OnFlag`).
- The baseline cost sums buy·base over every row of the table. The plan
  covers only rows 0..23, because that is what the code does. For a table of
  exactly 24 rows, the baseline cost is the objective of the idle schedule
  (`BaselineIsIdleCost`).
- The code does not check how many rows the table has. Reading hour `t`
  of a shorter table fails, so the model asks for at least 24 rows
  wherever hours are read.

## Model

| member | source | states |
|---|---|---|
| `Inputs.MissingFrom` | zapdos_optimizer.py:43 | the result holds exactly the required names absent from the header, each as often as the required list has it, and is a subsequence of the required list (kept in required order) |
| `Inputs.MissingColumnsEmptyIff` | zapdos_optimizer.py:37-46 | the missing-column list is empty iff every required column is present; it names exactly the absent required columns, in required order |
| `Inputs.TrimStart` | zapdos_optimizer.py:97 | the result is a suffix of the input that does not start with white space, and everything removed is white space |
| `Inputs.TrimEnd` | zapdos_optimizer.py:97 | the result is a prefix of the input that does not end with white space, and everything removed is white space |
| `Inputs.AllSpaceTrimsToEmpty` | zapdos_optimizer.py:97 | a string made only of white space strips to nothing from the left |
| `Inputs.StripEmptyIff` | zapdos_optimizer.py:97 | a name strips to the empty string iff every character is white space |
| `Inputs.Admit` | zapdos_optimizer.py:43-98 | optimisation proceeds iff all required columns are present and the name has a non-white-space character; a column stop names exactly the absent columns; a blank-name stop happens only once the columns are complete |
| `Inputs.CleanSolar` | zapdos_optimizer.py:50 | no row is dropped; the marker `"-"` and empty cells become 0; every other cell is kept unchanged |
| `Inputs.CleanSolarCells` | zapdos_optimizer.py:50 | the marker `"-"` and empty cells become 0; every other cell is unchanged; afterwards only texts other than the marker remain non-numeric |
| `Inputs.CleanSolarIdempotent` | zapdos_optimizer.py:50 | cleaning twice is the same as cleaning once |
| `Inputs.CleanSolarAllNumbers` | zapdos_optimizer.py:50 | a column of numbers, markers and empty cells becomes all numbers |
| `Inputs.PowerKW` | zapdos_optimizer.py:73 | the kW value times 1000 is the entered watts; inputs in the form's range 1..20000 W give 0.001..20 kW |
| `Inputs.MakeAppliance` | zapdos_optimizer.py:66-93 | the appliance handed to the formulation draws the entered watts divided by 1000 when ON and nothing when OFF, with the contracted power and required hours unchanged |
| `Formulation.FeasibleSchedule` | zapdos_optimizer.py:102-114 | every admitted schedule has non-negative purchase and injection, purchase at most the contracted power, the energy balance in every hour, and exactly `minHours` ON hours |
| `Formulation.NetCostSplits` | zapdos_optimizer.py:107-108 | the hour-by-hour net cost of a prefix equals its purchase cost minus its injection revenue |
| `Formulation.NetCostIsObjective` | zapdos_optimizer.py:107-108 | over the whole schedule, the hour-by-hour net cost equals the objective |
| `Formulation.Dispatch` | zapdos_optimizer.py:110-113 | for a fixed ON value, buying only the shortfall (or injecting only the surplus) keeps the balance, with both quantities non-negative and at most one of them non-zero |
| `Formulation.DispatchAdmits` | zapdos_optimizer.py:110-113 | when the hour can run in the given state, that dispatch meets the hour's constraints |
| `Formulation.HourAdmitsIff` | zapdos_optimizer.py:110-113 | an hour admits some purchase and injection for a given ON value iff its shortfall fits within the contracted power (`CanRun`) |
| `Formulation.OnCountBounds` | zapdos_optimizer.py:110-114 | a prefix meeting the per-hour constraints has an ON count between its must-ON and may-ON counts |
| `Formulation.FeasibleImpliesSatisfiable` | zapdos_optimizer.py:102-114 | an admitted schedule implies the feasibility condition |
| `Formulation.MustOnAtMostMayOn` | zapdos_optimizer.py:110-113 | when every hour can run in some state, must-ON hours never outnumber may-ON hours |
| `Formulation.BuildCount` | zapdos_optimizer.py:114 | the constructed schedule has exactly the requested number of ON hours whenever that number lies between must-ON and may-ON |
| `Formulation.BuildAdmits` | zapdos_optimizer.py:110-113 | every hour of the constructed schedule meets its constraints and is that hour's dispatch |
| `Formulation.OnCountPrefix` | zapdos_optimizer.py:114 | the ON count depends only on the ON values |
| `Formulation.SatisfiableImpliesFeasible` | zapdos_optimizer.py:102-114 | under the feasibility condition the constructed schedule is admitted |
| `Formulation.FeasibleIff` | zapdos_optimizer.py:102-114 | the programme admits a schedule iff every hour can run in some state and `minHours` lies between the must-ON and may-ON counts |
| `Formulation.AllHoursRequiredButOneBlocked` | zapdos_optimizer.py:114 | because the ON count is an equality, requiring all 24 hours while one hour cannot run ON leaves no admitted schedule |
| `Formulation.MayOnAtMost` | zapdos_optimizer.py:114 | the may-ON count of a prefix is at most its length |
| `Formulation.MayOnBelow` | zapdos_optimizer.py:114 | one hour that cannot run ON keeps the may-ON count below the number of hours |
| `Formulation.SurplusAndShortfall` | zapdos_optimizer.py:111-112 | in an admitted hour, solar above the baseline plus draw forces injection, and a deficit forces purchase |
| `Formulation.DispatchIsCheapest` | zapdos_optimizer.py:107-113 | when sell ≤ buy, for a fixed ON value no admitted purchase/injection pair costs less than the dispatch |
| `Formulation.DispatchCostIsLowerBound` | zapdos_optimizer.py:107-113 | when sell ≤ buy in every hour, dispatching each hour's ON value costs no more than the schedule itself |
| `Formulation.DispatchedCost` | zapdos_optimizer.py:107-113 | a schedule made of dispatches costs exactly its dispatch cost |
| `Formulation.RedispatchFeasible` | zapdos_optimizer.py:102-114 | redispatching an admitted schedule keeps it admitted |
| `Formulation.DispatchCostReadsOn` | zapdos_optimizer.py:107-108 | the dispatch cost of a schedule depends only on its ON values |
| `Formulation.OptimalCostsDispatch` | zapdos_optimizer.py:107-115 | when sell ≤ buy in every hour, the solver's optimum costs exactly the dispatch cost of its ON values |
| `Formulation.TightHours` | zapdos_optimizer.py:107-113 | an admitted prefix whose cost equals its dispatch cost costs the dispatch cost in every single hour |
| `Formulation.OnlyDispatchIsCheapest` | zapdos_optimizer.py:107-113 | when sell < buy, an admitted hour costing no more than the dispatch is the dispatch |
| `Formulation.OptimalIsDispatched` | zapdos_optimizer.py:107-115 | when sell < buy in every hour, the solver's optimum buys only the shortfall and injects only the surplus in each hour; it never buys and injects together, and an hour with a shortfall injects nothing |
| `Formulation.OnCountDiff` | zapdos_optimizer.py:114 | schedules agreeing on ON except at two hours differ in ON count by their differences at those hours |
| `Formulation.DispatchCostDiff` | zapdos_optimizer.py:107-108 | schedules agreeing on ON except at two hours differ in dispatch cost by their differences at those hours |
| `Formulation.SwapFeasible` | zapdos_optimizer.py:102-114 | moving the ON hour from b to c keeps a schedule admitted when b can run OFF and c can run ON |
| `Formulation.DearerHourNotOptimal` | zapdos_optimizer.py:107-115 | when sell ≤ buy in every hour, hour b can run OFF and hour c can run ON within the contracted power, a schedule running hour b but not hour c, where ON costs more at b than at c, has a strictly cheaper admitted swap and so is never the solver's optimum |
| `Evaluation.Percent` | zapdos_optimizer.py:127 | with a non-zero baseline cost, percentage times baseline cost is the savings; with a zero baseline cost the percentage is 0 |
| `Evaluation.Evaluate` | zapdos_optimizer.py:118-128 | the baseline cost is buy·base summed over all rows; row t has label t+1, the ON flag, and the purchase and injection of hour t; its savings are the baseline cost less the running net cost of hours 0..t; its percentage is guarded |
| `Evaluation.RowsInHourOrder` | zapdos_optimizer.py:122-128 | the 24 row labels run from 1 to 24, one apart |
| `Evaluation.SavingsSteps` | zapdos_optimizer.py:124-126 | consecutive rows' savings differ by exactly the later hour's net cost |
| `Evaluation.FinalSavings` | zapdos_optimizer.py:120-126 | the last row's savings are the baseline cost less the objective |
| `Evaluation.PercentGuard` | zapdos_optimizer.py:127 | with a zero baseline cost every percentage is 0; otherwise each percentage times the baseline cost is that row's savings |
| `Evaluation.PlanWithinCapacity` | zapdos_optimizer.py:113 | on an admitted schedule every row's purchase lies between 0 and the contracted power |
| `Evaluation.PlanOnCount` | zapdos_optimizer.py:114 | on an admitted schedule the rows' ON flags sum to `minHours` |
| `Evaluation.OnRowsIsOnCount` | zapdos_optimizer.py:128 | summing the rows' integer ON flags gives the schedule's ON count |
| `Evaluation.OptimalPlanSavesMost` | zapdos_optimizer.py:115-126 | on the oracle's schedule, the final savings are at least what any other admitted schedule would report |
| `Evaluation.BaselineCostReadsBuyAndBase` | zapdos_optimizer.py:118-119 | the baseline cost depends only on the buy tariff and the baseline load, not on the solar or sell columns, the appliance or the schedule |
| `Evaluation.BaselineCostNonNegative` | zapdos_optimizer.py:118-119 | with non-negative tariffs and loads the baseline cost is non-negative |
| `Evaluation.BaselineIsIdleCost` | zapdos_optimizer.py:118-119 | for a 24-row table the baseline cost equals the objective of the idle schedule, which is OFF, buys the baseline and injects nothing |
| `Evaluation.IdlePrefix` | zapdos_optimizer.py:118-119 | on every prefix, the baseline cost equals the idle schedule's net cost |

## Left out

- The CBC solve: the solver is an oracle. `Optimal` states what it promises, namely a
  feasible schedule of least objective. Its tie-breaking is not modelled, and the plan is
  evaluated for any schedule handed to it.
- Instances with fixed numbers (flat tariffs with three required hours, one dearer
  hour, all 24 hours required, a solar surplus) are not stated as lemmas. Their
  general forms are proved instead:
  - with sell < buy, an optimum injects nothing in an hour with a shortfall and buys
    only the shortfall (`OptimalIsDispatched`);
  - a dearer hour is avoided when sell ≤ buy and both hours can switch state
    within the contracted power (`DearerHourNotOptimal`);
  - all hours required with one blocked is infeasible (`AllHoursRequiredButOneBlocked`);
  - a surplus forces injection (`SurplusAndShortfall`).
- Evaluation.Evaluate: a table with fewer than 24 rows makes the source's per-hour lookups
  (zapdos_optimizer.py:107-112 and 123-125) raise an uncaught KeyError. The model
  requires at least 24 rows instead of modelling that crash.
- Solver status: the code never inspects it before reading the variables' values, so the
  model has no infeasibility or error report. `FeasibleIff` states when a schedule exists.
- The binary ON variable is modelled as `bool`. The conversion `int(ON.value())` of a
  solver value that is not exactly 0 or 1 is not modelled.
- Floating point: all quantities are exact `real`s, so IEEE rounding in the sums is not
  modelled.
- Reading the workbook and the `astype(float)` coercion of the four columns are library
  I/O and type conversion. `CleanSolar` works on cells. The formulation takes rows
  of reals.
- The interactive interface is I/O: page set-up, template download, upload widget,
  number inputs and their bounds, messages and the stop-on-error control flow. The
  order of the two checks is kept in `Admit`.
- Writing the output workbook (styles, borders, colour scales, frozen panes, the buffer)
  is presentation and file output.
- The date-stamped output file name depends on the wall clock.
