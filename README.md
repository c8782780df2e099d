# Streaming package planner: a Dafny model

The planner picks the cheapest set of streaming subscriptions that lets a
fan watch every game they care about. `BackEnd/streaming_optimizer.py` does
the work in two steps:

- `preprocess_data` reduces the raw tables. It keeps the offers, packages
  and games that matter and builds the monthly and yearly price tables.
  Packages that lack live coverage or highlights get surcharges. It maps
  each game to the packages that offer it, and splits the games of
  interest into those with and without an offer.
- `optimize_streaming_packages` builds a 0/1 covering model.
  - A subscription is a package, a tier (30-day monthly or 365-day
    yearly) and a start date; the start dates are the game dates.
  - Every game must fall in the window of some active subscription of a
    package that offers it.
  - Every price is raised by one cent so that free packages are not
    activated needlessly.
  - The solver's answer is read back as the list of active subscriptions
    of each tier and a total cost.

The model has four modules:

- `Collections` (`collections.dfy`): the Python and pandas vocabulary the
  source relies on. It covers list comprehensions with a condition
  (`Filter`), `Series.unique()` (`Unique`), `sorted(set(...))`
  (`SortedSet`) and insertion-ordered dictionaries (`Dict`, whose `keys`
  keep insertion order). It also covers `dropna().set_index(...)[col].to_dict()`
  (`ColumnToDict`): a repeated key takes the value of its last row with a
  value.
- `Preprocess` (`preprocess.dfy`): `preprocess_data`. Data frames are
  sequences of rows and dates are day numbers. Prices are integer cents,
  and a missing price (NaN) is `None`. The two preferences are reals in
  the units the function receives. The surcharge loops are imperative
  methods over the two price tables.
- `Optimizer` (`optimizer.dfy`): `optimize_streaming_packages`. The solver
  is a parameter, `solve: CoverProblem -> Solution`. It returns a status
  and a value for each variable; a variable with no value is absent. The
  model builds the tables and the constraints, then reads back the plan
  with the two nested loops of the source.
  - What is proved about the covering constraint: a 0/1 plan meets the
    constraint of a game exactly when it activates a subscription of an
    offering package whose window contains the game. The model is
    feasible exactly when every game has a date and a priced relevant
    package that offers it.
  - What is proved about the cost: the objective of a plan is its price
    at the given prices plus one cent per activation. The read-back
    reports the total as line 216 computes it, which subtracts one cent
    per variable instead (see "## Findings"); `CorrectedTotalCost` is the
    intended total.
- `PrototypeExample` (`prototype_example.dfy`): the example data of the
  prototype script `streaming_optimizer.py` at the repository root, run
  through the model. Days count from 2023-01-01; P1, P2 are packages 1, 2
  and G1..G7 are games 1..7.

## Model

| member | source | states |
|---|---|---|
| Collections.Filter | BackEnd/streaming_optimizer.py:143-146 | a comprehension with a condition keeps exactly the elements that satisfy it, and is no longer than its input |
| Collections.FilterIsSubsequence | BackEnd/streaming_optimizer.py:143-146 | the kept elements stay in their original order (a subsequence of the input) |
| Collections.FilterKeepsDistinct | BackEnd/streaming_optimizer.py:178-179 | filtering a list without repetitions gives a list without repetitions |
| Collections.FilterPartition | BackEnd/streaming_optimizer.py:143-146 | the comprehensions with a condition and with its negation together hold every element of the input exactly as often as it does (multiset equality) |
| Collections.Unique | BackEnd/streaming_optimizer.py:72 | `unique()` has no repetitions and holds exactly the elements of its input |
| Collections.UniqueInFirstOccurrenceOrder | BackEnd/streaming_optimizer.py:72 | `unique()` lists the values in order of first occurrence |
| Collections.IndexOfExtend | BackEnd/streaming_optimizer.py:72 | appending an element does not move the first position of any element already present; a new element's first position is the end |
| Collections.MapSeqMembership | BackEnd/streaming_optimizer.py:118 | a value is in a projected column exactly when some row projects to it |
| Collections.SortedSet | BackEnd/streaming_optimizer.py:186 | `sorted(set(s))` is strictly increasing and holds exactly the values of `s` |
| Collections.StrictlyIncreasingDeterminedBySet | BackEnd/streaming_optimizer.py:186 | two strictly increasing lists with the same elements are equal, so the start dates are fixed by the set of game dates |
| Collections.Dict.Insert | BackEnd/streaming_optimizer.py:122 | `d[k] = v` keeps the dictionary well formed, sets the value of `k`, keeps the key order when `k` was present, and appends `k` to the key order when it was not |
| Collections.Dict.Values | BackEnd/streaming_optimizer.py:186 | `d.values()` lists the value of each key, in key order |
| Collections.ColumnToDict | BackEnd/streaming_optimizer.py:108-109 | `dropna().set_index(key)[col].to_dict()` is well formed; it has a key exactly when some row with that key has a value, and that key's value is the value of the last such row |
| Collections.ValueFromSomeRow | BackEnd/streaming_optimizer.py:105 | every value kept by `to_dict` is the value of a row with that key |
| Preprocess.PackageIdsOf | BackEnd/streaming_optimizer.py:118 | the `streaming_package_id` column has one entry per offer and holds exactly the offers' package ids |
| Preprocess.RelevantPackageIds | BackEnd/streaming_optimizer.py:72 | the relevant package ids have no repetitions and are exactly the packages of the offers for a game of interest |
| Preprocess.MonthlyPrices | BackEnd/streaming_optimizer.py:108-109 | `C_month` before surcharges: a package is priced exactly when one of its rows has a monthly price, and its price is one such row's price |
| Preprocess.YearlyPrices | BackEnd/streaming_optimizer.py:112-113 | `C_year` before surcharges: a package is priced exactly when one of its rows has a yearly-subscription price, and its price is twelve times one such row's price (line 78) |
| Preprocess.GameDates | BackEnd/streaming_optimizer.py:104-105 | `game_dates` is well formed and has exactly the games of interest found in the games table, each dated by one of its rows |
| Preprocess.PackagesOfGame | BackEnd/streaming_optimizer.py:139 | the list of one game's group holds exactly the packages of that game's offers |
| Preprocess.GroupByGame | BackEnd/streaming_optimizer.py:139 | `P_g` has exactly the games that have an offer, every list in it is non-empty, and it lists exactly the packages offering that game |
| Preprocess.AdmittedOffers | BackEnd/streaming_optimizer.py:86-94 | an offer survives exactly when its game is of interest, it is live when live is mandatory, and it has highlights when highlights are mandatory |
| Preprocess.FilterOffers | BackEnd/streaming_optimizer.py:86-94 | the three successive row filters keep exactly the admitted offers |
| Preprocess.SurchargeScope | BackEnd/streaming_optimizer.py:115-135 | a surcharge is never negative, is zero when neither preference lies strictly between 0 and 1, and is only charged to a package that has an offer without live coverage or without highlights |
| Preprocess.AddedOnce | BackEnd/streaming_optimizer.py:118-124 | since the list of packages is `unique()`, a pass adds the amount exactly once to every listed package and nothing to the others |
| Preprocess.CountStep | BackEnd/streaming_optimizer.py:120-124 | visiting one more list element adds the amount to that element's count only |
| Preprocess.SurchargePass | BackEnd/streaming_optimizer.py:120-124 | one loop keeps the keys and key order of both tables; a monthly price gains the amount, and a yearly price twelve times the amount, once for each time the package is listed |
| Preprocess.LivePass | BackEnd/streaming_optimizer.py:115-124 | with `0 < live_value < 1`, each priced package with a non-live offer gains the live surcharge (twelve times it when yearly); otherwise the tables are unchanged |
| Preprocess.HighlightPass | BackEnd/streaming_optimizer.py:126-135 | with `0 < highlight_value < 1`, each priced package with an offer without highlights gains the highlight surcharge (twelve times it when yearly); otherwise the tables are unchanged |
| Preprocess.ApplySurcharges | BackEnd/streaming_optimizer.py:115-135 | after both passes, every price is the base price plus the package's surcharge (twelve times it for the yearly table), and both tables keep their keys and key order |
| Preprocess.SurchargeBySurvivors | BackEnd/streaming_optimizer.py:118 | the surcharge depends only on which offers survive the filters, not on their order |
| Preprocess.PackageIds | BackEnd/streaming_optimizer.py:100 | `packages` has no repetitions and holds exactly the ids of the filtered package rows |
| Preprocess.MonthlyFromRows | BackEnd/streaming_optimizer.py:108-133 | every surcharged monthly price is a raw row's monthly price plus the package's surcharge |
| Preprocess.YearlyFromRows | BackEnd/streaming_optimizer.py:112-135 | every surcharged yearly price is twelve times a raw row's yearly-subscription price, plus twelve times the package's surcharge |
| Preprocess.PriceTables | BackEnd/streaming_optimizer.py:107-135 | both tables are well formed; a package is priced exactly when a filtered row has that price; every price goes back to a raw row plus its surcharge |
| Preprocess.PreprocessData | BackEnd/streaming_optimizer.py:46-159 | `packages` are exactly the packages in the table that offer a game of interest, with no repetitions. `C_month`/`C_year` price exactly the relevant packages with a price, at the raw price plus surcharge. `game_dates` dates exactly the games of interest found in the games table. `P_g` holds exactly the admitted offers, and with mandatory live or highlights only such offers. `games` and `games_with_no_offers` split the games of interest by membership in `P_g`, in their order, losing and repeating nothing |
| Optimizer.AdjustedPrices | BackEnd/streaming_optimizer.py:178-183 | the restricted, adjusted table has exactly the priced packages that are in `packages`, each at its price plus one, in the original key order |
| Optimizer.StartDates | BackEnd/streaming_optimizer.py:186 | the start dates are strictly increasing and are exactly the dates of the games |
| Optimizer.Window | BackEnd/streaming_optimizer.py:189 | the window from day `d` holds exactly the games dated in `[d, d + span]`, in the key order of `game_dates` |
| Optimizer.Coverage | BackEnd/streaming_optimizer.py:189-190 | the coverage map has exactly the start dates as keys and each maps to its window |
| Optimizer.MakeTables | BackEnd/streaming_optimizer.py:177-190 | the tables are those the inputs determine: price keys, start dates and both windows, each characterised as above, with prices one cent up |
| Optimizer.MonthWindowInYearWindow | BackEnd/streaming_optimizer.py:189-190 | a game in the 30-day window from a day is in the 365-day window from that day |
| Optimizer.OwnDateCovers | BackEnd/streaming_optimizer.py:186-190 | every dated game's own date is a start date, and both windows from that date contain it |
| Optimizer.CoverConstraint | BackEnd/streaming_optimizer.py:208-209 | the constraint of one game names exactly the variables that cover it: a priced package of `P_g[g]` with a window, from a start date, that holds `g` |
| Optimizer.DatesFor | BackEnd/streaming_optimizer.py:208 | the inner `for d in start_dates if g in coverage[d]` yields exactly the variables of that package and tier whose window holds `g` |
| Optimizer.TierTerms | BackEnd/streaming_optimizer.py:208-209 | one sum of the constraint names exactly the variables of a package of `P_g[g]` priced in the tier whose window holds `g` |
| Optimizer.DeclaredIff | BackEnd/streaming_optimizer.py:196-199 | a variable exists exactly when its package is relevant and priced in its tier and its start is some game's date |
| Optimizer.CoverConstraints | BackEnd/streaming_optimizer.py:207-209 | one constraint per game, in order, and its terms are exactly the variables that cover the game |
| Optimizer.BinarySum | BackEnd/streaming_optimizer.py:208-209 | for a 0/1 plan a sum of variables is non-negative, and is at least 1 exactly when one of them is active |
| Optimizer.PlanCoversGame | BackEnd/streaming_optimizer.py:207-209 | a 0/1 plan meets a game's constraint exactly when it activates a variable that covers the game |
| Optimizer.AllActive | BackEnd/streaming_optimizer.py:196-199 | the plan with every variable active is 0/1 and gives a value to exactly the model's variables |
| Optimizer.GameCoveredWhenPriced | BackEnd/streaming_optimizer.py:207-209 | a game with a date and a priced relevant package in `P_g[g]` is covered by the all-active plan |
| Optimizer.GamePricedWhenCovered | BackEnd/streaming_optimizer.py:207-209 | a game whose constraint a 0/1 plan meets has a date and a priced relevant package in `P_g[g]` |
| Optimizer.FeasibleWhenPriced | BackEnd/streaming_optimizer.py:196-209 | when every game is priced and dated, the all-active plan satisfies the model |
| Optimizer.PricedWhenFeasible | BackEnd/streaming_optimizer.py:196-209 | when some plan satisfies the model, every game is priced and dated |
| Optimizer.Feasibility | BackEnd/streaming_optimizer.py:196-209 | the model has a feasible 0/1 plan if and only if every game has a date and a priced relevant package that offers it |
| Optimizer.Objective | BackEnd/streaming_optimizer.py:201-203 | for a 0/1 plan with every adjusted price at least one cent, the objective is at least the number of activations, so no activation is free (line 181) |
| Optimizer.TierSumAtLeastCount | BackEnd/streaming_optimizer.py:201-203 | one sum of the objective, for a 0/1 plan with prices of at least one cent, is at least that tier's number of activations |
| Optimizer.TotalCost | BackEnd/streaming_optimizer.py:216 | the total of line 216, for a 0/1 plan, is at most the objective less one cent per activation, and equal to it exactly when every variable is active |
| Optimizer.TierSumOneMore | BackEnd/streaming_optimizer.py:182-183 | summing at prices one cent up adds the plan's activations in that tier |
| Optimizer.ObjectiveIsOriginalPlusActivations | BackEnd/streaming_optimizer.py:201-203 | the objective of any plan is its price at the given prices plus its number of activations |
| Optimizer.CorrectedTotalCostIsOriginal | BackEnd/streaming_optimizer.py:215-216 | the objective less one cent per activation is the plan's price at the given prices |
| Optimizer.TotalCostAsWritten | BackEnd/streaming_optimizer.py:216 | line 216 reports the original price less one cent per inactive variable; for a 0/1 plan this is at most the price, and equal to it exactly when every variable is active |
| Optimizer.TotalCostUndercounts | BackEnd/streaming_optimizer.py:216 | for a 0/1 plan that leaves some variable of the model inactive, line 216 reports less than the plan's price |
| Optimizer.ActiveSubscriptions | BackEnd/streaming_optimizer.py:225-232 | the loops append exactly the active (present, positive) variables of the tier. The list is in package-major order, then by date. For a 0/1 plan it has one entry per activation |
| Optimizer.ValuedIff | BackEnd/streaming_optimizer.py:216 | the objective has a value exactly when every variable of the model has a value |
| Optimizer.ReadBack | BackEnd/streaming_optimizer.py:214-232 | the function raises (`None`) exactly when some variable of the model has no value. Otherwise the status is passed through, and the total is line 216's objective less one cent per variable. The subscriptions of each tier are exactly the active variables of the model, in package-major order |
| Optimizer.Optimize | BackEnd/streaming_optimizer.py:162-234 | the problem handed to the solver has the tables above and one covering constraint per game. The function raises exactly when a variable has no value. Otherwise the result lists exactly the model's active variables in package-major order. For a 0/1 answer it reports the plan's price at the given prices less one cent per inactive variable, which is never more than that price |
| PrototypeExample.PrototypeDatesAreExample | streaming_optimizer.py:8-16 | the prototype's game dates, as day numbers from 2023-01-01, meet the example's date facts |
| PrototypeExample.PrototypePricesAreExample | streaming_optimizer.py:6-18 | the prototype's packages and prices meet the example's price facts |
| PrototypeExample.PrototypeGamesAreExample | streaming_optimizer.py:7-20 | the prototype's games and `P_g` meet the example's offer facts |
| PrototypeExample.ExampleDays | streaming_optimizer.py:8-16 | the example's game dates are exactly the seven listed days |
| PrototypeExample.ExampleStartDates | streaming_optimizer.py:27 | the example's start dates are its seven game dates in increasing order |
| PrototypeExample.ExampleWindows | streaming_optimizer.py:30-31 | in the example, G4 and G5 share the month from G4's date. G3 is outside that month, and G2 is outside the month from G1's date. The year from G1's date reaches G6 but not G7 |
| PrototypeExample.P1OffersEveryGame | streaming_optimizer.py:19-20 | P1 offers every game of the example |
| PrototypeExample.EveryGameDated | streaming_optimizer.py:7-16 | every game of the example has a date |
| PrototypeExample.ExampleFeasible | streaming_optimizer.py:6-20 | the example's model has a feasible 0/1 plan |
| PrototypeExample.PlanLeavesP2FromG1Inactive | streaming_optimizer.py:37-40 | the example plan is 0/1 and leaves P2's monthly subscription from G1's date inactive |
| PrototypeExample.ExampleDeclares | streaming_optimizer.py:37-38 | P2's monthly subscription from G1's date is a variable of the example's model |
| PrototypeExample.ExampleReportedBelowPrice | BackEnd/streaming_optimizer.py:216 | on the example data, line 216 reports the example plan below its price |

## Left out

- The pulp model itself (lines 193-203, 212) is left out. The solver is a
  parameter; whether its answer is optimal, or even meets the
  constraints, is not modelled. The properties above therefore speak
  about any answer, or about any 0/1 answer.
- `pulp.LpStatus[status]` is not modelled: the status string is passed
  through unchanged.
- The surcharges are not computed: `100 ** live_value` and
  `30 ** highlight_value` are floats, and the model takes them as given
  whole amounts. The yearly surcharge is twelve times the given amount, as
  in the source.
- Floating-point prices and `varValue`s are modelled as integers. A
  `varValue` of `None` is an absent key. The objective then has no value
  and line 216 raises `TypeError`, which `Optimizer.ReadBack` returns as
  `None`. The sums of the model read an absent key as 0, which only
  matters in the lemmas about arbitrary plans.
- `pd.to_datetime`, `date()` and `timedelta` are not modelled: dates are
  day numbers, and a window is `d <= date <= d + 30` (or `+ 365`).
- The `games` filter of line 83 is folded into `Preprocess.GameDates`. The
  `drop(columns=...)` of line 79 does not affect any result.
- The key order of `P_g` (`groupby` sorts it) is not modelled: the source
  only looks keys up in it.
- The dictionaries are values, so aliasing between the caller's tables and
  the mutated copies is not modelled. The surcharges update
  `preprocess_data`'s own tables.
- `print_solver_results` (lines 5-44) is output only.
- The HTTP layer (`BackEnd/app.py`, `api.py`, `BackEnd/service.py`) and
  the front end (`FrontEnd/src/lib/types.ts`,
  `FrontEnd/tailwind.config.ts`) are not part of this model.
- Optimizer.CoverConstraints: a game missing from `P_g` makes the source
  raise `KeyError` at line 208. The model requires every game to be a key
  of `P_g`, which `preprocess_data`'s output always meets.
- Collections.ColumnToDict: the contract does not state the key order of
  the dictionary (the order of each key's first row with a value). The
  order in which subscriptions are read back follows the keys of `C_month`
  and `C_year` as given to `optimize_streaming_packages`.

## Findings

| source | as written | input that shows it | evidently intended | confidence | as-written member | corrected member |
|---|---|---|---|---|---|---|
| BackEnd/streaming_optimizer.py:216 | subtracts `len(start_dates)` once per priced package and tier, i.e. one cent for every variable of the model | the prototype data (P1 at 30, P2 at 20 a month or 180 a year, seven game dates) with the plan of five monthly subscriptions of `PrototypeExample.Plan`, which leaves P2's monthly subscription from G1's date inactive: the total is reported below the plan's price | subtract one cent per activation, so that the reported total is the plan's price at the unadjusted prices | not executed | Optimizer.TotalCostUndercounts | Optimizer.CorrectedTotalCostIsOriginal |
