/** The example data of the prototype script (streaming_optimizer.py at the
    repository root) run through the model of `optimize_streaming_packages`.
    Days count from 2023-01-01; packages P1, P2 are 1, 2 and games G1..G7
    are 1..7. The lemmas fix the entries of the dictionaries and leave the
    order of their keys open, which none of the facts below depends on. */
module PrototypeExample {
  import opened Collections
  import opened Preprocess
  import opened Optimizer

  /** The game dates of the example: 2023-01-15, 2023-02-20, 2023-03-25,
      2023-04-10, 2023-04-20, 2024-01-10 and 2024-03-15. */
  ghost predicate ExampleDates(gameDates: Dict<GameId, Day>) {
    && gameDates.Wf()
    && (forall g :: g in gameDates.entries <==> 1 <= g <= 7)
    && gameDates.entries[1] == 14 && gameDates.entries[2] == 50 && gameDates.entries[3] == 83
    && gameDates.entries[4] == 99 && gameDates.entries[5] == 109 && gameDates.entries[6] == 374
    && gameDates.entries[7] == 439
  }

  /** The relevant packages and their prices: P1 at 30 a month, P2 at 20 a
      month or 180 a year. */
  ghost predicate ExamplePrices(packages: seq<PackageId>, cMonth: Dict<PackageId, int>, cYear: Dict<PackageId, int>) {
    && packages == [1, 2]
    && cMonth.Wf() && (forall p :: p in cMonth.entries <==> 1 <= p <= 2)
    && cMonth.entries[1] == 30 && cMonth.entries[2] == 20
    && cYear.Wf() && (forall p :: p in cYear.entries <==> p == 2) && cYear.entries[2] == 180
  }

  /** The games and the packages offering each: P1 offers every game, P2
      G3, G4, G5 and G7. */
  ghost predicate ExampleGames(games: seq<GameId>, pg: map<GameId, seq<PackageId>>) {
    && games == [1, 2, 3, 4, 5, 6, 7]
    && (forall g :: g in pg <==> g in games)
    && pg[1] == [1] && pg[2] == [1] && pg[3] == [1, 2] && pg[4] == [1, 2] && pg[5] == [1, 2]
    && pg[6] == [1] && pg[7] == [1, 2]
  }

  /** The dictionaries of the prototype, in its key order, are such inputs. */
  lemma PrototypeDatesAreExample()
    ensures ExampleDates(Dict([1, 2, 3, 4, 5, 6, 7],
                              map[1 := 14, 2 := 50, 3 := 83, 4 := 99, 5 := 109, 6 := 374, 7 := 439]))
  {
    var keys := [1, 2, 3, 4, 5, 6, 7];
    var m := map[1 := 14, 2 := 50, 3 := 83, 4 := 99, 5 := 109, 6 := 374, 7 := 439];
    assert forall g :: g in keys <==> 1 <= g <= 7;
    assert forall g :: g in m <==> 1 <= g <= 7;
  }

  lemma PrototypePricesAreExample()
    ensures ExamplePrices([1, 2], Dict([1, 2], map[1 := 30, 2 := 20]), Dict([2], map[2 := 180]))
  {
  }

  lemma PrototypeGamesAreExample()
    ensures ExampleGames([1, 2, 3, 4, 5, 6, 7],
                         map[1 := [1], 2 := [1], 3 := [1, 2], 4 := [1, 2], 5 := [1, 2], 6 := [1], 7 := [1, 2]])
  {
  }

  /** The days the example's games are on. */
  lemma ExampleDays(gameDates: Dict<GameId, Day>)
    requires ExampleDates(gameDates)
    ensures forall d :: d in [14, 50, 83, 99, 109, 374, 439] <==>
      exists g :: g in gameDates.entries && gameDates.entries[g] == d
  {
    var days := [14, 50, 83, 99, 109, 374, 439];
    forall g | g in gameDates.entries ensures gameDates.entries[g] in days {
      assert 1 <= g <= 7;
    }
    forall k | 0 <= k < |days| ensures k + 1 in gameDates.entries && gameDates.entries[k + 1] == days[k] {
    }
  }

  /** The start dates are the seven game dates in order. */
  lemma ExampleStartDates(gameDates: Dict<GameId, Day>)
    requires ExampleDates(gameDates)
    ensures StartDates(gameDates) == [14, 50, 83, 99, 109, 374, 439]
  {
    ExampleDays(gameDates);
    StrictlyIncreasingDeterminedBySet(StartDates(gameDates), [14, 50, 83, 99, 109, 374, 439]);
  }

  /** Window facts of the example: G4 and G5 share the month from G4's date,
      G2 falls outside the month from G1's date, and the year from G1's date
      reaches G6 but not G7. */
  lemma ExampleWindows(gameDates: Dict<GameId, Day>)
    requires ExampleDates(gameDates)
    ensures 4 in Window(gameDates, 99, MonthDays) && 5 in Window(gameDates, 99, MonthDays)
    ensures 3 !in Window(gameDates, 99, MonthDays) && 2 !in Window(gameDates, 14, MonthDays)
    ensures 6 in Window(gameDates, 14, YearDays) && 7 !in Window(gameDates, 14, YearDays)
  {
  }

  /** P1 offers every game of the example. */
  lemma P1OffersEveryGame(games: seq<GameId>, pg: map<GameId, seq<PackageId>>)
    requires ExampleGames(games, pg)
    ensures forall g :: g in games ==> g in pg && 1 in pg[g]
  {
  }

  /** Every game of the example has a date. */
  lemma EveryGameDated(games: seq<GameId>, pg: map<GameId, seq<PackageId>>, gameDates: Dict<GameId, Day>)
    requires ExampleGames(games, pg) && ExampleDates(gameDates)
    ensures forall g :: g in games ==> g in gameDates.entries
  {
  }

  /** Every game of the example can be covered. */
  lemma ExampleFeasible(packages: seq<PackageId>, games: seq<GameId>, gameDates: Dict<GameId, Day>,
                        cMonth: Dict<PackageId, int>, cYear: Dict<PackageId, int>,
                        pg: map<GameId, seq<PackageId>>)
    requires ExampleDates(gameDates) && ExamplePrices(packages, cMonth, cYear) && ExampleGames(games, pg)
    ensures exists a :: Satisfies(a, games, pg, MakeTables(packages, gameDates, cMonth, cYear))
  {
    P1OffersEveryGame(games, pg);
    EveryGameDated(games, pg, gameDates);
    assert 1 in packages && 1 in cMonth.entries;
    Feasibility(packages, games, gameDates, cMonth, cYear, pg);
  }

  /** A 0/1 plan for the example: P1 monthly from the dates of G1, G2 and
      G6, P2 monthly from the dates of G3 (whose month reaches G5) and G7. */
  function Plan(): map<Var, int> {
    map[Var(Monthly, 1, 14) := 1, Var(Monthly, 1, 50) := 1, Var(Monthly, 2, 83) := 1,
        Var(Monthly, 1, 374) := 1, Var(Monthly, 2, 439) := 1]
  }

  lemma PlanLeavesP2FromG1Inactive()
    ensures Binary(Plan()) && !Active(Plan(), Var(Monthly, 2, 14))
  {
  }

  /** P2's monthly subscription from G1's date is a variable of the model. */
  lemma ExampleDeclares(packages: seq<PackageId>, gameDates: Dict<GameId, Day>,
                        cMonth: Dict<PackageId, int>, cYear: Dict<PackageId, int>)
    requires ExampleDates(gameDates) && ExamplePrices(packages, cMonth, cYear)
    ensures Declared(MakeTables(packages, gameDates, cMonth, cYear), Var(Monthly, 2, 14))
  {
    var t := MakeTables(packages, gameDates, cMonth, cYear);
    DeclaredIff(t, packages, gameDates, cMonth, cYear, Var(Monthly, 2, 14));
    assert gameDates.entries[1] == 14;
  }

  /** Line 216 reports the plan below its price, since the plan leaves, for
      one, P2's monthly subscription from G1's date inactive. */
  lemma ExampleReportedBelowPrice(packages: seq<PackageId>, gameDates: Dict<GameId, Day>,
                                  cMonth: Dict<PackageId, int>, cYear: Dict<PackageId, int>)
    requires ExampleDates(gameDates) && ExamplePrices(packages, cMonth, cYear)
    ensures gameDates.Wf() && cMonth.Wf() && cYear.Wf()
    ensures TotalCost(MakeTables(packages, gameDates, cMonth, cYear), Plan())
            < OriginalCost(MakeTables(packages, gameDates, cMonth, cYear), cMonth, cYear, Plan())
  {
    PlanLeavesP2FromG1Inactive();
    ExampleDeclares(packages, gameDates, cMonth, cYear);
    TotalCostUndercounts(packages, gameDates, cMonth, cYear, Plan(), Var(Monthly, 2, 14));
  }
}
