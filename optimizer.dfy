/** `optimize_streaming_packages` of BackEnd/streaming_optimizer.py, around
    the integer-programming solve: the restricted and adjusted price tables,
    the candidate start dates, the rolling coverage windows, the covering
    constraint of every game, the read-back of the active subscriptions and
    the reported total cost. The solver itself is a parameter: a function
    from the covering problem to a status and a value per variable. */
module Optimizer {
  import opened Collections
  import opened Preprocess

  /** `timedelta(days=30)`: the span of a monthly subscription. */
  const MonthDays := 30
  /** `timedelta(days=365)`: the span of a yearly subscription. */
  const YearDays := 365

  datatype Tier = Monthly | Yearly

  /** A binary decision variable: `z_month[p, d]` or `z_year[p, d]`. */
  datatype Var = Var(tier: Tier, package: PackageId, start: Day)

  /** `lpSum(terms) >= 1`. A term occurs once per time the source's sum names it. */
  datatype Constraint = AtLeastOne(terms: seq<Var>)

  /** The data the covering model is built from. */
  datatype Tables = Tables(
    adjMonth: Dict<PackageId, int>,
    adjYear: Dict<PackageId, int>,
    startDates: seq<Day>,
    covMonth: map<Day, seq<GameId>>,
    covYear: map<Day, seq<GameId>>)
  {
    function Prices(tier: Tier): Dict<PackageId, int> {
      match tier
      case Monthly => adjMonth
      case Yearly => adjYear
    }

    function Cov(tier: Tier): map<Day, seq<GameId>> {
      match tier
      case Monthly => covMonth
      case Yearly => covYear
    }
  }

  /** The model handed to the solver: its tables and the constraint list. */
  datatype CoverProblem = CoverProblem(tables: Tables, constraints: seq<Constraint>)

  /** What the solver reports: a status and `varValue` per variable; a
      variable without a value (`varValue is None`) is absent from `values`. */
  datatype Solution = Solution(status: string, values: map<Var, int>)

  /** `{"package": p, "start_date": d}`. */
  datatype Subscription = Subscription(package: PackageId, startDate: Day)

  /** The dictionary returned by `optimize_streaming_packages`. */
  datatype Results = Results(
    status: string,
    totalCost: int,
    activeMonthly: seq<Subscription>,
    activeYearly: seq<Subscription>)

  // ---------------------------------------------------------------------
  // Price tables and start dates
  // ---------------------------------------------------------------------

  /** `{p: cost + 1 for p, cost in {p: c[p] for p in c if p in packages}.items()}`:
      the table restricted to the relevant packages, every price one cent up,
      keys in their original order. */
  function AdjustedPrices(c: Dict<PackageId, int>, packages: seq<PackageId>): (r: Dict<PackageId, int>)
    requires c.Wf()
    ensures r.Wf()
    ensures forall p :: p in r.entries <==> p in c.entries && p in packages
    ensures forall p :: p in r.entries ==> r.entries[p] == c.entries[p] + 1
    ensures IsSubsequence(r.keys, c.keys)
  {
    var keep := (p: PackageId) => p in packages;
    var ks := Filter(c.keys, keep);
    FilterKeepsDistinct(c.keys, keep);
    FilterIsSubsequence(c.keys, keep);
    Dict(ks, map p | p in ks :: c.entries[p] + 1)
  }

  /** `sorted(set(game_dates.values()))`. */
  function StartDates(gameDates: Dict<GameId, Day>): (sd: seq<Day>)
    requires gameDates.Wf()
    ensures StrictlyIncreasing(sd)
    ensures forall d :: d in sd <==> exists g :: g in gameDates.entries && gameDates.entries[g] == d
  {
    var vs := gameDates.Values();
    assert forall g :: g in gameDates.entries ==> gameDates.entries[g] == vs[IndexOf(gameDates.keys, g)];
    assert forall d :: d in vs ==> exists g :: g in gameDates.entries && gameDates.entries[g] == d by {
      forall d | d in vs ensures exists g :: g in gameDates.entries && gameDates.entries[g] == d {
        var i :| 0 <= i < |vs| && vs[i] == d;
        var g := gameDates.keys[i];
        assert g in gameDates.keys;
        assert g in gameDates.entries && gameDates.entries[g] == d;
      }
    }
    SortedSet(vs)
  }

  // ---------------------------------------------------------------------
  // Coverage windows
  // ---------------------------------------------------------------------

  /** `[g for g, gd in game_dates.items() if d <= gd <= d + timedelta(days=span)]`. */
  function Window(gameDates: Dict<GameId, Day>, d: Day, span: int): (w: seq<GameId>)
    requires gameDates.Wf()
    ensures forall g :: g in w <==> g in gameDates.entries && d <= gameDates.entries[g] <= d + span
    ensures IsSubsequence(w, gameDates.keys)
  {
    var inWindow := (g: GameId) => g in gameDates.entries && d <= gameDates.entries[g] <= d + span;
    FilterIsSubsequence(gameDates.keys, inWindow);
    Filter(gameDates.keys, inWindow)
  }

  /** `{d: Window(d) for d in start_dates}`. */
  function Coverage(gameDates: Dict<GameId, Day>, startDates: seq<Day>, span: int): (cov: map<Day, seq<GameId>>)
    requires gameDates.Wf()
    ensures forall d :: d in cov <==> d in startDates
    ensures forall d, g :: d in cov ==>
      (g in cov[d] <==> g in gameDates.entries && d <= gameDates.entries[g] <= d + span)
  {
    map d | d in startDates :: Window(gameDates, d, span)
  }

  /** What the tables of the model are, in terms of the inputs: the priced
      relevant packages, the distinct game dates in increasing order, and a
      window of each span per start date. */
  ghost predicate TablesFrom(t: Tables, packages: seq<PackageId>, gameDates: Dict<GameId, Day>,
                             cMonth: Dict<PackageId, int>, cYear: Dict<PackageId, int>)
  {
    && gameDates.Wf() && t.adjMonth.Wf() && t.adjYear.Wf()
    && (forall p :: p in t.adjMonth.entries <==> p in cMonth.entries && p in packages)
    && (forall p :: p in t.adjYear.entries <==> p in cYear.entries && p in packages)
    && StrictlyIncreasing(t.startDates)
    && (forall d :: d in t.startDates <==> exists g :: g in gameDates.entries && gameDates.entries[g] == d)
    && (forall d :: d in t.covMonth <==> d in t.startDates)
    && (forall d :: d in t.covYear <==> d in t.startDates)
    && (forall d, g :: d in t.covMonth ==>
          (g in t.covMonth[d] <==> g in gameDates.entries && d <= gameDates.entries[g] <= d + MonthDays))
    && (forall d, g :: d in t.covYear ==>
          (g in t.covYear[d] <==> g in gameDates.entries && d <= gameDates.entries[g] <= d + YearDays))
  }

  /** The tables built at the top of `optimize_streaming_packages`. */
  function MakeTables(packages: seq<PackageId>, gameDates: Dict<GameId, Day>,
                      cMonth: Dict<PackageId, int>, cYear: Dict<PackageId, int>): (t: Tables)
    requires gameDates.Wf() && cMonth.Wf() && cYear.Wf()
    ensures TablesFrom(t, packages, gameDates, cMonth, cYear)
    ensures forall p :: p in t.adjMonth.entries ==> t.adjMonth.entries[p] == cMonth.entries[p] + 1
    ensures forall p :: p in t.adjYear.entries ==> t.adjYear.entries[p] == cYear.entries[p] + 1
  {
    var sd := StartDates(gameDates);
    Tables(AdjustedPrices(cMonth, packages), AdjustedPrices(cYear, packages), sd,
           Coverage(gameDates, sd, MonthDays), Coverage(gameDates, sd, YearDays))
  }

  /** The monthly window that starts on a day lies inside the yearly window
      that starts on the same day. */
  lemma MonthWindowInYearWindow(gameDates: Dict<GameId, Day>, d: Day)
    requires gameDates.Wf()
    ensures forall g :: g in Window(gameDates, d, MonthDays) ==> g in Window(gameDates, d, YearDays)
  {
  }

  /** Every dated game's date is a start date, and both windows starting on
      that date contain the game. */
  lemma OwnDateCovers(t: Tables, packages: seq<PackageId>, gameDates: Dict<GameId, Day>,
                      cMonth: Dict<PackageId, int>, cYear: Dict<PackageId, int>, g: GameId)
    requires TablesFrom(t, packages, gameDates, cMonth, cYear)
    requires g in gameDates.entries
    ensures gameDates.entries[g] in t.startDates
    ensures g in t.covMonth[gameDates.entries[g]] && g in t.covYear[gameDates.entries[g]]
  {
  }

  // ---------------------------------------------------------------------
  // The covering constraint of a game
  // ---------------------------------------------------------------------

  /** The variables of package `p` and one tier whose window contains `g`,
      in start-date order. */
  function DatesFor(tier: Tier, p: PackageId, g: GameId, sd: seq<Day>, cov: map<Day, seq<GameId>>): (vs: seq<Var>)
    ensures forall v :: v in vs <==> v.tier == tier && v.package == p && v.start in sd && v.start in cov && g in cov[v.start]
  {
    if sd == [] then []
    else
      (if sd[0] in cov && g in cov[sd[0]] then [Var(tier, p, sd[0])] else [])
      + DatesFor(tier, p, g, sd[1..], cov)
  }

  /** One of the two sums of line 208-209: for each `p in P_g[g]` that has a
      price in this tier, the variables whose window contains `g`. */
  function TierTerms(tier: Tier, g: GameId, pgg: seq<PackageId>, t: Tables): (vs: seq<Var>)
    ensures forall v :: v in vs <==>
      v.tier == tier && v.package in pgg && v.package in t.Prices(tier).entries
      && v.start in t.startDates && v.start in t.Cov(tier) && g in t.Cov(tier)[v.start]
  {
    if pgg == [] then []
    else
      (if pgg[0] in t.Prices(tier).entries then DatesFor(tier, pgg[0], g, t.startDates, t.Cov(tier)) else [])
      + TierTerms(tier, g, pgg[1..], t)
  }

  /** The covering constraint of game `g`, whose offering packages are `pgg`. */
  function CoverConstraint(g: GameId, pgg: seq<PackageId>, t: Tables): (c: Constraint)
    ensures forall v :: v in c.terms <==> Covers(v, g, pgg, t)
  {
    AtLeastOne(TierTerms(Monthly, g, pgg, t) + TierTerms(Yearly, g, pgg, t))
  }

  /** A variable that can cover game `g`: a priced package of `P_g[g]` whose
      window, starting on a start date, contains `g`. */
  predicate Covers(v: Var, g: GameId, pgg: seq<PackageId>, t: Tables) {
    && v.package in pgg
    && v.package in t.Prices(v.tier).entries
    && v.start in t.startDates
    && v.start in t.Cov(v.tier)
    && g in t.Cov(v.tier)[v.start]
  }

  /** `for g in games: model += ... >= 1`. `P_g[g]` must exist, as the
      source's lookup raises otherwise. */
  method CoverConstraints(games: seq<GameId>, pg: map<GameId, seq<PackageId>>, t: Tables)
    returns (cs: seq<Constraint>)
    requires forall g :: g in games ==> g in pg
    ensures |cs| == |games|
    ensures forall i :: 0 <= i < |games| ==> cs[i] == CoverConstraint(games[i], pg[games[i]], t)
    ensures forall i, v :: 0 <= i < |games| ==> (v in cs[i].terms <==> Covers(v, games[i], pg[games[i]], t))
  {
    cs := [];
    for i := 0 to |games|
      invariant |cs| == i
      invariant forall k :: 0 <= k < i ==> cs[k] == CoverConstraint(games[k], pg[games[k]], t)
    {
      cs := cs + [CoverConstraint(games[i], pg[games[i]], t)];
    }
  }

  // ---------------------------------------------------------------------
  // Plans: assignments of the variables
  // ---------------------------------------------------------------------

  /** `varValue`, with a missing value read as 0. */
  function Value(a: map<Var, int>, v: Var): int {
    if v in a then a[v] else 0
  }

  /** `varValue is not None and varValue > 0`. */
  predicate Active(a: map<Var, int>, v: Var) {
    v in a && a[v] > 0
  }

  /** Every value the plan gives is 0 or 1, as for `cat='Binary'`. */
  predicate Binary(a: map<Var, int>) {
    forall v :: v in a ==> a[v] == 0 || a[v] == 1
  }

  /** A variable of the model: a priced package of its tier and a start date. */
  predicate Declared(t: Tables, v: Var) {
    v.package in t.Prices(v.tier).entries && v.start in t.startDates
  }

  /** The variables of the model are the relevant packages priced in the
      tier, from each day some game is on. */
  lemma DeclaredIff(t: Tables, packages: seq<PackageId>, gameDates: Dict<GameId, Day>,
                    cMonth: Dict<PackageId, int>, cYear: Dict<PackageId, int>, v: Var)
    requires TablesFrom(t, packages, gameDates, cMonth, cYear)
    ensures Declared(t, v) <==>
      && v.package in packages
      && v.package in (if v.tier == Monthly then cMonth else cYear).entries
      && exists g :: g in gameDates.entries && gameDates.entries[g] == v.start
  {
  }

  /** The value of `lpSum(terms)`. */
  function LinSum(a: map<Var, int>, terms: seq<Var>): int {
    if terms == [] then 0 else Value(a, terms[0]) + LinSum(a, terms[1..])
  }

  /** The plan meets the constraint. */
  predicate Holds(a: map<Var, int>, c: Constraint) {
    LinSum(a, c.terms) >= 1
  }

  /** For a 0/1 plan, a sum of variables is at least 1 exactly when one of
      them is active. */
  lemma {:induction false} BinarySum(a: map<Var, int>, terms: seq<Var>)
    requires Binary(a)
    ensures LinSum(a, terms) >= 0
    ensures LinSum(a, terms) >= 1 <==> exists v :: v in terms && Active(a, v)
  {
    if terms != [] {
      BinarySum(a, terms[1..]);
      assert Value(a, terms[0]) == if Active(a, terms[0]) then 1 else 0;
      assert forall v :: v in terms <==> v == terms[0] || v in terms[1..];
    }
  }

  /** A 0/1 plan meets the constraint of game `g` exactly when it activates a
      monthly or yearly variable that covers `g`. */
  lemma PlanCoversGame(a: map<Var, int>, g: GameId, pgg: seq<PackageId>, t: Tables)
    requires Binary(a)
    ensures Holds(a, CoverConstraint(g, pgg, t)) <==> exists v :: Active(a, v) && Covers(v, g, pgg, t)
  {
    var terms := CoverConstraint(g, pgg, t).terms;
    BinarySum(a, terms);
    assert forall v :: v in terms <==> Covers(v, g, pgg, t);
  }

  /** Every constrained game has a date and a relevant package of `P_g[g]`
      with a monthly or a yearly price. */
  ghost predicate EveryGamePriced(packages: seq<PackageId>, games: seq<GameId>, gameDates: Dict<GameId, Day>,
                                  cMonth: Dict<PackageId, int>, cYear: Dict<PackageId, int>, pg: map<GameId, seq<PackageId>>)
    requires forall g :: g in games ==> g in pg
  {
    forall g :: g in games ==>
      g in gameDates.entries && exists p :: p in pg[g] && p in packages && (p in cMonth.entries || p in cYear.entries)
  }

  /** A 0/1 plan over the model's variables that meets every constraint. */
  ghost predicate Satisfies(a: map<Var, int>, games: seq<GameId>, pg: map<GameId, seq<PackageId>>, t: Tables)
    requires forall g :: g in games ==> g in pg
  {
    && Binary(a)
    && (forall v :: v in a ==> Declared(t, v))
    && forall g :: g in games ==> Holds(a, CoverConstraint(g, pg[g], t))
  }

  /** The plan that activates every variable of the model. */
  function AllActive(t: Tables): (a: map<Var, int>)
    ensures Binary(a)
    ensures forall v :: v in a <==> Declared(t, v)
    ensures forall v :: v in a ==> Active(a, v)
  {
    var ms := set p, d | p in t.adjMonth.entries && d in t.startDates :: Var(Monthly, p, d);
    var ys := set p, d | p in t.adjYear.entries && d in t.startDates :: Var(Yearly, p, d);
    assert forall v :: Declared(t, v) ==> v in ms + ys by {
      forall v | Declared(t, v) ensures v in ms + ys {
        if v.tier == Monthly { assert v == Var(Monthly, v.package, v.start); }
        else { assert v == Var(Yearly, v.package, v.start); }
      }
    }
    map v | v in ms + ys :: 1
  }

  /** A game with a date and a priced relevant package is covered by any 0/1
      plan that activates every variable of the model. */
  lemma GameCoveredWhenPriced(t: Tables, packages: seq<PackageId>, gameDates: Dict<GameId, Day>,
                              cMonth: Dict<PackageId, int>, cYear: Dict<PackageId, int>,
                              g: GameId, pgg: seq<PackageId>, a: map<Var, int>)
    requires TablesFrom(t, packages, gameDates, cMonth, cYear)
    requires Binary(a) && forall v :: Declared(t, v) ==> Active(a, v)
    requires g in gameDates.entries && exists p :: p in pgg && p in packages && (p in cMonth.entries || p in cYear.entries)
    ensures Holds(a, CoverConstraint(g, pgg, t))
  {
    var p :| p in pgg && p in packages && (p in cMonth.entries || p in cYear.entries);
    var d := gameDates.entries[g];
    assert d in t.startDates;
    var v := if p in cMonth.entries then Var(Monthly, p, d) else Var(Yearly, p, d);
    assert Declared(t, v);
    assert Covers(v, g, pgg, t);
    PlanCoversGame(a, g, pgg, t);
  }

  /** A 0/1 plan that meets the constraint of a game names a priced relevant
      package of the game and a window that contains the game's date. */
  lemma GamePricedWhenCovered(t: Tables, packages: seq<PackageId>, gameDates: Dict<GameId, Day>,
                              cMonth: Dict<PackageId, int>, cYear: Dict<PackageId, int>,
                              g: GameId, pgg: seq<PackageId>, a: map<Var, int>)
    requires TablesFrom(t, packages, gameDates, cMonth, cYear)
    requires Binary(a) && Holds(a, CoverConstraint(g, pgg, t))
    ensures g in gameDates.entries && exists p :: p in pgg && p in packages && (p in cMonth.entries || p in cYear.entries)
  {
    PlanCoversGame(a, g, pgg, t);
    var v :| Active(a, v) && Covers(v, g, pgg, t);
    if v.tier == Monthly {
      assert v.start in t.covMonth && g in t.covMonth[v.start];
    } else {
      assert v.start in t.covYear && g in t.covYear[v.start];
    }
    assert v.package in pgg && v.package in packages && (v.package in cMonth.entries || v.package in cYear.entries);
  }

  lemma FeasibleWhenPriced(t: Tables, packages: seq<PackageId>, games: seq<GameId>, gameDates: Dict<GameId, Day>,
                           cMonth: Dict<PackageId, int>, cYear: Dict<PackageId, int>, pg: map<GameId, seq<PackageId>>)
    requires TablesFrom(t, packages, gameDates, cMonth, cYear)
    requires forall g :: g in games ==> g in pg
    requires EveryGamePriced(packages, games, gameDates, cMonth, cYear, pg)
    ensures Satisfies(AllActive(t), games, pg, t)
  {
    var a := AllActive(t);
    forall g | g in games ensures Holds(a, CoverConstraint(g, pg[g], t)) {
      GameCoveredWhenPriced(t, packages, gameDates, cMonth, cYear, g, pg[g], a);
    }
  }

  lemma PricedWhenFeasible(t: Tables, packages: seq<PackageId>, games: seq<GameId>, gameDates: Dict<GameId, Day>,
                           cMonth: Dict<PackageId, int>, cYear: Dict<PackageId, int>, pg: map<GameId, seq<PackageId>>,
                           a: map<Var, int>)
    requires TablesFrom(t, packages, gameDates, cMonth, cYear)
    requires forall g :: g in games ==> g in pg
    requires Satisfies(a, games, pg, t)
    ensures EveryGamePriced(packages, games, gameDates, cMonth, cYear, pg)
  {
    forall g | g in games
      ensures g in gameDates.entries && exists p :: p in pg[g] && p in packages && (p in cMonth.entries || p in cYear.entries)
    {
      GamePricedWhenCovered(t, packages, gameDates, cMonth, cYear, g, pg[g], a);
    }
  }

  /** The constraints can all be met by a 0/1 plan over the model's variables
      exactly when every constrained game has a date and a relevant package
      of `P_g[g]` with a monthly or a yearly price: each game lies in the
      windows that start on its own date. */
  lemma Feasibility(packages: seq<PackageId>, games: seq<GameId>, gameDates: Dict<GameId, Day>,
                    cMonth: Dict<PackageId, int>, cYear: Dict<PackageId, int>, pg: map<GameId, seq<PackageId>>)
    requires gameDates.Wf() && cMonth.Wf() && cYear.Wf()
    requires forall g :: g in games ==> g in pg
    ensures (exists a :: Satisfies(a, games, pg, MakeTables(packages, gameDates, cMonth, cYear)))
            <==> EveryGamePriced(packages, games, gameDates, cMonth, cYear, pg)
  {
    var t := MakeTables(packages, gameDates, cMonth, cYear);
    if EveryGamePriced(packages, games, gameDates, cMonth, cYear, pg) {
      FeasibleWhenPriced(t, packages, games, gameDates, cMonth, cYear, pg);
    }
    if exists a :: Satisfies(a, games, pg, t) {
      var a :| Satisfies(a, games, pg, t);
      PricedWhenFeasible(t, packages, games, gameDates, cMonth, cYear, pg, a);
    }
  }


  // ---------------------------------------------------------------------
  // Cost
  // ---------------------------------------------------------------------

  /** `price * varValue` summed over the start dates, for one package and tier. */
  function DateSum(a: map<Var, int>, tier: Tier, p: PackageId, price: int, sd: seq<Day>): int {
    if sd == [] then 0
    else DateSum(a, tier, p, price, sd[..|sd| - 1]) + price * Value(a, Var(tier, p, sd[|sd| - 1]))
  }

  /** One of the two `lpSum`s of the objective, with prices `prices`. */
  function TierSum(a: map<Var, int>, tier: Tier, ks: seq<PackageId>, prices: map<PackageId, int>, sd: seq<Day>): int
    requires forall k :: k in ks ==> k in prices
  {
    if ks == [] then 0
    else TierSum(a, tier, ks[..|ks| - 1], prices, sd) + DateSum(a, tier, ks[|ks| - 1], prices[ks[|ks| - 1]], sd)
  }

  /** The values of the tier's variables, summed: for a 0/1 plan, its number
      of activations in the tier. */
  function TierCount(a: map<Var, int>, tier: Tier, ks: seq<PackageId>, sd: seq<Day>): int {
    if ks == [] then 0
    else TierCount(a, tier, ks[..|ks| - 1], sd) + DateSum(a, tier, ks[|ks| - 1], 1, sd)
  }

  /** `pulp.value(model.objective)`: the plan's price at the adjusted prices.
      When every adjusted price is at least one cent, as the +1 of lines
      182-183 makes it for prices that are not negative, every activation
      costs at least one cent. */
  function Objective(t: Tables, a: map<Var, int>): (obj: int)
    requires t.adjMonth.Wf() && t.adjYear.Wf()
    ensures Binary(a) && AtLeastOneCent(t) ==> obj >= Activations(t, a)
  {
    TierSumAtLeastCount(a, Monthly, t.adjMonth.keys, t.adjMonth.entries, t.startDates);
    TierSumAtLeastCount(a, Yearly, t.adjYear.keys, t.adjYear.entries, t.startDates);
    TierSum(a, Monthly, t.adjMonth.keys, t.adjMonth.entries, t.startDates)
    + TierSum(a, Yearly, t.adjYear.keys, t.adjYear.entries, t.startDates)
  }

  /** Every adjusted price is at least one cent. */
  predicate AtLeastOneCent(t: Tables) {
    && (forall p :: p in t.adjMonth.entries ==> t.adjMonth.entries[p] >= 1)
    && (forall p :: p in t.adjYear.entries ==> t.adjYear.entries[p] >= 1)
  }

  lemma {:induction false} DateSumAtLeastCount(a: map<Var, int>, tier: Tier, p: PackageId, price: int, sd: seq<Day>)
    ensures Binary(a) && price >= 1 ==> DateSum(a, tier, p, price, sd) >= DateSum(a, tier, p, 1, sd)
  {
    if sd != [] {
      DateSumAtLeastCount(a, tier, p, price, sd[..|sd| - 1]);
      var x := Value(a, Var(tier, p, sd[|sd| - 1]));
      if Binary(a) && price >= 1 {
        assert x == 0 || x == 1;
        assert price * x >= x;
      }
    }
  }

  lemma {:induction false} TierSumAtLeastCount(a: map<Var, int>, tier: Tier, ks: seq<PackageId>,
                                               prices: map<PackageId, int>, sd: seq<Day>)
    requires forall k :: k in ks ==> k in prices
    ensures Binary(a) && (forall k :: k in prices ==> prices[k] >= 1) ==>
      TierSum(a, tier, ks, prices, sd) >= TierCount(a, tier, ks, sd)
  {
    if ks != [] {
      var k := ks[|ks| - 1];
      TierSumAtLeastCount(a, tier, ks[..|ks| - 1], prices, sd);
      DateSumAtLeastCount(a, tier, k, prices[k], sd);
    }
  }

  /** The plan's number of activations (for a 0/1 plan). */
  function Activations(t: Tables, a: map<Var, int>): int {
    TierCount(a, Monthly, t.adjMonth.keys, t.startDates) + TierCount(a, Yearly, t.adjYear.keys, t.startDates)
  }

  /** The number of variables of the model. */
  function NumVars(t: Tables): nat {
    |t.adjMonth.keys| * |t.startDates| + |t.adjYear.keys| * |t.startDates|
  }

  /** The plan's price at the prices the model was given. */
  function OriginalCost(t: Tables, cMonth: Dict<PackageId, int>, cYear: Dict<PackageId, int>, a: map<Var, int>): int
    requires forall k :: k in t.adjMonth.keys ==> k in cMonth.entries
    requires forall k :: k in t.adjYear.keys ==> k in cYear.entries
  {
    TierSum(a, Monthly, t.adjMonth.keys, cMonth.entries, t.startDates)
    + TierSum(a, Yearly, t.adjYear.keys, cYear.entries, t.startDates)
  }

  /** `actual_total_cost` as line 216 computes it: the objective minus one
      cent per variable of the model, whether or not it is active. For a
      0/1 plan it never exceeds the objective less one cent per activation,
      and it equals it exactly when every variable is active. */
  function TotalCost(t: Tables, a: map<Var, int>): (r: int)
    requires t.adjMonth.Wf() && t.adjYear.Wf()
    ensures Binary(a) ==> r <= CorrectedTotalCost(t, a)
    ensures Binary(a) ==> (r == CorrectedTotalCost(t, a) <==> Activations(t, a) == NumVars(t))
  {
    TierCountBounds(a, Monthly, t.adjMonth.keys, t.startDates);
    TierCountBounds(a, Yearly, t.adjYear.keys, t.startDates);
    Objective(t, a) - NumVars(t)
  }

  /** The evidently intended correction: one cent per activation. */
  function CorrectedTotalCost(t: Tables, a: map<Var, int>): int
    requires t.adjMonth.Wf() && t.adjYear.Wf()
  {
    Objective(t, a) - Activations(t, a)
  }

  lemma {:induction false} DateSumOneMore(a: map<Var, int>, tier: Tier, p: PackageId, price: int, sd: seq<Day>)
    ensures DateSum(a, tier, p, price + 1, sd) == DateSum(a, tier, p, price, sd) + DateSum(a, tier, p, 1, sd)
  {
    if sd != [] {
      DateSumOneMore(a, tier, p, price, sd[..|sd| - 1]);
      var x := Value(a, Var(tier, p, sd[|sd| - 1]));
      assert (price + 1) * x == price * x + 1 * x;
    }
  }

  /** Prices one cent up add the activations to the sum. */
  lemma {:induction false} TierSumOneMore(a: map<Var, int>, tier: Tier, ks: seq<PackageId>,
                                          adjusted: map<PackageId, int>, prices: map<PackageId, int>, sd: seq<Day>)
    requires forall k :: k in ks ==> k in adjusted && k in prices && adjusted[k] == prices[k] + 1
    ensures TierSum(a, tier, ks, adjusted, sd) == TierSum(a, tier, ks, prices, sd) + TierCount(a, tier, ks, sd)
  {
    if ks != [] {
      var k := ks[|ks| - 1];
      TierSumOneMore(a, tier, ks[..|ks| - 1], adjusted, prices, sd);
      DateSumOneMore(a, tier, k, prices[k], sd);
    }
  }

  /** The objective of any plan is its original price plus its number of
      activations: the +1 adjustment charges one cent per activation. */
  lemma ObjectiveIsOriginalPlusActivations(packages: seq<PackageId>, gameDates: Dict<GameId, Day>,
                                           cMonth: Dict<PackageId, int>, cYear: Dict<PackageId, int>, a: map<Var, int>)
    requires gameDates.Wf() && cMonth.Wf() && cYear.Wf()
    ensures var t := MakeTables(packages, gameDates, cMonth, cYear);
      Objective(t, a) == OriginalCost(t, cMonth, cYear, a) + Activations(t, a)
  {
    var t := MakeTables(packages, gameDates, cMonth, cYear);
    TierSumOneMore(a, Monthly, t.adjMonth.keys, t.adjMonth.entries, cMonth.entries, t.startDates);
    TierSumOneMore(a, Yearly, t.adjYear.keys, t.adjYear.entries, cYear.entries, t.startDates);
  }

  /** Subtracting the activations recovers the plan's original price. */
  lemma CorrectedTotalCostIsOriginal(packages: seq<PackageId>, gameDates: Dict<GameId, Day>,
                                     cMonth: Dict<PackageId, int>, cYear: Dict<PackageId, int>, a: map<Var, int>)
    requires gameDates.Wf() && cMonth.Wf() && cYear.Wf()
    ensures var t := MakeTables(packages, gameDates, cMonth, cYear);
      CorrectedTotalCost(t, a) == OriginalCost(t, cMonth, cYear, a)
  {
    ObjectiveIsOriginalPlusActivations(packages, gameDates, cMonth, cYear, a);
  }

  lemma {:induction false} DateSumBounds(a: map<Var, int>, tier: Tier, p: PackageId, sd: seq<Day>)
    ensures Binary(a) ==> 0 <= DateSum(a, tier, p, 1, sd) <= |sd|
  {
    if sd != [] {
      DateSumBounds(a, tier, p, sd[..|sd| - 1]);
    }
  }

  lemma {:induction false} TierCountBounds(a: map<Var, int>, tier: Tier, ks: seq<PackageId>, sd: seq<Day>)
    ensures Binary(a) ==> 0 <= TierCount(a, tier, ks, sd) <= |ks| * |sd|
  {
    if ks != [] {
      TierCountBounds(a, tier, ks[..|ks| - 1], sd);
      DateSumBounds(a, tier, ks[|ks| - 1], sd);
      assert |ks| * |sd| == (|ks| - 1) * |sd| + |sd|;
    }
  }

  lemma {:induction false} DateSumBelowWhenInactive(a: map<Var, int>, tier: Tier, p: PackageId, sd: seq<Day>, d: Day)
    requires Binary(a) && d in sd && !Active(a, Var(tier, p, d))
    ensures DateSum(a, tier, p, 1, sd) < |sd|
  {
    var init := sd[..|sd| - 1];
    DateSumBounds(a, tier, p, init);
    if sd[|sd| - 1] != d {
      assert d in init by {
        var k :| 0 <= k < |sd| && sd[k] == d;
        assert init[k] == d;
      }
      DateSumBelowWhenInactive(a, tier, p, init, d);
    }
  }

  lemma {:induction false} TierCountBelowWhenInactive(a: map<Var, int>, tier: Tier, ks: seq<PackageId>, sd: seq<Day>,
                                                      p: PackageId, d: Day)
    requires Binary(a) && p in ks && d in sd && !Active(a, Var(tier, p, d))
    ensures TierCount(a, tier, ks, sd) < |ks| * |sd|
  {
    var init := ks[..|ks| - 1];
    assert |ks| * |sd| == |init| * |sd| + |sd|;
    if ks[|ks| - 1] == p {
      TierCountBounds(a, tier, init, sd);
      DateSumBelowWhenInactive(a, tier, p, sd, d);
    } else {
      assert p in init by {
        var k :| 0 <= k < |ks| && ks[k] == p;
        assert init[k] == p;
      }
      TierCountBelowWhenInactive(a, tier, init, sd, p, d);
      DateSumBounds(a, tier, ks[|ks| - 1], sd);
    }
  }

  /** What line 216 reports: the original price less one cent for every
      variable left inactive. For a 0/1 plan it never exceeds the original
      price, and it equals it exactly when every variable is active. */
  lemma TotalCostAsWritten(packages: seq<PackageId>, gameDates: Dict<GameId, Day>,
                           cMonth: Dict<PackageId, int>, cYear: Dict<PackageId, int>, a: map<Var, int>)
    requires gameDates.Wf() && cMonth.Wf() && cYear.Wf()
    ensures var t := MakeTables(packages, gameDates, cMonth, cYear);
      TotalCost(t, a) == OriginalCost(t, cMonth, cYear, a) - (NumVars(t) - Activations(t, a))
    ensures var t := MakeTables(packages, gameDates, cMonth, cYear);
      Binary(a) ==> TotalCost(t, a) <= OriginalCost(t, cMonth, cYear, a)
    ensures var t := MakeTables(packages, gameDates, cMonth, cYear);
      Binary(a) ==> (TotalCost(t, a) == OriginalCost(t, cMonth, cYear, a) <==> Activations(t, a) == NumVars(t))
  {
    var t := MakeTables(packages, gameDates, cMonth, cYear);
    ObjectiveIsOriginalPlusActivations(packages, gameDates, cMonth, cYear, a);
    if Binary(a) {
      TierCountBounds(a, Monthly, t.adjMonth.keys, t.startDates);
      TierCountBounds(a, Yearly, t.adjYear.keys, t.startDates);
    }
  }

  // ---------------------------------------------------------------------
  // Reading the plan back
  // ---------------------------------------------------------------------

  /** `x` comes before `y` when its package comes earlier in `ps`, or when
      both have the same package and `x` starts earlier. */
  predicate ListedBefore(x: Subscription, y: Subscription, ps: seq<PackageId>) {
    && x.package in ps && y.package in ps
    && (IndexOf(ps, x.package) < IndexOf(ps, y.package)
        || (x.package == y.package && x.startDate < y.startDate))
  }

  /** Package-major order, then ascending start date. */
  ghost predicate PackageMajor(subs: seq<Subscription>, ps: seq<PackageId>) {
    forall i, j :: 0 <= i < j < |subs| ==> ListedBefore(subs[i], subs[j], ps)
  }

  lemma DateSumStep(a: map<Var, int>, tier: Tier, p: PackageId, sd: seq<Day>, j: int)
    requires 0 <= j < |sd|
    ensures DateSum(a, tier, p, 1, sd[..j + 1]) == DateSum(a, tier, p, 1, sd[..j]) + Value(a, Var(tier, p, sd[j]))
  {
    assert sd[..j + 1][..j] == sd[..j];
  }

  lemma TierCountStep(a: map<Var, int>, tier: Tier, ps: seq<PackageId>, sd: seq<Day>, i: int)
    requires 0 <= i < |ps|
    ensures TierCount(a, tier, ps[..i + 1], sd) == TierCount(a, tier, ps[..i], sd) + DateSum(a, tier, ps[i], 1, sd)
  {
    assert ps[..i + 1][..i] == ps[..i];
  }

  /** `for p in prices: for d in start_dates: if z[p, d] is active: append`:
      exactly the active variables of the tier, in package-major order, one
      per activation. */
  method ActiveSubscriptions(a: map<Var, int>, tier: Tier, ps: seq<PackageId>, sd: seq<Day>)
    returns (subs: seq<Subscription>)
    ensures forall s :: s in subs <==>
      s.package in ps && s.startDate in sd && Active(a, Var(tier, s.package, s.startDate))
    ensures Distinct(ps) && StrictlyIncreasing(sd) ==> PackageMajor(subs, ps)
    ensures Binary(a) ==> |subs| == TierCount(a, tier, ps, sd)
  {
    subs := [];
    for i := 0 to |ps|
      invariant forall s :: s in subs <==>
        s.package in ps[..i] && s.startDate in sd && Active(a, Var(tier, s.package, s.startDate))
      invariant Distinct(ps) && StrictlyIncreasing(sd) ==>
        PackageMajor(subs, ps) && forall s :: s in subs ==> IndexOf(ps, s.package) < i
      invariant Binary(a) ==> |subs| == TierCount(a, tier, ps[..i], sd)
    {
      var p := ps[i];
      assert forall q :: q in ps[..i + 1] <==> q in ps[..i] || q == p;
      for j := 0 to |sd|
        invariant forall s :: s in subs <==>
          (s.package in ps[..i] && s.startDate in sd && Active(a, Var(tier, s.package, s.startDate)))
          || (s.package == p && s.startDate in sd[..j] && Active(a, Var(tier, s.package, s.startDate)))
        invariant Distinct(ps) && StrictlyIncreasing(sd) ==>
          PackageMajor(subs, ps)
          && forall s :: s in subs ==> IndexOf(ps, s.package) < i || (s.package == p && s.startDate in sd[..j])
        invariant Binary(a) ==> |subs| == TierCount(a, tier, ps[..i], sd) + DateSum(a, tier, p, 1, sd[..j])
      {
        var d := sd[j];
        assert forall e :: e in sd[..j + 1] <==> e in sd[..j] || e == d;
        DateSumStep(a, tier, p, sd, j);
        var v := Var(tier, p, d);
        if v in a && a[v] > 0 {
          var s := Subscription(p, d);
          if Distinct(ps) && StrictlyIncreasing(sd) {
            AppendKeepsOrder(subs, s, ps, sd, i, j);
          }
          subs := subs + [s];
        }
      }
      assert sd[..|sd|] == sd;
      TierCountStep(a, tier, ps, sd, i);
    }
    assert ps[..|ps|] == ps;
  }

  /** Appending the subscription of `ps[i]` and `sd[j]` after those of the
      earlier packages and the earlier dates keeps package-major order. */
  lemma AppendKeepsOrder(subs: seq<Subscription>, s: Subscription, ps: seq<PackageId>, sd: seq<Day>, i: int, j: int)
    requires Distinct(ps) && StrictlyIncreasing(sd)
    requires 0 <= i < |ps| && 0 <= j < |sd| && s == Subscription(ps[i], sd[j])
    requires PackageMajor(subs, ps)
    requires forall x :: x in subs ==> x.package in ps
    requires forall x :: x in subs ==> IndexOf(ps, x.package) < i || (x.package == ps[i] && x.startDate in sd[..j])
    ensures PackageMajor(subs + [s], ps)
  {
    assert IndexOf(ps, ps[i]) == i;
    forall x | x in subs ensures ListedBefore(x, s, ps) {
      if x.package == ps[i] {
        var k :| 0 <= k < j && sd[k] == x.startDate;
        assert sd[k] < sd[j];
      }
    }
    var r := subs + [s];
    forall m, n | 0 <= m < n < |r| ensures ListedBefore(r[m], r[n], ps) {
      if n == |subs| {
        assert r[m] in subs;
      } else {
        assert r[m] == subs[m] && r[n] == subs[n];
      }
    }
  }

  // ---------------------------------------------------------------------
  // The whole function
  // ---------------------------------------------------------------------

  /** Every variable of the model has a value. Otherwise `pulp.value` of the
      objective is `None` and the subtraction of line 216 raises `TypeError`. */
  predicate Valued(t: Tables, a: map<Var, int>) {
    && (forall p, d :: p in t.adjMonth.entries && d in t.startDates ==> Var(Monthly, p, d) in a)
    && (forall p, d :: p in t.adjYear.entries && d in t.startDates ==> Var(Yearly, p, d) in a)
  }

  /** The answer values the objective exactly when it gives a value to every
      variable of the model. */
  lemma ValuedIff(t: Tables, a: map<Var, int>)
    ensures Valued(t, a) <==> forall v :: Declared(t, v) ==> v in a
  {
    if Valued(t, a) {
      forall v | Declared(t, v) ensures v in a {
        if v.tier == Monthly {
          assert v == Var(Monthly, v.package, v.start);
        } else {
          assert v == Var(Yearly, v.package, v.start);
        }
      }
    }
    if forall v :: Declared(t, v) ==> v in a {
      assert forall p, d :: p in t.adjMonth.entries && d in t.startDates ==> Declared(t, Var(Monthly, p, d));
      assert forall p, d :: p in t.adjYear.entries && d in t.startDates ==> Declared(t, Var(Yearly, p, d));
    }
  }

  /** "Process results": line 216 raises (`None`) when a variable has no
      value; otherwise the status, the total cost as line 216 computes it,
      and the active subscriptions of each tier. */
  method ReadBack(t: Tables, solution: Solution) returns (res: Option<Results>)
    requires t.adjMonth.Wf() && t.adjYear.Wf()
    ensures res.None? <==> exists v :: Declared(t, v) && v !in solution.values
    ensures res.Some? ==> res.value.status == solution.status
    ensures res.Some? ==> res.value.totalCost == Objective(t, solution.values) - NumVars(t)
    ensures res.Some? ==> forall s :: s in res.value.activeMonthly <==>
      Declared(t, Var(Monthly, s.package, s.startDate)) && Active(solution.values, Var(Monthly, s.package, s.startDate))
    ensures res.Some? ==> forall s :: s in res.value.activeYearly <==>
      Declared(t, Var(Yearly, s.package, s.startDate)) && Active(solution.values, Var(Yearly, s.package, s.startDate))
    ensures res.Some? && StrictlyIncreasing(t.startDates) ==>
      PackageMajor(res.value.activeMonthly, t.adjMonth.keys) && PackageMajor(res.value.activeYearly, t.adjYear.keys)
    ensures res.Some? && Binary(solution.values) ==>
      |res.value.activeMonthly| + |res.value.activeYearly| == Activations(t, solution.values)
  {
    ValuedIff(t, solution.values);
    if !Valued(t, solution.values) {
      return None;
    }
    var totalCost := TotalCost(t, solution.values);
    var monthly := ActiveSubscriptions(solution.values, Monthly, t.adjMonth.keys, t.startDates);
    var yearly := ActiveSubscriptions(solution.values, Yearly, t.adjYear.keys, t.startDates);
    res := Some(Results(solution.status, totalCost, monthly, yearly));
  }

  /** `optimize_streaming_packages`, with `solve` in place of the solver call;
      `None` when the function raises at line 216. */
  method Optimize(packages: seq<PackageId>, games: seq<GameId>, gameDates: Dict<GameId, Day>,
                  cMonth: Dict<PackageId, int>, cYear: Dict<PackageId, int>, pg: map<GameId, seq<PackageId>>,
                  solve: CoverProblem -> Solution)
    returns (problem: CoverProblem, res: Option<Results>)
    requires gameDates.Wf() && cMonth.Wf() && cYear.Wf()
    requires forall g :: g in games ==> g in pg
    // the model
    ensures problem.tables == MakeTables(packages, gameDates, cMonth, cYear)
    ensures |problem.constraints| == |games|
    ensures forall i, v :: 0 <= i < |games| ==>
      (v in problem.constraints[i].terms <==> Covers(v, games[i], pg[games[i]], problem.tables))
    // what is read back from the solver
    ensures res.None? <==> exists v :: Declared(problem.tables, v) && v !in solve(problem).values
    ensures res.Some? ==> res.value.status == solve(problem).status
    ensures res.Some? && Binary(solve(problem).values) ==>
      res.value.totalCost == OriginalCost(problem.tables, cMonth, cYear, solve(problem).values)
        - (NumVars(problem.tables) - Activations(problem.tables, solve(problem).values))
    ensures res.Some? && Binary(solve(problem).values) ==>
      res.value.totalCost <= OriginalCost(problem.tables, cMonth, cYear, solve(problem).values)
    ensures res.Some? ==> forall s :: s in res.value.activeMonthly <==>
      Declared(problem.tables, Var(Monthly, s.package, s.startDate))
      && Active(solve(problem).values, Var(Monthly, s.package, s.startDate))
    ensures res.Some? ==> forall s :: s in res.value.activeYearly <==>
      Declared(problem.tables, Var(Yearly, s.package, s.startDate))
      && Active(solve(problem).values, Var(Yearly, s.package, s.startDate))
    ensures res.Some? ==> PackageMajor(res.value.activeMonthly, problem.tables.adjMonth.keys)
    ensures res.Some? ==> PackageMajor(res.value.activeYearly, problem.tables.adjYear.keys)
    ensures res.Some? && Binary(solve(problem).values) ==>
      |res.value.activeMonthly| + |res.value.activeYearly| == Activations(problem.tables, solve(problem).values)
  {
    var t := MakeTables(packages, gameDates, cMonth, cYear);
    var constraints := CoverConstraints(games, pg, t);
    problem := CoverProblem(t, constraints);
    res := ReadBack(t, solve(problem));
    TotalCostAsWritten(packages, gameDates, cMonth, cYear, solve(problem).values);
  }


  /** The defect of line 216: a 0/1 plan that leaves any variable of the
      model inactive is reported below its price at the original prices. */
  lemma TotalCostUndercounts(packages: seq<PackageId>, gameDates: Dict<GameId, Day>,
                             cMonth: Dict<PackageId, int>, cYear: Dict<PackageId, int>, a: map<Var, int>, v: Var)
    requires gameDates.Wf() && cMonth.Wf() && cYear.Wf()
    requires Binary(a)
    requires Declared(MakeTables(packages, gameDates, cMonth, cYear), v) && !Active(a, v)
    ensures var t := MakeTables(packages, gameDates, cMonth, cYear);
      TotalCost(t, a) < OriginalCost(t, cMonth, cYear, a)
  {
    var t := MakeTables(packages, gameDates, cMonth, cYear);
    TotalCostAsWritten(packages, gameDates, cMonth, cYear, a);
    TierCountBounds(a, Monthly, t.adjMonth.keys, t.startDates);
    TierCountBounds(a, Yearly, t.adjYear.keys, t.startDates);
    if v.tier == Monthly {
      TierCountBelowWhenInactive(a, Monthly, t.adjMonth.keys, t.startDates, v.package, v.start);
    } else {
      TierCountBelowWhenInactive(a, Yearly, t.adjYear.keys, t.startDates, v.package, v.start);
    }
  }
}
