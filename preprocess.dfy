/** `preprocess_data` of BackEnd/streaming_optimizer.py: from the raw offer,
    package and game tables to the inputs of the covering model.
    Data frames are sequences of rows, dates are day numbers, prices are
    integer cents, and the two user preferences are reals (the HTTP layer
    divides a percentage by 100). The surcharges `100 ** live_value` and
    `30 ** highlight_value` are supplied as given amounts. */
module Preprocess {
  import opened Collections

  type PackageId = int
  type GameId = int
  /** A calendar date as a day number. */
  type Day = int

  /** A row of the streaming offers table: one package offering one game. */
  datatype Offer = Offer(gameId: GameId, streamingPackageId: PackageId, live: int, highlights: int)

  /** A row of the streaming packages table; a missing price is `None`. */
  datatype PackageRow = PackageRow(
    id: PackageId,
    monthlyPriceCents: Option<int>,
    monthlyPriceYearlySubscriptionInCents: Option<int>)

  /** A row of the games table, reduced to what the planner reads. */
  datatype GameRow = GameRow(id: GameId, startsAt: Day)

  /** The dictionary returned by `preprocess_data`. */
  datatype Prepared = Prepared(
    packages: seq<PackageId>,
    games: seq<GameId>,
    gameDates: Dict<GameId, Day>,
    cMonth: Dict<PackageId, int>,
    cYear: Dict<PackageId, int>,
    pg: map<GameId, seq<PackageId>>,
    gamesWithNoOffers: seq<GameId>)

  /** The `streaming_package_id` column of a table of offers. */
  function PackageIdsOf(offers: seq<Offer>): (ids: seq<PackageId>)
    ensures |ids| == |offers|
    ensures forall p :: p in ids <==> exists o :: o in offers && o.streamingPackageId == p
  {
    var ids := MapSeq(offers, (o: Offer) => o.streamingPackageId);
    MapSeqMembership(offers, (o: Offer) => o.streamingPackageId);
    ids
  }

  /** The ids of the packages that offer at least one game of interest,
      each once, in order of first appearance. */
  function RelevantPackageIds(interest: seq<GameId>, offers: seq<Offer>): (r: seq<PackageId>)
    ensures Distinct(r)
    ensures forall p :: p in r <==> exists o :: o in offers && o.gameId in interest && o.streamingPackageId == p
  {
    Unique(PackageIdsOf(Filter(offers, (o: Offer) => o.gameId in interest)))
  }

  /** The monthly price table: packages without a monthly price are left out;
      for a repeated id the last priced row wins. */
  function MonthlyPrices(rows: seq<PackageRow>): (c: Dict<PackageId, int>)
    ensures c.Wf()
    ensures forall p :: p in c.entries <==> exists row :: row in rows && row.id == p && row.monthlyPriceCents.Some?
    ensures forall p :: p in c.entries ==>
      exists row :: row in rows && row.id == p && row.monthlyPriceCents == Some(c.entries[p])
  {
    var key := (row: PackageRow) => row.id;
    var column := (row: PackageRow) => row.monthlyPriceCents;
    var c := ColumnToDict(rows, key, column);
    ValueFromSomeRow(rows, key, column, c);
    c
  }

  /** The yearly price table: twelve times the monthly price under a yearly
      subscription; packages without that price are left out. */
  function YearlyPrices(rows: seq<PackageRow>): (c: Dict<PackageId, int>)
    ensures c.Wf()
    ensures forall p :: p in c.entries <==>
      exists row :: row in rows && row.id == p && row.monthlyPriceYearlySubscriptionInCents.Some?
    ensures forall p :: p in c.entries ==>
      exists row :: row in rows && row.id == p && row.monthlyPriceYearlySubscriptionInCents.Some?
        && c.entries[p] == 12 * row.monthlyPriceYearlySubscriptionInCents.value
  {
    var key := (row: PackageRow) => row.id;
    var column := (row: PackageRow) =>
      match row.monthlyPriceYearlySubscriptionInCents
      case Some(m) => Some(12 * m)
      case None => None;
    var c := ColumnToDict(rows, key, column);
    ValueFromSomeRow(rows, key, column, c);
    c
  }

  /** Game id to start date, for the games of interest found in the games table. */
  function GameDates(gamesDf: seq<GameRow>, interest: seq<GameId>): (d: Dict<GameId, Day>)
    ensures d.Wf()
    ensures forall g :: g in d.entries <==> g in interest && exists row :: row in gamesDf && row.id == g
    ensures forall g :: g in d.entries ==> exists row :: row in gamesDf && row.id == g && row.startsAt == d.entries[g]
  {
    var rows := Filter(gamesDf, (row: GameRow) => row.id in interest);
    var key := (row: GameRow) => row.id;
    var column := (row: GameRow) => Some(row.startsAt);
    var d := ColumnToDict(rows, key, column);
    ValueFromSomeRow(rows, key, column, d);
    d
  }

  /** The packages offering game `g`, in row order. */
  function PackagesOfGame(offers: seq<Offer>, g: GameId): (ids: seq<PackageId>)
    ensures forall p :: p in ids <==> exists o :: o in offers && o.gameId == g && o.streamingPackageId == p
  {
    PackageIdsOf(Filter(offers, (o: Offer) => o.gameId == g))
  }

  /** `groupby('game_id')['streaming_package_id'].apply(list).to_dict()`:
      each game with an offer, mapped to its offering packages in row order. */
  function GroupByGame(offers: seq<Offer>): (pg: map<GameId, seq<PackageId>>)
    ensures forall g :: g in pg <==> exists o :: o in offers && o.gameId == g
    ensures forall g :: g in pg ==> pg[g] != []
    ensures forall g, p :: g in pg ==>
      (p in pg[g] <==> exists o :: o in offers && o.gameId == g && o.streamingPackageId == p)
  {
    var gameIds := set o | o in offers :: o.gameId;
    var pg := map g | g in gameIds :: PackagesOfGame(offers, g);
    assert forall g :: g in pg ==> pg[g] != [] by {
      forall g | g in pg ensures pg[g] != [] {
        var o :| o in offers && o.gameId == g;
        assert o.streamingPackageId in pg[g];
      }
    }
    pg
  }

  /** An offer that survives the row filters: it is for a game of interest,
      it is live when live coverage is mandatory, and it has highlights when
      highlights are mandatory. */
  predicate Admitted(o: Offer, interest: seq<GameId>, liveValue: real, highlightValue: real) {
    && o.gameId in interest
    && (liveValue >= 1.0 ==> o.live == 1)
    && (highlightValue >= 1.0 ==> o.highlights == 1)
  }

  /** The offers that survive the row filters, in row order. */
  function AdmittedOffers(offers: seq<Offer>, interest: seq<GameId>, liveValue: real, highlightValue: real): (r: seq<Offer>)
    ensures forall o :: o in r <==> o in offers && Admitted(o, interest, liveValue, highlightValue)
  {
    Filter(offers, (o: Offer) => Admitted(o, interest, liveValue, highlightValue))
  }

  /** Some offer of package `p` among `offers` is not live. */
  ghost predicate NonLiveOffered(offers: seq<Offer>, p: PackageId) {
    exists o :: o in offers && o.live == 0 && o.streamingPackageId == p
  }

  /** Some offer of package `p` among `offers` has no highlights. */
  ghost predicate NonHighlightOffered(offers: seq<Offer>, p: PackageId) {
    exists o :: o in offers && o.highlights == 0 && o.streamingPackageId == p
  }

  /** The monthly surcharge of package `p` given the filtered offers: the
      live penalty when the live preference lies strictly between 0 and 1
      and `p` has a non-live offer, plus the highlight penalty under the
      same rule. The yearly surcharge is twelve times this amount. */
  ghost function Surcharge(offers: seq<Offer>, liveValue: real, highlightValue: real,
                           liveSurcharge: nat, highlightSurcharge: nat, p: PackageId): int
  {
    (if 0.0 < liveValue < 1.0 && NonLiveOffered(offers, p) then liveSurcharge else 0)
    + (if 0.0 < highlightValue < 1.0 && NonHighlightOffered(offers, p) then highlightSurcharge else 0)
  }

  /** A surcharge is never negative, is only charged for a preference
      strictly between 0 and 1, and only to a package with an offer that
      lacks live coverage or highlights. */
  lemma SurchargeScope(offers: seq<Offer>, liveValue: real, highlightValue: real,
                       liveSurcharge: nat, highlightSurcharge: nat, p: PackageId)
    ensures Surcharge(offers, liveValue, highlightValue, liveSurcharge, highlightSurcharge, p) >= 0
    ensures (liveValue <= 0.0 || liveValue >= 1.0) && (highlightValue <= 0.0 || highlightValue >= 1.0) ==>
      Surcharge(offers, liveValue, highlightValue, liveSurcharge, highlightSurcharge, p) == 0
    ensures Surcharge(offers, liveValue, highlightValue, liveSurcharge, highlightSurcharge, p) != 0 ==>
      NonLiveOffered(offers, p) || NonHighlightOffered(offers, p)
  {
  }

  /** Adding `amount` once per occurrence adds it once to each element of a
      list without repetitions. */
  lemma AddedOnce(ps: seq<PackageId>, amount: int)
    requires Distinct(ps)
    ensures forall p :: amount * multiset(ps)[p] == if p in ps then amount else 0
  {
    forall p ensures amount * multiset(ps)[p] == if p in ps then amount else 0 {
      DistinctOccursOnce(ps, p);
    }
  }

  /** Counting one more element of `ps` adds `amount` for that element only. */
  lemma CountStep(ps: seq<PackageId>, i: int, amount: int)
    requires 0 <= i < |ps|
    ensures forall q :: amount * multiset(ps[..i + 1])[q] == amount * multiset(ps[..i])[q] + (if q == ps[i] then amount else 0)
  {
    assert ps[..i + 1] == ps[..i] + [ps[i]];
    forall q ensures amount * multiset(ps[..i + 1])[q] == amount * multiset(ps[..i])[q] + (if q == ps[i] then amount else 0) {
      var n := multiset(ps[..i])[q];
      if q == ps[i] {
        assert multiset(ps[..i + 1])[q] == n + 1;
        assert amount * (n + 1) == amount * n + amount;
      } else {
        assert multiset(ps[..i + 1])[q] == n;
      }
    }
  }

  /** One surcharge pass, `for p in ps: if p in C_month: C_month[p] += amount;
      if p in C_year: C_year[p] += amount * 12`: each table keeps its keys and
      each priced package gains the amount once per time `ps` lists it. */
  method SurchargePass(month: Dict<PackageId, int>, year: Dict<PackageId, int>, ps: seq<PackageId>, amount: int)
    returns (cMonth: Dict<PackageId, int>, cYear: Dict<PackageId, int>)
    ensures cMonth.keys == month.keys && cMonth.entries.Keys == month.entries.Keys
    ensures cYear.keys == year.keys && cYear.entries.Keys == year.entries.Keys
    ensures forall p :: p in month.entries ==> cMonth.entries[p] == month.entries[p] + amount * multiset(ps)[p]
    ensures forall p :: p in year.entries ==> cYear.entries[p] == year.entries[p] + (12 * amount) * multiset(ps)[p]
  {
    cMonth, cYear := month, year;
    for i := 0 to |ps|
      invariant cMonth.keys == month.keys && cMonth.entries.Keys == month.entries.Keys
      invariant cYear.keys == year.keys && cYear.entries.Keys == year.entries.Keys
      invariant forall p :: p in month.entries ==> cMonth.entries[p] == month.entries[p] + amount * multiset(ps[..i])[p]
      invariant forall p :: p in year.entries ==> cYear.entries[p] == year.entries[p] + (12 * amount) * multiset(ps[..i])[p]
    {
      var p := ps[i];
      CountStep(ps, i, amount);
      CountStep(ps, i, 12 * amount);
      if p in cMonth.entries {
        cMonth := cMonth.(entries := cMonth.entries[p := cMonth.entries[p] + amount]);
      }
      if p in cYear.entries {
        cYear := cYear.(entries := cYear.entries[p := cYear.entries[p] + amount * 12]);
      }
    }
    assert ps[..|ps|] == ps;
  }

  /** The two surcharge passes over the price tables: every package with a
      non-live (non-highlight) offer among `offers` is visited once per
      pass when the preference lies strictly between 0 and 1. */
  method ApplySurcharges(month: Dict<PackageId, int>, year: Dict<PackageId, int>, offers: seq<Offer>,
                         liveValue: real, highlightValue: real, liveSurcharge: nat, highlightSurcharge: nat)
    returns (cMonth: Dict<PackageId, int>, cYear: Dict<PackageId, int>)
    ensures cMonth.keys == month.keys && cMonth.entries.Keys == month.entries.Keys
    ensures cYear.keys == year.keys && cYear.entries.Keys == year.entries.Keys
    ensures forall p :: p in month.entries ==>
      cMonth.entries[p] == month.entries[p] + Surcharge(offers, liveValue, highlightValue, liveSurcharge, highlightSurcharge, p)
    ensures forall p :: p in year.entries ==>
      cYear.entries[p] == year.entries[p] + 12 * Surcharge(offers, liveValue, highlightValue, liveSurcharge, highlightSurcharge, p)
  {
    var liveMonth, liveYear := LivePass(month, year, offers, liveValue, liveSurcharge);
    cMonth, cYear := HighlightPass(liveMonth, liveYear, offers, highlightValue, highlightSurcharge);
  }

  /** Lines 115-124: the live surcharge. */
  method LivePass(month: Dict<PackageId, int>, year: Dict<PackageId, int>, offers: seq<Offer>,
                  liveValue: real, liveSurcharge: nat)
    returns (cMonth: Dict<PackageId, int>, cYear: Dict<PackageId, int>)
    ensures cMonth.keys == month.keys && cMonth.entries.Keys == month.entries.Keys
    ensures cYear.keys == year.keys && cYear.entries.Keys == year.entries.Keys
    ensures forall p :: p in month.entries ==>
      cMonth.entries[p] == month.entries[p] + (if 0.0 < liveValue < 1.0 && NonLiveOffered(offers, p) then liveSurcharge else 0)
    ensures forall p :: p in year.entries ==>
      cYear.entries[p] == year.entries[p] + (if 0.0 < liveValue < 1.0 && NonLiveOffered(offers, p) then 12 * liveSurcharge else 0)
  {
    cMonth, cYear := month, year;
    if 0.0 < liveValue < 1.0 {
      var noLive := Unique(PackageIdsOf(Filter(offers, (o: Offer) => o.live == 0)));
      assert forall p :: p in noLive <==> NonLiveOffered(offers, p);
      AddedOnce(noLive, liveSurcharge);
      AddedOnce(noLive, 12 * liveSurcharge);
      cMonth, cYear := SurchargePass(month, year, noLive, liveSurcharge);
    }
  }

  /** Lines 126-135: the highlight surcharge. */
  method HighlightPass(month: Dict<PackageId, int>, year: Dict<PackageId, int>, offers: seq<Offer>,
                       highlightValue: real, highlightSurcharge: nat)
    returns (cMonth: Dict<PackageId, int>, cYear: Dict<PackageId, int>)
    ensures cMonth.keys == month.keys && cMonth.entries.Keys == month.entries.Keys
    ensures cYear.keys == year.keys && cYear.entries.Keys == year.entries.Keys
    ensures forall p :: p in month.entries ==>
      cMonth.entries[p] == month.entries[p]
        + (if 0.0 < highlightValue < 1.0 && NonHighlightOffered(offers, p) then highlightSurcharge else 0)
    ensures forall p :: p in year.entries ==>
      cYear.entries[p] == year.entries[p]
        + (if 0.0 < highlightValue < 1.0 && NonHighlightOffered(offers, p) then 12 * highlightSurcharge else 0)
  {
    cMonth, cYear := month, year;
    if 0.0 < highlightValue < 1.0 {
      var noHighlight := Unique(PackageIdsOf(Filter(offers, (o: Offer) => o.highlights == 0)));
      assert forall p :: p in noHighlight <==> NonHighlightOffered(offers, p);
      AddedOnce(noHighlight, highlightSurcharge);
      AddedOnce(noHighlight, 12 * highlightSurcharge);
      cMonth, cYear := SurchargePass(month, year, noHighlight, highlightSurcharge);
    }
  }

  /** The surcharge depends on which offers survive, not on their order. */
  lemma SurchargeBySurvivors(a: seq<Offer>, b: seq<Offer>, liveValue: real, highlightValue: real,
                             liveSurcharge: nat, highlightSurcharge: nat)
    requires forall o :: o in a <==> o in b
    ensures forall p :: Surcharge(a, liveValue, highlightValue, liveSurcharge, highlightSurcharge, p)
                     == Surcharge(b, liveValue, highlightValue, liveSurcharge, highlightSurcharge, p)
  {
  }

  /** The ids of a table of packages, each once, in order of first appearance. */
  function PackageIds(rows: seq<PackageRow>): (ids: seq<PackageId>)
    ensures Distinct(ids)
    ensures forall p :: p in ids <==> exists row :: row in rows && row.id == p
  {
    MapSeqMembership(rows, (row: PackageRow) => row.id);
    Unique(MapSeq(rows, (row: PackageRow) => row.id))
  }

  /** Every monthly price is the raw row's price plus the package's surcharge. */
  ghost predicate MonthlyPricedFrom(cMonth: Dict<PackageId, int>, packagesRaw: seq<PackageRow>, admitted: seq<Offer>,
                                    liveValue: real, highlightValue: real, liveSurcharge: nat, highlightSurcharge: nat)
  {
    forall p :: p in cMonth.entries ==>
      exists row :: (row in packagesRaw && row.id == p && row.monthlyPriceCents.Some?
        && cMonth.entries[p] == row.monthlyPriceCents.value
           + Surcharge(admitted, liveValue, highlightValue, liveSurcharge, highlightSurcharge, p))
  }

  /** Every yearly price is twelve times the raw row's monthly-equivalent price, plus twelve surcharges. */
  ghost predicate YearlyPricedFrom(cYear: Dict<PackageId, int>, packagesRaw: seq<PackageRow>, admitted: seq<Offer>,
                                   liveValue: real, highlightValue: real, liveSurcharge: nat, highlightSurcharge: nat)
  {
    forall p :: p in cYear.entries ==>
      exists row :: (row in packagesRaw && row.id == p && row.monthlyPriceYearlySubscriptionInCents.Some?
        && cYear.entries[p] == 12 * row.monthlyPriceYearlySubscriptionInCents.value
           + 12 * Surcharge(admitted, liveValue, highlightValue, liveSurcharge, highlightSurcharge, p))
  }

  /** Every surcharged monthly price goes back to a row of the raw package table. */
  lemma MonthlyFromRows(packagesRaw: seq<PackageRow>, filteredPackages: seq<PackageRow>,
                        base: Dict<PackageId, int>, cMonth: Dict<PackageId, int>, offers: seq<Offer>, admitted: seq<Offer>,
                        liveValue: real, highlightValue: real, liveSurcharge: nat, highlightSurcharge: nat)
    requires forall row :: row in filteredPackages ==> row in packagesRaw
    requires forall o :: o in offers <==> o in admitted
    requires forall p :: p in base.entries ==>
      exists row :: row in filteredPackages && row.id == p && row.monthlyPriceCents == Some(base.entries[p])
    requires cMonth.entries.Keys == base.entries.Keys
    requires forall p :: p in base.entries ==>
      cMonth.entries[p] == base.entries[p] + Surcharge(offers, liveValue, highlightValue, liveSurcharge, highlightSurcharge, p)
    ensures MonthlyPricedFrom(cMonth, packagesRaw, admitted, liveValue, highlightValue, liveSurcharge, highlightSurcharge)
  {
    SurchargeBySurvivors(offers, admitted, liveValue, highlightValue, liveSurcharge, highlightSurcharge);
    forall p | p in cMonth.entries
      ensures exists row :: (row in packagesRaw && row.id == p && row.monthlyPriceCents.Some?
        && cMonth.entries[p] == row.monthlyPriceCents.value
           + Surcharge(admitted, liveValue, highlightValue, liveSurcharge, highlightSurcharge, p))
    {
      var row :| row in filteredPackages && row.id == p && row.monthlyPriceCents == Some(base.entries[p]);
      assert row in packagesRaw;
    }
  }

  /** Every surcharged yearly price goes back to a row of the raw package table. */
  lemma YearlyFromRows(packagesRaw: seq<PackageRow>, filteredPackages: seq<PackageRow>,
                       base: Dict<PackageId, int>, cYear: Dict<PackageId, int>, offers: seq<Offer>, admitted: seq<Offer>,
                       liveValue: real, highlightValue: real, liveSurcharge: nat, highlightSurcharge: nat)
    requires forall row :: row in filteredPackages ==> row in packagesRaw
    requires forall o :: o in offers <==> o in admitted
    requires forall p :: p in base.entries ==>
      exists row :: row in filteredPackages && row.id == p && row.monthlyPriceYearlySubscriptionInCents.Some?
        && base.entries[p] == 12 * row.monthlyPriceYearlySubscriptionInCents.value
    requires cYear.entries.Keys == base.entries.Keys
    requires forall p :: p in base.entries ==>
      cYear.entries[p] == base.entries[p] + 12 * Surcharge(offers, liveValue, highlightValue, liveSurcharge, highlightSurcharge, p)
    ensures YearlyPricedFrom(cYear, packagesRaw, admitted, liveValue, highlightValue, liveSurcharge, highlightSurcharge)
  {
    SurchargeBySurvivors(offers, admitted, liveValue, highlightValue, liveSurcharge, highlightSurcharge);
    forall p | p in cYear.entries
      ensures exists row :: (row in packagesRaw && row.id == p && row.monthlyPriceYearlySubscriptionInCents.Some?
        && cYear.entries[p] == 12 * row.monthlyPriceYearlySubscriptionInCents.value
           + 12 * Surcharge(admitted, liveValue, highlightValue, liveSurcharge, highlightSurcharge, p))
    {
      var row :| row in filteredPackages && row.id == p && row.monthlyPriceYearlySubscriptionInCents.Some?
        && base.entries[p] == 12 * row.monthlyPriceYearlySubscriptionInCents.value;
      assert row in packagesRaw;
    }
  }

  /** Step 2 of `preprocess_data`: the offers for the games of interest,
      then, when live or highlights are mandatory, only those that have it. */
  method FilterOffers(offersRaw: seq<Offer>, interest: seq<GameId>, liveValue: real, highlightValue: real)
    returns (filteredOffers: seq<Offer>)
    ensures forall o :: o in filteredOffers <==> o in offersRaw && Admitted(o, interest, liveValue, highlightValue)
  {
    filteredOffers := Filter(offersRaw, (o: Offer) => o.gameId in interest);
    if liveValue >= 1.0 {
      filteredOffers := Filter(filteredOffers, (o: Offer) => o.live == 1);
    }
    if highlightValue >= 1.0 {
      filteredOffers := Filter(filteredOffers, (o: Offer) => o.highlights == 1);
    }
  }

  /** The price tables of the relevant packages, surcharges included. */
  method PriceTables(packagesRaw: seq<PackageRow>, filteredPackages: seq<PackageRow>, filteredOffers: seq<Offer>,
                     admitted: seq<Offer>, liveValue: real, highlightValue: real,
                     liveSurcharge: nat, highlightSurcharge: nat)
    returns (cMonth: Dict<PackageId, int>, cYear: Dict<PackageId, int>)
    requires forall row :: row in filteredPackages ==> row in packagesRaw
    requires forall o :: o in filteredOffers <==> o in admitted
    ensures cMonth.Wf() && cYear.Wf()
    ensures forall p :: p in cMonth.entries <==>
      exists row :: row in filteredPackages && row.id == p && row.monthlyPriceCents.Some?
    ensures forall p :: p in cYear.entries <==>
      exists row :: row in filteredPackages && row.id == p && row.monthlyPriceYearlySubscriptionInCents.Some?
    ensures MonthlyPricedFrom(cMonth, packagesRaw, admitted, liveValue, highlightValue, liveSurcharge, highlightSurcharge)
    ensures YearlyPricedFrom(cYear, packagesRaw, admitted, liveValue, highlightValue, liveSurcharge, highlightSurcharge)
  {
    var baseMonth := MonthlyPrices(filteredPackages);
    var baseYear := YearlyPrices(filteredPackages);
    cMonth, cYear := ApplySurcharges(baseMonth, baseYear, filteredOffers,
                                     liveValue, highlightValue, liveSurcharge, highlightSurcharge);
    SameKeys(baseMonth, cMonth);
    SameKeys(baseYear, cYear);
    MonthlyFromRows(packagesRaw, filteredPackages, baseMonth, cMonth, filteredOffers, admitted,
                    liveValue, highlightValue, liveSurcharge, highlightSurcharge);
    YearlyFromRows(packagesRaw, filteredPackages, baseYear, cYear, filteredOffers, admitted,
                   liveValue, highlightValue, liveSurcharge, highlightSurcharge);
  }

  /** `preprocess_data`. */
  method PreprocessData(interest: seq<GameId>, offersRaw: seq<Offer>, packagesRaw: seq<PackageRow>, gamesDf: seq<GameRow>,
                        liveValue: real, highlightValue: real, liveSurcharge: nat, highlightSurcharge: nat)
    returns (r: Prepared)
    // the relevant packages
    ensures Distinct(r.packages)
    ensures forall p :: p in r.packages <==>
      (exists row :: row in packagesRaw && row.id == p)
      && exists o :: o in offersRaw && o.gameId in interest && o.streamingPackageId == p
    // the price tables: a missing price never becomes an entry
    ensures r.cMonth.Wf() && r.cYear.Wf()
    ensures forall p :: p in r.cMonth.entries <==>
      p in r.packages && exists row :: row in packagesRaw && row.id == p && row.monthlyPriceCents.Some?
    ensures forall p :: p in r.cYear.entries <==>
      p in r.packages && exists row :: row in packagesRaw && row.id == p && row.monthlyPriceYearlySubscriptionInCents.Some?
    ensures MonthlyPricedFrom(r.cMonth, packagesRaw, AdmittedOffers(offersRaw, interest, liveValue, highlightValue),
                              liveValue, highlightValue, liveSurcharge, highlightSurcharge)
    ensures YearlyPricedFrom(r.cYear, packagesRaw, AdmittedOffers(offersRaw, interest, liveValue, highlightValue),
                             liveValue, highlightValue, liveSurcharge, highlightSurcharge)
    // the start dates
    ensures r.gameDates.Wf()
    ensures forall g :: g in r.gameDates.entries <==> g in interest && exists row :: row in gamesDf && row.id == g
    ensures forall g :: g in r.gameDates.entries ==>
      exists row :: row in gamesDf && row.id == g && row.startsAt == r.gameDates.entries[g]
    // the packages able to stream each game
    ensures forall g :: g in r.pg ==> g in interest && r.pg[g] != []
    ensures forall g :: g in r.pg <==> exists o :: o in offersRaw && Admitted(o, interest, liveValue, highlightValue) && o.gameId == g
    ensures forall g, p :: g in r.pg ==>
      (p in r.pg[g] <==>
       exists o :: o in offersRaw && Admitted(o, interest, liveValue, highlightValue) && o.gameId == g && o.streamingPackageId == p)
    // mandatory live and highlight coverage
    ensures liveValue >= 1.0 ==> forall g, p :: g in r.pg && p in r.pg[g] ==>
      exists o :: o in offersRaw && o.gameId == g && o.streamingPackageId == p && o.live == 1
    ensures highlightValue >= 1.0 ==> forall g, p :: g in r.pg && p in r.pg[g] ==>
      exists o :: o in offersRaw && o.gameId == g && o.streamingPackageId == p && o.highlights == 1
    // the split of the games of interest
    ensures forall g :: g in r.games <==> g in interest && g in r.pg
    ensures forall g :: g in r.gamesWithNoOffers <==> g in interest && g !in r.pg
    ensures multiset(r.games) + multiset(r.gamesWithNoOffers) == multiset(interest)
    ensures IsSubsequence(r.games, interest) && IsSubsequence(r.gamesWithNoOffers, interest)
  {
    // Step 1: the packages named by an offer for a game of interest
    var relevant := RelevantPackageIds(interest, offersRaw);
    var filteredPackages := Filter(packagesRaw, (row: PackageRow) => row.id in relevant);

    // Step 2: the offers for the games of interest, then the mandatory filters
    var filteredOffers := FilterOffers(offersRaw, interest, liveValue, highlightValue);

    // Step 3: the solver's tables
    var packages := PackageIds(filteredPackages);
    var gameDates := GameDates(gamesDf, interest);
    var cMonth, cYear := PriceTables(packagesRaw, filteredPackages, filteredOffers,
                                     AdmittedOffers(offersRaw, interest, liveValue, highlightValue),
                                     liveValue, highlightValue, liveSurcharge, highlightSurcharge);
    var pg := GroupByGame(filteredOffers);

    // Step 4: split the games of interest by whether they have an offer
    var gamesWithNoOffers := Filter(interest, (g: GameId) => g !in pg);
    var games := Filter(interest, (g: GameId) => g in pg);
    FilterPartition(interest, (g: GameId) => g in pg, (g: GameId) => g !in pg);
    FilterIsSubsequence(interest, (g: GameId) => g in pg);
    FilterIsSubsequence(interest, (g: GameId) => g !in pg);

    r := Prepared(packages, games, gameDates, cMonth, cYear, pg, gamesWithNoOffers);
  }
}
