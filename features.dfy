/** The feature transforms of the notebook: each turns the series held in one
    column of the fund table into a fixed-width block of derived columns, one
    entry per fund. A fund whose series is missing keeps zeros in every derived
    column; an exception on any fund aborts the whole transform. */
module Features {
  import opened Wrappers
  import opened Text
  import opened Series
  import opened Buckets

  /** The parts of `scipy.stats.describe` outside exact arithmetic: the square
      root of the sample variance, the skewness and the kurtosis of a list. */
  datatype Moments = Moments(stdDev: real, skewness: real, kurtosis: real)

  /** A dividend or equity-value series: `series[0]` holds the dates as day
      numbers, `series[1]` the values. */
  datatype DatedSeries = DatedSeries(dates: seq<int>, values: seq<real>)

  /** A price series: timestamps and prices. */
  datatype PriceSeries = PriceSeries(stamps: seq<Stamp>, prices: seq<real>)

  /** A vacancy series: `series['date']` and `series['Vacância Física']`, in
      percent; `None` where the dictionary lacks the key (the scraper stores
      `{}` when it finds no chart). */
  datatype VacancySeries = VacancySeries(dates: Option<seq<int>>, physicalVacancy: Option<seq<real>>)

  /** `series['Location'][0]` and `series['Location'][1]`: the state codes of a
      fund's assets and their areas. */
  datatype Locations = Locations(regions: seq<string>, areas: seq<real>)

  /** `series['Location']` of an asset series: the key may be missing (the
      scraper stores `{}` when it finds no assets), its list may hold fewer
      than the two lists read, or it gives the codes and their areas. */
  datatype LocationField = MissingKey | TooShort | Listed(loc: Locations)

  // ---------------------------------------------------------------------------
  // Per-fund rows
  // ---------------------------------------------------------------------------

  /** `sorted(zip(dates, values), reverse=True)`. */
  function SortedSeries(dates: seq<int>, values: seq<real>): (pts: seq<Point>)
    ensures SortedBy(pts, PointGe) && multiset(pts) == multiset(Zip(dates, values))
    ensures pts == [] <==> dates == [] || values == []
  {
    var pts := SortPoints(Zip(dates, values));
    assert |multiset(pts)| == |multiset(Zip(dates, values))|;
    pts
  }

  /** The mean, minimum, maximum, relative standard deviation (0 for a zero
      mean), skewness and kurtosis columns of a non-empty list. */
  function Statistics(vs: seq<real>, moments: seq<real> -> Moments): (r: seq<real>)
    requires vs != []
    ensures |r| == 6
    ensures r[1] in vs && r[2] in vs && forall i :: 0 <= i < |vs| ==> r[1] <= vs[i] <= r[2]
    ensures r[1] <= r[0] <= r[2]
    ensures r[0] == Mean(vs)
    ensures r[0] == 0.0 ==> r[3] == 0.0
    ensures r[0] != 0.0 ==> r[3] * r[0] == moments(vs).stdDev
    ensures r[4] == moments(vs).skewness && r[5] == moments(vs).kurtosis
  {
    var mean := Mean(vs);
    MeanBetweenMinAndMax(vs);
    var indicators := moments(vs);
    [mean, Min(vs), Max(vs), if mean == 0.0 then 0.0 else indicators.stdDev / mean,
     indicators.skewness, indicators.kurtosis]
  }

  /** `ratio` is the newest value over the oldest, or 1 when the oldest is 0. */
  predicate IsVariation(ratio: real, newest: real, oldest: real) {
    (oldest == 0.0 ==> ratio == 1.0) && (oldest != 0.0 ==> ratio * oldest == newest)
  }

  /** The total-variation column of a list sorted newest first. */
  function TotalVariation(vs: seq<real>): (r: real)
    requires vs != []
    ensures IsVariation(r, vs[0], vs[|vs| - 1])
  {
    var oldest := vs[|vs| - 1];
    if oldest == 0.0 then 1.0 else vs[0] / oldest
  }

  /** The columns after the slots: the sum of the first three slots (the last
      quarter) and the statistics. */
  function DividendTail(slots: seq<real>, values: seq<real>, moments: seq<real> -> Moments): (tail: seq<real>)
    requires |slots| == 12 && values != []
    ensures |tail| == 7 && tail[0] == slots[0] + slots[1] + slots[2]
    ensures tail[1..] == Statistics(values, moments)
  {
    [slots[0] + slots[1] + slots[2]] + Statistics(values, moments)
  }

  /** The 19 dividend columns of a sorted, non-empty series: twelve 30-day
      slots, the sum of the last three, then the statistics. */
  function DividendColumns(pts: seq<Point>, moments: seq<real> -> Moments): (row: seq<real>)
    requires pts != []
    ensures |row| == 19 && row[12] == row[0] + row[1] + row[2]
    ensures row[..12] == MonthSlots(pts) && row[13..] == Statistics(Values(pts), moments)
  {
    var slots := MonthSlots(pts);
    slots + DividendTail(slots, Values(pts), moments)
  }

  /** The dividend columns of one fund; unpacking an empty `zip` raises ValueError. */
  function DividendRow(s: Option<DatedSeries>, moments: seq<real> -> Moments): (r: Result<seq<real>>)
    ensures r.Success? ==> |r.value| == 19 && r.value[12] == r.value[0] + r.value[1] + r.value[2]
    ensures s.None? ==> r == Success(Zeros(19))
    ensures r.Failure? <==> s.Some? && (s.value.dates == [] || s.value.values == [])
    ensures r.Failure? ==> r.exception == ValueError
  {
    match s
    case None => Success(Zeros(19))
    case Some(d) =>
      var pts := SortedSeries(d.dates, d.values);
      if pts == [] then Failure(ValueError) else Success(DividendColumns(pts, moments))
  }

  /** The 19 equity-value columns of a sorted, non-empty series: twelve 30-day
      slots, the statistics and the total variation. */
  function EquityColumns(pts: seq<Point>, moments: seq<real> -> Moments): (row: seq<real>)
    requires pts != []
    ensures |row| == 19
    ensures IsVariation(row[18], pts[0].value, pts[|pts| - 1].value)
    ensures row[..12] == MonthSlots(pts) && row[12..18] == Statistics(Values(pts), moments)
  {
    var values := Values(pts);
    MonthSlots(pts) + (Statistics(values, moments) + [TotalVariation(values)])
  }

  /** The equity-value columns of one fund. */
  function EquityRow(s: Option<DatedSeries>, moments: seq<real> -> Moments): (r: Result<seq<real>>)
    ensures r.Success? ==> |r.value| == 19
    ensures s.None? ==> r == Success(Zeros(19))
    ensures r.Failure? <==> s.Some? && (s.value.dates == [] || s.value.values == [])
    ensures r.Failure? ==> r.exception == ValueError
  {
    match s
    case None => Success(Zeros(19))
    case Some(d) =>
      var pts := SortedSeries(d.dates, d.values);
      if pts == [] then Failure(ValueError) else Success(EquityColumns(pts, moments))
  }

  /** The vacancies as fractions: each percentage divided by 100. */
  function Fractions(percentages: seq<real>): (fs: seq<real>)
    ensures |fs| == |percentages| && forall i :: 0 <= i < |fs| ==> fs[i] * 100.0 == percentages[i]
  {
    seq(|percentages|, i requires 0 <= i < |percentages| => percentages[i] / 100.0)
  }

  /** The 18 vacancy columns of a sorted, non-empty series: twelve 30-day
      slots and the statistics. */
  function VacancyColumns(pts: seq<Point>, moments: seq<real> -> Moments): (row: seq<real>)
    requires pts != []
    ensures |row| == 18
    ensures row[..12] == MonthSlots(pts) && row[12..] == Statistics(Values(pts), moments)
  {
    MonthSlots(pts) + Statistics(Values(pts), moments)
  }

  /** The vacancy columns of one fund, over the physical vacancy as a fraction. */
  function VacancyRow(s: Option<VacancySeries>, moments: seq<real> -> Moments): (r: Result<seq<real>>)
    ensures r.Success? ==> |r.value| == 18
    ensures s.None? ==> r == Success(Zeros(18))
    ensures s.Some? && (s.value.dates.None? || s.value.physicalVacancy.None?) ==> r == Failure(KeyError)
    ensures s.Some? && s.value.dates.Some? && s.value.physicalVacancy.Some? ==>
      (r.Failure? <==> s.value.dates.value == [] || s.value.physicalVacancy.value == [])
    ensures s.Some? && s.value.dates.Some? && s.value.physicalVacancy.Some? && r.Failure? ==> r.exception == ValueError
  {
    match s
    case None => Success(Zeros(18))
    case Some(v) =>
      if v.dates.None? || v.physicalVacancy.None? then Failure(KeyError)
      else
        var pts := SortedSeries(v.dates.value, Fractions(v.physicalVacancy.value));
        if pts == [] then Failure(ValueError) else Success(VacancyColumns(pts, moments))
  }

  /** `sorted(zip(stamps, prices), reverse=True)`. */
  function SortedPrices(p: PriceSeries): (pts: seq<PricePoint>)
    ensures SortedBy(pts, PricePointGe) && multiset(pts) == multiset(ZipPrices(p.stamps, p.prices))
    ensures pts == [] <==> p.stamps == [] || p.prices == []
  {
    var pts := SortPricePoints(ZipPrices(p.stamps, p.prices));
    assert |multiset(pts)| == |multiset(ZipPrices(p.stamps, p.prices))|;
    pts
  }

  /** The twelve price slots, failing if the reference month of any of them
      cannot be formed. */
  function PriceSlots(dates: seq<Stamp>, prices: seq<real>): (r: Result<seq<real>>)
    requires dates != [] && |prices| == |dates|
    ensures r.Success? ==> |r.value| == 12 && forall k :: 0 <= k < 12 ==> PriceSlot(dates, prices, k) == Success(r.value[k])
    ensures r.Failure? <==> exists k :: 0 <= k < 12 && PriceSlot(dates, prices, k).Failure?
    ensures r.Failure? ==> r.exception == ValueError
  {
    if exists k :: 0 <= k < 12 && FilterDateRef(dates[0], k).Failure? then
      assert exists k :: 0 <= k < 12 && PriceSlot(dates, prices, k).Failure? by {
        var k :| 0 <= k < 12 && FilterDateRef(dates[0], k).Failure?;
        assert PriceSlot(dates, prices, k).Failure?;
      }
      Failure(ValueError)
    else Success(seq(12, k requires 0 <= k < 12 => MonthMean(dates, prices, FilterDateRef(dates[0], k).value)))
  }

  /** The 19 price columns: twelve calendar-month means, the statistics and
      the total variation. */
  function PriceColumns(slots: seq<real>, prices: seq<real>, moments: seq<real> -> Moments): (row: seq<real>)
    requires |slots| == 12 && prices != []
    ensures |row| == 19
    ensures IsVariation(row[18], prices[0], prices[|prices| - 1])
    ensures row[..12] == slots && row[12..18] == Statistics(prices, moments)
  {
    slots + (Statistics(prices, moments) + [TotalVariation(prices)])
  }

  /** The price columns of one fund. */
  function PriceRow(s: Option<PriceSeries>, moments: seq<real> -> Moments): (r: Result<seq<real>>)
    ensures r.Success? ==> |r.value| == 19
    ensures s.None? ==> r == Success(Zeros(19))
    ensures s.Some? ==> var pts := SortedPrices(s.value);
              r.Failure? <==> pts == [] || PriceSlots(Stamps(pts), Prices(pts)).Failure?
    ensures r.Failure? ==> r.exception == ValueError
  {
    match s
    case None => Success(Zeros(19))
    case Some(p) =>
      var pts := SortedPrices(p);
      if pts == [] then Failure(ValueError)
      else
        var prices := Prices(pts);
        match PriceSlots(Stamps(pts), prices)
        case Failure(e) => Failure(e)
        case Success(slots) => Success(PriceColumns(slots, prices, moments))
  }

  /** The 27 state codes, in the order of the asset columns. */
  const Ufs: seq<string> := ["AC", "AL", "AP", "AM", "BA", "CE", "DF", "ES", "GO", "MA", "MT", "MS", "MG",
                             "PA", "PB", "PR", "PE", "PI", "RJ", "RN", "RS", "RO", "RR", "SC", "SP", "SE", "TO"]

  /** The area recorded for one state code: the area at the first occurrence of
      the code, 0 when the code is absent, and IndexError when the area list is
      too short. */
  function AssetArea(loc: Locations, uf: string): (r: Result<real>)
    ensures uf !in loc.regions ==> r == Success(0.0)
    ensures uf in loc.regions ==> (r.Success? <==> IndexOf(loc.regions, uf) < |loc.areas|)
    ensures uf in loc.regions && r.Success? ==> r.value == loc.areas[IndexOf(loc.regions, uf)]
    ensures r.Failure? ==> r.exception == IndexError
  {
    if uf in loc.regions then
      var index := IndexOf(loc.regions, uf);
      if index < |loc.areas| then Success(loc.areas[index]) else Failure(IndexError)
    else Success(0.0)
  }

  /** The areas for the codes `ufs`, failing if any of them does. */
  function AreasOf(loc: Locations, ufs: seq<string>): (r: Result<seq<real>>)
    ensures r.Success? ==> |r.value| == |ufs| && forall k :: 0 <= k < |ufs| ==> AssetArea(loc, ufs[k]) == Success(r.value[k])
    ensures r.Failure? <==> exists k :: 0 <= k < |ufs| && AssetArea(loc, ufs[k]).Failure?
    ensures r.Failure? ==> r.exception == IndexError
  {
    if ufs == [] then Success([])
    else match AssetArea(loc, ufs[0])
      case Failure(e) => Failure(e)
      case Success(a) =>
        match AreasOf(loc, ufs[1..])
        case Failure(e) => Failure(e)
        case Success(rest) =>
          assert forall k :: 1 <= k < |ufs| ==> ufs[k] == ufs[1..][k - 1];
          Success([a] + rest)
  }

  /** The 27-entry area vector of one fund: both lists of its locations are
      read before any code is looked up. */
  function AssetsRow(s: Option<LocationField>): (r: Result<seq<real>>)
    ensures r.Success? ==> |r.value| == 27
    ensures s.None? ==> r == Success(Zeros(27))
    ensures s == Some(MissingKey) ==> r == Failure(KeyError)
    ensures s == Some(TooShort) ==> r == Failure(IndexError)
    ensures s.Some? && s.value.Listed? ==> r == AreasOf(s.value.loc, Ufs)
  {
    match s
    case None => Success(Zeros(27))
    case Some(MissingKey) => Failure(KeyError)
    case Some(TooShort) => Failure(IndexError)
    case Some(Listed(loc)) => AreasOf(loc, Ufs)
  }

  // ---------------------------------------------------------------------------
  // Properties of the rows
  // ---------------------------------------------------------------------------

  /** The first twelve dividend columns follow the 30-day rule over the sorted series. */
  lemma DividendSlotsFollowRule(d: DatedSeries, moments: seq<real> -> Moments)
    requires d.dates != [] && d.values != []
    ensures ThirtyDayRule(DividendRow(Some(d), moments).value, SortedSeries(d.dates, d.values))
  {
    var pts := SortedSeries(d.dates, d.values);
    DividendRowIs(d, moments);
    MonthSlotsFollowRule(pts);
    assert forall k :: 0 <= k < 12 ==> DividendColumns(pts, moments)[k] == MonthSlots(pts)[k];
    ThirtyDayRuleOfPrefix(MonthSlots(pts), DividendColumns(pts, moments), pts);
  }

  lemma EquitySlotsFollowRule(d: DatedSeries, moments: seq<real> -> Moments)
    requires d.dates != [] && d.values != []
    ensures ThirtyDayRule(EquityRow(Some(d), moments).value, SortedSeries(d.dates, d.values))
  {
    var pts := SortedSeries(d.dates, d.values);
    EquityRowIs(d, moments);
    MonthSlotsFollowRule(pts);
    assert forall k :: 0 <= k < 12 ==> EquityColumns(pts, moments)[k] == MonthSlots(pts)[k];
    ThirtyDayRuleOfPrefix(MonthSlots(pts), EquityColumns(pts, moments), pts);
  }

  lemma VacancySlotsFollowRule(dates: seq<int>, percentages: seq<real>, moments: seq<real> -> Moments)
    requires dates != [] && percentages != []
    ensures ThirtyDayRule(VacancyRow(Some(VacancySeries(Some(dates), Some(percentages))), moments).value,
                          SortedSeries(dates, Fractions(percentages)))
  {
    var v := VacancySeries(Some(dates), Some(percentages));
    var pts := SortedSeries(dates, Fractions(percentages));
    VacancyRowIs(dates, percentages, moments);
    MonthSlotsFollowRule(pts);
    assert forall k :: 0 <= k < 12 ==> VacancyColumns(pts, moments)[k] == MonthSlots(pts)[k];
    ThirtyDayRuleOfPrefix(MonthSlots(pts), VacancyColumns(pts, moments), pts);
  }

  /** Besides an empty series, a price row fails exactly when its newest price
      is dated before December of year 1: a reference month then falls in year 0. */
  lemma PriceRowFails(p: PriceSeries, moments: seq<real> -> Moments)
    requires p.stamps != [] && p.prices != []
    ensures var newest := SortedPrices(p)[0].at;
            PriceRow(Some(p), moments).Failure? <==> newest.year == 1 && newest.month <= 11
  {
    var pts := SortedPrices(p);
    var dates := Stamps(pts);
    var newest := pts[0].at;
    assert dates[0] == newest;
    if newest.year == 1 && newest.month <= 11 {
      assert FilterDateRef(newest, 11).Failure?;
      assert PriceSlot(dates, Prices(pts), 11).Failure?;
    } else {
      forall k | 0 <= k < 12 ensures PriceSlot(dates, Prices(pts), k).Success? {
        assert FilterDateRef(newest, k).Success?;
      }
    }
  }

  /** The total-variation column of the equity and price rows compares the
      newest and the oldest value of the sorted series. */
  lemma EquityTotalVariation(d: DatedSeries, moments: seq<real> -> Moments)
    requires d.dates != [] && d.values != []
    ensures var pts := SortedSeries(d.dates, d.values);
            IsVariation(EquityRow(Some(d), moments).value[18], pts[0].value, pts[|pts| - 1].value)
  {
    EquityRowIs(d, moments);
  }

  lemma DividendRowIs(d: DatedSeries, moments: seq<real> -> Moments)
    requires d.dates != [] && d.values != []
    ensures DividendRow(Some(d), moments) == Success(DividendColumns(SortedSeries(d.dates, d.values), moments))
  {
  }

  lemma VacancyRowIs(dates: seq<int>, percentages: seq<real>, moments: seq<real> -> Moments)
    requires dates != [] && percentages != []
    ensures VacancyRow(Some(VacancySeries(Some(dates), Some(percentages))), moments)
         == Success(VacancyColumns(SortedSeries(dates, Fractions(percentages)), moments))
  {
  }

  lemma EquityRowIs(d: DatedSeries, moments: seq<real> -> Moments)
    requires d.dates != [] && d.values != []
    ensures EquityRow(Some(d), moments) == Success(EquityColumns(SortedSeries(d.dates, d.values), moments))
  {
  }

  lemma PriceTotalVariation(p: PriceSeries, moments: seq<real> -> Moments)
    requires PriceRow(Some(p), moments).Success?
    ensures var pts := SortedPrices(p);
            IsVariation(PriceRow(Some(p), moments).value[18], pts[0].price, pts[|pts| - 1].price)
  {
    PriceRowIs(p, moments);
  }

  /** Price slot `k` of a series whose dates are distinct is the mean of the
      prices dated in the reference month `FilterDateRef` gives for `k`, and 0
      when there are none. */
  lemma PriceSlotsAreMonthMeans(p: PriceSeries, moments: seq<real> -> Moments, k: int)
    requires PriceRow(Some(p), moments).Success? && 0 <= k < 12
    requires Distinct(Stamps(SortedPrices(p)))
    ensures var pts := SortedPrices(p);
            var ps := PricesInMonth(Stamps(pts), Prices(pts), FilterDateRef(pts[0].at, k).value, 0);
            PriceRow(Some(p), moments).value[k] == if ps == [] then 0.0 else Mean(ps)
  {
    var pts := SortedPrices(p);
    var dates, prices := Stamps(pts), Prices(pts);
    SortedStampsNewestFirst(pts);
    PriceRowIs(p, moments);
    var slots := PriceSlots(dates, prices).value;
    assert PriceColumns(slots, prices, moments)[k] == slots[k];
    PriceSlotIsMonthMean(dates, prices, k);
  }

  lemma SortedStampsNewestFirst(pts: seq<PricePoint>)
    requires SortedBy(pts, PricePointGe)
    ensures NewestFirst(Stamps(pts))
  {
    var dates := Stamps(pts);
    forall i, j | 0 <= i < j < |dates| ensures StampGt(dates[i], dates[j]) || dates[i] == dates[j] {
      assert PricePointGe(pts[i], pts[j]);
    }
  }

  /** An asset row places the area of each known state code at its position. */
  lemma AssetsRowAreas(loc: Locations, k: int)
    requires AssetsRow(Some(Listed(loc))).Success? && 0 <= k < 27
    ensures Ufs[k] !in loc.regions ==> AssetsRow(Some(Listed(loc))).value[k] == 0.0
    ensures Ufs[k] in loc.regions ==> AssetsRow(Some(Listed(loc))).value[k] == loc.areas[IndexOf(loc.regions, Ufs[k])]
  {
    assert AssetArea(loc, Ufs[k]) == Success(AssetsRow(Some(Listed(loc))).value[k]);
  }

  /** A region outside the 27 codes, with its area, leaves the row unchanged. */
  lemma UnknownRegionIgnored(loc: Locations, region: string, area: real)
    requires region !in Ufs && |loc.regions| <= |loc.areas|
    ensures AssetsRow(Some(Listed(Locations(loc.regions + [region], loc.areas + [area])))) == AssetsRow(Some(Listed(loc)))
  {
    var wider := Locations(loc.regions + [region], loc.areas + [area]);
    forall k | 0 <= k < 27 ensures AssetArea(wider, Ufs[k]) == AssetArea(loc, Ufs[k]) {
      var uf := Ufs[k];
      assert uf != region;
      assert uf in wider.regions <==> uf in loc.regions;
      if uf in loc.regions {
        IndexOfPrefix(loc.regions, [region], uf);
      }
    }
    AreasAgree(wider, loc, Ufs);
  }

  lemma IndexOfPrefix(s: seq<string>, t: seq<string>, x: string)
    requires x in s
    ensures x in s + t && IndexOf(s + t, x) == IndexOf(s, x)
  {
    var i := IndexOf(s, x);
    assert (s + t)[i] == x;
    var j := IndexOf(s + t, x);
    assert j <= i;
    assert s[j] == (s + t)[j];
  }

  lemma {:induction false} AreasAgree(a: Locations, b: Locations, ufs: seq<string>)
    requires forall k :: 0 <= k < |ufs| ==> AssetArea(a, ufs[k]) == AssetArea(b, ufs[k])
    ensures AreasOf(a, ufs) == AreasOf(b, ufs)
  {
    if ufs != [] {
      assert forall k :: 1 <= k < |ufs| ==> ufs[k] == ufs[1..][k - 1];
      AreasAgree(a, b, ufs[1..]);
    }
  }

  /** The 27 codes are distinct, so each code owns exactly one column. */
  lemma UfsDistinct()
    ensures |Ufs| == 27 && Distinct(Ufs)
  {
  }

  /** When every region has an area, the asset row cannot fail. */
  lemma AssetsRowSucceeds(loc: Locations)
    requires |loc.regions| <= |loc.areas|
    ensures AssetsRow(Some(Listed(loc))).Success?
  {
    forall k | 0 <= k < 27 ensures AssetArea(loc, Ufs[k]).Success? {
    }
  }

  // ---------------------------------------------------------------------------
  // Column names
  // ---------------------------------------------------------------------------

  function MonthColumnNames(prefix: string): (names: seq<string>)
    ensures |names| == 12 && forall k :: 0 <= k < 12 ==> names[k] == prefix + NatText(k)
  {
    seq(12, k requires 0 <= k < 12 => prefix + NatText(k))
  }

  /** The names of the six statistics columns of a block, each led by the
      block's prefix. */
  function StatisticNames(prefix: string): (names: seq<string>)
    ensures |names| == 6 && forall k :: 0 <= k < 6 ==> StartsWith(names[k], prefix + " ")
  {
    [prefix + " M\U{E9}dia", prefix + " Min", prefix + " Max", prefix + " Desv. Pad. Rel.",
     prefix + " Assimetria", prefix + " Curtose"]
  }

  /** The names of a block of monthly slots, statistics and total variation. */
  function TrendColumnNames(monthPrefix: string, prefix: string, last: string): (names: seq<string>)
    ensures |names| == 19 && names[..12] == MonthColumnNames(monthPrefix)
    ensures names[12..18] == StatisticNames(prefix) && names[18] == last
  {
    MonthColumnNames(monthPrefix) + StatisticNames(prefix) + [last]
  }

  /** The names of the dividend columns, one per entry of a dividend row. */
  function DividendColumnNames(): (names: seq<string>)
    ensures |names| == 19 && names[..12] == MonthColumnNames("Div. M-")
    ensures names[12] == "Div. Acum. \U{DA}lt. Trimestre" && names[13..] == StatisticNames("Div.")
  {
    MonthColumnNames("Div. M-") + ["Div. Acum. \U{DA}lt. Trimestre"] + StatisticNames("Div.")
  }

  /** The names of the price columns, one per entry of a price row. */
  function PriceColumnNames(): (names: seq<string>)
    ensures |names| == 19 && names[..12] == MonthColumnNames("Pre\U{E7}os M\U{E9}dia M-")
    ensures names[12..18] == StatisticNames("Pre\U{E7}os") && names[18] == "Pre\U{E7}os Varia\U{E7}\U{E3}o Total"
  {
    TrendColumnNames("Pre\U{E7}os M\U{E9}dia M-", "Pre\U{E7}os", "Pre\U{E7}os Varia\U{E7}\U{E3}o Total")
  }

  /** The names of the equity-value columns; the last one is spelled "Va. Patr." as in the code. */
  function EquityColumnNames(): (names: seq<string>)
    ensures |names| == 19 && names[..12] == MonthColumnNames("Val. Patr. M-")
    ensures names[12..18] == StatisticNames("Val. Patr.") && names[18] == "Va. Patr. Varia\U{E7}\U{E3}o Total"
  {
    TrendColumnNames("Val. Patr. M-", "Val. Patr.", "Va. Patr. Varia\U{E7}\U{E3}o Total")
  }

  /** The names of the vacancy columns, one per entry of a vacancy row. */
  function VacancyColumnNames(): (names: seq<string>)
    ensures |names| == 18 && names[..12] == MonthColumnNames("Vac\U{E2}ncia M-")
    ensures names[12..] == StatisticNames("Vac\U{E2}ncia")
  {
    MonthColumnNames("Vac\U{E2}ncia M-") + StatisticNames("Vac\U{E2}ncia")
  }

  function AssetColumnNames(): (names: seq<string>)
    ensures |names| == 27 && forall k :: 0 <= k < 27 ==> names[k] == "\U{C1}rea dos Ativos " + Ufs[k]
  {
    seq(27, k requires 0 <= k < 27 => "\U{C1}rea dos Ativos " + Ufs[k])
  }

  // ---------------------------------------------------------------------------
  // The transforms
  // ---------------------------------------------------------------------------

  /** The new columns of a transform, read off the table it filled. */
  function Table(cols: array2<real>): (t: seq<seq<real>>)
    reads cols
    ensures |t| == cols.Length0
    ensures forall c :: 0 <= c < cols.Length0 ==> |t[c]| == cols.Length1 && forall i :: 0 <= i < cols.Length1 ==> t[c][i] == cols[c, i]
  {
    seq(cols.Length0, c requires 0 <= c < cols.Length0 reads cols =>
      seq(cols.Length1, i requires 0 <= i < cols.Length1 reads cols => cols[c, i]))
  }

  /** Writes `tail` into the cells `from` to `from + |tail| - 1` of fund
      `row`; every other cell of that fund and every cell of the other funds
      keeps its value. */
  method WriteTail(cols: array2<real>, row: nat, from: nat, tail: seq<real>)
    requires from + |tail| <= cols.Length0 && row < cols.Length1
    modifies cols
    ensures forall c :: 0 <= c < cols.Length0 ==> cols[c, row] == if from <= c < from + |tail| then tail[c - from] else old(cols[c, row])
    ensures forall c, i :: 0 <= c < cols.Length0 && 0 <= i < cols.Length1 && i != row ==> cols[c, i] == old(cols[c, i])
  {
    forall c | from <= c < from + |tail| {
      cols[c, row] := tail[c - from];
    }
  }

  /** The columns of a fund with a non-empty series, written into a table
      that is still zero there. */
  method WriteDividendColumns(cols: array2<real>, row: nat, pts: seq<Point>, moments: seq<real> -> Moments)
    requires pts != [] && SortedBy(pts, PointGe)
    requires cols.Length0 == 19 && row < cols.Length1
    requires forall c :: 0 <= c < 19 ==> cols[c, row] == 0.0
    modifies cols
    ensures forall c :: 0 <= c < 19 ==> cols[c, row] == DividendColumns(pts, moments)[c]
    ensures forall c, i :: 0 <= c < 19 && 0 <= i < cols.Length1 && i != row ==> cols[c, i] == old(cols[c, i])
  {
    FillMonthSlots(cols, row, pts);
    var slots := seq(12, k requires 0 <= k < 12 reads cols => cols[k, row]);
    assert slots == MonthSlots(pts);
    var tail := DividendTail(slots, Values(pts), moments);
    WriteTail(cols, row, 12, tail);
  }

  /** One pass of the loop of `ProcessDividends.transform`: the dividend columns of
      fund `row`, written into a table that is still zero there; `failed` when
      the fund's row raises. `rows` are the rows the loop is to produce. */
  method WriteDividendRow(cols: array2<real>, row: nat, column: seq<Option<DatedSeries>>, moments: seq<real> -> Moments,
                       ghost rows: seq<Result<seq<real>>>)
    returns (failed: bool)
    requires row < |column| == |rows| && DividendRows(rows, column, moments)
    requires cols.Length0 == 19 && row < cols.Length1
    requires forall c :: 0 <= c < 19 ==> cols[c, row] == 0.0
    modifies cols
    ensures failed <==> rows[row].Failure?
    ensures !failed ==> |rows[row].value| == 19 && forall c :: 0 <= c < 19 ==> cols[c, row] == rows[row].value[c]
    ensures forall c, i :: 0 <= c < 19 && 0 <= i < cols.Length1 && i != row ==> cols[c, i] == old(cols[c, i])
  {
    var s := column[row];
    assert rows[row] == DividendRow(s, moments);
    if s.None? {
      return false;
    }
    var pts := SortedSeries(s.value.dates, s.value.values);
    if pts == [] {
      return true;
    }
    WriteDividendColumns(cols, row, pts, moments);
    assert DividendRow(s, moments) == Success(DividendColumns(pts, moments));
    return false;
  }

  /** `rows` lists the dividend row of every fund of `column`. */
  ghost predicate DividendRows(rows: seq<Result<seq<real>>>, column: seq<Option<DatedSeries>>, moments: seq<real> -> Moments)
    requires |rows| == |column|
  {
    forall i {:trigger DividendRow(column[i], moments)} :: 0 <= i < |column| ==> rows[i] == DividendRow(column[i], moments)
  }


  /** The loop of `ProcessDividends.transform` over the funds: `failedAt` is the
      first fund whose row raises, or the number of funds when none does. */
  method FillDividendRows(cols: array2<real>, column: seq<Option<DatedSeries>>, moments: seq<real> -> Moments,
                       ghost rows: seq<Result<seq<real>>>)
    returns (failedAt: nat)
    requires |rows| == |column| && DividendRows(rows, column, moments)
    requires cols.Length0 == 19 && cols.Length1 == |column|
    requires forall c, i :: 0 <= c < 19 && 0 <= i < |column| ==> cols[c, i] == 0.0
    modifies cols
    ensures failedAt <= |column|
    ensures failedAt < |column| ==> rows[failedAt].Failure?
    ensures forall i :: 0 <= i < failedAt ==> rows[i].Success? && |rows[i].value| == 19
    ensures failedAt == |column| ==> forall c, i :: 0 <= c < 19 && 0 <= i < |column| ==> cols[c, i] == rows[i].value[c]
  {
    var n := |column|;
    var row := 0;
    while row < n
      invariant row <= n
      invariant forall i :: 0 <= i < row ==> rows[i].Success? && |rows[i].value| == 19
      invariant forall c, i :: 0 <= c < 19 && 0 <= i < row ==> cols[c, i] == rows[i].value[c]
      invariant forall c, i :: 0 <= c < 19 && row <= i < n ==> cols[c, i] == 0.0
    {
      var failed := WriteDividendRow(cols, row, column, moments, rows);
      if failed {
        return row;
      }
      row := row + 1;
    }
    return n;
  }


  /** `ProcessDividends.transform`: the 19 dividend columns, each
      holding one entry per fund, every entry computed from its own fund's
      series alone. */
  method ProcessDividends(column: seq<Option<DatedSeries>>, moments: seq<real> -> Moments) returns (r: Result<seq<seq<real>>>)
    ensures r.Failure? <==> exists i :: 0 <= i < |column| && DividendRow(column[i], moments).Failure?
    ensures r.Failure? ==> r.exception == ValueError
    ensures r.Success? ==> |r.value| == |DividendColumnNames()|
    ensures r.Success? ==> |r.value| == 19 && forall c :: 0 <= c < 19 ==> |r.value[c]| == |column|
    ensures r.Success? ==> forall c, i :: 0 <= c < 19 && 0 <= i < |column| ==> r.value[c][i] == DividendRow(column[i], moments).value[c]
  {
    var cols := new real[19, |column|]((_, _) => 0.0);
    ghost var rows := seq(|column|, i requires 0 <= i < |column| => DividendRow(column[i], moments));
    var failedAt := FillDividendRows(cols, column, moments, rows);
    if failedAt < |column| {
      assert DividendRow(column[failedAt], moments).Failure?;
      return Failure(ValueError);
    }
    r := Success(Table(cols));
  }
  /** The columns of a fund with a non-empty series, written into a table
      that is still zero there. */
  method WriteEquityColumns(cols: array2<real>, row: nat, pts: seq<Point>, moments: seq<real> -> Moments)
    requires pts != [] && SortedBy(pts, PointGe)
    requires cols.Length0 == 19 && row < cols.Length1
    requires forall c :: 0 <= c < 19 ==> cols[c, row] == 0.0
    modifies cols
    ensures forall c :: 0 <= c < 19 ==> cols[c, row] == EquityColumns(pts, moments)[c]
    ensures forall c, i :: 0 <= c < 19 && 0 <= i < cols.Length1 && i != row ==> cols[c, i] == old(cols[c, i])
  {
    FillMonthSlots(cols, row, pts);
    var equity := Values(pts);
    var tail := Statistics(equity, moments) + [TotalVariation(equity)];
    WriteTail(cols, row, 12, tail);
    assert EquityColumns(pts, moments) == MonthSlots(pts) + tail;
  }

  /** One pass of the loop of `ProcessEquity.transform`: the equity-value columns of
      fund `row`, written into a table that is still zero there; `failed` when
      the fund's row raises. `rows` are the rows the loop is to produce. */
  method WriteEquityRow(cols: array2<real>, row: nat, column: seq<Option<DatedSeries>>, moments: seq<real> -> Moments,
                       ghost rows: seq<Result<seq<real>>>)
    returns (failed: bool)
    requires row < |column| == |rows| && EquityRows(rows, column, moments)
    requires cols.Length0 == 19 && row < cols.Length1
    requires forall c :: 0 <= c < 19 ==> cols[c, row] == 0.0
    modifies cols
    ensures failed <==> rows[row].Failure?
    ensures !failed ==> |rows[row].value| == 19 && forall c :: 0 <= c < 19 ==> cols[c, row] == rows[row].value[c]
    ensures forall c, i :: 0 <= c < 19 && 0 <= i < cols.Length1 && i != row ==> cols[c, i] == old(cols[c, i])
  {
    var s := column[row];
    assert rows[row] == EquityRow(s, moments);
    if s.None? {
      return false;
    }
    var pts := SortedSeries(s.value.dates, s.value.values);
    if pts == [] {
      return true;
    }
    WriteEquityColumns(cols, row, pts, moments);
    assert EquityRow(s, moments) == Success(EquityColumns(pts, moments));
    return false;
  }

  /** `rows` lists the equity-value row of every fund of `column`. */
  ghost predicate EquityRows(rows: seq<Result<seq<real>>>, column: seq<Option<DatedSeries>>, moments: seq<real> -> Moments)
    requires |rows| == |column|
  {
    forall i {:trigger EquityRow(column[i], moments)} :: 0 <= i < |column| ==> rows[i] == EquityRow(column[i], moments)
  }


  /** The loop of `ProcessEquity.transform` over the funds: `failedAt` is the
      first fund whose row raises, or the number of funds when none does. */
  method FillEquityRows(cols: array2<real>, column: seq<Option<DatedSeries>>, moments: seq<real> -> Moments,
                       ghost rows: seq<Result<seq<real>>>)
    returns (failedAt: nat)
    requires |rows| == |column| && EquityRows(rows, column, moments)
    requires cols.Length0 == 19 && cols.Length1 == |column|
    requires forall c, i :: 0 <= c < 19 && 0 <= i < |column| ==> cols[c, i] == 0.0
    modifies cols
    ensures failedAt <= |column|
    ensures failedAt < |column| ==> rows[failedAt].Failure?
    ensures forall i :: 0 <= i < failedAt ==> rows[i].Success? && |rows[i].value| == 19
    ensures failedAt == |column| ==> forall c, i :: 0 <= c < 19 && 0 <= i < |column| ==> cols[c, i] == rows[i].value[c]
  {
    var n := |column|;
    var row := 0;
    while row < n
      invariant row <= n
      invariant forall i :: 0 <= i < row ==> rows[i].Success? && |rows[i].value| == 19
      invariant forall c, i :: 0 <= c < 19 && 0 <= i < row ==> cols[c, i] == rows[i].value[c]
      invariant forall c, i :: 0 <= c < 19 && row <= i < n ==> cols[c, i] == 0.0
    {
      var failed := WriteEquityRow(cols, row, column, moments, rows);
      if failed {
        return row;
      }
      row := row + 1;
    }
    return n;
  }


  /** `ProcessEquity.transform`: the 19 equity-value columns, each
      holding one entry per fund, every entry computed from its own fund's
      series alone. */
  method ProcessEquity(column: seq<Option<DatedSeries>>, moments: seq<real> -> Moments) returns (r: Result<seq<seq<real>>>)
    ensures r.Failure? <==> exists i :: 0 <= i < |column| && EquityRow(column[i], moments).Failure?
    ensures r.Failure? ==> r.exception == ValueError
    ensures r.Success? ==> |r.value| == |EquityColumnNames()|
    ensures r.Success? ==> |r.value| == 19 && forall c :: 0 <= c < 19 ==> |r.value[c]| == |column|
    ensures r.Success? ==> forall c, i :: 0 <= c < 19 && 0 <= i < |column| ==> r.value[c][i] == EquityRow(column[i], moments).value[c]
  {
    var cols := new real[19, |column|]((_, _) => 0.0);
    ghost var rows := seq(|column|, i requires 0 <= i < |column| => EquityRow(column[i], moments));
    var failedAt := FillEquityRows(cols, column, moments, rows);
    if failedAt < |column| {
      assert EquityRow(column[failedAt], moments).Failure?;
      return Failure(ValueError);
    }
    r := Success(Table(cols));
  }

  /** The columns of a fund with a non-empty series, written into a table
      that is still zero there. */
  method WriteVacancyColumns(cols: array2<real>, row: nat, pts: seq<Point>, moments: seq<real> -> Moments)
    requires pts != [] && SortedBy(pts, PointGe)
    requires cols.Length0 == 18 && row < cols.Length1
    requires forall c :: 0 <= c < 18 ==> cols[c, row] == 0.0
    modifies cols
    ensures forall c :: 0 <= c < 18 ==> cols[c, row] == VacancyColumns(pts, moments)[c]
    ensures forall c, i :: 0 <= c < 18 && 0 <= i < cols.Length1 && i != row ==> cols[c, i] == old(cols[c, i])
  {
    FillMonthSlots(cols, row, pts);
    var vacancy := Values(pts);
    var tail := Statistics(vacancy, moments);
    WriteTail(cols, row, 12, tail);
    assert VacancyColumns(pts, moments) == MonthSlots(pts) + tail;
  }

  /** One pass of the loop of `ProcessVacancy.transform`: the vacancy columns of
      fund `row`, written into a table that is still zero there; `error` is
      the exception the fund's row raises, if any. `rows` are the rows the
      loop is to produce. */
  method WriteVacancyRow(cols: array2<real>, row: nat, column: seq<Option<VacancySeries>>, moments: seq<real> -> Moments,
                       ghost rows: seq<Result<seq<real>>>)
    returns (error: Option<Exception>)
    requires row < |column| == |rows| && VacancyRows(rows, column, moments)
    requires cols.Length0 == 18 && row < cols.Length1
    requires forall c :: 0 <= c < 18 ==> cols[c, row] == 0.0
    modifies cols
    ensures error.Some? <==> rows[row].Failure?
    ensures error.Some? ==> rows[row] == Failure(error.value)
    ensures error.None? ==> |rows[row].value| == 18 && forall c :: 0 <= c < 18 ==> cols[c, row] == rows[row].value[c]
    ensures forall c, i :: 0 <= c < 18 && 0 <= i < cols.Length1 && i != row ==> cols[c, i] == old(cols[c, i])
  {
    var s := column[row];
    assert rows[row] == VacancyRow(s, moments);
    if s.None? {
      return None;
    }
    if s.value.dates.None? || s.value.physicalVacancy.None? {
      return Some(KeyError);
    }
    var pts := SortedSeries(s.value.dates.value, Fractions(s.value.physicalVacancy.value));
    if pts == [] {
      return Some(ValueError);
    }
    WriteVacancyColumns(cols, row, pts, moments);
    assert VacancyRow(s, moments) == Success(VacancyColumns(pts, moments));
    return None;
  }

  /** `rows` lists the vacancy row of every fund of `column`. */
  ghost predicate VacancyRows(rows: seq<Result<seq<real>>>, column: seq<Option<VacancySeries>>, moments: seq<real> -> Moments)
    requires |rows| == |column|
  {
    forall i {:trigger VacancyRow(column[i], moments)} :: 0 <= i < |column| ==> rows[i] == VacancyRow(column[i], moments)
  }


  /** The loop of `ProcessVacancy.transform` over the funds: `failedAt` is the
      first fund whose row raises, with the exception it raises, or the number
      of funds when none does. */
  method FillVacancyRows(cols: array2<real>, column: seq<Option<VacancySeries>>, moments: seq<real> -> Moments,
                       ghost rows: seq<Result<seq<real>>>)
    returns (failedAt: nat, error: Option<Exception>)
    requires |rows| == |column| && VacancyRows(rows, column, moments)
    requires cols.Length0 == 18 && cols.Length1 == |column|
    requires forall c, i :: 0 <= c < 18 && 0 <= i < |column| ==> cols[c, i] == 0.0
    modifies cols
    ensures failedAt <= |column| && (error.Some? <==> failedAt < |column|)
    ensures error.Some? ==> rows[failedAt] == Failure(error.value)
    ensures forall i :: 0 <= i < failedAt ==> rows[i].Success? && |rows[i].value| == 18
    ensures error.None? ==> forall c, i :: 0 <= c < 18 && 0 <= i < |column| ==> cols[c, i] == rows[i].value[c]
  {
    var n := |column|;
    var row := 0;
    while row < n
      invariant row <= n
      invariant forall i :: 0 <= i < row ==> rows[i].Success? && |rows[i].value| == 18
      invariant forall c, i :: 0 <= c < 18 && 0 <= i < row ==> cols[c, i] == rows[i].value[c]
      invariant forall c, i :: 0 <= c < 18 && row <= i < n ==> cols[c, i] == 0.0
    {
      error := WriteVacancyRow(cols, row, column, moments, rows);
      if error.Some? {
        return row, error;
      }
      row := row + 1;
    }
    return n, None;
  }


  /** `ProcessVacancy.transform`: the 18 vacancy columns, each holding
      one entry per fund, every entry computed from its own fund's series
      alone. */
  method ProcessVacancy(column: seq<Option<VacancySeries>>, moments: seq<real> -> Moments) returns (r: Result<seq<seq<real>>>)
    ensures r.Failure? <==> exists i :: 0 <= i < |column| && VacancyRow(column[i], moments).Failure?
    ensures r.Failure? ==>
      exists i :: 0 <= i < |column| && VacancyRow(column[i], moments) == Failure(r.exception) &&
        (forall j :: 0 <= j < i ==> VacancyRow(column[j], moments).Success?)
    ensures r.Failure? ==> r.exception == KeyError || r.exception == ValueError
    ensures r.Success? ==> |r.value| == |VacancyColumnNames()|
    ensures r.Success? ==> |r.value| == 18 && forall c :: 0 <= c < 18 ==> |r.value[c]| == |column|
    ensures r.Success? ==> forall c, i :: 0 <= c < 18 && 0 <= i < |column| ==> r.value[c][i] == VacancyRow(column[i], moments).value[c]
  {
    var cols := new real[18, |column|]((_, _) => 0.0);
    ghost var rows := seq(|column|, i requires 0 <= i < |column| => VacancyRow(column[i], moments));
    var failedAt, error := FillVacancyRows(cols, column, moments, rows);
    if error.Some? {
      assert VacancyRow(column[failedAt], moments) == Failure(error.value);
      return Failure(error.value);
    }
    r := Success(Table(cols));
  }

  /** The calendar-month loop of `ProcessPrices.transform` for one fund: for
      each `month_n` the reference month, the matching indexes and the mean of
      the slice they span; `failed` when a reference month cannot be formed. */
  method FillPriceSlots(cols: array2<real>, row: nat, dates: seq<Stamp>, prices: seq<real>) returns (failed: bool)
    requires dates != [] && |prices| == |dates|
    requires 12 <= cols.Length0 && row < cols.Length1
    modifies cols
    ensures failed <==> PriceSlots(dates, prices).Failure?
    ensures !failed ==> forall k :: 0 <= k < 12 ==> cols[k, row] == PriceSlots(dates, prices).value[k]
    ensures forall c, i :: 0 <= c < cols.Length0 && 0 <= i < cols.Length1 && (c >= 12 || i != row) ==>
              cols[c, i] == old(cols[c, i])
  {
    for monthN := 0 to 12
      invariant forall k :: 0 <= k < monthN ==> PriceSlot(dates, prices, k) == Success(cols[k, row])
      invariant forall c, i :: 0 <= c < cols.Length0 && 0 <= i < cols.Length1 && (c >= 12 || i != row) ==>
                  cols[c, i] == old(cols[c, i])
    {
      var dateRef := FilterDateRef(dates[0], monthN);
      if dateRef.Failure? {
        assert PriceSlot(dates, prices, monthN).Failure?;
        return true;
      }
      var indexes := MatchIndexes(dates, dateRef.value, 0);
      var monthPrices := if indexes == [] then [0.0] else prices[MinOf(indexes)..MaxOf(indexes) + 1];
      cols[monthN, row] := Mean(monthPrices);
    }
    return false;
  }

  /** The columns of a fund with a non-empty series; `failed` when a
      reference month cannot be formed. */
  method WritePriceColumns(cols: array2<real>, row: nat, dates: seq<Stamp>, prices: seq<real>, moments: seq<real> -> Moments)
    returns (failed: bool)
    requires dates != [] && |prices| == |dates|
    requires cols.Length0 == 19 && row < cols.Length1
    modifies cols
    ensures failed <==> PriceSlots(dates, prices).Failure?
    ensures !failed ==> forall c :: 0 <= c < 19 ==> cols[c, row] == PriceColumns(PriceSlots(dates, prices).value, prices, moments)[c]
    ensures forall c, i :: 0 <= c < 19 && 0 <= i < cols.Length1 && i != row ==> cols[c, i] == old(cols[c, i])
  {
    failed := FillPriceSlots(cols, row, dates, prices);
    if failed {
      return;
    }
    ghost var slots := PriceSlots(dates, prices).value;
    var tail := Statistics(prices, moments) + [TotalVariation(prices)];
    WriteTail(cols, row, 12, tail);
    assert PriceColumns(slots, prices, moments) == slots + tail;
  }

  /** One pass of the loop of `ProcessPrices.transform`: the price columns of
      fund `row`, written into a table that is still zero there; `failed` when
      the fund's row raises. `rows` are the rows the loop is to produce. */
  method WritePriceRow(cols: array2<real>, row: nat, column: seq<Option<PriceSeries>>, moments: seq<real> -> Moments,
                       ghost rows: seq<Result<seq<real>>>)
    returns (failed: bool)
    requires row < |column| == |rows| && PriceRows(rows, column, moments)
    requires cols.Length0 == 19 && row < cols.Length1
    requires forall c :: 0 <= c < 19 ==> cols[c, row] == 0.0
    modifies cols
    ensures failed <==> rows[row].Failure?
    ensures !failed ==> |rows[row].value| == 19 && forall c :: 0 <= c < 19 ==> cols[c, row] == rows[row].value[c]
    ensures forall c, i :: 0 <= c < 19 && 0 <= i < cols.Length1 && i != row ==> cols[c, i] == old(cols[c, i])
  {
    var s := column[row];
    assert rows[row] == PriceRow(s, moments);
    if s.None? {
      return false;
    }
    var pts := SortedPrices(s.value);
    if pts == [] {
      return true;
    }
    failed := WritePriceColumns(cols, row, Stamps(pts), Prices(pts), moments);
    if !failed {
      PriceRowIs(s.value, moments);
    }
  }

  /** `rows` lists the price row of every fund of `column`. */
  ghost predicate PriceRows(rows: seq<Result<seq<real>>>, column: seq<Option<PriceSeries>>, moments: seq<real> -> Moments)
    requires |rows| == |column|
  {
    forall i {:trigger PriceRow(column[i], moments)} :: 0 <= i < |column| ==> rows[i] == PriceRow(column[i], moments)
  }


  lemma PriceRowIs(p: PriceSeries, moments: seq<real> -> Moments)
    requires SortedPrices(p) != []
    requires var pts := SortedPrices(p); PriceSlots(Stamps(pts), Prices(pts)).Success?
    ensures var pts := SortedPrices(p);
            PriceRow(Some(p), moments) == Success(PriceColumns(PriceSlots(Stamps(pts), Prices(pts)).value, Prices(pts), moments))
  {
  }

  /** The loop of `ProcessPrices.transform` over the funds: `failedAt` is the
      first fund whose row raises, or the number of funds when none does. */
  method FillPriceRows(cols: array2<real>, column: seq<Option<PriceSeries>>, moments: seq<real> -> Moments,
                       ghost rows: seq<Result<seq<real>>>)
    returns (failedAt: nat)
    requires |rows| == |column| && PriceRows(rows, column, moments)
    requires cols.Length0 == 19 && cols.Length1 == |column|
    requires forall c, i :: 0 <= c < 19 && 0 <= i < |column| ==> cols[c, i] == 0.0
    modifies cols
    ensures failedAt <= |column|
    ensures failedAt < |column| ==> rows[failedAt].Failure?
    ensures forall i :: 0 <= i < failedAt ==> rows[i].Success? && |rows[i].value| == 19
    ensures failedAt == |column| ==> forall c, i :: 0 <= c < 19 && 0 <= i < |column| ==> cols[c, i] == rows[i].value[c]
  {
    var n := |column|;
    var row := 0;
    while row < n
      invariant row <= n
      invariant forall i :: 0 <= i < row ==> rows[i].Success? && |rows[i].value| == 19
      invariant forall c, i :: 0 <= c < 19 && 0 <= i < row ==> cols[c, i] == rows[i].value[c]
      invariant forall c, i :: 0 <= c < 19 && row <= i < n ==> cols[c, i] == 0.0
    {
      var failed := WritePriceRow(cols, row, column, moments, rows);
      if failed {
        return row;
      }
      row := row + 1;
    }
    return n;
  }


  /** `ProcessPrices.transform`: the 19 price columns, each holding
      one entry per fund, every entry computed from its own fund's series
      alone. */
  method ProcessPrices(column: seq<Option<PriceSeries>>, moments: seq<real> -> Moments) returns (r: Result<seq<seq<real>>>)
    ensures r.Failure? <==> exists i :: 0 <= i < |column| && PriceRow(column[i], moments).Failure?
    ensures r.Failure? ==> r.exception == ValueError
    ensures r.Success? ==> |r.value| == |PriceColumnNames()|
    ensures r.Success? ==> |r.value| == 19 && forall c :: 0 <= c < 19 ==> |r.value[c]| == |column|
    ensures r.Success? ==> forall c, i :: 0 <= c < 19 && 0 <= i < |column| ==> r.value[c][i] == PriceRow(column[i], moments).value[c]
  {
    var cols := new real[19, |column|]((_, _) => 0.0);
    ghost var rows := seq(|column|, i requires 0 <= i < |column| => PriceRow(column[i], moments));
    var failedAt := FillPriceRows(cols, column, moments, rows);
    if failedAt < |column| {
      assert PriceRow(column[failedAt], moments).Failure?;
      return Failure(ValueError);
    }
    r := Success(Table(cols));
  }

  /** One pass of the loop of `ProcessAssets.transform`: the area columns of
      fund `row`, written into a table that is still zero there; `error` is
      the exception the fund's row raises, if any. `rows` are the rows the
      loop is to produce. */
  method WriteAssetsRow(cols: array2<real>, row: nat, column: seq<Option<LocationField>>,
                       ghost rows: seq<Result<seq<real>>>)
    returns (error: Option<Exception>)
    requires row < |column| == |rows| && AssetsRows(rows, column)
    requires cols.Length1 == 27 && row < cols.Length0
    requires forall k :: 0 <= k < 27 ==> cols[row, k] == 0.0
    modifies cols
    ensures error.Some? <==> rows[row].Failure?
    ensures error.Some? ==> rows[row] == Failure(error.value)
    ensures error.None? ==> |rows[row].value| == 27 && forall k :: 0 <= k < 27 ==> cols[row, k] == rows[row].value[k]
    ensures forall i, k :: 0 <= i < cols.Length0 && 0 <= k < 27 && i != row ==> cols[i, k] == old(cols[i, k])
  {
    var s := column[row];
    assert rows[row] == AssetsRow(s);
    if s.None? {
      return None;
    }
    match s.value
    case MissingKey => return Some(KeyError);
    case TooShort => return Some(IndexError);
    case Listed(loc) =>
      var failed := WriteAreas(cols, row, loc, Ufs);
      if failed {
        return Some(IndexError);
      }
      return None;
  }

  /** `rows` lists the area row of every fund of `column`. */
  ghost predicate AssetsRows(rows: seq<Result<seq<real>>>, column: seq<Option<LocationField>>)
    requires |rows| == |column|
  {
    forall i {:trigger AssetsRow(column[i])} :: 0 <= i < |column| ==> rows[i] == AssetsRow(column[i])
  }


  /** The loop over the state codes `ufs`: the area of each code in its cell
      of fund `row`; `failed` when a code's area is missing. */
  method WriteAreas(cols: array2<real>, row: nat, loc: Locations, ufs: seq<string>) returns (failed: bool)
    requires cols.Length1 == |ufs| && row < cols.Length0
    requires forall k :: 0 <= k < |ufs| ==> cols[row, k] == 0.0
    modifies cols
    ensures failed <==> AreasOf(loc, ufs).Failure?
    ensures !failed ==> forall k :: 0 <= k < |ufs| ==> cols[row, k] == AreasOf(loc, ufs).value[k]
    ensures forall i, k :: 0 <= i < cols.Length0 && 0 <= k < |ufs| && i != row ==> cols[i, k] == old(cols[i, k])
  {
    var assetsLocUf, assetsAreaUf := loc.regions, loc.areas;
    for ufIndex := 0 to |ufs|
      invariant forall k :: 0 <= k < ufIndex ==> AssetArea(loc, ufs[k]) == Success(cols[row, k])
      invariant forall k :: ufIndex <= k < |ufs| ==> cols[row, k] == 0.0
      invariant forall i, k :: 0 <= i < cols.Length0 && 0 <= k < |ufs| && i != row ==> cols[i, k] == old(cols[i, k])
    {
      var uf := ufs[ufIndex];
      if uf in assetsLocUf {
        var index := IndexOf(assetsLocUf, uf);
        if index >= |assetsAreaUf| {
          return true;
        }
        cols[row, ufIndex] := assetsAreaUf[index];
      }
    }
    return false;
  }

  /** The loop of `ProcessAssets.transform` over the funds: `failedAt` is the
      first fund whose row raises, with the exception it raises, or the number
      of funds when none does. */
  method FillAssetsRows(cols: array2<real>, column: seq<Option<LocationField>>,
                       ghost rows: seq<Result<seq<real>>>)
    returns (failedAt: nat, error: Option<Exception>)
    requires |rows| == |column| && AssetsRows(rows, column)
    requires cols.Length0 == |column| && cols.Length1 == 27
    requires forall i, k :: 0 <= i < |column| && 0 <= k < 27 ==> cols[i, k] == 0.0
    modifies cols
    ensures failedAt <= |column| && (error.Some? <==> failedAt < |column|)
    ensures error.Some? ==> rows[failedAt] == Failure(error.value)
    ensures forall i :: 0 <= i < failedAt ==> rows[i].Success? && |rows[i].value| == 27
    ensures error.None? ==> forall i, k :: 0 <= i < |column| && 0 <= k < 27 ==> cols[i, k] == rows[i].value[k]
  {
    var n := |column|;
    var row := 0;
    while row < n
      invariant row <= n
      invariant forall i :: 0 <= i < row ==> rows[i].Success? && |rows[i].value| == 27
      invariant forall i, k :: 0 <= i < row && 0 <= k < 27 ==> cols[i, k] == rows[i].value[k]
      invariant forall i, k :: row <= i < n && 0 <= k < 27 ==> cols[i, k] == 0.0
    {
      error := WriteAssetsRow(cols, row, column, rows);
      if error.Some? {
        return row, error;
      }
      row := row + 1;
    }
    return n, None;
  }


  /** `ProcessAssets.transform`: one 27-entry area vector per fund,
      in the order of the state codes. */
  method ProcessAssets(column: seq<Option<LocationField>>) returns (r: Result<seq<seq<real>>>)
    ensures r.Failure? <==> exists i :: 0 <= i < |column| && AssetsRow(column[i]).Failure?
    ensures r.Failure? ==>
      exists i :: 0 <= i < |column| && AssetsRow(column[i]) == Failure(r.exception) &&
        (forall j :: 0 <= j < i ==> AssetsRow(column[j]).Success?)
    ensures r.Failure? ==> r.exception == KeyError || r.exception == IndexError
    ensures r.Success? ==> |r.value| == |column| && forall i :: 0 <= i < |column| ==> r.value[i] == AssetsRow(column[i]).value
    ensures r.Success? ==> forall i :: 0 <= i < |column| ==> |r.value[i]| == |AssetColumnNames()|
  {
    var cols := new real[|column|, 27]((_, _) => 0.0);
    ghost var rows := seq(|column|, i requires 0 <= i < |column| => AssetsRow(column[i]));
    var failedAt, error := FillAssetsRows(cols, column, rows);
    if error.Some? {
      assert AssetsRow(column[failedAt]) == Failure(error.value);
      return Failure(error.value);
    }
    var table := Table(cols);
    forall i | 0 <= i < |column| ensures table[i] == AssetsRow(column[i]).value {
      assert |table[i]| == 27 == |AssetsRow(column[i]).value|;
    }
    r := Success(table);
  }
}
