/** The two ways the feature transforms place a sorted series into twelve
    monthly slots: the 30-day rule of the dividend, equity-value and vacancy
    transforms, and the calendar-month rule of the price transform. */
module Buckets {
  import opened Wrappers
  import opened Series
  import opened Text

  function Zeros(n: nat): (z: seq<real>)
    ensures |z| == n && forall i :: 0 <= i < n ==> z[i] == 0.0
  {
    seq(n, _ => 0.0)
  }

  // ---------------------------------------------------------------------------
  // The 30-day rule
  // ---------------------------------------------------------------------------

  /** `((anchor - date).days) // 30`; for a positive divisor Python's floor
      division and Dafny's division agree. */
  function MonthIndex(anchor: int, day: int): (m: int)
    ensures 30 * m <= anchor - day < 30 * m + 30
  {
    (anchor - day) / 30
  }

  /** The slots after the loop has written the first `n` points; a point is
      written to the slot of its month index. */
  function WriteSlots(pts: seq<Point>, anchor: int, n: nat): (slots: seq<real>)
    requires n <= |pts|
    ensures |slots| == 12
  {
    if n == 0 then Zeros(12)
    else
      var slots := WriteSlots(pts, anchor, n - 1);
      var m := MonthIndex(anchor, pts[n - 1].day);
      if 0 <= m < 12 then slots[m := pts[n - 1].value] else slots
  }

  /** The position at which the loop breaks: the first point from `i` on whose
      month index exceeds 11, or the end of the series. */
  function ReachFrom(pts: seq<Point>, anchor: int, i: nat): (r: nat)
    requires i <= |pts|
    ensures i <= r <= |pts|
    ensures forall j :: i <= j < r ==> MonthIndex(anchor, pts[j].day) <= 11
    ensures r < |pts| ==> MonthIndex(anchor, pts[r].day) > 11
    decreases |pts| - i
  {
    if i == |pts| || MonthIndex(anchor, pts[i].day) > 11 then i else ReachFrom(pts, anchor, i + 1)
  }

  /** The twelve slots the 30-day loop leaves for a series sorted newest first,
      anchored at its newest date. */
  function MonthSlots(pts: seq<Point>): (slots: seq<real>)
    requires pts != []
    ensures |slots| == 12
  {
    WriteSlots(pts, pts[0].day, ReachFrom(pts, pts[0].day, 0))
  }

  /** After `n` writes a slot holds the value of the last of those points that
      fell into it, and 0 if none did. */
  lemma {:induction false} WriteSlotsLast(pts: seq<Point>, anchor: int, n: nat, k: int)
    requires n <= |pts| && 0 <= k < 12
    ensures (forall i :: 0 <= i < n ==> MonthIndex(anchor, pts[i].day) != k) ==> WriteSlots(pts, anchor, n)[k] == 0.0
    ensures forall i :: 0 <= i < n && MonthIndex(anchor, pts[i].day) == k &&
                        (forall j :: i < j < n ==> MonthIndex(anchor, pts[j].day) != k)
                        ==> WriteSlots(pts, anchor, n)[k] == pts[i].value
  {
    if n > 0 {
      WriteSlotsLast(pts, anchor, n - 1, k);
    }
  }

  /** In a series sorted newest first the month index never decreases. */
  lemma MonthIndexMonotone(pts: seq<Point>, i: int, j: int)
    requires SortedBy(pts, PointGe) && 0 <= i <= j < |pts|
    ensures 0 <= MonthIndex(pts[0].day, pts[i].day) <= MonthIndex(pts[0].day, pts[j].day)
  {
    assert pts[0].day >= pts[i].day by { if i > 0 { assert PointGe(pts[0], pts[i]); } }
    assert pts[i].day >= pts[j].day by { if i < j { assert PointGe(pts[i], pts[j]); } }
  }

  /** The 30-day rule on a sorted series: slot `k` holds the value of the last
      point, in sorted order, whose month index is `k` (that is, the oldest point
      of its window, ties on date going to the smaller value), and 0 when no point
      falls in the window. Points past the break all have a month index above 11,
      so the break only skips points that no slot could take. */
  lemma MonthSlotsMeaning(pts: seq<Point>, k: int)
    requires pts != [] && SortedBy(pts, PointGe) && 0 <= k < 12
    ensures (forall i :: 0 <= i < |pts| ==> MonthIndex(pts[0].day, pts[i].day) != k) ==> MonthSlots(pts)[k] == 0.0
    ensures forall i :: 0 <= i < |pts| && MonthIndex(pts[0].day, pts[i].day) == k &&
                        (forall j :: i < j < |pts| ==> MonthIndex(pts[0].day, pts[j].day) != k)
                        ==> MonthSlots(pts)[k] == pts[i].value &&
                            forall j :: 0 <= j < |pts| && MonthIndex(pts[0].day, pts[j].day) == k ==> PointGe(pts[j], pts[i])
  {
    var anchor := pts[0].day;
    var r := ReachFrom(pts, anchor, 0);
    WriteSlotsLast(pts, anchor, r, k);
    forall j | r <= j < |pts| ensures MonthIndex(anchor, pts[j].day) > 11 {
      MonthIndexMonotone(pts, r, j);
    }
    forall i, j | 0 <= j <= i < |pts| ensures PointGe(pts[j], pts[i]) {
      if j < i { assert PointGe(pts[j], pts[i]); }
    }
  }

  /** The 30-day rule stated on its own, for the first twelve entries of
      `slots`: slot `k` holds the value of the last point of the series whose
      month index is `k`, and 0 when there is none. */
  ghost predicate ThirtyDayRule(slots: seq<real>, pts: seq<Point>)
    requires pts != [] && |slots| >= 12
  {
    forall k :: 0 <= k < 12 ==>
      && ((forall i :: 0 <= i < |pts| ==> MonthIndex(pts[0].day, pts[i].day) != k) ==> slots[k] == 0.0)
      && (forall i :: 0 <= i < |pts| && MonthIndex(pts[0].day, pts[i].day) == k &&
                      (forall j :: i < j < |pts| ==> MonthIndex(pts[0].day, pts[j].day) != k)
                      ==> slots[k] == pts[i].value)
  }

  /** The rule speaks only of the first twelve entries. */
  lemma ThirtyDayRuleOfPrefix(a: seq<real>, b: seq<real>, pts: seq<Point>)
    requires pts != [] && |a| >= 12 && |b| >= 12
    requires ThirtyDayRule(a, pts) && forall k :: 0 <= k < 12 ==> a[k] == b[k]
    ensures ThirtyDayRule(b, pts)
  {
  }

  lemma MonthSlotsFollowRule(pts: seq<Point>)
    requires pts != [] && SortedBy(pts, PointGe)
    ensures ThirtyDayRule(MonthSlots(pts), pts)
  {
    forall k | 0 <= k < 12 {
      MonthSlotsMeaning(pts, k);
    }
  }

  /** The rule leaves no freedom: two slot vectors that both follow it agree. */
  lemma ThirtyDayRuleDetermines(a: seq<real>, b: seq<real>, pts: seq<Point>)
    requires pts != [] && |a| >= 12 && |b| >= 12
    requires ThirtyDayRule(a, pts) && ThirtyDayRule(b, pts)
    ensures a[..12] == b[..12]
  {
    forall k | 0 <= k < 12 ensures a[k] == b[k] {
      if exists i :: 0 <= i < |pts| && MonthIndex(pts[0].day, pts[i].day) == k {
        var i := LastInWindow(pts, k);
        assert a[k] == pts[i].value;
      }
    }
  }

  /** The last point of a non-empty window. */
  lemma LastInWindow(pts: seq<Point>, k: int) returns (i: int)
    requires pts != [] && exists i :: 0 <= i < |pts| && MonthIndex(pts[0].day, pts[i].day) == k
    ensures 0 <= i < |pts| && MonthIndex(pts[0].day, pts[i].day) == k
    ensures forall j :: i < j < |pts| ==> MonthIndex(pts[0].day, pts[j].day) != k
  {
    i := |pts| - 1;
    while MonthIndex(pts[0].day, pts[i].day) != k
      invariant 0 <= i < |pts|
      invariant forall j :: i < j < |pts| ==> MonthIndex(pts[0].day, pts[j].day) != k
      invariant exists l :: 0 <= l <= i && MonthIndex(pts[0].day, pts[l].day) == k
      decreases i
    {
      i := i - 1;
    }
  }

  /** The 30-day loop of the dividend, equity-value and vacancy transforms,
      writing the slots of one row of the column-major table `cols` in place; the
      loop breaks at the first point more than eleven 30-day periods back. */
  method FillMonthSlots(cols: array2<real>, row: nat, pts: seq<Point>)
    requires pts != [] && SortedBy(pts, PointGe)
    requires 12 <= cols.Length0 && row < cols.Length1
    requires forall k :: 0 <= k < 12 ==> cols[k, row] == 0.0
    modifies cols
    ensures forall k :: 0 <= k < 12 ==> cols[k, row] == MonthSlots(pts)[k]
    ensures forall c, r :: 0 <= c < cols.Length0 && 0 <= r < cols.Length1 && (c >= 12 || r != row) ==>
              cols[c, r] == old(cols[c, r])
  {
    var anchor := pts[0].day;
    ghost var reach := ReachFrom(pts, anchor, 0);
    var index := 0;
    while index < |pts|
      invariant index <= reach
      invariant forall k :: 0 <= k < 12 ==> cols[k, row] == WriteSlots(pts, anchor, index)[k]
      invariant forall c, r :: 0 <= c < cols.Length0 && 0 <= r < cols.Length1 && (c >= 12 || r != row) ==>
                  cols[c, r] == old(cols[c, r])
    {
      var monthN := (anchor - pts[index].day) / 30;
      if monthN > 11 {
        break;
      }
      MonthIndexMonotone(pts, 0, index);
      cols[monthN, row] := pts[index].value;
      index := index + 1;
    }
  }

  // ---------------------------------------------------------------------------
  // The calendar-month rule of the price transform
  // ---------------------------------------------------------------------------

  /** `_filter_date`'s reference (year, month) for `monthN` months before the
      anchor, with the wrap the code applies: the same year and `month - monthN`
      while that stays positive, else the previous year and `12 - (monthN - 1)`.
      `datetime.replace` raises ValueError for a month or year out of range. */
  function FilterDateRef(anchor: Stamp, monthN: int): (r: Result<(int, int)>)
    ensures r.Success? ==> 1 <= r.value.0 <= 9999 && 1 <= r.value.1 <= 12
    ensures 0 <= monthN <= 11 ==> (r.Failure? <==> anchor.year == 1 && anchor.month <= monthN)
    ensures anchor.month > monthN && monthN >= 0 ==> r == Success((anchor.year, anchor.month - monthN))
  {
    var year := if anchor.month > monthN then anchor.year else anchor.year - 1;
    var month := if anchor.month > monthN then anchor.month - monthN else 12 - (monthN - 1);
    if 1 <= year <= 9999 && 1 <= month <= 12 then Success((year, month)) else Failure(ValueError)
  }

  /** The calendar month `n` months before the anchor's. */
  function MonthsBack(anchor: Stamp, n: int): (int, int) {
    var total := anchor.year * 12 + (anchor.month - 1) - n;
    (total / 12, total % 12 + 1)
  }

  /** The reference is the calendar month `monthN` months back exactly when no
      wrap occurs or the anchor is in January: for an anchor in March, three
      months back yields October of the previous year rather than December. */
  lemma FilterDateRefIsMonthsBack(anchor: Stamp, monthN: int)
    requires 0 <= monthN <= 11 && FilterDateRef(anchor, monthN).Success?
    ensures FilterDateRef(anchor, monthN).value == MonthsBack(anchor, monthN) <==> anchor.month > monthN || anchor.month == 1
  {
    var total := anchor.year * 12 + (anchor.month - 1) - monthN;
    if anchor.month > monthN {
      assert total == anchor.year * 12 + (anchor.month - monthN - 1);
    } else {
      assert total == (anchor.year - 1) * 12 + (anchor.month - monthN + 11);
    }
  }

  /** Over all twelve slots the reference months are the true calendar months
      exactly for anchors in January or December. */
  lemma FilterDateRefExactMonths(anchor: Stamp)
    requires anchor.year > 1
    ensures (forall n :: 0 <= n <= 11 ==> FilterDateRef(anchor, n) == Success(MonthsBack(anchor, n))) <==>
            anchor.month == 1 || anchor.month == 12
  {
    forall n | 0 <= n <= 11 ensures FilterDateRef(anchor, n).Success? {
    }
    if anchor.month == 1 || anchor.month == 12 {
      forall n | 0 <= n <= 11 ensures FilterDateRef(anchor, n) == Success(MonthsBack(anchor, n)) {
        FilterDateRefIsMonthsBack(anchor, n);
      }
    } else {
      FilterDateRefIsMonthsBack(anchor, anchor.month);
    }
  }

  predicate InMonth(d: Stamp, ref: (int, int)) {
    d.year == ref.0 && d.month == ref.1
  }

  /** `[dates.index(date) for date in dates if _filter_date(date, ...)]` over
      the dates from position `j` on: for each matching date, the position of
      its first occurrence in the whole list. */
  function MatchIndexes(dates: seq<Stamp>, ref: (int, int), j: nat): (ix: seq<nat>)
    requires j <= |dates|
    ensures forall e :: e in ix ==> e < |dates| && InMonth(dates[e], ref)
    ensures forall i :: j <= i < |dates| && InMonth(dates[i], ref) ==> IndexOf(dates, dates[i]) in ix
    ensures ix == [] <==> forall i :: j <= i < |dates| ==> !InMonth(dates[i], ref)
    decreases |dates| - j
  {
    if j == |dates| then []
    else if InMonth(dates[j], ref) then [IndexOf(dates, dates[j])] + MatchIndexes(dates, ref, j + 1)
    else MatchIndexes(dates, ref, j + 1)
  }

  function MinOf(ix: seq<nat>): (m: nat)
    requires ix != []
    ensures m in ix && forall e :: e in ix ==> m <= e
  {
    if |ix| == 1 then ix[0]
    else
      var m := MinOf(ix[1..]);
      assert forall e :: e in ix ==> e == ix[0] || e in ix[1..];
      if ix[0] <= m then ix[0] else m
  }

  function MaxOf(ix: seq<nat>): (m: nat)
    requires ix != []
    ensures m in ix && forall e :: e in ix ==> e <= m
  {
    if |ix| == 1 then ix[0]
    else
      var m := MaxOf(ix[1..]);
      assert forall e :: e in ix ==> e == ix[0] || e in ix[1..];
      if ix[0] >= m then ix[0] else m
  }

  /** Price slot `monthN` of a series sorted newest first: the mean of the
      prices from the smallest to the largest matching index, or `np.mean([0])`
      when no date falls in the reference month. */
  function PriceSlot(dates: seq<Stamp>, prices: seq<real>, monthN: int): (r: Result<real>)
    requires dates != [] && |prices| == |dates|
    ensures r.Failure? <==> FilterDateRef(dates[0], monthN).Failure?
    ensures r.Failure? ==> r.exception == ValueError
    ensures r.Success? ==> r.value == MonthMean(dates, prices, FilterDateRef(dates[0], monthN).value)
  {
    match FilterDateRef(dates[0], monthN)
    case Failure(e) => Failure(e)
    case Success(ref) => Success(MonthMean(dates, prices, ref))
  }

  /** The mean `np.mean(month_prices)` for one reference month. */
  function MonthMean(dates: seq<Stamp>, prices: seq<real>, ref: (int, int)): real
    requires |prices| == |dates|
  {
    var ix := MatchIndexes(dates, ref, 0);
    if ix == [] then Mean([0.0])
    else Mean(prices[MinOf(ix)..MaxOf(ix) + 1])
  }

  /** A slot whose reference month holds no price is 0. */
  lemma PriceSlotEmpty(dates: seq<Stamp>, prices: seq<real>, monthN: int)
    requires dates != [] && |prices| == |dates|
    requires FilterDateRef(dates[0], monthN).Success?
    requires forall i :: 0 <= i < |dates| ==> !InMonth(dates[i], FilterDateRef(dates[0], monthN).value)
    ensures PriceSlot(dates, prices, monthN) == Success(0.0)
  {
    assert Sum([0.0]) == 0.0 + Sum([]);
  }

  /** `dates` is newest first in the order of `datetime`. */
  predicate NewestFirst(dates: seq<Stamp>) {
    forall i, j :: 0 <= i < j < |dates| ==> StampGt(dates[i], dates[j]) || dates[i] == dates[j]
  }

  predicate Distinct<T(==)>(s: seq<T>) {
    forall i, j :: 0 <= i < j < |s| ==> s[i] != s[j]
  }

  /** The prices of the dates in the reference month, in order. */
  function PricesInMonth(dates: seq<Stamp>, prices: seq<real>, ref: (int, int), j: nat): (ps: seq<real>)
    requires j <= |dates| == |prices|
    ensures |ps| <= |dates| - j
    decreases |dates| - j
  {
    if j == |dates| then []
    else if InMonth(dates[j], ref) then [prices[j]] + PricesInMonth(dates, prices, ref, j + 1)
    else PricesInMonth(dates, prices, ref, j + 1)
  }

  /** Dates of one calendar month are adjacent in a newest-first list. */
  lemma MonthIsContiguous(dates: seq<Stamp>, ref: (int, int), i: int, j: int, k: int)
    requires NewestFirst(dates) && 0 <= i <= j <= k < |dates|
    requires InMonth(dates[i], ref) && InMonth(dates[k], ref)
    ensures InMonth(dates[j], ref)
  {
    assert StampGt(dates[i], dates[j]) || dates[i] == dates[j] by { if i < j { } }
    assert StampGt(dates[j], dates[k]) || dates[j] == dates[k] by { if j < k { } }
  }

  /** When the list holds no date twice, the matching positions are exactly
      the run from the first to the last match. */
  lemma MatchWindow(dates: seq<Stamp>, ref: (int, int))
    requires NewestFirst(dates) && Distinct(dates)
    requires MatchIndexes(dates, ref, 0) != []
    ensures forall j :: 0 <= j < |dates| ==>
              (MinOf(MatchIndexes(dates, ref, 0)) <= j <= MaxOf(MatchIndexes(dates, ref, 0)) <==> InMonth(dates[j], ref))
  {
    var ix := MatchIndexes(dates, ref, 0);
    var lo, hi := MinOf(ix), MaxOf(ix);
    forall j | 0 <= j < |dates| && InMonth(dates[j], ref) ensures lo <= j <= hi {
      assert IndexOf(dates, dates[j]) == j by {
        var e := IndexOf(dates, dates[j]);
        assert dates[e] == dates[j];
      }
    }
    forall j | lo <= j <= hi ensures InMonth(dates[j], ref) {
      MonthIsContiguous(dates, ref, lo, j, hi);
    }
  }

  /** A run of matches is the slice of the prices it covers. */
  lemma {:induction false} PricesInWindow(dates: seq<Stamp>, prices: seq<real>, ref: (int, int), j: nat, lo: nat, hi: nat)
    requires j <= |dates| == |prices| && lo <= j && hi < |dates|
    requires forall i :: j <= i < |dates| ==> (i <= hi <==> InMonth(dates[i], ref))
    ensures j <= hi + 1 ==> PricesInMonth(dates, prices, ref, j) == prices[j..hi + 1]
    ensures j > hi ==> PricesInMonth(dates, prices, ref, j) == []
    decreases |dates| - j
  {
    if j < |dates| {
      PricesInWindow(dates, prices, ref, j + 1, lo, hi);
      if j <= hi {
        assert prices[j..hi + 1] == [prices[j]] + prices[j + 1..hi + 1];
      }
    }
  }

  /** Price slot `monthN` of a newest-first series without repeated dates is
      the mean of exactly the prices dated in the reference month, and 0 when
      there are none. */
  lemma PriceSlotIsMonthMean(dates: seq<Stamp>, prices: seq<real>, monthN: int)
    requires dates != [] && |prices| == |dates| && NewestFirst(dates) && Distinct(dates)
    requires FilterDateRef(dates[0], monthN).Success?
    ensures var ps := PricesInMonth(dates, prices, FilterDateRef(dates[0], monthN).value, 0);
            PriceSlot(dates, prices, monthN) == Success(if ps == [] then 0.0 else Mean(ps))
  {
    MonthMeanIsMean(dates, prices, FilterDateRef(dates[0], monthN).value);
  }

  /** The mean of a month with no price is `np.mean([0])`, that is 0. */
  lemma MonthMeanEmpty(dates: seq<Stamp>, prices: seq<real>, ref: (int, int))
    requires |prices| == |dates|
    requires forall i :: 0 <= i < |dates| ==> !InMonth(dates[i], ref)
    ensures MonthMean(dates, prices, ref) == 0.0
  {
    assert MatchIndexes(dates, ref, 0) == [];
    assert Sum([0.0]) == 0.0 + Sum([]);
  }

  /** Whatever the order of the dates, the mean of a month with a price lies
      within the prices between two dates `lo` and `hi` of that month. */
  lemma MonthMeanWithin(dates: seq<Stamp>, prices: seq<real>, ref: (int, int), j: nat) returns (lo: nat, hi: nat)
    requires |prices| == |dates| && j < |dates| && InMonth(dates[j], ref)
    ensures lo <= hi < |prices| && InMonth(dates[lo], ref) && InMonth(dates[hi], ref)
    ensures Min(prices[lo..hi + 1]) <= MonthMean(dates, prices, ref) <= Max(prices[lo..hi + 1])
  {
    var ix := MatchIndexes(dates, ref, 0);
    assert IndexOf(dates, dates[j]) in ix;
    lo, hi := MinOf(ix), MaxOf(ix);
    assert lo in ix && hi in ix;
    assert MonthMean(dates, prices, ref) == Mean(prices[lo..hi + 1]);
    MeanBetweenMinAndMax(prices[lo..hi + 1]);
  }

  /** For a newest-first list without repeated dates, the mean computed from
      the matching indexes is the mean of the prices dated in the month, and 0
      when there are none. */
  lemma MonthMeanIsMean(dates: seq<Stamp>, prices: seq<real>, ref: (int, int))
    requires |prices| == |dates| && NewestFirst(dates) && Distinct(dates)
    ensures var ps := PricesInMonth(dates, prices, ref, 0);
            MonthMean(dates, prices, ref) == if ps == [] then 0.0 else Mean(ps)
  {
    if MatchIndexes(dates, ref, 0) == [] {
      PricesBeforeWindow(dates, prices, ref, 0, |dates|);
      assert Sum([0.0]) == 0.0 + Sum([]);
    } else {
      PricesOfWindow(dates, prices, ref);
    }
  }

  /** The slice between the first and the last match holds exactly the prices
      dated in the reference month. */
  lemma PricesOfWindow(dates: seq<Stamp>, prices: seq<real>, ref: (int, int))
    requires |prices| == |dates| && NewestFirst(dates) && Distinct(dates)
    requires MatchIndexes(dates, ref, 0) != []
    ensures var ix := MatchIndexes(dates, ref, 0);
            PricesInMonth(dates, prices, ref, 0) == prices[MinOf(ix)..MaxOf(ix) + 1]
  {
    var ix := MatchIndexes(dates, ref, 0);
    var lo, hi := MinOf(ix), MaxOf(ix);
    MatchWindow(dates, ref);
    PricesInWindow(dates, prices, ref, lo, lo, hi);
    PricesBeforeWindow(dates, prices, ref, 0, lo);
  }

  /** Skipping the positions before the first match changes nothing. */
  lemma {:induction false} PricesBeforeWindow(dates: seq<Stamp>, prices: seq<real>, ref: (int, int), j: nat, lo: nat)
    requires j <= lo <= |dates| == |prices|
    requires forall i :: j <= i < lo ==> !InMonth(dates[i], ref)
    ensures PricesInMonth(dates, prices, ref, j) == PricesInMonth(dates, prices, ref, lo)
    decreases lo - j
  {
    if j < lo {
      PricesBeforeWindow(dates, prices, ref, j + 1, lo);
    }
  }

  /** With a repeated date the slice stops at the first copy of the last
      matching date: two prices in the anchor's month at the same instant give
      slot 0 the first price alone, not the mean of both. */
  lemma PriceSlotRepeatedDate()
    ensures var d: Stamp := DateTime(2020, 5, 0);
            PriceSlot([d, d], [4.0, 2.0], 0) == Success(4.0) &&
            PricesInMonth([d, d], [4.0, 2.0], (2020, 5), 0) == [4.0, 2.0]
  {
    var d: Stamp := DateTime(2020, 5, 0);
    var ix := MatchIndexes([d, d], (2020, 5), 0);
    assert MatchIndexes([d, d], (2020, 5), 2) == [];
    assert MatchIndexes([d, d], (2020, 5), 1) == [0];
    assert ix == [0, 0];
    assert MinOf(ix) == 0 && MaxOf(ix) == 0;
    assert [4.0, 2.0][0..1] == [4.0];
    assert Sum([4.0]) == 4.0 + Sum([]);
  }
}
