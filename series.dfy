/** Time series as the feature transforms see them: (date, value) pairs, the
    descending sort that Python's `sorted(zip(dates, values), reverse=True)`
    performs on them, and the summary statistics mean, minimum and maximum. */
module Series {

  /** `ge` is a total order; `ge(a, b)` reads "a comes no later than b in descending order". */
  ghost predicate DescendingOrder<T(!new)>(ge: (T, T) -> bool) {
    && (forall a, b :: ge(a, b) || ge(b, a))
    && (forall a, b, c :: ge(a, b) && ge(b, c) ==> ge(a, c))
    && (forall a, b :: ge(a, b) && ge(b, a) ==> a == b)
  }

  predicate SortedBy<T>(s: seq<T>, ge: (T, T) -> bool) {
    forall i, j :: 0 <= i < j < |s| ==> ge(s[i], s[j])
  }

  /** Inserts `x` before the first element it does not come after. */
  function Insert<T>(x: T, s: seq<T>, ge: (T, T) -> bool): (r: seq<T>)
    ensures multiset(r) == multiset(s) + multiset{x}
    ensures forall j :: 0 <= j < |r| ==> r[j] == x || r[j] in s
  {
    if s == [] || ge(x, s[0]) then
      assert s == [] ==> [x] + s == [x];
      [x] + s
    else
      assert s == [s[0]] + s[1..];
      [s[0]] + Insert(x, s[1..], ge)
  }

  /** Inserting into a descending sequence keeps it descending. */
  lemma {:induction false} InsertSorted<T(!new)>(x: T, s: seq<T>, ge: (T, T) -> bool)
    requires DescendingOrder(ge) && SortedBy(s, ge)
    ensures SortedBy(Insert(x, s, ge), ge)
  {
    if s == [] || ge(x, s[0]) {
      forall j | 0 <= j < |s| ensures ge(x, s[j]) {
        if j > 0 { assert ge(s[0], s[j]); }
      }
    } else {
      var rest := Insert(x, s[1..], ge);
      InsertSorted(x, s[1..], ge);
      forall j | 0 <= j < |rest| ensures ge(s[0], rest[j]) {
        if rest[j] != x {
          var k :| 0 <= k < |s[1..]| && s[1..][k] == rest[j];
          assert s[k + 1] == rest[j];
        }
      }
      assert Insert(x, s, ge) == [s[0]] + rest;
    }
  }

  /** Python's `sorted(s, reverse=True)` for a total order. */
  function SortDescending<T(!new)>(s: seq<T>, ge: (T, T) -> bool): (r: seq<T>)
    requires DescendingOrder(ge)
    ensures SortedBy(r, ge)
    ensures multiset(r) == multiset(s)
  {
    if s == [] then []
    else
      assert s == [s[0]] + s[1..];
      var sorted := SortDescending(s[1..], ge);
      InsertSorted(s[0], sorted, ge);
      Insert(s[0], sorted, ge)
  }

  /** A total order has exactly one descending arrangement of a multiset, so the
      sort above yields the very sequence Python's sort yields. */
  lemma {:induction false} SortedArrangementIsUnique<T(!new)>(a: seq<T>, b: seq<T>, ge: (T, T) -> bool)
    requires DescendingOrder(ge)
    requires SortedBy(a, ge) && SortedBy(b, ge)
    requires multiset(a) == multiset(b)
    ensures a == b
  {
    if a != [] {
      assert |b| == |a| by { assert |multiset(a)| == |multiset(b)|; }
      SortedHeadsAgree(a, b, ge);
      TailsAgree(a, b);
      SortedArrangementIsUnique(a[1..], b[1..], ge);
      assert a == [a[0]] + a[1..] && b == [b[0]] + b[1..];
    }
  }

  lemma SortedHeadsAgree<T(!new)>(a: seq<T>, b: seq<T>, ge: (T, T) -> bool)
    requires DescendingOrder(ge)
    requires SortedBy(a, ge) && SortedBy(b, ge)
    requires a != [] && multiset(a) == multiset(b)
    ensures b != [] && a[0] == b[0]
  {
    assert a[0] in multiset(b);
    var i :| 0 <= i < |b| && b[i] == a[0];
    assert b[0] in multiset(a);
    var j :| 0 <= j < |a| && a[j] == b[0];
    assert ge(b[0], a[0]) by { if i > 0 { assert ge(b[0], b[i]); } }
    assert ge(a[0], b[0]) by { if j > 0 { assert ge(a[0], a[j]); } }
  }

  lemma TailsAgree<T>(a: seq<T>, b: seq<T>)
    requires a != [] && b != [] && a[0] == b[0] && multiset(a) == multiset(b)
    ensures multiset(a[1..]) == multiset(b[1..])
  {
    assert a == [a[0]] + a[1..] && b == [b[0]] + b[1..];
    assert multiset(a) == multiset{a[0]} + multiset(a[1..]);
    assert multiset(b) == multiset{b[0]} + multiset(b[1..]);
    assert multiset(a[1..]) == multiset(a) - multiset{a[0]};
    assert multiset(b[1..]) == multiset(b) - multiset{b[0]};
  }

  /** One point of a dividend, equity-value or vacancy series; `day` numbers
      the calendar day of the date (the series' dates fall at midnight). */
  datatype Point = Point(day: int, value: real)

  /** The order of Python tuples (date, value), read descending. */
  predicate PointGe(a: Point, b: Point) {
    a.day > b.day || (a.day == b.day && a.value >= b.value)
  }

  lemma PointOrder()
    ensures DescendingOrder(PointGe)
  {
  }

  /** Python's `zip(dates, values)`: pairs up to the shorter of the two lists. */
  function Zip(dates: seq<int>, values: seq<real>): (r: seq<Point>)
    ensures |r| == if |dates| <= |values| then |dates| else |values|
    ensures forall i :: 0 <= i < |r| ==> r[i] == Point(dates[i], values[i])
  {
    if dates == [] || values == [] then [] else [Point(dates[0], values[0])] + Zip(dates[1..], values[1..])
  }

  function SortPoints(ps: seq<Point>): (r: seq<Point>)
    ensures SortedBy(r, PointGe)
    ensures multiset(r) == multiset(ps)
  {
    PointOrder();
    SortDescending(ps, PointGe)
  }

  function Values(ps: seq<Point>): (vs: seq<real>)
    ensures |vs| == |ps| && forall i :: 0 <= i < |ps| ==> vs[i] == ps[i].value
  {
    if ps == [] then [] else [ps[0].value] + Values(ps[1..])
  }

  /** A timestamp in the order of Python's `datetime`: its year, its month, and a
      number ordering the instants inside that month (day, hour, minute, ...). */
  datatype DateTime = DateTime(year: int, month: int, rest: int)

  /** The range `datetime` accepts for its year and month. */
  type Stamp = t: DateTime | 1 <= t.year <= 9999 && 1 <= t.month <= 12 witness DateTime(2000, 1, 0)

  predicate StampGt(a: Stamp, b: Stamp) {
    a.year > b.year || (a.year == b.year && (a.month > b.month || (a.month == b.month && a.rest > b.rest)))
  }

  /** One point of a price series. */
  datatype PricePoint = PricePoint(at: Stamp, price: real)

  predicate PricePointGe(a: PricePoint, b: PricePoint) {
    StampGt(a.at, b.at) || (a.at == b.at && a.price >= b.price)
  }

  lemma PricePointOrder()
    ensures DescendingOrder(PricePointGe)
  {
  }

  function ZipPrices(stamps: seq<Stamp>, prices: seq<real>): (r: seq<PricePoint>)
    ensures |r| == if |stamps| <= |prices| then |stamps| else |prices|
    ensures forall i :: 0 <= i < |r| ==> r[i] == PricePoint(stamps[i], prices[i])
  {
    if stamps == [] || prices == [] then [] else [PricePoint(stamps[0], prices[0])] + ZipPrices(stamps[1..], prices[1..])
  }

  function SortPricePoints(ps: seq<PricePoint>): (r: seq<PricePoint>)
    ensures SortedBy(r, PricePointGe)
    ensures multiset(r) == multiset(ps)
  {
    PricePointOrder();
    SortDescending(ps, PricePointGe)
  }

  function Prices(ps: seq<PricePoint>): (vs: seq<real>)
    ensures |vs| == |ps| && forall i :: 0 <= i < |ps| ==> vs[i] == ps[i].price
  {
    if ps == [] then [] else [ps[0].price] + Prices(ps[1..])
  }

  function Stamps(ps: seq<PricePoint>): (ss: seq<Stamp>)
    ensures |ss| == |ps| && forall i :: 0 <= i < |ps| ==> ss[i] == ps[i].at
  {
    if ps == [] then [] else [ps[0].at] + Stamps(ps[1..])
  }

  function Sum(xs: seq<real>): real
  {
    if xs == [] then 0.0 else xs[0] + Sum(xs[1..])
  }

  /** `np.mean` on a non-empty list. */
  function Mean(xs: seq<real>): (r: real)
    requires xs != []
    ensures r * |xs| as real == Sum(xs)
  {
    Sum(xs) / |xs| as real
  }

  /** `min` of a non-empty list. */
  function Min(xs: seq<real>): (m: real)
    requires xs != []
    ensures m in xs
    ensures forall i :: 0 <= i < |xs| ==> m <= xs[i]
  {
    if |xs| == 1 then xs[0]
    else
      var m := Min(xs[1..]);
      assert forall i :: 1 <= i < |xs| ==> xs[i] == xs[1..][i - 1];
      if xs[0] <= m then xs[0] else m
  }

  /** `max` of a non-empty list. */
  function Max(xs: seq<real>): (m: real)
    requires xs != []
    ensures m in xs
    ensures forall i :: 0 <= i < |xs| ==> xs[i] <= m
  {
    if |xs| == 1 then xs[0]
    else
      var m := Max(xs[1..]);
      assert forall i :: 1 <= i < |xs| ==> xs[i] == xs[1..][i - 1];
      if xs[0] >= m then xs[0] else m
  }

  lemma {:induction false} SumBounds(xs: seq<real>, lo: real, hi: real)
    requires forall i :: 0 <= i < |xs| ==> lo <= xs[i] <= hi
    ensures |xs| as real * lo <= Sum(xs) <= |xs| as real * hi
  {
    if xs != [] {
      assert forall i :: 0 <= i < |xs[1..]| ==> xs[1..][i] == xs[i + 1];
      SumBounds(xs[1..], lo, hi);
      assert |xs| as real * lo == lo + |xs[1..]| as real * lo;
      assert |xs| as real * hi == hi + |xs[1..]| as real * hi;
    }
  }

  /** The mean lies between the minimum and the maximum. */
  lemma MeanBetweenMinAndMax(xs: seq<real>)
    requires xs != []
    ensures Min(xs) <= Mean(xs) <= Max(xs)
  {
    MeanBounds(xs, Min(xs), Max(xs));
  }

  /** Bounds on every element bound the mean. */
  lemma MeanBounds(xs: seq<real>, lo: real, hi: real)
    requires xs != []
    requires forall i :: 0 <= i < |xs| ==> lo <= xs[i] <= hi
    ensures lo <= Mean(xs) <= hi
  {
    SumBounds(xs, lo, hi);
    QuotientBounds(Sum(xs), |xs| as real, lo, hi);
  }

  lemma QuotientBounds(total: real, n: real, lo: real, hi: real)
    requires n > 0.0 && n * lo <= total <= n * hi
    ensures lo <= total / n <= hi
  {
    assert total / n - lo == (total - n * lo) / n;
    assert hi - total / n == (n * hi - total) / n;
  }

  /** The mean of equal values is that value. */
  lemma MeanOfConstant(xs: seq<real>, v: real)
    requires xs != []
    requires forall i :: 0 <= i < |xs| ==> xs[i] == v
    ensures Mean(xs) == v
  {
    MeanBounds(xs, v, v);
  }
}
