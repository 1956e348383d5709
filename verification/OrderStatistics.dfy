/** Sorting, percentiles and the overall latency figures. Floats are exact reals. */
module OrderStatistics {
  import opened Wrappers

  predicate Sorted(s: seq<real>) {
    forall i, j :: 0 <= i < j < |s| ==> s[i] <= s[j]
  }

  lemma SortedCons(x: real, s: seq<real>)
    requires Sorted(s) && (s == [] || x <= s[0])
    ensures Sorted([x] + s)
  {
    var r := [x] + s;
    forall i, j | 0 <= i < j < |r| ensures r[i] <= r[j] {
      assert r[j] == s[j - 1];
      if i > 0 { assert r[i] == s[i - 1]; }
    }
  }

  function Insert(x: real, s: seq<real>): (r: seq<real>)
    requires Sorted(s)
    ensures Sorted(r) && multiset(r) == multiset(s) + multiset{x}
    ensures r != [] && r[0] == if s == [] || x <= s[0] then x else s[0]
  {
    if s == [] || x <= s[0] then SortedCons(x, s); [x] + s
    else
      assert s == [s[0]] + s[1..];
      var t := Insert(x, s[1..]);
      SortedCons(s[0], t);
      [s[0]] + t
  }

  /** `slice::sort_by` on finite floats. Only its contract is used elsewhere. */
  function Sort(s: seq<real>): (r: seq<real>)
    ensures Sorted(r) && multiset(r) == multiset(s) && |r| == |s|
  {
    if s == [] then []
    else
      assert s == [s[0]] + s[1..];
      var r := Insert(s[0], Sort(s[1..]));
      assert |multiset(r)| == |multiset(s)|;
      r
  }

  lemma SameMembers(a: seq<real>, b: seq<real>, x: real)
    requires multiset(a) == multiset(b)
    ensures x in a <==> x in b
  {
    assert x in a <==> x in multiset(a);
    assert x in b <==> x in multiset(b);
  }

  lemma BetweenExtremes(a: seq<real>, x: real)
    requires Sorted(a) && x in a
    ensures a[0] <= x <= a[|a| - 1]
  {
  }

  lemma SameHead(a: seq<real>, b: seq<real>)
    requires Sorted(a) && Sorted(b) && a != [] && b != [] && multiset(a) == multiset(b)
    ensures a[0] == b[0]
  {
    SameMembers(a, b, a[0]);
    SameMembers(a, b, b[0]);
    BetweenExtremes(b, a[0]);
    BetweenExtremes(a, b[0]);
  }

  lemma SameTail(a: seq<real>, b: seq<real>)
    requires a != [] && b != [] && a[0] == b[0] && multiset(a) == multiset(b)
    ensures multiset(a[1..]) == multiset(b[1..])
  {
    assert a == [a[0]] + a[1..] && b == [b[0]] + b[1..];
    assert multiset(a[1..]) == multiset(a) - multiset{a[0]};
    assert multiset(b[1..]) == multiset(b) - multiset{b[0]};
  }

  lemma {:induction false} SortedUnique(a: seq<real>, b: seq<real>)
    requires Sorted(a) && Sorted(b) && multiset(a) == multiset(b)
    ensures a == b
  {
    assert |multiset(a)| == |multiset(b)|;
    if a != [] {
      SameHead(a, b);
      SameTail(a, b);
      SortedUnique(a[1..], b[1..]);
      assert a == [a[0]] + a[1..] && b == [b[0]] + b[1..];
    }
  }

  /** Any two listings of the same values sort to the same sequence. */
  lemma SortCanonical(a: seq<real>, b: seq<real>)
    requires multiset(a) == multiset(b)
    ensures Sort(a) == Sort(b)
  {
    SortedUnique(Sort(a), Sort(b));
  }

  // ----- percentile -----

  lemma ScaleMonotone(x: real, y: real, m: real)
    requires x <= y && m >= 0.0
    ensures x * m <= y * m
  {
    assert (y - x) * m >= 0.0;
  }

  lemma QuotientIs(a: real, t: real, q: real)
    requires t > 0.0 && q * t == a
    ensures a / t == q
  {
  }

  lemma QuotientSum(a: real, b: real, t: real)
    requires t > 0.0
    ensures (a + b) / t == a / t + b / t
  {
  }

  /** `k` added up `n` times. */
  function Times(n: nat, k: nat): nat {
    if n == 0 then 0 else Times(n - 1, k) + k
  }

  lemma {:induction false} TimesIsProduct(n: nat, k: nat)
    ensures Times(n, k) == n * k
  {
    if n > 0 {
      TimesIsProduct(n - 1, k);
      assert n * k == (n - 1) * k + k;
    }
  }

  /** `f64::round`: nearest integer, halves away from zero. */
  function Round(x: real): int {
    if x >= 0.0 then (x + 0.5).Floor else -((0.5 - x).Floor)
  }

  /** The index `percentile` reads; the cast to `usize` saturates at zero. */
  function PercentileIndex(n: nat, p: real): nat
    requires n > 0
  {
    var r := Round(p * Span(n));
    if r < 0 then 0 else r
  }

  /** The distance between the first and the last of `n` elements. */
  function Span(n: nat): (r: real)
    requires n > 0
    ensures r >= 0.0 && r.Floor == n - 1 && r == r.Floor as real
  {
    (n - 1) as real
  }

  function Percentile(sorted: seq<real>, p: real): real
    requires sorted != [] ==> PercentileIndex(|sorted|, p) < |sorted|
  {
    if sorted == [] then 0.0 else sorted[PercentileIndex(|sorted|, p)]
  }

  /** The access is in bounds exactly for `p` below this threshold; 1 is below it for every length. */
  lemma PercentileIndexInRange(n: nat, p: real)
    requires n > 0
    ensures PercentileIndex(n, p) < n <==> p * Span(n) < n as real - 0.5
    ensures p <= 1.0 ==> PercentileIndex(n, p) < n
  {
    RoundBelow(p * Span(n), n);
    if p <= 1.0 {
      ScaleMonotone(p, 1.0, Span(n));
    }
  }

  lemma RoundBelow(x: real, n: nat)
    requires n > 0
    ensures Round(x) < n <==> x < n as real - 0.5
  {
  }

  lemma RoundNearest(x: real)
    requires x >= 0.0
    ensures Round(x) >= 0 && -0.5 < Round(x) as real - x <= 0.5
  {
  }

  lemma ScaleNotNegative(x: real, m: real)
    requires x >= 0.0 && m >= 0.0
    ensures x * m >= 0.0
  {
  }

  lemma PercentileIndexNearest(n: nat, p: real)
    requires n > 0 && 0.0 <= p <= 1.0
    ensures PercentileIndex(n, p) < n
    ensures -0.5 < PercentileIndex(n, p) as real - p * Span(n) <= 0.5
  {
    PercentileIndexInRange(n, p);
    ScaleNotNegative(p, Span(n));
    RoundNearest(p * Span(n));
  }

  lemma RoundMonotone(x: real, y: real)
    requires x <= y
    ensures Round(x) <= Round(y)
  {
  }

  lemma PercentileMonotone(sorted: seq<real>, p: real, q: real)
    requires sorted != [] && Sorted(sorted) && p <= q <= 1.0
    ensures PercentileIndex(|sorted|, p) <= PercentileIndex(|sorted|, q) < |sorted|
    ensures Percentile(sorted, p) <= Percentile(sorted, q)
  {
    PercentileIndexInRange(|sorted|, q);
    ScaleMonotone(p, q, Span(|sorted|));
    RoundMonotone(p * Span(|sorted|), q * Span(|sorted|));
  }

  function At(sorted: seq<real>, p: real): real
    requires p <= 1.0
  {
    if sorted != [] then PercentileIndexInRange(|sorted|, p); Percentile(sorted, p) else 0.0
  }

  function CountAtMost(s: seq<real>, v: real): nat {
    if s == [] then 0 else (if s[0] <= v then 1 else 0) + CountAtMost(s[1..], v)
  }

  function CountAtLeast(s: seq<real>, v: real): nat {
    if s == [] then 0 else (if s[0] >= v then 1 else 0) + CountAtLeast(s[1..], v)
  }

  lemma {:induction false} CountsOfInsert(x: real, s: seq<real>, v: real)
    requires Sorted(s)
    ensures CountAtMost(Insert(x, s), v) == CountAtMost([x] + s, v)
    ensures CountAtLeast(Insert(x, s), v) == CountAtLeast([x] + s, v)
  {
    assert ([x] + s)[1..] == s;
    if s != [] && x > s[0] {
      CountsOfInsert(x, s[1..], v);
      assert ([x] + s[1..])[1..] == s[1..];
      assert ([s[0]] + Insert(x, s[1..]))[1..] == Insert(x, s[1..]);
    }
  }

  lemma {:induction false} CountsOfSort(s: seq<real>, v: real)
    ensures CountAtMost(Sort(s), v) == CountAtMost(s, v)
    ensures CountAtLeast(Sort(s), v) == CountAtLeast(s, v)
  {
    if s != [] {
      CountsOfSort(s[1..], v);
      CountsOfInsert(s[0], Sort(s[1..]), v);
      assert ([s[0]] + Sort(s[1..]))[1..] == Sort(s[1..]);
    }
  }

  lemma {:induction false} CountsInSorted(s: seq<real>, k: nat, v: real)
    requires Sorted(s) && k <= |s|
    ensures (k > 0 ==> s[k - 1] <= v) ==> CountAtMost(s, v) >= k
    ensures (k < |s| ==> s[k] >= v) ==> CountAtLeast(s, v) >= |s| - k
  {
    if s != [] {
      CountsInSorted(s[1..], if k > 0 then k - 1 else 0, v);
    }
  }

  lemma {:induction false} CountsAppend(s: seq<real>, x: real, v: real)
    ensures CountAtMost(s + [x], v) == CountAtMost(s, v) + if x <= v then 1 else 0
    ensures CountAtLeast(s + [x], v) == CountAtLeast(s, v) + if x >= v then 1 else 0
  {
    if s == [] {
      assert s + [x] == [x];
    } else {
      assert (s + [x])[1..] == s[1..] + [x];
      CountsAppend(s[1..], x, v);
    }
  }

  function AtMost(s: seq<real>, v: real): set<nat> {
    set i: nat | i < |s| && s[i] <= v
  }

  function AtLeast(s: seq<real>, v: real): set<nat> {
    set i: nat | i < |s| && s[i] >= v
  }

  lemma OneMoreIndex(before: set<nat>, after: set<nat>, n: nat, joins: bool)
    requires n !in before && after == before + if joins then {n} else {}
    ensures |after| == |before| + if joins then 1 else 0
  {
  }

  lemma AtMostStep(s: seq<real>, x: real, v: real)
    ensures |AtMost(s + [x], v)| == |AtMost(s, v)| + if x <= v then 1 else 0
  {
    OneMoreIndex(AtMost(s, v), AtMost(s + [x], v), |s|, x <= v);
  }

  lemma AtLeastStep(s: seq<real>, x: real, v: real)
    ensures |AtLeast(s + [x], v)| == |AtLeast(s, v)| + if x >= v then 1 else 0
  {
    OneMoreIndex(AtLeast(s, v), AtLeast(s + [x], v), |s|, x >= v);
  }

  lemma {:induction false} CountsMean(s: seq<real>, v: real)
    ensures CountAtMost(s, v) == |AtMost(s, v)| && CountAtLeast(s, v) == |AtLeast(s, v)|
  {
    if s == [] {
      assert AtMost(s, v) == {} && AtLeast(s, v) == {};
    } else {
      var init, x := s[..|s| - 1], s[|s| - 1];
      assert s == init + [x];
      CountsMean(init, v);
      CountsAppend(init, x, v);
      AtMostStep(init, x, v);
      AtLeastStep(init, x, v);
    }
  }

  /** `k` is the integer nearest to `p` of the way from 0 to `n - 1`, the larger one on a half. */
  predicate NearestIndex(k: int, n: nat, p: real) {
    k as real - 0.5 <= p * (n - 1) as real < k as real + 0.5
  }

  /** `v` is one of the data: at least `k + 1` of them are at most `v`, and at least `|data| - k` are at least `v`. */
  predicate HasRank(v: real, data: seq<real>, k: nat) {
    && k < |data| && v in data
    && |AtMost(data, v)| >= k + 1 && |AtLeast(data, v)| >= |data| - k
  }

  ghost predicate IsPercentile(v: real, data: seq<real>, p: real) {
    exists k: nat :: NearestIndex(k, |data|, p) && HasRank(v, data, k)
  }

  /** Rank and data leave one value only. */
  lemma RankUnique(v: real, w: real, data: seq<real>, k: nat)
    requires HasRank(v, data, k) && HasRank(w, data, k)
    ensures v == w
  {
    if v < w {
      RankApart(v, w, data, k);
    } else if w < v {
      RankApart(w, v, data, k);
    }
  }

  lemma RankApart(v: real, w: real, data: seq<real>, k: nat)
    requires HasRank(v, data, k) && HasRank(w, data, k)
    ensures w <= v
  {
    if v < w {
      var low, high := AtMost(data, v), AtLeast(data, w);
      assert low !! high;
      assert |low + high| == |low| + |high|;
      IndicesBounded(low + high, |data|);
    }
  }

  lemma {:induction false} IndicesBounded(s: set<nat>, n: nat)
    requires forall i :: i in s ==> i < n
    ensures |s| <= n
  {
    if n > 0 {
      IndicesBounded(s - {n - 1}, n - 1);
    } else {
      assert s == {};
    }
  }

  /** The figure `percentile` reports for unsorted data is one of the data, and its rank is right. */
  lemma PercentileRank(data: seq<real>, p: real)
    requires data != [] && 0.0 <= p <= 1.0
    ensures PercentileIndex(|data|, p) < |data|
    ensures Percentile(Sort(data), p) in data
    ensures CountAtMost(data, Percentile(Sort(data), p)) >= PercentileIndex(|data|, p) + 1
    ensures CountAtLeast(data, Percentile(Sort(data), p)) >= |data| - PercentileIndex(|data|, p)
  {
    PercentileIndexInRange(|data|, p);
    var s, i := Sort(data), PercentileIndex(|data|, p);
    CountsInSorted(s, i + 1, s[i]);
    CountsInSorted(s, i, s[i]);
    CountsOfSort(data, s[i]);
    assert s[i] in multiset(s);
  }

  lemma IndexIsNearest(n: nat, p: real)
    requires n > 0 && 0.0 <= p <= 1.0
    ensures NearestIndex(PercentileIndex(n, p), n, p)
  {
    PercentileIndexNearest(n, p);
    assert Span(n) == (n - 1) as real;
  }

  lemma RankIsStated(data: seq<real>, p: real)
    requires data != [] && 0.0 <= p <= 1.0
    ensures HasRank(At(Sort(data), p), data, PercentileIndex(|data|, p))
  {
    PercentileRank(data, p);
    CountsMean(data, Percentile(Sort(data), p));
  }

  /** The figure `percentile` reports for unsorted data has the rank nearest to the fraction. */
  lemma PercentileMeans(data: seq<real>, p: real)
    requires data != [] && 0.0 <= p <= 1.0
    ensures IsPercentile(At(Sort(data), p), data, p)
  {
    IndexIsNearest(|data|, p);
    RankIsStated(data, p);
  }

  // ----- overall figures -----

  datatype Overall = Overall(
    minMs: Option<real>, maxMs: Option<real>, avgMs: Option<real>,
    p50: Option<real>, p90: Option<real>, p95: Option<real>, p99: Option<real>)

  function Sum(s: seq<real>): real {
    if s == [] then 0.0 else s[0] + Sum(s[1..])
  }

  function Average(s: seq<real>): real
    requires s != []
  {
    Sum(s) / |s| as real
  }

  function ComputeOverall(latencies: seq<real>): Overall {
    if latencies == [] then Overall(None, None, None, None, None, None, None)
    else
      var s := Sort(latencies);
      Overall(Some(s[0]), Some(s[|s| - 1]), Some(Average(s)),
              Some(At(s, 0.50)), Some(At(s, 0.90)), Some(At(s, 0.95)), Some(At(s, 0.99)))
  }

  lemma {:induction false} SumBetween(s: seq<real>, lo: real, hi: real)
    requires forall i :: 0 <= i < |s| ==> lo <= s[i] <= hi
    ensures lo * |s| as real <= Sum(s) <= hi * |s| as real
  {
    if s != [] {
      SumBetween(s[1..], lo, hi);
      var m := (|s| - 1) as real;
      assert |s| as real == 1.0 + m;
      assert lo * (1.0 + m) == lo + lo * m;
      assert hi * (1.0 + m) == hi + hi * m;
    }
  }

  lemma AverageBetween(sum: real, n: nat, lo: real, hi: real)
    requires n > 0 && lo * n as real <= sum <= hi * n as real
    ensures lo <= sum / n as real <= hi
  {
    var avg, m := sum / n as real, n as real;
    assert avg * m == sum;
    assert (avg - lo) * m >= 0.0;
    assert (hi - avg) * m >= 0.0;
  }

  lemma ExtremesBound(s: seq<real>, data: seq<real>)
    requires s != [] && Sorted(s) && multiset(s) == multiset(data)
    ensures s[0] in data && s[|s| - 1] in data
    ensures forall x :: x in data ==> s[0] <= x <= s[|s| - 1]
  {
    SameMembers(s, data, s[0]);
    SameMembers(s, data, s[|s| - 1]);
    forall x | x in data ensures s[0] <= x <= s[|s| - 1] {
      SameMembers(s, data, x);
      BetweenExtremes(s, x);
    }
  }

  lemma PercentilesInOrder(s: seq<real>)
    requires s != [] && Sorted(s)
    ensures s[0] <= At(s, 0.50) <= At(s, 0.90) <= At(s, 0.95) <= At(s, 0.99) <= s[|s| - 1]
  {
    PercentileMonotone(s, 0.50, 0.90);
    PercentileMonotone(s, 0.90, 0.95);
    PercentileMonotone(s, 0.95, 0.99);
  }

  lemma AverageInRange(s: seq<real>)
    requires s != [] && Sorted(s)
    ensures s[0] <= Average(s) <= s[|s| - 1]
  {
    SumBetween(s, s[0], s[|s| - 1]);
    AverageBetween(Sum(s), |s|, s[0], s[|s| - 1]);
  }

  lemma {:induction false} SumAppend(a: seq<real>, b: seq<real>)
    ensures Sum(a + b) == Sum(a) + Sum(b)
  {
    if a == [] {
      assert a + b == b;
    } else {
      assert (a + b)[1..] == a[1..] + b;
      SumAppend(a[1..], b);
    }
  }

  lemma SumOfOne(x: real)
    ensures Sum([x]) == x
  {
  }

  lemma MiddleSum(p: seq<real>, x: real, q: seq<real>)
    ensures Sum(p + ([x] + q)) == x + Sum(p + q)
  {
    SumAppend(p, [x] + q);
    SumAppend([x], q);
    SumAppend(p, q);
    SumOfOne(x);
  }

  lemma MiddleBag(p: seq<real>, x: real, q: seq<real>)
    ensures multiset(p + q) == multiset(p + ([x] + q)) - multiset{x}
  {
  }

  lemma SplitAt(b: seq<real>, x: real) returns (p: seq<real>, q: seq<real>)
    requires x in b
    ensures b == p + ([x] + q)
  {
    var i :| 0 <= i < |b| && b[i] == x;
    p, q := b[..i], b[i + 1..];
  }

  lemma WithoutHead(a: seq<real>)
    requires a != []
    ensures multiset(a[1..]) == multiset(a) - multiset{a[0]} && Sum(a) == a[0] + Sum(a[1..])
  {
    assert a == [a[0]] + a[1..];
  }

  /** The sum depends on the values only. */
  lemma {:induction false} SumCanonical(a: seq<real>, b: seq<real>)
    requires multiset(a) == multiset(b)
    ensures Sum(a) == Sum(b)
  {
    if a == [] {
      assert |multiset(a)| == |multiset(b)|;
    } else {
      SameMembers(a, b, a[0]);
      var p, q := SplitAt(b, a[0]);
      WithoutHead(a);
      MiddleSum(p, a[0], q);
      MiddleBag(p, a[0], q);
      SumCanonical(a[1..], p + q);
    }
  }

  lemma QuotientTimes(a: real, t: real)
    requires t > 0.0
    ensures a / t * t == a
  {
  }

  /** `v` is the percentile of the data at `p`, and missing only without data. */
  ghost predicate IsFigure(v: Option<real>, data: seq<real>, p: real) {
    if data == [] then v.None? else v.Some? && IsPercentile(v.value, data, p)
  }

  ghost predicate IsMean(v: Option<real>, data: seq<real>) {
    if data == [] then v.None? else v.Some? && v.value * |data| as real == Sum(data)
  }

  lemma AverageMeans(s: seq<real>)
    requires s != []
    ensures Average(s) * |s| as real == Sum(s)
  {
    QuotientTimes(Sum(s), |s| as real);
  }

  lemma MeanOf(data: seq<real>, s: seq<real>, avg: real)
    requires s != [] && |s| == |data| && multiset(s) == multiset(data) && avg == Average(s)
    ensures IsMean(Some(avg), data)
  {
    SumCanonical(s, data);
    AverageMeans(s);
  }

  /** What each overall figure is: none without data; else the mean, and the values of the stated ranks. */
  lemma OverallFigures(data: seq<real>, o: Overall)
    requires o == ComputeOverall(data)
    ensures IsMean(o.avgMs, data)
    ensures IsFigure(o.p50, data, 0.50) && IsFigure(o.p90, data, 0.90)
    ensures IsFigure(o.p95, data, 0.95) && IsFigure(o.p99, data, 0.99)
    ensures data == [] ==> o.minMs.None? && o.maxMs.None?
  {
    if data != [] {
      MeanOf(data, Sort(data), o.avgMs.value);
      PercentileMeans(data, 0.50);
      PercentileMeans(data, 0.90);
      PercentileMeans(data, 0.95);
      PercentileMeans(data, 0.99);
    }
  }

  /** The extremes are data and bound the data; the average lies between them, the percentiles in order. */
  lemma OverallInOrder(data: seq<real>, o: Overall)
    requires data != [] && o == ComputeOverall(data)
    ensures o.minMs.Some? && o.maxMs.Some? && o.avgMs.Some?
    ensures o.p50.Some? && o.p90.Some? && o.p95.Some? && o.p99.Some?
    ensures o.minMs.value in data && o.maxMs.value in data
    ensures forall x :: x in data ==> o.minMs.value <= x <= o.maxMs.value
    ensures o.minMs.value <= o.avgMs.value <= o.maxMs.value
    ensures o.minMs.value <= o.p50.value <= o.p90.value <= o.p95.value <= o.p99.value <= o.maxMs.value
  {
    var s := Sort(data);
    ExtremesBound(s, data);
    AverageInRange(s);
    PercentilesInOrder(s);
  }

  /** The figures depend on the values only, not on the order they were collected in. */
  lemma OverallCanonical(a: seq<real>, b: seq<real>)
    requires multiset(a) == multiset(b)
    ensures ComputeOverall(a) == ComputeOverall(b)
  {
    SortCanonical(a, b);
    assert |multiset(a)| == |multiset(b)|;
  }
}
