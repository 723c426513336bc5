/** Histogram quantiles: flowviz/aggregate.go (quarter-octave buckets), httpstats/httpstats.go
    and accesslog/aggregate.go (power-of-two buckets).

    The reported value is compared with the exact nearest-rank percentile of the observed
    latencies, which the histogram no longer holds.  Latencies are nanosecond counts of int64.
 */
module Quantiles {

  const MAX_INT64: int := Pow2(63) - 1
  const FLOW_BUCKETS := 256
  const HTTP_BUCKETS := 40
  const ACCESS_BUCKETS := 64

  // ---------------------------------------------------------------- binary lengths

  function Pow2(k: nat): (p: nat)
    ensures p >= 1
  {
    if k == 0 then 1 else 2 * Pow2(k - 1)
  }

  /** bits.Len64 */
  function Len(n: nat): nat {
    if n == 0 then 0 else 1 + Len(n / 2)
  }

  lemma {:induction false} LenBounds(n: nat)
    requires n > 0
    ensures Len(n) >= 1 && Pow2(Len(n) - 1) <= n < Pow2(Len(n))
  {
    if n > 1 {
      LenBounds(n / 2);
    }
  }

  lemma {:induction false} Pow2Monotone(a: nat, b: nat)
    requires a <= b
    ensures Pow2(a) <= Pow2(b)
    decreases b - a
  {
    if a < b {
      Pow2Monotone(a + 1, b);
    }
  }

  lemma LenMonotone(a: nat, b: nat)
    requires a <= b
    ensures Len(a) <= Len(b)
  {
    if a > 0 {
      LenBounds(a);
      LenBounds(b);
      Pow2Order(Len(b), Len(a) - 1);
    }
  }

  lemma Pow2Order(a: nat, b: nat)
    ensures a <= b ==> Pow2(a) <= Pow2(b)
  {
    if a <= b { Pow2Monotone(a, b); }
  }

  lemma LenBelow(n: nat, k: nat)
    requires n < Pow2(k)
    ensures Len(n) <= k
  {
    if n > 0 {
      LenBounds(n);
      Pow2Order(k, Len(n) - 1);
    }
  }

  // ---------------------------------------------------------------- buckets

  /** Which quarter of `[base, 2 * base)` a latency falls into. */
  function SubOf(ns: nat, base: nat): int
    requires base > 0
  {
    (ns - base) * 4 / base
  }

  function FlowIndex(exponent: int, raw: int): (i: nat)
    ensures i < FLOW_BUCKETS
  {
    var sub := if raw > 3 then 3 else raw;
    var index := 1 + exponent * 4 + sub;
    if index >= FLOW_BUCKETS || index < 0 then FLOW_BUCKETS - 1 else index
  }

  /** latencyBucket: four sub-buckets per power of two. */
  function FlowBucket(ns: int): (i: nat)
    ensures i < FLOW_BUCKETS
  {
    if ns <= 0 then 0
    else
      var exponent := Len(ns) - 1;
      FlowIndex(exponent, SubOf(ns, Pow2(exponent)))
  }

  /** latencyBucketUpper */
  function FlowUpper(index: nat): int {
    if index == 0 then 0
    else
      var exponent := (index - 1) / 4;
      var sub := (index - 1) % 4;
      if exponent >= 62 then MAX_INT64
      else Pow2(exponent) + Pow2(exponent) * (sub + 1) / 4
  }

  /** bucketFor of httpstats, over 40 buckets, and durationBucket of accesslog, over 64. */
  function Log2Bucket(ns: nat, size: nat): (i: nat)
    requires size >= 2
    ensures i < size
  {
    var b := Len(ns);
    if b >= size then size - 1 else b
  }

  lemma DivIs(d: nat, base: nat, k: nat)
    requires base > 0 && base * k <= d < base * k + base
    ensures d / base == k
  {
    var q := d / base;
    assert d == base * q + d % base;
    if q < k { MulMonotone(base, q + 1, k); }
    if q > k { MulMonotone(base, k + 1, q); }
  }

  lemma MulMonotone(a: nat, x: int, y: int)
    requires x <= y
    ensures a * x <= a * y
  {
  }

  /** The sub-bucket of a positive latency, bracketed by quarters of its power of two. */
  lemma SubBucket(ns: nat, base: nat)
    requires 0 < base <= ns < 2 * base
    ensures var sub := SubOf(ns, base);
            && 0 <= sub <= 3
            && 4 * base + base * sub <= 4 * ns < 4 * base + base * sub + base
  {
    var d := (ns - base) * 4;
    var k := if d < base then 0 else if d < 2 * base then 1 else if d < 3 * base then 2 else 3;
    DivIs(d, base, k);
  }

  lemma FlowIndexIs(e: nat, sub: nat)
    requires e <= 62 && sub <= 3
    ensures FlowIndex(e, sub) == 1 + 4 * e + sub
  {
  }

  lemma FlowBucketIs(ns: nat)
    requires 0 < ns <= MAX_INT64
    ensures var e := Len(ns) - 1; var base := Pow2(e); var sub := SubOf(ns, base);
            && 0 <= e <= 62 && base <= ns < 2 * base && 0 <= sub <= 3
            && FlowBucket(ns) == 1 + 4 * e + sub
  {
    hide *;
    LenBounds(ns);
    Int64Length(ns);
    var e := Len(ns) - 1;
    NextPower(e);
    SubBucket(ns, Pow2(e));
    FlowIndexIs(e, SubOf(ns, Pow2(e)));
    FlowUnfolds(ns);
  }

  lemma Int64Length(ns: nat)
    requires ns <= MAX_INT64
    ensures Len(ns) <= 63
  {
    LenBelow(ns, 63);
  }

  lemma NextPower(e: nat)
    ensures Pow2(e + 1) == 2 * Pow2(e)
  {
  }

  lemma FlowUnfolds(ns: nat)
    requires ns > 0 && Len(ns) >= 1
    ensures FlowBucket(ns) == FlowIndex(Len(ns) - 1, SubOf(ns, Pow2(Len(ns) - 1)))
  {
    hide SubOf, FlowIndex, Pow2;
  }

  lemma SubOrder(a: nat, b: nat, base: nat, sa: int, sb: int)
    requires a <= b && base > 0
    requires 4 * base + base * sa <= 4 * a && 4 * b < 4 * base + base * sb + base
    ensures sa <= sb
  {
    if sb < sa { MulMonotone(base, sb + 1, sa); }
  }

  lemma SubMonotone(a: nat, b: nat, base: nat)
    requires 0 < base <= a <= b < 2 * base
    ensures SubOf(a, base) <= SubOf(b, base)
  {
    SubBucket(a, base);
    SubBucket(b, base);
    hide SubOf;
    SubOrder(a, b, base, SubOf(a, base), SubOf(b, base));
  }

  lemma ZeroBucket()
    ensures FlowBucket(0) == 0
  {
  }

  lemma FlowBucketMonotone(a: nat, b: nat)
    requires a <= b <= MAX_INT64
    ensures FlowBucket(a) <= FlowBucket(b)
  {
    hide *;
    if a == 0 {
      ZeroBucket();
    } else {
      FlowBucketIs(a);
      FlowBucketIs(b);
      LenMonotone(a, b);
      var ea, eb := Len(a) - 1, Len(b) - 1;
      if ea == eb {
        SubMonotone(a, b, Pow2(ea));
      } else {
        assert 4 * ea + 4 <= 4 * eb;
      }
    }
  }

  /** The bucket's upper edge is never below a member, nor more than a quarter above it. */
  lemma FlowUpperBounds(x: nat)
    requires x <= MAX_INT64
    ensures x <= FlowUpper(FlowBucket(x))
    ensures x < Pow2(62) ==> 4 * FlowUpper(FlowBucket(x)) <= 5 * x
  {
    if x > 0 {
      FlowBucketIs(x);
      var e := Len(x) - 1;
      var base := Pow2(e);
      var sub := SubOf(x, base);
      SubBucket(x, base);
        hide Pow2, Len, SubOf, FlowBucket;
      assert (4 * e + sub) / 4 == e && (4 * e + sub) % 4 == sub;
      if x < Pow2(62) {
        LenBelow(x, 62);
      }
      if e < 62 {
        QuarterEdge(x, base, sub, e);
      }
    }
  }

  lemma QuarterEdge(x: nat, base: nat, sub: int, e: nat)
    requires base == Pow2(e) && 0 <= sub <= 3
    requires 4 * base + base * sub <= 4 * x < 4 * base + base * sub + base
    ensures x <= base + base * (sub + 1) / 4 && 4 * (base + base * (sub + 1) / 4) <= 5 * x
  {
    var q := base * (sub + 1) / 4;
    assert sub == 0 || sub == 1 || sub == 2 || sub == 3;
  }

  lemma Log2Bounds(x: nat, size: nat)
    requires size >= 2
    ensures var i := Log2Bucket(x, size);
            && (i == 0 <==> x == 0)
            && (0 < i < size - 1 ==> Pow2(i - 1) <= x < Pow2(i) <= 2 * x)
            && (i == size - 1 <==> x >= Pow2(size - 2))
  {
    Pow2Order(0, size - 2);
    if x > 0 {
      LenBounds(x);
      Pow2Order(Len(x), size - 2);
      Pow2Order(size - 2, Len(x) - 1);
    }
  }

  lemma Log2Monotone(a: nat, b: nat, size: nat)
    requires a <= b && size >= 2
    ensures Log2Bucket(a, size) <= Log2Bucket(b, size)
  {
    LenMonotone(a, b);
  }

  // ---------------------------------------------------------------- exact percentile

  function CountLess(xs: seq<int>, x: int): nat {
    if xs == [] then 0 else CountLess(xs[..|xs| - 1], x) + if xs[|xs| - 1] < x then 1 else 0
  }

  function CountAtMost(xs: seq<int>, x: int): nat {
    if xs == [] then 0 else CountAtMost(xs[..|xs| - 1], x) + if xs[|xs| - 1] <= x then 1 else 0
  }

  /** `x` is the `rank`-th smallest of the observations. */
  ghost predicate NearestRank(xs: seq<int>, rank: nat, x: int) {
    x in xs && CountLess(xs, x) < rank <= CountAtMost(xs, x)
  }

  /** ceil(percentile * n / 100) */
  function Rank(n: nat, percentile: nat): nat {
    (n * percentile + 99) / 100
  }

  /** The two ways the source computes the 95th percentile's rank are one. */
  lemma RankFormulasAgree(n: nat)
    ensures Rank(n, 95) == n - n / 20
  {
    var q, r := n / 20, n % 20;
    assert n * 95 + 99 == 100 * (19 * q) + (95 * r + 99);
  }

  lemma RankInRange(n: nat, percentile: nat)
    requires n > 0 && 1 <= percentile <= 100
    ensures 1 <= Rank(n, percentile) <= n
  {
    assert 1 * 1 <= n * percentile <= n * 100;
  }

  lemma {:induction false} CountsDiffer(xs: seq<int>, a: int, b: int)
    requires a < b
    ensures CountAtMost(xs, a) <= CountLess(xs, b)
  {
    if xs != [] {
      CountsDiffer(xs[..|xs| - 1], a, b);
    }
  }

  lemma NearestRankUnique(xs: seq<int>, rank: nat, a: int, b: int)
    requires NearestRank(xs, rank, a) && NearestRank(xs, rank, b)
    ensures a == b
  {
    if a < b { CountsDiffer(xs, a, b); }
    if b < a { CountsDiffer(xs, b, a); }
  }

  lemma {:induction false} CountLessOf(xs: seq<int>, m: int)
    requires forall i :: 0 <= i < |xs| ==> xs[i] >= m
    ensures CountLess(xs, m) == 0
  {
    if xs != [] { CountLessOf(xs[..|xs| - 1], m); }
  }

  /** The largest observation below a bound leaves a gap: nothing lies between it and the bound. */
  lemma {:induction false} Predecessor(xs: seq<int>, b: int) returns (m: int)
    requires CountLess(xs, b) > 0
    ensures m in xs && m < b && CountAtMost(xs, m) == CountLess(xs, b)
  {
    var front, last := xs[..|xs| - 1], xs[|xs| - 1];
    if CountLess(front, b) == 0 {
      m := last;
      NoneBelow(front, b, m);
    } else {
      m := Predecessor(front, b);
      if m < last < b {
        Raise(front, m, last, b);
        m := last;
      }
    }
  }

  lemma {:induction false} NoneBelow(xs: seq<int>, b: int, m: int)
    requires CountLess(xs, b) == 0 && m < b
    ensures CountAtMost(xs, m) == 0
  {
    CountsDiffer(xs, m, b);
  }

  lemma {:induction false} Raise(xs: seq<int>, m: int, m': int, b: int)
    requires m <= m' < b && CountAtMost(xs, m) == CountLess(xs, b)
    ensures CountAtMost(xs, m') == CountLess(xs, b)
  {
    CountsDiffer(xs, m', b);
    CountGrows(xs, m, m');
  }

  lemma {:induction false} CountGrows(xs: seq<int>, m: int, m': int)
    requires m <= m'
    ensures CountAtMost(xs, m) <= CountAtMost(xs, m')
  {
    if xs != [] { CountGrows(xs[..|xs| - 1], m, m'); }
  }

  lemma {:induction false} AllAtMost(xs: seq<int>, m: int)
    requires forall i :: 0 <= i < |xs| ==> xs[i] < m
    ensures CountLess(xs, m) == |xs|
  {
    if xs != [] { AllAtMost(xs[..|xs| - 1], m); }
  }

  /** Every rank of a nonempty sample is attained. */
  lemma {:induction false} RankFrom(xs: seq<int>, rank: nat, b: int) returns (x: int)
    requires 1 <= rank <= CountLess(xs, b)
    ensures NearestRank(xs, rank, x)
    decreases CountLess(xs, b)
  {
    x := Predecessor(xs, b);
    CountLessDrops(xs, x);
    if rank <= CountLess(xs, x) {
      x := RankFrom(xs, rank, x);
    }
  }

  lemma {:induction false} CountLessDrops(xs: seq<int>, x: int)
    requires x in xs
    ensures CountLess(xs, x) < CountAtMost(xs, x)
  {
    var front := xs[..|xs| - 1];
    LessIsAtMost(front, x);
    if xs[|xs| - 1] != x {
      assert x in front;
      CountLessDrops(front, x);
    }
  }

  lemma {:induction false} LessIsAtMost(xs: seq<int>, x: int)
    ensures CountLess(xs, x) <= CountAtMost(xs, x)
  {
    if xs != [] { LessIsAtMost(xs[..|xs| - 1], x); }
  }

  // ---------------------------------------------------------------- histograms

  /** A histogram as the source keeps it: bucket counts, the number of samples, the largest. */
  datatype Histogram = Histogram(buckets: seq<nat>, n: nat, max: nat)

  function NoBuckets(size: nat): (b: seq<nat>)
    ensures |b| == size && forall i :: 0 <= i < size ==> b[i] == 0
  {
    seq(size, _ => 0)
  }

  function EmptyHistogram(size: nat): Histogram {
    Histogram(NoBuckets(size), 0, 0)
  }

  function CountAt(xs: seq<int>, f: int -> nat, i: nat): nat {
    if xs == [] then 0 else CountAt(xs[..|xs| - 1], f, i) + if f(xs[|xs| - 1]) == i then 1 else 0
  }

  function CountUnder(xs: seq<int>, f: int -> nat, i: nat): nat {
    if xs == [] then 0 else CountUnder(xs[..|xs| - 1], f, i) + if f(xs[|xs| - 1]) < i then 1 else 0
  }

  ghost predicate Latencies(xs: seq<int>) {
    forall i :: 0 <= i < |xs| ==> 0 <= xs[i] <= MAX_INT64
  }

  /** The histogram is what recording `xs`, in any order, produces. */
  ghost predicate Describes(h: Histogram, xs: seq<int>, f: int -> nat) {
    && h.n == |xs|
    && (forall i :: 0 <= i < |h.buckets| ==> h.buckets[i] == CountAt(xs, f, i))
    && (forall i :: 0 <= i < |xs| ==> xs[i] <= h.max)
    && (h.max == 0 || h.max in xs)
  }

  function Record(h: Histogram, f: int -> nat, ns: int): Histogram
    requires f(ns) < |h.buckets|
  {
    Histogram(h.buckets[f(ns) := h.buckets[f(ns)] + 1], h.n + 1, if ns > h.max then ns else h.max)
  }

  lemma RecordDescribes(h: Histogram, xs: seq<int>, f: int -> nat, ns: int)
    requires Describes(h, xs, f) && f(ns) < |h.buckets|
    ensures Describes(Record(h, f, ns), xs + [ns], f)
  {
    var h' := Record(h, f, ns);
    var ys := xs + [ns];
    assert ys[..|xs|] == xs;
    assert forall i :: 0 <= i < |h'.buckets| ==> h'.buckets[i] == CountAt(ys, f, i);
    assert h'.max == 0 || h'.max in ys by {
      if ns <= h.max && h.max != 0 {
        var k :| 0 <= k < |xs| && xs[k] == h.max;
        assert ys[k] == h.max;
      } else {
        assert ys[|xs|] == ns;
      }
    }
  }

  function Prefix(buckets: seq<nat>, i: nat): nat
    requires i <= |buckets|
  {
    if i == 0 then 0 else Prefix(buckets, i - 1) + buckets[i - 1]
  }

  lemma {:induction false} CountUnderStep(xs: seq<int>, f: int -> nat, i: nat)
    ensures CountUnder(xs, f, i + 1) == CountUnder(xs, f, i) + CountAt(xs, f, i)
    ensures CountUnder(xs, f, 0) == 0
  {
    if xs != [] { CountUnderStep(xs[..|xs| - 1], f, i); }
  }

  lemma {:induction false} PrefixCounts(h: Histogram, xs: seq<int>, f: int -> nat, i: nat)
    requires Describes(h, xs, f) && i <= |h.buckets|
    ensures Prefix(h.buckets, i) == CountUnder(xs, f, i)
  {
    CountUnderStep(xs, f, 0);
    if i > 0 {
      PrefixCounts(h, xs, f, i - 1);
      CountUnderStep(xs, f, i - 1);
    }
  }

  ghost predicate MonotoneOn(f: int -> nat, xs: seq<int>) {
    forall i, j :: 0 <= i < |xs| && 0 <= j < |xs| && xs[i] <= xs[j] ==> f(xs[i]) <= f(xs[j])
  }

  lemma {:induction false} BucketBrackets(xs: seq<int>, f: int -> nat, x: int)
    requires forall i :: 0 <= i < |xs| ==> (xs[i] <= x ==> f(xs[i]) <= f(x)) && (x <= xs[i] ==> f(x) <= f(xs[i]))
    ensures CountUnder(xs, f, f(x)) <= CountLess(xs, x)
    ensures CountAtMost(xs, x) <= CountUnder(xs, f, f(x) + 1)
  {
    if xs != [] { BucketBrackets(xs[..|xs| - 1], f, x); }
  }

  /** The first bucket at which the running count reaches the rank is the exact percentile's. */
  lemma RankBucket(h: Histogram, xs: seq<int>, f: int -> nat, rank: nat, x: int)
    requires Describes(h, xs, f) && MonotoneOn(f, xs) && NearestRank(xs, rank, x) && f(x) < |h.buckets|
    ensures Prefix(h.buckets, f(x)) < rank <= Prefix(h.buckets, f(x) + 1)
    ensures h.buckets[f(x)] > 0
  {
    BucketBrackets(xs, f, x);
    PrefixCounts(h, xs, f, f(x));
    PrefixCounts(h, xs, f, f(x) + 1);
  }

  lemma {:induction false} PrefixMonotone(buckets: seq<nat>, i: nat, j: nat)
    requires i <= j <= |buckets|
    ensures Prefix(buckets, i) <= Prefix(buckets, j)
    decreases j
  {
    if i < j { PrefixMonotone(buckets, i, j - 1); }
  }

  function FlowF(): int -> nat {
    (ns: int) => FlowBucket(ns)
  }

  /** A negative duration would be a huge unsigned one. */
  function Log2F(size: nat): int -> nat
    requires size >= 2
  {
    (ns: int) => if ns < 0 then size - 1 else Log2Bucket(ns, size)
  }

  lemma FlowMonotoneOn(xs: seq<int>)
    requires Latencies(xs)
    ensures MonotoneOn(FlowF(), xs)
  {
    forall i, j | 0 <= i < |xs| && 0 <= j < |xs| && xs[i] <= xs[j] ensures FlowF()(xs[i]) <= FlowF()(xs[j]) {
      FlowBucketMonotone(xs[i], xs[j]);
    }
  }

  lemma Log2MonotoneOn(xs: seq<int>, size: nat)
    requires Latencies(xs) && size >= 2
    ensures MonotoneOn(Log2F(size), xs)
  {
    forall i, j | 0 <= i < |xs| && 0 <= j < |xs| && xs[i] <= xs[j] ensures Log2F(size)(xs[i]) <= Log2F(size)(xs[j]) {
      Log2Monotone(xs[i], xs[j], size);
    }
  }

  // ---------------------------------------------------------------- the reported percentile

  /** The first occupied bucket from `i` on at which the running count reaches `target`, or the
      number of buckets. */
  function Scan(buckets: seq<nat>, target: nat, i: nat): (r: nat)
    requires i <= |buckets|
    ensures i <= r <= |buckets|
    decreases |buckets| - i
  {
    if i == |buckets| then i
    else if buckets[i] > 0 && Prefix(buckets, i + 1) >= target then i
    else Scan(buckets, target, i + 1)
  }

  lemma {:induction false} ScanFinds(buckets: seq<nat>, target: nat, i: nat, at: nat)
    requires i <= at < |buckets| && Prefix(buckets, at) < target <= Prefix(buckets, at + 1) && buckets[at] > 0
    ensures Scan(buckets, target, i) == at
    decreases at - i
  {
    if i < at {
      PrefixMonotone(buckets, i + 1, at);
      ScanFinds(buckets, target, i + 1, at);
    }
  }

  /** The loop shared by the source's percentile functions. */
  method ScanBuckets(buckets: seq<nat>, target: nat) returns (index: nat)
    ensures index == Scan(buckets, target, 0)
  {
    var seen: nat := 0;
    for i := 0 to |buckets|
      invariant seen == Prefix(buckets, i) && Scan(buckets, target, 0) == Scan(buckets, target, i)
    {
      seen := seen + buckets[i];
      if buckets[i] > 0 && seen >= target {
        return i;
      }
    }
    return |buckets|;
  }

  /** stepPercentile */
  function FlowPercentile(h: Histogram, percentile: nat): int {
    if h.n == 0 then 0
    else
      var i := Scan(h.buckets, Rank(h.n, percentile), 0);
      if i == |h.buckets| || FlowUpper(i) > h.max then h.max else FlowUpper(i)
  }

  method StepPercentile(h: Histogram, percentile: nat) returns (q: int)
    ensures q == FlowPercentile(h, percentile)
  {
    if h.n == 0 { return 0; }
    var i := ScanBuckets(h.buckets, (h.n * percentile + 99) / 100);
    if i == |h.buckets| { return h.max; }
    var upper := FlowUpper(i);
    q := if upper > h.max then h.max else upper;
  }

  /** What the source reports for the bucket its scan stops at. */
  function Log2Value(h: Histogram, i: nat): int {
    if i == 0 then 0 else if i >= |h.buckets| - 1 then h.max else Pow2(i)
  }

  function Log2Percentile95(h: Histogram): int {
    if h.n == 0 then 0 else Log2Value(h, Scan(h.buckets, Rank(h.n, 95), 0))
  }

  /** p95 of httpstats, which writes the rank as n - n/20. */
  method HttpPercentile95(h: Histogram) returns (q: int)
    requires |h.buckets| == HTTP_BUCKETS
    ensures q == Log2Percentile95(h)
  {
    if h.n == 0 { return 0; }
    RankFormulasAgree(h.n);
    var i := ScanBuckets(h.buckets, h.n - h.n / 20);
    q := if i == 0 then 0 else if i >= HTTP_BUCKETS - 1 then h.max else Pow2(i);
  }

  /** percentile95 and protocolPercentile95 of accesslog, which write it as (95n + 99)/100. */
  method AccessPercentile95(h: Histogram) returns (q: int)
    requires |h.buckets| == ACCESS_BUCKETS
    ensures q == Log2Percentile95(h)
  {
    if h.n == 0 { return 0; }
    var i := ScanBuckets(h.buckets, (h.n * 95 + 99) / 100);
    q := if i == 0 then 0 else if i >= ACCESS_BUCKETS - 1 then h.max else Pow2(i);
  }

  lemma SampleExists(xs: seq<int>, percentile: nat) returns (x: int)
    requires Latencies(xs) && xs != [] && 1 <= percentile <= 100
    ensures NearestRank(xs, Rank(|xs|, percentile), x)
  {
    RankInRange(|xs|, percentile);
    AllAtMost(xs, MAX_INT64 + 1);
    x := RankFrom(xs, Rank(|xs|, percentile), MAX_INT64 + 1);
  }

  /** For whatever latencies the histogram describes, the reported value is their exact
      percentile rounded up by at most a quarter, and never above the maximum. */
  lemma FlowPercentileBounds(h: Histogram, percentile: nat, xs: seq<int>, x: int)
    requires Describes(h, xs, FlowF()) && Latencies(xs) && |h.buckets| == FLOW_BUCKETS
    requires NearestRank(xs, Rank(|xs|, percentile), x)
    ensures x <= FlowPercentile(h, percentile) <= h.max
    ensures x < Pow2(62) ==> 4 * FlowPercentile(h, percentile) <= 5 * x
  {
    FlowMonotoneOn(xs);
    assert 0 <= x <= MAX_INT64 && xs != [] && x <= h.max && h.n == |xs|;
    hide Describes, MonotoneOn, NearestRank, Latencies, Pow2, Prefix, FlowUpper, FlowBucket, Rank;
    RankBucket(h, xs, FlowF(), Rank(|xs|, percentile), x);
    ScanFinds(h.buckets, Rank(h.n, percentile), 0, FlowBucket(x));
    FlowUpperBounds(x);
  }

  /** The exact percentile is one of the observed latencies. */
  lemma RankedIs(h: Histogram, xs: seq<int>, f: int -> nat, rank: nat, x: int)
    requires Describes(h, xs, f) && Latencies(xs) && NearestRank(xs, rank, x)
    ensures 0 <= x <= h.max && x <= MAX_INT64 && h.n == |xs| > 0
  {
    hide CountLess, CountAtMost, CountAt;
  }

  lemma Log2FIs(x: nat, size: nat)
    requires size >= 2
    ensures Log2F(size)(x) == Log2Bucket(x, size)
  {
    hide Log2Bucket;
  }

  lemma Log2Reports(h: Histogram, i: nat)
    requires h.n > 0 && Scan(h.buckets, Rank(h.n, 95), 0) == i
    ensures Log2Percentile95(h) == if i == 0 then 0 else if i >= |h.buckets| - 1 then h.max else Pow2(i)
  {
    hide Scan, Rank, Pow2;
  }

  /** The exact 95th percentile rounded up to the next power of two, except in the open-ended
      last bucket, where the maximum is reported. */
  lemma Log2PercentileBounds(h: Histogram, xs: seq<int>, x: int)
    requires |h.buckets| >= 2 && Describes(h, xs, Log2F(|h.buckets|)) && Latencies(xs)
    requires NearestRank(xs, Rank(|xs|, 95), x)
    ensures 0 <= x <= Log2Percentile95(h)
    ensures x < Pow2(|h.buckets| - 2) ==> Log2Percentile95(h) <= 2 * x
    ensures x >= Pow2(|h.buckets| - 2) ==> Log2Percentile95(h) == h.max
  {
    hide *;
    var size := |h.buckets|;
    Log2MonotoneOn(xs, size);
    RankedIs(h, xs, Log2F(size), Rank(|xs|, 95), x);
    Log2FIs(x, size);
    RankBucket(h, xs, Log2F(size), Rank(|xs|, 95), x);
    ScanFinds(h.buckets, Rank(h.n, 95), 0, Log2Bucket(x, size));
    Log2Bounds(x, size);
    Log2Reports(h, Log2Bucket(x, size));
  }

  /** httpstats: at most twice the exact value below 2^38 ns, and the maximum from there on. */
  lemma HttpPercentileBounds(h: Histogram, xs: seq<int>, x: int)
    requires |h.buckets| == HTTP_BUCKETS && Describes(h, xs, Log2F(HTTP_BUCKETS)) && Latencies(xs)
    requires NearestRank(xs, Rank(|xs|, 95), x)
    ensures 0 <= x <= Log2Percentile95(h)
    ensures x < Pow2(38) ==> Log2Percentile95(h) <= 2 * x
    ensures x >= Pow2(38) ==> Log2Percentile95(h) == h.max
  {
    hide *;
    TwoBuckets();
    Log2PercentileBounds(h, xs, x);
  }

  /** accesslog: at most twice the exact value below 2^62 ns, and the maximum from there on. */
  lemma AccessPercentileBounds(h: Histogram, xs: seq<int>, x: int)
    requires |h.buckets| == ACCESS_BUCKETS && Describes(h, xs, Log2F(ACCESS_BUCKETS)) && Latencies(xs)
    requires NearestRank(xs, Rank(|xs|, 95), x)
    ensures 0 <= x <= Log2Percentile95(h)
    ensures x < Pow2(62) ==> Log2Percentile95(h) <= 2 * x
    ensures x >= Pow2(62) ==> Log2Percentile95(h) == h.max
  {
    hide *;
    TwoBuckets();
    Log2PercentileBounds(h, xs, x);
  }

  lemma TwoBuckets()
    ensures HTTP_BUCKETS == 40 && ACCESS_BUCKETS == 64
  {
  }

  /** A value that bounds the exact percentile of everything the histogram may stand for. */
  ghost predicate BoundsPercentile(q: int, h: Histogram, percentile: nat) {
    forall xs, x :: Describes(h, xs, FlowF()) && Latencies(xs) && NearestRank(xs, Rank(|xs|, percentile), x) ==>
      x <= q <= h.max && (x < Pow2(62) ==> 4 * q <= 5 * x)
  }
}
