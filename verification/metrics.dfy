/** One-pass statistics of a trade ledger against their definitions over all of it. */
module Metrics {
  import opened Common
  import opened Candles
  import opened Simulator

  datatype ProfitFactor = Infinite | Finite(value: real)

  datatype Summary = Summary(
    totalPnl: real, tradeCount: nat, winRate: real, avgR: real, profitFactor: ProfitFactor,
    maxDrawdown: real, maxDrawdownPct: real, medianTimeToOneR: real, lockBeforeLossRate: real,
    avgWin: real, avgLoss: real)

  // ------------------------------------------------------------ definitions

  /** Cumulative profit after the first `n` trades. */
  function Equity(ts: seq<Trade>, n: nat): real
    requires n <= |ts|
  {
    if n == 0 then 0.0 else Equity(ts, n - 1) + ts[n - 1].pnl
  }

  /** `d` is the largest fall of the equity curve from any point to a later one. */
  ghost predicate IsMaxDrawdown(ts: seq<Trade>, n: nat, d: real)
    requires n <= |ts|
  {
    && (forall i, j | 0 <= i <= j <= n :: Equity(ts, i) - Equity(ts, j) <= d)
    && (exists i, j :: 0 <= i <= j <= n && Equity(ts, i) - Equity(ts, j) == d)
  }

  /** `p` is the highest point of the equity curve, which starts at zero. */
  ghost predicate IsPeak(ts: seq<Trade>, n: nat, p: real)
    requires n <= |ts|
  {
    && (forall i | 0 <= i <= n :: Equity(ts, i) <= p)
    && (exists i :: 0 <= i <= n && Equity(ts, i) == p)
  }

  predicate Wins(t: Trade) { t.pnl > 0.0 }

  predicate ClosedNegative(t: Trade) { t.closedInNegativePnl }

  function RMultipleOf(t: Trade): real { t.rMultiple }

  predicate LockedLoss(t: Trade) { t.closedInNegativePnl && t.reachedLock }

  function Count(ts: seq<Trade>, test: Trade -> bool): (r: nat)
    ensures r <= |ts|
  {
    if ts == [] then 0 else Count(ts[..|ts| - 1], test) + if test(ts[|ts| - 1]) then 1 else 0
  }

  function SumOf(ts: seq<Trade>, value: Trade -> real): real {
    if ts == [] then 0.0 else SumOf(ts[..|ts| - 1], value) + value(ts[|ts| - 1])
  }

  function Gain(t: Trade): real { if t.pnl > 0.0 then t.pnl else 0.0 }

  function Loss(t: Trade): real { if t.pnl > 0.0 then 0.0 else Abs(t.pnl) }

  function LockTimes(ts: seq<Trade>): seq<real> {
    if ts == [] then []
    else
      var before := LockTimes(ts[..|ts| - 1]);
      var t := ts[|ts| - 1];
      if t.timeToOneR.Some? then before + [t.timeToOneR.value] else before
  }

  // ------------------------------------------------------------ the median

  function CountReals(xs: seq<real>, test: real -> bool): nat {
    if xs == [] then 0 else CountReals(xs[..|xs| - 1], test) + if test(xs[|xs| - 1]) then 1 else 0
  }

  /** At least half of the values are not above `m`, at least half are not below it. */
  ghost predicate IsMedian(xs: seq<real>, m: real) {
    && 2 * CountReals(xs, x => x <= m) >= |xs|
    && 2 * CountReals(xs, x => x >= m) >= |xs|
  }

  function Same(x: real): real { x }

  function Median(xs: seq<real>): real {
    if xs == [] then 0.0 else MiddleOf(Sort(Same, xs))
  }

  function MiddleOf(sorted: seq<real>): real
    requires sorted != []
  {
    var middle := |sorted| / 2;
    if |sorted| % 2 == 1 then sorted[middle] else (sorted[middle - 1] + sorted[middle]) / 2.0
  }

  lemma {:induction false} CountRealsPermuted(xs: seq<real>, ys: seq<real>, test: real -> bool)
    requires multiset(xs) == multiset(ys)
    ensures CountReals(xs, test) == CountReals(ys, test)
    decreases |xs|
  {
    if xs == [] {
      SameLength(xs, ys);
    } else {
      var n := |xs| - 1;
      var k := Occurrence(xs, ys);
      CountRealsPermuted(xs[..n], ys[..k] + ys[k + 1..], test);
      CountRealsSplice(ys[..k], ys[k], ys[k + 1..], test);
      assert ys == ys[..k] + [ys[k]] + ys[k + 1..];
    }
  }

  lemma SameLength(xs: seq<real>, ys: seq<real>)
    requires multiset(xs) == multiset(ys)
    ensures |xs| == |ys|
  {
    assert |multiset(xs)| == |xs| && |multiset(ys)| == |ys|;
  }

  /** Where the last element of a sequence stands in a permutation, and that the rest is a permutation too. */
  lemma Occurrence(xs: seq<real>, ys: seq<real>) returns (k: nat)
    requires multiset(xs) == multiset(ys) && xs != []
    ensures k < |ys| && ys[k] == xs[|xs| - 1]
    ensures multiset(xs[..|xs| - 1]) == multiset(ys[..k] + ys[k + 1..])
  {
    var n := |xs| - 1;
    TakeOut(xs, n);
    assert xs[n] in multiset(ys);
    k :| 0 <= k < |ys| && ys[k] == xs[n];
    TakeOut(ys, k);
    assert xs[..n] + xs[n + 1..] == xs[..n];
    assert multiset(xs[..n]) == multiset(xs) - multiset{xs[n]};
  }

  lemma TakeOut(xs: seq<real>, k: nat)
    requires k < |xs|
    ensures multiset(xs[..k] + xs[k + 1..]) == multiset(xs) - multiset{xs[k]}
  {
    assert xs == xs[..k] + [xs[k]] + xs[k + 1..];
  }

  lemma {:induction false} CountRealsSplice(a: seq<real>, x: real, b: seq<real>, test: real -> bool)
    ensures CountReals(a + [x] + b, test) == CountReals(a + b, test) + if test(x) then 1 else 0
  {
    if b == [] {
      assert (a + [x] + b)[..|a|] == a && a + b == a;
    } else {
      var n := |b| - 1;
      assert (a + [x] + b)[..|a| + 1 + n] == a + [x] + b[..n];
      assert (a + b)[..|a| + n] == a + b[..n];
      CountRealsSplice(a, x, b[..n], test);
    }
  }

  /** If a stretch of a sequence passes the test, the count is at least its length. */
  lemma {:induction false} CountStretch(xs: seq<real>, lo: nat, hi: nat, test: real -> bool)
    requires lo <= hi <= |xs| && forall i | lo <= i < hi :: test(xs[i])
    ensures CountReals(xs, test) >= hi - lo
    decreases |xs|
  {
    if xs != [] {
      var n := |xs| - 1;
      if hi == |xs| && lo < hi { CountStretch(xs[..n], lo, hi - 1, test); }
      else if hi < |xs| { CountStretch(xs[..n], lo, hi, test); }
    }
  }

  /** The middle of the sorted values splits them in halves. */
  lemma MedianSplits(xs: seq<real>)
    requires xs != []
    ensures IsMedian(xs, Median(xs))
  {
    var s, m := Sort(Same, xs), Median(xs);
    SortSorts(Same, xs);
    var half := |s| / 2;
    forall i | 0 <= i < |s| - half ensures s[i] <= m { SortedAt(s, i, half); }
    forall i | half <= i < |s| ensures s[i] >= m { SortedAt(s, half, i); }
    CountStretch(s, 0, |s| - half, x => x <= m);
    CountStretch(s, half, |s|, x => x >= m);
    CountRealsPermuted(s, xs, x => x <= m);
    CountRealsPermuted(s, xs, x => x >= m);
  }

  function LessThan(v: real): real -> bool { x => x < v }

  function AtMost(v: real): real -> bool { x => x <= v }

  /** At most `k` values are smaller than `v`, and more than `k` are not larger: sorted, `v` stands at place `k`. */
  predicate HasRank(xs: seq<real>, k: nat, v: real) {
    CountReals(xs, LessThan(v)) <= k < CountReals(xs, AtMost(v))
  }

  lemma {:induction false} CountNone(xs: seq<real>, lo: nat, test: real -> bool)
    requires forall i | lo <= i < |xs| :: !test(xs[i])
    ensures CountReals(xs, test) <= lo
  {
    if xs != [] {
      var n := |xs| - 1;
      if n < lo { if lo > 0 { CountAll(xs[..n], test); } } else { CountNone(xs[..n], lo, test); }
    }
  }

  lemma {:induction false} CountAll(xs: seq<real>, test: real -> bool)
    ensures CountReals(xs, test) <= |xs|
  {
    if xs != [] { CountAll(xs[..|xs| - 1], test); }
  }

  lemma {:induction false} CountMore(xs: seq<real>, a: real -> bool, b: real -> bool)
    requires forall x :: a(x) ==> b(x)
    ensures CountReals(xs, a) <= CountReals(xs, b)
  {
    if xs != [] { CountMore(xs[..|xs| - 1], a, b); }
  }

  /** No two values have the same rank. */
  lemma RankOnce(xs: seq<real>, k: nat, v: real, w: real)
    requires HasRank(xs, k, v) && HasRank(xs, k, w)
    ensures v == w
  {
    if v < w { CountMore(xs, AtMost(v), LessThan(w)); }
    if w < v { CountMore(xs, AtMost(w), LessThan(v)); }
  }

  lemma SortedRank(xs: seq<real>, k: nat)
    requires k < |xs|
    ensures HasRank(xs, k, Sort(Same, xs)[k])
  {
    var s := Sort(Same, xs);
    SortSorts(Same, xs);
    forall i | 0 <= i < |s| ensures (i <= k ==> s[i] <= s[k]) && (k <= i ==> s[k] <= s[i]) {
      if i < k { assert Same(s[i]) <= Same(s[k]); }
      if k < i { assert Same(s[k]) <= Same(s[i]); }
    }
    CountStretch(s, 0, k + 1, AtMost(s[k]));
    CountNone(s, k, LessThan(s[k]));
    CountRealsPermuted(s, xs, AtMost(s[k]));
    CountRealsPermuted(s, xs, LessThan(s[k]));
  }

  lemma MiddleOfTwo(s: seq<real>)
    requires s != []
    ensures MiddleOf(s) == (s[(|s| - 1) / 2] + s[|s| / 2]) / 2.0
  {
  }

  lemma RankIsSorted(xs: seq<real>, k: nat, v: real)
    requires k < |xs| && HasRank(xs, k, v)
    ensures v == Sort(Same, xs)[k]
  {
    SortedRank(xs, k);
    RankOnce(xs, k, v, Sort(Same, xs)[k]);
  }

  function EqualTo(v: real): real -> bool { x => x == v }

  function ReachedAfter(v: real): Trade -> bool { (t: Trade) => t.timeToOneR == Some(v) }

  /** The times the median is of are exactly those of the trades that reached one risk unit, each as often. */
  lemma {:induction false} LockTimesMean(ts: seq<Trade>, v: real)
    ensures CountReals(LockTimes(ts), EqualTo(v)) == Count(ts, ReachedAfter(v))
  {
    if ts != [] {
      var n := |ts| - 1;
      LockTimesMean(ts[..n], v);
      var before := LockTimes(ts[..n]);
      if ts[n].timeToOneR.Some? { assert (before + [ts[n].timeToOneR.value])[..|before|] == before; }
    }
  }

  /** The values of the two middle ranks. */
  predicate AreMiddles(xs: seq<real>, lo: real, hi: real)
    requires xs != []
  {
    HasRank(xs, (|xs| - 1) / 2, lo) && HasRank(xs, |xs| / 2, hi)
  }

  /** The middle of the values of the two middle ranks, which are one for an odd number; zero without values. */
  ghost predicate IsMiddle(xs: seq<real>, m: real) {
    if xs == [] then m == 0.0
    else IsMedian(xs, m) && forall lo, hi | AreMiddles(xs, lo, hi) :: m == (lo + hi) / 2.0
  }

  lemma MedianMeans(xs: seq<real>)
    ensures IsMiddle(xs, Median(xs))
  {
    if xs != [] {
      MedianSplits(xs);
      MiddleOfTwo(Sort(Same, xs));
      forall lo, hi | AreMiddles(xs, lo, hi) ensures Median(xs) == (lo + hi) / 2.0 {
        RankIsSorted(xs, (|xs| - 1) / 2, lo);
        RankIsSorted(xs, |xs| / 2, hi);
      }
    }
  }

  lemma SortedAt(s: seq<real>, i: nat, j: nat)
    requires SortedBy(Same, s) && i < |s| && j < |s|
    ensures i <= j ==> s[i] <= s[j]
    ensures i < j && |s| % 2 == 0 && j == |s| / 2 ==> s[i] <= s[j - 1] <= s[j]
    ensures i == |s| / 2 && i <= j && |s| % 2 == 0 ==> s[i - 1] <= s[i] <= s[j]
  {
    if i < j { assert Same(s[i]) <= Same(s[j]); }
    if i < j && 0 < j { if i < j - 1 { assert Same(s[i]) <= Same(s[j - 1]); } assert Same(s[j - 1]) <= Same(s[j]); }
    if 0 < i { assert Same(s[i - 1]) <= Same(s[i]); }
  }

  // ------------------------------------------------------------ the one pass

  function Rate(k: nat, n: nat): real
    requires n > 0
  {
    k as real / n as real
  }

  function MeanOrZero(sum: real, n: nat): real {
    if n == 0 then 0.0 else sum / n as real
  }

  /** A win rate and mean win and loss give a total over `n`. */
  predicate Balances(rate: real, win: real, loss: real, total: real, n: real)
    requires n > 0.0
  {
    rate * win - (1.0 - rate) * loss == total / n
  }

  /** Mean profit from win rate and mean win and loss, in every case, all wins and all losses included. */
  lemma Expectancy(n: nat, wins: nat, gross: real, grossLoss: real)
    requires 0 < n && wins <= n && (wins == 0 ==> gross == 0.0) && (wins == n ==> grossLoss == 0.0)
    ensures Balances(Rate(wins, n), MeanOrZero(gross, wins), MeanOrZero(grossLoss, n - wins), gross - grossLoss, n as real)
  {
    var c, w, l := n as real, wins as real, (n - wins) as real;
    Complement(w, l, c);
    if wins > 0 { Cancel(w, c, gross); }
    if n - wins > 0 { Cancel(l, c, grossLoss); }
    Difference(gross, grossLoss, c);
  }

  lemma Difference(x: real, y: real, c: real)
    requires c > 0.0
    ensures (x - y) / c == x / c - y / c
  {
    var p, q := x / c, y / c;
    assert p * c == x && q * c == y;
    assert p * c - q * c == (p - q) * c;
    assert p - q == ((p - q) * c) / c;
  }

  lemma Complement(w: real, l: real, c: real)
    requires c > 0.0 && w + l == c
    ensures 1.0 - w / c == l / c
  {
    var x, y := w / c, l / c;
    assert x * c == w && y * c == l;
    assert x * c + y * c == (x + y) * c;
    assert x + y == ((x + y) * c) / c;
  }

  lemma Cancel(k: real, c: real, x: real)
    requires k > 0.0 && c > 0.0
    ensures k / c * (x / k) == x / c
  {
    var q := x / k;
    assert q * k == x;
    assert k / c * q == (k * q) / c;
  }

  /** No win, no gain; only wins, no loss; and gains minus losses are the total. */
  lemma {:induction false} GainsAndLosses(ts: seq<Trade>)
    ensures Count(ts, Wins) == 0 ==> SumOf(ts, Gain) == 0.0
    ensures Count(ts, Wins) == |ts| ==> SumOf(ts, Loss) == 0.0
    ensures SumOf(ts, Gain) - SumOf(ts, Loss) == Equity(ts, |ts|)
  {
    if ts != [] {
      GainsAndLosses(ts[..|ts| - 1]);
      EquityPrefix(ts, |ts| - 1, |ts| - 1);
    }
  }

  lemma {:induction false} EquityPrefix(ts: seq<Trade>, k: nat, n: nat)
    requires n <= k <= |ts|
    ensures Equity(ts[..k], n) == Equity(ts, n)
  {
    if n > 0 { EquityPrefix(ts, k, n - 1); }
  }

  ghost predicate DescribesSums(m: Summary, ts: seq<Trade>)
    requires ts != []
  {
    && m.tradeCount == |ts| && m.totalPnl == Equity(ts, |ts|)
    && m.winRate == Rate(Count(ts, Wins), |ts|)
    && m.avgWin == MeanOrZero(SumOf(ts, Gain), Count(ts, Wins))
    && m.avgLoss == MeanOrZero(SumOf(ts, Loss), |ts| - Count(ts, Wins))
    && m.avgR == SumOf(ts, RMultipleOf) / |ts| as real
    && m.profitFactor == (if SumOf(ts, Loss) == 0.0 then Infinite else Finite(SumOf(ts, Gain) / SumOf(ts, Loss)))
    && m.lockBeforeLossRate == (
         var losses := Count(ts, ClosedNegative);
         if losses > 0 then Count(ts, LockedLoss) as real / losses as real else 1.0)
    && IsMiddle(LockTimes(ts), m.medianTimeToOneR)
  }

  ghost predicate DescribesCurve(m: Summary, ts: seq<Trade>) {
    && IsMaxDrawdown(ts, |ts|, m.maxDrawdown)
    && (exists peak :: IsPeak(ts, |ts|, peak) && m.maxDrawdownPct == RatioOrZero(m.maxDrawdown, peak))
  }

  function RatioOrZero(x: real, y: real): real {
    if y > 0.0 then x / y else 0.0
  }

  /** Win rate and mean win and loss give the mean profit. */
  ghost predicate Balanced(m: Summary)
    requires m.tradeCount > 0
  {
    Balances(m.winRate, m.avgWin, m.avgLoss, m.totalPnl, m.tradeCount as real)
  }

  ghost predicate Describes(m: Summary, ts: seq<Trade>)
    requires ts != []
  {
    DescribesSums(m, ts) && DescribesCurve(m, ts) && Balanced(m)
  }

  datatype Totals = Totals(total: real, wins: nat, gross: real, grossLoss: real, rSum: real, losses: nat, lockedLosses: nat, lockTimes: seq<real>)

  function TotalsOf(ts: seq<Trade>): Totals {
    Totals(Equity(ts, |ts|), Count(ts, Wins), SumOf(ts, Gain), SumOf(ts, Loss), SumOf(ts, RMultipleOf),
           Count(ts, ClosedNegative), Count(ts, LockedLoss), LockTimes(ts))
  }

  /** The equity curve so far: where it is, its highest point, its largest fall. */
  datatype Curve = Curve(equity: real, peak: real, maxDd: real)

  ghost predicate CurveOf(c: Curve, ts: seq<Trade>, n: nat)
    requires n <= |ts|
  {
    c.equity == Equity(ts, n) && IsPeak(ts, n, c.peak) && IsMaxDrawdown(ts, n, c.maxDd)
  }

  method Accumulate(ts: seq<Trade>) returns (t: Totals, c: Curve)
    ensures t == TotalsOf(ts) && CurveOf(c, ts, |ts|)
  {
    t, c := Totals(0.0, 0, 0.0, 0.0, 0.0, 0, 0, []), Curve(0.0, 0.0, 0.0);
    assert Equity(ts, 0) == 0.0;
    for i := 0 to |ts|
      invariant t == TotalsOf(ts[..i])
      invariant CurveOf(c, ts, i)
    {
      t := AddTrade(t, ts, i);
      c := ExtendCurve(c, ts, i);
    }
    assert ts[..|ts|] == ts;
  }

  method ExtendCurve(c: Curve, ts: seq<Trade>, i: nat) returns (r: Curve)
    requires i < |ts| && CurveOf(c, ts, i)
    ensures CurveOf(r, ts, i + 1)
  {
    var equity := c.equity + ts[i].pnl;
    var peak, maxDd := c.peak, c.maxDd;
    if equity > peak { peak := equity; }
    var dd := peak - equity;
    if dd > maxDd { maxDd := dd; }
    PeakStep(ts, i, c.peak, peak);
    DrawdownStep(ts, i, peak, c.maxDd, maxDd);
    r := Curve(equity, peak, maxDd);
  }

  method AddTrade(t: Totals, ts: seq<Trade>, i: nat) returns (r: Totals)
    requires i < |ts| && t == TotalsOf(ts[..i])
    ensures r == TotalsOf(ts[..i + 1])
  {
    assert ts[..i + 1][..i] == ts[..i];
    EquityPrefix(ts, i, i);
    EquityPrefix(ts, i + 1, i);
    EquityPrefix(ts, i + 1, i + 1);
    var x := ts[i];
    r := t.(total := t.total + x.pnl, rSum := t.rSum + x.rMultiple);
    if x.pnl > 0.0 {
      r := r.(wins := r.wins + 1, gross := r.gross + x.pnl);
    } else {
      r := r.(grossLoss := r.grossLoss + Abs(x.pnl));
    }
    if x.timeToOneR.Some? { r := r.(lockTimes := r.lockTimes + [x.timeToOneR.value]); }
    if x.closedInNegativePnl {
      r := r.(losses := r.losses + 1);
      if x.reachedLock { r := r.(lockedLosses := r.lockedLosses + 1); }
    }
  }

  lemma PeakStep(ts: seq<Trade>, i: nat, before: real, after: real)
    requires i < |ts| && IsPeak(ts, i, before) && after == MaxR(before, Equity(ts, i + 1))
    ensures IsPeak(ts, i + 1, after)
  {
    var k :| 0 <= k <= i && Equity(ts, k) == before;
    assert Equity(ts, k) == after || Equity(ts, i + 1) == after;
  }

  lemma DrawdownStep(ts: seq<Trade>, i: nat, peak: real, before: real, after: real)
    requires i < |ts| && IsPeak(ts, i + 1, peak) && IsMaxDrawdown(ts, i, before)
    requires after == MaxR(before, peak - Equity(ts, i + 1))
    ensures IsMaxDrawdown(ts, i + 1, after)
  {
    forall a, b | 0 <= a <= b <= i + 1 ensures Equity(ts, a) - Equity(ts, b) <= after {
      if b <= i { assert Equity(ts, a) - Equity(ts, b) <= before; }
    }
    if after == before {
      var a, b :| 0 <= a <= b <= i && Equity(ts, a) - Equity(ts, b) == before;
      assert 0 <= a <= b <= i + 1 && Equity(ts, a) - Equity(ts, b) == after;
    } else {
      var k :| 0 <= k <= i + 1 && Equity(ts, k) == peak;
      assert 0 <= k <= i + 1 <= i + 1 && Equity(ts, k) - Equity(ts, i + 1) == after;
    }
  }

  const NO_TRADES := Summary(0.0, 0, 0.0, 0.0, Finite(0.0), 0.0, 0.0, 0.0, 0.0, 0.0, 0.0)

  /** The summary fields from the accumulated totals of `n` trades. */
  function Summarize(t: Totals, c: Curve, n: nat): Summary
    requires n > 0 && t.wins <= n
  {
    Summary(t.total, n, Rate(t.wins, n), t.rSum / n as real,
      if t.grossLoss == 0.0 then Infinite else Finite(t.gross / t.grossLoss),
      c.maxDd, RatioOrZero(c.maxDd, c.peak), Median(t.lockTimes),
      if t.losses > 0 then t.lockedLosses as real / t.losses as real else 1.0,
      MeanOrZero(t.gross, t.wins), MeanOrZero(t.grossLoss, n - t.wins))
  }

  lemma SumsDescribed(ts: seq<Trade>, c: Curve)
    requires ts != []
    ensures DescribesSums(Summarize(TotalsOf(ts), c, |ts|), ts)
  {
    MedianMeans(LockTimes(ts));
  }

  lemma TotalsBalanced(t: Totals, c: Curve, n: nat)
    requires 0 < n && t.wins <= n && (t.wins == 0 ==> t.gross == 0.0) && (t.wins == n ==> t.grossLoss == 0.0)
    requires t.gross - t.grossLoss == t.total
    ensures Balanced(Summarize(t, c, n))
  {
    Expectancy(n, t.wins, t.gross, t.grossLoss);
    var a, b, r := MeanOrZero(t.gross, t.wins), MeanOrZero(t.grossLoss, n - t.wins), Rate(t.wins, n);
    var m := Summarize(t, c, n);
    assert m.avgWin == a && m.avgLoss == b && m.winRate == r;
  }

  lemma SummaryDescribes(ts: seq<Trade>, c: Curve)
    requires ts != [] && CurveOf(c, ts, |ts|)
    ensures Describes(Summarize(TotalsOf(ts), c, |ts|), ts)
  {
    SumsDescribed(ts, c);
    GainsAndLosses(ts);
    TotalsBalanced(TotalsOf(ts), c, |ts|);
    var m := Summarize(TotalsOf(ts), c, |ts|);
    assert IsPeak(ts, |ts|, c.peak) && m.maxDrawdownPct == RatioOrZero(m.maxDrawdown, c.peak);
  }

  method ComputeMetrics(ts: seq<Trade>) returns (m: Summary)
    ensures if ts == [] then m == NO_TRADES else Describes(m, ts)
  {
    if ts == [] { return NO_TRADES; }
    var t, c := Accumulate(ts);
    SummaryDescribes(ts, c);
    m := Summarize(t, c, |ts|);
  }

  // ------------------------------------------------------------ two ledgers

  /** A ledger that is nowhere better earns no more and wins no more often. */
  lemma {:induction false} DominatedTotals(a: seq<Trade>, b: seq<Trade>)
    requires |a| == |b| && forall i | 0 <= i < |a| :: a[i].pnl <= b[i].pnl
    ensures Equity(a, |a|) <= Equity(b, |b|) && Count(a, Wins) <= Count(b, Wins)
  {
    if a != [] {
      var n := |a| - 1;
      DominatedTotals(a[..n], b[..n]);
      EquityPrefix(a, n, n);
      EquityPrefix(b, n, n);
    }
  }

  /** Over a whole backtest the pessimistic total profit and number of wins are at most the optimistic ones. */
  lemma PessimisticBacktest(es: seq<Event>)
    requires forall k | 0 <= k < |es| && es[k].OnIntent? :: ProperIntent(es[k].intent)
    ensures var p, o := Run(true, es).ledger, Run(false, es).ledger;
      Equity(p, |p|) <= Equity(o, |o|) && Count(p, Wins) <= Count(o, Wins)
  {
    PessimisticRunIsDominated(es);
    DominatedTotals(Run(true, es).ledger, Run(false, es).ledger);
  }
}
