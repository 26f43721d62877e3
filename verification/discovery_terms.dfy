/** Which pools a discovery finds and a refresh leaves, in terms of candles, prices and the pools before. */
module DiscoveryTerms {
  import opened Common
  import opened Candles
  import opened SwingPoolDiscovery
  import opened LiquidityPoolRegistry
  import opened LiquidityPrices

  // ------------------------------------------------------------ prices that belong together

  /** Their distance is at most the percentage of the middle of their sizes. */
  predicate AreNear(pct: real, a: real, b: real) {
    if a == 0.0 && b == 0.0 then 0.0 <= pct else 200.0 * Apart(a, b) <= pct * (Abs(a) + Abs(b))
  }

  lemma NearMeans(pct: real, a: real, b: real)
    ensures Close(pct, a, b) <==> AreNear(pct, a, b)
  {
    var gap, sum := Apart(a, b), Abs(a) + Abs(b);
    assert gap == Abs(a - b);
    if sum == 0.0 {
      assert gap == 0.0;
      assert gap / 1.0 * 100.0 == 0.0;
    } else {
      HalfPercent(gap, sum, pct);
    }
  }

  lemma HalfPercent(gap: real, sum: real, pct: real)
    requires sum > 0.0
    ensures gap / (sum / 2.0) * 100.0 <= pct <==> 200.0 * gap <= pct * sum
  {
    var q := gap / (sum / 2.0);
    assert q * (sum / 2.0) == gap;
    assert 200.0 * gap == q * 100.0 * sum;
    assert (pct - q * 100.0) * sum == pct * sum - q * 100.0 * sum;
    if q * 100.0 <= pct { assert (pct - q * 100.0) * sum >= 0.0; } else { assert (q * 100.0 - pct) * sum > 0.0; }
  }

  /** Prices cluster within the larger of the floor and a multiple of the volatility. */
  ghost predicate IsWidth(window: seq<Candle>, cfg: DiscoveryConfig, width: real) {
    exists atr :: IsVolatility(window, atr) && width == Wider(cfg.equalClusterFloorPct, atr * cfg.equalClusterAtrMult)
  }

  lemma WidthMeans(window: seq<Candle>, cfg: DiscoveryConfig, width: real)
    ensures IsWidth(window, cfg, width) <==> width == Threshold(window, cfg)
  {
    VolatilityIs(window);
    forall atr | IsVolatility(window, atr) ensures atr == AtrPercent(window, 14) { VolatilityOnce(window, atr, AtrPercent(window, 14)); }
  }

  // ------------------------------------------------------------ the pool of a cluster

  function PriceSum(c: Cluster): real {
    if c == [] then 0.0 else PriceSum(c[..|c| - 1]) + c[|c| - 1].price
  }

  /** The latest bar of the cluster is of this time. */
  ghost predicate LatestAt(c: Cluster, window: seq<Candle>, time: int)
    requires forall p | p in c :: p.index < |window|
  {
    && (exists k | 0 <= k < |c| :: window[c[k].index].timestamp == time)
    && forall k | 0 <= k < |c| :: window[c[k].index].timestamp <= time
  }

  /** The nearest millionth, of two equally near ones the one away from zero. */
  predicate IsNearest(price: real, micros: int) {
    if price < 0.0 then micros <= 0 && -micros as real - 0.5 <= -price * 1000000.0 < -micros as real + 0.5
    else 0 <= micros && micros as real - 0.5 <= price * 1000000.0 < micros as real + 0.5
  }

  predicate IsMeanOf(price: real, sum: real, n: real) { price * n == sum }

  /** A new pool stands at the mean of its cluster's prices, dates from its latest bar, has a strength of a half and a tenth
      for every pivot up to one, and no touch yet. */
  ghost predicate IsPoolOf(p: Pool, c: Cluster, window: seq<Candle>, timeframe: string, side: Side)
    requires forall p | p in c :: p.index < |window|
  {
    && IsMeanOf(p.price, PriceSum(c), |c| as real) && LatestAt(c, window, p.createdAtBarTs)
    && p.strength == (if |c| >= 5 then 1.0 else 0.5 + |c| as real / 10.0)
    && p.id.timeframe == timeframe && p.id.side == side && IsNearest(p.price, p.id.micros)
    && p.side == side && p.timeframe == timeframe && p.pivotCount == |c| && p.touches == 0 && p.status == Active
  }

  lemma {:induction false} PricesSum(c: Cluster)
    ensures Sum(Prices(c)) == PriceSum(c) && |Prices(c)| == |c|
  {
    if c != [] {
      var n := |c| - 1;
      PricesSum(c[..n]);
      assert Prices(c)[..n] == Prices(c[..n]);
    }
  }

  lemma CenterIs(c: Cluster)
    requires c != []
    ensures IsMeanOf(CenterPrice(c), PriceSum(c), |c| as real)
  {
    PricesSum(c);
    TimesBack(PriceSum(c), |c| as real);
  }

  lemma TimesBack(sum: real, n: real)
    requires n > 0.0
    ensures IsMeanOf(sum / n, sum, n)
  {
  }

  lemma {:induction false} LatestIs(c: Cluster, window: seq<Candle>)
    requires c != [] && forall p | p in c :: p.index < |window|
    ensures LatestAt(c, window, Latest(c, window))
  {
    if |c| > 1 {
      var n := |c| - 1;
      assert forall k | 0 <= k < n :: c[..n][k] == c[k];
      assert forall p | p in c[..n] :: p in c;
      LatestIs(c[..n], window);
      if Latest(c, window) == Latest(c[..n], window) {
        var k :| 0 <= k < n && window[c[..n][k].index].timestamp == Latest(c, window);
        assert window[c[k].index].timestamp == Latest(c, window);
      } else {
        assert window[c[n].index].timestamp == Latest(c, window);
      }
    }
  }

  lemma PoolMeans(c: Cluster, window: seq<Candle>, timeframe: string, side: Side)
    requires c != [] && forall p | p in c :: p.index < |window|
    ensures IsPoolOf(PoolOf(c, window, timeframe, side), c, window, timeframe, side)
  {
    CenterIs(c);
    LatestIs(c, window);
    StrengthIs(|c|);
    MicrosAre(CenterPrice(c));
  }

  lemma MicrosAre(price: real)
    ensures IsNearest(price, Micros(price))
  {
  }

  lemma StrengthIs(n: nat)
    ensures MinR(1.0, 0.5 + n as real * 0.1) == if n >= 5 then 1.0 else 0.5 + n as real / 10.0
  {
  }

  lemma PoolOnce(p: Pool, q: Pool, c: Cluster, window: seq<Candle>, timeframe: string, side: Side)
    requires c != [] && forall p | p in c :: p.index < |window|
    requires IsPoolOf(p, c, window, timeframe, side) && IsPoolOf(q, c, window, timeframe, side)
    ensures p == q
  {
    SameMean(p.price, q.price, PriceSum(c), |c| as real);
    LatestOnce(c, window, p.createdAtBarTs, q.createdAtBarTs);
    NearestOnce(p.price, p.id.micros, q.id.micros);
  }

  lemma SameMean(x: real, y: real, sum: real, n: real)
    requires n > 0.0 && IsMeanOf(x, sum, n) && IsMeanOf(y, sum, n)
    ensures x == y
  {
    assert (x - y) * n == 0.0;
  }

  lemma LatestOnce(c: Cluster, window: seq<Candle>, s: int, t: int)
    requires forall p | p in c :: p.index < |window|
    requires LatestAt(c, window, s) && LatestAt(c, window, t)
    ensures s == t
  {
  }

  lemma NearestOnce(price: real, m: int, n: int)
    requires IsNearest(price, m) && IsNearest(price, n)
    ensures m == n
  {
  }

  // ------------------------------------------------------------ what is discovered

  /** The pool of a cluster of at least two pivots of a side. */
  ghost predicate OfSide(p: Pool, window: seq<Candle>, timeframe: string, side: Side, width: real) {
    exists c | c in SideClusters(window, side, width) :: |c| >= 2 && Fits(p, c, window, timeframe, side)
  }

  ghost predicate Fits(p: Pool, c: Cluster, window: seq<Candle>, timeframe: string, side: Side) {
    (forall q | q in c :: q.index < |window|) && IsPoolOf(p, c, window, timeframe, side)
  }

  lemma FitsIs(p: Pool, c: Cluster, window: seq<Candle>, timeframe: string, side: Side)
    requires c != [] && forall q | q in c :: q.index < |window|
    ensures Fits(p, c, window, timeframe, side) <==> p == PoolOf(c, window, timeframe, side)
  {
    PoolMeans(c, window, timeframe, side);
    if Fits(p, c, window, timeframe, side) { PoolOnce(p, PoolOf(c, window, timeframe, side), c, window, timeframe, side); }
  }

  lemma {:induction false} PoolsOfAre(cs: seq<Cluster>, window: seq<Candle>, timeframe: string, side: Side, p: Pool)
    requires IndexesInto(cs, window)
    ensures p in PoolsOf(cs, window, timeframe, side) <==> exists c | c in cs :: |c| >= 2 && Fits(p, c, window, timeframe, side)
  {
    if cs != [] {
      var n := |cs| - 1;
      PoolsOfAre(cs[..n], window, timeframe, side, p);
      assert cs == cs[..n] + [cs[n]];
      if |cs[n]| >= 2 { FitsIs(p, cs[n], window, timeframe, side); }
    }
  }

  /** The candidates are exactly the pools of the clusters of both sides, at the width the volatility asks for. */
  lemma CandidatesMean(window: seq<Candle>, timeframe: string, cfg: DiscoveryConfig, width: real, p: Pool)
    requires IsWidth(window, cfg, width)
    ensures p in Candidates(window, timeframe, cfg)
            <==> OfSide(p, window, timeframe, BuySide, width) || OfSide(p, window, timeframe, SellSide, width)
  {
    WidthMeans(window, cfg, width);
    PoolsOfAre(SideClusters(window, BuySide, width), window, timeframe, BuySide, p);
    PoolsOfAre(SideClusters(window, SellSide, width), window, timeframe, SellSide, p);
  }

  /** The bars looked at: as many as the lookback from the end, all with a lookback of zero. */
  predicate LooksAt(closed: seq<Candle>, cfg: DiscoveryConfig, window: seq<Candle>) {
    && |window| == (if cfg.lookbackBars == 0 || cfg.lookbackBars > |closed| then |closed| else cfg.lookbackBars)
    && |window| <= |closed| && window == closed[|closed| - |window|..]
  }

  /** Nothing is discovered in fewer than ten bars; else only pools of clusters of the bars looked at, at most the maximum,
      and one is left out only for as many at least as strong. */
  lemma DiscoveryMeans(closed: seq<Candle>, timeframe: string, cfg: DiscoveryConfig, window: seq<Candle>, width: real, p: Pool)
    requires LooksAt(closed, cfg, window) && IsWidth(window, cfg, width)
    ensures var found := Discover(closed, timeframe, cfg);
      var candidate := OfSide(p, window, timeframe, BuySide, width) || OfSide(p, window, timeframe, SellSide, width);
      && (|closed| < 10 ==> found == []) && |found| <= cfg.maxPools && (p in found ==> candidate)
      && (|closed| >= 10 && candidate && p !in found ==> |found| == cfg.maxPools && forall q | q in found :: p.strength <= q.strength)
  {
    if |closed| >= 10 {
      WindowIs(closed, cfg, window);
      var all := Candidates(window, timeframe, cfg);
      CandidatesMean(window, timeframe, cfg, width, p);
      StrongestFirst(all, cfg.maxPools);
      if |all| <= cfg.maxPools { AllKept(all, cfg.maxPools, p); }
    }
  }

  lemma WindowIs(closed: seq<Candle>, cfg: DiscoveryConfig, window: seq<Candle>)
    requires LooksAt(closed, cfg, window)
    ensures Window(closed, cfg) == window
  {
  }

  lemma AllKept(pools: seq<Pool>, n: nat, p: Pool)
    requires |pools| <= n
    ensures p in pools ==> p in Strongest(pools, n)
  {
    var sorted := Sort(Weakness, pools);
    assert sorted[..|pools|] == sorted;
    InMultiset(pools, sorted, p);
  }

  // ------------------------------------------------------------ what a refresh leaves of the timeframe

  /** The earlier pool at `i` is the one `d` continues: the first with its id, or, if none has it, the first of its side
      near it in price. */
  ghost predicate ContinuesAt(d: Pool, earlier: seq<Pool>, pct: real, i: nat) {
    && i < |earlier|
    && if (exists k | 0 <= k < |earlier| :: earlier[k].id == d.id)
       then earlier[i].id == d.id && forall k | 0 <= k < i :: earlier[k].id != d.id
       else SameSpot(d, earlier[i], pct) && forall k | 0 <= k < i :: !SameSpot(d, earlier[k], pct)
  }

  predicate SameSpot(d: Pool, e: Pool, pct: real) { e.side == d.side && AreNear(pct, e.price, d.price) }

  lemma SpotMeans(d: Pool, earlier: seq<Pool>, pct: real)
    ensures forall k | 0 <= k < |earlier| :: SameSpot(d, earlier[k], pct) <==> earlier[k].side == d.side && Close(pct, earlier[k].price, d.price)
  {
    forall k | 0 <= k < |earlier|
      ensures SameSpot(d, earlier[k], pct) <==> earlier[k].side == d.side && Close(pct, earlier[k].price, d.price)
    {
      NearMeans(pct, earlier[k].price, d.price);
    }
  }

  lemma ContinuedMeans(d: Pool, earlier: seq<Pool>, pct: real, i: nat)
    ensures ContinuesAt(d, earlier, pct, i) ==> Continued(d, earlier, pct) == Some(earlier[i])
    ensures Continued(d, earlier, pct).Some? ==> exists k :: ContinuesAt(d, earlier, pct, k)
  {
    SpotMeans(d, earlier, pct);
    var byId := FirstWithId(earlier, d.id);
    var byPrice := First(earlier, (p: Pool) => p.side == d.side && Close(pct, p.price, d.price));
    if byId < |earlier| { assert ContinuesAt(d, earlier, pct, byId); }
    else if byPrice < |earlier| { assert ContinuesAt(d, earlier, pct, byPrice); }
  }

  /** A discovered pool as it is kept: alone, or with id, touches and the decayed strength of the one it continues, and
      weakened if that was. */
  ghost predicate BecomesAs(d: Pool, earlier: seq<Pool>, cfg: RegistryConfig, p: Pool) {
    || (p == d && forall i: nat :: !ContinuesAt(d, earlier, cfg.discovery.equalClusterFloorPct, i))
    || exists i: nat :: ContinuesAt(d, earlier, cfg.discovery.equalClusterFloorPct, i) && TakesOver(d, earlier[i], cfg, p)
  }

  predicate TakesOver(d: Pool, e: Pool, cfg: RegistryConfig, p: Pool) {
    p == d.(id := e.id, touches := e.touches, strength := e.strength * cfg.decay,
            status := if e.status == Weakened then Weakened else d.status)
  }

  lemma MergedMeans(d: Pool, earlier: seq<Pool>, cfg: RegistryConfig, p: Pool)
    ensures p == MergePool(d, earlier, cfg) <==> BecomesAs(d, earlier, cfg, p)
  {
    var pct := cfg.discovery.equalClusterFloorPct;
    forall i: nat
      ensures ContinuesAt(d, earlier, pct, i) ==> Continued(d, earlier, pct) == Some(earlier[i])
      ensures Continued(d, earlier, pct).Some? ==> exists k: nat :: ContinuesAt(d, earlier, pct, k)
    {
      ContinuedMeans(d, earlier, pct, i);
    }
    ContinuedMeans(d, earlier, pct, 0);
    forall e ensures TakesOver(d, e, cfg, p) <==> p == d.(
      id := e.id, touches := e.touches, strength := Scale(e.strength, cfg.decay),
      status := if e.status == Weakened then Weakened else d.status) {}
  }

  /** For every pool of the timeframe: it is there after the refresh exactly if some discovered pool becomes it, it is
      strong enough and not invalidated, and it comes through the cap. Pools of other timeframes only face the cap. */
  lemma RefreshMeans(pools: seq<Pool>, closed: seq<Candle>, timeframe: string, cfg: RegistryConfig, p: Pool)
    ensures var found := Discover(closed, timeframe, cfg.discovery);
      p.timeframe == timeframe ==>
        (p in Refresh(pools, closed, timeframe, cfg) <==> exists k | 0 <= k < |found| :: ArrivesFrom(pools, found, timeframe, cfg, k, p))
    ensures p.timeframe != timeframe && p in Refresh(pools, closed, timeframe, cfg) ==> p in pools
  {
    var found := Discover(closed, timeframe, cfg.discovery);
    FoundAreActive(closed, timeframe, cfg.discovery);
    if p.timeframe == timeframe {
      if p in Refresh(pools, closed, timeframe, cfg) {
        var k := ComesFrom(pools, found, timeframe, cfg, p);
        MergedMeans(found[k], Select(pools, Of(timeframe)), cfg, p);
        assert ArrivesFrom(pools, found, timeframe, cfg, k, p);
      }
      if k :| 0 <= k < |found| && ArrivesFrom(pools, found, timeframe, cfg, k, p) { ArrivedIsHeld(pools, found, timeframe, cfg, k, p); }
    } else {
      RefreshOrigin(pools, closed, timeframe, cfg);
    }
  }

  ghost predicate ArrivesFrom(pools: seq<Pool>, found: seq<Pool>, timeframe: string, cfg: RegistryConfig, k: nat, p: Pool)
    requires k < |found|
  {
    && BecomesAs(found[k], Select(pools, Of(timeframe)), cfg, p)
    && p.strength >= 0.05 && p.status != Invalidated && SurvivesCap(pools, found, timeframe, cfg, k)
  }

  lemma ArrivedIsHeld(pools: seq<Pool>, found: seq<Pool>, timeframe: string, cfg: RegistryConfig, k: nat, p: Pool)
    requires k < |found| && ArrivesFrom(pools, found, timeframe, cfg, k, p)
    ensures p in Strongest(Competing(pools, found, timeframe, cfg), cfg.discovery.maxPools)
  {
    var same, other := Select(pools, Of(timeframe)), Select(pools, NotOf(timeframe));
    MergedMeans(found[k], same, cfg, p);
    KeptPlace(found, same, cfg, k);
    var i := |other| + |Kept(found[..k], same, cfg)|;
    assert Competing(pools, found, timeframe, cfg)[i] == p;
    StrongestIff(Competing(pools, found, timeframe, cfg), cfg.discovery.maxPools, p);
  }

  // ------------------------------------------------------------ decay between bars

  /** So many decays one after the other. */
  function Ticks(pools: seq<Pool>, factor: real, n: nat): (r: seq<Pool>)
    ensures |r| == |pools|
  {
    if n == 0 then pools else TickDecay(Ticks(pools, factor, n - 1), factor)
  }

  function Power(x: real, n: nat): real { if n == 0 then 1.0 else Power(x, n - 1) * x }

  /** The strength that is left. */
  function Left(strength: real, factor: real, n: nat): real {
    if n == 0 then strength else Scale(Left(strength, factor, n - 1), factor)
  }

  /** It is the strength times the `n`-th power of the factor. */
  lemma {:induction false} LeftIsPower(strength: real, factor: real, n: nat)
    ensures Left(strength, factor, n) == strength * Power(factor, n)
  {
    if n > 0 {
      LeftIsPower(strength, factor, n - 1);
      Associates(strength, Power(factor, n - 1), factor);
    }
  }

  lemma Associates(x: real, y: real, z: real)
    ensures x * y * z == x * (y * z)
  {
  }

  /** The pool has faded to a strength: weakened if it was or that is below 0.12; an invalidated one is as it was. */
  predicate FadedTo(p: Pool, r: Pool, strength: real, untouched: bool) {
    if p.status == Invalidated then r == p
    else r == p.(strength := strength, status := if p.status == Weakened || (!untouched && strength < 0.12) then Weakened else Active)
  }

  lemma FadesOn(p: Pool, r: Pool, strength: real, untouched: bool, factor: real)
    requires FadedTo(p, r, strength, untouched) && 0.0 < factor <= 1.0 && 0.0 < strength <= 1.0
    ensures FadedTo(p, Decayed(r, factor), Scale(strength, factor), false)
  {
  }

  /** After `n` decays a live pool has the strength that is left, and is weakened once that is below 0.12; an invalidated
      one is as it was. */
  lemma {:induction false} TicksMean(pools: seq<Pool>, factor: real, n: nat, i: nat)
    requires 0.0 < factor <= 1.0 && i < |pools| && 0.0 < pools[i].strength <= 1.0
    ensures FadedTo(pools[i], Ticks(pools, factor, n)[i], Left(pools[i].strength, factor, n), n == 0)
    ensures 0.0 < Left(pools[i].strength, factor, n) <= 1.0
  {
    if n > 0 {
      TicksMean(pools, factor, n - 1, i);
      FadesOn(pools[i], Ticks(pools, factor, n - 1)[i], Left(pools[i].strength, factor, n - 1), n == 1, factor);
    }
  }
}
