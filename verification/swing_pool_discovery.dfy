/** Liquidity pools from closed candles: five-bar pivots, greedily clustered by price. */
module SwingPoolDiscovery {
  import opened Common
  import opened Candles

  datatype Side = BuySide | SellSide
  datatype Status = Active | Weakened | Invalidated

  /** A pool's id: timeframe, side, and the price rounded to six decimals. */
  datatype PoolId = PoolId(timeframe: string, side: Side, micros: int)

  datatype Pool = Pool(
    id: PoolId, side: Side, price: real, createdAtBarTs: int, strength: real, touches: nat,
    timeframe: string, status: Status, pivotCount: nat)

  datatype DiscoveryConfig = DiscoveryConfig(
    lookbackBars: nat, equalClusterFloorPct: real, equalClusterAtrMult: real, maxPools: nat)

  // ------------------------------------------------------------ volatility

  function TrueRange(a: Candle, b: Candle): real {
    MaxR(a.high - a.low, MaxR(Abs(a.high - b.close), Abs(a.low - b.close)))
  }

  function TrueRanges(xs: seq<Candle>): seq<real> {
    if |xs| <= 1 then []
    else TrueRanges(xs[..|xs| - 1]) + [TrueRange(xs[|xs| - 2], xs[|xs| - 1])]
  }

  /** Average true range in percent of the last close. */
  function AtrPercent(closed: seq<Candle>, period: nat): real
    requires period > 0
  {
    if |closed| < period + 1 then 0.1
    else
      var atr := Sum(TrueRanges(LastRows(closed, period + 1))) / period as real;
      var lastClose := closed[|closed| - 1].close;
      if lastClose <= 0.0 then 0.1 else atr / lastClose * 100.0
  }

  // ------------------------------------------------------------ pivots

  /** The price a side looks at; lows are negated so that an extreme is a maximum on both sides. */
  function Extreme(c: Candle, side: Side): real {
    if side == BuySide then c.high else -c.low
  }

  function PivotPrice(c: Candle, side: Side): real {
    if side == BuySide then c.high else c.low
  }

  /** Strictly beyond the two bars before and the two bars after. */
  predicate IsPivot(closed: seq<Candle>, i: nat, side: Side) {
    && 2 <= i && i + 3 <= |closed|
    && Extreme(closed[i], side) > Extreme(closed[i - 1], side)
    && Extreme(closed[i], side) > Extreme(closed[i - 2], side)
    && Extreme(closed[i], side) > Extreme(closed[i + 1], side)
    && Extreme(closed[i], side) > Extreme(closed[i + 2], side)
  }

  function PivotsBelow(closed: seq<Candle>, side: Side, n: nat): seq<nat> {
    if n == 0 then []
    else PivotsBelow(closed, side, n - 1) + if IsPivot(closed, n - 1, side) then [n - 1] else []
  }

  function Pivots(closed: seq<Candle>, side: Side): seq<nat> {
    PivotsBelow(closed, side, |closed|)
  }

  lemma {:induction false} PivotsBelowExact(closed: seq<Candle>, side: Side, n: nat)
    ensures forall i :: i in PivotsBelow(closed, side, n) <==> 0 <= i < n && IsPivot(closed, i, side)
    ensures forall a, b | 0 <= a < b < |PivotsBelow(closed, side, n)| ::
      PivotsBelow(closed, side, n)[a] < PivotsBelow(closed, side, n)[b]
  {
    if n > 0 {
      PivotsBelowExact(closed, side, n - 1);
      var shorter := PivotsBelow(closed, side, n - 1);
      forall a | 0 <= a < |shorter| ensures shorter[a] < n - 1 { assert shorter[a] in shorter; }
    }
  }

  /** The pivots are exactly the strict five-bar extremes, in order, and at least three bars apart. */
  lemma PivotsExact(closed: seq<Candle>, side: Side)
    ensures forall i :: i in Pivots(closed, side) <==> IsPivot(closed, i, side)
    ensures forall a, b | 0 <= a < b < |Pivots(closed, side)| :: Pivots(closed, side)[a] + 3 <= Pivots(closed, side)[b]
  {
    PivotsBelowExact(closed, side, |closed|);
    var ps := Pivots(closed, side);
    forall a, b | 0 <= a < b < |ps| ensures ps[a] + 3 <= ps[b] {
      assert ps[a] in ps && ps[b] in ps;
      assert IsPivot(closed, ps[a], side) && IsPivot(closed, ps[b], side);
    }
  }

  method PivotHighLowIndices(closed: seq<Candle>) returns (highs: seq<nat>, lows: seq<nat>)
    ensures highs == Pivots(closed, BuySide) && lows == Pivots(closed, SellSide)
  {
    highs, lows := [], [];
    for i := 0 to |closed|
      invariant highs == PivotsBelow(closed, BuySide, i) && lows == PivotsBelow(closed, SellSide, i)
    {
      if 2 <= i <= |closed| - 3 {
        var c, p1, p2, n1, n2 := closed[i], closed[i - 1], closed[i - 2], closed[i + 1], closed[i + 2];
        if c.high > p1.high && c.high > p2.high && c.high > n1.high && c.high > n2.high { highs := highs + [i]; }
        if c.low < p1.low && c.low < p2.low && c.low < n1.low && c.low < n2.low { lows := lows + [i]; }
      }
    }
  }

  // ------------------------------------------------------------ greedy clusters

  datatype Pivot = Pivot(index: nat, price: real)

  type Cluster = seq<Pivot>

  /** Whether two prices belong together. */
  type Nearness = (real, real) -> bool

  /** The relative distance of two prices, in percent, is within the threshold. */
  predicate Close(thresholdPct: real, a: real, b: real) {
    var half := (Abs(a) + Abs(b)) / 2.0;
    var mid := if half == 0.0 then 1.0 else half;
    Abs(a - b) / mid * 100.0 <= thresholdPct
  }

  function Within(thresholdPct: real): Nearness {
    (a, b) => Close(thresholdPct, a, b)
  }

  function Near(near: Nearness, leader: Pivot, ps: seq<Pivot>): seq<Pivot> {
    if ps == [] then []
    else
      var p := ps[|ps| - 1];
      var before := Near(near, leader, ps[..|ps| - 1]);
      if near(leader.price, p.price) then before + [p] else before
  }

  function Far(near: Nearness, leader: Pivot, ps: seq<Pivot>): (r: seq<Pivot>)
    ensures |r| <= |ps|
  {
    if ps == [] then []
    else
      var p := ps[|ps| - 1];
      var before := Far(near, leader, ps[..|ps| - 1]);
      if near(leader.price, p.price) then before else before + [p]
  }

  /** The first pivot leads; it takes every pivot near it; the others are clustered in the same way. */
  function Clusters(near: Nearness, ps: seq<Pivot>): seq<Cluster>
    decreases |ps|
  {
    if ps == [] then []
    else [[ps[0]] + Near(near, ps[0], ps[1..])] + Clusters(near, Far(near, ps[0], ps[1..]))
  }

  function Flatten(cs: seq<Cluster>): seq<Pivot> {
    if cs == [] then [] else cs[0] + Flatten(cs[1..])
  }

  lemma NearFarPush(near: Nearness, leader: Pivot, ps: seq<Pivot>, p: Pivot)
    ensures Near(near, leader, ps + [p]) == if near(leader.price, p.price) then Near(near, leader, ps) + [p] else Near(near, leader, ps)
    ensures Far(near, leader, ps + [p]) == if near(leader.price, p.price) then Far(near, leader, ps) else Far(near, leader, ps) + [p]
  {
    assert (ps + [p])[..|ps|] == ps;
  }

  lemma {:induction false} NearFarSort(near: Nearness, leader: Pivot, ps: seq<Pivot>)
    ensures forall p | p in Near(near, leader, ps) :: near(leader.price, p.price)
    ensures forall p | p in Far(near, leader, ps) :: !near(leader.price, p.price)
  {
    if ps != [] { NearFarSort(near, leader, ps[..|ps| - 1]); }
  }

  lemma {:induction false} NearFarSplit(near: Nearness, leader: Pivot, ps: seq<Pivot>)
    ensures multiset(Near(near, leader, ps)) + multiset(Far(near, leader, ps)) == multiset(ps)
  {
    if ps != [] {
      var n := |ps| - 1;
      NearFarSplit(near, leader, ps[..n]);
      assert ps == ps[..n] + [ps[n]];
      NearFarPush(near, leader, ps[..n], ps[n]);
    }
  }

  /** Each pivot lands in exactly one cluster, as often as it was given. */
  lemma {:induction false} ClustersPartition(near: Nearness, ps: seq<Pivot>)
    ensures multiset(Flatten(Clusters(near, ps))) == multiset(ps)
    decreases |ps|
  {
    if ps != [] {
      NearFarSplit(near, ps[0], ps[1..]);
      ClustersPartition(near, Far(near, ps[0], ps[1..]));
      var cs := Clusters(near, ps);
      assert cs[1..] == Clusters(near, Far(near, ps[0], ps[1..]));
      assert ps == [ps[0]] + ps[1..];
    }
  }

  lemma {:induction false} InSomeCluster(cs: seq<Cluster>, i: nat, p: Pivot)
    requires i < |cs| && p in cs[i]
    ensures p in Flatten(cs)
  {
    if i > 0 { InSomeCluster(cs[1..], i - 1, p); }
  }

  /** No cluster is empty, its members are near its first pivot, and everything in a later cluster is far
      from the first pivot of every earlier one. */
  ghost predicate Separated(near: Nearness, cs: seq<Cluster>) {
    && (forall i | 0 <= i < |cs| :: cs[i] != [])
    && (forall i, k | 0 <= i < |cs| && 0 < k < |cs[i]| :: near(cs[i][0].price, cs[i][k].price))
    && (forall i, j, k | 0 <= i < j < |cs| && 0 <= k < |cs[j]| :: !near(cs[i][0].price, cs[j][k].price))
  }

  lemma SeparatedCons(near: Nearness, first: Cluster, rest: seq<Cluster>)
    requires first != [] && Separated(near, rest)
    requires forall k | 0 < k < |first| :: near(first[0].price, first[k].price)
    requires forall j, k | 0 <= j < |rest| && 0 <= k < |rest[j]| :: !near(first[0].price, rest[j][k].price)
    ensures Separated(near, [first] + rest)
  {
    var cs: seq<Cluster> := [first] + rest;
    forall i, j, k | 0 <= i < j < |cs| && 0 <= k < |cs[j]| ensures !near(cs[i][0].price, cs[j][k].price) {
      assert cs[j] == rest[j - 1];
      if i > 0 { assert cs[i] == rest[i - 1]; }
    }
  }

  /** Greedy clustering is a threshold partition; in particular first pivots are far apart. */
  lemma {:induction false} ClustersSeparate(near: Nearness, ps: seq<Pivot>)
    ensures Separated(near, Clusters(near, ps))
    decreases |ps|
  {
    if ps != [] {
      var far := Far(near, ps[0], ps[1..]);
      NearFarSort(near, ps[0], ps[1..]);
      ClustersSeparate(near, far);
      ClustersPartition(near, far);
      var first: Cluster := [ps[0]] + Near(near, ps[0], ps[1..]);
      var rest: seq<Cluster> := Clusters(near, far);
      forall k | 0 < k < |first| ensures near(first[0].price, first[k].price) {
        assert first[k] in Near(near, ps[0], ps[1..]);
      }
      forall j, k | 0 <= j < |rest| && 0 <= k < |rest[j]| ensures !near(first[0].price, rest[j][k].price) {
        InSomeCluster(rest, j, rest[j][k]);
        InMultiset(Flatten(rest), far, rest[j][k]);
      }
      SeparatedCons(near, first, rest);
    }
  }

  // ---- the loop with a used-set computes these clusters

  /** Positions of [lo, hi) not yet used. */
  function Unused(ps: seq<Pivot>, used: set<nat>, lo: nat, hi: nat): seq<Pivot>
    requires hi <= |ps|
  {
    if lo >= hi then []
    else if hi - 1 in used then Unused(ps, used, lo, hi - 1)
    else Unused(ps, used, lo, hi - 1) + [ps[hi - 1]]
  }

  lemma {:induction false} UnusedFirst(ps: seq<Pivot>, used: set<nat>, lo: nat, hi: nat)
    requires lo < hi <= |ps|
    ensures Unused(ps, used, lo, hi) ==
      if lo in used then Unused(ps, used, lo + 1, hi) else [ps[lo]] + Unused(ps, used, lo + 1, hi)
  {
    if lo + 1 < hi { UnusedFirst(ps, used, lo, hi - 1); }
  }

  lemma {:induction false} UnusedAll(ps: seq<Pivot>, hi: nat)
    requires hi <= |ps|
    ensures Unused(ps, {}, 0, hi) == ps[..hi]
  {
    if hi > 0 { UnusedAll(ps, hi - 1); }
  }

  lemma {:induction false} UnusedFar(near: Nearness, leader: Pivot, ps: seq<Pivot>, before: set<nat>, after: set<nat>, lo: nat, hi: nat)
    requires hi <= |ps|
    requires forall k | lo <= k < hi :: k in after <==> k in before || near(leader.price, ps[k].price)
    ensures Unused(ps, after, lo, hi) == Far(near, leader, Unused(ps, before, lo, hi))
  {
    if lo < hi {
      UnusedFar(near, leader, ps, before, after, lo, hi - 1);
      NearFarPush(near, leader, Unused(ps, before, lo, hi - 1), ps[hi - 1]);
    }
  }

  method ClusterPrices(near: Nearness, ps: seq<Pivot>) returns (clusters: seq<Cluster>)
    ensures clusters == Clusters(near, ps)
  {
    clusters := [];
    var used: set<nat> := {};
    UnusedAll(ps, |ps|);
    assert ps[..|ps|] == ps;
    for a := 0 to |ps|
      invariant clusters + Clusters(near, Unused(ps, used, a, |ps|)) == Clusters(near, ps)
    {
      UnusedFirst(ps, used, a, |ps|);
      if a !in used {
        var group, now := Gather(near, ps, a, used);
        GroupDone(near, ps, a, used, now, clusters, group);
        used := now;
        clusters := clusters + [group];
      }
    }
  }

  /** A gathered group is the next cluster, and the rest is clustered without it. */
  lemma GroupDone(near: Nearness, ps: seq<Pivot>, a: nat, used: set<nat>, now: set<nat>, done: seq<Cluster>, group: Cluster)
    requires a < |ps| && a !in used && group == [ps[a]] + Near(near, ps[a], Unused(ps, used, a + 1, |ps|))
    requires forall k | a < k < |ps| :: k in now <==> k in used || near(ps[a].price, ps[k].price)
    ensures done + Clusters(near, Unused(ps, used, a, |ps|)) == done + [group] + Clusters(near, Unused(ps, now, a + 1, |ps|))
  {
    var rest := Unused(ps, used, a + 1, |ps|);
    UnusedFirst(ps, used, a, |ps|);
    assert Unused(ps, now, a + 1, |ps|) == Far(near, ps[a], rest) by {
      UnusedFar(near, ps[a], ps, used, now, a + 1, |ps|);
    }
    LeaderFirst(near, done, ps[a], rest);
  }

  lemma LeaderFirst(near: Nearness, done: seq<Cluster>, leader: Pivot, rest: seq<Pivot>)
    ensures done + Clusters(near, [leader] + rest)
         == (done + [[leader] + Near(near, leader, rest)]) + Clusters(near, Far(near, leader, rest))
  {
    assert ([leader] + rest)[1..] == rest;
  }

  /** What the pivot at `b` adds to the group. */
  lemma NextUnused(near: Nearness, ps: seq<Pivot>, a: nat, used: set<nat>, b: nat)
    requires a < b < |ps|
    ensures Near(near, ps[a], Unused(ps, used, a + 1, b + 1)) ==
      if b !in used && near(ps[a].price, ps[b].price) then Near(near, ps[a], Unused(ps, used, a + 1, b)) + [ps[b]]
      else Near(near, ps[a], Unused(ps, used, a + 1, b))
  {
    NearFarPush(near, ps[a], Unused(ps, used, a + 1, b), ps[b]);
  }

  /** The inner loop: the unused pivots after `a` that are near it join its group. */
  method Gather(near: Nearness, ps: seq<Pivot>, a: nat, used: set<nat>) returns (group: Cluster, now: set<nat>)
    requires a < |ps| && a !in used
    ensures group == [ps[a]] + Near(near, ps[a], Unused(ps, used, a + 1, |ps|))
    ensures forall k | a < k < |ps| :: k in now <==> k in used || near(ps[a].price, ps[k].price)
  {
    group, now := [ps[a]], used + {a};
    for b := a + 1 to |ps|
      invariant group == [ps[a]] + Near(near, ps[a], Unused(ps, used, a + 1, b))
      invariant forall k | a < k < b :: k in now <==> k in used || near(ps[a].price, ps[k].price)
      invariant forall k | b <= k :: k in now <==> k in used
    {
      NextUnused(near, ps, a, used, b);
      assert b in now <==> b in used;
      if b !in now && near(ps[a].price, ps[b].price) {
        group := group + [ps[b]];
        now := now + {b};
      }
    }
  }

  // ------------------------------------------------------------ pools

  function Prices(c: Cluster): seq<real> {
    if c == [] then [] else Prices(c[..|c| - 1]) + [c[|c| - 1].price]
  }

  lemma {:induction false} PricesAt(c: Cluster)
    ensures |Prices(c)| == |c| && forall i | 0 <= i < |c| :: Prices(c)[i] == c[i].price
  {
    if c != [] { PricesAt(c[..|c| - 1]); }
  }

  function CenterPrice(c: Cluster): real {
    Mean(Prices(c))
  }

  /** The nearest multiple of a millionth, ties upwards. */
  function Micros(price: real): int {
    if price < 0.0 then -((-price * 1000000.0 + 0.5).Floor) else (price * 1000000.0 + 0.5).Floor
  }

  function Latest(c: Cluster, closed: seq<Candle>): int
    requires c != [] && forall p | p in c :: p.index < |closed|
  {
    var last := closed[c[|c| - 1].index].timestamp;
    if |c| == 1 then last
    else
      var before := Latest(c[..|c| - 1], closed);
      if before > last then before else last
  }

  function PoolOf(c: Cluster, closed: seq<Candle>, timeframe: string, side: Side): Pool
    requires c != [] && forall p | p in c :: p.index < |closed|
  {
    var price := CenterPrice(c);
    Pool(PoolId(timeframe, side, Micros(price)), side, price, Latest(c, closed),
         MinR(1.0, 0.5 + |c| as real * 0.1), 0, timeframe, Active, |c|)
  }

  ghost predicate IndexesInto(cs: seq<Cluster>, closed: seq<Candle>) {
    forall i | 0 <= i < |cs| :: forall p | p in cs[i] :: p.index < |closed|
  }

  /** Pools of the clusters with at least two pivots, in cluster order. */
  function PoolsOf(cs: seq<Cluster>, closed: seq<Candle>, timeframe: string, side: Side): seq<Pool>
    requires IndexesInto(cs, closed)
  {
    if cs == [] then []
    else
      var c := cs[|cs| - 1];
      PoolsOf(cs[..|cs| - 1], closed, timeframe, side)
      + if |c| < 2 then [] else [PoolOf(c, closed, timeframe, side)]
  }

  function PivotsAt(closed: seq<Candle>, indices: seq<nat>, side: Side): (r: seq<Pivot>)
    requires forall i | i in indices :: i < |closed|
    ensures |r| == |indices|
    ensures forall k | 0 <= k < |r| :: indices[k] in indices && r[k] == Pivot(indices[k], PivotPrice(closed[indices[k]], side))
  {
    if indices == [] then []
    else
      var n := |indices| - 1;
      assert indices[n] in indices && forall i | i in indices[..n] :: i in indices;
      PivotsAt(closed, indices[..n], side) + [Pivot(indices[n], PivotPrice(closed[indices[n]], side))]
  }

  function SideClusters(closed: seq<Candle>, side: Side, t: real): (cs: seq<Cluster>)
    ensures IndexesInto(cs, closed)
  {
    PivotsExact(closed, side);
    var ps := PivotsAt(closed, Pivots(closed, side), side);
    ClustersIndex(closed, Within(t), ps);
    Clusters(Within(t), ps)
  }

  lemma ClustersIndex(closed: seq<Candle>, near: Nearness, ps: seq<Pivot>)
    requires forall k | 0 <= k < |ps| :: ps[k].index < |closed|
    ensures IndexesInto(Clusters(near, ps), closed)
  {
    var cs := Clusters(near, ps);
    ClustersPartition(near, ps);
    forall i, p: Pivot | 0 <= i < |cs| && p in cs[i] ensures p.index < |closed| {
      InSomeCluster(cs, i, p);
      InMultiset(Flatten(cs), ps, p);
    }
  }

  function Threshold(window: seq<Candle>, cfg: DiscoveryConfig): real {
    MaxR(cfg.equalClusterFloorPct, AtrPercent(window, 14) * cfg.equalClusterAtrMult)
  }

  function Candidates(window: seq<Candle>, timeframe: string, cfg: DiscoveryConfig): seq<Pool> {
    var t := Threshold(window, cfg);
    PoolsOf(SideClusters(window, BuySide, t), window, timeframe, BuySide)
    + PoolsOf(SideClusters(window, SellSide, t), window, timeframe, SellSide)
  }

  function Weakness(p: Pool): real { -p.strength }

  function Strongest(pools: seq<Pool>, n: nat): (r: seq<Pool>)
    ensures |r| == MinI(n, |pools|)
  {
    var sorted := Sort(Weakness, pools);
    sorted[..MinI(n, |pools|)]
  }

  function Window(closed: seq<Candle>, cfg: DiscoveryConfig): seq<Candle> {
    LastRows(closed, MinI(|closed|, cfg.lookbackBars))
  }

  function Discover(closed: seq<Candle>, timeframe: string, cfg: DiscoveryConfig): seq<Pool> {
    if |closed| < 10 then [] else Strongest(Candidates(Window(closed, cfg), timeframe, cfg), cfg.maxPools)
  }

  // ------------------------------------------------------------ what a pool promises

  /** The price lies between the prices of two members. */
  ghost predicate InHull(c: Cluster, price: real) {
    exists i, j :: 0 <= i < |c| && 0 <= j < |c| && c[i].price <= price <= c[j].price
  }

  lemma {:induction false} Extremes(c: Cluster) returns (lo: nat, hi: nat)
    requires c != []
    ensures lo < |c| && hi < |c| && forall k | 0 <= k < |c| :: c[lo].price <= c[k].price <= c[hi].price
  {
    lo, hi := 0, 0;
    if |c| > 1 {
      var n := |c| - 1;
      lo, hi := Extremes(c[..n]);
      assert forall k | 0 <= k < n :: c[..n][k] == c[k];
      if c[n].price < c[lo].price { lo := n; }
      if c[n].price > c[hi].price { hi := n; }
    }
  }

  /** A pool's price lies in the hull of its cluster's prices. */
  lemma CenterInHull(c: Cluster)
    requires c != []
    ensures InHull(c, CenterPrice(c))
  {
    var lo, hi := Extremes(c);
    PricesAt(c);
    MeanInHull(Prices(c), c[lo].price, c[hi].price);
  }

  /** Where a pool comes from: a cluster of at least two pivots of its side, all near the first one. */
  ghost predicate FromCluster(pool: Pool, window: seq<Candle>, near: Nearness, c: Cluster) {
    && |c| >= 2 && pool.pivotCount == |c|
    && (forall k | 0 <= k < |c| :: IsPivot(window, c[k].index, pool.side) && c[k].price == PivotPrice(window[c[k].index], pool.side))
    && (forall k | 0 < k < |c| :: near(c[0].price, c[k].price))
    && InHull(c, pool.price)
    && 0.7 <= pool.strength <= 1.0 && pool.status == Active && pool.touches == 0
  }

  lemma {:induction false} PoolsOfOrigin(cs: seq<Cluster>, window: seq<Candle>, timeframe: string, side: Side, pool: Pool) returns (i: nat)
    requires IndexesInto(cs, window) && pool in PoolsOf(cs, window, timeframe, side)
    ensures i < |cs| && |cs[i]| >= 2 && pool == PoolOf(cs[i], window, timeframe, side)
  {
    var n := |cs| - 1;
    if |cs[n]| >= 2 && pool == PoolOf(cs[n], window, timeframe, side) {
      i := n;
    } else {
      i := PoolsOfOrigin(cs[..n], window, timeframe, side, pool);
    }
  }

  lemma MembersArePivots(window: seq<Candle>, side: Side, near: Nearness, ps: seq<Pivot>, i: nat, k: nat)
    requires forall i | i in Pivots(window, side) :: i < |window|
    requires ps == PivotsAt(window, Pivots(window, side), side)
    requires i < |Clusters(near, ps)| && k < |Clusters(near, ps)[i]|
    ensures var p := Clusters(near, ps)[i][k];
      IsPivot(window, p.index, side) && p.price == PivotPrice(window[p.index], side)
  {
    var cs := Clusters(near, ps);
    ClustersPartition(near, ps);
    PivotsExact(window, side);
    InSomeCluster(cs, i, cs[i][k]);
    InMultiset(Flatten(cs), ps, cs[i][k]);
    var m :| 0 <= m < |ps| && ps[m] == cs[i][k];
    assert ps[m].index in Pivots(window, side);
  }

  lemma SidePoolOrigin(window: seq<Candle>, timeframe: string, side: Side, t: real, pool: Pool)
    requires pool in PoolsOf(SideClusters(window, side, t), window, timeframe, side)
    ensures pool.side == side && pool.timeframe == timeframe && exists c :: FromCluster(pool, window, Within(t), c)
  {
    var near := Within(t);
    var cs := SideClusters(window, side, t);
    var i := PoolsOfOrigin(cs, window, timeframe, side, pool);
    PivotsExact(window, side);
    var ps := PivotsAt(window, Pivots(window, side), side);
    ClustersSeparate(near, ps);
    forall k | 0 <= k < |cs[i]|
      ensures IsPivot(window, cs[i][k].index, side) && cs[i][k].price == PivotPrice(window[cs[i][k].index], side)
    {
      MembersArePivots(window, side, near, ps, i, k);
    }
    CenterInHull(cs[i]);
    assert FromCluster(pool, window, near, cs[i]);
  }

  /** Every discovered pool is the centre of a cluster of pivots, and no stronger candidate was left out. */
  lemma DiscoveredPools(closed: seq<Candle>, timeframe: string, cfg: DiscoveryConfig)
    requires |closed| >= 10
    ensures |Discover(closed, timeframe, cfg)| <= cfg.maxPools
    ensures forall p | p in Discover(closed, timeframe, cfg) ::
      p.timeframe == timeframe && exists c :: FromCluster(p, Window(closed, cfg), Within(Threshold(Window(closed, cfg), cfg)), c)
    ensures forall p, q | p in Discover(closed, timeframe, cfg) && q in Candidates(Window(closed, cfg), timeframe, cfg)
      :: q in Discover(closed, timeframe, cfg) || q.strength <= p.strength
  {
    var w := Window(closed, cfg);
    var t := Threshold(w, cfg);
    var all := Candidates(w, timeframe, cfg);
    var sorted := Sort(Weakness, all);
    var found := Discover(closed, timeframe, cfg);
    forall p | p in found
      ensures p.timeframe == timeframe && exists c :: FromCluster(p, w, Within(t), c)
    {
      assert p in sorted;
      InMultiset(sorted, all, p);
      if p in PoolsOf(SideClusters(w, BuySide, t), w, timeframe, BuySide) {
        SidePoolOrigin(w, timeframe, BuySide, t, p);
      } else {
        SidePoolOrigin(w, timeframe, SellSide, t, p);
      }
    }
    StrongestFirst(all, cfg.maxPools);
  }

  /** What is cut off is never stronger than what is kept. */
  lemma StrongestFirst(pools: seq<Pool>, n: nat)
    ensures forall p | p in Strongest(pools, n) :: p in pools
    ensures forall p, q | p in Strongest(pools, n) && q in pools :: q in Strongest(pools, n) || q.strength <= p.strength
    ensures forall i, j | 0 <= i < j < |Strongest(pools, n)| :: Strongest(pools, n)[j].strength <= Strongest(pools, n)[i].strength
  {
    var sorted := Sort(Weakness, pools);
    SortSorts(Weakness, pools);
    var kept := Strongest(pools, n);
    forall p | p in kept ensures p in pools {
      assert p in sorted;
      InMultiset(sorted, pools, p);
    }
    forall p, q | p in kept && q in pools && q !in kept ensures q.strength <= p.strength {
      InMultiset(sorted, pools, q);
      var i :| 0 <= i < |kept| && kept[i] == p;
      var j :| 0 <= j < |sorted| && sorted[j] == q;
      assert j >= |kept|;
      assert Weakness(sorted[i]) <= Weakness(sorted[j]);
    }
    forall i, j | 0 <= i < j < |kept| ensures kept[j].strength <= kept[i].strength {
      assert Weakness(sorted[i]) <= Weakness(sorted[j]);
    }
  }

  method DiscoverLiquidityPools(closed: seq<Candle>, timeframe: string, cfg: DiscoveryConfig) returns (pools: seq<Pool>)
    ensures pools == Discover(closed, timeframe, cfg)
  {
    if |closed| < 10 { return []; }
    var window := Window(closed, cfg);
    var t := Threshold(window, cfg);
    var highs, lows := PivotHighLowIndices(window);
    PivotsExact(window, BuySide);
    PivotsExact(window, SellSide);
    var highClusters := ClusterPrices(Within(t), PivotsAt(window, highs, BuySide));
    var lowClusters := ClusterPrices(Within(t), PivotsAt(window, lows, SellSide));
    assert highClusters == SideClusters(window, BuySide, t) && lowClusters == SideClusters(window, SellSide, t);
    var high := PoolsFromClusters(highClusters, window, timeframe, BuySide);
    var low := PoolsFromClusters(lowClusters, window, timeframe, SellSide);
    pools := Strongest(high + low, cfg.maxPools);
  }

  method PoolsFromClusters(cs: seq<Cluster>, window: seq<Candle>, timeframe: string, side: Side) returns (pools: seq<Pool>)
    requires IndexesInto(cs, window)
    ensures pools == PoolsOf(cs, window, timeframe, side)
  {
    pools := [];
    for i := 0 to |cs|
      invariant pools == PoolsOf(cs[..i], window, timeframe, side)
    {
      assert cs[..i + 1][..i] == cs[..i];
      if |cs[i]| >= 2 { pools := pools + [PoolOf(cs[i], window, timeframe, side)]; }
    }
    assert cs[..|cs|] == cs;
  }
}
