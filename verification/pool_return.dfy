/** A concrete pool that is broken out of and is active again after the next refresh. */
module PoolReturns {
  import opened Common
  import opened Candles
  import opened SwingPoolDiscovery
  import opened LiquidityPoolRegistry
  import opened LiquidityEngine

  /** Ten bars with equal lows and two equal peaks, and perhaps one more of any kind. */
  ghost predicate TwoPeaks(bars: seq<Candle>) {
    && 10 <= |bars| <= 11
    && forall i | 0 <= i < 10 :: bars[i].timestamp == i && bars[i].low == 0.5 && bars[i].high == if i == 2 || i == 5 then 2.0 else 1.0
  }

  function Peaks(): (bars: seq<Candle>)
    ensures TwoPeaks(bars)
  {
    seq(10, i => Candle(i, 1.0, if i == 2 || i == 5 then 2.0 else 1.0, 0.5, 1.0, 1.0))
  }

  lemma {:induction false} PeakPivots(bars: seq<Candle>, n: nat)
    requires TwoPeaks(bars) && n <= |bars|
    ensures PivotsBelow(bars, BuySide, n) == (if n > 2 then [2] else []) + if n > 5 then [5] else []
    ensures PivotsBelow(bars, SellSide, n) == []
  {
    if n > 0 {
      PeakPivots(bars, n - 1);
      var i := n - 1;
      assert IsPivot(bars, i, BuySide) <==> i == 2 || i == 5;
      assert !IsPivot(bars, i, SellSide);
    }
  }

  function PeakCluster(): Cluster { [Pivot(2, 2.0), Pivot(5, 2.0)] }

  lemma OneCluster(near: Nearness, p: Pivot, q: Pivot)
    requires near(p.price, q.price)
    ensures Clusters(near, [p, q]) == [[p, q]]
  {
    assert [p, q][1..] == [q] && [q][..0] == [];
    assert Near(near, p, [q]) == [q] && Far(near, p, [q]) == [];
    assert [p] + [q] == [p, q];
  }

  lemma PeakPivotsAt(bars: seq<Candle>)
    requires TwoPeaks(bars)
    ensures PivotsAt(bars, [2, 5], BuySide) == PeakCluster()
  {
    assert forall i: nat | i in [2, 5] :: i < |bars|;
  }

  lemma PeakClusters(bars: seq<Candle>, t: real)
    requires TwoPeaks(bars) && t >= 0.0
    ensures SideClusters(bars, BuySide, t) == [PeakCluster()] && SideClusters(bars, SellSide, t) == []
  {
    PeakPivots(bars, |bars|);
    assert Pivots(bars, BuySide) == [2, 5] && Pivots(bars, SellSide) == [];
    PeakPivotsAt(bars);
    assert Close(t, 2.0, 2.0);
    OneCluster(Within(t), Pivot(2, 2.0), Pivot(5, 2.0));
  }

  function PeakPool(timeframe: string): Pool {
    Pool(PoolId(timeframe, BuySide, Micros(2.0)), BuySide, 2.0, 5, 0.7, 0, timeframe, Active, 2)
  }

  lemma PeakCenter()
    ensures CenterPrice(PeakCluster()) == 2.0
  {
    var c := PeakCluster();
    PricesAt(c);
    MeanInHull(Prices(c), 2.0, 2.0);
  }

  lemma PeakLatest(bars: seq<Candle>)
    requires TwoPeaks(bars)
    ensures Latest(PeakCluster(), bars) == 5
  {
    var c := PeakCluster();
    assert c[..1] == [Pivot(2, 2.0)];
    assert Latest(c[..1], bars) == 2;
  }

  lemma PeakPools(bars: seq<Candle>, timeframe: string)
    requires TwoPeaks(bars)
    ensures PoolsOf([PeakCluster()], bars, timeframe, BuySide) == [PeakPool(timeframe)]
  {
    var cs: seq<Cluster> := [PeakCluster()];
    assert cs[..0] == [];
    PeakCenter();
    PeakLatest(bars);
  }

  lemma PeaksDiscovered(bars: seq<Candle>, timeframe: string, cfg: DiscoveryConfig)
    requires TwoPeaks(bars) && cfg.lookbackBars >= 11 && cfg.equalClusterFloorPct >= 0.0 && cfg.maxPools >= 1
    ensures Discover(bars, timeframe, cfg) == [PeakPool(timeframe)]
  {
    assert Window(bars, cfg) == bars;
    PeakClusters(bars, Threshold(bars, cfg));
    PeakPools(bars, timeframe);
    assert Candidates(bars, timeframe, cfg) == [PeakPool(timeframe)];
    OneIsStrongest(PeakPool(timeframe), cfg.maxPools);
  }

  lemma OneIsStrongest(p: Pool, n: nat)
    requires n >= 1
    ensures Strongest([p], n) == [p]
  {
    assert Sort(Weakness, [p]) == [p];
  }

  ghost predicate Roomy(cfg: RegistryConfig) {
    && cfg.discovery.lookbackBars >= 11 && cfg.discovery.maxPools >= 1
    && cfg.discovery.equalClusterFloorPct >= 0.0 && 0.1 <= cfg.decay <= 1.0
  }

  lemma FirstRefresh(bars: seq<Candle>, timeframe: string, cfg: RegistryConfig)
    requires TwoPeaks(bars) && Roomy(cfg)
    ensures Refresh([], bars, timeframe, cfg) == [PeakPool(timeframe)]
  {
    PeaksDiscovered(bars, timeframe, cfg.discovery);
    RefreshedAlone([], bars, PeakPool(timeframe), timeframe, cfg);
  }

  lemma SecondRefresh(bars: seq<Candle>, timeframe: string, cfg: RegistryConfig, broken: Pool)
    requires TwoPeaks(bars) && Roomy(cfg) && broken == PeakPool(timeframe).(status := Invalidated)
    ensures var again := Refresh([broken], bars, timeframe, cfg);
      |again| == 1 && again[0].id == broken.id && again[0].status == Active
  {
    PeaksDiscovered(bars, timeframe, cfg.discovery);
    MergedAlone(PeakPool(timeframe), broken, cfg);
    RefreshedAlone([broken], bars, PeakPool(timeframe), timeframe, cfg);
  }

  lemma BrokenOutIsInvalidated(st: PairState, cfg: EngineConfig, nowMs: int)
    requires |st.pools| == 1
    ensures SettleBar(st, 0, BrokenOut, cfg, nowMs).pools == [st.pools[0].(status := Invalidated)]
  {
  }

  /** The pool of two peaks, broken out of and so invalidated, is active again after the next refresh from the same
      bars. */
  lemma BrokenPoolReturns(timeframe: string, cfg: EngineConfig, st: PairState, nowMs: int)
    requires Roomy(cfg.registry) && st.pools == Refresh([], Peaks(), timeframe, cfg.registry)
    ensures |st.pools| == 1 && st.pools[0].status == Active
    ensures var broken := SettleBar(st, 0, BrokenOut, cfg, nowMs).pools;
      var again := Refresh(broken, Peaks(), timeframe, cfg.registry);
      && broken == [st.pools[0].(status := Invalidated)]
      && |again| == 1 && again[0].id == st.pools[0].id && again[0].status == Active
  {
    FirstRefresh(Peaks(), timeframe, cfg.registry);
    BrokenOutIsInvalidated(st, cfg, nowMs);
    SecondRefresh(Peaks(), timeframe, cfg.registry, st.pools[0].(status := Invalidated));
  }

  lemma MergedAlone(p: Pool, broken: Pool, cfg: RegistryConfig)
    requires p.strength == 0.7 && p.status == Active && broken == p.(status := Invalidated) && 0.1 <= cfg.decay <= 1.0
    ensures var m := MergePool(p, [broken], cfg); m.id == p.id && m.status == Active && m.strength >= 0.05
  {
    assert FirstWithId([broken], p.id) == 0;
    assert Scale(0.7, cfg.decay) >= 0.05;
  }

  /** A refresh of no more than one pool of the timeframe by one discovered pool. */
  lemma RefreshedAlone(pools: seq<Pool>, bars: seq<Candle>, found: Pool, timeframe: string, cfg: RegistryConfig)
    requires Discover(bars, timeframe, cfg.discovery) == [found] && cfg.discovery.maxPools >= 1
    requires |pools| <= 1 && forall p | p in pools :: p.timeframe == timeframe
    requires StrongEnough(MergePool(found, pools, cfg))
    ensures Refresh(pools, bars, timeframe, cfg) == [MergePool(found, pools, cfg)]
  {
    SelectAll(pools, timeframe);
    KeptStep([found], pools, cfg);
    assert [found][..0] == [];
    OneIsStrongest(MergePool(found, pools, cfg), cfg.discovery.maxPools);
  }

  lemma SelectAll(pools: seq<Pool>, timeframe: string)
    requires |pools| <= 1 && forall p | p in pools :: p.timeframe == timeframe
    ensures Select(pools, Of(timeframe)) == pools && Select(pools, NotOf(timeframe)) == []
  {
    if |pools| == 1 { assert pools[0] in pools && pools[..0] == []; }
  }
}
