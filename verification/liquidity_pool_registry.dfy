/** The registry of liquidity pools of a pair: refresh from closed bars, decay between bars, touches. */
module LiquidityPoolRegistry {
  import opened Common
  import opened Candles
  import opened SwingPoolDiscovery

  /** `tickFactor` is the decay applied between bars, a fixed power of `decay`. */
  datatype RegistryConfig = RegistryConfig(discovery: DiscoveryConfig, decay: real, tickFactor: real)

  ghost predicate ValidConfig(cfg: RegistryConfig) {
    0.0 < cfg.decay <= 1.0 && 0.0 < cfg.tickFactor <= 1.0
  }

  /** Index of the first pool with the property, or the length if there is none. */
  function First(pools: seq<Pool>, test: Pool -> bool): (i: nat)
    ensures i <= |pools|
    ensures i < |pools| ==> test(pools[i])
    ensures forall k | 0 <= k < i :: !test(pools[k])
  {
    if pools == [] then 0
    else if test(pools[0]) then 0
    else 1 + First(pools[1..], test)
  }

  function FirstWithId(pools: seq<Pool>, id: PoolId): nat {
    First(pools, (p: Pool) => p.id == id)
  }

  /** A strength after a decay: smaller, never gone. */
  function Scale(x: real, factor: real): (r: real)
    ensures 0.0 < x && 0.0 < factor <= 1.0 ==> 0.0 < r <= x
  {
    assert 0.0 < x && 0.0 < factor <= 1.0 ==> 0.0 < x * factor && x * (1.0 - factor) >= 0.0;
    x * factor
  }

  /** The earlier pool a newly discovered one continues: same id, else the first of its side close in price. */
  function Continued(pool: Pool, previous: seq<Pool>, floorPct: real): Option<Pool> {
    var byId := FirstWithId(previous, pool.id);
    if byId < |previous| then Some(previous[byId])
    else
      var byPrice := First(previous, (p: Pool) => p.side == pool.side && Close(floorPct, p.price, pool.price));
      if byPrice < |previous| then Some(previous[byPrice]) else None
  }

  function MergePool(pool: Pool, previous: seq<Pool>, cfg: RegistryConfig): Pool {
    match Continued(pool, previous, cfg.discovery.equalClusterFloorPct)
    case None => pool
    case Some(e) =>
      pool.(id := e.id, touches := e.touches, strength := Scale(e.strength, cfg.decay),
            status := if e.status == Weakened then Weakened else pool.status)
  }

  function Of(timeframe: string): Pool -> bool {
    (p: Pool) => p.timeframe == timeframe
  }

  function NotOf(timeframe: string): Pool -> bool {
    (p: Pool) => p.timeframe != timeframe
  }

  function Select(pools: seq<Pool>, test: Pool -> bool): (r: seq<Pool>)
    ensures forall p :: p in r <==> p in pools && test(p)
    ensures |r| <= |pools|
  {
    if pools == [] then []
    else
      var rest := Select(pools[..|pools| - 1], test);
      if test(pools[|pools| - 1]) then rest + [pools[|pools| - 1]] else rest
  }

  /** Merged versions of the discovered pools that are still strong enough. */
  function Kept(discovered: seq<Pool>, previous: seq<Pool>, cfg: RegistryConfig): seq<Pool> {
    if discovered == [] then []
    else
      var before := Kept(discovered[..|discovered| - 1], previous, cfg);
      var merged := MergePool(discovered[|discovered| - 1], previous, cfg);
      if merged.strength >= 0.05 && merged.status != Invalidated then before + [merged] else before
  }

  /** All pools of the pair after the timeframe printed a closed bar. */
  function Refresh(pools: seq<Pool>, closed: seq<Candle>, timeframe: string, cfg: RegistryConfig): seq<Pool> {
    var same := Select(pools, Of(timeframe));
    var other := Select(pools, NotOf(timeframe));
    Strongest(other + Kept(Discover(closed, timeframe, cfg.discovery), same, cfg), cfg.discovery.maxPools)
  }

  function Decayed(p: Pool, factor: real): Pool {
    if p.status == Invalidated then p
    else
      var s := MinR(1.0, Scale(p.strength, factor));
      p.(strength := s, status := if s < 0.12 then Weakened else p.status)
  }

  function TickDecay(pools: seq<Pool>, factor: real): (r: seq<Pool>)
    ensures |r| == |pools|
    ensures forall i | 0 <= i < |r| :: r[i] == Decayed(pools[i], factor)
  {
    if pools == [] then []
    else TickDecay(pools[..|pools| - 1], factor) + [Decayed(pools[|pools| - 1], factor)]
  }

  function Touched(p: Pool): Pool {
    p.(touches := p.touches + 1, strength := MaxR(0.1, p.strength - 0.02 * (p.touches + 1) as real))
  }

  function Touch(pools: seq<Pool>, id: PoolId): (r: seq<Pool>)
    ensures |r| == |pools|
  {
    var i := FirstWithId(pools, id);
    if i < |pools| then pools[i := Touched(pools[i])] else pools
  }

  // ------------------------------------------------------------ what the registry keeps

  ghost predicate Healthy(pools: seq<Pool>, max: nat) {
    |pools| <= max && forall p | p in pools :: 0.0 < p.strength <= 1.0
  }

  lemma {:induction false} KeptHealthy(discovered: seq<Pool>, previous: seq<Pool>, cfg: RegistryConfig)
    requires ValidConfig(cfg)
    requires forall p | p in discovered :: 0.0 < p.strength <= 1.0 && p.status == Active
    requires forall p | p in previous :: 0.0 < p.strength <= 1.0
    ensures forall p | p in Kept(discovered, previous, cfg) :: 0.05 <= p.strength <= 1.0 && p.status != Invalidated
  {
    if discovered != [] {
      var n := |discovered| - 1;
      assert discovered[n] in discovered && forall p | p in discovered[..n] :: p in discovered;
      KeptHealthy(discovered[..n], previous, cfg);
      MergeWeakens(discovered[n], previous, cfg);
    }
  }

  /** A pool that continues an earlier one takes over its id and touches and is no stronger than it was. */
  lemma MergeWeakens(pool: Pool, previous: seq<Pool>, cfg: RegistryConfig)
    requires ValidConfig(cfg) && 0.0 < pool.strength <= 1.0 && pool.status == Active
    requires forall p | p in previous :: 0.0 < p.strength <= 1.0
    ensures var m, e := MergePool(pool, previous, cfg), Continued(pool, previous, cfg.discovery.equalClusterFloorPct);
      && 0.0 < m.strength <= 1.0 && m.price == pool.price
      && (e == None ==> m == pool)
      && (e.Some? ==> e.value in previous && m.id == e.value.id && m.touches == e.value.touches && m.strength <= e.value.strength)
  {
    var e := Continued(pool, previous, cfg.discovery.equalClusterFloorPct);
    if e.Some? {
      assert e.value in previous;
      assert 0.0 < Scale(e.value.strength, cfg.decay) <= e.value.strength <= 1.0;
    }
  }

  // ------------------------------------------------------------ when an earlier pool is there again

  /** A pool comes through the cap exactly if fewer pools go before it than there is room for. */
  lemma StrongestIff(pools: seq<Pool>, n: nat, p: Pool)
    ensures p in Strongest(pools, n) <==> exists i | 0 <= i < |pools| :: pools[i] == p && Ahead(Weakness, pools, i) < n
  {
    var sorted, kept := Sort(Weakness, pools), Strongest(pools, n);
    if p in kept {
      var j :| 0 <= j < |kept| && kept[j] == p;
      var i := SortFrom(Weakness, pools, j);
      assert pools[i] == p;
    }
    if i :| 0 <= i < |pools| && pools[i] == p && Ahead(Weakness, pools, i) < n {
      SortPlace(Weakness, pools, i);
      assert kept[Ahead(Weakness, pools, i)] == p;
    }
  }

  predicate StrongEnough(merged: Pool) {
    merged.strength >= 0.05 && merged.status != Invalidated
  }

  lemma KeptStep(found: seq<Pool>, same: seq<Pool>, cfg: RegistryConfig)
    requires found != []
    ensures var n := |found| - 1; var m := MergePool(found[n], same, cfg);
      Kept(found, same, cfg) == Kept(found[..n], same, cfg) + if StrongEnough(m) then [m] else []
  {
  }

  lemma {:induction false} KeptPrefix(found: seq<Pool>, same: seq<Pool>, cfg: RegistryConfig, k: nat)
    requires k <= |found|
    ensures Kept(found[..k], same, cfg) <= Kept(found, same, cfg)
  {
    if k == |found| {
      assert found[..k] == found;
    } else {
      var n := |found| - 1;
      KeptPrefix(found[..n], same, cfg, k);
      assert found[..n][..k] == found[..k];
      KeptStep(found, same, cfg);
    }
  }

  /** A discovered pool that is strong enough once merged is kept behind the kept ones found before it. */
  lemma KeptPlace(found: seq<Pool>, same: seq<Pool>, cfg: RegistryConfig, k: nat)
    requires k < |found| && StrongEnough(MergePool(found[k], same, cfg))
    ensures var i := |Kept(found[..k], same, cfg)|;
      i < |Kept(found, same, cfg)| && Kept(found, same, cfg)[i] == MergePool(found[k], same, cfg)
  {
    KeptPrefix(found, same, cfg, k + 1);
    assert found[..k + 1][..k] == found[..k];
    KeptStep(found[..k + 1], same, cfg);
  }

  /** And every kept pool is one of those. */
  lemma {:induction false} KeptFrom(found: seq<Pool>, same: seq<Pool>, cfg: RegistryConfig, i: nat) returns (k: nat)
    requires i < |Kept(found, same, cfg)|
    ensures k < |found| && |Kept(found[..k], same, cfg)| == i
    ensures Kept(found, same, cfg)[i] == MergePool(found[k], same, cfg) && StrongEnough(MergePool(found[k], same, cfg))
  {
    var n := |found| - 1;
    KeptStep(found, same, cfg);
    if i == |Kept(found[..n], same, cfg)| {
      k := n;
    } else {
      k := KeptFrom(found[..n], same, cfg, i);
      assert found[..n][..k] == found[..k];
    }
  }

  /** All pools that compete for the room of a pair: those of other timeframes first. */
  function Competing(pools: seq<Pool>, found: seq<Pool>, timeframe: string, cfg: RegistryConfig): seq<Pool> {
    Select(pools, NotOf(timeframe)) + Kept(found, Select(pools, Of(timeframe)), cfg)
  }

  /** The `k`-th discovered pool, once merged, is one of the strongest of the competing. */
  predicate SurvivesCap(pools: seq<Pool>, found: seq<Pool>, timeframe: string, cfg: RegistryConfig, k: nat)
    requires k < |found|
  {
    var i := |Select(pools, NotOf(timeframe))| + |Kept(found[..k], Select(pools, Of(timeframe)), cfg)|;
    i < |Competing(pools, found, timeframe, cfg)|
    && Ahead(Weakness, Competing(pools, found, timeframe, cfg), i) < cfg.discovery.maxPools
  }

  /** The `k`-th discovered pool continues an earlier one with this id, is still strong enough after the decay, and
      comes through the cap. */
  predicate Brings(pools: seq<Pool>, found: seq<Pool>, timeframe: string, cfg: RegistryConfig, k: nat, id: PoolId)
    requires k < |found|
  {
    var e := Continued(found[k], Select(pools, Of(timeframe)), cfg.discovery.equalClusterFloorPct);
    && e.Some? && e.value.id == id && Scale(e.value.strength, cfg.decay) >= 0.05
    && SurvivesCap(pools, found, timeframe, cfg, k)
  }

  /** Some pool of the timeframe has this id. */
  predicate Known(pools: seq<Pool>, timeframe: string, id: PoolId) {
    exists e | e in pools :: e.timeframe == timeframe && e.id == id
  }

  /** A pool that continues none has an id that no earlier one had. */
  lemma NewIdIsNew(pool: Pool, pools: seq<Pool>, timeframe: string, floorPct: real)
    requires Continued(pool, Select(pools, Of(timeframe)), floorPct) == None
    ensures !Known(pools, timeframe, pool.id)
  {
    var same := Select(pools, Of(timeframe));
    assert FirstWithId(same, pool.id) == |same|;
    forall e | e in pools && e.timeframe == timeframe ensures e.id != pool.id { assert e in same; }
  }

  /** What a pool merged with a known id is. */
  lemma MergedWithKnownId(pool: Pool, pools: seq<Pool>, timeframe: string, cfg: RegistryConfig, id: PoolId)
    requires Known(pools, timeframe, id) && pool.status == Active
    ensures var same := Select(pools, Of(timeframe));
      var e, m := Continued(pool, same, cfg.discovery.equalClusterFloorPct), MergePool(pool, same, cfg);
      && (m.id == id <==> e.Some? && e.value.id == id)
      && (m.id == id ==> m.strength == Scale(e.value.strength, cfg.decay) && e.value in same
                         && m.status == if e.value.status == Weakened then Weakened else Active)
  {
    var same := Select(pools, Of(timeframe));
    if Continued(pool, same, cfg.discovery.equalClusterFloorPct) == None {
      NewIdIsNew(pool, pools, timeframe, cfg.discovery.equalClusterFloorPct);
    }
  }

  lemma BroughtIsHeld(pools: seq<Pool>, found: seq<Pool>, timeframe: string, cfg: RegistryConfig, k: nat, id: PoolId)
    requires Known(pools, timeframe, id) && k < |found| && found[k].status == Active && found[k].timeframe == timeframe
    requires Brings(pools, found, timeframe, cfg, k, id)
    ensures var m := MergePool(found[k], Select(pools, Of(timeframe)), cfg);
      m in Strongest(Competing(pools, found, timeframe, cfg), cfg.discovery.maxPools) && m.id == id && m.timeframe == timeframe
  {
    var same, other := Select(pools, Of(timeframe)), Select(pools, NotOf(timeframe));
    MergedWithKnownId(found[k], pools, timeframe, cfg, id);
    KeptPlace(found, same, cfg, k);
    var i := |other| + |Kept(found[..k], same, cfg)|;
    var m := MergePool(found[k], same, cfg);
    assert Competing(pools, found, timeframe, cfg)[i] == m;
    StrongestIff(Competing(pools, found, timeframe, cfg), cfg.discovery.maxPools, m);
  }

  /** A competing pool of the timeframe that comes through the cap is one of the kept. */
  lemma ComesThrough(pools: seq<Pool>, found: seq<Pool>, timeframe: string, cfg: RegistryConfig, p: Pool) returns (i: nat)
    requires p.timeframe == timeframe && p in Strongest(Competing(pools, found, timeframe, cfg), cfg.discovery.maxPools)
    ensures var other, all := Select(pools, NotOf(timeframe)), Competing(pools, found, timeframe, cfg);
      && |other| <= i < |all| && all[i] == p && Ahead(Weakness, all, i) < cfg.discovery.maxPools
  {
    var other, all := Select(pools, NotOf(timeframe)), Competing(pools, found, timeframe, cfg);
    StrongestIff(all, cfg.discovery.maxPools, p);
    forall k | 0 <= k < |other| ensures all[k] != p { assert other[k] in other; }
    i :| 0 <= i < |all| && all[i] == p && Ahead(Weakness, all, i) < cfg.discovery.maxPools;
  }

  lemma KeptBrings(pools: seq<Pool>, found: seq<Pool>, timeframe: string, cfg: RegistryConfig, k: nat, id: PoolId)
    requires Known(pools, timeframe, id) && k < |found| && found[k].status == Active
    requires StrongEnough(MergePool(found[k], Select(pools, Of(timeframe)), cfg))
    requires MergePool(found[k], Select(pools, Of(timeframe)), cfg).id == id
    requires SurvivesCap(pools, found, timeframe, cfg, k)
    ensures Brings(pools, found, timeframe, cfg, k, id)
  {
    MergedWithKnownId(found[k], pools, timeframe, cfg, id);
  }

  lemma SurvivesAt(pools: seq<Pool>, found: seq<Pool>, timeframe: string, cfg: RegistryConfig, k: nat, i: nat)
    requires k < |found| && i < |Competing(pools, found, timeframe, cfg)|
    requires i == |Select(pools, NotOf(timeframe))| + |Kept(found[..k], Select(pools, Of(timeframe)), cfg)|
    requires Ahead(Weakness, Competing(pools, found, timeframe, cfg), i) < cfg.discovery.maxPools
    ensures SurvivesCap(pools, found, timeframe, cfg, k)
  {
  }

  /** Which discovered pool it was merged from. */
  lemma ComesFrom(pools: seq<Pool>, found: seq<Pool>, timeframe: string, cfg: RegistryConfig, p: Pool) returns (k: nat)
    requires p.timeframe == timeframe && p in Strongest(Competing(pools, found, timeframe, cfg), cfg.discovery.maxPools)
    ensures k < |found| && SurvivesCap(pools, found, timeframe, cfg, k)
    ensures p == MergePool(found[k], Select(pools, Of(timeframe)), cfg) && StrongEnough(p)
  {
    var same, other := Select(pools, Of(timeframe)), Select(pools, NotOf(timeframe));
    var i := ComesThrough(pools, found, timeframe, cfg, p);
    k := KeptFrom(found, same, cfg, i - |other|);
    SurvivesAt(pools, found, timeframe, cfg, k, i);
  }

  lemma HeldIsBrought(pools: seq<Pool>, found: seq<Pool>, timeframe: string, cfg: RegistryConfig, p: Pool) returns (k: nat)
    requires Known(pools, timeframe, p.id) && forall d | d in found :: d.status == Active
    requires p.timeframe == timeframe && p in Strongest(Competing(pools, found, timeframe, cfg), cfg.discovery.maxPools)
    ensures k < |found| && Brings(pools, found, timeframe, cfg, k, p.id)
    ensures p == MergePool(found[k], Select(pools, Of(timeframe)), cfg)
  {
    k := ComesFrom(pools, found, timeframe, cfg, p);
    assert found[k] in found;
    KeptBrings(pools, found, timeframe, cfg, k, p.id);
  }

  /** For every id a pool of the timeframe had: after the refresh a pool of the timeframe has it again exactly if some
      discovered pool continues an earlier one with the id, is strong enough after the decay, and comes through the
      cap. It is weakened only if an earlier one was, and never invalidated: if all of them were, it is active. */
  lemma ReturnsIff(pools: seq<Pool>, closed: seq<Candle>, timeframe: string, cfg: RegistryConfig, id: PoolId)
    requires Known(pools, timeframe, id)
    ensures var found := Discover(closed, timeframe, cfg.discovery); var r := Refresh(pools, closed, timeframe, cfg);
      && (Known(r, timeframe, id) <==> exists k | 0 <= k < |found| :: Brings(pools, found, timeframe, cfg, k, id))
      && (forall p | p in r && p.timeframe == timeframe && p.id == id ::
            p.status == Active || (p.status == Weakened && HadStatus(pools, timeframe, id, Weakened)))
  {
    var found := Discover(closed, timeframe, cfg.discovery);
    var r := Refresh(pools, closed, timeframe, cfg);
    FoundAreActive(closed, timeframe, cfg.discovery);
    assert r == Strongest(Competing(pools, found, timeframe, cfg), cfg.discovery.maxPools);
    if k :| 0 <= k < |found| && Brings(pools, found, timeframe, cfg, k, id) {
      assert found[k] in found;
      BroughtIsHeld(pools, found, timeframe, cfg, k, id);
    }
    forall p | p in r && p.timeframe == timeframe && p.id == id
      ensures exists k | 0 <= k < |found| :: Brings(pools, found, timeframe, cfg, k, id)
      ensures p.status == Active || (p.status == Weakened && HadStatus(pools, timeframe, id, Weakened))
    {
      var k := HeldIsBrought(pools, found, timeframe, cfg, p);
      assert found[k] in found;
      MergedWithKnownId(found[k], pools, timeframe, cfg, id);
    }
  }

  /** An earlier pool of the timeframe has the id and the status. */
  ghost predicate HadStatus(pools: seq<Pool>, timeframe: string, id: PoolId, status: Status) {
    exists e | e in pools :: e.timeframe == timeframe && e.id == id && e.status == status
  }

  /** In particular for an invalidated pool that alone has its id: it is active again exactly if a discovered pool
      continues it, its decayed strength is enough, and it comes through the cap. */
  lemma InvalidatedReturnsIff(pools: seq<Pool>, closed: seq<Candle>, timeframe: string, cfg: RegistryConfig, e: Pool)
    requires e in pools && e.timeframe == timeframe && e.status == Invalidated
    requires forall q | q in pools && q.timeframe == timeframe && q.id == e.id :: q == e
    ensures var found := Discover(closed, timeframe, cfg.discovery);
      HadStatus(Refresh(pools, closed, timeframe, cfg), timeframe, e.id, Active) <==>
      exists k | 0 <= k < |found| ::
        Continued(found[k], Select(pools, Of(timeframe)), cfg.discovery.equalClusterFloorPct) == Some(e)
        && Scale(e.strength, cfg.decay) >= 0.05 && SurvivesCap(pools, found, timeframe, cfg, k)
  {
    var found := Discover(closed, timeframe, cfg.discovery);
    ReturnsIff(pools, closed, timeframe, cfg, e.id);
    assert e in Select(pools, Of(timeframe));
    forall k | 0 <= k < |found|
      ensures Brings(pools, found, timeframe, cfg, k, e.id) <==>
        Continued(found[k], Select(pools, Of(timeframe)), cfg.discovery.equalClusterFloorPct) == Some(e)
        && Scale(e.strength, cfg.decay) >= 0.05 && SurvivesCap(pools, found, timeframe, cfg, k)
    {
      ContinuedIsThere(found[k], pools, timeframe, cfg.discovery.equalClusterFloorPct);
    }
  }

  lemma ContinuedIsThere(pool: Pool, pools: seq<Pool>, timeframe: string, floorPct: real)
    ensures var e := Continued(pool, Select(pools, Of(timeframe)), floorPct);
      e.Some? ==> e.value in pools && e.value.timeframe == timeframe
  {
    var e := Continued(pool, Select(pools, Of(timeframe)), floorPct);
    assert e.Some? ==> e.value in Select(pools, Of(timeframe));
  }

  lemma FoundAreActive(closed: seq<Candle>, timeframe: string, cfg: DiscoveryConfig)
    ensures forall d | d in Discover(closed, timeframe, cfg) :: d.status == Active && d.timeframe == timeframe
  {
    if |closed| >= 10 { DiscoveredPools(closed, timeframe, cfg); }
  }

  datatype Op =
    | OnClosedBar(closed: seq<Candle>, timeframe: string)
    | OnTick
    | OnTouch(id: PoolId)

  function Apply(pools: seq<Pool>, op: Op, cfg: RegistryConfig): seq<Pool> {
    match op
    case OnClosedBar(closed, timeframe) => Refresh(pools, closed, timeframe, cfg)
    case OnTick => TickDecay(pools, cfg.tickFactor)
    case OnTouch(id) => Touch(pools, id)
  }

  function ApplyAll(ops: seq<Op>, cfg: RegistryConfig): seq<Pool> {
    if ops == [] then [] else Apply(ApplyAll(ops[..|ops| - 1], cfg), ops[|ops| - 1], cfg)
  }

  lemma RefreshHealthy(pools: seq<Pool>, closed: seq<Candle>, timeframe: string, cfg: RegistryConfig)
    requires ValidConfig(cfg) && Healthy(pools, cfg.discovery.maxPools)
    ensures Healthy(Refresh(pools, closed, timeframe, cfg), cfg.discovery.maxPools)
    ensures forall p | p in Refresh(pools, closed, timeframe, cfg) && p.status == Invalidated :: p in pools && p.timeframe != timeframe
  {
    var same := Select(pools, Of(timeframe));
    var other := Select(pools, NotOf(timeframe));
    var found := Discover(closed, timeframe, cfg.discovery);
    if |closed| >= 10 { DiscoveredPools(closed, timeframe, cfg.discovery); }
    KeptHealthy(found, same, cfg);
    StrongestFirst(other + Kept(found, same, cfg), cfg.discovery.maxPools);
  }

  /** A pool of the refreshed timeframe: a discovered one, alone or as the continuation of an earlier one. */
  ghost predicate Refreshed(p: Pool, d: Pool, pools: seq<Pool>, cfg: RegistryConfig) {
    && p.price == d.price && p.side == d.side && p.timeframe == d.timeframe && p.pivotCount == d.pivotCount
    && 0.05 <= p.strength && p.status != Invalidated
    && (p == d || exists e | e in pools ::
          e.timeframe == d.timeframe && p.id == e.id && p.touches == e.touches && p.strength == Scale(e.strength, cfg.decay))
  }

  lemma {:induction false} KeptAreRefreshed(discovered: seq<Pool>, pools: seq<Pool>, timeframe: string, cfg: RegistryConfig, p: Pool)
    requires forall d | d in discovered :: d.timeframe == timeframe
    requires p in Kept(discovered, Select(pools, Of(timeframe)), cfg)
    ensures exists d | d in discovered :: Refreshed(p, d, pools, cfg)
  {
    var n := |discovered| - 1;
    var same := Select(pools, Of(timeframe));
    assert discovered == discovered[..n] + [discovered[n]];
    if p in Kept(discovered[..n], same, cfg) {
      KeptAreRefreshed(discovered[..n], pools, timeframe, cfg, p);
    } else {
      var e := Continued(discovered[n], same, cfg.discovery.equalClusterFloorPct);
      if e.Some? { assert e.value in same; }
      assert discovered[n] in discovered && Refreshed(p, discovered[n], pools, cfg);
    }
  }

  /** After a refresh every pool is an unchanged one of another timeframe, or comes from a pool discovered just now;
      they are ordered by strength. */
  lemma RefreshOrigin(pools: seq<Pool>, closed: seq<Candle>, timeframe: string, cfg: RegistryConfig)
    ensures var r := Refresh(pools, closed, timeframe, cfg);
      && (forall p | p in r :: (p in pools && p.timeframe != timeframe)
                               || exists d | d in Discover(closed, timeframe, cfg.discovery) :: Refreshed(p, d, pools, cfg))
      && (forall i, j | 0 <= i < j < |r| :: r[j].strength <= r[i].strength)
  {
    var other := Select(pools, NotOf(timeframe));
    var found := Discover(closed, timeframe, cfg.discovery);
    var kept := Kept(found, Select(pools, Of(timeframe)), cfg);
    StrongestFirst(other + kept, cfg.discovery.maxPools);
    if |closed| >= 10 { DiscoveredPools(closed, timeframe, cfg.discovery); }
    forall p | p in Refresh(pools, closed, timeframe, cfg)
      ensures (p in pools && p.timeframe != timeframe) || exists d | d in found :: Refreshed(p, d, pools, cfg)
    {
      assert p in other || p in kept;
      if p in kept { KeptAreRefreshed(found, pools, timeframe, cfg, p); }
    }
  }

  lemma DecayedWeakens(p: Pool, factor: real)
    requires 0.0 < p.strength <= 1.0 && 0.0 < factor <= 1.0
    ensures 0.0 < Decayed(p, factor).strength <= p.strength
  {
    assert 0.0 < Scale(p.strength, factor) <= p.strength;
  }

  lemma TickHealthy(pools: seq<Pool>, cfg: RegistryConfig)
    requires ValidConfig(cfg) && Healthy(pools, cfg.discovery.maxPools)
    ensures Healthy(TickDecay(pools, cfg.tickFactor), cfg.discovery.maxPools)
    ensures forall i | 0 <= i < |pools| :: TickDecay(pools, cfg.tickFactor)[i].strength <= pools[i].strength
  {
    var r := TickDecay(pools, cfg.tickFactor);
    forall i | 0 <= i < |r| ensures 0.0 < r[i].strength <= pools[i].strength <= 1.0 {
      assert pools[i] in pools;
      DecayedWeakens(pools[i], cfg.tickFactor);
    }
  }

  lemma TouchHealthy(pools: seq<Pool>, id: PoolId, max: nat)
    requires Healthy(pools, max)
    ensures Healthy(Touch(pools, id), max)
  {
    var i, r := FirstWithId(pools, id), Touch(pools, id);
    forall p | p in r ensures 0.0 < p.strength <= 1.0 {
      var k :| 0 <= k < |r| && r[k] == p;
      assert pools[k] in pools;
    }
  }

  /** A touch counts on the first pool with the id and leaves everything else of it but the strength, and all other
      pools, as they were; without such a pool nothing changes. */
  lemma TouchCountsOne(pools: seq<Pool>, id: PoolId)
    ensures forall i | 0 <= i < |pools| ::
      if pools[i].id == id && forall k | 0 <= k < i :: pools[k].id != id
      then Touch(pools, id)[i] == pools[i].(touches := pools[i].touches + 1, strength := Touch(pools, id)[i].strength)
      else Touch(pools, id)[i] == pools[i]
  {
    var first := FirstWithId(pools, id);
    forall i | 0 <= i < |pools| && pools[i].id == id && forall k | 0 <= k < i :: pools[k].id != id ensures i == first {}
  }

  /** Decay leaves everything but strength and status, and invalidated pools altogether; it marks as weakened exactly
      what falls below 0.12 or was weakened. */
  lemma TickKeepsIdentity(pools: seq<Pool>, cfg: RegistryConfig, i: nat)
    requires i < |pools|
    ensures var p, r := pools[i], TickDecay(pools, cfg.tickFactor)[i];
      && r == p.(strength := r.strength, status := r.status)
      && (p.status == Invalidated ==> r == p)
      && (p.status != Invalidated ==> (r.status == Weakened <==> r.strength < 0.12 || p.status == Weakened))
  {
  }

  /** Over every run of refreshes, decays and touches: no more pools than allowed, strengths in (0, 1]. */
  lemma {:induction false} RegistryStaysHealthy(ops: seq<Op>, cfg: RegistryConfig)
    requires ValidConfig(cfg)
    ensures Healthy(ApplyAll(ops, cfg), cfg.discovery.maxPools)
  {
    if ops != [] {
      var pools, op := ApplyAll(ops[..|ops| - 1], cfg), ops[|ops| - 1];
      RegistryStaysHealthy(ops[..|ops| - 1], cfg);
      match op
      case OnClosedBar(closed, timeframe) => RefreshHealthy(pools, closed, timeframe, cfg);
      case OnTick => TickHealthy(pools, cfg);
      case OnTouch(id) => TouchHealthy(pools, id, cfg.discovery.maxPools);
    }
  }

  /** A touch never strengthens a pool iff the pool was not below the floor of 0.1. */
  lemma TouchWeakensIffAboveFloor(p: Pool)
    requires 0.0 < p.strength <= 1.0
    ensures Touched(p).strength <= p.strength <==> p.strength >= 0.1
  {
    assert 0.02 * (p.touches + 1) as real >= 0.0;
  }

  // ------------------------------------------------------------ the mutable registry

  class Registry {
    var pools: map<string, seq<Pool>>

    constructor ()
      ensures pools == map[]
    {
      pools := map[];
    }

    function GetPools(pair: string): seq<Pool>
      reads this
    {
      if pair in pools then pools[pair] else []
    }

    method RefreshFromClosedForTimeframe(pair: string, closed: seq<Candle>, timeframe: string, cfg: RegistryConfig)
      modifies this
      ensures pools == old(pools)[pair := Refresh(old(GetPools(pair)), closed, timeframe, cfg)]
    {
      var discovered := DiscoverLiquidityPools(closed, timeframe, cfg.discovery);
      var previous := GetPools(pair);
      var same := Select(previous, Of(timeframe));
      var other := Select(previous, NotOf(timeframe));
      var merged := MergeDiscovered(discovered, same, cfg);
      pools := pools[pair := Strongest(other + merged, cfg.discovery.maxPools)];
    }

    static method MergeDiscovered(discovered: seq<Pool>, same: seq<Pool>, cfg: RegistryConfig) returns (merged: seq<Pool>)
      ensures merged == Kept(discovered, same, cfg)
    {
      merged := [];
      for i := 0 to |discovered|
        invariant merged == Kept(discovered[..i], same, cfg)
      {
        assert discovered[..i + 1][..i] == discovered[..i];
        var m := MergePool(discovered[i], same, cfg);
        if m.strength >= 0.05 && m.status != Invalidated { merged := merged + [m]; }
      }
      assert discovered[..|discovered|] == discovered;
    }

    method TickDecayPair(pair: string, cfg: RegistryConfig)
      modifies this
      ensures pools == if pair in old(pools) then old(pools)[pair := TickDecay(old(pools)[pair], cfg.tickFactor)] else old(pools)
    {
      if pair !in pools { return; }
      var list := pools[pair];
      ghost var before := list;
      for i := 0 to |list|
        invariant |list| == |before|
        invariant forall k | 0 <= k < |list| :: list[k] == if k < i then Decayed(before[k], cfg.tickFactor) else before[k]
      {
        if list[i].status != Invalidated {
          var s := MinR(1.0, Scale(list[i].strength, cfg.tickFactor));
          list := list[i := list[i].(strength := s, status := if s < 0.12 then Weakened else list[i].status)];
        }
      }
      assert list == TickDecay(before, cfg.tickFactor);
      pools := pools[pair := list];
    }

    method TouchPool(pair: string, id: PoolId)
      modifies this
      ensures pools == if pair in old(pools) then old(pools)[pair := Touch(old(pools)[pair], id)] else old(pools)
    {
      if pair !in pools { return; }
      pools := pools[pair := Touch(pools[pair], id)];
    }
  }
}
