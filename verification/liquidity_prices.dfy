/** What a price makes of the raid event of a pool, in terms of prices, candles and samples. */
module LiquidityPrices {
  import opened Common
  import opened Candles
  import opened SwingPoolDiscovery
  import opened LiquidityPoolRegistry
  import opened LiquidityEngine
  import opened LiquidityStep

  // ------------------------------------------------------------ what the price shows

  /** The price of a step: a positive last trade, else the middle of a two-sided quote, else the last traded price. */
  predicate IsPrice(input: StepInput, x: real) {
    if input.lastTrade.Some? && input.lastTrade.value > 0.0 then x == input.lastTrade.value
    else if input.bestBid > 0.0 && input.bestAsk > 0.0 then 2.0 * x == input.bestBid + input.bestAsk
    else x == input.ltp
  }

  /** The samples kept: this one and at most the thirty-one before it. */
  predicate IsRing(before: seq<Sample>, s: Sample, ring: seq<Sample>) {
    ring == if |before| < 32 then before + [s] else before[|before| - 31..] + [s]
  }

  /** The pool is shown the price. */
  predicate Sees(input: StepInput, p: Pool) {
    p.status != Invalidated && p.timeframe in input.candles && |input.candles[p.timeframe]| >= 8
  }

  /** The candles of the pool's timeframe but the one that is still open. */
  function ClosedOf(input: StepInput, p: Pool): seq<Candle>
    requires Sees(input, p)
  {
    input.candles[p.timeframe][..|input.candles[p.timeframe]| - 1]
  }

  predicate ReachedBy(p: Pool, x: real) {
    (p.side == BuySide && x >= p.price) || (p.side == SellSide && x <= p.price)
  }

  /** Half a percent back on the side it came from. */
  predicate FellBackTo(p: Pool, x: real) {
    (p.side == BuySide && 1000.0 * x < 995.0 * p.price) || (p.side == SellSide && 1000.0 * x > 1005.0 * p.price)
  }

  /** How far the price is beyond the level. */
  function BeyondBy(p: Pool, x: real): real {
    if p.side == BuySide then x - p.price else p.price - x
  }

  /** The penetration, in percent of a positive level. */
  predicate IsPenetration(p: Pool, x: real, pct: real) {
    if p.price > 0.0 then pct * p.price == 100.0 * BeyondBy(p, x) else pct == 0.0
  }

  function Wider(x: real, y: real): real { if x >= y then x else y }

  function Apart(x: real, y: real): real { if x >= y then x - y else y - x }

  /** The sum of the ranges of the last `k` neighbours: the earlier one's extent, or how far the later close lies from
      its high or its low, whatever is most. */
  function RangeSum(cs: seq<Candle>, k: nat): real
    requires k < |cs| || k == 0
  {
    if k == 0 then 0.0
    else
      var a, b := cs[|cs| - 2], cs[|cs| - 1];
      RangeSum(cs[..|cs| - 1], k - 1) + Wider(a.high - a.low, Wider(Apart(a.high, b.close), Apart(a.low, b.close)))
  }

  /** The volatility: the mean of fourteen ranges in percent of the last close, or a tenth of a percent where there are
      too few bars or no positive close. */
  predicate IsVolatility(closed: seq<Candle>, atr: real) {
    if |closed| < 15 || closed[|closed| - 1].close <= 0.0 then atr == 0.1
    else atr * (14.0 * closed[|closed| - 1].close) == 100.0 * RangeSum(closed, 14)
  }

  predicate InBand(pct: real, atr: real, cfg: EngineConfig) {
    cfg.minPenetrationPct + atr * cfg.penetrationAtrScale * 0.05 <= pct <= cfg.maxPenetrationPct + atr * cfg.penetrationAtrScale * 0.1
  }

  /** The volume of the last `k` bars. */
  function VolumeSum(cs: seq<Candle>, k: nat): real
    requires k <= |cs|
  {
    if k == 0 then 0.0 else VolumeSum(cs[..|cs| - 1], k - 1) + cs[|cs| - 1].volume
  }

  /** More than the multiple of the mean of `n` terms with a positive sum, as a product. */
  predicate Outweighs(v: real, sum: real, n: real, mult: real) { sum > 0.0 && v * n > sum * mult }

  /** The last bar's volume is more than the multiple of the mean of as many bars before it as the lookback and one. */
  predicate Loud(closed: seq<Candle>, cfg: EngineConfig) {
    var n := cfg.volumeLookbackBars + 1;
    |closed| >= n + 1
    && Outweighs(closed[|closed| - 1].volume, VolumeSum(closed[..|closed| - 1], n), n as real, cfg.volumeSpikeMult)
  }

  predicate InWindow(s: Sample, nowMs: int, cfg: EngineConfig) {
    nowMs - cfg.velocityWindowMs <= s.ts <= nowMs - 5
  }

  /** The sample at `i` is the first of the oldest in the window. */
  predicate OldestAt(ring: seq<Sample>, i: nat, nowMs: int, cfg: EngineConfig) {
    && i < |ring| && InWindow(ring[i], nowMs, cfg)
    && (forall j | 0 <= j < i && InWindow(ring[j], nowMs, cfg) :: ring[i].ts < ring[j].ts)
    && (forall j | i < j < |ring| && InWindow(ring[j], nowMs, cfg) :: ring[i].ts <= ring[j].ts)
  }

  /** From that sample, at least fifty milliseconds old, the price moved at least as fast as asked. */
  predicate MovedFast(s: Sample, x: real, nowMs: int, cfg: EngineConfig) {
    && s.price > 0.0 && nowMs - s.ts >= 50
    && 100000.0 * Apart(x, s.price) >= cfg.velocityMinPctPerSec * (s.price * (nowMs - s.ts) as real)
  }

  ghost predicate Fast(ring: seq<Sample>, x: real, nowMs: int, cfg: EngineConfig) {
    exists i: nat :: OldestAt(ring, i, nowMs, cfg) && MovedFast(ring[i], x, nowMs, cfg)
  }

  // ---- and what the code computes of it

  lemma PriceIsRef(input: StepInput, x: real)
    requires IsPrice(input, x)
    ensures x == RefPrice(input)
  {
  }

  lemma RingIsPushed(before: seq<Sample>, s: Sample, ring: seq<Sample>)
    requires IsRing(before, s, ring)
    ensures ring == PushSample(before, s)
  {
    if |before| >= 32 { assert (before + [s])[|before| + 1 - 32..] == before[|before| - 31..] + [s]; }
  }

  lemma PenetrationIs(p: Pool, x: real)
    ensures IsPenetration(p, x, PenetrationPct(p.side, p.price, x))
  {
    if p.price > 0.0 {
      var d := BeyondBy(p, x) / p.price;
      assert d * p.price == BeyondBy(p, x);
      assert d * 100.0 * p.price == 100.0 * (d * p.price);
    }
  }

  lemma PenetrationOnce(p: Pool, x: real, a: real, b: real)
    requires IsPenetration(p, x, a) && IsPenetration(p, x, b)
    ensures a == b
  {
    if p.price > 0.0 { assert (a - b) * p.price == 0.0; }
  }

  lemma OneMoreRange(cs: seq<Candle>)
    requires |cs| >= 2
    ensures var a, b := cs[|cs| - 2], cs[|cs| - 1];
      Sum(TrueRanges(cs)) == Sum(TrueRanges(cs[..|cs| - 1])) + Wider(a.high - a.low, Wider(Apart(a.high, b.close), Apart(a.low, b.close)))
  {
    SumSnoc(TrueRanges(cs[..|cs| - 1]), TrueRange(cs[|cs| - 2], cs[|cs| - 1]));
  }

  lemma {:induction false} RangesAre(cs: seq<Candle>, k: nat)
    requires k < |cs|
    ensures Sum(TrueRanges(cs[|cs| - k - 1..])) == RangeSum(cs, k)
  {
    if k > 0 {
      RangesAre(cs[..|cs| - 1], k - 1);
      LastBars(cs, k, cs[|cs| - k - 1..]);
      OneMoreRange(cs[|cs| - k - 1..]);
    }
  }

  lemma LastBars(cs: seq<Candle>, k: nat, slice: seq<Candle>)
    requires 0 < k < |cs| && slice == cs[|cs| - k - 1..]
    ensures var n := |cs| - 1;
      slice[..|slice| - 1] == cs[..n][n - k..] && slice[|slice| - 1] == cs[n] && slice[|slice| - 2] == cs[n - 1]
  {
  }

  lemma SumSnoc(xs: seq<real>, x: real)
    ensures Sum(xs + [x]) == Sum(xs) + x
  {
    assert (xs + [x])[..|xs|] == xs;
  }

  lemma VolatilityIs(closed: seq<Candle>)
    ensures IsVolatility(closed, AtrPercent(closed, 14))
  {
    if |closed| >= 15 {
      RangesAre(closed, 14);
      var close := closed[|closed| - 1].close;
      if close > 0.0 { MeanInPercent(Sum(TrueRanges(LastRows(closed, 15))), 14.0, close); }
    }
  }

  lemma MeanInPercent(sum: real, n: real, base: real)
    requires n > 0.0 && base > 0.0
    ensures sum / n / base * 100.0 * (n * base) == 100.0 * sum
  {
    var q := sum / n;
    var r := q / base;
    assert q * n == sum && r * base == q;
    assert r * 100.0 * (n * base) == 100.0 * n * (r * base);
  }

  lemma VolatilityOnce(closed: seq<Candle>, a: real, b: real)
    requires IsVolatility(closed, a) && IsVolatility(closed, b)
    ensures a == b
  {
    if |closed| >= 15 && closed[|closed| - 1].close > 0.0 {
      var d := 14.0 * closed[|closed| - 1].close;
      assert (a - b) * d == 0.0 && d > 0.0;
    }
  }

  lemma {:induction false} VolumesAre(cs: seq<Candle>, k: nat)
    requires k <= |cs|
    ensures Sum(Volumes(cs[|cs| - k..])) == VolumeSum(cs, k) && |Volumes(cs[|cs| - k..])| == k
  {
    var slice := cs[|cs| - k..];
    if k > 0 {
      var n := |cs| - 1;
      VolumesAre(cs[..n], k - 1);
      assert slice[..k - 1] == cs[..n][n - (k - 1)..] && slice[k - 1] == cs[n];
      SumSnoc(Volumes(slice[..k - 1]), slice[k - 1].volume);
    }
  }

  lemma MeanVolumeIs(closed: seq<Candle>, n: nat)
    requires n >= 1 && |closed| >= n + 1
    ensures Mean(Volumes(LastRows(closed, n + 1)[..n])) == VolumeSum(closed[..|closed| - 1], n) / n as real
  {
    var before := closed[..|closed| - 1];
    assert LastRows(closed, n + 1)[..n] == before[|before| - n..];
    VolumesAre(before, n);
  }

  lemma SpikeIs(closed: seq<Candle>, cfg: EngineConfig, mean: real)
    requires var n := cfg.volumeLookbackBars + 1; |closed| >= n + 1 && mean == Mean(Volumes(LastRows(closed, n + 1)[..n]))
    ensures VolumeSpike(closed, cfg) <==> LouderThan(closed[|closed| - 1].volume, mean, cfg.volumeSpikeMult)
  {
  }

  lemma LoudIs(closed: seq<Candle>, cfg: EngineConfig)
    ensures VolumeSpike(closed, cfg) <==> Loud(closed, cfg)
  {
    var n := cfg.volumeLookbackBars + 1;
    if |closed| >= n + 1 {
      var sum := VolumeSum(closed[..|closed| - 1], n);
      MeanVolumeIs(closed, n);
      SpikeIs(closed, cfg, sum / n as real);
      LouderIs(closed[|closed| - 1].volume, sum, n as real, cfg.volumeSpikeMult);
    }
  }

  lemma LouderIs(v: real, sum: real, n: real, mult: real)
    requires n > 0.0
    ensures LouderThan(v, sum / n, mult) <==> Outweighs(v, sum, n, mult)
  {
    MeanCompare(sum, n, mult, v);
  }

  lemma MeanCompare(sum: real, n: real, mult: real, v: real)
    requires n > 0.0
    ensures sum / n > 0.0 <==> sum > 0.0
    ensures v > sum / n * mult <==> v * n > sum * mult
  {
    var q := sum / n;
    assert q * n == sum;
    assert (v - q * mult) * n == v * n - q * n * mult;
  }

  lemma {:induction false} OldestIs(ring: seq<Sample>, nowMs: int, cfg: EngineConfig)
    ensures var o := Oldest(ring, nowMs - cfg.velocityWindowMs, nowMs);
      && (o == None ==> forall j | 0 <= j < |ring| :: !InWindow(ring[j], nowMs, cfg))
      && (o.Some? ==> exists i: nat :: OldestAt(ring, i, nowMs, cfg) && ring[i] == o.value)
  {
    if ring != [] {
      var n := |ring| - 1;
      var before := Oldest(ring[..n], nowMs - cfg.velocityWindowMs, nowMs);
      OldestIs(ring[..n], nowMs, cfg);
      if before == None {
        forall j | 0 <= j < n ensures !InWindow(ring[j], nowMs, cfg) { assert !InWindow(ring[..n][j], nowMs, cfg); }
        if InWindow(ring[n], nowMs, cfg) { assert OldestAt(ring, n, nowMs, cfg); }
      } else {
        var i: nat :| OldestAt(ring[..n], i, nowMs, cfg) && ring[..n][i] == before.value;
        OldestGrows(ring, i, nowMs, cfg);
      }
    }
  }

  lemma OldestGrows(ring: seq<Sample>, i: nat, nowMs: int, cfg: EngineConfig)
    requires ring != [] && OldestAt(ring[..|ring| - 1], i, nowMs, cfg)
    ensures var n := |ring| - 1;
      if InWindow(ring[n], nowMs, cfg) && ring[n].ts < ring[i].ts then OldestAt(ring, n, nowMs, cfg) else OldestAt(ring, i, nowMs, cfg)
  {
    var n := |ring| - 1;
    forall j | 0 <= j < n ensures ring[..n][j] == ring[j] {}
    forall j | 0 <= j < n && InWindow(ring[j], nowMs, cfg) ensures ring[i].ts <= ring[j].ts && (j < i ==> ring[i].ts < ring[j].ts) {
      assert InWindow(ring[..n][j], nowMs, cfg);
    }
  }

  lemma OldestOnce(ring: seq<Sample>, i: nat, j: nat, nowMs: int, cfg: EngineConfig)
    requires OldestAt(ring, i, nowMs, cfg) && OldestAt(ring, j, nowMs, cfg)
    ensures i == j
  {
  }

  /** The speed of a move in percent per second, as the code computes it. */
  function SpeedOf(s: Sample, x: real, nowMs: int): real
    requires s.price > 0.0 && nowMs > s.ts
  {
    Abs(x - s.price) / s.price * 100.0 / ((nowMs - s.ts) as real / 1000.0)
  }

  lemma SpeedIs(s: Sample, x: real, nowMs: int, asked: real)
    requires s.price > 0.0 && nowMs > s.ts
    ensures SpeedOf(s, x, nowMs) >= asked <==> 100000.0 * Apart(x, s.price) >= asked * (s.price * (nowMs - s.ts) as real)
  {
    var d, t := Apart(x, s.price), (nowMs - s.ts) as real;
    var q := d / s.price;
    var dt := t / 1000.0;
    SpeedProduct(q, d, s.price, dt, t, asked);
  }

  lemma SpeedProduct(q: real, d: real, price: real, dt: real, t: real, asked: real)
    requires price > 0.0 && t > 0.0 && q * price == d && dt * 1000.0 == t
    ensures dt > 0.0
    ensures q * 100.0 / dt >= asked <==> 100000.0 * d >= asked * (price * t)
  {
    var r := q * 100.0 / dt;
    assert r * dt == q * 100.0;
    var k := 1000.0 * price * dt;
    assert k > 0.0 && k == price * t;
    assert r * k == 100000.0 * d by { assert r * k == r * dt * (1000.0 * price); }
    assert (r - asked) * k == r * k - asked * k;
    if r >= asked { assert (r - asked) * k >= 0.0; } else { assert (asked - r) * k > 0.0; }
  }

  lemma VelocityOf(ring: seq<Sample>, x: real, nowMs: int, cfg: EngineConfig)
    ensures var o := Oldest(ring, nowMs - cfg.velocityWindowMs, nowMs);
      VelocityOk(ring, x, nowMs, cfg) <==>
        o.Some? && o.value.price > 0.0 && nowMs - o.value.ts >= 50 && SpeedOf(o.value, x, nowMs) >= cfg.velocityMinPctPerSec
  {
    var o := Oldest(ring, nowMs - cfg.velocityWindowMs, nowMs);
    if o.Some? {
      var dt := nowMs - o.value.ts;
      assert dt as real / 1000.0 < 0.05 <==> dt as real < 50.0;
    }
  }

  lemma VelocityIs(ring: seq<Sample>, x: real, nowMs: int, cfg: EngineConfig)
    ensures var o := Oldest(ring, nowMs - cfg.velocityWindowMs, nowMs);
      VelocityOk(ring, x, nowMs, cfg) <==> o.Some? && MovedFast(o.value, x, nowMs, cfg)
  {
    var o := Oldest(ring, nowMs - cfg.velocityWindowMs, nowMs);
    VelocityOf(ring, x, nowMs, cfg);
    if o.Some? && o.value.price > 0.0 && nowMs - o.value.ts >= 50 { SpeedIs(o.value, x, nowMs, cfg.velocityMinPctPerSec); }
  }

  lemma FastIs(ring: seq<Sample>, x: real, nowMs: int, cfg: EngineConfig)
    ensures VelocityOk(ring, x, nowMs, cfg) <==> Fast(ring, x, nowMs, cfg)
  {
    var o := Oldest(ring, nowMs - cfg.velocityWindowMs, nowMs);
    OldestIs(ring, nowMs, cfg);
    VelocityIs(ring, x, nowMs, cfg);
    if o.Some? {
      var i: nat :| OldestAt(ring, i, nowMs, cfg) && ring[i] == o.value;
      FastFrom(ring, i, x, nowMs, cfg);
    }
  }

  lemma FastFrom(ring: seq<Sample>, i: nat, x: real, nowMs: int, cfg: EngineConfig)
    requires OldestAt(ring, i, nowMs, cfg)
    ensures Fast(ring, x, nowMs, cfg) <==> MovedFast(ring[i], x, nowMs, cfg)
  {
    forall j: nat | OldestAt(ring, j, nowMs, cfg) ensures j == i { OldestOnce(ring, i, j, nowMs, cfg); }
  }

  // ------------------------------------------------------------ what the code makes of it for one pool

  /** Penetration in the band, volume and speed. */
  ghost predicate MakesSweep(input: StepInput, ring: seq<Sample>, x: real, p: Pool, cfg: EngineConfig)
    requires Sees(input, p)
  {
    && (exists pct, atr :: IsPenetration(p, x, pct) && IsVolatility(ClosedOf(input, p), atr) && InBand(pct, atr, cfg))
    && Loud(ClosedOf(input, p), cfg) && Fast(ring, x, input.nowMs, cfg)
  }

  lemma SignalsMean(input: StepInput, ring: seq<Sample>, x: real, p: Pool, cfg: EngineConfig)
    requires IsPrice(input, x)
    ensures var sig := PriceSignals(input, ring, cfg)(p);
      && (sig.Some? <==> Sees(input, p))
      && (sig.Some? ==>
            && (sig.value.reached <==> ReachedBy(p, x)) && (sig.value.fellBack <==> FellBackTo(p, x))
            && IsPenetration(p, x, sig.value.penetrationPct)
            && (sig.value.sweeps <==> MakesSweep(input, ring, x, p, cfg)))
  {
    PriceIsRef(input, x);
    if Sees(input, p) {
      PenetrationIs(p, x);
      SweepIs(input, ring, x, p, cfg);
    }
  }

  lemma SweepIs(input: StepInput, ring: seq<Sample>, x: real, p: Pool, cfg: EngineConfig)
    requires IsPrice(input, x) && Sees(input, p)
    ensures PriceSignals(input, ring, cfg)(p).Some?
    ensures PriceSignals(input, ring, cfg)(p).value.sweeps <==> MakesSweep(input, ring, x, p, cfg)
  {
    var closed := ClosedOf(input, p);
    assert closed == WithoutLast(CandlesOf(input, p.timeframe));
    PriceIsRef(input, x);
    var pct, atr := PenetrationPct(p.side, p.price, x), AtrPercent(closed, 14);
    BandIs(closed, cfg, pct, atr);
    LoudIs(closed, cfg);
    FastIs(ring, x, input.nowMs, cfg);
    PenetrationIs(p, x);
    VolatilityIs(closed);
    forall a, b | IsPenetration(p, x, a) && IsVolatility(closed, b) ensures a == pct && b == atr {
      PenetrationOnce(p, x, a, pct);
      VolatilityOnce(closed, b, atr);
    }
  }

  lemma BandIs(closed: seq<Candle>, cfg: EngineConfig, pct: real, atr: real)
    requires atr == AtrPercent(closed, 14)
    ensures var band := PenetrationBand(closed, cfg); band.min <= pct <= band.max <==> InBand(pct, atr, cfg)
  {
  }

  // ------------------------------------------------------------ the event of a pool

  /** The event stored for a pool. */
  function Stored(events: seq<RaidEvent>, id: PoolId): Option<RaidEvent> {
    var e := EventOf(events, id);
    if e < |events| then Some(events[e]) else None
  }

  lemma StoredIs(events: seq<RaidEvent>, id: PoolId, e: nat)
    requires OneEventPerPool(events) && e < |events| && events[e].poolId == id
    ensures EventOf(events, id) == e && Stored(events, id) == Some(events[e])
  {
    forall k | 0 <= k < e ensures events[k].poolId != id {}
  }

  lemma NoneStored(events: seq<RaidEvent>, id: PoolId)
    requires forall k | 0 <= k < |events| :: events[k].poolId != id
    ensures Stored(events, id) == None
  {
  }

  /** The event of a pool after its turn. */
  function AfterTurn(before: Option<RaidEvent>, sig: Signals, id: PoolId, ref: real, nowMs: int, cfg: EngineConfig, step: nat): Option<RaidEvent> {
    if before == None then if sig.reached then Some(TouchEvent(NewEvent(id, nowMs), ref, nowMs)) else None
    else match OnPrice(before.value, sig, ref, nowMs, cfg, step)
      case Leaves => None
      case Stays(ev, _) => Some(ev)
  }

  lemma RemovedStored(events: seq<RaidEvent>, e: nat, id: PoolId)
    requires OneEventPerPool(events) && e < |events|
    ensures Stored(events[..e] + events[e + 1..], id) == if events[e].poolId == id then None else Stored(events, id)
  {
    var rest := events[..e] + events[e + 1..];
    if events[e].poolId == id {
      NoneStored(rest, id);
    } else {
      var i := EventOf(events, id);
      if i < |events| {
        StoredIs(rest, id, if i < e then i else i - 1);
      } else {
        NoneStored(rest, id);
      }
    }
  }

  lemma ReplacedStored(events: seq<RaidEvent>, e: nat, ev: RaidEvent, id: PoolId)
    requires OneEventPerPool(events) && e < |events| && ev.poolId == events[e].poolId
    ensures Stored(events[e := ev], id) == if events[e].poolId == id then Some(ev) else Stored(events, id)
  {
    var after := events[e := ev];
    assert OneEventPerPool(after);
    if events[e].poolId == id {
      StoredIs(after, id, e);
    } else {
      var i := EventOf(events, id);
      if i < |events| { StoredIs(after, id, i); } else { NoneStored(after, id); }
    }
  }

  lemma AddedStored(events: seq<RaidEvent>, ev: RaidEvent, id: PoolId)
    requires OneEventPerPool(events) && Stored(events, ev.poolId) == None
    ensures Stored(events + [ev], id) == if ev.poolId == id then Some(ev) else Stored(events, id)
  {
    var after := events + [ev];
    var e := EventOf(events, ev.poolId);
    forall k | 0 <= k < |events| ensures events[k].poolId != ev.poolId {}
    assert OneEventPerPool(after);
    var i := EventOf(events, id);
    if i < |events| { StoredIs(after, id, i); }
    else if ev.poolId == id { StoredIs(after, id, |events|); }
    else { NoneStored(after, id); }
  }

  /** A pool's turn makes of its own event what `AfterTurn` says, and of others nothing. */
  lemma TurnStored(st: PairState, pool: Pool, sig: Signals, ref: real, nowMs: int, cfg: EngineConfig, id: PoolId)
    requires OneEventPerPool(st.events) && forall k | 0 <= k < |st.events| :: OnPriceKeepsId(st.events[k], sig, ref, nowMs, cfg, st.step)
    ensures Stored(PoolStep(st, pool, sig, ref, nowMs, cfg).events, id)
            == if pool.id == id then AfterTurn(Stored(st.events, id), sig, id, ref, nowMs, cfg, st.step) else Stored(st.events, id)
  {
    var e := EventOf(st.events, pool.id);
    if e == |st.events| {
      if sig.reached { AddedStored(st.events, TouchEvent(NewEvent(pool.id, nowMs), ref, nowMs), id); }
    } else {
      match OnPrice(st.events[e], sig, ref, nowMs, cfg, st.step)
      case Leaves => RemovedStored(st.events, e, id);
      case Stays(ev, _) =>
        assert OnPriceKeepsId(st.events[e], sig, ref, nowMs, cfg, st.step);
        ReplacedStored(st.events, e, ev, id);
    }
  }

  predicate OnPriceKeepsId(ev: RaidEvent, sig: Signals, ref: real, nowMs: int, cfg: EngineConfig, step: nat) {
    var o := OnPrice(ev, sig, ref, nowMs, cfg, step);
    o.Stays? ==> o.event.poolId == ev.poolId
  }

  /** Pools stand as they were, but for touches and strength. */
  ghost predicate Standing(ps: seq<Pool>, qs: seq<Pool>) {
    |ps| == |qs| && forall k | 0 <= k < |ps| :: SamePlace(ps[k], qs[k]) && ps[k].status == qs[k].status
  }

  lemma TurnStands(st: PairState, pool: Pool, sig: Signals, ref: real, nowMs: int, cfg: EngineConfig)
    ensures Standing(PoolStep(st, pool, sig, ref, nowMs, cfg).pools, st.pools)
  {
  }

  /** Signals look at where a pool stands and its status only. */
  ghost predicate LooksAtPlace(signals: Pool -> Option<Signals>) {
    forall p, q | SamePlace(p, q) && p.status == q.status :: signals(p) == signals(q)
  }

  ghost predicate AloneAt(pools: seq<Pool>, i: nat) {
    i < |pools| && forall k | 0 <= k < |pools| && k != i :: pools[k].id != pools[i].id
  }

  lemma StandsOn(a: seq<Pool>, b: seq<Pool>, c: seq<Pool>)
    requires Standing(a, b) && Standing(b, c)
    ensures Standing(a, c)
  {
    forall k | 0 <= k < |a| ensures SamePlace(a[k], c[k]) && a[k].status == c[k].status {
      assert SamePlace(a[k], b[k]) && SamePlace(b[k], c[k]);
    }
  }

  /** One touch more, and less strength for every touch so far, but no less than a tenth. */
  function TouchedOnce(p: Pool): Pool {
    var touches := p.touches + 1;
    p.(touches := touches, strength := Wider(0.1, p.strength - 0.02 * touches as real))
  }

  /** After the first `n` turns the event of a pool that alone has its id has had its own turn or not. */
  ghost predicate Turned(
      st: PairState, r: PairState, n: nat, signals: Pool -> Option<Signals>, ref: real, nowMs: int, cfg: EngineConfig, i: nat)
    requires i < |st.pools|
  {
    var id, sig := st.pools[i].id, signals(st.pools[i]);
    && Standing(r.pools, st.pools) && r.step == st.step
    && r.pools[i] == (if i < n && sig.Some? && sig.value.reached && Stored(st.events, id) == None then TouchedOnce(st.pools[i]) else st.pools[i])
    && Stored(r.events, id) == if i < n && sig.Some? then AfterTurn(Stored(st.events, id), sig.value, id, ref, nowMs, cfg, st.step)
                               else Stored(st.events, id)
  }

  lemma AloneFirst(pools: seq<Pool>, i: nat, k: nat)
    requires AloneAt(pools, i) && k < |pools|
    ensures FirstWithId(pools, pools[k].id) == i <==> k == i
  {
    if k != i { assert pools[k].id != pools[i].id; }
  }

  /** A turn touches the pool it is for, if that is reached for the first time, and no other pool that alone has its id. */
  lemma TurnTouches(acc: PairState, k: nat, sig: Signals, ref: real, nowMs: int, cfg: EngineConfig, i: nat)
    requires ValidEngine(cfg) && Good(acc, cfg) && AloneAt(acc.pools, i) && k < |acc.pools|
    ensures var r := PoolStep(acc, acc.pools[k], sig, ref, nowMs, cfg);
      |r.pools| == |acc.pools|
      && r.pools[i] == if k == i && sig.reached && Stored(acc.events, acc.pools[k].id) == None then TouchedOnce(acc.pools[i]) else acc.pools[i]
  {
    AloneFirst(acc.pools, i, k);
    var e := EventOf(acc.events, acc.pools[k].id);
    assert e < |acc.events| ==> GoodEvent(acc.events[e], cfg, acc.step);
  }

  lemma StandingAlone(pools: seq<Pool>, before: seq<Pool>, i: nat)
    requires Standing(pools, before) && AloneAt(before, i)
    ensures AloneAt(pools, i)
  {
    forall k | 0 <= k < |pools| && k != i ensures pools[k].id != pools[i].id {
      assert SamePlace(pools[k], before[k]) && SamePlace(pools[i], before[i]);
    }
  }

  lemma TurnNext(
      st: PairState, acc: PairState, n: nat, signals: Pool -> Option<Signals>, ref: real, nowMs: int, cfg: EngineConfig, i: nat)
    requires ValidEngine(cfg) && Good(acc, cfg) && LooksAtPlace(signals) && AloneAt(st.pools, i)
    requires 0 < n <= |st.pools| && Turned(st, acc, n - 1, signals, ref, nowMs, cfg, i)
    ensures var sig := signals(acc.pools[n - 1]);
      Turned(st, if sig == None then acc else PoolStep(acc, acc.pools[n - 1], sig.value, ref, nowMs, cfg),
             n, signals, ref, nowMs, cfg, i)
  {
    var pool := acc.pools[n - 1];
    assert SamePlace(pool, st.pools[n - 1]) && signals(pool) == signals(st.pools[n - 1]);
    var sig := signals(pool);
    if sig.Some? {
      var next := PoolStep(acc, pool, sig.value, ref, nowMs, cfg);
      TurnKeeps(acc, pool, sig.value, ref, nowMs, cfg, st.pools[i].id);
      StandingAlone(acc.pools, st.pools, i);
      TurnTouches(acc, n - 1, sig.value, ref, nowMs, cfg, i);
      StandsOn(next.pools, acc.pools, st.pools);
      assert pool.id == st.pools[i].id <==> n - 1 == i;
    }
  }

  lemma {:induction false} PhaseStored(
      st: PairState, n: nat, signals: Pool -> Option<Signals>, ref: real, nowMs: int, cfg: EngineConfig, i: nat)
    requires ValidEngine(cfg) && Good(st, cfg) && n <= |st.pools| && LooksAtPlace(signals) && AloneAt(st.pools, i)
    ensures Turned(st, PricePhase(st, n, signals, ref, nowMs, cfg), n, signals, ref, nowMs, cfg, i)
  {
    if n > 0 {
      PhaseStored(st, n - 1, signals, ref, nowMs, cfg, i);
      PricePhaseGood(st, n - 1, signals, ref, nowMs, cfg);
      PhaseTurned(st, PricePhase(st, n - 1, signals, ref, nowMs, cfg), n, signals, ref, nowMs, cfg, i);
    }
  }

  lemma PhaseTurned(
      st: PairState, acc: PairState, n: nat, signals: Pool -> Option<Signals>, ref: real, nowMs: int, cfg: EngineConfig, i: nat)
    requires ValidEngine(cfg) && Good(acc, cfg) && LooksAtPlace(signals) && AloneAt(st.pools, i) && 0 < n <= |st.pools|
    requires acc == PricePhase(st, n - 1, signals, ref, nowMs, cfg) && Turned(st, acc, n - 1, signals, ref, nowMs, cfg, i)
    ensures Turned(st, PricePhase(st, n, signals, ref, nowMs, cfg), n, signals, ref, nowMs, cfg, i)
  {
    PhaseNext(st, n, signals, ref, nowMs, cfg, acc);
    TurnNext(st, acc, n, signals, ref, nowMs, cfg, i);
  }

  lemma PhaseNext(
      st: PairState, n: nat, signals: Pool -> Option<Signals>, ref: real, nowMs: int, cfg: EngineConfig, acc: PairState)
    requires 0 < n <= |st.pools| && acc == PricePhase(st, n - 1, signals, ref, nowMs, cfg) && |acc.pools| == |st.pools|
    ensures var sig := signals(acc.pools[n - 1]);
      PricePhase(st, n, signals, ref, nowMs, cfg)
      == if sig == None then acc else PoolStep(acc, acc.pools[n - 1], sig.value, ref, nowMs, cfg)
  {
  }

  lemma TurnKeeps(acc: PairState, pool: Pool, sig: Signals, ref: real, nowMs: int, cfg: EngineConfig, id: PoolId)
    requires ValidEngine(cfg) && Good(acc, cfg)
    ensures Standing(PoolStep(acc, pool, sig, ref, nowMs, cfg).pools, acc.pools)
    ensures PoolStep(acc, pool, sig, ref, nowMs, cfg).step == acc.step
    ensures Stored(PoolStep(acc, pool, sig, ref, nowMs, cfg).events, id)
            == if pool.id == id then AfterTurn(Stored(acc.events, id), sig, id, ref, nowMs, cfg, acc.step) else Stored(acc.events, id)
  {
    forall k | 0 <= k < |acc.events| ensures OnPriceKeepsId(acc.events[k], sig, ref, nowMs, cfg, acc.step) {
      OnPriceGood(acc.events[k], sig, ref, nowMs, cfg, acc.step);
    }
    TurnStored(acc, pool, sig, ref, nowMs, cfg, id);
    TurnStands(acc, pool, sig, ref, nowMs, cfg);
  }

  lemma RestLacks(rest: seq<RaidEvent>, events: seq<RaidEvent>)
    requires events != [] && OneEventPerPool(events) && IdsFrom(rest, events[..|events| - 1])
    ensures var id := events[|events| - 1].poolId;
      && Stored(rest, id) == None && Stored(events[..|events| - 1], id) == None
      && forall k | 0 <= k < |rest| :: rest[k].poolId != id
  {
    var n := |events| - 1;
    forall k | 0 <= k < |rest| ensures rest[k].poolId != events[n].poolId {
      assert HasId(events[..n], rest[k].poolId);
      var j :| 0 <= j < n && events[..n][j].poolId == rest[k].poolId;
      assert events[j].poolId != events[n].poolId;
    }
    forall k | 0 <= k < n ensures events[..n][k].poolId != events[n].poolId {}
    NoneStored(rest, events[n].poolId);
    NoneStored(events[..n], events[n].poolId);
  }

  lemma RestGrows(rest: seq<RaidEvent>, events: seq<RaidEvent>)
    requires events != [] && OneEventPerPool(events) && OneEventPerPool(rest) && IdsFrom(rest, events[..|events| - 1])
    ensures var ev := events[|events| - 1];
      OneEventPerPool(rest + [ev]) && IdsFrom(rest + [ev], events) && IdsFrom(rest, events)
  {
    RestLacks(rest, events);
    IdsWiden(rest, events);
    assert HasId(events, events[|events| - 1].poolId);
  }

  /** Of the event stored for a pool the pruning leaves what is not too old. */
  function IfYoung(s: Option<RaidEvent>, nowMs: int, maxAgeMs: int): Option<RaidEvent> {
    if s.Some? && nowMs - s.value.createdAtMs > maxAgeMs then None else s
  }

  lemma {:induction false} PrunedStored(events: seq<RaidEvent>, nowMs: int, maxAgeMs: int, id: PoolId)
    requires OneEventPerPool(events)
    ensures OneEventPerPool(Prune(events, nowMs, maxAgeMs)) && IdsFrom(Prune(events, nowMs, maxAgeMs), events)
    ensures Stored(Prune(events, nowMs, maxAgeMs), id) == IfYoung(Stored(events, id), nowMs, maxAgeMs)
  {
    if events != [] {
      var n := |events| - 1;
      var rest := Prune(events[..n], nowMs, maxAgeMs);
      PrunedStored(events[..n], nowMs, maxAgeMs, id);
      RestLacks(rest, events);
      RestGrows(rest, events);
      AddedStored(events[..n], events[n], id);
      AddedStored(rest, events[n], id);
      assert events == events[..n] + [events[n]];
    }
  }

  // ------------------------------------------------------------ the theorem

  /** The deepest penetration so far and this one. */
  predicate Deepened(before: Option<real>, pct: real, after: Option<real>) {
    after == Some(Wider(if before.Some? then before.value else 0.0, pct))
  }

  /** The event of a pool before and after a price. */
  ghost predicate PriceOutcomeIs(
      before: Option<RaidEvent>, after: Option<RaidEvent>, p: Pool, input: StepInput, ring: seq<Sample>, x: real,
      cfg: EngineConfig, step: nat)
  {
    var now, sees := input.nowMs, Sees(input, p);
    match before
    case None =>
      if sees && ReachedBy(p, x) && cfg.eventMaxAgeMs >= 0
      then after == Some(RaidEvent(p.id, TouchedState, Some(now), Some(x), None, None, None, false, 0, 0, now, 0, []))
      else after == None
    case Some(ev) =>
      var outdated := now - ev.createdAtMs > cfg.eventMaxAgeMs;
      if outdated || (sees && Dropped(ev, p, x, now, cfg)) then after == None
      else if !sees then after == Some(ev)
      else
        && after.Some? && (exists pct :: IsPenetration(p, x, pct) && Deepened(ev.maxPenetrationPct, pct, after.value.maxPenetrationPct))
        && var deeper := ev.(maxPenetrationPct := after.value.maxPenetrationPct);
          if ev.state == TouchedState && MakesSweep(input, ring, x, p, cfg)
          then after == Some(deeper.(state := Swept, sweepTimeMs := Some(now), sweepPrice := Some(x), barsSinceSweep := 0,
                                     acceptances := 0, rejectionSeen := false, sweptAt := step, shown := []))
          else after == Some(deeper)
  }

  /** A touched event is dropped when the price fell back or the touch is too old, a swept one after too many bars. */
  predicate Dropped(ev: RaidEvent, p: Pool, x: real, nowMs: int, cfg: EngineConfig) {
    || (ev.state == TouchedState
        && (FellBackTo(p, x) || (if ev.touchTimeMs.Some? then nowMs - ev.touchTimeMs.value else 0) > cfg.eventMaxAgeMs))
    || (ev.state == Swept && ev.barsSinceSweep > cfg.eventMaxBarsSinceSweep)
  }

  lemma TurnMeans(
      before: Option<RaidEvent>, sig: Signals, p: Pool, input: StepInput, ring: seq<Sample>, x: real, cfg: EngineConfig, step: nat)
    requires cfg.eventMaxAgeMs >= 0 || before.Some?
    requires before.Some? ==> before.value.state == TouchedState || before.value.state == Swept
    requires Sees(input, p) && (sig.reached <==> ReachedBy(p, x)) && (sig.fellBack <==> FellBackTo(p, x))
    requires IsPenetration(p, x, sig.penetrationPct) && (sig.sweeps <==> MakesSweep(input, ring, x, p, cfg))
    ensures var turn := AfterTurn(before, sig, p.id, x, input.nowMs, cfg, step);
      PriceOutcomeIs(before, TooOldGone(turn, input.nowMs, cfg), p, input, ring, x, cfg, step)
  {
    var turn := AfterTurn(before, sig, p.id, x, input.nowMs, cfg, step);
    if before.Some? && turn.Some? {
      var ev, after := before.value, turn.value;
      assert IsPenetration(p, x, sig.penetrationPct)
             && Deepened(ev.maxPenetrationPct, sig.penetrationPct, after.maxPenetrationPct);
      assert !Dropped(ev, p, x, input.nowMs, cfg);
      assert after.createdAtMs == ev.createdAtMs;
      var deeper := ev.(maxPenetrationPct := after.maxPenetrationPct);
      if ev.state == TouchedState && sig.sweeps {
        assert after == deeper.(state := Swept, sweepTimeMs := Some(input.nowMs), sweepPrice := Some(x), barsSinceSweep := 0,
                                acceptances := 0, rejectionSeen := false, sweptAt := step, shown := []);
      } else {
        assert after == deeper;
      }
    } else if before.Some? {
      assert Dropped(before.value, p, x, input.nowMs, cfg);
    }
  }

  /** For every state between steps, every pool that alone has its id, and every price: a pool reached without an event
      gets a touched one and is touched once more; a touched event goes when the price falls back half a percent or the touch is too old, is swept
      by a penetration in the band with volume and speed, and stays otherwise; a swept one goes after too many bars and
      stays otherwise; and any event goes once it is too old. */
  lemma PriceMeans(st: PairState, input: StepInput, ring: seq<Sample>, x: real, cfg: EngineConfig, i: nat)
    requires ValidEngine(cfg) && Good(st, cfg) && AloneAt(st.pools, i)
    requires IsPrice(input, x) && IsRing(st.ring, Sample(input.nowMs, x), ring)
    ensures PriceOutcomeIs(Stored(st.events, st.pools[i].id), Stored(PriceStep(st, input, cfg).events, st.pools[i].id),
                           st.pools[i], input, ring, x, cfg, st.step)
    ensures |PriceStep(st, input, cfg).pools| == |st.pools| && PriceStep(st, input, cfg).pools[i]
            == if Sees(input, st.pools[i]) && ReachedBy(st.pools[i], x) && Stored(st.events, st.pools[i].id) == None
               then TouchedOnce(st.pools[i]) else st.pools[i]
  {
    var p := st.pools[i];
    StepStored(st, input, ring, x, cfg, i);
    SignalsMean(input, ring, x, p, cfg);
    StoredIsGood(st, cfg, p.id);
    var before := Stored(st.events, p.id);
    if Sees(input, p) {
      TurnOrNothing(before, PriceSignals(input, ring, cfg)(p).value, p, input, ring, x, cfg, st.step);
    } else {
      UnseenMeans(before, p, input, ring, x, cfg, st.step);
    }
  }

  lemma UnseenMeans(
      before: Option<RaidEvent>, p: Pool, input: StepInput, ring: seq<Sample>, x: real, cfg: EngineConfig, step: nat)
    requires !Sees(input, p)
    ensures PriceOutcomeIs(before, TooOldGone(before, input.nowMs, cfg), p, input, ring, x, cfg, step)
  {
  }

  function TooOldGone(ev: Option<RaidEvent>, nowMs: int, cfg: EngineConfig): Option<RaidEvent> {
    IfYoung(ev, nowMs, cfg.eventMaxAgeMs)
  }

  /** The event of a pool after the whole price step: after its turn, unless it is then too old. */
  lemma StepStored(st: PairState, input: StepInput, ring: seq<Sample>, x: real, cfg: EngineConfig, i: nat)
    requires ValidEngine(cfg) && Good(st, cfg) && AloneAt(st.pools, i)
    requires IsPrice(input, x) && IsRing(st.ring, Sample(input.nowMs, x), ring)
    ensures var p := st.pools[i]; var sig := PriceSignals(input, ring, cfg)(p); var before := Stored(st.events, p.id);
      Stored(PriceStep(st, input, cfg).events, p.id)
      == TooOldGone(if sig.Some? then AfterTurn(before, sig.value, p.id, x, input.nowMs, cfg, st.step) else before,
                    input.nowMs, cfg)
    ensures var p := st.pools[i]; var sig := PriceSignals(input, ring, cfg)(p);
      |PriceStep(st, input, cfg).pools| == |st.pools| && PriceStep(st, input, cfg).pools[i]
      == if sig.Some? && sig.value.reached && Stored(st.events, p.id) == None then TouchedOnce(p) else p
  {
    var signals := PriceSignals(input, ring, cfg);
    PriceIsRef(input, x);
    RingIsPushed(st.ring, Sample(input.nowMs, x), ring);
    LooksAtPlaceOnly(input, ring, cfg);
    var ringed := st.(ring := ring);
    RingedGood(st, ring, cfg);
    PhaseStored(ringed, |st.pools|, signals, x, input.nowMs, cfg, i);
    PricePhaseGood(ringed, |st.pools|, signals, x, input.nowMs, cfg);
    PrunedStored(PricePhase(ringed, |st.pools|, signals, x, input.nowMs, cfg).events, input.nowMs, cfg.eventMaxAgeMs, st.pools[i].id);
  }

  lemma LooksAtPlaceOnly(input: StepInput, ring: seq<Sample>, cfg: EngineConfig)
    ensures LooksAtPlace(PriceSignals(input, ring, cfg))
  {
  }

  lemma RingedGood(st: PairState, ring: seq<Sample>, cfg: EngineConfig)
    requires Good(st, cfg)
    ensures Good(st.(ring := ring), cfg)
  {
  }

  lemma StoredIsGood(st: PairState, cfg: EngineConfig, id: PoolId)
    requires Good(st, cfg)
    ensures Stored(st.events, id).Some? ==>
      Stored(st.events, id).value.state == TouchedState || Stored(st.events, id).value.state == Swept
  {
    var e := EventOf(st.events, id);
    assert e < |st.events| ==> GoodEvent(st.events[e], cfg, st.step);
  }

  lemma TurnOrNothing(
      before: Option<RaidEvent>, sig: Signals, p: Pool, input: StepInput, ring: seq<Sample>, x: real, cfg: EngineConfig, step: nat)
    requires before.Some? ==> before.value.state == TouchedState || before.value.state == Swept
    requires Sees(input, p) && (sig.reached <==> ReachedBy(p, x)) && (sig.fellBack <==> FellBackTo(p, x))
    requires IsPenetration(p, x, sig.penetrationPct) && (sig.sweeps <==> MakesSweep(input, ring, x, p, cfg))
    ensures var turn := AfterTurn(before, sig, p.id, x, input.nowMs, cfg, step);
      PriceOutcomeIs(before, TooOldGone(turn, input.nowMs, cfg), p, input, ring, x, cfg, step)
  {
    if cfg.eventMaxAgeMs >= 0 || before.Some? { TurnMeans(before, sig, p, input, ring, x, cfg, step); }
  }

  /** A pool that is reached without an event. */
  lemma ReachedIsTouched(st: PairState, input: StepInput, ring: seq<Sample>, x: real, cfg: EngineConfig, i: nat)
    requires ValidEngine(cfg) && Good(st, cfg) && AloneAt(st.pools, i)
    requires IsPrice(input, x) && IsRing(st.ring, Sample(input.nowMs, x), ring)
    requires Stored(st.events, st.pools[i].id) == None && Sees(input, st.pools[i]) && ReachedBy(st.pools[i], x)
    requires cfg.eventMaxAgeMs >= 0
    ensures var r := PriceStep(st, input, cfg);
      && Stored(r.events, st.pools[i].id)
         == Some(RaidEvent(st.pools[i].id, TouchedState, Some(input.nowMs), Some(x), None, None, None, false, 0, 0, input.nowMs, 0, []))
      && |r.pools| == |st.pools| && r.pools[i] == TouchedOnce(st.pools[i])
  {
    PriceMeans(st, input, ring, x, cfg, i);
  }

  /** The event has just been swept. */
  predicate SweptFrom(now: RaidEvent, ev: RaidEvent, step: nat) {
    && now.state == Swept && now.poolId == ev.poolId && now.createdAtMs == ev.createdAtMs
    && now.shown == [] && now.sweptAt == step
  }

  /** A touched event that is neither dropped nor too old and sees what makes a sweep. */
  lemma TouchedIsSwept(st: PairState, input: StepInput, ring: seq<Sample>, x: real, cfg: EngineConfig, i: nat)
    requires ValidEngine(cfg) && Good(st, cfg) && AloneAt(st.pools, i)
    requires IsPrice(input, x) && IsRing(st.ring, Sample(input.nowMs, x), ring)
    requires Stored(st.events, st.pools[i].id).Some? && Sees(input, st.pools[i]) && MakesSweep(input, ring, x, st.pools[i], cfg)
    requires var ev := Stored(st.events, st.pools[i].id).value;
      ev.state == TouchedState && !Dropped(ev, st.pools[i], x, input.nowMs, cfg) && input.nowMs - ev.createdAtMs <= cfg.eventMaxAgeMs
    ensures var r, ev := PriceStep(st, input, cfg), Stored(st.events, st.pools[i].id).value;
      && Stored(r.events, st.pools[i].id).Some? && SweptFrom(Stored(r.events, st.pools[i].id).value, ev, st.step)
      && |r.pools| == |st.pools| && r.pools[i] == st.pools[i]
  {
    PriceMeans(st, input, ring, x, cfg, i);
  }
}
