/** The raid engine: one event per liquidity pool, driven by prices between bars and by closed bars. */
module LiquidityEngine {
  import opened Common
  import opened Candles
  import opened SwingPoolDiscovery
  import opened LiquidityPoolRegistry

  datatype EngineConfig = EngineConfig(
    enabled: bool, timeframes: seq<string>, registry: RegistryConfig,
    minPenetrationPct: real, maxPenetrationPct: real, penetrationAtrScale: real,
    velocityWindowMs: int, velocityMinPctPerSec: real, volumeSpikeMult: real, volumeLookbackBars: nat,
    maxRejectionBars: nat, acceptanceHoldBars: nat, eventMaxAgeMs: int, eventMaxBarsSinceSweep: nat,
    actionableScoreMin: int, watchlistScoreMin: int, structureMssBonus: bool)

  datatype RaidState = Pending | TouchedState | Swept | ConfirmedState | InvalidatedState

  /** A closed bar that an event of a pool was shown, the pool as it was then, and the step. */
  datatype Shown = Shown(pool: Pool, bar: Candle, atStep: nat)

  /** `sweptAt` and `shown`, the bars since the sweep, record the event's history; the program keeps the other
      fields. */
  datatype RaidEvent = RaidEvent(
    poolId: PoolId, state: RaidState, touchTimeMs: Option<int>, touchPrice: Option<real>,
    sweepTimeMs: Option<int>, sweepPrice: Option<real>, maxPenetrationPct: Option<real>,
    rejectionSeen: bool, barsSinceSweep: nat, acceptances: nat, createdAtMs: int,
    sweptAt: nat, shown: seq<Shown>)

  datatype Confirmed = Confirmed(
    poolId: PoolId, timeframe: string, side: Side, poolPrice: real, score: int, atMs: int,
    actionable: bool, watchlistQuality: bool)

  /** Every confirmation of the run, also those scored below the watchlist. */
  datatype Confirmation = Confirmation(event: RaidEvent, score: int, atStep: nat)

  // ------------------------------------------------------------ scoring

  datatype Shift = NoShift | Bullish | Bearish

  datatype ScoreInput = ScoreInput(
    pivotCount: nat, side: Side, strength: real, structureBonus: bool, mss: Shift,
    displacementOpposite: bool, sweetSpot: bool, volumeSpike: bool, freshPool: bool)

  datatype PointName = EqualCluster | Penetration | Volume | Displacement | Structure | FreshPool | PoolStrength

  /** The points a name contributes, zero if it does not apply. */
  function Points(i: ScoreInput, name: PointName): int {
    match name
    case EqualCluster => If(i.pivotCount >= 3, 2)
    case Penetration => If(i.sweetSpot, 2)
    case Volume => If(i.volumeSpike, 2)
    case Displacement => If(i.displacementOpposite, 3)
    case Structure =>
      If(i.structureBonus && ((i.side == BuySide && i.mss == Bearish) || (i.side == SellSide && i.mss == Bullish)), 2)
    case FreshPool => If(i.freshPool, 1)
    case PoolStrength => If(i.strength > 0.65, 1)
  }

  function If(b: bool, points: int): int { if b then points else 0 }

  /** The names that apply, with their points. */
  function Breakdown(i: ScoreInput): map<PointName, int> {
    map name: PointName | Points(i, name) > 0 :: Points(i, name)
  }

  const POINT_NAMES: seq<PointName> :=
    [EqualCluster, Penetration, Volume, Displacement, Structure, FreshPool, PoolStrength]

  function Entry(points: map<PointName, int>, name: PointName): int {
    if name in points then points[name] else 0
  }

  function Total(points: map<PointName, int>, names: seq<PointName>): int {
    if names == [] then 0 else Total(points, names[..|names| - 1]) + Entry(points, names[|names| - 1])
  }

  function Score(i: ScoreInput): int {
    Total(Breakdown(i), POINT_NAMES)
  }

  predicate IsActionable(score: int, cfg: EngineConfig) { score >= cfg.actionableScoreMin }

  predicate IsWatchlist(score: int, cfg: EngineConfig) {
    score >= cfg.watchlistScoreMin && score < cfg.actionableScoreMin
  }

  lemma EntryIsPoints(i: ScoreInput, name: PointName)
    ensures Entry(Breakdown(i), name) == Points(i, name)
  {
    assert Points(i, name) >= 0;
  }

  lemma TotalStep(points: map<PointName, int>, names: seq<PointName>, k: nat)
    requires 0 < k <= |names|
    ensures Total(points, names[..k]) == Total(points, names[..k - 1]) + Entry(points, names[k - 1])
  {
    assert names[..k][..k - 1] == names[..k - 1];
  }

  lemma TotalOfSeven(points: map<PointName, int>, n: seq<PointName>)
    requires |n| == 7
    ensures Total(points, n) == Entry(points, n[0]) + Entry(points, n[1]) + Entry(points, n[2]) + Entry(points, n[3])
                                + Entry(points, n[4]) + Entry(points, n[5]) + Entry(points, n[6])
  {
    assert n[..7] == n && n[..0] == [];
    TotalStep(points, n, 7); TotalStep(points, n, 6); TotalStep(points, n, 5); TotalStep(points, n, 4);
    TotalStep(points, n, 3); TotalStep(points, n, 2); TotalStep(points, n, 1);
  }

  /** The score is the sum of what every name contributes. */
  lemma ScoreIsSum(i: ScoreInput)
    ensures Score(i) == Points(i, EqualCluster) + Points(i, Penetration) + Points(i, Volume) + Points(i, Displacement)
                        + Points(i, Structure) + Points(i, FreshPool) + Points(i, PoolStrength)
  {
    TotalOfSeven(Breakdown(i), POINT_NAMES);
    forall name ensures Entry(Breakdown(i), name) == Points(i, name) { EntryIsPoints(i, name); }
  }

  /** A total lies between 0 and 13, is at least 3 with a displacement, and reaches 13 iff everything applies. */
  lemma ScoreBounds(i: ScoreInput)
    ensures If(i.displacementOpposite, 3) <= Score(i) <= 13
    ensures Score(i) == 13 <==> forall name :: Points(i, name) > 0
  {
    ScoreIsSum(i);
    if Score(i) == 13 {
      forall name ensures Points(i, name) > 0 { match name case _ => }
    }
  }

  // ------------------------------------------------------------ one event, one closed bar

  /** What a closed bar shows of a pool: an opposite displacement, and the score a confirmation would get. */
  datatype BarView = BarView(opposite: bool, score: int)

  predicate Accepts(side: Side, level: real, bar: Candle) {
    if side == BuySide then bar.close > level else bar.close < level
  }

  predicate Rejects(side: Side, level: real, bar: Candle) {
    if side == BuySide then bar.high > level && bar.close < level else bar.low < level && bar.close > level
  }

  datatype BarOutcome =
    | Kept(event: RaidEvent)
    | BrokenOut
    | Confirms(event: RaidEvent, score: int)
    | RanOut

  function OnBar(ev: RaidEvent, pool: Pool, bar: Candle, view: BarView, cfg: EngineConfig, step: nat): BarOutcome {
    var accepted := Accepts(pool.side, pool.price, bar);
    var counted := ev.(
      barsSinceSweep := ev.barsSinceSweep + 1,
      acceptances := if accepted then ev.acceptances + 1 else 0,
      shown := ev.shown + [Shown(pool, bar, step)]);
    if counted.acceptances >= cfg.acceptanceHoldBars then BrokenOut
    else
      var seen :=
        if Rejects(pool.side, pool.price, bar) then counted.(rejectionSeen := true) else counted;
      if seen.rejectionSeen && view.opposite then Confirms(seen.(state := ConfirmedState), view.score)
      else if seen.barsSinceSweep > cfg.maxRejectionBars then RanOut
      else Kept(seen)
  }

  // ------------------------------------------------------------ one event, one price

  /** What the current price shows of a pool: reached, fallen back from, how far beyond, and whether the
      penetration, volume and velocity make a sweep. */
  datatype Signals = Signals(reached: bool, fellBack: bool, penetrationPct: real, sweeps: bool)

  datatype PriceOutcome = Stays(event: RaidEvent, touchesPool: bool) | Leaves

  function NewEvent(id: PoolId, nowMs: int): RaidEvent {
    RaidEvent(id, Pending, None, None, None, None, None, false, 0, 0, nowMs, 0, [])
  }

  function TouchEvent(ev: RaidEvent, ref: real, nowMs: int): RaidEvent {
    ev.(state := TouchedState, touchTimeMs := Some(nowMs), touchPrice := Some(ref))
  }

  function Deepest(ev: RaidEvent, pct: real): RaidEvent {
    ev.(maxPenetrationPct := Some(MaxR(if ev.maxPenetrationPct.Some? then ev.maxPenetrationPct.value else 0.0, pct)))
  }

  function SweepEvent(ev: RaidEvent, ref: real, nowMs: int, step: nat): RaidEvent {
    ev.(state := Swept, sweepTimeMs := Some(nowMs), sweepPrice := Some(ref), barsSinceSweep := 0, acceptances := 0,
        rejectionSeen := false, sweptAt := step, shown := [])
  }

  function OnPrice(ev: RaidEvent, sig: Signals, ref: real, nowMs: int, cfg: EngineConfig, step: nat): PriceOutcome {
    match ev.state
    case ConfirmedState => Leaves
    case InvalidatedState => Leaves
    case Pending => if sig.reached then Stays(TouchEvent(ev, ref, nowMs), true) else Stays(ev, false)
    case TouchedState =>
      if sig.fellBack then Leaves
      else
        var deeper := Deepest(ev, sig.penetrationPct);
        var next := if sig.sweeps then SweepEvent(deeper, ref, nowMs, step) else deeper;
        var since := if next.touchTimeMs.Some? then next.touchTimeMs.value else nowMs;
        if nowMs - since > cfg.eventMaxAgeMs then Leaves else Stays(next, false)
    case Swept =>
      if ev.barsSinceSweep > cfg.eventMaxBarsSinceSweep then Leaves
      else Stays(Deepest(ev, sig.penetrationPct), false)
  }

  // ------------------------------------------------------------ the events of a pair

  datatype Sample = Sample(ts: int, price: real)

  /** `step` and `confirmations` record the run; the program keeps the other fields. */
  datatype PairState = PairState(
    lastBar: map<string, int>, events: seq<RaidEvent>, ring: seq<Sample>, lastConfirmed: Option<Confirmed>,
    pools: seq<Pool>, step: nat, confirmations: seq<Confirmation>)

  const EMPTY_PAIR := PairState(map[], [], [], None, [], 0, [])

  /** All swept events of a timeframe see its new closed bar, in the order they were stored. */
  function BarPhase(
    st: PairState, events: seq<RaidEvent>, timeframe: string, bar: Candle,
    view: (Pool, RaidEvent) -> BarView, cfg: EngineConfig, nowMs: int): PairState
  {
    if events == [] then st.(events := [])
    else
      var ev := events[|events| - 1];
      var acc := BarPhase(st, events[..|events| - 1], timeframe, bar, view, cfg, nowMs);
      var i := FirstWithId(acc.pools, ev.poolId);
      if ev.state != Swept then acc.(events := acc.events + [ev])
      else if i == |acc.pools| then acc
      else if acc.pools[i].timeframe != timeframe then acc.(events := acc.events + [ev])
      else SettleBar(acc, i, OnBar(ev, acc.pools[i], bar, view(acc.pools[i], ev), cfg, st.step), cfg, nowMs)
  }

  function SettleBar(acc: PairState, i: nat, outcome: BarOutcome, cfg: EngineConfig, nowMs: int): PairState
    requires i < |acc.pools|
  {
    match outcome
    case Kept(ev) => acc.(events := acc.events + [ev])
    case BrokenOut => acc.(pools := acc.pools[i := acc.pools[i].(status := Invalidated)])
    case RanOut => acc
    case Confirms(ev, score) =>
      acc.(confirmations := acc.confirmations + [Confirmation(ev, score, acc.step)],
           lastConfirmed := Report(acc.lastConfirmed, acc.pools[i], score, cfg, nowMs))
  }

  /** Confirmations below the watchlist threshold are not reported. */
  function Report(before: Option<Confirmed>, pool: Pool, score: int, cfg: EngineConfig, nowMs: int): Option<Confirmed> {
    if score >= cfg.watchlistScoreMin
    then Some(Confirmed(pool.id, pool.timeframe, pool.side, pool.price, score, nowMs, IsActionable(score, cfg), IsWatchlist(score, cfg)))
    else before
  }

  /** Position of the event stored for a pool, or the length if there is none. */
  function EventOf(events: seq<RaidEvent>, id: PoolId): (i: nat)
    ensures i <= |events|
    ensures i < |events| ==> events[i].poolId == id
    ensures forall k | 0 <= k < i :: events[k].poolId != id
  {
    if events == [] then 0 else if events[0].poolId == id then 0 else 1 + EventOf(events[1..], id)
  }

  /** One pool sees the current price. */
  function PoolStep(st: PairState, pool: Pool, sig: Signals, ref: real, nowMs: int, cfg: EngineConfig): PairState {
    var e := EventOf(st.events, pool.id);
    if e == |st.events| then
      if sig.reached
      then st.(events := st.events + [TouchEvent(NewEvent(pool.id, nowMs), ref, nowMs)], pools := Touch(st.pools, pool.id))
      else st
    else match OnPrice(st.events[e], sig, ref, nowMs, cfg, st.step)
      case Leaves => st.(events := st.events[..e] + st.events[e + 1..])
      case Stays(ev, touches) =>
        st.(events := st.events[e := ev], pools := if touches then Touch(st.pools, pool.id) else st.pools)
  }

  /** The first `n` pools see the price; `signals` is None for a pool that is skipped. */
  function PricePhase(st: PairState, n: nat, signals: Pool -> Option<Signals>, ref: real, nowMs: int, cfg: EngineConfig): (r: PairState)
    requires n <= |st.pools|
    ensures |r.pools| == |st.pools|
  {
    if n == 0 then st
    else
      var acc := PricePhase(st, n - 1, signals, ref, nowMs, cfg);
      var sig := signals(acc.pools[n - 1]);
      if sig == None then acc else PoolStep(acc, acc.pools[n - 1], sig.value, ref, nowMs, cfg)
  }

  function Prune(events: seq<RaidEvent>, nowMs: int, maxAgeMs: int): seq<RaidEvent> {
    if events == [] then []
    else
      var rest := Prune(events[..|events| - 1], nowMs, maxAgeMs);
      var ev := events[|events| - 1];
      if nowMs - ev.createdAtMs > maxAgeMs then rest else rest + [ev]
  }

  // ------------------------------------------------------------ the lifecycle invariant

  predicate ShownAccepts(x: Shown) { Accepts(x.pool.side, x.pool.price, x.bar) }

  predicate ShownRejects(x: Shown) { Rejects(x.pool.side, x.pool.price, x.bar) }

  /** Length of the run of accepting closes at the end. */
  function TrailingAccepts(xs: seq<Shown>): nat {
    if xs == [] || !ShownAccepts(xs[|xs| - 1]) then 0 else 1 + TrailingAccepts(xs[..|xs| - 1])
  }

  ghost predicate SomeRejects(xs: seq<Shown>) {
    exists k :: 0 <= k < |xs| && ShownRejects(xs[k])
  }

  /** The kept counters are those of the bars shown since the sweep, each after it and with the event's pool. */
  ghost predicate GoodHistory(ev: RaidEvent, step: nat) {
    && ev.barsSinceSweep == |ev.shown| && ev.acceptances == TrailingAccepts(ev.shown)
    && (ev.rejectionSeen <==> SomeRejects(ev.shown))
    && forall k | 0 <= k < |ev.shown| :: ev.sweptAt < ev.shown[k].atStep <= step && ev.shown[k].pool.id == ev.poolId
  }

  /** A stored event at the end of, or during, step `step`. */
  ghost predicate GoodEvent(ev: RaidEvent, cfg: EngineConfig, step: nat) {
    && (ev.state == TouchedState || ev.state == Swept)
    && ev.sweptAt <= step
    && (ev.state == Swept ==>
          && ev.acceptances < cfg.acceptanceHoldBars && ev.barsSinceSweep <= cfg.maxRejectionBars
          && GoodHistory(ev, step))
  }

  /** A confirmation comes with a bar of its step, after a sweep in an earlier step and a rejecting close since. */
  ghost predicate GoodConfirmation(c: Confirmation, cfg: EngineConfig, step: nat) {
    && c.event.sweptAt < c.atStep <= step
    && GoodHistory(c.event, c.atStep) && SomeRejects(c.event.shown) && c.event.acceptances < cfg.acceptanceHoldBars
    && c.event.shown[|c.event.shown| - 1].atStep == c.atStep
  }

  ghost predicate GoodReport(r: Option<Confirmed>, cfg: EngineConfig) {
    r.Some? ==>
      && r.value.score >= cfg.watchlistScoreMin
      && r.value.actionable == (r.value.score >= cfg.actionableScoreMin)
      && r.value.actionable != r.value.watchlistQuality
  }

  ghost predicate OneEventPerPool(events: seq<RaidEvent>) {
    forall i, j | 0 <= i < j < |events| :: events[i].poolId != events[j].poolId
  }

  ghost predicate GoodEvents(events: seq<RaidEvent>, cfg: EngineConfig, step: nat) {
    OneEventPerPool(events) && forall i | 0 <= i < |events| :: GoodEvent(events[i], cfg, step)
  }

  ghost predicate Good(st: PairState, cfg: EngineConfig) {
    && GoodEvents(st.events, cfg, st.step)
    && (forall c | c in st.confirmations :: GoodConfirmation(c, cfg, st.step))
    && GoodReport(st.lastConfirmed, cfg)
  }

  ghost predicate ValidEngine(cfg: EngineConfig) {
    cfg.acceptanceHoldBars >= 1
  }

  lemma OneMoreShown(xs: seq<Shown>, x: Shown)
    ensures TrailingAccepts(xs + [x]) == if ShownAccepts(x) then TrailingAccepts(xs) + 1 else 0
    ensures SomeRejects(xs + [x]) <==> SomeRejects(xs) || ShownRejects(x)
  {
    assert (xs + [x])[..|xs|] == xs;
    if SomeRejects(xs) {
      var k :| 0 <= k < |xs| && ShownRejects(xs[k]);
      assert ShownRejects((xs + [x])[k]);
    }
    if ShownRejects(x) { assert ShownRejects((xs + [x])[|xs|]); }
  }

  lemma OnBarGood(ev: RaidEvent, pool: Pool, bar: Candle, view: BarView, cfg: EngineConfig, step: nat)
    requires GoodEvent(ev, cfg, step) && ev.state == Swept && ev.sweptAt < step && pool.id == ev.poolId
    ensures var o := OnBar(ev, pool, bar, view, cfg, step);
      && (o.Kept? ==> GoodEvent(o.event, cfg, step) && o.event.poolId == ev.poolId && o.event.sweptAt < step)
      && (o.Confirms? ==> GoodConfirmation(Confirmation(o.event, o.score, step), cfg, step))
  {
    OneMoreShown(ev.shown, Shown(pool, bar, step));
  }

  /** What a closed bar makes of a swept event, in terms of its history: enough closes beyond the level in a row are a
      breakout; else a rejecting close, now or since the sweep, with an opposite displacement confirms it; else it runs
      out after the allowed number of bars, and stays otherwise. */
  lemma OnBarDecides(ev: RaidEvent, pool: Pool, bar: Candle, view: BarView, cfg: EngineConfig, step: nat)
    requires GoodEvent(ev, cfg, step) && ev.state == Swept
    ensures var o := OnBar(ev, pool, bar, view, cfg, step);
      var shown := ev.shown + [Shown(pool, bar, step)];
      var broken := TrailingAccepts(shown) >= cfg.acceptanceHoldBars;
      var confirmed := view.opposite && SomeRejects(shown);
      && (o.BrokenOut? <==> broken)
      && (o.Confirms? <==> !broken && confirmed)
      && (o.RanOut? <==> !broken && !confirmed && |shown| > cfg.maxRejectionBars)
      && (o.Confirms? ==> o.score == view.score && o.event.shown == shown)
      && (o.Kept? ==> o.event.shown == shown)
  {
    OneMoreShown(ev.shown, Shown(pool, bar, step));
  }

  /** Events swept before this step, as all are while closed bars are handled. */
  ghost predicate SweptEarlier(events: seq<RaidEvent>, step: nat) {
    forall i | 0 <= i < |events| && events[i].state == Swept :: events[i].sweptAt < step
  }

  ghost predicate HasId(events: seq<RaidEvent>, id: PoolId) {
    exists k :: 0 <= k < |events| && events[k].poolId == id
  }

  ghost predicate IdsFrom(events: seq<RaidEvent>, source: seq<RaidEvent>) {
    forall i | 0 <= i < |events| :: HasId(source, events[i].poolId)
  }

  lemma PushEvent(events: seq<RaidEvent>, source: seq<RaidEvent>, ev: RaidEvent, cfg: EngineConfig, step: nat)
    requires source != [] && source[|source| - 1].poolId == ev.poolId && OneEventPerPool(source)
    requires GoodEvents(events, cfg, step) && SweptEarlier(events, step) && IdsFrom(events, source[..|source| - 1])
    requires GoodEvent(ev, cfg, step) && (ev.state == Swept ==> ev.sweptAt < step)
    ensures GoodEvents(events + [ev], cfg, step) && SweptEarlier(events + [ev], step) && IdsFrom(events + [ev], source)
  {
    var n := |source| - 1;
    forall i | 0 <= i < |events| ensures events[i].poolId != ev.poolId {
      assert HasId(source[..n], events[i].poolId);
      var k :| 0 <= k < n && source[..n][k].poolId == events[i].poolId;
      assert source[k].poolId != source[n].poolId;
    }
    IdsWiden(events, source);
    assert source[n].poolId == ev.poolId;
  }

  lemma IdsWiden(events: seq<RaidEvent>, source: seq<RaidEvent>)
    requires source != [] && IdsFrom(events, source[..|source| - 1])
    ensures IdsFrom(events, source)
  {
    forall i | 0 <= i < |events| ensures HasId(source, events[i].poolId) {
      assert HasId(source[..|source| - 1], events[i].poolId);
      var k :| 0 <= k < |source| - 1 && source[..|source| - 1][k].poolId == events[i].poolId;
      assert source[k].poolId == events[i].poolId;
    }
  }

  /** Handling a closed bar keeps the invariant. */
  lemma {:induction false} BarPhaseGood(
    st: PairState, events: seq<RaidEvent>, timeframe: string, bar: Candle,
    view: (Pool, RaidEvent) -> BarView, cfg: EngineConfig, nowMs: int)
    requires Good(st, cfg) && GoodEvents(events, cfg, st.step) && SweptEarlier(events, st.step)
    ensures var r := BarPhase(st, events, timeframe, bar, view, cfg, nowMs);
      && Good(r, cfg) && SweptEarlier(r.events, r.step) && IdsFrom(r.events, events)
      && r.step == st.step && r.lastBar == st.lastBar && r.ring == st.ring && |r.pools| == |st.pools|
  {
    if events != [] {
      var n := |events| - 1;
      BarPhaseGood(st, events[..n], timeframe, bar, view, cfg, nowMs);
      var ev, acc := events[n], BarPhase(st, events[..n], timeframe, bar, view, cfg, nowMs);
      PushEvent(acc.events, events, ev, cfg, st.step);
      IdsWiden(acc.events, events);
      var i := FirstWithId(acc.pools, ev.poolId);
      if ev.state == Swept && i < |acc.pools| && acc.pools[i].timeframe == timeframe {
        var v := view(acc.pools[i], ev);
        OnBarGood(ev, acc.pools[i], bar, v, cfg, st.step);
        var o := OnBar(ev, acc.pools[i], bar, v, cfg, st.step);
        if o.Kept? { PushEvent(acc.events, events, o.event, cfg, st.step); }
      }
    }
  }

  lemma OnPriceGood(ev: RaidEvent, sig: Signals, ref: real, nowMs: int, cfg: EngineConfig, step: nat)
    requires ValidEngine(cfg) && GoodEvent(ev, cfg, step)
    ensures var o := OnPrice(ev, sig, ref, nowMs, cfg, step);
      o.Stays? ==> GoodEvent(o.event, cfg, step) && o.event.poolId == ev.poolId
  {
  }

  lemma PoolStepGood(st: PairState, pool: Pool, sig: Signals, ref: real, nowMs: int, cfg: EngineConfig)
    requires ValidEngine(cfg) && Good(st, cfg)
    ensures Good(PoolStep(st, pool, sig, ref, nowMs, cfg), cfg)
  {
    var e := EventOf(st.events, pool.id);
    if e < |st.events| { OnPriceGood(st.events[e], sig, ref, nowMs, cfg, st.step); }
  }

  /** Handling a price keeps the invariant, pool after pool. */
  lemma {:induction false} PricePhaseGood(
    st: PairState, n: nat, signals: Pool -> Option<Signals>, ref: real, nowMs: int, cfg: EngineConfig)
    requires ValidEngine(cfg) && Good(st, cfg) && n <= |st.pools|
    ensures var r := PricePhase(st, n, signals, ref, nowMs, cfg); Good(r, cfg) && r.step == st.step
  {
    if n > 0 {
      PricePhaseGood(st, n - 1, signals, ref, nowMs, cfg);
      var acc := PricePhase(st, n - 1, signals, ref, nowMs, cfg);
      var sig := signals(acc.pools[n - 1]);
      if sig.Some? { PoolStepGood(acc, acc.pools[n - 1], sig.value, ref, nowMs, cfg); }
    }
  }

  lemma {:induction false} PruneGood(events: seq<RaidEvent>, nowMs: int, maxAgeMs: int, cfg: EngineConfig, step: nat)
    requires GoodEvents(events, cfg, step)
    ensures GoodEvents(Prune(events, nowMs, maxAgeMs), cfg, step)
    ensures IdsFrom(Prune(events, nowMs, maxAgeMs), events)
    ensures forall i | 0 <= i < |Prune(events, nowMs, maxAgeMs)| :: nowMs - Prune(events, nowMs, maxAgeMs)[i].createdAtMs <= maxAgeMs
  {
    if events != [] {
      var n := |events| - 1;
      PruneGood(events[..n], nowMs, maxAgeMs, cfg, step);
      var rest := Prune(events[..n], nowMs, maxAgeMs);
      IdsWiden(rest, events);
      forall i | 0 <= i < |rest| ensures rest[i].poolId != events[n].poolId {
        assert HasId(events[..n], rest[i].poolId);
        var k :| 0 <= k < n && events[..n][k].poolId == rest[i].poolId;
        assert events[k].poolId != events[n].poolId;
      }
      assert HasId(events, events[n].poolId);
    }
  }

  // ------------------------------------------------------------ where the bars of a history come from

  ghost predicate OkHistory(ev: RaidEvent, ok: Shown -> bool) {
    forall k | 0 <= k < |ev.shown| :: ok(ev.shown[k])
  }

  ghost predicate OkEvents(events: seq<RaidEvent>, ok: Shown -> bool) {
    forall i | 0 <= i < |events| :: OkHistory(events[i], ok)
  }

  /** Every bar in the history of a stored or confirmed event is one of those. */
  ghost predicate AllOk(st: PairState, ok: Shown -> bool) {
    OkEvents(st.events, ok) && forall c | c in st.confirmations :: OkHistory(c.event, ok)
  }

  predicate SamePlace(p: Pool, q: Pool) {
    p.id == q.id && p.side == q.side && p.price == q.price && p.timeframe == q.timeframe
  }

  /** The same pools, up to strength, touches and status. */
  ghost predicate SamePlaces(ps: seq<Pool>, qs: seq<Pool>) {
    |ps| == |qs| && forall i | 0 <= i < |ps| :: SamePlace(ps[i], qs[i])
  }

  /** A bar of a timeframe may be shown with any pool of the timeframe that stands where one of these does. */
  ghost predicate MayShow(pools: seq<Pool>, timeframe: string, bar: Candle, step: nat, ok: Shown -> bool) {
    forall p, i | 0 <= i < |pools| && SamePlace(p, pools[i]) && p.timeframe == timeframe :: ok(Shown(p, bar, step))
  }

  lemma OnBarShows(ev: RaidEvent, pool: Pool, bar: Candle, view: BarView, cfg: EngineConfig, step: nat, ok: Shown -> bool)
    requires OkHistory(ev, ok) && ok(Shown(pool, bar, step))
    ensures var o := OnBar(ev, pool, bar, view, cfg, step); o.Kept? || o.Confirms? ==> OkHistory(o.event, ok)
  {
  }

  lemma SettleBarShows(acc: PairState, i: nat, o: BarOutcome, cfg: EngineConfig, nowMs: int, ok: Shown -> bool)
    requires i < |acc.pools| && AllOk(acc, ok) && (o.Kept? || o.Confirms? ==> OkHistory(o.event, ok))
    ensures var r := SettleBar(acc, i, o, cfg, nowMs); AllOk(r, ok) && SamePlaces(r.pools, acc.pools)
  {
  }

  /** A closed bar adds to the histories only itself, with the pools as they stand. */
  lemma {:induction false} BarPhaseShows(
    st: PairState, events: seq<RaidEvent>, timeframe: string, bar: Candle,
    view: (Pool, RaidEvent) -> BarView, cfg: EngineConfig, nowMs: int, ok: Shown -> bool)
    requires AllOk(st, ok) && OkEvents(events, ok) && MayShow(st.pools, timeframe, bar, st.step, ok)
    ensures var r := BarPhase(st, events, timeframe, bar, view, cfg, nowMs);
      AllOk(r, ok) && SamePlaces(r.pools, st.pools) && r.step == st.step
  {
    if events != [] {
      var n := |events| - 1;
      BarPhaseShows(st, events[..n], timeframe, bar, view, cfg, nowMs, ok);
      var ev, acc := events[n], BarPhase(st, events[..n], timeframe, bar, view, cfg, nowMs);
      var i := FirstWithId(acc.pools, ev.poolId);
      if ev.state == Swept && i < |acc.pools| && acc.pools[i].timeframe == timeframe {
        assert SamePlace(acc.pools[i], st.pools[i]);
        OnBarShows(ev, acc.pools[i], bar, view(acc.pools[i], ev), cfg, st.step, ok);
        SettleBarShows(acc, i, OnBar(ev, acc.pools[i], bar, view(acc.pools[i], ev), cfg, st.step), cfg, nowMs, ok);
      }
    }
  }

  lemma PoolStepShows(st: PairState, pool: Pool, sig: Signals, ref: real, nowMs: int, cfg: EngineConfig, ok: Shown -> bool)
    requires AllOk(st, ok)
    ensures AllOk(PoolStep(st, pool, sig, ref, nowMs, cfg), ok)
  {
  }

  /** Prices add nothing to the histories. */
  lemma {:induction false} PricePhaseShows(
    st: PairState, n: nat, signals: Pool -> Option<Signals>, ref: real, nowMs: int, cfg: EngineConfig, ok: Shown -> bool)
    requires AllOk(st, ok) && n <= |st.pools|
    ensures AllOk(PricePhase(st, n, signals, ref, nowMs, cfg), ok)
  {
    if n > 0 {
      PricePhaseShows(st, n - 1, signals, ref, nowMs, cfg, ok);
      var acc := PricePhase(st, n - 1, signals, ref, nowMs, cfg);
      var sig := signals(acc.pools[n - 1]);
      if sig.Some? { PoolStepShows(acc, acc.pools[n - 1], sig.value, ref, nowMs, cfg, ok); }
    }
  }

  lemma {:induction false} PruneShows(events: seq<RaidEvent>, nowMs: int, maxAgeMs: int, ok: Shown -> bool)
    requires OkEvents(events, ok)
    ensures OkEvents(Prune(events, nowMs, maxAgeMs), ok)
  {
    if events != [] { PruneShows(events[..|events| - 1], nowMs, maxAgeMs, ok); }
  }
}
