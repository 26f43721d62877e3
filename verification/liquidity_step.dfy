/** One full step of the raid engine, from raw candles and prices, and what holds after every step. */
module LiquidityStep {
  import opened Common
  import opened Candles
  import opened SwingPoolDiscovery
  import opened LiquidityPoolRegistry
  import opened LiquidityEngine

  datatype StepInput = StepInput(
    candles: map<string, seq<Candle>>, ltf1m: seq<Candle>, bestBid: real, bestAsk: real, ltp: real,
    lastTrade: Option<real>, mss: Shift, nowMs: int)

  // ------------------------------------------------------------ indicators

  function RefPrice(i: StepInput): real {
    if i.lastTrade.Some? && i.lastTrade.value > 0.0 then i.lastTrade.value
    else if i.bestBid > 0.0 && i.bestAsk > 0.0 then (i.bestBid + i.bestAsk) / 2.0
    else i.ltp
  }

  function PenetrationPct(side: Side, level: real, price: real): real {
    if level <= 0.0 then 0.0
    else (if side == BuySide then price - level else level - price) / level * 100.0
  }

  function Volumes(cs: seq<Candle>): seq<real> {
    if cs == [] then [] else Volumes(cs[..|cs| - 1]) + [cs[|cs| - 1].volume]
  }

  /** More than the multiple of a mean, which must be positive. */
  predicate LouderThan(v: real, mean: real, mult: real) {
    mean > 0.0 && v > mean * mult
  }

  /** The last bar's volume against the mean of the bars before it. */
  function VolumeSpike(closed: seq<Candle>, cfg: EngineConfig): bool {
    var n := cfg.volumeLookbackBars + 2;
    if |closed| < n then false
    else
      var recent := LastRows(closed, n);
      var avg := Mean(Volumes(recent[..n - 1]));
      LouderThan(closed[|closed| - 1].volume, avg, cfg.volumeSpikeMult)
  }

  /** The oldest sample of the window, not counting the last five milliseconds. */
  function Oldest(ring: seq<Sample>, cutoff: int, nowMs: int): Option<Sample> {
    if ring == [] then None
    else
      var before := Oldest(ring[..|ring| - 1], cutoff, nowMs);
      var s := ring[|ring| - 1];
      if cutoff <= s.ts <= nowMs - 5 && (before == None || s.ts < before.value.ts) then Some(s) else before
  }

  function VelocityOk(ring: seq<Sample>, ref: real, nowMs: int, cfg: EngineConfig): bool {
    var oldest := Oldest(ring, nowMs - cfg.velocityWindowMs, nowMs);
    if oldest == None || oldest.value.price <= 0.0 then false
    else
      var dtSec := (nowMs - oldest.value.ts) as real / 1000.0;
      if dtSec < 0.05 then false
      else Abs(ref - oldest.value.price) / oldest.value.price * 100.0 / dtSec >= cfg.velocityMinPctPerSec
  }

  function Bodies(cs: seq<Candle>): seq<real> {
    if cs == [] then []
    else Bodies(cs[..|cs| - 1]) + [Abs(cs[|cs| - 1].close - cs[|cs| - 1].open)]
  }

  function DisplacementPresent(cs: seq<Candle>, lookback: nat): bool {
    if |cs| < 2 then false
    else
      var last := cs[|cs| - 1];
      var avg := Mean(Bodies(LastRows(cs, lookback)));
      LouderThan(Abs(last.close - last.open), avg, 1.5)
  }

  function WithoutLast<T>(xs: seq<T>): seq<T> {
    if xs == [] then [] else xs[..|xs| - 1]
  }

  function OppositeDisplacement(ltf1m: seq<Candle>, side: Side): bool {
    var closed := WithoutLast(ltf1m);
    if closed == [] then false
    else
      var last := closed[|closed| - 1];
      DisplacementPresent(closed, 10) && if side == BuySide then last.close < last.open else last.close > last.open
  }

  datatype Band = Band(min: real, max: real)

  function PenetrationBand(closed: seq<Candle>, cfg: EngineConfig): Band {
    var atrPct := AtrPercent(closed, 14);
    Band(cfg.minPenetrationPct + atrPct * cfg.penetrationAtrScale * 0.05,
         cfg.maxPenetrationPct + atrPct * cfg.penetrationAtrScale * 0.1)
  }

  function SweetSpot(pct: real, band: Band): bool {
    MaxR(band.min, 0.08) <= pct <= MinR(band.max, 0.3)
  }

  /** How a closed bar's context looks to a pool and its event. */
  function BarViews(closed: seq<Candle>, input: StepInput, cfg: EngineConfig): (Pool, RaidEvent) -> BarView {
    (pool: Pool, ev: RaidEvent) =>
      var opposite := OppositeDisplacement(input.ltf1m, pool.side);
      var deepest := if ev.maxPenetrationPct.Some? then ev.maxPenetrationPct.value else 0.0;
      BarView(opposite, Score(ScoreInput(
        pool.pivotCount, pool.side, pool.strength, cfg.structureMssBonus, input.mss, opposite,
        SweetSpot(deepest, PenetrationBand(closed, cfg)), VolumeSpike(closed, cfg),
        input.nowMs - pool.createdAtBarTs < 1_800_000)))
  }

  function CandlesOf(input: StepInput, timeframe: string): seq<Candle> {
    if timeframe in input.candles then input.candles[timeframe] else []
  }

  /** How the price looks to a pool; pools invalidated or without enough bars are skipped. */
  function PriceSignals(input: StepInput, ring: seq<Sample>, cfg: EngineConfig): Pool -> Option<Signals> {
    (pool: Pool) =>
      var candles := CandlesOf(input, pool.timeframe);
      var ref := RefPrice(input);
      if pool.status == Invalidated || |candles| < 8 then None
      else
        var closed := WithoutLast(candles);
        var band := PenetrationBand(closed, cfg);
        var pen := PenetrationPct(pool.side, pool.price, ref);
        Some(Signals(
          if pool.side == BuySide then ref >= pool.price else ref <= pool.price,
          if pool.side == BuySide then ref < pool.price * 0.995 else ref > pool.price * 1.005,
          pen,
          band.min <= pen <= band.max && VolumeSpike(closed, cfg) && VelocityOk(ring, ref, input.nowMs, cfg)))
  }

  // ------------------------------------------------------------ the step

  predicate Ready(input: StepInput, timeframe: string) {
    |CandlesOf(input, timeframe)| >= 8
  }

  predicate AnyReady(input: StepInput, timeframes: seq<string>) {
    exists tf :: tf in timeframes && Ready(input, tf)
  }

  datatype Advance = Advance(st: PairState, advanced: bool)

  predicate HasNewBar(st: PairState, input: StepInput, timeframe: string) {
    Ready(input, timeframe) &&
    var closed := WithoutLast(CandlesOf(input, timeframe));
    closed[|closed| - 1].timestamp > (if timeframe in st.lastBar then st.lastBar[timeframe] else 0)
  }

  /** A timeframe's new closed bar refreshes its pools and is then shown to the swept events. */
  function NewBar(st: PairState, input: StepInput, timeframe: string, cfg: EngineConfig): PairState
    requires HasNewBar(st, input, timeframe)
  {
    var closed := WithoutLast(CandlesOf(input, timeframe));
    var bar := closed[|closed| - 1];
    var barred := st.(lastBar := st.lastBar[timeframe := bar.timestamp],
                      pools := Refresh(st.pools, closed, timeframe, cfg.registry));
    BarPhase(barred, barred.events, timeframe, bar, BarViews(closed, input, cfg), cfg, input.nowMs)
  }

  function Timeframes(st: PairState, input: StepInput, timeframes: seq<string>, cfg: EngineConfig): Advance {
    if timeframes == [] then Advance(st, false)
    else
      var tf := timeframes[|timeframes| - 1];
      var acc := Timeframes(st, input, timeframes[..|timeframes| - 1], cfg);
      if HasNewBar(acc.st, input, tf) then Advance(NewBar(acc.st, input, tf, cfg), true) else acc
  }

  const RING_MAX := 32

  function PushSample(ring: seq<Sample>, s: Sample): seq<Sample> {
    LastRows(ring + [s], RING_MAX)
  }

  function PriceStep(st: PairState, input: StepInput, cfg: EngineConfig): PairState {
    var ref := RefPrice(input);
    var ring := PushSample(st.ring, Sample(input.nowMs, ref));
    var seen := PricePhase(st.(ring := ring), |st.pools|, PriceSignals(input, ring, cfg), ref, input.nowMs, cfg);
    seen.(events := Prune(seen.events, input.nowMs, cfg.eventMaxAgeMs))
  }

  function StepPair(st: PairState, input: StepInput, cfg: EngineConfig): PairState {
    if !AnyReady(input, cfg.timeframes) then st
    else
      var a := Timeframes(st.(step := st.step + 1), input, cfg.timeframes, cfg);
      PriceStep(if a.advanced then a.st else a.st.(pools := TickDecay(a.st.pools, cfg.registry.tickFactor)), input, cfg)
  }

  // ------------------------------------------------------------ after every step

  lemma NewBarGood(st: PairState, input: StepInput, timeframe: string, cfg: EngineConfig)
    requires Good(st, cfg) && SweptEarlier(st.events, st.step) && HasNewBar(st, input, timeframe)
    ensures var r := NewBar(st, input, timeframe, cfg);
      Good(r, cfg) && SweptEarlier(r.events, r.step) && r.step == st.step
  {
    var closed := WithoutLast(CandlesOf(input, timeframe));
    var bar := closed[|closed| - 1];
    var barred := st.(lastBar := st.lastBar[timeframe := bar.timestamp],
                      pools := Refresh(st.pools, closed, timeframe, cfg.registry));
    BarredGood(st, barred.lastBar, barred.pools, cfg);
    BarPhaseGood(barred, barred.events, timeframe, bar, BarViews(closed, input, cfg), cfg, input.nowMs);
  }

  lemma {:induction false} TimeframesGood(st: PairState, input: StepInput, timeframes: seq<string>, cfg: EngineConfig)
    requires Good(st, cfg) && SweptEarlier(st.events, st.step)
    ensures var r := Timeframes(st, input, timeframes, cfg).st;
      Good(r, cfg) && SweptEarlier(r.events, r.step) && r.step == st.step
  {
    if timeframes != [] {
      var tf := timeframes[|timeframes| - 1];
      TimeframesGood(st, input, timeframes[..|timeframes| - 1], cfg);
      var acc := Timeframes(st, input, timeframes[..|timeframes| - 1], cfg);
      if HasNewBar(acc.st, input, tf) { NewBarGood(acc.st, input, tf, cfg); }
    }
  }

  ghost predicate Young(events: seq<RaidEvent>, nowMs: int, maxAgeMs: int) {
    forall i | 0 <= i < |events| :: nowMs - events[i].createdAtMs <= maxAgeMs
  }

  lemma PriceStepGood(st: PairState, input: StepInput, cfg: EngineConfig)
    requires ValidEngine(cfg) && Good(st, cfg)
    ensures var r := PriceStep(st, input, cfg);
      Good(r, cfg) && r.step == st.step && Young(r.events, input.nowMs, cfg.eventMaxAgeMs)
  {
    var ref := RefPrice(input);
    var ring := PushSample(st.ring, Sample(input.nowMs, ref));
    var signals := PriceSignals(input, ring, cfg);
    PricePhaseGood(st.(ring := ring), |st.pools|, signals, ref, input.nowMs, cfg);
    var seen := PricePhase(st.(ring := ring), |st.pools|, signals, ref, input.nowMs, cfg);
    PruneGood(seen.events, input.nowMs, cfg.eventMaxAgeMs, cfg, st.step);
  }

  lemma NextStepGood(st: PairState, cfg: EngineConfig)
    requires Good(st, cfg)
    ensures var next := st.(step := st.step + 1); Good(next, cfg) && SweptEarlier(next.events, next.step)
  {
  }

  lemma BarredGood(st: PairState, lastBar: map<string, int>, pools: seq<Pool>, cfg: EngineConfig)
    requires Good(st, cfg)
    ensures Good(st.(lastBar := lastBar, pools := pools), cfg)
  {
  }

  /** A full step keeps the lifecycle invariant and leaves no event older than the maximum age. */
  lemma StepPairGood(st: PairState, input: StepInput, cfg: EngineConfig)
    requires ValidEngine(cfg) && Good(st, cfg)
    ensures Good(StepPair(st, input, cfg), cfg)
    ensures AnyReady(input, cfg.timeframes) ==>
      && StepPair(st, input, cfg).step == st.step + 1
      && Young(StepPair(st, input, cfg).events, input.nowMs, cfg.eventMaxAgeMs)
  {
    if AnyReady(input, cfg.timeframes) {
      var next := st.(step := st.step + 1);
      NextStepGood(st, cfg);
      TimeframesGood(next, input, cfg.timeframes, cfg);
      var a := Timeframes(next, input, cfg.timeframes, cfg);
      PriceStepGood(if a.advanced then a.st else a.st.(pools := TickDecay(a.st.pools, cfg.registry.tickFactor)), input, cfg);
    }
  }

  function RunPair(inputs: seq<StepInput>, cfg: EngineConfig): PairState {
    if inputs == [] then EMPTY_PAIR else StepPair(RunPair(inputs[..|inputs| - 1], cfg), inputs[|inputs| - 1], cfg)
  }

  // ------------------------------------------------------------ where the bars of a history come from

  /** The bar is the last closed candle of a timeframe in this input, and the pool stands where one discovered from
      those candles does. */
  ghost predicate ShownIn(input: StepInput, timeframe: string, cfg: EngineConfig, x: Shown) {
    && Ready(input, timeframe)
    && var closed := WithoutLast(CandlesOf(input, timeframe));
      && x.bar == closed[|closed| - 1] && x.pool.timeframe == timeframe
      && exists d | d in Discover(closed, timeframe, cfg.registry.discovery) :: d.side == x.pool.side && d.price == x.pool.price
  }

  /** How many inputs had enough candles to make a step. */
  function ReadyInputs(inputs: seq<StepInput>, cfg: EngineConfig): nat {
    if inputs == [] then 0
    else ReadyInputs(inputs[..|inputs| - 1], cfg) + if AnyReady(inputs[|inputs| - 1], cfg.timeframes) then 1 else 0
  }

  /** Input `j` showed it, in step `x.atStep` of the run. */
  ghost predicate ShownAt(inputs: seq<StepInput>, j: nat, timeframe: string, cfg: EngineConfig, x: Shown) {
    && j < |inputs| && timeframe in cfg.timeframes
    && ShownIn(inputs[j], timeframe, cfg, x) && ReadyInputs(inputs[..j + 1], cfg) == x.atStep
  }

  ghost predicate Witnessed(inputs: seq<StepInput>, cfg: EngineConfig, x: Shown) {
    exists j: nat, timeframe :: ShownAt(inputs, j, timeframe, cfg, x)
  }

  ghost function WitnessedBy(inputs: seq<StepInput>, cfg: EngineConfig): Shown -> bool {
    (x: Shown) => Witnessed(inputs, cfg, x)
  }

  lemma NewBarShows(st: PairState, input: StepInput, timeframe: string, cfg: EngineConfig, ok: Shown -> bool)
    requires AllOk(st, ok) && HasNewBar(st, input, timeframe)
    requires forall x: Shown | x.atStep == st.step && ShownIn(input, timeframe, cfg, x) :: ok(x)
    ensures var r := NewBar(st, input, timeframe, cfg); AllOk(r, ok) && r.step == st.step
  {
    var closed := WithoutLast(CandlesOf(input, timeframe));
    var bar := closed[|closed| - 1];
    var barred := st.(lastBar := st.lastBar[timeframe := bar.timestamp],
                      pools := Refresh(st.pools, closed, timeframe, cfg.registry));
    forall p, i | 0 <= i < |barred.pools| && SamePlace(p, barred.pools[i]) && p.timeframe == timeframe
      ensures ok(Shown(p, bar, st.step))
    {
      FoundPlace(st.pools, closed, timeframe, cfg, barred.pools[i]);
      assert ShownIn(input, timeframe, cfg, Shown(p, bar, st.step));
    }
    BarPhaseShows(barred, barred.events, timeframe, bar, BarViews(closed, input, cfg), cfg, input.nowMs, ok);
  }

  /** A refreshed pool of the timeframe stands where a discovered one does. */
  lemma FoundPlace(pools: seq<Pool>, closed: seq<Candle>, timeframe: string, cfg: EngineConfig, p: Pool)
    requires p in Refresh(pools, closed, timeframe, cfg.registry) && p.timeframe == timeframe
    ensures exists d | d in Discover(closed, timeframe, cfg.registry.discovery) :: d.side == p.side && d.price == p.price
  {
    RefreshOrigin(pools, closed, timeframe, cfg.registry);
    var d :| d in Discover(closed, timeframe, cfg.registry.discovery) && Refreshed(p, d, pools, cfg.registry);
  }

  lemma {:induction false} TimeframesShow(
    st: PairState, input: StepInput, timeframes: seq<string>, cfg: EngineConfig, ok: Shown -> bool)
    requires AllOk(st, ok)
    requires forall tf, x: Shown | tf in timeframes && x.atStep == st.step && ShownIn(input, tf, cfg, x) :: ok(x)
    ensures var r := Timeframes(st, input, timeframes, cfg).st; AllOk(r, ok) && r.step == st.step
  {
    if timeframes != [] {
      var n := |timeframes| - 1;
      assert timeframes[n] in timeframes && forall tf | tf in timeframes[..n] :: tf in timeframes;
      TimeframesShow(st, input, timeframes[..n], cfg, ok);
      var acc := Timeframes(st, input, timeframes[..n], cfg);
      if HasNewBar(acc.st, input, timeframes[n]) { NewBarShows(acc.st, input, timeframes[n], cfg, ok); }
    }
  }

  lemma PriceStepShows(st: PairState, input: StepInput, cfg: EngineConfig, ok: Shown -> bool)
    requires AllOk(st, ok)
    ensures AllOk(PriceStep(st, input, cfg), ok)
  {
    var ref := RefPrice(input);
    var ring := PushSample(st.ring, Sample(input.nowMs, ref));
    var signals := PriceSignals(input, ring, cfg);
    PricePhaseShows(st.(ring := ring), |st.pools|, signals, ref, input.nowMs, cfg, ok);
    var seen := PricePhase(st.(ring := ring), |st.pools|, signals, ref, input.nowMs, cfg);
    PruneShows(seen.events, input.nowMs, cfg.eventMaxAgeMs, ok);
  }

  lemma StepPairShows(st: PairState, input: StepInput, cfg: EngineConfig, ok: Shown -> bool)
    requires AllOk(st, ok)
    requires forall tf, x: Shown | tf in cfg.timeframes && x.atStep == st.step + 1 && ShownIn(input, tf, cfg, x) :: ok(x)
    ensures AllOk(StepPair(st, input, cfg), ok)
  {
    if AnyReady(input, cfg.timeframes) {
      var next := st.(step := st.step + 1);
      TimeframesShow(next, input, cfg.timeframes, cfg, ok);
      var a := Timeframes(next, input, cfg.timeframes, cfg);
      PriceStepShows(if a.advanced then a.st else a.st.(pools := TickDecay(a.st.pools, cfg.registry.tickFactor)), input, cfg, ok);
    }
  }

  lemma ShownAtLater(inputs: seq<StepInput>, j: nat, timeframe: string, cfg: EngineConfig, x: Shown)
    requires inputs != [] && ShownAt(inputs[..|inputs| - 1], j, timeframe, cfg, x)
    ensures ShownAt(inputs, j, timeframe, cfg, x)
  {
    assert inputs[..|inputs| - 1][..j + 1] == inputs[..j + 1];
  }

  lemma WitnessedLater(inputs: seq<StepInput>, cfg: EngineConfig, x: Shown)
    requires inputs != [] && Witnessed(inputs[..|inputs| - 1], cfg, x)
    ensures Witnessed(inputs, cfg, x)
  {
    var j: nat, tf :| ShownAt(inputs[..|inputs| - 1], j, tf, cfg, x);
    ShownAtLater(inputs, j, tf, cfg, x);
  }

  lemma OkWidens(st: PairState, ok: Shown -> bool, wider: Shown -> bool)
    requires AllOk(st, ok) && forall x: Shown | ok(x) :: wider(x)
    ensures AllOk(st, wider)
  {
  }

  lemma ShownNow(inputs: seq<StepInput>, cfg: EngineConfig, tf: string, x: Shown)
    requires inputs != [] && tf in cfg.timeframes && ShownIn(inputs[|inputs| - 1], tf, cfg, x)
    requires x.atStep == ReadyInputs(inputs[..|inputs| - 1], cfg) + 1
    ensures Witnessed(inputs, cfg, x)
  {
    var n := |inputs| - 1;
    assert AnyReady(inputs[n], cfg.timeframes);
    assert inputs[..n + 1] == inputs;
    assert ShownAt(inputs, n, tf, cfg, x);
  }

  /** Raid lifecycle, after every step of every run: stored events are touched or swept, one per pool; swept ones are
      within their bar limits, and their counters are those of the bars shown since the sweep; a confirmation comes in a
      later step than its sweep and after a rejecting close; the last report is exactly one of actionable and
      watchlist. Every bar in a history is the last closed candle of an input of the run, for a configured timeframe at
      that step, shown with a pool that stands where one discovered from that input does. */
  lemma {:induction false} RaidLifecycle(inputs: seq<StepInput>, cfg: EngineConfig)
    requires ValidEngine(cfg)
    ensures Good(RunPair(inputs, cfg), cfg)
    ensures RunPair(inputs, cfg).step == ReadyInputs(inputs, cfg) && AllOk(RunPair(inputs, cfg), WitnessedBy(inputs, cfg))
    ensures inputs != [] && AnyReady(inputs[|inputs| - 1], cfg.timeframes) ==>
      Young(RunPair(inputs, cfg).events, inputs[|inputs| - 1].nowMs, cfg.eventMaxAgeMs)
  {
    if inputs != [] {
      var n := |inputs| - 1;
      RaidLifecycle(inputs[..n], cfg);
      var before := RunPair(inputs[..n], cfg);
      StepPairGood(before, inputs[n], cfg);
      forall x | WitnessedBy(inputs[..n], cfg)(x) ensures WitnessedBy(inputs, cfg)(x) { WitnessedLater(inputs, cfg, x); }
      OkWidens(before, WitnessedBy(inputs[..n], cfg), WitnessedBy(inputs, cfg));
      forall tf, x: Shown | tf in cfg.timeframes && x.atStep == before.step + 1 && ShownIn(inputs[n], tf, cfg, x)
        ensures WitnessedBy(inputs, cfg)(x)
      {
        ShownNow(inputs, cfg, tf, x);
      }
      StepPairShows(before, inputs[n], cfg, WitnessedBy(inputs, cfg));
    }
  }

  // ------------------------------------------------------------ the mutable engine

  class Engine {
    const cfg: EngineConfig
    var pairs: map<string, PairState>

    constructor (cfg: EngineConfig)
      ensures this.cfg == cfg && pairs == map[]
    {
      this.cfg := cfg;
      pairs := map[];
    }

    function StateOf(pair: string): PairState
      reads this
    {
      if pair in pairs then pairs[pair] else EMPTY_PAIR
    }

    method IsAnyReady(input: StepInput) returns (anyReady: bool)
      ensures anyReady == AnyReady(input, cfg.timeframes)
    {
      anyReady := false;
      for i := 0 to |cfg.timeframes|
        invariant anyReady == AnyReady(input, cfg.timeframes[..i])
      {
        assert cfg.timeframes[..i + 1] == cfg.timeframes[..i] + [cfg.timeframes[i]];
        if Ready(input, cfg.timeframes[i]) { anyReady := true; }
      }
      assert cfg.timeframes[..|cfg.timeframes|] == cfg.timeframes;
    }

    method Step(pair: string, input: StepInput)
      modifies this
      ensures pairs == if cfg.enabled then old(pairs)[pair := StepPair(old(StateOf(pair)), input, cfg)] else old(pairs)
    {
      if !cfg.enabled { return; }
      var st := StepState(StateOf(pair), input);
      pairs := pairs[pair := st];
    }

    method StepState(start: PairState, input: StepInput) returns (st: PairState)
      ensures st == StepPair(start, input, cfg)
    {
      var anyReady := IsAnyReady(input);
      if !anyReady {
        return start;
      }
      st := ShowAll(start.(step := start.step + 1), input);
    }

    /** The new closed bars of every timeframe, then the price. */
    method ShowAll(start: PairState, input: StepInput) returns (st: PairState)
      ensures var a := Timeframes(start, input, cfg.timeframes, cfg);
        st == PriceStep(if a.advanced then a.st else a.st.(pools := TickDecay(a.st.pools, cfg.registry.tickFactor)), input, cfg)
    {
      var seen, advanced := ShowNewBars(start, input);
      if !advanced { seen := seen.(pools := TickDecay(seen.pools, cfg.registry.tickFactor)); }
      st := ShowPrice(seen, input);
    }

    method ShowNewBars(start: PairState, input: StepInput) returns (st: PairState, advanced: bool)
      ensures Advance(st, advanced) == Timeframes(start, input, cfg.timeframes, cfg)
    {
      st, advanced := start, false;
      var tfs := cfg.timeframes;
      for i := 0 to |tfs|
        invariant Advance(st, advanced) == Timeframes(start, input, tfs[..i], cfg)
      {
        assert tfs[..i + 1][..i] == tfs[..i];
        if HasNewBar(st, input, tfs[i]) {
          st := ShowNewBar(st, input, tfs[i]);
          advanced := true;
        }
      }
      assert tfs[..|tfs|] == tfs;
    }

    method ShowNewBar(start: PairState, input: StepInput, tf: string) returns (st: PairState)
      requires HasNewBar(start, input, tf)
      ensures st == NewBar(start, input, tf, cfg)
    {
      var closed := WithoutLast(CandlesOf(input, tf));
      var bar := closed[|closed| - 1];
      st := start.(lastBar := start.lastBar[tf := bar.timestamp], pools := Refresh(start.pools, closed, tf, cfg.registry));
      st := OnNewClosedBar(st, tf, bar, BarViews(closed, input, cfg), input.nowMs);
    }

    method OnNewClosedBar(start: PairState, timeframe: string, bar: Candle, view: (Pool, RaidEvent) -> BarView, nowMs: int)
      returns (st: PairState)
      ensures st == BarPhase(start, start.events, timeframe, bar, view, cfg, nowMs)
    {
      var events := start.events;
      st := start.(events := []);
      for i := 0 to |events|
        invariant st == BarPhase(start, events[..i], timeframe, bar, view, cfg, nowMs)
        invariant st.step == start.step
      {
        assert events[..i + 1][..i] == events[..i];
        var ev := events[i];
        if ev.state != Swept {
          st := st.(events := st.events + [ev]);
        } else {
          var k := FirstWithId(st.pools, ev.poolId);
          if k < |st.pools| {
            if st.pools[k].timeframe != timeframe {
              st := st.(events := st.events + [ev]);
            } else {
              var outcome := OnBar(ev, st.pools[k], bar, view(st.pools[k], ev), cfg, st.step);
              match outcome {
                case Kept(e) => st := st.(events := st.events + [e]);
                case BrokenOut => st := st.(pools := st.pools[k := st.pools[k].(status := Invalidated)]);
                case RanOut =>
                case Confirms(e, score) =>
                  st := st.(confirmations := st.confirmations + [Confirmation(e, score, st.step)],
                            lastConfirmed := Report(st.lastConfirmed, st.pools[k], score, cfg, nowMs));
              }
            }
          }
        }
      }
      assert events[..|events|] == events;
    }

    method ShowPrice(start: PairState, input: StepInput) returns (st: PairState)
      ensures st == PriceStep(start, input, cfg)
    {
      var ref := RefPrice(input);
      var ring := PushSample(start.ring, Sample(input.nowMs, ref));
      var signals := PriceSignals(input, ring, cfg);
      var from := start.(ring := ring);
      st := from;
      for i := 0 to |start.pools|
        invariant st == PricePhase(from, i, signals, ref, input.nowMs, cfg)
      {
        var sig := signals(st.pools[i]);
        if sig.Some? { st := PoolStep(st, st.pools[i], sig.value, ref, input.nowMs, cfg); }
      }
      var events := st.events;
      var kept: seq<RaidEvent> := [];
      for i := 0 to |events|
        invariant kept == Prune(events[..i], input.nowMs, cfg.eventMaxAgeMs)
      {
        assert events[..i + 1][..i] == events[..i];
        if input.nowMs - events[i].createdAtMs <= cfg.eventMaxAgeMs { kept := kept + [events[i]]; }
      }
      assert events[..|events|] == events;
      st := st.(events := kept);
    }
  }
}
