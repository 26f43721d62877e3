/** A concrete run of the raid engine in three steps: a pool is touched, swept, and its raid confirmed. */
module RaidRuns {
  import opened Common
  import opened Candles
  import opened SwingPoolDiscovery
  import opened LiquidityPoolRegistry
  import opened LiquidityEngine
  import opened LiquidityStep
  import opened LiquidityPrices
  import opened PoolReturns

  const TF := "15m"

  /** A plain configuration: every penetration up to its own level and every speed counts. */
  ghost predicate Plain(cfg: EngineConfig) {
    && cfg.timeframes == [TF] && Roomy(cfg.registry) && cfg.registry.decay >= 0.5 && 0.5 <= cfg.registry.tickFactor <= 1.0
    && cfg.minPenetrationPct == 0.0 && cfg.maxPenetrationPct == 100.0 && cfg.penetrationAtrScale == 0.0
    && cfg.velocityWindowMs == 60_000 && cfg.velocityMinPctPerSec == 0.0
    && cfg.volumeSpikeMult == 1.0 && cfg.volumeLookbackBars == 0
    && cfg.maxRejectionBars == 5 && cfg.acceptanceHoldBars == 2 && cfg.eventMaxAgeMs == 600_000 && cfg.eventMaxBarsSinceSweep == 5
  }

  /** Two equal peaks at two, and a loud last bar. */
  function PeakBar(i: int): Candle {
    Candle(i, 1.0, if i == 2 || i == 5 then 2.0 else 1.0, 0.5, 1.0, if i == 9 then 2.0 else 1.0)
  }

  function TenBars(): seq<Candle> { seq(10, i => PeakBar(i)) }

  /** Beyond the level, and closed back inside it. */
  const REJECTING := Candle(10, 1.5, 2.1, 0.5, 1.5, 1.0)
  const FORMING := Candle(99, 1.5, 1.5, 1.5, 1.5, 0.0)

  /** A quiet minute, and one that falls. */
  const FALLING: seq<Candle> := [Candle(0, 2.0, 2.0, 2.0, 2.0, 1.0), Candle(1, 2.0, 2.0, 1.0, 1.0, 1.0), FORMING]

  function InputOf(bars: seq<Candle>, price: real, nowMs: int): StepInput {
    StepInput(map[TF := bars + [FORMING]], FALLING, 0.0, 0.0, price, None, NoShift, nowMs)
  }

  function ThreeInputs(): seq<StepInput> {
    [InputOf(TenBars(), 2.0, 1_000_000), InputOf(TenBars(), 2.01, 1_001_000), InputOf(TenBars() + [REJECTING], 2.0, 1_002_000)]
  }

  lemma TenHavePeaks()
    ensures TwoPeaks(TenBars()) && TwoPeaks(TenBars() + [REJECTING])
  {
  }

  // ------------------------------------------------------------ the bars of an input

  /** An input with these closed bars of the one timeframe. */
  predicate Carries(input: StepInput, bars: seq<Candle>) {
    input.candles == map[TF := bars + [FORMING]]
  }

  lemma BarsOf(input: StepInput, bars: seq<Candle>, cfg: EngineConfig)
    requires Carries(input, bars) && |bars| >= 10 && cfg.timeframes == [TF]
    ensures CandlesOf(input, TF) == bars + [FORMING] && WithoutLast(CandlesOf(input, TF)) == bars
    ensures Ready(input, TF) && AnyReady(input, cfg.timeframes)
  {
    assert TF in cfg.timeframes;
  }

  /** One timeframe: its new bar, or nothing. */
  lemma OneTimeframe(st: PairState, input: StepInput, bars: seq<Candle>, cfg: EngineConfig)
    requires Carries(input, bars) && |bars| >= 10 && cfg.timeframes == [TF]
    ensures HasNewBar(st, input, TF) <==> bars[|bars| - 1].timestamp > (if TF in st.lastBar then st.lastBar[TF] else 0)
    ensures Timeframes(st, input, cfg.timeframes, cfg)
            == if HasNewBar(st, input, TF) then Advance(NewBar(st, input, TF, cfg), true) else Advance(st, false)
  {
    BarsOf(input, bars, cfg);
    assert cfg.timeframes[..0] == [];
  }

  // ------------------------------------------------------------ one pool, one event

  /** The pool of the peaks, live and strong enough. */
  predicate PeakLive(p: Pool, strength: real) {
    SamePlace(p, PeakPool(TF)) && p.status == Active && p.strength >= strength
  }

  predicate OnlyEvent(events: seq<RaidEvent>, p: Pool) {
    |events| <= 1 && (events != [] ==> events[0].poolId == p.id)
  }

  /** The price step of a pair with one pool. */
  lemma OnePoolStep(st: PairState, input: StepInput, cfg: EngineConfig, ring: seq<Sample>)
    requires |st.pools| == 1 && OnlyEvent(st.events, st.pools[0]) && IsPrice(input, input.ltp)
    requires IsRing(st.ring, Sample(input.nowMs, input.ltp), ring)
    ensures var r := PriceStep(st, input, cfg);
      r.lastBar == st.lastBar && r.ring == ring && r.step == st.step && OnlyEvent(r.events, st.pools[0])
  {
    PriceIsRef(input, input.ltp);
    RingIsPushed(st.ring, Sample(input.nowMs, input.ltp), ring);
    var signals := PriceSignals(input, ring, cfg);
    OneSeen(st.(ring := ring), signals, input.ltp, input.nowMs, cfg);
    PrunedOnly(PricePhase(st.(ring := ring), 1, signals, input.ltp, input.nowMs, cfg).events, st.pools[0], input.nowMs, cfg.eventMaxAgeMs);
  }

  lemma OneSeen(st: PairState, signals: Pool -> Option<Signals>, ref: real, nowMs: int, cfg: EngineConfig)
    requires |st.pools| == 1 && OnlyEvent(st.events, st.pools[0])
    ensures var r := PricePhase(st, 1, signals, ref, nowMs, cfg);
      r.lastBar == st.lastBar && r.ring == st.ring && r.step == st.step && OnlyEvent(r.events, st.pools[0])
  {
    assert PricePhase(st, 0, signals, ref, nowMs, cfg) == st;
    OneTurn(st, signals(st.pools[0]), ref, nowMs, cfg);
  }

  lemma OneTurn(st: PairState, sig: Option<Signals>, ref: real, nowMs: int, cfg: EngineConfig)
    requires |st.pools| == 1 && OnlyEvent(st.events, st.pools[0])
    ensures sig.Some? ==>
      var r := PoolStep(st, st.pools[0], sig.value, ref, nowMs, cfg);
      && OnlyEvent(r.events, st.pools[0])
      && r.lastBar == st.lastBar && r.ring == st.ring && r.step == st.step
  {
  }

  lemma PrunedOnly(events: seq<RaidEvent>, p: Pool, nowMs: int, maxAgeMs: int)
    requires OnlyEvent(events, p)
    ensures OnlyEvent(Prune(events, nowMs, maxAgeMs), p)
  {
    if events != [] { assert events[..0] == []; }
  }

  lemma OneStored(events: seq<RaidEvent>, p: Pool)
    requires OnlyEvent(events, p)
    ensures Stored(events, p.id) == if events == [] then None else Some(events[0])
  {
  }

  /** A state between steps: one live pool of the peaks, at most its event, nothing confirmed yet. */
  predicate Between(st: PairState, lastBar: int, strength: real) {
    && |st.pools| == 1 && PeakLive(st.pools[0], strength) && OnlyEvent(st.events, st.pools[0])
    && st.lastBar == map[TF := lastBar]
  }

  predicate TouchedAt(ev: RaidEvent, nowMs: int) {
    ev.state == TouchedState && ev.touchTimeMs == Some(nowMs) && ev.createdAtMs == nowMs
  }

  // ------------------------------------------------------------ the price in each step

  /** Reaching the level gives the pool a touched event. */
  lemma ReachedTouches(st: PairState, input: StepInput, cfg: EngineConfig, ring: seq<Sample>)
    requires Plain(cfg) && Good(st, cfg) && Between(st, 9, 0.7) && st.pools == [PeakPool(TF)] && st.events == []
    requires Carries(input, TenBars()) && input.lastTrade == None && input.bestBid == 0.0 && input.ltp == 2.0
    requires IsRing(st.ring, Sample(input.nowMs, 2.0), ring)
    ensures var r := PriceStep(st, input, cfg);
      && Good(r, cfg) && Between(r, 9, 0.5) && r.ring == ring && r.events != [] && TouchedAt(r.events[0], input.nowMs)
  {
    var p := PeakPool(TF);
    FirstTouch(st, input, cfg, ring);
    OnePoolStep(st, input, cfg, ring);
    PriceStepGood(st, input, cfg);
    OneStored(PriceStep(st, input, cfg).events, p);
    assert PeakLive(TouchedOnce(p), 0.5);
  }

  lemma FirstTouch(st: PairState, input: StepInput, cfg: EngineConfig, ring: seq<Sample>)
    requires Plain(cfg) && Good(st, cfg) && st.pools == [PeakPool(TF)] && st.events == []
    requires Carries(input, TenBars()) && input.lastTrade == None && input.bestBid == 0.0 && input.ltp == 2.0
    requires IsRing(st.ring, Sample(input.nowMs, 2.0), ring)
    ensures var r := PriceStep(st, input, cfg);
      && r.pools == [TouchedOnce(PeakPool(TF))] && Stored(r.events, PeakPool(TF).id).Some?
      && TouchedAt(Stored(r.events, PeakPool(TF).id).value, input.nowMs)
  {
    var p := PeakPool(TF);
    PeakSees(input, p);
    TouchOfOne(st, input, cfg, ring, p);
  }

  lemma TouchOfOne(st: PairState, input: StepInput, cfg: EngineConfig, ring: seq<Sample>, p: Pool)
    requires ValidEngine(cfg) && Good(st, cfg) && st.pools == [p] && st.events == [] && cfg.eventMaxAgeMs >= 0
    requires Sees(input, p) && ReachedBy(p, 2.0) && IsPrice(input, 2.0) && IsRing(st.ring, Sample(input.nowMs, 2.0), ring)
    ensures var r := PriceStep(st, input, cfg);
      && r.pools == [TouchedOnce(p)] && Stored(r.events, p.id).Some?
      && TouchedAt(Stored(r.events, p.id).value, input.nowMs)
  {
    assert st.pools[0] == p && AloneAt(st.pools, 0);
    NoneStored(st.events, p.id);
    ReachedIsTouched(st, input, ring, 2.0, cfg, 0);
  }

  lemma PeakSees(input: StepInput, p: Pool)
    requires Carries(input, TenBars()) && SamePlace(p, PeakPool(TF)) && p.status == Active
    ensures Sees(input, p) && ClosedOf(input, p) == TenBars()
  {
    assert |TenBars()| == 10;
  }

  lemma LoudTen(cfg: EngineConfig)
    requires Plain(cfg)
    ensures Loud(TenBars(), cfg)
  {
    var before := TenBars()[..9];
    assert before[..8] == TenBars()[..8];
    assert VolumeSum(before[..8], 0) == 0.0;
    assert VolumeSum(before, 1) == before[8].volume == 1.0;
  }

  /** Half a percent beyond it with a loud bar and a fast move sweeps it. */
  lemma BeyondSweeps(st: PairState, input: StepInput, cfg: EngineConfig, ring: seq<Sample>)
    requires Plain(cfg) && Good(st, cfg) && Between(st, 9, 0.2) && st.events != [] && TouchedAt(st.events[0], input.nowMs - 1000)
    requires Carries(input, TenBars()) && input.lastTrade == None && input.bestBid == 0.0 && input.ltp == 2.01
    requires st.ring == [Sample(input.nowMs - 1000, 2.0)] && ring == st.ring + [Sample(input.nowMs, 2.01)]
    ensures var r := PriceStep(st, input, cfg);
      && Good(r, cfg) && Between(r, 9, 0.2) && r.events != [] && r.events[0].state == Swept
  {
    var p := st.pools[0];
    FirstSweep(st, input, cfg, ring);
    OnePoolStep(st, input, cfg, ring);
    PriceStepGood(st, input, cfg);
    OneStored(PriceStep(st, input, cfg).events, p);
  }

  lemma FirstSweep(st: PairState, input: StepInput, cfg: EngineConfig, ring: seq<Sample>)
    requires Plain(cfg) && Good(st, cfg) && Between(st, 9, 0.2) && st.events != [] && TouchedAt(st.events[0], input.nowMs - 1000)
    requires Carries(input, TenBars()) && input.lastTrade == None && input.bestBid == 0.0 && input.ltp == 2.01
    requires st.ring == [Sample(input.nowMs - 1000, 2.0)] && ring == st.ring + [Sample(input.nowMs, 2.01)]
    ensures var r, p := PriceStep(st, input, cfg), st.pools[0];
      && r.pools == [p] && Stored(r.events, p.id).Some? && Stored(r.events, p.id).value.state == Swept
  {
    var p := st.pools[0];
    OneStored(st.events, p);
    PeakSees(input, p);
    SweepIsMade(input, ring, p, cfg);
    TouchedIsSwept(st, input, ring, 2.01, cfg, 0);
  }

  lemma SweepIsMade(input: StepInput, ring: seq<Sample>, p: Pool, cfg: EngineConfig)
    requires Plain(cfg) && Sees(input, p) && ClosedOf(input, p) == TenBars() && SamePlace(p, PeakPool(TF))
    requires ring == [Sample(input.nowMs - 1000, 2.0), Sample(input.nowMs, 2.01)]
    ensures MakesSweep(input, ring, 2.01, p, cfg)
  {
    LoudTen(cfg);
    assert OldestAt(ring, 0, input.nowMs, cfg) && MovedFast(ring[0], 2.01, input.nowMs, cfg);
    assert IsPenetration(p, 2.01, 0.5) && IsVolatility(TenBars(), 0.1) && InBand(0.5, 0.1, cfg);
  }

  // ------------------------------------------------------------ the bars in each step

  /** What a new bar is shown with. */
  function Barred(st: PairState, bars: seq<Candle>, cfg: EngineConfig): PairState
    requires bars != []
  {
    st.(lastBar := st.lastBar[TF := bars[|bars| - 1].timestamp], pools := Refresh(st.pools, bars, TF, cfg.registry))
  }

  lemma NewBarIs(st: PairState, input: StepInput, bars: seq<Candle>, cfg: EngineConfig)
    requires Carries(input, bars) && |bars| >= 10 && cfg.timeframes == [TF] && HasNewBar(st, input, TF)
    ensures var b := Barred(st, bars, cfg);
      NewBar(st, input, TF, cfg)
      == BarPhase(b, b.events, TF, bars[|bars| - 1], BarViews(bars, input, cfg), cfg, input.nowMs)
  {
    BarsOf(input, bars, cfg);
  }

  /** The first bar finds the pool. */
  lemma FirstBar(st: PairState, input: StepInput, cfg: EngineConfig) returns (s: PairState)
    requires Plain(cfg) && Carries(input, TenBars()) && st == EMPTY_PAIR
    ensures LeadsTo(st, input, cfg, s, true)
    ensures Good(s, cfg) && Between(s, 9, 0.7) && s.pools == [PeakPool(TF)] && s.events == [] && s.ring == []
  {
    TenHavePeaks();
    TenEndAtNine();
    s := FirstBarOf(st, input, TenBars(), cfg);
  }

  lemma TenEndAtNine()
    ensures |TenBars()| == 10 && TenBars()[9].timestamp == 9
  {
  }

  lemma FirstBarOf(st: PairState, input: StepInput, bars: seq<Candle>, cfg: EngineConfig) returns (s: PairState)
    requires Plain(cfg) && Carries(input, bars) && st == EMPTY_PAIR
    requires TwoPeaks(bars) && |bars| == 10 && bars[9].timestamp == 9
    ensures LeadsTo(st, input, cfg, s, true)
    ensures Good(s, cfg) && Between(s, 9, 0.7) && s.pools == [PeakPool(TF)] && s.events == [] && s.ring == []
  {
    var next := st.(step := 1);
    s := Barred(next, bars, cfg);
    BarsOf(input, bars, cfg);
    OneTimeframe(next, input, bars, cfg);
    NewBarIs(next, input, bars, cfg);
    FirstRefresh(bars, TF, cfg.registry);
    BarredFirst(next, bars, cfg);
  }

  lemma BarredFirst(st: PairState, bars: seq<Candle>, cfg: EngineConfig)
    requires st == EMPTY_PAIR.(step := 1) && bars != [] && bars[|bars| - 1].timestamp == 9
    requires Refresh([], bars, TF, cfg.registry) == [PeakPool(TF)]
    ensures var b := Barred(st, bars, cfg);
      Good(b, cfg) && Between(b, 9, 0.7) && b.pools == [PeakPool(TF)] && b.events == [] && b.ring == []
    ensures Barred(st, bars, cfg).(events := []) == Barred(st, bars, cfg)
  {
    var b := Barred(st, bars, cfg);
    EmptyGood(st, cfg);
    BarredGood(st, b.lastBar, b.pools, cfg);
    assert b.lastBar == map[TF := 9];
  }

  lemma EmptyGood(st: PairState, cfg: EngineConfig)
    requires st == EMPTY_PAIR.(step := 1)
    ensures Good(st, cfg)
  {
  }

  /** Without a new bar the pool only decays. */
  lemma NoNewBar(st: PairState, input: StepInput, cfg: EngineConfig)
    requires Plain(cfg) && Good(st, cfg) && Between(st, 9, 0.5) && Carries(input, TenBars())
    ensures var next := st.(step := st.step + 1); var d := next.(pools := TickDecay(next.pools, cfg.registry.tickFactor));
      LeadsTo(st, input, cfg, next, false) && Good(d, cfg) && Between(d, 9, 0.2)
  {
    var next := st.(step := st.step + 1);
    BarsOf(input, TenBars(), cfg);
    OneTimeframe(next, input, TenBars(), cfg);
    NextStepGood(st, cfg);
    var p := st.pools[0];
    HalfIsEnough(p.strength, cfg.registry.tickFactor);
    var d := TickDecay(next.pools, cfg.registry.tickFactor);
    assert d[0] == Decayed(p, cfg.registry.tickFactor);
    BarredGood(next, next.lastBar, d, cfg);
  }

  lemma NonNegativeProduct(x: real, y: real)
    requires x >= 0.0 && y >= 0.0
    ensures x * y >= 0.0
  {
  }

  lemma HalfIsEnough(strength: real, factor: real)
    requires strength >= 0.5 && 0.5 <= factor <= 1.0
    ensures Scale(strength, factor) >= 0.25
  {
    NonNegativeProduct(strength - 0.5, factor);
    assert strength * factor == (strength - 0.5) * factor + 0.5 * factor;
  }

  lemma FifthIsEnough(strength: real, factor: real)
    requires strength >= 0.2 && 0.5 <= factor <= 1.0
    ensures Scale(strength, factor) >= 0.05
  {
    NonNegativeProduct(strength - 0.2, factor);
    assert strength * factor == (strength - 0.2) * factor + 0.2 * factor;
  }

  /** The rejecting bar refreshes the pool and confirms its swept event. */
  lemma RejectionConfirms(st: PairState, input: StepInput, cfg: EngineConfig) returns (s: PairState)
    requires Plain(cfg) && Good(st, cfg) && Between(st, 9, 0.2) && st.events != [] && st.events[0].state == Swept
    requires Carries(input, TenBars() + [REJECTING]) && input.ltf1m == FALLING
    ensures LeadsTo(st, input, cfg, s, true) && s.confirmations != []
  {
    var bars, next := TenBars() + [REJECTING], st.(step := st.step + 1);
    var b := Barred(next, bars, cfg);
    s := BarPhase(b, b.events, TF, REJECTING, BarViews(bars, input, cfg), cfg, input.nowMs);
    BarLeads(st, input, bars, cfg);
    NextStepGood(st, cfg);
    BarredAgain(next, bars, cfg);
    assert GoodEvent(next.events[0], cfg, next.step);
    PhaseConfirms(b, input, bars, cfg);
  }

  lemma PhaseConfirms(b: PairState, input: StepInput, bars: seq<Candle>, cfg: EngineConfig)
    requires Plain(cfg) && |b.pools| == 1 && |b.events| == 1 && SamePlace(b.pools[0], PeakPool(TF)) && b.events[0].poolId == b.pools[0].id
    requires b.events[0].state == Swept && GoodEvent(b.events[0], cfg, b.step) && input.ltf1m == FALLING
    ensures BarPhase(b, b.events, TF, REJECTING, BarViews(bars, input, cfg), cfg, input.nowMs).confirmations != []
  {
    assert b.events == [b.events[0]] && b.pools == [b.pools[0]];
    BarConfirms(b, b.events[0], b.pools[0], input, bars, cfg);
  }

  lemma BarLeads(st: PairState, input: StepInput, bars: seq<Candle>, cfg: EngineConfig)
    requires Carries(input, bars) && |bars| >= 10 && cfg.timeframes == [TF]
    requires TF in st.lastBar && bars[|bars| - 1].timestamp > st.lastBar[TF]
    ensures var b := Barred(st.(step := st.step + 1), bars, cfg);
      LeadsTo(st, input, cfg, BarPhase(b, b.events, TF, bars[|bars| - 1], BarViews(bars, input, cfg), cfg, input.nowMs), true)
  {
    var next := st.(step := st.step + 1);
    BarsOf(input, bars, cfg);
    OneTimeframe(next, input, bars, cfg);
    NewBarIs(next, input, bars, cfg);
  }

  lemma BarredAgain(st: PairState, bars: seq<Candle>, cfg: EngineConfig)
    requires Plain(cfg) && |st.pools| == 1 && PeakLive(st.pools[0], 0.2) && bars == TenBars() + [REJECTING]
    ensures |Barred(st, bars, cfg).pools| == 1 && SamePlace(Barred(st, bars, cfg).pools[0], PeakPool(TF))
  {
    TenHavePeaks();
    var p := st.pools[0];
    PeaksDiscovered(bars, TF, cfg.registry.discovery);
    FifthIsEnough(p.strength, cfg.registry.decay);
    MergedLive(p, cfg.registry);
    assert st.pools == [p];
    RefreshedAlone([p], bars, PeakPool(TF), TF, cfg.registry);
  }

  lemma MergedLive(p: Pool, cfg: RegistryConfig)
    requires PeakLive(p, 0.2) && Scale(p.strength, cfg.decay) >= 0.05
    ensures var q := MergePool(PeakPool(TF), [p], cfg); SamePlace(q, PeakPool(TF)) && StrongEnough(q)
  {
    assert FirstWithId([p], PeakPool(TF).id) == 0;
  }

  lemma FallsOpposite()
    ensures OppositeDisplacement(FALLING, BuySide)
  {
    var closed := WithoutLast(FALLING);
    assert closed == [FALLING[0], FALLING[1]];
    assert closed[..1] == [FALLING[0]] && closed[..1][..0] == [];
    assert Bodies(closed[..1]) == [0.0] && Bodies(closed) == [0.0, 1.0];
    assert [0.0, 1.0][..1] == [0.0] && Sum([0.0]) == 0.0 && Sum([0.0, 1.0]) == 1.0;
  }

  lemma BarConfirms(st: PairState, ev: RaidEvent, p: Pool, input: StepInput, bars: seq<Candle>, cfg: EngineConfig)
    requires Plain(cfg) && st.pools == [p] && st.events == [ev] && SamePlace(p, PeakPool(TF)) && ev.poolId == p.id
    requires ev.state == Swept && GoodEvent(ev, cfg, st.step) && input.ltf1m == FALLING
    ensures BarPhase(st, st.events, TF, REJECTING, BarViews(bars, input, cfg), cfg, input.nowMs).confirmations != []
  {
    var view := BarViews(bars, input, cfg);
    assert st.events[..0] == [] && st.events[0] == ev;
    assert BarPhase(st, [], TF, REJECTING, view, cfg, input.nowMs) == st.(events := []);
    assert FirstWithId([p], ev.poolId) == 0;
    FallsOpposite();
    OnBarDecides(ev, p, REJECTING, view(p, ev), cfg, st.step);
    OneMoreShown(ev.shown, Shown(p, REJECTING, st.step));
    assert ShownRejects(Shown(p, REJECTING, st.step)) && !ShownAccepts(Shown(p, REJECTING, st.step));
  }

  // ------------------------------------------------------------ the run

  /** The new closed bars of the input lead to this. */
  predicate LeadsTo(st: PairState, input: StepInput, cfg: EngineConfig, s: PairState, advanced: bool) {
    AnyReady(input, cfg.timeframes) && Timeframes(st.(step := st.step + 1), input, cfg.timeframes, cfg) == Advance(s, advanced)
  }

  lemma StepFrom(st: PairState, input: StepInput, cfg: EngineConfig, s: PairState, advanced: bool)
    requires LeadsTo(st, input, cfg, s, advanced)
    ensures StepPair(st, input, cfg)
            == PriceStep(if advanced then s else s.(pools := TickDecay(s.pools, cfg.registry.tickFactor)), input, cfg)
  {
  }

  /** The price leaves the confirmations alone. */
  lemma {:induction false} PricesConfirmNothing(
      st: PairState, n: nat, signals: Pool -> Option<Signals>, ref: real, nowMs: int, cfg: EngineConfig)
    requires n <= |st.pools|
    ensures PricePhase(st, n, signals, ref, nowMs, cfg).confirmations == st.confirmations
  {
    if n > 0 { PricesConfirmNothing(st, n - 1, signals, ref, nowMs, cfg); }
  }

  /** The three inputs, by what they show. */
  ghost predicate FirstInput(i: StepInput) {
    Carries(i, TenBars()) && i.lastTrade == None && i.bestBid == 0.0 && i.ltp == 2.0 && i.nowMs == 1_000_000
  }

  ghost predicate SecondInput(i: StepInput) {
    Carries(i, TenBars()) && i.lastTrade == None && i.bestBid == 0.0 && i.ltp == 2.01 && i.nowMs == 1_001_000
  }

  ghost predicate ThirdInput(i: StepInput) {
    Carries(i, TenBars() + [REJECTING]) && i.ltf1m == FALLING
  }

  lemma InputsAre()
    ensures var i := ThreeInputs(); |i| == 3 && FirstInput(i[0]) && SecondInput(i[1]) && ThirdInput(i[2])
  {
  }

  lemma FirstStep(st: PairState, input: StepInput, cfg: EngineConfig)
    requires Plain(cfg) && FirstInput(input) && st == EMPTY_PAIR
    ensures var r := StepPair(st, input, cfg);
      && Good(r, cfg) && Between(r, 9, 0.5) && r.ring == [Sample(1_000_000, 2.0)] && r.events != [] && TouchedAt(r.events[0], 1_000_000)
  {
    var s := FirstBar(st, input, cfg);
    StepFrom(st, input, cfg, s, true);
    ReachedTouches(s, input, cfg, [Sample(1_000_000, 2.0)]);
  }

  lemma SecondStep(st: PairState, input: StepInput, cfg: EngineConfig)
    requires Plain(cfg) && Good(st, cfg) && SecondInput(input) && Between(st, 9, 0.5) && st.ring == [Sample(1_000_000, 2.0)]
    requires st.events != [] && TouchedAt(st.events[0], 1_000_000)
    ensures var r := StepPair(st, input, cfg);
      Good(r, cfg) && Between(r, 9, 0.2) && r.events != [] && r.events[0].state == Swept
  {
    NoNewBar(st, input, cfg);
    var next := st.(step := st.step + 1);
    StepFrom(st, input, cfg, next, false);
    BeyondSweeps(next.(pools := TickDecay(next.pools, cfg.registry.tickFactor)), input, cfg, [Sample(1_000_000, 2.0), Sample(1_001_000, 2.01)]);
  }

  lemma ThirdStep(st: PairState, input: StepInput, cfg: EngineConfig)
    requires Plain(cfg) && Good(st, cfg) && ThirdInput(input) && Between(st, 9, 0.2) && st.events != [] && st.events[0].state == Swept
    ensures StepPair(st, input, cfg).confirmations != []
  {
    var s := RejectionConfirms(st, input, cfg);
    StepFrom(st, input, cfg, s, true);
    PriceStepConfirmsNothing(s, input, cfg);
  }

  lemma PriceStepConfirmsNothing(st: PairState, input: StepInput, cfg: EngineConfig)
    ensures PriceStep(st, input, cfg).confirmations == st.confirmations
  {
    var ring := PushSample(st.ring, Sample(input.nowMs, RefPrice(input)));
    PricesConfirmNothing(st.(ring := ring), |st.pools|, PriceSignals(input, ring, cfg), RefPrice(input), input.nowMs, cfg);
  }

  /** The state after `k` inputs. */
  predicate IsAfter(inputs: seq<StepInput>, k: nat, cfg: EngineConfig, st: PairState) {
    k <= |inputs| && st == RunPair(inputs[..k], cfg)
  }

  lemma AfterNext(inputs: seq<StepInput>, k: nat, cfg: EngineConfig, st: PairState)
    requires k < |inputs| && IsAfter(inputs, k, cfg, st)
    ensures IsAfter(inputs, k + 1, cfg, StepPair(st, inputs[k], cfg))
  {
    assert inputs[..k + 1][..k] == inputs[..k];
  }

  lemma TouchedAfterOne(inputs: seq<StepInput>, cfg: EngineConfig) returns (r: PairState)
    requires Plain(cfg) && |inputs| == 3 && FirstInput(inputs[0])
    ensures IsAfter(inputs, 1, cfg, r) && Good(r, cfg) && Between(r, 9, 0.5) && r.ring == [Sample(1_000_000, 2.0)]
    ensures r.events != [] && TouchedAt(r.events[0], 1_000_000)
  {
    r := StepPair(EMPTY_PAIR, inputs[0], cfg);
    FirstStep(EMPTY_PAIR, inputs[0], cfg);
    AfterNext(inputs, 0, cfg, EMPTY_PAIR);
  }

  lemma SweptAfterTwo(inputs: seq<StepInput>, cfg: EngineConfig, st: PairState) returns (r: PairState)
    requires Plain(cfg) && |inputs| == 3 && SecondInput(inputs[1]) && IsAfter(inputs, 1, cfg, st)
    requires Good(st, cfg) && Between(st, 9, 0.5) && st.ring == [Sample(1_000_000, 2.0)]
    requires st.events != [] && TouchedAt(st.events[0], 1_000_000)
    ensures IsAfter(inputs, 2, cfg, r) && Good(r, cfg) && Between(r, 9, 0.2) && r.events != [] && r.events[0].state == Swept
  {
    r := StepPair(st, inputs[1], cfg);
    SecondStep(st, inputs[1], cfg);
    AfterNext(inputs, 1, cfg, st);
  }

  lemma ConfirmedAfterThree(inputs: seq<StepInput>, cfg: EngineConfig, st: PairState) returns (r: PairState)
    requires Plain(cfg) && |inputs| == 3 && ThirdInput(inputs[2]) && IsAfter(inputs, 2, cfg, st)
    requires Good(st, cfg) && Between(st, 9, 0.2) && st.events != [] && st.events[0].state == Swept
    ensures IsAfter(inputs, 3, cfg, r) && r.confirmations != []
  {
    r := StepPair(st, inputs[2], cfg);
    ThirdStep(st, inputs[2], cfg);
    AfterNext(inputs, 2, cfg, st);
  }

  /** After these three inputs the run has touched a pool, swept it, and confirmed its raid. */
  lemma RaidIsConfirmed(inputs: seq<StepInput>, cfg: EngineConfig) returns (first: PairState, second: PairState, third: PairState)
    requires Plain(cfg) && inputs == ThreeInputs()
    ensures IsAfter(inputs, 1, cfg, first) && |first.events| == 1 && first.events[0].state == TouchedState
    ensures IsAfter(inputs, 2, cfg, second) && |second.events| == 1 && second.events[0].state == Swept
    ensures IsAfter(inputs, 3, cfg, third) && third.confirmations != []
  {
    InputsAre();
    first := TouchedAfterOne(inputs, cfg);
    second := SweptAfterTwo(inputs, cfg, first);
    third := ConfirmedAfterThree(inputs, cfg, second);
  }

  /** So some run of the engine confirms a raid. */
  lemma SomeRaidIsConfirmed() returns (inputs: seq<StepInput>, cfg: EngineConfig)
    ensures Plain(cfg) && RunPair(inputs, cfg).confirmations != []
  {
    inputs := ThreeInputs();
    cfg := EngineConfig(true, [TF], RegistryConfig(DiscoveryConfig(11, 0.1, 0.0, 4), 0.9, 0.9), 0.0, 100.0, 0.0, 60_000, 0.0,
                        1.0, 0, 5, 2, 600_000, 5, 8, 5, true);
    var first, second, third := RaidIsConfirmed(inputs, cfg);
    assert inputs[..3] == inputs;
  }
}
