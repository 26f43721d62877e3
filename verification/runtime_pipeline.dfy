/** From a strategy signal to a routed or blocked decision: scoring, planning, gating, validating, routing. */
module RuntimePipelines {
  import opened Common
  import C = ConfluenceScorers
  import T = TradePlans
  import V = IntentValidators

  /** A signal as it leaves the strategies; `ts` is None when the text is no timestamp. */
  datatype Signal = Signal(
    id: string, ts: Option<real>, strategy: string, kind: string, pair: string, confidence: real, ttlMs: Option<real>,
    entry: V.Field, stopLoss: V.Field, takeProfit: V.Field)

  /** What a call is given besides the signal, and what the regime classifier answers at that moment. */
  datatype Context = Context(
    market: V.MarketContext, options: V.Options, defaultEntryType: Option<V.EntryType>,
    regime: C.Regime, regimeChanged: bool,
    components: Option<map<string, real>>, microstructure: Option<real>,
    atrPercent: Option<real>, accountEquity: Option<real>, riskCapitalFraction: Option<real>,
    feeRate: Option<real>, fundingRate: Option<real>, maxVenueLeverage: Option<real>)

  datatype Reason = ConfluenceGate | RiskGate

  datatype Outcome =
    | Ignored
    | Blocked(intent: V.Intent, reason: Reason, risk: V.Decision, score: C.Score, plan: T.Plan, cancelled: bool)
    | Routed(intent: V.Intent, risk: V.Decision, score: C.Score, plan: T.Plan, cancelled: bool)

  datatype State = State(pending: map<string, V.Intent>, scores: map<string, C.Score>, routed: seq<V.Intent>)

  const START := State(map[], map[], [])

  function SideOf(kind: string): Option<TradeSide> {
    if kind == "strategy.long" then Some(Long) else if kind == "strategy.short" then Some(Short) else None
  }

  /** Blank texts count as missing: an entry is then left out, a level becomes the empty text. */
  function LevelField(f: V.Field): V.Field {
    if f == V.Absent then V.Empty else f
  }

  function EntryField(f: V.Field): V.Field {
    if f == V.Empty then V.Absent else f
  }

  function BuildIntent(s: Signal, ctx: Context): Option<V.Intent> {
    if SideOf(s.kind) == None || s.pair == "" then None
    else Some(V.Intent(
      s.id, s.strategy, s.pair, SideOf(s.kind), if ctx.defaultEntryType.Some? then ctx.defaultEntryType.value else V.Limit,
      EntryField(s.entry), LevelField(s.stopLoss), LevelField(s.takeProfit), MaxR(0.0, MinR(1.0, s.confidence)),
      if s.ttlMs.Some? && s.ttlMs.value > 0.0 then s.ttlMs.value else 0.0, s.ts))
  }

  function ScoreInput(i: V.Intent, ctx: Context): C.Input
    requires i.side.Some?
  {
    C.Input(i.pair, i.side.value, ctx.regime, i.confidence, ctx.components, None, ctx.microstructure)
  }

  function Number(f: V.Field): Option<real> {
    if f.Num? then Some(f.value) else None
  }

  function PlanInput(i: V.Intent, score: C.Score, ctx: Context): T.PlanInput
    requires i.side.Some?
  {
    T.PlanInput(i.side.value, score.longScore, score.shortScore, Number(i.entryPrice), Number(i.stopLoss),
                Number(ctx.market.markPrice), Number(ctx.market.liquidationPrice), Number(ctx.market.maxLeverage),
                ctx.accountEquity, ctx.riskCapitalFraction, ctx.atrPercent, ctx.feeRate, ctx.fundingRate,
                ctx.maxVenueLeverage)
  }

  function Cancel(s: State, pair: string, changed: bool): State {
    if changed then s.(pending := s.pending - {pair}) else s
  }

  function Gate(i: V.Intent, score: C.Score, plan: T.Plan, cancelled: bool, ctx: Context): Outcome {
    var d := C.Decide(score);
    if !d.shouldFire || d.dominantSide == None || i.side != d.dominantSide then
      Blocked(i, ConfluenceGate, V.Rejected([V.RewardRiskTooLow]), score, plan, cancelled)
    else
      var risk := V.Validate(i, ctx.market, ctx.options);
      if risk.Approved? then Routed(i, risk, score, plan, cancelled)
      else Blocked(i, RiskGate, risk, score, plan, cancelled)
  }

  function Settle(s: State, o: Outcome): State {
    match o
    case Ignored => s
    case Blocked(i, _, _, _, _, _) => s.(pending := s.pending[i.pair := i])
    case Routed(i, _, _, _, _) => s.(pending := s.pending - {i.pair}, routed := s.routed + [i])
  }

  function Judge(i: V.Intent, cancelled: bool, ctx: Context): Outcome
    requires i.side.Some?
  {
    var score := C.ScoreOf(ScoreInput(i, ctx));
    Gate(i, score, T.Compute(PlanInput(i, score, ctx)), cancelled, ctx)
  }

  function OutcomeOf(s: State, signal: Signal, ctx: Context): Outcome {
    match BuildIntent(signal, ctx)
    case None => Ignored
    case Some(i) => Judge(i, ctx.regimeChanged && i.pair in s.pending, ctx)
  }

  /** A cancelled pending entry, the new score, and what the outcome does to the rest. */
  function Conclusion(s: State, o: Outcome, regimeChanged: bool): State {
    if o.Ignored? then s
    else
      var cancelled := Cancel(s, o.intent.pair, regimeChanged);
      Settle(cancelled.(scores := s.scores[o.intent.pair := o.score]), o)
  }

  function Next(s: State, signal: Signal, ctx: Context): State {
    Conclusion(s, OutcomeOf(s, signal, ctx), ctx.regimeChanged)
  }

  // ------------------------------------------------------------ one decision

  /** The long raw points of an intent: the one number the confluence gate depends on. */
  function RawOf(i: V.Intent, ctx: Context): real
    requires i.side.Some?
  {
    C.LongPoints(C.Input(i.pair, i.side.value, ctx.regime, i.confidence, ctx.components, None, ctx.microstructure))
  }

  /** Only signals to go long or short for a pair become intents; what the intent says is what the signal says, with the
      confidence cut to [0, 1], no negative time to live, a blank entry left out and a missing level blank. */
  lemma IntentMeans(s: Signal, ctx: Context)
    ensures BuildIntent(s, ctx).Some? <==> (s.kind == "strategy.long" || s.kind == "strategy.short") && s.pair != ""
    ensures BuildIntent(s, ctx).Some? ==>
      var i := BuildIntent(s, ctx).value;
      && i.pair == s.pair && (i.side == Some(Long) <==> s.kind == "strategy.long") && (i.side == Some(Short) <==> s.kind == "strategy.short")
      && (ctx.defaultEntryType == Some(i.entryType) || (ctx.defaultEntryType == None && i.entryType == V.Limit))
      && (s.entry == i.entryPrice || (s.entry == V.Empty && i.entryPrice == V.Absent)) && i.entryPrice != V.Empty
      && (s.stopLoss == i.stopLoss || (s.stopLoss == V.Absent && i.stopLoss == V.Empty)) && i.stopLoss != V.Absent
      && (s.takeProfit == i.takeProfit || (s.takeProfit == V.Absent && i.takeProfit == V.Empty)) && i.takeProfit != V.Absent
      && 0.0 <= i.confidence <= 1.0
      && (i.confidence == s.confidence || (s.confidence < 0.0 && i.confidence == 0.0) || (s.confidence > 1.0 && i.confidence == 1.0))
      && i.ttlMs >= 0.0 && (if s.ttlMs.Some? && s.ttlMs.value > 0.0 then i.ttlMs == s.ttlMs.value else i.ttlMs == 0.0)
      && i.createdAt == s.ts
  {
    assert "strategy.long" != "strategy.short" by { assert "strategy.long"[9] == 'l' && "strategy.short"[9] == 's'; }
  }

  predicate Reads(f: V.Field, n: Option<real>) {
    if f.Num? then n == Some(f.value) else n == None
  }

  /** What the plan of an intent is computed from: the intent, its score, the market and the overrides. */
  predicate PlannedFrom(p: T.PlanInput, i: V.Intent, score: C.Score, ctx: Context) {
    && Some(p.intentSide) == i.side && p.longScore == score.longScore && p.shortScore == score.shortScore
    && Reads(i.entryPrice, p.entryPrice) && Reads(i.stopLoss, p.stopLoss)
    && Reads(ctx.market.markPrice, p.markPrice) && Reads(ctx.market.liquidationPrice, p.liquidationPrice)
    && Reads(ctx.market.maxLeverage, p.maxLeverage)
    && p.accountEquity == ctx.accountEquity && p.riskCapitalFraction == ctx.riskCapitalFraction
    && p.atrPercent == ctx.atrPercent && p.feeRate == ctx.feeRate && p.fundingRate == ctx.fundingRate
    && p.maxVenueLeverage == ctx.maxVenueLeverage
  }

  /** What the score of an intent is computed from. */
  predicate ScoredFrom(c: C.Input, i: V.Intent, ctx: Context) {
    && c.pair == i.pair && Some(c.side) == i.side && c.regime == ctx.regime && c.confidence == i.confidence
    && c.components == ctx.components && c.shortComponents == None && c.microstructure == ctx.microstructure
  }

  lemma PlannedAndScored(i: V.Intent, score: C.Score, ctx: Context)
    requires i.side.Some?
    ensures PlannedFrom(PlanInput(i, score, ctx), i, score, ctx) && ScoredFrom(ScoreInput(i, ctx), i, ctx)
  {
  }

  lemma GateCarries(i: V.Intent, score: C.Score, plan: T.Plan, cancelled: bool, ctx: Context)
    ensures var o := Gate(i, score, plan, cancelled, ctx);
      !o.Ignored? && o.intent == i && o.score == score && o.plan == plan && o.cancelled == cancelled
  {
  }

  /** Score and plan of every decision on an intent. */
  lemma DecisionUses(s: State, signal: Signal, ctx: Context) returns (c: C.Input, p: T.PlanInput)
    requires !OutcomeOf(s, signal, ctx).Ignored?
    ensures var o := OutcomeOf(s, signal, ctx);
      && BuildIntent(signal, ctx) == Some(o.intent)
      && ScoredFrom(c, o.intent, ctx) && o.score == C.ScoreOf(c)
      && PlannedFrom(p, o.intent, o.score, ctx) && o.plan == T.Compute(p)
  {
    var i := BuildIntent(signal, ctx).value;
    c := ScoreInput(i, ctx);
    var score := C.ScoreOf(c);
    p := PlanInput(i, score, ctx);
    GateCarries(i, score, T.Compute(p), ctx.regimeChanged && i.pair in s.pending, ctx);
    PlannedAndScored(i, score, ctx);
  }

  /** A signal is routed exactly when its intent's side reaches 74.5 of 100 raw points and the validator's conditions
      hold; all other trade signals are blocked, by the confluence gate exactly when the points are missing. */
  lemma RoutedIff(s: State, signal: Signal, ctx: Context)
    requires BuildIntent(signal, ctx).Some?
    ensures var i := BuildIntent(signal, ctx).value; var o := OutcomeOf(s, signal, ctx); var m := ctx.market;
      var enough := if i.side == Some(Long) then RawOf(i, ctx) >= 74.5 else RawOf(i, ctx) <= 25.5;
      && !o.Ignored?
      && (o.Routed? <==> enough && V.IntentSound(i, ctx.options.nowMs) && V.MarketSound(m, ctx.options)
                         && V.HasLevels(i, m) && V.LevelsSound(i, m, ctx.options))
      && (o.Blocked? && o.reason == ConfluenceGate <==> !enough)
  {
    var i := BuildIntent(signal, ctx).value;
    C.GateIsOneThreshold(ScoreInput(i, ctx));
    V.ApprovedIff(i, ctx.market, ctx.options);
  }

  /** The entry comes from the intent or from the mark price, not from the middle of the quote. */
  predicate OwnEntry(i: V.Intent, m: V.MarketContext) {
    V.ParsePrice(i.entryPrice).Some? || V.ParsePrice(m.markPrice).Some?
  }

  lemma PlanEntry(i: V.Intent, score: C.Score, ctx: Context)
    requires i.side.Some?
    ensures var p := PlanInput(i, score, ctx);
      && (T.Entry(p) > 0.0 <==> OwnEntry(i, ctx.market))
      && (OwnEntry(i, ctx.market) ==> V.ResolveEntry(i, ctx.market) == Some(T.Entry(p)))
      && (!OwnEntry(i, ctx.market) ==> T.Entry(p) == 0.0)
      && (V.ParsePrice(i.stopLoss).Some? ==> V.ParsePrice(i.stopLoss) == Some(T.StructuralStop(p)))
  {
  }

  /** What a routed outcome was made of. */
  ghost predicate MadeFrom(o: Outcome, signal: Signal, ctx: Context) {
    && o.Routed? && BuildIntent(signal, ctx) == Some(o.intent) && o.intent.side.Some?
    && var p := PlanInput(o.intent, o.score, ctx);
      && o.plan == T.Compute(p) && o.score == C.ScoreOf(ScoreInput(o.intent, ctx))
      && o.risk == V.Validate(o.intent, ctx.market, ctx.options)
      && T.Dominant(p) == Some(p.intentSide) && Some(p.intentSide) == o.intent.side
      && V.HasLevels(o.intent, ctx.market) && V.LevelsSound(o.intent, ctx.market, ctx.options)
      && (OwnEntry(o.intent, ctx.market) ==> T.StopOnLosingSide(p))
  }

  lemma RoutedFacts(s: State, signal: Signal, ctx: Context)
    ensures OutcomeOf(s, signal, ctx).Routed? ==> MadeFrom(OutcomeOf(s, signal, ctx), signal, ctx)
  {
    if OutcomeOf(s, signal, ctx).Routed? {
      var i := BuildIntent(signal, ctx).value;
      V.ApprovedIff(i, ctx.market, ctx.options);
      PlanEntry(i, C.ScoreOf(ScoreInput(i, ctx)), ctx);
    }
  }

  /** One side throughout; with an own entry strictly ordered levels and no mark but capped or short of buffer. */
  ghost predicate SoundDecision(o: Outcome, ctx: Context)
    requires o.Routed?
  {
    && o.risk.Approved? && o.risk.intent == o.intent
    && o.intent.side == C.Decide(o.score).dominantSide == Some(o.plan.side)
    && (OwnEntry(o.intent, ctx.market) ==>
          && o.plan.entry > 0.0 && Some(o.plan.entry) == V.ResolveEntry(o.intent, ctx.market)
          && T.LevelsInOrder(o.plan)
          && o.plan.violations <= {T.QuantityCapped, T.LiquidationBufferFailed})
  }

  /** Every routed decision agrees on one side throughout. Its plan's levels are strictly ordered for that side when
      the entry comes from the intent or the mark price, and the plan can then only be marked as capped or short of
      liquidation buffer. */
  lemma RoutedIsSound(s: State, signal: Signal, ctx: Context)
    ensures OutcomeOf(s, signal, ctx).Routed? ==> SoundDecision(OutcomeOf(s, signal, ctx), ctx)
  {
    RoutedFacts(s, signal, ctx);
    var o := OutcomeOf(s, signal, ctx);
    if o.Routed? { MadeIsSound(o, signal, ctx); }
  }

  lemma MadeIsSound(o: Outcome, signal: Signal, ctx: Context)
    requires MadeFrom(o, signal, ctx) && C.Decide(o.score).dominantSide == o.intent.side && o.risk.Approved?
    ensures SoundDecision(o, ctx)
  {
    var p := PlanInput(o.intent, o.score, ctx);
    PlanEntry(o.intent, o.score, ctx);
    V.ApprovedIff(o.intent, ctx.market, ctx.options);
    if OwnEntry(o.intent, ctx.market) {
      T.LadderInOrder(p);
      T.OnlyCapAndBuffer(p);
    }
  }

  /** A plan without entry and quantity, and marked so, for an intent judged at a positive price. */
  ghost predicate PlansNothing(o: Outcome, ctx: Context)
    requires o.Routed?
  {
    && o.plan.entry == 0.0 && o.plan.quantity == 0.0
    && {T.EntryUnavailable, T.QuantityUnavailable} <= o.plan.violations
    && (o.plan.side == Long ==> !T.LevelsInOrder(o.plan))
    && V.ResolveEntry(o.intent, ctx.market).Some? && V.ResolveEntry(o.intent, ctx.market).value > 0.0
  }

  /** The condition is exact: with only a quote to take the entry from, the validator judges the middle price while
      the plan has entry zero, and is routed without quantity and marked so; a long plan is then out of order. */
  lemma QuoteOnlyPlansNothing(s: State, signal: Signal, ctx: Context)
    ensures var o := OutcomeOf(s, signal, ctx);
      o.Routed? && !OwnEntry(o.intent, ctx.market) ==> PlansNothing(o, ctx)
  {
    RoutedFacts(s, signal, ctx);
    var o := OutcomeOf(s, signal, ctx);
    if o.Routed? && !OwnEntry(o.intent, ctx.market) {
      PlanEntry(o.intent, o.score, ctx);
      T.NoEntryNoPlan(PlanInput(o.intent, o.score, ctx));
    }
  }

  /** The validator's bound on the stop plus the volatility, and the risk fraction, are at most one half each, and the
      venue names no liquidation price. */
  predicate RoomForBuffer(ctx: Context) {
    && V.MaxStopDistance(ctx.options) + T.OrElse(T.ParsePositive(ctx.atrPercent), T.DEFAULT_ATR_PERCENT) <= 0.5
    && T.OrElse(T.ParsePositive(ctx.riskCapitalFraction), T.DEFAULT_RISK_CAPITAL_FRACTION) <= 0.5
    && V.ParsePrice(ctx.market.liquidationPrice) == None
  }

  /** The validator's bound on the stop carries over to the liquidation buffer: with that room, as by default, no
      routed plan with its own entry falls short of its buffer. */
  lemma RoutedKeepsBuffer(s: State, signal: Signal, ctx: Context)
    requires RoomForBuffer(ctx)
    ensures var o := OutcomeOf(s, signal, ctx);
      o.Routed? && OwnEntry(o.intent, ctx.market) ==>
        o.plan.liquidationBufferSatisfied && o.plan.violations <= {T.QuantityCapped}
  {
    RoutedFacts(s, signal, ctx);
    var o := OutcomeOf(s, signal, ctx);
    if o.Routed? && OwnEntry(o.intent, ctx.market) {
      JudgedStopNear(o.intent, o.score, ctx);
      PlanKeepsBuffer(PlanInput(o.intent, o.score, ctx), V.MaxStopDistance(ctx.options));
    }
  }

  /** Without any option or override there is room. */
  lemma DefaultsHaveRoom(ctx: Context)
    requires ctx.options.maxStopDistancePct == None && ctx.atrPercent == None && ctx.riskCapitalFraction == None
    ensures RoomForBuffer(ctx) <==> V.ParsePrice(ctx.market.liquidationPrice) == None
  {
  }

  lemma JudgedStopNear(i: V.Intent, score: C.Score, ctx: Context)
    requires V.HasLevels(i, ctx.market) && V.LevelsSound(i, ctx.market, ctx.options) && OwnEntry(i, ctx.market)
    ensures T.StopNear(PlanInput(i, score, ctx), V.MaxStopDistance(ctx.options))
  {
    PlanEntry(i, score, ctx);
    var entry, stop := V.ResolveEntry(i, ctx.market).value, V.ParsePrice(i.stopLoss).value;
    assert V.RiskOf(i.side.value, entry, stop) == Abs(entry - stop);
  }

  lemma PlanKeepsBuffer(p: T.PlanInput, bound: real)
    requires T.Dominant(p) == Some(p.intentSide) && T.StopOnLosingSide(p) && T.StopNear(p, bound)
    requires T.ParsePositive(p.liquidationPrice) == None
    requires bound + T.AtrPercent(p) <= 0.5 && T.Fraction(p) <= 0.5
    ensures T.Compute(p).liquidationBufferSatisfied
    ensures T.Compute(p).violations <= {T.QuantityCapped}
  {
    T.StopWithinVolatility(p, bound);
    T.OnlyCapAndBuffer(p);
    T.LiquidationBuffer(p);
    T.PlanCarriesSize(p);
  }

  /** Such a call exists: full confluence for LONG, a quote of one hundred, no price of its own. */
  lemma QuoteOnlyIsRouted(signal: Signal, ctx: Context)
    requires signal == Signal("1", Some(0.0), "s", "strategy.long", "BTC", 1.0, Some(1000.0),
                              V.Absent, V.Num(95.0), V.Num(110.0))
    requires ctx.market == V.MarketContext(V.Absent, V.Num(100.0), V.Num(100.0), V.Absent, V.Absent, None, None, None)
    requires ctx.options == V.Options(0.0, None, None, None, None) && ctx.defaultEntryType == None
    requires FullConfluence(ctx)
    ensures OutcomeOf(START, signal, ctx).Routed? && OutcomeOf(START, signal, ctx).plan.entry == 0.0
  {
    QuoteIntent(signal, ctx);
    var i := BuildIntent(signal, ctx).value;
    FullRaw(i, ctx);
    QuoteLevels(i, ctx);
    EnoughIsRouted(START, signal, ctx);
    NoPriceNoEntry(START, signal, ctx);
  }

  /** One direction of the criterion, for LONG. */
  lemma EnoughIsRouted(s: State, signal: Signal, ctx: Context)
    requires BuildIntent(signal, ctx).Some? && BuildIntent(signal, ctx).value.side == Some(Long)
    requires RawOf(BuildIntent(signal, ctx).value, ctx) >= 74.5
    requires V.IntentSound(BuildIntent(signal, ctx).value, ctx.options.nowMs) && V.MarketSound(ctx.market, ctx.options)
    requires V.HasLevels(BuildIntent(signal, ctx).value, ctx.market)
    requires V.LevelsSound(BuildIntent(signal, ctx).value, ctx.market, ctx.options)
    ensures OutcomeOf(s, signal, ctx).Routed?
  {
    RoutedIff(s, signal, ctx);
  }

  lemma NoPriceNoEntry(s: State, signal: Signal, ctx: Context)
    requires OutcomeOf(s, signal, ctx).Routed? && BuildIntent(signal, ctx).Some?
    requires !OwnEntry(BuildIntent(signal, ctx).value, ctx.market)
    ensures OutcomeOf(s, signal, ctx).plan.entry == 0.0
  {
    RoutedFacts(s, signal, ctx);
    QuoteOnlyPlansNothing(s, signal, ctx);
  }

  lemma QuoteIntent(signal: Signal, ctx: Context)
    requires signal == Signal("1", Some(0.0), "s", "strategy.long", "BTC", 1.0, Some(1000.0),
                              V.Absent, V.Num(95.0), V.Num(110.0))
    requires ctx.defaultEntryType == None
    ensures BuildIntent(signal, ctx) == Some(V.Intent("1", "s", "BTC", Some(Long), V.Limit, V.Absent, V.Num(95.0),
                                                      V.Num(110.0), 1.0, 1000.0, Some(0.0)))
    ensures V.IntentSound(BuildIntent(signal, ctx).value, 0.0)
  {
    assert "BTC"[0] == 'B';
  }

  predicate FullConfluence(ctx: Context) {
    && ctx.regime == C.Ranging && ctx.microstructure == None
    && ctx.components == Some(map["structure" := 1.0, "momentum" := 1.0, "microstructure" := 1.0, "risk" := 1.0])
  }

  lemma FullRaw(i: V.Intent, ctx: Context)
    requires FullConfluence(ctx) && i.side == Some(Long) && i.confidence == 1.0
    ensures RawOf(i, ctx) == 100.0
  {
    C.LongRawIs(ScoreInput(i, ctx));
    C.TotalAtFull(C.Weights(C.Ranging), C.LongComponents(ScoreInput(i, ctx)));
    C.WeightsAddUpToOne(C.Ranging);
  }

  lemma QuoteLevels(i: V.Intent, ctx: Context)
    requires ctx.market == V.MarketContext(V.Absent, V.Num(100.0), V.Num(100.0), V.Absent, V.Absent, None, None, None)
    requires ctx.options == V.Options(0.0, None, None, None, None)
    requires i.side == Some(Long) && i.entryPrice == V.Absent && i.stopLoss == V.Num(95.0) && i.takeProfit == V.Num(110.0)
    ensures V.HasLevels(i, ctx.market) && V.LevelsSound(i, ctx.market, ctx.options) && V.MarketSound(ctx.market, ctx.options)
  {
    assert V.ResolveEntry(i, ctx.market) == Some(100.0);
  }

  // ------------------------------------------------------------ whole runs

  datatype Call = Call(signal: Signal, ctx: Context)

  function Run(calls: seq<Call>): State {
    if calls == [] then START
    else
      var n := |calls| - 1;
      Next(Run(calls[..n]), calls[n].signal, calls[n].ctx)
  }

  /** The outcome of the last call of a run. */
  function LastOutcome(calls: seq<Call>): Outcome
    requires calls != []
  {
    var n := |calls| - 1;
    OutcomeOf(Run(calls[..n]), calls[n].signal, calls[n].ctx)
  }

  /** The most recent decision for a pair. */
  function LastDecision(calls: seq<Call>, pair: string): Outcome {
    if calls == [] then Ignored
    else if !LastOutcome(calls).Ignored? && LastOutcome(calls).intent.pair == pair then LastOutcome(calls)
    else LastDecision(calls[..|calls| - 1], pair)
  }

  /** The intents of all routed decisions, in order. */
  function RoutedIntents(calls: seq<Call>): seq<V.Intent> {
    if calls == [] then []
    else if LastOutcome(calls).Routed? then RoutedIntents(calls[..|calls| - 1]) + [LastOutcome(calls).intent]
    else RoutedIntents(calls[..|calls| - 1])
  }

  /** What the state holds for a pair, given the last decision on it. */
  ghost predicate Tracks(s: State, last: Outcome, pair: string) {
    && (pair in s.pending <==> last.Blocked?)
    && (last.Blocked? ==> s.pending[pair] == last.intent)
    && (pair in s.scores <==> !last.Ignored?)
    && (!last.Ignored? ==> s.scores[pair] == last.score)
  }

  lemma ConclusionTracks(s: State, o: Outcome, regimeChanged: bool, last: Outcome, pair: string)
    requires Tracks(s, last, pair)
    ensures Tracks(Conclusion(s, o, regimeChanged), if !o.Ignored? && o.intent.pair == pair then o else last, pair)
    ensures Conclusion(s, o, regimeChanged).routed == if o.Routed? then s.routed + [o.intent] else s.routed
  {
  }

  /** After any run: a pair has a pending intent exactly when its last decision blocked it, and it is that decision's
      intent, whatever regime changes cancelled in between; the router got exactly the routed intents, in order;
      the stored score is the one the last decision used. */
  lemma {:induction false} PendingIffLastBlocked(calls: seq<Call>, pair: string)
    ensures Tracks(Run(calls), LastDecision(calls, pair), pair)
    ensures Run(calls).routed == RoutedIntents(calls)
  {
    if calls != [] {
      var n := |calls| - 1;
      PendingIffLastBlocked(calls[..n], pair);
      ConclusionTracks(Run(calls[..n]), LastOutcome(calls), calls[n].ctx.regimeChanged, LastDecision(calls[..n], pair), pair);
    }
  }

  /** A call reports a cancellation exactly when the regime changed while the pair's last decision was a block. */
  lemma CancelledIff(calls: seq<Call>)
    requires calls != []
    ensures var o := LastOutcome(calls);
      !o.Ignored? ==> (o.cancelled <==>
        calls[|calls| - 1].ctx.regimeChanged && LastDecision(calls[..|calls| - 1], o.intent.pair).Blocked?)
  {
    var n, o := |calls| - 1, LastOutcome(calls);
    CancelledMeans(Run(calls[..n]), calls[n].signal, calls[n].ctx);
    if !o.Ignored? { PendingIffLastBlocked(calls[..n], o.intent.pair); }
  }

  lemma CancelledMeans(s: State, signal: Signal, ctx: Context)
    ensures var o := OutcomeOf(s, signal, ctx);
      !o.Ignored? ==> (o.cancelled <==> ctx.regimeChanged && o.intent.pair in s.pending)
  {
    if BuildIntent(signal, ctx).Some? {
      var i := BuildIntent(signal, ctx).value;
      var score := C.ScoreOf(ScoreInput(i, ctx));
      GateCarries(i, score, T.Compute(PlanInput(i, score, ctx)), ctx.regimeChanged && i.pair in s.pending, ctx);
    }
  }

  // ------------------------------------------------------------ the component's own form

  class CoreRuntimePipeline {
    const scorer: C.ConfluenceScorer
    var pendingIntentByPair: map<string, V.Intent>
    var routedOrders: seq<V.Intent>

    ghost function Value(): State
      reads this, scorer
    {
      State(pendingIntentByPair, scorer.byPair, routedOrders)
    }

    constructor ()
      ensures Value() == START && fresh(scorer)
    {
      scorer := new C.ConfluenceScorer();
      pendingIntentByPair := map[];
      routedOrders := [];
    }

    method CancelPendingEntriesOnRegimeChange(pair: string, changed: bool) returns (cancelled: bool)
      modifies this
      ensures Value() == Cancel(old(Value()), pair, changed)
      ensures pendingIntentByPair == if changed then old(pendingIntentByPair) - {pair} else old(pendingIntentByPair)
      ensures cancelled == (changed && pair in old(pendingIntentByPair))
    {
      if !changed {
        return false;
      }
      cancelled := pair in pendingIntentByPair;
      pendingIntentByPair := pendingIntentByPair - {pair};
    }

    method Block(i: V.Intent, reason: Reason, risk: V.Decision, score: C.Score, plan: T.Plan, cancelled: bool)
        returns (o: Outcome)
      modifies this
      ensures o == Blocked(i, reason, risk, score, plan, cancelled)
      ensures Value() == Settle(old(Value()), o)
    {
      pendingIntentByPair := pendingIntentByPair[i.pair := i];
      return Blocked(i, reason, risk, score, plan, cancelled);
    }

    /** The two gates and the router, for the score just stored. */
    method Conclude(i: V.Intent, score: C.Score, plan: T.Plan, cancelled: bool, ctx: Context) returns (o: Outcome)
      requires i.pair in scorer.byPair && scorer.byPair[i.pair] == score
      modifies this
      ensures o == Gate(i, score, plan, cancelled, ctx)
      ensures !o.Ignored? && o.intent == i && o.score == score
      ensures Value() == Settle(old(Value()), o)
    {
      var decision := scorer.DecisionFor(i.pair);
      var none := V.Rejected([V.RewardRiskTooLow]);
      if decision == None || !decision.value.shouldFire || decision.value.dominantSide == None {
        o := Block(i, ConfluenceGate, none, score, plan, cancelled);
        return;
      }
      if i.side != decision.value.dominantSide {
        o := Block(i, ConfluenceGate, none, score, plan, cancelled);
        return;
      }
      var risk := V.ValidateTradeIntent(i, ctx.market, ctx.options);
      if !risk.Approved? {
        o := Block(i, RiskGate, risk, score, plan, cancelled);
        return;
      }
      routedOrders := routedOrders + [i];
      pendingIntentByPair := pendingIntentByPair - {i.pair};
      return Routed(i, risk, score, plan, cancelled);
    }

    method ProcessIntent(i: V.Intent, ctx: Context) returns (o: Outcome)
      requires i.side.Some?
      modifies this, scorer
      ensures o == Judge(i, ctx.regimeChanged && i.pair in old(pendingIntentByPair), ctx)
      ensures !o.Ignored? && o.intent == i && o.score == C.ScoreOf(ScoreInput(i, ctx))
      ensures Value() == Conclusion(old(Value()), o, ctx.regimeChanged)
    {
      var cancelled := CancelPendingEntriesOnRegimeChange(i.pair, ctx.regimeChanged);
      var score := scorer.ScorePair(ScoreInput(i, ctx));
      o := Conclude(i, score, T.Compute(PlanInput(i, score, ctx)), cancelled, ctx);
    }

    method Process(signal: Signal, ctx: Context) returns (o: Outcome)
      modifies this, scorer
      ensures o == OutcomeOf(old(Value()), signal, ctx)
      ensures Value() == Next(old(Value()), signal, ctx)
    {
      var built := BuildIntent(signal, ctx);
      if built == None {
        return Ignored;
      }
      o := ProcessIntent(built.value, ctx);
    }
  }
}
