/** Checking a trade intent against the market before it may be routed. */
module IntentValidators {
  import opened Common

  datatype EntryType = Market | Limit | OtherEntry

  /** A price as it arrives: not there, the empty text, text that is no finite number, or a number. */
  datatype Field = Absent | Empty | Malformed | Num(value: real)

  /** `side` is None when it is neither of the two sides, `createdAt` when the text is no timestamp. */
  datatype Intent = Intent(
    sourceSignalId: string, strategyId: string, pair: string, side: Option<TradeSide>, entryType: EntryType,
    entryPrice: Field, stopLoss: Field, takeProfit: Field, confidence: real, ttlMs: real, createdAt: Option<real>)

  datatype MarketContext = MarketContext(
    markPrice: Field, bestBid: Field, bestAsk: Field, liquidationPrice: Field, maxLeverage: Field,
    marketDataFresh: Option<bool>, accountStateFresh: Option<bool>, accountDivergent: Option<bool>)

  datatype Options = Options(
    nowMs: real, minRewardRisk: Option<real>, minStopDistancePct: Option<real>, maxStopDistancePct: Option<real>,
    maxSpreadPct: Option<real>)

  datatype Code =
    | MissingPair | InvalidSide | InvalidEntryType | MissingEntryPrice | MissingStopLoss | MissingTakeProfit
    | InvalidPrice | InvalidConfidence | InvalidTtl | InvalidCreatedAt | ExpiredIntent | InvalidLongLevels
    | InvalidShortLevels | RewardRiskTooLow | StopDistanceTooSmall | StopDistanceTooLarge | SpreadTooWide
    | MarketDataStale | AccountStateStale | AccountDivergent

  datatype Metrics = Metrics(
    entryPrice: real, stopLoss: real, takeProfit: real, rewardRisk: real, stopDistancePct: real,
    takeProfitDistancePct: real, spreadPct: Option<real>)

  datatype Decision = Approved(intent: Intent, metrics: Metrics) | Rejected(rejections: seq<Code>)

  const DEFAULT_MIN_REWARD_RISK := 1.5
  const DEFAULT_MIN_STOP_DISTANCE_PCT := 0.0005
  const DEFAULT_MAX_STOP_DISTANCE_PCT := 0.08
  const DEFAULT_MAX_SPREAD_PCT := 0.002

  function MinRewardRisk(o: Options): real {
    if o.minRewardRisk.Some? then o.minRewardRisk.value else DEFAULT_MIN_REWARD_RISK
  }

  function MinStopDistance(o: Options): real {
    if o.minStopDistancePct.Some? then o.minStopDistancePct.value else DEFAULT_MIN_STOP_DISTANCE_PCT
  }

  function MaxStopDistance(o: Options): real {
    if o.maxStopDistancePct.Some? then o.maxStopDistancePct.value else DEFAULT_MAX_STOP_DISTANCE_PCT
  }

  function MaxSpread(o: Options): real {
    if o.maxSpreadPct.Some? then o.maxSpreadPct.value else DEFAULT_MAX_SPREAD_PCT
  }

  predicate Blank(text: string) {
    forall k | 0 <= k < |text| :: text[k] in " \t\n\r"
  }

  function ParsePrice(f: Field): (r: Option<real>)
    ensures r.Some? ==> r.value > 0.0
  {
    if f.Num? && f.value > 0.0 then Some(f.value) else None
  }

  function BidAsk(m: MarketContext): Option<(real, real)> {
    var bid, ask := ParsePrice(m.bestBid), ParsePrice(m.bestAsk);
    if bid.Some? && ask.Some? && ask.value >= bid.value then Some((bid.value, ask.value)) else None
  }

  /** The intent's own price, else the mark price, else the middle of an uncrossed quote. */
  function ResolveEntry(i: Intent, m: MarketContext): Option<real> {
    if ParsePrice(i.entryPrice).Some? then ParsePrice(i.entryPrice)
    else if ParsePrice(m.markPrice).Some? then ParsePrice(m.markPrice)
    else if BidAsk(m).Some? then Some((BidAsk(m).value.0 + BidAsk(m).value.1) / 2.0)
    else None
  }

  function SpreadPct(m: MarketContext): Option<real> {
    var q := BidAsk(m);
    if q == None then None
    else
      var mid := (q.value.0 + q.value.1) / 2.0;
      if mid <= 0.0 then None else Some((q.value.1 - q.value.0) / mid)
  }

  function RiskOf(side: TradeSide, entry: real, stopLoss: real): real {
    if side == Long then entry - stopLoss else stopLoss - entry
  }

  function RewardOf(side: TradeSide, entry: real, takeProfit: real): real {
    if side == Long then takeProfit - entry else entry - takeProfit
  }

  /** None where the division has no finite value. */
  function Ratio(x: real, y: real): Option<real> {
    if y == 0.0 then None else Some(x / y)
  }

  function Noted(codes: seq<Code>, when: bool, code: Code): seq<Code> {
    if when then codes + [code] else codes
  }

  function IntentRejections(i: Intent, nowMs: real): seq<Code> {
    var r := Noted([], Blank(i.pair), MissingPair);
    var r := Noted(r, i.side == None, InvalidSide);
    var r := Noted(r, i.entryType == OtherEntry, InvalidEntryType);
    var r := Noted(r, i.confidence < 0.0 || i.confidence > 1.0, InvalidConfidence);
    var r := Noted(r, i.ttlMs <= 0.0, InvalidTtl);
    var r := Noted(r, i.createdAt == None, InvalidCreatedAt);
    Noted(r, i.createdAt.Some? && nowMs - i.createdAt.value > i.ttlMs, ExpiredIntent)
  }

  function StateRejections(before: seq<Code>, m: MarketContext): seq<Code> {
    var r := Noted(before, m.marketDataFresh == Some(false), MarketDataStale);
    var r := Noted(r, m.accountStateFresh == Some(false), AccountStateStale);
    Noted(r, m.accountDivergent == Some(true), AccountDivergent)
  }

  function MarketRejections(i: Intent, m: MarketContext, o: Options): seq<Code> {
    var r := StateRejections(IntentRejections(i, o.nowMs), m);
    var r := Noted(r, ResolveEntry(i, m) == None, MissingEntryPrice);
    var r := Noted(r, i.stopLoss == Empty, MissingStopLoss);
    var r := Noted(r, i.takeProfit == Empty, MissingTakeProfit);
    var r := Noted(r, i.stopLoss != Empty && ParsePrice(i.stopLoss) == None, InvalidPrice);
    var r := Noted(r, i.takeProfit != Empty && ParsePrice(i.takeProfit) == None, InvalidPrice);
    Noted(r, SpreadPct(m).Some? && SpreadPct(m).value > MaxSpread(o), SpreadTooWide)
  }

  predicate Below(x: Option<real>, bound: real) { x.Some? && x.value < bound }

  predicate Above(x: Option<real>, bound: real) { x.Some? && x.value > bound }

  function LevelRejections(before: seq<Code>, side: TradeSide, entry: real, stop: real, tp: real, o: Options): seq<Code> {
    var rewardRisk := Ratio(RewardOf(side, entry, tp), RiskOf(side, entry, stop));
    var stopDistance := Ratio(RiskOf(side, entry, stop), entry);
    var r := Noted(before, side == Long && !(stop < entry < tp), InvalidLongLevels);
    var r := Noted(r, side == Short && !(tp < entry < stop), InvalidShortLevels);
    var r := Noted(r, Below(rewardRisk, MinRewardRisk(o)), RewardRiskTooLow);
    var r := Noted(r, Below(stopDistance, MinStopDistance(o)), StopDistanceTooSmall);
    Noted(r, Above(stopDistance, MaxStopDistance(o)), StopDistanceTooLarge)
  }

  predicate HasLevels(i: Intent, m: MarketContext) {
    i.side.Some? && ResolveEntry(i, m).Some? && ParsePrice(i.stopLoss).Some? && ParsePrice(i.takeProfit).Some?
  }

  function MetricsOf(i: Intent, m: MarketContext): Metrics
    requires HasLevels(i, m)
  {
    var side, entry := i.side.value, ResolveEntry(i, m).value;
    var stop, tp := ParsePrice(i.stopLoss).value, ParsePrice(i.takeProfit).value;
    var risk, reward := RiskOf(side, entry, stop), RewardOf(side, entry, tp);
    Metrics(entry, stop, tp, if risk == 0.0 then 0.0 else reward / risk,
            if entry == 0.0 then 0.0 else risk / entry, if entry == 0.0 then 0.0 else reward / entry, SpreadPct(m))
  }

  function Validate(i: Intent, m: MarketContext, o: Options): Decision {
    if !HasLevels(i, m) then Rejected(MarketRejections(i, m, o))
    else
      var all := LevelRejections(MarketRejections(i, m, o), i.side.value, ResolveEntry(i, m).value,
                                 ParsePrice(i.stopLoss).value, ParsePrice(i.takeProfit).value, o);
      if |all| > 0 then Rejected(all) else Approved(i, MetricsOf(i, m))
  }

  // ------------------------------------------------------------ what approval means

  /** The intent itself is complete and alive. */
  predicate IntentSound(i: Intent, nowMs: real) {
    && !Blank(i.pair) && i.side.Some? && i.entryType != OtherEntry
    && 0.0 <= i.confidence <= 1.0
    && i.ttlMs > 0.0 && i.createdAt.Some? && nowMs <= i.createdAt.value + i.ttlMs
  }

  /** The market and the account may be acted on; the quoted spread, if any, is narrow: asking for it without a
      division, the gap is at most the bound times the middle. */
  predicate MarketSound(m: MarketContext, o: Options) {
    && m.marketDataFresh != Some(false) && m.accountStateFresh != Some(false) && m.accountDivergent != Some(true)
    && (BidAsk(m).Some? ==>
          BidAsk(m).value.1 - BidAsk(m).value.0 <= MaxSpread(o) * ((BidAsk(m).value.0 + BidAsk(m).value.1) / 2.0))
  }

  predicate Ordered(side: TradeSide, entry: real, stop: real, tp: real) {
    if side == Long then stop < entry < tp else tp < entry < stop
  }

  /** Reward worth the risk, and a stop neither too near nor too far, as products. */
  predicate WorthTaking(side: TradeSide, entry: real, stop: real, tp: real, o: Options) {
    && MinRewardRisk(o) * RiskOf(side, entry, stop) <= RewardOf(side, entry, tp)
    && MinStopDistance(o) * entry <= RiskOf(side, entry, stop)
    && AtMostShare(RiskOf(side, entry, stop), MaxStopDistance(o), entry)
  }

  predicate LevelsSound(i: Intent, m: MarketContext, o: Options)
    requires HasLevels(i, m)
  {
    var side, entry := i.side.value, ResolveEntry(i, m).value;
    var stop, tp := ParsePrice(i.stopLoss).value, ParsePrice(i.takeProfit).value;
    Ordered(side, entry, stop, tp) && WorthTaking(side, entry, stop, tp, o)
  }

  lemma CompareRatio(x: real, y: real, bound: real)
    requires y > 0.0
    ensures x / y < bound <==> x < bound * y
    ensures x / y > bound <==> x > bound * y
  {
    var q := x / y;
    assert q * y == x;
    assert (bound - q) * y == bound * y - x;
    if q < bound { assert (bound - q) * y > 0.0; }
    if q > bound { assert (q - bound) * y > 0.0; }
  }

  lemma SpreadOf(m: MarketContext, o: Options)
    requires BidAsk(m).Some?
    ensures SpreadPct(m).Some?
    ensures SpreadPct(m).value > MaxSpread(o) <==>
      BidAsk(m).value.1 - BidAsk(m).value.0 > MaxSpread(o) * ((BidAsk(m).value.0 + BidAsk(m).value.1) / 2.0)
  {
    var q := BidAsk(m).value;
    CompareRatio(q.1 - q.0, (q.0 + q.1) / 2.0, MaxSpread(o));
  }

  lemma NoIntentRejection(i: Intent, nowMs: real)
    ensures IntentRejections(i, nowMs) == [] <==> IntentSound(i, nowMs)
  {
  }

  lemma NoMarketRejection(i: Intent, m: MarketContext, o: Options)
    ensures MarketRejections(i, m, o) == [] <==> IntentSound(i, o.nowMs) && MarketSound(m, o) && HasLevels(i, m)
  {
    NoIntentRejection(i, o.nowMs);
    if BidAsk(m).Some? { SpreadOf(m, o); }
  }

  lemma NoLevelRejection(before: seq<Code>, side: TradeSide, entry: real, stop: real, tp: real, o: Options)
    requires entry > 0.0
    ensures LevelRejections(before, side, entry, stop, tp, o) == [] <==>
      before == [] && Ordered(side, entry, stop, tp) && WorthTaking(side, entry, stop, tp, o)
  {
    var risk, reward := RiskOf(side, entry, stop), RewardOf(side, entry, tp);
    CompareRatio(risk, entry, MinStopDistance(o));
    CompareRatio(risk, entry, MaxStopDistance(o));
    if risk > 0.0 { CompareRatio(reward, risk, MinRewardRisk(o)); }
  }

  /** An intent is approved exactly when it is sound, the market is, all levels are there, strictly ordered for the
      side, and worth taking; and then the decision carries the levels it was judged on. */
  lemma ApprovedIff(i: Intent, m: MarketContext, o: Options)
    ensures Validate(i, m, o).Approved? <==>
      IntentSound(i, o.nowMs) && MarketSound(m, o) && HasLevels(i, m) && LevelsSound(i, m, o)
    ensures Validate(i, m, o).Approved? ==>
      && Validate(i, m, o).intent == i
      && Some(Validate(i, m, o).metrics.entryPrice) == ResolveEntry(i, m)
      && Validate(i, m, o).metrics.rewardRisk >= MinRewardRisk(o)
    ensures Validate(i, m, o).Rejected? ==> Validate(i, m, o).rejections != []
  {
    NoMarketRejection(i, m, o);
    if HasLevels(i, m) {
      var side, entry := i.side.value, ResolveEntry(i, m).value;
      var stop, tp := ParsePrice(i.stopLoss).value, ParsePrice(i.takeProfit).value;
      NoLevelRejection(MarketRejections(i, m, o), side, entry, stop, tp, o);
    }
  }

  // ------------------------------------------------------------ the component's own form

  method CollectIntentRejections(i: Intent, nowMs: real) returns (r: seq<Code>)
    ensures r == IntentRejections(i, nowMs)
  {
    r := [];
    if Blank(i.pair) { r := r + [MissingPair]; }
    if i.side == None { r := r + [InvalidSide]; }
    if i.entryType == OtherEntry { r := r + [InvalidEntryType]; }
    if i.confidence < 0.0 || i.confidence > 1.0 { r := r + [InvalidConfidence]; }
    if i.ttlMs <= 0.0 { r := r + [InvalidTtl]; }
    if i.createdAt == None {
      r := r + [InvalidCreatedAt];
    } else if nowMs - i.createdAt.value > i.ttlMs {
      r := r + [ExpiredIntent];
    }
  }

  method CollectStateRejections(before: seq<Code>, m: MarketContext) returns (r: seq<Code>)
    ensures r == StateRejections(before, m)
  {
    r := before;
    if m.marketDataFresh == Some(false) { r := r + [MarketDataStale]; }
    if m.accountStateFresh == Some(false) { r := r + [AccountStateStale]; }
    if m.accountDivergent == Some(true) { r := r + [AccountDivergent]; }
  }

  method CollectMarketRejections(i: Intent, m: MarketContext, o: Options) returns (r: seq<Code>)
    ensures r == MarketRejections(i, m, o)
  {
    r := CollectIntentRejections(i, o.nowMs);
    r := CollectStateRejections(r, m);
    if ResolveEntry(i, m) == None { r := r + [MissingEntryPrice]; }
    if i.stopLoss == Empty { r := r + [MissingStopLoss]; }
    if i.takeProfit == Empty { r := r + [MissingTakeProfit]; }
    if i.stopLoss != Empty && ParsePrice(i.stopLoss) == None { r := r + [InvalidPrice]; }
    if i.takeProfit != Empty && ParsePrice(i.takeProfit) == None { r := r + [InvalidPrice]; }
    var spread := SpreadPct(m);
    if spread.Some? && spread.value > MaxSpread(o) { r := r + [SpreadTooWide]; }
  }

  method ValidateTradeIntent(i: Intent, m: MarketContext, o: Options) returns (d: Decision)
    ensures d == Validate(i, m, o)
  {
    var r := CollectMarketRejections(i, m, o);
    if !HasLevels(i, m) {
      return Rejected(r);
    }
    var side, entry := i.side.value, ResolveEntry(i, m).value;
    var stop, tp := ParsePrice(i.stopLoss).value, ParsePrice(i.takeProfit).value;
    if side == Long && !(stop < entry < tp) { r := r + [InvalidLongLevels]; }
    if side == Short && !(tp < entry < stop) { r := r + [InvalidShortLevels]; }
    var rewardRisk := Ratio(RewardOf(side, entry, tp), RiskOf(side, entry, stop));
    var stopDistance := Ratio(RiskOf(side, entry, stop), entry);
    if Below(rewardRisk, MinRewardRisk(o)) { r := r + [RewardRiskTooLow]; }
    if Below(stopDistance, MinStopDistance(o)) { r := r + [StopDistanceTooSmall]; }
    if Above(stopDistance, MaxStopDistance(o)) { r := r + [StopDistanceTooLarge]; }
    if |r| > 0 {
      return Rejected(r);
    }
    return Approved(i, MetricsOf(i, m));
  }
}
