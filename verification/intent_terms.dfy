/** What approval and each rejection of a trade intent mean, in the fields of intent, market and options. */
module IntentTerms {
  import opened Common
  import opened IntentValidators

  predicate Priced(f: Field, x: real) { f == Num(x) && x > 0.0 }

  predicate Unpriced(f: Field) { !f.Num? || f.value <= 0.0 }

  /** Both sides are quoted, and not crossed. */
  predicate Quoted(m: MarketContext, bid: real, ask: real) {
    Priced(m.bestBid, bid) && Priced(m.bestAsk, ask) && bid <= ask
  }

  /** The entry an intent is judged on: its own price, else the mark, else the middle of the quote. */
  ghost predicate EntersAt(i: Intent, m: MarketContext, x: real) {
    || Priced(i.entryPrice, x)
    || (Unpriced(i.entryPrice) && Priced(m.markPrice, x))
    || (Unpriced(i.entryPrice) && Unpriced(m.markPrice) && IsMiddle(m, x))
  }

  ghost predicate IsMiddle(m: MarketContext, x: real) {
    exists bid, ask :: Quoted(m, bid, ask) && x == (bid + ask) / 2.0
  }

  ghost predicate SomeEntry(i: Intent, m: MarketContext) {
    exists x :: EntersAt(i, m, x)
  }

  predicate SpreadIsWide(m: MarketContext, o: Options, bid: real, ask: real) {
    var most := if o.maxSpreadPct.Some? then o.maxSpreadPct.value else 0.002;
    Quoted(m, bid, ask) && ask - bid > most * ((bid + ask) / 2.0)
  }

  ghost predicate SomeWideSpread(m: MarketContext, o: Options) {
    exists bid, ask :: SpreadIsWide(m, o, bid, ask)
  }

  predicate OnlySpace(text: string) {
    forall k | 0 <= k < |text| :: text[k] == ' ' || text[k] == '\t' || text[k] == '\n' || text[k] == '\r'
  }

  // ------------------------------------------------------------ what each code stands for

  ghost predicate IntentObjects(i: Intent, nowMs: real, code: Code) {
    match code
    case MissingPair => OnlySpace(i.pair)
    case InvalidSide => i.side == None
    case InvalidEntryType => i.entryType != Market && i.entryType != Limit
    case InvalidConfidence => i.confidence < 0.0 || 1.0 < i.confidence
    case InvalidTtl => i.ttlMs <= 0.0
    case InvalidCreatedAt => i.createdAt == None
    case ExpiredIntent => i.createdAt.Some? && i.createdAt.value + i.ttlMs < nowMs
    case _ => false
  }

  predicate StateObjects(m: MarketContext, code: Code) {
    match code
    case MarketDataStale => m.marketDataFresh == Some(false)
    case AccountStateStale => m.accountStateFresh == Some(false)
    case AccountDivergent => m.accountDivergent == Some(true)
    case _ => false
  }

  ghost predicate PricesObject(i: Intent, m: MarketContext, o: Options, code: Code) {
    match code
    case MissingEntryPrice => !SomeEntry(i, m)
    case MissingStopLoss => i.stopLoss == Empty
    case MissingTakeProfit => i.takeProfit == Empty
    case InvalidPrice =>
      (i.stopLoss != Empty && Unpriced(i.stopLoss)) || (i.takeProfit != Empty && Unpriced(i.takeProfit))
    case SpreadTooWide => SomeWideSpread(m, o)
    case _ => false
  }

  /** Levels out of order, too little reward for the risk, a stop too near or too far: limits given or by default. */
  predicate LevelsObject(side: TradeSide, x: real, stop: real, tp: real, o: Options, code: Code)
    requires x > 0.0
  {
    var risk, reward := if side == Long then x - stop else stop - x, if side == Long then tp - x else x - tp;
    match code
    case InvalidLongLevels => side == Long && (x <= stop || tp <= x)
    case InvalidShortLevels => side == Short && (x <= tp || stop <= x)
    case RewardRiskTooLow => risk != 0.0 && reward / risk < if o.minRewardRisk.Some? then o.minRewardRisk.value else 1.5
    case StopDistanceTooSmall => risk / x < if o.minStopDistancePct.Some? then o.minStopDistancePct.value else 0.0005
    case StopDistanceTooLarge => risk / x > if o.maxStopDistancePct.Some? then o.maxStopDistancePct.value else 0.08
    case _ => false
  }

  /** All levels are there, and these are they. */
  ghost predicate AllLevels(i: Intent, m: MarketContext, x: real, stop: real, tp: real) {
    i.side.Some? && EntersAt(i, m, x) && Priced(i.stopLoss, stop) && Priced(i.takeProfit, tp)
  }

  ghost predicate SomeLevelObjects(i: Intent, m: MarketContext, o: Options, code: Code) {
    exists x, stop, tp :: x > 0.0 && AllLevels(i, m, x, stop, tp) && LevelsObject(i.side.value, x, stop, tp, o, code)
  }

  ghost predicate Objects(i: Intent, m: MarketContext, o: Options, code: Code) {
    || IntentObjects(i, o.nowMs, code) || StateObjects(m, code) || PricesObject(i, m, o, code)
    || SomeLevelObjects(i, m, o, code)
  }

  // ------------------------------------------------------------ the code's own terms

  lemma QuoteMeans(m: MarketContext, bid: real, ask: real)
    ensures Quoted(m, bid, ask) <==> BidAsk(m) == Some((bid, ask))
  {
  }

  lemma MiddleMeans(m: MarketContext, x: real)
    ensures IsMiddle(m, x) <==> BidAsk(m).Some? && x == (BidAsk(m).value.0 + BidAsk(m).value.1) / 2.0
  {
    if BidAsk(m).Some? { QuoteMeans(m, BidAsk(m).value.0, BidAsk(m).value.1); }
    forall bid, ask { QuoteMeans(m, bid, ask); }
  }

  lemma EntryMeans(i: Intent, m: MarketContext, x: real)
    ensures EntersAt(i, m, x) <==> ResolveEntry(i, m) == Some(x)
    ensures EntersAt(i, m, x) ==> x > 0.0
  {
    MiddleMeans(m, x);
  }

  lemma SomeEntryMeans(i: Intent, m: MarketContext)
    ensures SomeEntry(i, m) <==> ResolveEntry(i, m).Some?
  {
    if ResolveEntry(i, m).Some? { EntryMeans(i, m, ResolveEntry(i, m).value); }
    forall x ensures EntersAt(i, m, x) <==> ResolveEntry(i, m) == Some(x) { EntryMeans(i, m, x); }
  }

  lemma SpreadMeans(m: MarketContext, o: Options)
    ensures SomeWideSpread(m, o) <==> SpreadPct(m).Some? && SpreadPct(m).value > MaxSpread(o)
  {
    if BidAsk(m).Some? {
      SpreadOf(m, o);
      var bid, ask := BidAsk(m).value.0, BidAsk(m).value.1;
      QuoteMeans(m, bid, ask);
      assert SpreadIsWide(m, o, bid, ask) <==> SpreadPct(m).value > MaxSpread(o);
    }
    forall bid, ask { QuoteMeans(m, bid, ask); }
  }

  lemma BlankMeans(text: string)
    ensures Blank(text) <==> OnlySpace(text)
  {
    var space := " \t\n\r";
    assert space[0] == ' ' && space[1] == '\t' && space[2] == '\n' && space[3] == '\r';
    assert forall c: char :: c in space <==> c == ' ' || c == '\t' || c == '\n' || c == '\r';
  }

  lemma NotedIs(codes: seq<Code>, when: bool, c: Code, code: Code)
    ensures code in Noted(codes, when, c) <==> code in codes || (when && code == c)
  {
  }

  lemma IntentCodes(i: Intent, nowMs: real, code: Code)
    ensures code in IntentRejections(i, nowMs) <==> IntentObjects(i, nowMs, code)
  {
    var r := Noted(Noted(Noted([], Blank(i.pair), MissingPair), i.side == None, InvalidSide),
                   i.entryType == OtherEntry, InvalidEntryType);
    BlankMeans(i.pair);
    FirstCodes(i, code, r);
    LaterCodes(i, nowMs, code, r);
    IntentCases(i, nowMs, code, OnlySpace(i.pair));
  }

  lemma IntentCases(i: Intent, nowMs: real, code: Code, blank: bool)
    requires blank <==> OnlySpace(i.pair)
    ensures IntentObjects(i, nowMs, code) <==>
      || (code == MissingPair && blank) || (code == InvalidSide && i.side == None)
      || (code == InvalidEntryType && i.entryType == OtherEntry)
      || (code == InvalidConfidence && (i.confidence < 0.0 || i.confidence > 1.0))
      || (code == InvalidTtl && i.ttlMs <= 0.0) || (code == InvalidCreatedAt && i.createdAt == None)
      || (code == ExpiredIntent && i.createdAt.Some? && nowMs - i.createdAt.value > i.ttlMs)
  {
  }

  lemma FirstCodes(i: Intent, code: Code, r: seq<Code>)
    requires r == Noted(Noted(Noted([], Blank(i.pair), MissingPair), i.side == None, InvalidSide),
                        i.entryType == OtherEntry, InvalidEntryType)
    ensures code in r <==> (code == MissingPair && Blank(i.pair)) || (code == InvalidSide && i.side == None)
                           || (code == InvalidEntryType && i.entryType == OtherEntry)
  {
    var r1 := Noted([], Blank(i.pair), MissingPair);
    var r2 := Noted(r1, i.side == None, InvalidSide);
    NotedIs([], Blank(i.pair), MissingPair, code);
    NotedIs(r1, i.side == None, InvalidSide, code);
    NotedIs(r2, i.entryType == OtherEntry, InvalidEntryType, code);
  }

  lemma LaterCodes(i: Intent, nowMs: real, code: Code, r3: seq<Code>)
    ensures var r4 := Noted(r3, i.confidence < 0.0 || i.confidence > 1.0, InvalidConfidence);
      var r5 := Noted(r4, i.ttlMs <= 0.0, InvalidTtl);
      var r6 := Noted(r5, i.createdAt == None, InvalidCreatedAt);
      var expired := i.createdAt.Some? && nowMs - i.createdAt.value > i.ttlMs;
      code in Noted(r6, expired, ExpiredIntent) <==>
        code in r3 || (code == InvalidConfidence && (i.confidence < 0.0 || i.confidence > 1.0))
        || (code == InvalidTtl && i.ttlMs <= 0.0) || (code == InvalidCreatedAt && i.createdAt == None)
        || (code == ExpiredIntent && expired)
  {
    var r4 := Noted(r3, i.confidence < 0.0 || i.confidence > 1.0, InvalidConfidence);
    var r5 := Noted(r4, i.ttlMs <= 0.0, InvalidTtl);
    var r6 := Noted(r5, i.createdAt == None, InvalidCreatedAt);
    NotedIs(r3, i.confidence < 0.0 || i.confidence > 1.0, InvalidConfidence, code);
    NotedIs(r4, i.ttlMs <= 0.0, InvalidTtl, code);
    NotedIs(r5, i.createdAt == None, InvalidCreatedAt, code);
    NotedIs(r6, i.createdAt.Some? && nowMs - i.createdAt.value > i.ttlMs, ExpiredIntent, code);
  }

  lemma StateCodes(before: seq<Code>, m: MarketContext, code: Code)
    ensures code in StateRejections(before, m) <==> code in before || StateObjects(m, code)
  {
  }

  lemma PriceCodes(i: Intent, m: MarketContext, o: Options, before: seq<Code>, code: Code)
    ensures var r := Noted(before, ResolveEntry(i, m) == None, MissingEntryPrice);
      var r := Noted(r, i.stopLoss == Empty, MissingStopLoss);
      var r := Noted(r, i.takeProfit == Empty, MissingTakeProfit);
      var r := Noted(r, i.stopLoss != Empty && ParsePrice(i.stopLoss) == None, InvalidPrice);
      var r := Noted(r, i.takeProfit != Empty && ParsePrice(i.takeProfit) == None, InvalidPrice);
      code in Noted(r, SpreadPct(m).Some? && SpreadPct(m).value > MaxSpread(o), SpreadTooWide)
      <==> code in before || PricesObject(i, m, o, code)
  {
    var r1 := Noted(before, ResolveEntry(i, m) == None, MissingEntryPrice);
    var r2 := Noted(r1, i.stopLoss == Empty, MissingStopLoss);
    var r3 := Noted(r2, i.takeProfit == Empty, MissingTakeProfit);
    var r4 := Noted(r3, i.stopLoss != Empty && ParsePrice(i.stopLoss) == None, InvalidPrice);
    var r5 := Noted(r4, i.takeProfit != Empty && ParsePrice(i.takeProfit) == None, InvalidPrice);
    var wide := SpreadPct(m).Some? && SpreadPct(m).value > MaxSpread(o);
    SomeEntryMeans(i, m);
    SpreadMeans(m, o);
    NotedIs(before, ResolveEntry(i, m) == None, MissingEntryPrice, code);
    NotedIs(r1, i.stopLoss == Empty, MissingStopLoss, code);
    NotedIs(r2, i.takeProfit == Empty, MissingTakeProfit, code);
    NotedIs(r3, i.stopLoss != Empty && ParsePrice(i.stopLoss) == None, InvalidPrice, code);
    NotedIs(r4, i.takeProfit != Empty && ParsePrice(i.takeProfit) == None, InvalidPrice, code);
    NotedIs(r5, wide, SpreadTooWide, code);
    PriceCases(i, m, o, code, wide);
  }

  lemma PriceCases(i: Intent, m: MarketContext, o: Options, code: Code, wide: bool)
    requires SomeEntry(i, m) <==> ResolveEntry(i, m).Some?
    requires wide <==> SomeWideSpread(m, o)
    ensures PricesObject(i, m, o, code) <==>
      || (code == MissingEntryPrice && ResolveEntry(i, m) == None)
      || (code == MissingStopLoss && i.stopLoss == Empty) || (code == MissingTakeProfit && i.takeProfit == Empty)
      || (code == InvalidPrice && i.stopLoss != Empty && ParsePrice(i.stopLoss) == None)
      || (code == InvalidPrice && i.takeProfit != Empty && ParsePrice(i.takeProfit) == None)
      || (code == SpreadTooWide && wide)
  {
  }

  lemma MarketCodes(i: Intent, m: MarketContext, o: Options, code: Code)
    ensures code in MarketRejections(i, m, o)
            <==> IntentObjects(i, o.nowMs, code) || StateObjects(m, code) || PricesObject(i, m, o, code)
  {
    var before := StateRejections(IntentRejections(i, o.nowMs), m);
    IntentCodes(i, o.nowMs, code);
    StateCodes(IntentRejections(i, o.nowMs), m, code);
    PriceCodes(i, m, o, before, code);
  }

  lemma LevelCodes(before: seq<Code>, side: TradeSide, x: real, stop: real, tp: real, o: Options, code: Code)
    requires x > 0.0
    ensures code in LevelRejections(before, side, x, stop, tp, o) <==> code in before || LevelsObject(side, x, stop, tp, o, code)
  {
  }

  lemma LevelsMean(i: Intent, m: MarketContext, x: real, stop: real, tp: real)
    ensures AllLevels(i, m, x, stop, tp) <==>
      HasLevels(i, m) && ResolveEntry(i, m).value == x && ParsePrice(i.stopLoss).value == stop && ParsePrice(i.takeProfit).value == tp
  {
    EntryMeans(i, m, x);
  }

  /** For every input: the decision is an approval exactly if no code has an objection, and a rejection lists exactly the
      codes that have one. */
  lemma CodesMean(i: Intent, m: MarketContext, o: Options)
    ensures Validate(i, m, o).Approved? <==> forall code :: !Objects(i, m, o, code)
    ensures Validate(i, m, o).Rejected? ==> forall code :: code in Validate(i, m, o).rejections <==> Objects(i, m, o, code)
  {
    var market := MarketRejections(i, m, o);
    forall code ensures code in Rejections(i, m, o) <==> Objects(i, m, o, code) { CodeMeans(i, m, o, code); }
    ApprovedIff(i, m, o);
    if Validate(i, m, o).Rejected? {
      assert Validate(i, m, o).rejections == Rejections(i, m, o);
      assert Objects(i, m, o, Validate(i, m, o).rejections[0]);
    }
  }

  /** All codes noted. */
  function Rejections(i: Intent, m: MarketContext, o: Options): seq<Code> {
    if !HasLevels(i, m) then MarketRejections(i, m, o)
    else LevelRejections(MarketRejections(i, m, o), i.side.value, ResolveEntry(i, m).value,
                         ParsePrice(i.stopLoss).value, ParsePrice(i.takeProfit).value, o)
  }

  lemma CodeMeans(i: Intent, m: MarketContext, o: Options, code: Code)
    ensures code in Rejections(i, m, o) <==> Objects(i, m, o, code)
  {
    MarketCodes(i, m, o, code);
    forall x, stop, tp { LevelsMean(i, m, x, stop, tp); }
    if HasLevels(i, m) {
      var x, stop, tp := ResolveEntry(i, m).value, ParsePrice(i.stopLoss).value, ParsePrice(i.takeProfit).value;
      EntryMeans(i, m, x);
      LevelsMean(i, m, x, stop, tp);
      LevelCodes(MarketRejections(i, m, o), i.side.value, x, stop, tp, o, code);
    }
  }

  /** `part` is that share of `whole`. */
  predicate IsShare(share: real, part: real, whole: real) { share * whole == part }

  lemma QuotientIsShare(part: real, whole: real)
    requires whole != 0.0
    ensures IsShare(part / whole, part, whole)
  {
  }

  /** The metrics stand for an entry, a risk and a reward. */
  predicate Measures(k: Metrics, risk: real, reward: real) {
    && risk > 0.0 && IsShare(k.rewardRisk, reward, risk)
    && IsShare(k.stopDistancePct, risk, k.entryPrice) && IsShare(k.takeProfitDistancePct, reward, k.entryPrice)
  }

  lemma MeasuresIs(i: Intent, m: MarketContext)
    requires HasLevels(i, m) && ResolveEntry(i, m).value > 0.0
    requires RiskOf(i.side.value, ResolveEntry(i, m).value, ParsePrice(i.stopLoss).value) > 0.0
    ensures Measures(MetricsOf(i, m), RiskOf(i.side.value, ResolveEntry(i, m).value, ParsePrice(i.stopLoss).value),
                     RewardOf(i.side.value, ResolveEntry(i, m).value, ParsePrice(i.takeProfit).value))
  {
    var x := ResolveEntry(i, m).value;
    var risk := RiskOf(i.side.value, x, ParsePrice(i.stopLoss).value);
    var reward := RewardOf(i.side.value, x, ParsePrice(i.takeProfit).value);
    QuotientIsShare(reward, risk);
    QuotientIsShare(risk, x);
    QuotientIsShare(reward, x);
  }

  /** An approval carries the intent, its levels, and what they measure: reward to risk, and both to the entry. */
  lemma MetricsMean(i: Intent, m: MarketContext, o: Options)
    requires Validate(i, m, o).Approved?
    ensures Validate(i, m, o).intent == i
    ensures var k := Validate(i, m, o).metrics;
      && AllLevels(i, m, k.entryPrice, k.stopLoss, k.takeProfit)
      && if i.side == Some(Long) then Measures(k, k.entryPrice - k.stopLoss, k.takeProfit - k.entryPrice)
         else Measures(k, k.stopLoss - k.entryPrice, k.entryPrice - k.takeProfit)
  {
    ApprovedIff(i, m, o);
    var x, stop, tp := ResolveEntry(i, m).value, ParsePrice(i.stopLoss).value, ParsePrice(i.takeProfit).value;
    LevelsMean(i, m, x, stop, tp);
    EntryMeans(i, m, x);
    assert Ordered(i.side.value, x, stop, tp);
    MeasuresIs(i, m);
  }
}
