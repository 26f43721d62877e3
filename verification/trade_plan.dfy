/** Sizing, leverage, liquidation buffer and targets of a trade plan. */
module TradePlans {
  import opened Common

  const DEFAULT_EQUITY := 10000.0
  const DEFAULT_RISK_CAPITAL_FRACTION := 0.01
  const DEFAULT_ATR_PERCENT := 0.01
  const DEFAULT_FEE_RATE := 0.001
  const DEFAULT_FUNDING_BUFFER := 0.0005
  const DEFAULT_MAX_VENUE_LEVERAGE := 10.0
  const HARD_MAX_LEVERAGE := 10.0
  const LIQUIDATION_DISTANCE_MULTIPLIER := 2.0

  datatype Violation =
    | DirectionUnavailable | SideConflict | EntryUnavailable | StopUnavailable | RiskUnavailable
    | QuantityUnavailable | QuantityCapped | LeverageExceeded | LiquidationBufferFailed

  /** `longScore` and `shortScore` come from the confluence score; absent numbers are None. */
  datatype PlanInput = PlanInput(
    intentSide: TradeSide, longScore: int, shortScore: int,
    entryPrice: Option<real>, stopLoss: Option<real>, markPrice: Option<real>, liquidationPrice: Option<real>,
    maxLeverage: Option<real>, accountEquity: Option<real>, riskCapitalFraction: Option<real>,
    atrPercent: Option<real>, feeRate: Option<real>, fundingRate: Option<real>, maxVenueLeverage: Option<real>)

  datatype Plan = Plan(
    side: TradeSide, entry: real, stopLoss: real, quantity: real, leverage: real, riskCapital: real,
    tp1: real, tp2: real, breakevenPlus: real, liquidationBufferSatisfied: bool, violations: set<Violation>,
    stopDistancePct: real, liquidationDistancePct: real)

  function ParsePositive(x: Option<real>): Option<real> {
    if x.Some? && x.value > 0.0 then x else None
  }

  function ParseNonNegative(x: Option<real>): Option<real> {
    if x.Some? && x.value >= 0.0 then x else None
  }

  function OrElse(x: Option<real>, d: real): real {
    if x.Some? then x.value else d
  }

  function FirstOf(x: Option<real>, y: Option<real>): Option<real> {
    if x.Some? then x else y
  }

  function Dominant(i: PlanInput): Option<TradeSide> {
    if i.longScore > i.shortScore then Some(Long)
    else if i.shortScore > i.longScore then Some(Short)
    else None
  }

  function Side(i: PlanInput): TradeSide {
    if Dominant(i).Some? then Dominant(i).value else i.intentSide
  }

  function Offset(side: TradeSide, base: real, distance: real): real {
    if side == Long then base + distance else base - distance
  }

  function Entry(i: PlanInput): real {
    OrElse(FirstOf(ParsePositive(i.entryPrice), ParsePositive(i.markPrice)), 0.0)
  }

  function StructuralStop(i: PlanInput): real {
    OrElse(ParsePositive(i.stopLoss), 0.0)
  }

  function AtrPercent(i: PlanInput): real {
    OrElse(ParsePositive(i.atrPercent), DEFAULT_ATR_PERCENT)
  }

  /** The structural stop moved away by the volatility buffer, unless that leaves no price. */
  function StopLoss(i: PlanInput): real {
    var atrValue := Entry(i) * AtrPercent(i);
    var buffered := if Side(i) == Long then StructuralStop(i) - atrValue else StructuralStop(i) + atrValue;
    if buffered > 0.0 then buffered else StructuralStop(i)
  }

  function Equity(i: PlanInput): real { OrElse(ParsePositive(i.accountEquity), DEFAULT_EQUITY) }

  function Fraction(i: PlanInput): real { OrElse(ParsePositive(i.riskCapitalFraction), DEFAULT_RISK_CAPITAL_FRACTION) }

  function LeverageCap(i: PlanInput): real {
    MinR(HARD_MAX_LEVERAGE,
         OrElse(FirstOf(ParsePositive(i.maxVenueLeverage), ParsePositive(i.maxLeverage)), DEFAULT_MAX_VENUE_LEVERAGE))
  }

  datatype Size = Size(uncapped: real, capped: real, quantity: real, leverage: real)

  /** Quantity from the risk capital, capped by the notional that the leverage cap allows. */
  function SizeOf(entry: real, risk: real, equity: real, fraction: real, cap: real): Size {
    var uncapped := if risk > 0.0 then equity * fraction / risk else 0.0;
    var capped := if entry > 0.0 then MinR(uncapped, equity * cap / entry) else 0.0;
    var quantity := MaxR(0.0, capped);
    var leverage := if equity > 0.0 then MaxR(1.0, MinR(cap, quantity * entry / equity)) else cap;
    Size(uncapped, capped, quantity, leverage)
  }

  function EstimatedLiquidation(side: TradeSide, entry: real, leverage: real): real
    requires leverage > 0.0
  {
    if side == Long then entry * (1.0 - 1.0 / leverage) else entry * (1.0 + 1.0 / leverage)
  }

  function StopDistance(entry: real, risk: real): real {
    if entry > 0.0 then risk / entry else 1.0
  }

  function LiquidationDistance(entry: real, liquidation: real): real {
    if entry > 0.0 then Abs(entry - liquidation) / entry else 0.0
  }

  function Note(when: bool, v: Violation): set<Violation> {
    if when then {v} else {}
  }

  function Violations(i: PlanInput, risk: real, size: Size, safe: bool): set<Violation> {
    Note(Dominant(i) == None, DirectionUnavailable) + Note(Side(i) != i.intentSide, SideConflict)
    + Note(Entry(i) <= 0.0, EntryUnavailable) + Note(StructuralStop(i) <= 0.0, StopUnavailable)
    + Note(risk <= 0.0, RiskUnavailable) + Note(size.quantity <= 0.0, QuantityUnavailable)
    + Note(size.uncapped > size.capped, QuantityCapped) + Note(size.leverage > HARD_MAX_LEVERAGE, LeverageExceeded)
    + Note(!safe, LiquidationBufferFailed)
  }

  function Carry(i: PlanInput): real {
    Entry(i) * (OrElse(ParseNonNegative(i.feeRate), DEFAULT_FEE_RATE) * 2.0
                + OrElse(ParseNonNegative(i.fundingRate), DEFAULT_FUNDING_BUFFER))
  }

  function Risk(i: PlanInput): real {
    Abs(Entry(i) - StopLoss(i))
  }

  function RiskCapital(i: PlanInput): real {
    Equity(i) * Fraction(i)
  }

  function PlanSize(i: PlanInput): (s: Size)
    ensures 1.0 <= s.leverage <= HARD_MAX_LEVERAGE
  {
    SizeBounds(Entry(i), Risk(i), Equity(i), Fraction(i), LeverageCap(i));
    SizeOf(Entry(i), Risk(i), Equity(i), Fraction(i), LeverageCap(i))
  }

  /** The venue's liquidation price if it gives one, else the estimate for the plan's leverage. */
  function Liquidation(i: PlanInput): real {
    var given := ParsePositive(i.liquidationPrice);
    if given.Some? then given.value else EstimatedLiquidation(Side(i), Entry(i), PlanSize(i).leverage)
  }

  /** The liquidation lies at least twice as far from the entry as the stop. */
  predicate Buffered(liquidationDistance: real, stopDistance: real) {
    liquidationDistance >= stopDistance * LIQUIDATION_DISTANCE_MULTIPLIER
  }

  predicate BufferSatisfied(i: PlanInput) {
    Buffered(LiquidationDistance(Entry(i), Liquidation(i)), StopDistance(Entry(i), Risk(i)))
  }

  function Compute(i: PlanInput): Plan {
    var size := PlanSize(i);
    Plan(Side(i), Entry(i), StopLoss(i), size.quantity, size.leverage, RiskCapital(i),
         Offset(Side(i), Entry(i), Risk(i)), Offset(Side(i), Entry(i), Risk(i) * 3.0), Offset(Side(i), Entry(i), Carry(i)),
         BufferSatisfied(i), Violations(i, Risk(i), size, BufferSatisfied(i)),
         StopDistance(Entry(i), Risk(i)), LiquidationDistance(Entry(i), Liquidation(i)))
  }

  // ------------------------------------------------------------ real arithmetic

  lemma QuotientTimes(x: real, y: real)
    requires y > 0.0
    ensures x / y * y == x
  {
  }

  lemma ProductOrder(x: real, y: real, k: real)
    requires x <= y && k >= 0.0
    ensures x * k <= y * k
  {
  }

  lemma QuotientSign(x: real, y: real)
    requires y > 0.0
    ensures x >= 0.0 <==> x / y >= 0.0
    ensures x > 0.0 <==> x / y > 0.0
  {
    QuotientTimes(x, y);
    var q := x / y;
    assert q * y == x;
  }

  /** Comparing a quotient is comparing with the product. */
  lemma QuotientCompare(x: real, y: real, z: real)
    requires y > 0.0
    ensures x / y <= z <==> x <= z * y
    ensures z <= x / y <==> z * y <= x
  {
    var q := x / y;
    assert q * y == x;
    assert (z - q) * y == z * y - x;
  }

  // ------------------------------------------------------------ sizes

  /** The money at risk is at most the risk capital and the notional at most what the leverage cap allows;
      the leverage lies between one and ten. */
  predicate WithinLimits(s: Size, entry: real, risk: real, equity: real, fraction: real, cap: real) {
    && s.quantity >= 0.0
    && s.quantity * risk <= equity * fraction
    && s.quantity * entry <= equity * cap
    && 1.0 <= s.leverage <= HARD_MAX_LEVERAGE
  }

  lemma SizeBounds(entry: real, risk: real, equity: real, fraction: real, cap: real)
    requires equity > 0.0 && fraction > 0.0 && 0.0 < cap <= HARD_MAX_LEVERAGE && risk >= 0.0
    ensures WithinLimits(SizeOf(entry, risk, equity, fraction, cap), entry, risk, equity, fraction, cap)
  {
    var s := SizeOf(entry, risk, equity, fraction, cap);
    assert equity * fraction > 0.0 && equity * cap > 0.0;
    if entry > 0.0 && risk > 0.0 {
      QuotientSign(equity * fraction, risk);
      QuotientSign(equity * cap, entry);
      QuotientTimes(equity * fraction, risk);
      QuotientTimes(equity * cap, entry);
      ProductOrder(s.quantity, equity * fraction / risk, risk);
      ProductOrder(s.quantity, equity * cap / entry, entry);
    } else if entry > 0.0 {
      QuotientSign(equity * cap, entry);
      assert s.quantity == 0.0;
    } else {
      assert s.quantity == 0.0;
    }
  }

  /** Whatever the inputs, the plan's size keeps all limits. */
  lemma PlanWithinLimits(i: PlanInput)
    ensures WithinLimits(PlanSize(i), Entry(i), Risk(i), Equity(i), Fraction(i), LeverageCap(i))
  {
    SizeBounds(Entry(i), Risk(i), Equity(i), Fraction(i), LeverageCap(i));
  }

  /** The plan carries that size, and is marked as failing the buffer rule iff it does. */
  lemma PlanCarriesSize(i: PlanInput)
    ensures Compute(i).quantity == PlanSize(i).quantity && Compute(i).leverage == PlanSize(i).leverage
    ensures Compute(i).riskCapital == RiskCapital(i) && Compute(i).entry == Entry(i) && Compute(i).stopLoss == StopLoss(i)
    ensures Compute(i).liquidationBufferSatisfied == BufferSatisfied(i)
    ensures LeverageExceeded !in Compute(i).violations
    ensures LiquidationBufferFailed in Compute(i).violations <==> !BufferSatisfied(i)
  {
  }

  // ------------------------------------------------------------ the liquidation buffer

  lemma CancelFactor(x: real, y: real, k: real)
    requires k > 0.0
    ensures x * k == y * k ==> x == y
    ensures x * k <= y * k ==> x <= y
  {
    assert (y - x) * k == y * k - x * k;
    if x > y { assert (x - y) * k > 0.0; }
  }

  /** The notional in units of equity, times the stop distance, is the risk fraction or its cap. */
  lemma LeverageTimesStop(entry: real, risk: real, equity: real, fraction: real, cap: real, s: real, x: real)
    requires entry > 0.0 && risk > 0.0 && equity > 0.0 && fraction > 0.0 && cap > 0.0
    requires s == risk / entry && x == SizeOf(entry, risk, equity, fraction, cap).quantity * entry / equity
    ensures x <= cap && s * x == MinR(fraction, s * cap)
  {
    var q := SizeOf(entry, risk, equity, fraction, cap).quantity;
    QuantityIsMin(entry, risk, equity, fraction, cap);
    QuotientTimes(equity * fraction, risk);
    QuotientTimes(equity * cap, entry);
    QuotientTimes(risk, entry);
    QuotientTimes(q * entry, equity);
    QuotientSign(risk, entry);
    SmallerOfTwo(s, x, q, equity * fraction / risk, equity * cap / entry, entry, risk, equity, fraction, cap);
  }

  lemma QuantityIsMin(entry: real, risk: real, equity: real, fraction: real, cap: real)
    requires entry > 0.0 && risk > 0.0 && equity > 0.0 && fraction > 0.0 && cap > 0.0
    ensures SizeOf(entry, risk, equity, fraction, cap).quantity == MinR(equity * fraction / risk, equity * cap / entry)
  {
    assert equity * fraction > 0.0 && equity * cap > 0.0;
    QuotientSign(equity * fraction, risk);
    QuotientSign(equity * cap, entry);
  }

  lemma SmallerOfTwo(s: real, x: real, q: real, byRisk: real, byCap: real,
                     entry: real, risk: real, equity: real, fraction: real, cap: real)
    requires entry > 0.0 && risk > 0.0 && equity > 0.0 && s > 0.0
    requires byRisk * risk == equity * fraction && byCap * entry == equity * cap && q == MinR(byRisk, byCap)
    requires s * entry == risk && x * equity == q * entry
    ensures x <= cap && s * x == MinR(fraction, s * cap)
  {
    StopTimesNotional(s, x, q, entry, risk, equity);
    ProductOrder(q, byRisk, risk);
    ProductOrder(q, byCap, entry);
    CancelFactor(x, cap, equity);
    CancelFactor(s * x, fraction, equity);
    ProductOrder(x, cap, s);
    if q == byRisk {
      ProductOrder(byRisk, q, risk);
      CancelFactor(fraction, s * x, equity);
    } else {
      ProductOrder(byCap, q, entry);
      CancelFactor(cap, x, equity);
    }
  }

  lemma StopTimesNotional(s: real, x: real, q: real, entry: real, risk: real, equity: real)
    requires s * entry == risk && x * equity == q * entry
    ensures s * x * equity == q * risk
  {
    assert s * (x * equity) == s * (q * entry);
    assert s * (q * entry) == q * (s * entry);
  }

  /** The estimated liquidation price lies one part in `leverage` away from the entry. */
  lemma EstimatedDistance(side: TradeSide, entry: real, leverage: real)
    requires entry > 0.0 && leverage >= 1.0
    ensures LiquidationDistance(entry, EstimatedLiquidation(side, entry, leverage)) == 1.0 / leverage
  {
    var f := 1.0 / leverage;
    QuotientSign(1.0, leverage);
    assert entry * f > 0.0;
    assert entry * (1.0 - f) == entry - entry * f && entry * (1.0 + f) == entry + entry * f;
    var d := Abs(entry - EstimatedLiquidation(side, entry, leverage));
    assert d == entry * f;
    QuotientTimes(d, entry);
    CancelFactor(d / entry, f, entry);
  }

  /** When the estimated liquidation is far enough: the stop at most half of the entry away, and either at most
      half of the equity at risk or a leverage cap that keeps that so. */
  predicate RoomForStop(s: real, fraction: real, cap: real) {
    s <= 0.5 && (fraction <= 0.5 || s * cap <= 0.5)
  }

  /** One over the leverage covers twice the stop distance, in terms of the fraction and the cap. */
  lemma BufferArithmetic(s: real, x: real, leverage: real, fraction: real, cap: real)
    requires s > 0.0 && cap > 0.0 && x <= cap && s * x == MinR(fraction, s * cap)
    requires leverage == MaxR(1.0, MinR(cap, x))
    ensures Buffered(1.0 / leverage, s) <==> RoomForStop(s, fraction, cap)
  {
    QuotientCompare(1.0, leverage, s * 2.0);
    assert leverage == MaxR(1.0, x);
    assert s * 2.0 * leverage <= 1.0 <==> s * leverage <= 0.5;
    ProductOrder(1.0, leverage, s);
    if x <= 1.0 {
      assert leverage == 1.0 && s * leverage == s;
      assert s * x <= s;
      if s <= 0.5 { assert s * x <= 0.5; assert MinR(fraction, s * cap) <= 0.5; }
    } else {
      assert s * leverage == s * x;
      assert s <= s * x;
    }
  }

  /** Without a venue liquidation price the buffer rule holds exactly when the stop distance is at most half
      of the entry and either the risk fraction is at most one half or the cap keeps leverage low enough. */
  lemma LiquidationBufferExact(i: PlanInput)
    requires Entry(i) > 0.0 && Risk(i) > 0.0 && ParsePositive(i.liquidationPrice) == None
    ensures BufferSatisfied(i) <==> RoomForStop(StopDistance(Entry(i), Risk(i)), Fraction(i), LeverageCap(i))
  {
    QuotientSign(Risk(i), Entry(i));
    BufferOf(Side(i), Entry(i), Risk(i), Equity(i), Fraction(i), LeverageCap(i), StopDistance(Entry(i), Risk(i)));
  }

  lemma LeverageOf(entry: real, risk: real, equity: real, fraction: real, cap: real, x: real)
    requires equity > 0.0 && x == SizeOf(entry, risk, equity, fraction, cap).quantity * entry / equity
    ensures SizeOf(entry, risk, equity, fraction, cap).leverage == MaxR(1.0, MinR(cap, x))
  {
  }

  lemma BufferOf(side: TradeSide, entry: real, risk: real, equity: real, fraction: real, cap: real, s: real)
    requires entry > 0.0 && risk > 0.0 && equity > 0.0 && fraction > 0.0 && 0.0 < cap <= HARD_MAX_LEVERAGE
    requires s == risk / entry && s > 0.0
    ensures SizeOf(entry, risk, equity, fraction, cap).leverage >= 1.0
    ensures var l := SizeOf(entry, risk, equity, fraction, cap).leverage;
      Buffered(LiquidationDistance(entry, EstimatedLiquidation(side, entry, l)), s) <==> RoomForStop(s, fraction, cap)
  {
    SizeBounds(entry, risk, equity, fraction, cap);
    var size := SizeOf(entry, risk, equity, fraction, cap);
    var x := size.quantity * entry / equity;
    LeverageTimesStop(entry, risk, equity, fraction, cap, s, x);
    LeverageOf(entry, risk, equity, fraction, cap, x);
    EstimatedDistance(side, entry, size.leverage);
    BufferArithmetic(s, x, size.leverage, fraction, cap);
  }

  /** The plain form: a risk fraction and a stop distance of at most one half always leave the buffer. */
  lemma LiquidationBuffer(i: PlanInput)
    requires Entry(i) > 0.0 && Risk(i) > 0.0 && ParsePositive(i.liquidationPrice) == None
    requires StopDistance(Entry(i), Risk(i)) <= 0.5 && Fraction(i) <= 0.5
    ensures BufferSatisfied(i)
  {
    LiquidationBufferExact(i);
  }

  // ------------------------------------------------------------ the order of the levels

  /** A positive entry with a positive structural stop strictly on its losing side. */
  predicate StopOnLosingSide(i: PlanInput) {
    && Entry(i) > 0.0 && StructuralStop(i) > 0.0
    && (if Side(i) == Long then StructuralStop(i) < Entry(i) else StructuralStop(i) > Entry(i))
  }

  /** Stop, entry and targets strictly in the order the side needs. */
  predicate LevelsInOrder(p: Plan) {
    if p.side == Long then p.stopLoss < p.entry < p.tp1 < p.tp2 else p.stopLoss > p.entry > p.tp1 > p.tp2
  }

  /** If the structural stop is on the losing side of a positive entry, the buffered stop is at least as far,
      and the whole ladder is in order: the first target one risk unit away, the second three. */
  lemma LadderInOrder(i: PlanInput)
    requires StopOnLosingSide(i)
    ensures var p := Compute(i);
      && LevelsInOrder(p)
      && Abs(p.tp1 - p.entry) == Abs(p.entry - p.stopLoss)
      && Abs(p.tp2 - p.entry) == 3.0 * Abs(p.entry - p.stopLoss)
      && Abs(p.entry - p.stopLoss) >= Abs(p.entry - StructuralStop(i))
  {
    assert Entry(i) * AtrPercent(i) > 0.0;
  }

  /** Breakeven lies on the winning side of the entry by exactly the carry, fees for both ways and funding. */
  lemma BreakevenCoversCosts(i: PlanInput)
    requires Entry(i) > 0.0
    ensures var p := Compute(i);
      && Abs(p.breakevenPlus - p.entry) == Carry(i)
      && (if p.side == Long then p.breakevenPlus >= p.entry else p.breakevenPlus <= p.entry)
  {
    PlanFields(i);
    CarryNonNegative(i);
  }

  lemma CarryNonNegative(i: PlanInput)
    requires Entry(i) > 0.0
    ensures Carry(i) >= 0.0
  {
    var rate := OrElse(ParseNonNegative(i.feeRate), DEFAULT_FEE_RATE) * 2.0 + OrElse(ParseNonNegative(i.fundingRate), DEFAULT_FUNDING_BUFFER);
    assert Entry(i) * rate >= 0.0;
  }

  // ------------------------------------------------------------ plans with their stop on the losing side

  /** The risk capital would buy more than the leverage cap allows. */
  predicate CapBinds(entry: real, risk: real, equity: real, fraction: real, cap: real)
    requires entry > 0.0 && risk > 0.0
  {
    equity * fraction / risk > equity * cap / entry
  }

  lemma QuantityPositive(entry: real, risk: real, equity: real, fraction: real, cap: real)
    requires entry > 0.0 && risk > 0.0 && equity > 0.0 && fraction > 0.0 && cap > 0.0
    ensures SizeOf(entry, risk, equity, fraction, cap).quantity > 0.0
    ensures var s := SizeOf(entry, risk, equity, fraction, cap);
      s.uncapped > s.capped <==> CapBinds(entry, risk, equity, fraction, cap)
  {
    assert equity * fraction > 0.0 && equity * cap > 0.0;
    QuotientSign(equity * fraction, risk);
    QuotientSign(equity * cap, entry);
  }

  lemma StopAway(i: PlanInput)
    requires StopOnLosingSide(i)
    ensures Risk(i) > 0.0
  {
    assert Entry(i) * AtrPercent(i) > 0.0;
  }

  /** Such a plan, for the side the score prefers, can only be marked as capped or as short of buffer. */
  lemma OnlyCapAndBuffer(i: PlanInput)
    requires Dominant(i) == Some(i.intentSide) && StopOnLosingSide(i)
    ensures Risk(i) > 0.0
    ensures Compute(i).violations
            == Note(CapBinds(Entry(i), Risk(i), Equity(i), Fraction(i), LeverageCap(i)), QuantityCapped)
               + Note(!BufferSatisfied(i), LiquidationBufferFailed)
  {
    StopAway(i);
    QuantityPositive(Entry(i), Risk(i), Equity(i), Fraction(i), LeverageCap(i));
  }

  predicate StopNear(i: PlanInput, bound: real) {
    AtMostShare(Abs(Entry(i) - StructuralStop(i)), bound, Entry(i))
  }

  /** A structural stop within `bound` of the entry leaves the plan's stop within that plus the volatility. */
  lemma StopWithinVolatility(i: PlanInput, bound: real)
    requires StopOnLosingSide(i) && StopNear(i, bound)
    ensures StopDistance(Entry(i), Risk(i)) <= bound + AtrPercent(i)
  {
    assert Entry(i) * AtrPercent(i) > 0.0;
    assert (bound + AtrPercent(i)) * Entry(i) == bound * Entry(i) + Entry(i) * AtrPercent(i);
    QuotientCompare(Risk(i), Entry(i), bound + AtrPercent(i));
  }

  /** Without an entry price there is nothing to buy, and the levels of a long plan cannot be in order. */
  lemma NoEntryNoPlan(i: PlanInput)
    requires Entry(i) == 0.0 && StructuralStop(i) > 0.0
    ensures Compute(i).entry == 0.0 && Compute(i).quantity == 0.0
    ensures {EntryUnavailable, QuantityUnavailable} <= Compute(i).violations
    ensures Side(i) == Long ==> !LevelsInOrder(Compute(i))
  {
    assert Entry(i) * AtrPercent(i) == 0.0;
  }

  // ------------------------------------------------------------ the plan in terms of its input alone

  /** A number that is given and positive, or else the default. */
  predicate Given(x: Option<real>, default: real, v: real) {
    if x.Some? && x.value > 0.0 then v == x.value else v == default
  }

  /** The first of two numbers that is given and positive, or else the default. */
  predicate GivenFirst(x: Option<real>, y: Option<real>, default: real, v: real) {
    if x.Some? && x.value > 0.0 then v == x.value else Given(y, default, v)
  }

  function AtMostTen(x: real): real { if x < 10.0 then x else 10.0 }

  /** The most that the notional may be, in units of equity: what the venue allows, or else the market, and never more
      than ten. */
  predicate IsLimit(i: PlanInput, limit: real) {
    if i.maxVenueLeverage.Some? && i.maxVenueLeverage.value > 0.0 then limit == AtMostTen(i.maxVenueLeverage.value)
    else if i.maxLeverage.Some? && i.maxLeverage.value > 0.0 then limit == AtMostTen(i.maxLeverage.value)
    else limit == 10.0
  }

  /** What a plan is made of. */
  lemma PlanFields(i: PlanInput)
    ensures var p := Compute(i);
      && p.side == Side(i) && p.entry == Entry(i) && p.stopLoss == StopLoss(i)
      && p.quantity == PlanSize(i).quantity && p.leverage == PlanSize(i).leverage && p.riskCapital == RiskCapital(i)
      && p.tp1 == Offset(Side(i), Entry(i), Risk(i)) && p.tp2 == Offset(Side(i), Entry(i), Risk(i) * 3.0)
      && p.breakevenPlus == Offset(Side(i), Entry(i), Carry(i))
      && p.liquidationBufferSatisfied == BufferSatisfied(i)
      && p.violations == Violations(i, Risk(i), PlanSize(i), BufferSatisfied(i))
  {
  }

  /** The structural stop is moved away by the share `atr` of the entry where that leaves a price. */
  predicate MovedStop(side: TradeSide, entry: real, structural: real, atr: real, stop: real) {
    var moved := if side == Long then structural - entry * atr else structural + entry * atr;
    stop == if moved > 0.0 then moved else structural
  }

  lemma StopIsMoved(i: PlanInput, structural: real, atr: real)
    requires structural == StructuralStop(i) && atr == AtrPercent(i)
    ensures MovedStop(Side(i), Entry(i), structural, atr, StopLoss(i))
  {
  }

  /** The side the score prefers, the entry, and the stop. */
  lemma PlanLevels(i: PlanInput, structural: real, atr: real)
    requires Given(i.stopLoss, 0.0, structural) && Given(i.atrPercent, 0.01, atr)
    ensures var p := Compute(i);
      && p.side == (if i.longScore > i.shortScore then Long else if i.longScore < i.shortScore then Short else i.intentSide)
      && GivenFirst(i.entryPrice, i.markPrice, 0.0, p.entry)
      && MovedStop(p.side, p.entry, structural, atr, p.stopLoss)
  {
    PlanFields(i);
    StopIsMoved(i, structural, atr);
  }

  /** The distance of entry and stop. */
  function RiskOf(p: Plan): real {
    if p.entry > p.stopLoss then p.entry - p.stopLoss else p.stopLoss - p.entry
  }

  lemma RiskIs(i: PlanInput)
    ensures RiskOf(Compute(i)) == Risk(i) && Risk(i) >= 0.0
  {
    PlanFields(i);
  }

  /** `price` lies `distance` from `base` on the winning side. */
  predicate Beyond(side: TradeSide, base: real, distance: real, price: real) {
    if side == Long then price == base + distance else base - price == distance
  }

  /** The targets are one and three units of risk away, breakeven the fees for both ways and the funding. */
  lemma PlanTargets(i: PlanInput, fee: real, funding: real)
    requires fee == if i.feeRate.Some? && i.feeRate.value >= 0.0 then i.feeRate.value else 0.001
    requires funding == if i.fundingRate.Some? && i.fundingRate.value >= 0.0 then i.fundingRate.value else 0.0005
    ensures var p := Compute(i);
      && Beyond(p.side, p.entry, RiskOf(p), p.tp1) && Beyond(p.side, p.entry, 3.0 * RiskOf(p), p.tp2)
      && Beyond(p.side, p.entry, CarryOf(p.entry, fee, funding), p.breakevenPlus)
  {
    PlanFields(i);
    RiskIs(i);
    CarryIs(i, fee, funding);
  }

  /** Fees for both ways, and the funding. */
  function CarryOf(entry: real, fee: real, funding: real): real { entry * (2.0 * fee + funding) }

  lemma CarryIs(i: PlanInput, fee: real, funding: real)
    requires fee == OrElse(ParseNonNegative(i.feeRate), DEFAULT_FEE_RATE)
    requires funding == OrElse(ParseNonNegative(i.fundingRate), DEFAULT_FUNDING_BUFFER)
    ensures CarryOf(Entry(i), fee, funding) == Carry(i)
  {
  }

  /** The quantity is the largest that keeps both bounds: the loss at the stop within the risk capital, and the notional
      within the limit. */
  predicate LargestWithin(q: real, entry: real, risk: real, equity: real, fraction: real, limit: real) {
    && q >= 0.0 && q * risk <= equity * fraction && q * entry <= equity * limit
    && (if entry > 0.0 && risk > 0.0 then q * risk == equity * fraction || q * entry == equity * limit else q == 0.0)
  }

  /** The leverage is what the notional takes, at least one. */
  predicate LeverageTaken(leverage: real, quantity: real, entry: real, equity: real) {
    if quantity * entry <= equity then leverage == 1.0 else leverage * equity == quantity * entry
  }

  lemma PlanSizing(i: PlanInput, equity: real, fraction: real, limit: real)
    requires Given(i.accountEquity, 10000.0, equity) && Given(i.riskCapitalFraction, 0.01, fraction) && IsLimit(i, limit)
    ensures var p := Compute(i);
      && p.riskCapital == equity * fraction
      && LargestWithin(p.quantity, p.entry, RiskOf(p), equity, fraction, limit)
      && LeverageTaken(p.leverage, p.quantity, p.entry, equity)
      && p.leverage <= (if limit > 1.0 then limit else 1.0)
  {
    PlanFields(i);
    RiskIs(i);
    LimitIsCap(i, limit);
    assert equity == Equity(i) && fraction == Fraction(i);
    SizeIsLargest(Entry(i), Risk(i), equity, fraction, limit);
    SizeLeverage(Entry(i), Risk(i), equity, fraction, limit);
  }

  lemma LimitIsCap(i: PlanInput, limit: real)
    requires IsLimit(i, limit)
    ensures limit == LeverageCap(i) && 0.0 < limit <= HARD_MAX_LEVERAGE
  {
  }

  lemma SizeIsLargest(entry: real, risk: real, equity: real, fraction: real, cap: real)
    requires equity > 0.0 && fraction > 0.0 && 0.0 < cap <= HARD_MAX_LEVERAGE && risk >= 0.0 && entry >= 0.0
    ensures LargestWithin(SizeOf(entry, risk, equity, fraction, cap).quantity, entry, risk, equity, fraction, cap)
  {
    SizeBounds(entry, risk, equity, fraction, cap);
    if entry > 0.0 && risk > 0.0 {
      QuantityIsMin(entry, risk, equity, fraction, cap);
      QuotientTimes(equity * fraction, risk);
      QuotientTimes(equity * cap, entry);
    } else if entry > 0.0 {
      assert equity * cap > 0.0;
      QuotientSign(equity * cap, entry);
    }
  }

  lemma SizeLeverage(entry: real, risk: real, equity: real, fraction: real, cap: real)
    requires equity > 0.0 && fraction > 0.0 && 0.0 < cap <= HARD_MAX_LEVERAGE && risk >= 0.0
    ensures var s := SizeOf(entry, risk, equity, fraction, cap);
      && LeverageTaken(s.leverage, s.quantity, entry, equity)
      && s.leverage <= (if cap > 1.0 then cap else 1.0)
  {
    var s := SizeOf(entry, risk, equity, fraction, cap);
    SizeBounds(entry, risk, equity, fraction, cap);
    NotionalWithin(s, entry, risk, equity, fraction, cap);
    LeverageFrom(entry, risk, equity, fraction, cap);
    LeverageFits(s.leverage, s.quantity, entry, equity, cap);
  }

  /** The notional is within the limit. */
  predicate Affordable(quantity: real, entry: real, equity: real, cap: real) { quantity * entry <= equity * cap }

  /** The leverage the notional takes, cut to between one and the cap. */
  predicate ClampedTo(leverage: real, quantity: real, entry: real, equity: real, cap: real)
    requires equity > 0.0
  {
    leverage == MaxR(1.0, MinR(cap, quantity * entry / equity))
  }

  lemma NotionalWithin(s: Size, entry: real, risk: real, equity: real, fraction: real, cap: real)
    requires WithinLimits(s, entry, risk, equity, fraction, cap)
    ensures Affordable(s.quantity, entry, equity, cap)
  {
  }

  lemma LeverageFrom(entry: real, risk: real, equity: real, fraction: real, cap: real)
    requires equity > 0.0
    ensures var s := SizeOf(entry, risk, equity, fraction, cap); ClampedTo(s.leverage, s.quantity, entry, equity, cap)
  {
    LeverageOf(entry, risk, equity, fraction, cap, SizeOf(entry, risk, equity, fraction, cap).quantity * entry / equity);
  }

  lemma LeverageFits(leverage: real, quantity: real, entry: real, equity: real, cap: real)
    requires equity > 0.0 && cap > 0.0
    requires Affordable(quantity, entry, equity, cap) && ClampedTo(leverage, quantity, entry, equity, cap)
    ensures LeverageTaken(leverage, quantity, entry, equity) && leverage <= (if cap > 1.0 then cap else 1.0)
  {
    LeverageClamp(leverage, quantity * entry, equity, cap);
  }

  lemma LeverageClamp(leverage: real, notional: real, equity: real, cap: real)
    requires equity > 0.0 && cap > 0.0 && notional <= equity * cap && leverage == MaxR(1.0, MinR(cap, notional / equity))
    ensures if notional <= equity then leverage == 1.0 else leverage * equity == notional
    ensures leverage <= (if cap > 1.0 then cap else 1.0)
  {
    QuotientTimes(notional, equity);
    QuotientCompare(notional, equity, cap);
    QuotientCompare(notional, equity, 1.0);
  }

  /** The buffer is there exactly when the entry is positive and the venue's liquidation price, or else the price one
      part in `leverage` away from it, lies at least twice as far from it as the stop. */
  predicate HasBuffer(entry: real, risk: real, leverage: real, given: Option<real>) {
    && entry > 0.0
    && if given.Some? && given.value > 0.0 then 2.0 * risk <= given.value - entry || 2.0 * risk <= entry - given.value
       else 2.0 * risk * leverage <= entry
  }

  lemma PlanBuffer(i: PlanInput)
    ensures var p := Compute(i);
      p.liquidationBufferSatisfied <==> HasBuffer(p.entry, RiskOf(p), p.leverage, i.liquidationPrice)
  {
    PlanFields(i);
    RiskIs(i);
    BufferIs(i, Entry(i), Risk(i), PlanSize(i).leverage, Liquidation(i));
  }

  lemma BufferIs(i: PlanInput, entry: real, risk: real, leverage: real, liquidation: real)
    requires risk >= 0.0 && leverage >= 1.0
    requires liquidation == if i.liquidationPrice.Some? && i.liquidationPrice.value > 0.0 then i.liquidationPrice.value
                            else EstimatedLiquidation(Side(i), entry, leverage)
    ensures Buffered(LiquidationDistance(entry, liquidation), StopDistance(entry, risk))
            <==> HasBuffer(entry, risk, leverage, i.liquidationPrice)
  {
    if entry > 0.0 {
      if i.liquidationPrice.Some? && i.liquidationPrice.value > 0.0 {
        GivenBuffer(entry, risk, liquidation);
      } else {
        EstimateBuffer(Side(i), entry, risk, leverage);
      }
    }
  }

  lemma GivenBuffer(entry: real, risk: real, liquidation: real)
    requires entry > 0.0 && risk >= 0.0
    ensures Buffered(LiquidationDistance(entry, liquidation), StopDistance(entry, risk))
            <==> 2.0 * risk <= liquidation - entry || 2.0 * risk <= entry - liquidation
  {
    BufferProduct(Abs(entry - liquidation), risk, entry);
  }

  lemma EstimateBuffer(side: TradeSide, entry: real, risk: real, leverage: real)
    requires entry > 0.0 && risk >= 0.0 && leverage >= 1.0
    ensures Buffered(LiquidationDistance(entry, EstimatedLiquidation(side, entry, leverage)), StopDistance(entry, risk))
            <==> 2.0 * risk * leverage <= entry
  {
    EstimatedDistance(side, entry, leverage);
    EstimatedBuffer(risk, entry, leverage);
  }

  lemma BufferProduct(distance: real, risk: real, entry: real)
    requires entry > 0.0
    ensures Buffered(distance / entry, risk / entry) <==> 2.0 * risk <= distance
  {
    QuotientTimes(risk, entry);
    QuotientCompare(distance, entry, risk / entry * 2.0);
    assert risk / entry * 2.0 * entry == 2.0 * risk;
  }

  lemma EstimatedBuffer(risk: real, entry: real, leverage: real)
    requires entry > 0.0 && leverage >= 1.0
    ensures Buffered(1.0 / leverage, risk / entry) <==> 2.0 * risk * leverage <= entry
  {
    var s := risk / entry;
    QuotientTimes(risk, entry);
    QuotientCompare(1.0, leverage, s * 2.0);
    assert s * 2.0 * leverage * entry == 2.0 * risk * leverage;
    if s * 2.0 * leverage <= 1.0 { ProductOrder(s * 2.0 * leverage, 1.0, entry); }
    if 2.0 * risk * leverage <= entry { CancelFactor(s * 2.0 * leverage, 1.0, entry); }
  }

  /** The risk capital would buy more than the limit allows, or there is no price to buy at. */
  predicate MustCap(entry: real, risk: real, fraction: real, limit: real) {
    risk > 0.0 && (entry <= 0.0 || fraction * entry > limit * risk)
  }

  /** Each mark, exactly when it is set. */
  lemma PlanMarks(i: PlanInput, structural: real, equity: real, fraction: real, limit: real, v: Violation)
    requires Given(i.stopLoss, 0.0, structural)
    requires Given(i.accountEquity, 10000.0, equity) && Given(i.riskCapitalFraction, 0.01, fraction) && IsLimit(i, limit)
    ensures var p := Compute(i);
      v in p.violations <==>
        match v
        case DirectionUnavailable => i.longScore == i.shortScore
        case SideConflict => p.side != i.intentSide
        case EntryUnavailable => p.entry <= 0.0
        case StopUnavailable => structural <= 0.0
        case RiskUnavailable => p.entry == p.stopLoss
        case QuantityUnavailable => p.entry <= 0.0 || p.entry == p.stopLoss
        case QuantityCapped => MustCap(p.entry, RiskOf(p), fraction, limit)
        case LeverageExceeded => false
        case LiquidationBufferFailed => !p.liquidationBufferSatisfied
  {
    PlanFields(i);
    RiskIs(i);
    LimitIsCap(i, limit);
    SizeMarks(Entry(i), Risk(i), equity, fraction, limit);
    MarksOf(i, Risk(i), PlanSize(i), BufferSatisfied(i), v);
  }

  lemma MarksOf(i: PlanInput, risk: real, size: Size, safe: bool, v: Violation)
    ensures v in Violations(i, risk, size, safe) <==>
      match v
      case DirectionUnavailable => i.longScore == i.shortScore
      case SideConflict => Side(i) != i.intentSide
      case EntryUnavailable => Entry(i) <= 0.0
      case StopUnavailable => StructuralStop(i) <= 0.0
      case RiskUnavailable => risk <= 0.0
      case QuantityUnavailable => size.quantity <= 0.0
      case QuantityCapped => size.uncapped > size.capped
      case LeverageExceeded => size.leverage > HARD_MAX_LEVERAGE
      case LiquidationBufferFailed => !safe
  {
    MarkInUnion(Dominant(i) == None, Side(i) != i.intentSide, Entry(i) <= 0.0, StructuralStop(i) <= 0.0, risk <= 0.0,
                size.quantity <= 0.0, size.uncapped > size.capped, size.leverage > HARD_MAX_LEVERAGE, !safe, v);
  }

  lemma NoteHas(before: set<Violation>, when: bool, v: Violation, w: Violation)
    ensures w in before + Note(when, v) <==> w in before || (when && w == v)
  {
  }

  lemma MarkInUnion(a: bool, b: bool, c: bool, d: bool, e: bool, f: bool, g: bool, h: bool, k: bool, v: Violation)
    ensures v in Note(a, DirectionUnavailable) + Note(b, SideConflict) + Note(c, EntryUnavailable)
                 + Note(d, StopUnavailable) + Note(e, RiskUnavailable) + Note(f, QuantityUnavailable)
                 + Note(g, QuantityCapped) + Note(h, LeverageExceeded) + Note(k, LiquidationBufferFailed) <==>
      match v
      case DirectionUnavailable => a
      case SideConflict => b
      case EntryUnavailable => c
      case StopUnavailable => d
      case RiskUnavailable => e
      case QuantityUnavailable => f
      case QuantityCapped => g
      case LeverageExceeded => h
      case LiquidationBufferFailed => k
  {
    var s1 := Note(a, DirectionUnavailable);
    var s2 := s1 + Note(b, SideConflict);
    var s3 := s2 + Note(c, EntryUnavailable);
    var s4 := s3 + Note(d, StopUnavailable);
    var s5 := s4 + Note(e, RiskUnavailable);
    var s6 := s5 + Note(f, QuantityUnavailable);
    var s7 := s6 + Note(g, QuantityCapped);
    var s8 := s7 + Note(h, LeverageExceeded);
    NoteHas(s1, b, SideConflict, v);
    NoteHas(s2, c, EntryUnavailable, v);
    NoteHas(s3, d, StopUnavailable, v);
    NoteHas(s4, e, RiskUnavailable, v);
    NoteHas(s5, f, QuantityUnavailable, v);
    NoteHas(s6, g, QuantityCapped, v);
    NoteHas(s7, h, LeverageExceeded, v);
    NoteHas(s8, k, LiquidationBufferFailed, v);
  }

  lemma SizeMarks(entry: real, risk: real, equity: real, fraction: real, cap: real)
    requires equity > 0.0 && fraction > 0.0 && 0.0 < cap <= HARD_MAX_LEVERAGE && risk >= 0.0 && entry >= 0.0
    ensures var s := SizeOf(entry, risk, equity, fraction, cap);
      && (s.quantity <= 0.0 <==> entry <= 0.0 || risk <= 0.0)
      && (s.uncapped > s.capped <==> MustCap(entry, risk, fraction, cap))
  {
    if entry > 0.0 && risk > 0.0 {
      QuantityPositive(entry, risk, equity, fraction, cap);
      CapAsProduct(entry, risk, equity, fraction, cap);
    } else if entry > 0.0 {
      assert equity * cap > 0.0;
      QuotientSign(equity * cap, entry);
    } else if risk > 0.0 {
      assert equity * fraction > 0.0;
      QuotientSign(equity * fraction, risk);
    }
  }

  lemma CapAsProduct(entry: real, risk: real, equity: real, fraction: real, cap: real)
    requires entry > 0.0 && risk > 0.0 && equity > 0.0 && fraction > 0.0 && cap > 0.0
    ensures CapBinds(entry, risk, equity, fraction, cap) <==> fraction * entry > cap * risk
  {
    var a, b := equity * fraction / risk, equity * cap / entry;
    QuotientTimes(equity * fraction, risk);
    QuotientTimes(equity * cap, entry);
    CrossTimes(a, equity * fraction, risk, entry);
    CrossTimes(b, equity * cap, entry, risk);
    OrderBothWays(a, b, risk * entry);
    OrderBothWays(fraction * entry, cap * risk, equity);
  }

  lemma CrossTimes(q: real, x: real, y: real, z: real)
    requires q * y == x
    ensures q * (y * z) == x * z
  {
  }

  lemma OrderBothWays(x: real, y: real, k: real)
    requires k > 0.0
    ensures x > y <==> x * k > y * k
  {
    assert (x - y) * k == x * k - y * k;
    if x > y { assert (x - y) * k > 0.0; } else { assert (y - x) * k >= 0.0; }
  }
}
