/** The backtest simulator, and the pessimistic against the optimistic run of the same events. */
module Simulator {
  import opened Common

  /** An intent as the backtest hands it over; without an entry price the fill price is taken. */
  datatype Intent = Intent(side: TradeSide, entry: Option<real>, stopLoss: real, takeProfit: real, ttlMs: real)

  datatype Position = Position(
    side: TradeSide, entry: real, stopLoss: real, takeProfit: real, riskPerUnit: real,
    breakevenLockPrice: real, reachedLockAt: Option<real>, openedAt: real, ttlMs: real)

  datatype ExitReason = Tp | Sl | Ttl | Flip

  datatype Trade = Trade(
    position: Position, closedAt: real, exitPrice: real, exitReason: ExitReason, pnl: real, rMultiple: real,
    reachedLock: bool, timeToOneR: Option<real>, closedInNegativePnl: bool)

  datatype State = State(clock: real, position: Option<Position>, pending: Option<Intent>, ledger: seq<Trade>)

  const START := State(0.0, None, None, [])

  function Advance(s: State, ts: real): State {
    if ts > s.clock then s.(clock := ts) else s
  }

  function Pnl(p: Position, exitPrice: real): real {
    if p.side == Long then exitPrice - p.entry else p.entry - exitPrice
  }

  function RMultiple(p: Position, pnl: real): real {
    if p.riskPerUnit > 0.0 then pnl / p.riskPerUnit else 0.0
  }

  function TradeOf(p: Position, ts: real, exitPrice: real, reason: ExitReason): Trade {
    var pnl := Pnl(p, exitPrice);
    Trade(p, ts, exitPrice, reason, pnl, RMultiple(p, pnl), p.reachedLockAt.Some?,
          if p.reachedLockAt.Some? then Some(p.reachedLockAt.value - p.openedAt) else None, pnl < 0.0)
  }

  function Close(s: State, ts: real, exitPrice: real, reason: ExitReason): State {
    match s.position
    case None => s
    case Some(p) => s.(ledger := s.ledger + [TradeOf(p, ts, exitPrice, reason)], position := None)
  }

  function ApplyIntent(s: State, intent: Intent): State {
    var closed := if s.position.Some? then Close(s, s.clock, s.position.value.entry, Flip) else s;
    closed.(pending := Some(intent))
  }

  function Fill(i: Intent, ts: real, price: real): Position {
    var entry := if i.entry.Some? then i.entry.value else price;
    var risk := Abs(entry - i.stopLoss);
    Position(i.side, entry, i.stopLoss, i.takeProfit, risk,
             if i.side == Long then entry + risk else entry - risk, None, ts, i.ttlMs)
  }

  /** Remember the first time the price went one risk unit in favour. */
  function TrackLock(p: Position, ts: real, high: real, low: real): Position {
    if p.reachedLockAt.Some? then p
    else if (if p.side == Long then high >= p.breakevenLockPrice else low <= p.breakevenLockPrice)
    then p.(reachedLockAt := Some(ts)) else p
  }

  predicate TpHit(p: Position, high: real, low: real) {
    if p.side == Long then high >= p.takeProfit else low <= p.takeProfit
  }

  predicate SlHit(p: Position, high: real, low: real) {
    if p.side == Long then low <= p.stopLoss else high >= p.stopLoss
  }

  /** A zero time to live means none. */
  predicate TtlOver(p: Position, ts: real) {
    p.ttlMs != 0.0 && ts - p.openedAt > p.ttlMs
  }

  function Mark(s: State, ts: real, price: real): State {
    var now := Advance(s, ts);
    if now.pending.Some? then now.(position := Some(Fill(now.pending.value, ts, price)), pending := None)
    else if now.position == None then now
    else
      var p := TrackLock(now.position.value, ts, price, price);
      var tracked := now.(position := Some(p));
      if TpHit(p, price, price) then Close(tracked, ts, p.takeProfit, Tp)
      else if SlHit(p, price, price) then Close(tracked, ts, p.stopLoss, Sl)
      else if TtlOver(p, ts) then Close(tracked, ts, price, Ttl)
      else tracked
  }

  /** The open position meets a whole bar; if both levels were touched the pessimist takes the stop. */
  function SettleBar(pessimistic: bool, s: State, ts: real, high: real, low: real): State {
    if s.position == None then s
    else
      var p := TrackLock(s.position.value, ts, high, low);
      var tracked := s.(position := Some(p));
      var sl, tp := SlHit(p, high, low), TpHit(p, high, low);
      if sl && tp then
        if pessimistic then Close(tracked, ts, p.stopLoss, Sl) else Close(tracked, ts, p.takeProfit, Tp)
      else if sl then Close(tracked, ts, p.stopLoss, Sl)
      else if tp then Close(tracked, ts, p.takeProfit, Tp)
      else if TtlOver(p, ts) then Close(tracked, ts, (high + low) / 2.0, Ttl)
      else tracked
  }

  /** A pending intent is filled at the middle of the bar. */
  function OpenAtBar(s: State, ts: real, mid: real): State {
    if s.pending.Some? then Mark(s, ts, mid) else s
  }

  function MarkBar(pessimistic: bool, s: State, ts: real, high: real, low: real): State {
    SettleBar(pessimistic, OpenAtBar(Advance(s, ts), ts, (high + low) / 2.0), ts, high, low)
  }

  datatype Event =
    | OnClock(ts: real)
    | OnIntent(intent: Intent)
    | OnPrice(ts: real, price: real)
    | OnBar(ts: real, high: real, low: real)

  function Step(pessimistic: bool, s: State, e: Event): State {
    match e
    case OnClock(ts) => Advance(s, ts)
    case OnIntent(i) => ApplyIntent(s, i)
    case OnPrice(ts, price) => Mark(s, ts, price)
    case OnBar(ts, high, low) => MarkBar(pessimistic, s, ts, high, low)
  }

  function Run(pessimistic: bool, es: seq<Event>): State {
    if es == [] then START else Step(pessimistic, Run(pessimistic, es[..|es| - 1]), es[|es| - 1])
  }

  // ------------------------------------------------------------ one run

  /** A pending intent and an open position never coexist. */
  ghost predicate Exclusive(s: State) {
    s.pending == None || s.position == None
  }

  lemma {:induction false} NeverPendingAndOpen(pessimistic: bool, es: seq<Event>)
    ensures Exclusive(Run(pessimistic, es))
  {
    if es != [] { NeverPendingAndOpen(pessimistic, es[..|es| - 1]); }
  }

  /** Event times never go back. */
  ghost predicate Timed(pessimistic: bool, es: seq<Event>) {
    forall i | 0 <= i < |es| :: es[i].OnIntent? || es[i].ts >= Run(pessimistic, es[..i]).clock
  }

  ghost predicate TradeTimes(t: Trade) {
    && t.position.openedAt <= t.closedAt
    && (t.reachedLock <==> t.position.reachedLockAt.Some?)
    && (t.reachedLock ==> t.position.openedAt <= t.position.reachedLockAt.value <= t.closedAt && t.timeToOneR.Some? && t.timeToOneR.value >= 0.0)
  }

  ghost predicate OpenTimes(p: Position, clock: real) {
    p.openedAt <= clock && (p.reachedLockAt.Some? ==> p.openedAt <= p.reachedLockAt.value <= clock)
  }

  /** The exit of a trade is what its reason says. */
  ghost predicate ExitAsStated(t: Trade) {
    match t.exitReason
    case Tp => t.exitPrice == t.position.takeProfit
    case Sl => t.exitPrice == t.position.stopLoss
    case Flip => t.exitPrice == t.position.entry && t.pnl == 0.0
    case Ttl => t.closedAt - t.position.openedAt > t.position.ttlMs && t.position.ttlMs != 0.0
  }

  ghost predicate Sound(s: State) {
    && (s.position.Some? ==> OpenTimes(s.position.value, s.clock))
    && (forall t | t in s.ledger :: TradeTimes(t) && ExitAsStated(t) && t.closedAt <= s.clock)
  }

  lemma CloseSound(s: State, ts: real, exitPrice: real, reason: ExitReason)
    requires Sound(s) && ts == s.clock
    requires s.position.Some? ==> ExitAsStated(TradeOf(s.position.value, ts, exitPrice, reason))
    ensures Sound(Close(s, ts, exitPrice, reason))
  {
  }

  lemma FlipSound(s: State, i: Intent)
    requires Sound(s)
    ensures Sound(ApplyIntent(s, i))
  {
    if s.position.Some? {
      var p := s.position.value;
      CloseSound(s, s.clock, p.entry, Flip);
    }
  }

  lemma MarkSound(s: State, ts: real, price: real)
    requires Sound(s) && ts >= s.clock
    ensures Sound(Mark(s, ts, price)) && Mark(s, ts, price).clock == ts
  {
    var now := Advance(s, ts);
    if now.pending == None && now.position.Some? {
      var p := TrackLock(now.position.value, ts, price, price);
      var tracked := now.(position := Some(p));
      if TpHit(p, price, price) { CloseSound(tracked, ts, p.takeProfit, Tp); }
      else if SlHit(p, price, price) { CloseSound(tracked, ts, p.stopLoss, Sl); }
      else if TtlOver(p, ts) { CloseSound(tracked, ts, price, Ttl); }
    }
  }

  lemma SettleBarSound(pessimistic: bool, s: State, ts: real, high: real, low: real)
    requires Sound(s) && ts == s.clock
    ensures Sound(SettleBar(pessimistic, s, ts, high, low))
  {
    if s.position.Some? {
      var p := TrackLock(s.position.value, ts, high, low);
      var tracked := s.(position := Some(p));
      CloseSound(tracked, ts, p.stopLoss, Sl);
      CloseSound(tracked, ts, p.takeProfit, Tp);
      if TtlOver(p, ts) { CloseSound(tracked, ts, (high + low) / 2.0, Ttl); }
    }
  }

  lemma MarkBarSound(pessimistic: bool, s: State, ts: real, high: real, low: real)
    requires Sound(s) && ts >= s.clock
    ensures Sound(MarkBar(pessimistic, s, ts, high, low))
  {
    OpenSound(Advance(s, ts), ts, (high + low) / 2.0);
    SettleBarSound(pessimistic, OpenAtBar(Advance(s, ts), ts, (high + low) / 2.0), ts, high, low);
  }

  lemma OpenSound(s: State, ts: real, mid: real)
    requires Sound(s) && ts == s.clock
    ensures Sound(OpenAtBar(s, ts, mid)) && OpenAtBar(s, ts, mid).clock == ts
  {
    MarkSound(s, ts, mid);
  }

  /** With event times that never go back, every trade opens, may lock, and closes in that order, and leaves
      at the price its reason names. */
  lemma {:induction false} LedgerIsSound(pessimistic: bool, es: seq<Event>)
    requires Timed(pessimistic, es)
    ensures Sound(Run(pessimistic, es))
  {
    if es != [] {
      var n := |es| - 1;
      forall i | 0 <= i < n ensures es[..n][i].OnIntent? || es[..n][i].ts >= Run(pessimistic, es[..n][..i]).clock {
        assert es[..n][..i] == es[..i];
      }
      LedgerIsSound(pessimistic, es[..n]);
      var s := Run(pessimistic, es[..n]);
      match es[n]
      case OnClock(ts) =>
      case OnIntent(i) => FlipSound(s, i);
      case OnPrice(ts, price) => MarkSound(s, ts, price);
      case OnBar(ts, high, low) => MarkBarSound(pessimistic, s, ts, high, low);
    }
  }

  // ------------------------------------------------------------ two runs

  /** The levels of a trade lie in the order its side needs: stop on the losing side of the target. */
  predicate Ordered(p: Position) {
    if p.side == Long then p.stopLoss <= p.takeProfit else p.takeProfit <= p.stopLoss
  }

  /** The same trade, or one that touched both levels in a bar and was settled at opposite ends. */
  ghost predicate Twins(pess: Trade, opt: Trade) {
    || pess == opt
    || (&& pess == TradeOf(pess.position, pess.closedAt, pess.position.stopLoss, Sl)
        && opt == TradeOf(pess.position, pess.closedAt, pess.position.takeProfit, Tp))
  }

  ghost predicate Lockstep(pess: State, opt: State) {
    && pess.clock == opt.clock && pess.position == opt.position && pess.pending == opt.pending
    && |pess.ledger| == |opt.ledger|
    && forall i | 0 <= i < |pess.ledger| :: Twins(pess.ledger[i], opt.ledger[i])
  }

  lemma CloseLockstep(pess: State, opt: State, ts: real, price: real, reason: ExitReason)
    requires Lockstep(pess, opt)
    ensures Lockstep(Close(pess, ts, price, reason), Close(opt, ts, price, reason))
  {
  }

  lemma MarkLockstep(pess: State, opt: State, ts: real, price: real)
    requires Lockstep(pess, opt)
    ensures Lockstep(Mark(pess, ts, price), Mark(opt, ts, price))
  {
    var a, b := Advance(pess, ts), Advance(opt, ts);
    if a.pending == None && a.position.Some? {
      var p := TrackLock(a.position.value, ts, price, price);
      var a', b' := a.(position := Some(p)), b.(position := Some(p));
      CloseLockstep(a', b', ts, p.takeProfit, Tp);
      CloseLockstep(a', b', ts, p.stopLoss, Sl);
      CloseLockstep(a', b', ts, price, Ttl);
    }
  }

  lemma SettleBarLockstep(pess: State, opt: State, ts: real, high: real, low: real)
    requires Lockstep(pess, opt)
    ensures Lockstep(SettleBar(true, pess, ts, high, low), SettleBar(false, opt, ts, high, low))
  {
    if pess.position.Some? {
      var p := TrackLock(pess.position.value, ts, high, low);
      var a, b := pess.(position := Some(p)), opt.(position := Some(p));
      CloseLockstep(a, b, ts, p.takeProfit, Tp);
      CloseLockstep(a, b, ts, p.stopLoss, Sl);
      CloseLockstep(a, b, ts, (high + low) / 2.0, Ttl);
    }
  }

  lemma MarkBarLockstep(pess: State, opt: State, ts: real, high: real, low: real)
    requires Lockstep(pess, opt)
    ensures Lockstep(MarkBar(true, pess, ts, high, low), MarkBar(false, opt, ts, high, low))
  {
    var a, b := Advance(pess, ts), Advance(opt, ts);
    OpenLockstep(a, b, ts, (high + low) / 2.0);
    SettleBarLockstep(OpenAtBar(a, ts, (high + low) / 2.0), OpenAtBar(b, ts, (high + low) / 2.0), ts, high, low);
  }

  lemma OpenLockstep(pess: State, opt: State, ts: real, mid: real)
    requires Lockstep(pess, opt)
    ensures Lockstep(OpenAtBar(pess, ts, mid), OpenAtBar(opt, ts, mid))
  {
    MarkLockstep(pess, opt, ts, mid);
  }

  /** On the same events both runs keep the same clock, pending intent and position at every step, and
      ledgers of equal length whose trades are twins. */
  lemma {:induction false} RunsStayInLockstep(es: seq<Event>)
    ensures Lockstep(Run(true, es), Run(false, es))
  {
    if es != [] {
      var n := |es| - 1;
      RunsStayInLockstep(es[..n]);
      var a, b := Run(true, es[..n]), Run(false, es[..n]);
      match es[n]
      case OnClock(ts) =>
      case OnIntent(i) => if a.position.Some? { CloseLockstep(a, b, a.clock, a.position.value.entry, Flip); }
      case OnPrice(ts, price) => MarkLockstep(a, b, ts, price);
      case OnBar(ts, high, low) => MarkBarLockstep(a, b, ts, high, low);
    }
  }

  /** A worse exit gives a worse profit, and no better R multiple. */
  lemma PnlOrder(p: Position)
    ensures Pnl(p, p.stopLoss) <= Pnl(p, p.takeProfit) <==> Ordered(p)
    ensures Ordered(p) ==> RMultiple(p, Pnl(p, p.stopLoss)) <= RMultiple(p, Pnl(p, p.takeProfit))
  {
    if p.riskPerUnit > 0.0 && Ordered(p) {
      QuotientOrder(Pnl(p, p.stopLoss), Pnl(p, p.takeProfit), p.riskPerUnit);
    }
  }

  lemma QuotientOrder(a: real, b: real, d: real)
    requires a <= b && d > 0.0
    ensures a / d <= b / d
  {
    assert (b - a) / d >= 0.0;
    assert (b - a) / d == b / d - a / d;
  }

  /** Dominance, trade by trade: the pessimistic profit is at most the optimistic one iff the two trades are
      the same or their levels are in order; with ordered levels the R multiple is at most as large too. */
  lemma PessimisticIsNeverBetter(es: seq<Event>, i: nat)
    requires i < |Run(true, es).ledger|
    ensures i < |Run(false, es).ledger|
    ensures var pess, opt := Run(true, es).ledger[i], Run(false, es).ledger[i];
      && (pess.pnl <= opt.pnl <==> pess == opt || Ordered(pess.position))
      && (pess == opt || Ordered(pess.position) ==> pess.rMultiple <= opt.rMultiple)
  {
    RunsStayInLockstep(es);
    var pess, opt := Run(true, es).ledger[i], Run(false, es).ledger[i];
    assert Twins(pess, opt);
    PnlOrder(pess.position);
  }

  /** Every position comes from an applied intent with the same side and levels. */
  ghost predicate FromIntent(p: Position, es: seq<Event>) {
    exists k :: 0 <= k < |es| && es[k].OnIntent? && Carries(p, es[k].intent)
  }

  predicate Carries(p: Position, i: Intent) {
    p.side == i.side && p.stopLoss == i.stopLoss && p.takeProfit == i.takeProfit
  }

  ghost predicate AllFromIntents(s: State, es: seq<Event>) {
    && (s.pending.Some? ==> OnIntent(s.pending.value) in es)
    && (s.position.Some? ==> FromIntent(s.position.value, es))
    && (forall t | t in s.ledger :: FromIntent(t.position, es))
  }

  lemma FromIntentLonger(p: Position, es: seq<Event>, n: nat)
    requires n <= |es| && FromIntent(p, es[..n])
    ensures FromIntent(p, es)
  {
    var k :| 0 <= k < n && es[..n][k].OnIntent? && Carries(p, es[..n][k].intent);
    assert es[k].OnIntent? && Carries(p, es[k].intent);
  }

  lemma {:induction false} PositionsComeFromIntents(pessimistic: bool, es: seq<Event>)
    ensures AllFromIntents(Run(pessimistic, es), es)
  {
    if es != [] {
      var n := |es| - 1;
      PositionsComeFromIntents(pessimistic, es[..n]);
      var before, s := Run(pessimistic, es[..n]), Run(pessimistic, es);
      Widen(before, es);
      StepFromIntents(pessimistic, before, es);
    }
  }

  lemma Widen(s: State, es: seq<Event>)
    requires es != [] && AllFromIntents(s, es[..|es| - 1])
    ensures AllFromIntents(s, es)
  {
    var n := |es| - 1;
    if s.position.Some? { FromIntentLonger(s.position.value, es, n); }
    forall t | t in s.ledger ensures FromIntent(t.position, es) { FromIntentLonger(t.position, es, n); }
  }

  lemma CarriedOn(p: Position, q: Position, es: seq<Event>)
    requires FromIntent(p, es) && p.side == q.side && p.stopLoss == q.stopLoss && p.takeProfit == q.takeProfit
    ensures FromIntent(q, es)
  {
    var k :| 0 <= k < |es| && es[k].OnIntent? && Carries(p, es[k].intent);
    assert Carries(q, es[k].intent);
  }

  lemma MarkFromIntents(s: State, es: seq<Event>, ts: real, price: real)
    requires AllFromIntents(s, es)
    ensures AllFromIntents(Mark(s, ts, price), es)
  {
    if s.pending.Some? {
      var k :| 0 <= k < |es| && es[k] == OnIntent(s.pending.value);
      assert Carries(Fill(s.pending.value, ts, price), es[k].intent);
    } else if s.position.Some? {
      CarriedOn(s.position.value, TrackLock(s.position.value, ts, price, price), es);
    }
  }

  lemma SettleFromIntents(pessimistic: bool, s: State, es: seq<Event>, ts: real, high: real, low: real)
    requires AllFromIntents(s, es)
    ensures AllFromIntents(SettleBar(pessimistic, s, ts, high, low), es)
  {
    if s.position.Some? { CarriedOn(s.position.value, TrackLock(s.position.value, ts, high, low), es); }
  }

  lemma BarFromIntents(pessimistic: bool, s: State, es: seq<Event>, ts: real, high: real, low: real)
    requires AllFromIntents(s, es)
    ensures AllFromIntents(MarkBar(pessimistic, s, ts, high, low), es)
  {
    OpenFromIntents(Advance(s, ts), es, ts, (high + low) / 2.0);
    SettleFromIntents(pessimistic, OpenAtBar(Advance(s, ts), ts, (high + low) / 2.0), es, ts, high, low);
  }

  lemma OpenFromIntents(s: State, es: seq<Event>, ts: real, mid: real)
    requires AllFromIntents(s, es)
    ensures AllFromIntents(OpenAtBar(s, ts, mid), es)
  {
    MarkFromIntents(s, es, ts, mid);
  }

  lemma StepFromIntents(pessimistic: bool, s: State, es: seq<Event>)
    requires es != [] && AllFromIntents(s, es)
    ensures AllFromIntents(Step(pessimistic, s, es[|es| - 1]), es)
  {
    match es[|es| - 1]
    case OnClock(ts) =>
    case OnIntent(i) => assert es[|es| - 1] == OnIntent(i);
    case OnPrice(ts, price) => MarkFromIntents(s, es, ts, price);
    case OnBar(ts, high, low) => BarFromIntents(pessimistic, s, es, ts, high, low);
  }

  predicate ProperIntent(i: Intent) {
    if i.side == Long then i.stopLoss <= i.takeProfit else i.takeProfit <= i.stopLoss
  }

  /** Dominance over a run: if every intent has its stop and target on their proper sides, each pessimistic
      trade has profit and R multiple at most those of its optimistic twin. */
  lemma PessimisticRunIsDominated(es: seq<Event>)
    requires forall k | 0 <= k < |es| && es[k].OnIntent? :: ProperIntent(es[k].intent)
    ensures |Run(true, es).ledger| == |Run(false, es).ledger|
    ensures forall i | 0 <= i < |Run(true, es).ledger| ::
      Run(true, es).ledger[i].pnl <= Run(false, es).ledger[i].pnl && Run(true, es).ledger[i].rMultiple <= Run(false, es).ledger[i].rMultiple
  {
    RunsStayInLockstep(es);
    PositionsComeFromIntents(true, es);
    forall i | 0 <= i < |Run(true, es).ledger|
      ensures Run(true, es).ledger[i].pnl <= Run(false, es).ledger[i].pnl && Run(true, es).ledger[i].rMultiple <= Run(false, es).ledger[i].rMultiple
    {
      var p := Run(true, es).ledger[i].position;
      assert Run(true, es).ledger[i] in Run(true, es).ledger;
      assert FromIntent(p, es);
      var k :| 0 <= k < |es| && es[k].OnIntent? && Carries(p, es[k].intent);
      assert ProperIntent(es[k].intent);
      PessimisticIsNeverBetter(es, i);
    }
  }

  // ------------------------------------------------------------ the mutable simulator

  class Backtest {
    const pessimistic: bool
    var clock: real
    var position: Option<Position>
    var pending: Option<Intent>
    var ledger: seq<Trade>

    constructor (pessimistic: bool)
      ensures this.pessimistic == pessimistic && View() == START
    {
      this.pessimistic := pessimistic;
      clock, position, pending, ledger := 0.0, None, None, [];
    }

    function View(): State
      reads this
    {
      State(clock, position, pending, ledger)
    }

    method AdvanceClock(ts: real)
      modifies this
      ensures View() == Advance(old(View()), ts)
    {
      if ts > clock { clock := ts; }
    }

    method ClosePosition(ts: real, exitPrice: real, reason: ExitReason)
      modifies this
      ensures View() == Close(old(View()), ts, exitPrice, reason)
    {
      if position == None { return; }
      var p := position.value;
      var pnl := (exitPrice - p.entry) * (if p.side == Long then 1.0 else -1.0);
      var rMultiple := if p.riskPerUnit > 0.0 then pnl / p.riskPerUnit else 0.0;
      ledger := ledger + [Trade(p, ts, exitPrice, reason, pnl, rMultiple, p.reachedLockAt.Some?,
        if p.reachedLockAt.Some? then Some(p.reachedLockAt.value - p.openedAt) else None, pnl < 0.0)];
      position := None;
    }

    method ApplyTradeIntent(intent: Intent)
      modifies this
      ensures View() == ApplyIntent(old(View()), intent)
    {
      if position.Some? { ClosePosition(clock, position.value.entry, Flip); }
      pending := Some(intent);
    }

    method TrackBreakevenLock(ts: real, high: real, low: real)
      modifies this
      ensures View() == if old(position) == None then old(View())
                        else old(View()).(position := Some(TrackLock(old(position).value, ts, high, low)))
    {
      if position == None || position.value.reachedLockAt.Some? { return; }
      var p := position.value;
      if p.side == Long && high >= p.breakevenLockPrice {
        position := Some(p.(reachedLockAt := Some(ts)));
        return;
      }
      if p.side == Short && low <= p.breakevenLockPrice {
        position := Some(p.(reachedLockAt := Some(ts)));
      }
    }

    method MarkToMarket(ts: real, price: real)
      modifies this
      ensures View() == Mark(old(View()), ts, price)
    {
      AdvanceClock(ts);
      if pending.Some? {
        position := Some(Fill(pending.value, ts, price));
        pending := None;
        return;
      }
      if position == None { return; }
      TrackBreakevenLock(ts, price, price);
      var p := position.value;
      if TpHit(p, price, price) {
        ClosePosition(ts, p.takeProfit, Tp);
      } else if SlHit(p, price, price) {
        ClosePosition(ts, p.stopLoss, Sl);
      } else if p.ttlMs != 0.0 && ts - p.openedAt > p.ttlMs {
        ClosePosition(ts, price, Ttl);
      }
    }

    method MarkToMarketBar(ts: real, high: real, low: real)
      modifies this
      ensures View() == MarkBar(pessimistic, old(View()), ts, high, low)
    {
      AdvanceClock(ts);
      if pending.Some? { MarkToMarket(ts, (high + low) / 2.0); }
      if position == None { return; }
      TrackBreakevenLock(ts, high, low);
      var p := position.value;
      var slHit := if p.side == Long then low <= p.stopLoss else high >= p.stopLoss;
      var tpHit := if p.side == Long then high >= p.takeProfit else low <= p.takeProfit;
      if slHit && tpHit {
        ClosePosition(ts, if pessimistic then p.stopLoss else p.takeProfit, if pessimistic then Sl else Tp);
        return;
      }
      if slHit {
        ClosePosition(ts, p.stopLoss, Sl);
      } else if tpHit {
        ClosePosition(ts, p.takeProfit, Tp);
      } else if p.ttlMs != 0.0 && ts - p.openedAt > p.ttlMs {
        ClosePosition(ts, (high + low) / 2.0, Ttl);
      }
    }
  }
}
