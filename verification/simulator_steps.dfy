/** What each event does to a backtest, in terms of prices and levels, and which events a position has lived through. */
module SimulatorSteps {
  import opened Common
  import opened Simulator

  // ------------------------------------------------------------ prices and levels

  predicate TouchesStop(p: Position, high: real, low: real) {
    (p.side == Long && low <= p.stopLoss) || (p.side == Short && high >= p.stopLoss)
  }

  predicate TouchesTarget(p: Position, high: real, low: real) {
    (p.side == Long && high >= p.takeProfit) || (p.side == Short && low <= p.takeProfit)
  }

  /** The price has gone one risk unit in favour. */
  predicate TouchesLock(p: Position, high: real, low: real) {
    (p.side == Long && high - p.entry >= p.riskPerUnit) || (p.side == Short && p.entry - low >= p.riskPerUnit)
  }

  predicate TimeIsOver(p: Position, ts: real) {
    p.ttlMs != 0.0 && p.openedAt + p.ttlMs < ts
  }

  /** The position that an intent becomes at a price. */
  predicate Opened(p: Position, i: Intent, ts: real, price: real) {
    && p.side == i.side && p.stopLoss == i.stopLoss && p.takeProfit == i.takeProfit && p.ttlMs == i.ttlMs
    && (i.entry == None ==> p.entry == price) && (i.entry.Some? ==> p.entry == i.entry.value)
    && (p.riskPerUnit == p.entry - p.stopLoss >= 0.0 || p.riskPerUnit == p.stopLoss - p.entry >= 0.0)
    && p.openedAt == ts && p.reachedLockAt == None && LockInPlace(p)
  }

  /** The lock price lies one risk unit on the winning side. */
  predicate LockInPlace(p: Position) {
    p.breakevenLockPrice == if p.side == Long then p.entry + p.riskPerUnit else p.entry - p.riskPerUnit
  }

  /** The same position, with the first touch of the lock noted. */
  predicate Noted(p: Position, q: Position, ts: real, high: real, low: real) {
    && q == p.(reachedLockAt := q.reachedLockAt)
    && (p.reachedLockAt.Some? ==> q.reachedLockAt == p.reachedLockAt)
    && (p.reachedLockAt == None ==> q.reachedLockAt == if TouchesLock(p, high, low) then Some(ts) else None)
  }

  /** A trade that left at a price, with all its figures. */
  predicate LeftAt(t: Trade, q: Position, ts: real, price: real, reason: ExitReason) {
    && t.position == q && t.closedAt == ts && t.exitPrice == price && t.exitReason == reason
    && (q.side == Long ==> t.pnl == price - q.entry) && (q.side == Short ==> t.pnl == q.entry - price)
    && (q.riskPerUnit > 0.0 ==> t.rMultiple * q.riskPerUnit == t.pnl) && (q.riskPerUnit <= 0.0 ==> t.rMultiple == 0.0)
    && (t.reachedLock <==> q.reachedLockAt.Some?)
    && (q.reachedLockAt == None ==> t.timeToOneR == None)
    && (q.reachedLockAt.Some? ==> t.timeToOneR == Some(q.reachedLockAt.value - q.openedAt))
    && (t.closedInNegativePnl <==> t.pnl < 0.0)
  }

  /** One more trade in the ledger, and no position any more. */
  predicate Leaves(s: State, r: State, q: Position, ts: real, price: real, reason: ExitReason) {
    && r.position == None && |r.ledger| == |s.ledger| + 1 && r.ledger[..|s.ledger|] == s.ledger
    && LeftAt(r.ledger[|s.ledger|], q, ts, price, reason)
  }

  predicate StaysOpen(s: State, r: State, q: Position) {
    r.position == Some(q) && r.ledger == s.ledger
  }

  /** What an open position makes of a range of prices. A level that is touched closes it at the level; of both, the stop
      if `stopFirst`; else an old position leaves at the middle; else it stays. */
  ghost predicate Met(s: State, r: State, p: Position, ts: real, high: real, low: real, stopFirst: bool) {
    exists q: Position :: Noted(p, q, ts, high, low)
      && var sl, tp := TouchesStop(p, high, low), TouchesTarget(p, high, low);
        && (sl && (!tp || stopFirst) ==> Leaves(s, r, q, ts, p.stopLoss, Sl))
        && (tp && (!sl || !stopFirst) ==> Leaves(s, r, q, ts, p.takeProfit, Tp))
        && (!sl && !tp && TimeIsOver(p, ts) ==> Leaves(s, r, q, ts, (high + low) / 2.0, Ttl))
        && (!sl && !tp && !TimeIsOver(p, ts) ==> StaysOpen(s, r, q))
  }

  predicate Later(before: real, ts: real, after: real) {
    after == if ts > before then ts else before
  }

  // ------------------------------------------------------------ one event

  /** The lock price of the position of a state is in place. */
  predicate Placed(s: State) {
    s.position.Some? ==> LockInPlace(s.position.value)
  }

  lemma TickMeets(s: State, r: State, p: Position, ts: real, price: real)
    requires LockInPlace(p) && s.pending == None && s.position == Some(p) && r == Mark(s, ts, price)
    ensures Met(s, r, p, ts, price, price, false)
  {
    var q := TrackLock(p, ts, price, price);
    assert Noted(p, q, ts, price, price);
    TradeFigures(q, ts, p.takeProfit, Tp);
    TradeFigures(q, ts, p.stopLoss, Sl);
    TradeFigures(q, ts, price, Ttl);
  }

  lemma TradeFigures(q: Position, ts: real, price: real, reason: ExitReason)
    ensures LeftAt(TradeOf(q, ts, price, reason), q, ts, price, reason)
  {
  }

  lemma BarMeets(pessimistic: bool, s: State, r: State, p: Position, ts: real, high: real, low: real)
    requires LockInPlace(p) && s.position == Some(p) && r == SettleBar(pessimistic, s, ts, high, low)
    ensures Met(s, r, p, ts, high, low, pessimistic)
  {
    var q := TrackLock(p, ts, high, low);
    assert Noted(p, q, ts, high, low);
    TradeFigures(q, ts, p.takeProfit, Tp);
    TradeFigures(q, ts, p.stopLoss, Sl);
    TradeFigures(q, ts, (high + low) / 2.0, Ttl);
  }

  /** A price: a pending intent is filled at it; an open position meets it, the target before the stop; else only the
      clock moves. */
  lemma TickMeans(pessimistic: bool, s: State, ts: real, price: real)
    requires Placed(s)
    ensures var r := Step(pessimistic, s, OnPrice(ts, price));
      && Later(s.clock, ts, r.clock) && r.pending == None
      && (s.pending.Some? ==> r.position.Some? && Opened(r.position.value, s.pending.value, ts, price) && r.ledger == s.ledger)
      && (s.pending == None && s.position == None ==> r.position == None && r.ledger == s.ledger)
      && (s.pending == None && s.position.Some? ==> Met(s, r, s.position.value, ts, price, price, false))
  {
    if s.pending == None && s.position.Some? {
      TickMeets(s, Step(pessimistic, s, OnPrice(ts, price)), s.position.value, ts, price);
    }
  }

  /** A bar: a pending intent is filled at the middle; then the position, new or old, meets the bar, the stop before the
      target for the pessimist. */
  lemma BarMeans(pessimistic: bool, s: State, ts: real, high: real, low: real)
    requires Placed(s)
    ensures var r := Step(pessimistic, s, OnBar(ts, high, low));
      && Later(s.clock, ts, r.clock) && r.pending == None
      && (s.pending.Some? ==> exists p :: Opened(p, s.pending.value, ts, (high + low) / 2.0) && Met(s, r, p, ts, high, low, pessimistic))
      && (s.pending == None && s.position == None ==> r.position == None && r.ledger == s.ledger)
      && (s.pending == None && s.position.Some? ==> Met(s, r, s.position.value, ts, high, low, pessimistic))
  {
    var a := OpenAtBar(Advance(s, ts), ts, (high + low) / 2.0);
    FilledAtBar(s, a, ts, (high + low) / 2.0);
    BarSettles(pessimistic, s, a, ts, high, low);
    if s.pending.Some? { assert Opened(a.position.value, s.pending.value, ts, (high + low) / 2.0); }
  }

  lemma FilledAtBar(s: State, a: State, ts: real, mid: real)
    requires Placed(s) && a == OpenAtBar(Advance(s, ts), ts, mid)
    ensures Placed(a) && Later(s.clock, ts, a.clock) && a.pending == None && a.ledger == s.ledger
    ensures s.pending.Some? ==> a.position.Some? && Opened(a.position.value, s.pending.value, ts, mid)
    ensures s.pending == None ==> a.position == s.position
  {
  }

  lemma BarSettles(pessimistic: bool, s: State, a: State, ts: real, high: real, low: real)
    requires a == OpenAtBar(Advance(s, ts), ts, (high + low) / 2.0) && a.pending == None && a.ledger == s.ledger && Placed(a)
    ensures var r := Step(pessimistic, s, OnBar(ts, high, low));
      && r.clock == a.clock && r.pending == None
      && (a.position == None ==> r.position == None && r.ledger == s.ledger)
      && (a.position.Some? ==> Met(s, r, a.position.value, ts, high, low, pessimistic))
  {
    var r := Step(pessimistic, s, OnBar(ts, high, low));
    assert r == SettleBar(pessimistic, a, ts, high, low);
    if a.position.Some? {
      BarMeets(pessimistic, a, r, a.position.value, ts, high, low);
      MetSame(a, s, r, a.position.value, ts, high, low, pessimistic);
    }
  }

  /** What a position meets depends on the ledger only. */
  lemma MetSame(a: State, s: State, r: State, p: Position, ts: real, high: real, low: real, stopFirst: bool)
    requires a.ledger == s.ledger && Met(a, r, p, ts, high, low, stopFirst)
    ensures Met(s, r, p, ts, high, low, stopFirst)
  {
  }

  /** An intent flips an open position out at its entry, and waits; the clock alone moves nothing else. */
  lemma OthersMean(pessimistic: bool, s: State, i: Intent, ts: real)
    ensures var r := Step(pessimistic, s, OnIntent(i));
      && r.clock == s.clock && r.pending == Some(i) && r.position == None
      && (s.position == None ==> r.ledger == s.ledger)
      && (s.position.Some? ==> Leaves(s, r, s.position.value, s.clock, s.position.value.entry, Flip))
    ensures var r := Step(pessimistic, s, OnClock(ts));
      && Later(s.clock, ts, r.clock) && r.pending == s.pending && r.position == s.position && r.ledger == s.ledger
  {
    if s.position.Some? { TradeFigures(s.position.value, s.clock, s.position.value.entry, Flip); }
  }

  // ------------------------------------------------------------ whole runs

  lemma {:induction false} AlwaysPlaced(pessimistic: bool, es: seq<Event>)
    ensures Placed(Run(pessimistic, es))
  {
    if es != [] {
      var n := |es| - 1;
      AlwaysPlaced(pessimistic, es[..n]);
      StepPlaced(pessimistic, Run(pessimistic, es[..n]), es[n]);
    }
  }

  lemma StepPlaced(pessimistic: bool, s: State, e: Event)
    requires Placed(s)
    ensures Placed(Step(pessimistic, s, e))
  {
    match e
    case OnClock(ts) =>
    case OnIntent(i) => OthersMean(pessimistic, s, i, 0.0);
    case OnPrice(ts, price) => TickMeans(pessimistic, s, ts, price);
    case OnBar(ts, high, low) => BarMeans(pessimistic, s, ts, high, low);
  }

  /** The last event but clock ticks is this intent. */
  predicate WaitsSince(es: seq<Event>, m: nat, i: Intent) {
    m < |es| && es[m] == OnIntent(i) && forall j | m < j < |es| :: es[j].OnClock?
  }

  ghost predicate Waits(es: seq<Event>, i: Intent) {
    exists m: nat :: WaitsSince(es, m, i)
  }

  /** An intent waits exactly while nothing but clock ticks has come after it. */
  lemma {:induction false} PendingIff(pessimistic: bool, es: seq<Event>, i: Intent)
    ensures Run(pessimistic, es).pending == Some(i) <==> Waits(es, i)
  {
    if es != [] {
      var n := |es| - 1;
      var s := Run(pessimistic, es[..n]);
      PendingIff(pessimistic, es[..n], i);
      AlwaysPlaced(pessimistic, es[..n]);
      match es[n]
      case OnClock(ts) => WaitsOn(es, i);
      case OnIntent(x) =>
        OthersMean(pessimistic, s, x, 0.0);
        if x == i { assert WaitsSince(es, n, i); }
      case OnPrice(ts, price) => TickMeans(pessimistic, s, ts, price);
      case OnBar(ts, high, low) => BarMeans(pessimistic, s, ts, high, low);
    }
  }

  lemma WaitsOn(es: seq<Event>, i: Intent)
    requires es != [] && es[|es| - 1].OnClock?
    ensures Waits(es, i) <==> Waits(es[..|es| - 1], i)
  {
    var n := |es| - 1;
    if m: nat :| WaitsSince(es, m, i) { assert WaitsSince(es[..n], m, i); }
    if m: nat :| WaitsSince(es[..n], m, i) {
      forall j | m < j < |es| ensures es[j].OnClock? { assert j < n ==> es[..n][j].OnClock?; }
      assert WaitsSince(es, m, i);
    }
  }

  /** An event that the position outlives: no intent comes, neither level is touched, and it is not too old. The price
      that fills it does not count, but a bar does. */
  predicate Spares(e: Event, fills: bool, p: Position) {
    match e
    case OnClock(_) => !fills
    case OnIntent(_) => false
    case OnPrice(ts, x) => fills || (!TouchesStop(p, x, x) && !TouchesTarget(p, x, x) && !TimeIsOver(p, ts))
    case OnBar(ts, high, low) => !TouchesStop(p, high, low) && !TouchesTarget(p, high, low) && !TimeIsOver(p, ts)
  }

  predicate Outlives(es: seq<Event>, k: nat, p: Position) {
    k < |es| && forall j | k <= j < |es| :: Spares(es[j], j == k, p)
  }

  /** When an event shows the lock. */
  function LockShown(e: Event, fills: bool, p: Position): Option<real> {
    match e
    case OnPrice(ts, x) => if !fills && TouchesLock(p, x, x) then Some(ts) else None
    case OnBar(ts, high, low) => if TouchesLock(p, high, low) then Some(ts) else None
    case _ => None
  }

  /** The first time since the fill that the price went one risk unit in favour. */
  function FirstLock(es: seq<Event>, k: nat, p: Position): Option<real> {
    if |es| <= k then None
    else
      var n := |es| - 1;
      var before := FirstLock(es[..n], k, p);
      if before.Some? then before else LockShown(es[n], n == k, p)
  }

  /** The event fills the intent as this position, but for its lock. */
  predicate Fills(e: Event, i: Intent, p: Position) {
    match e
    case OnPrice(ts, x) => Opened(p.(reachedLockAt := None), i, ts, x)
    case OnBar(ts, high, low) => Opened(p.(reachedLockAt := None), i, ts, (high + low) / 2.0)
    case _ => false
  }

  /** The position is that of the intent at `m`, filled by the event at `k`, has outlived every event since, and has the
      first lock among them noted. */
  ghost predicate Lives(es: seq<Event>, m: nat, k: nat, p: Position) {
    && k < |es| && m < k && es[m].OnIntent? && WaitsSince(es[..k], m, es[m].intent) && Fills(es[k], es[m].intent, p)
    && Outlives(es, k, p) && p.reachedLockAt == FirstLock(es, k, p)
  }

  /** Levels and times do not depend on the lock. */
  lemma LockIsApart(e: Event, fills: bool, i: Intent, p: Position, lock: Option<real>)
    ensures var q := p.(reachedLockAt := lock);
      && (Spares(e, fills, p) <==> Spares(e, fills, q)) && (Fills(e, i, p) <==> Fills(e, i, q))
      && LockShown(e, fills, p) == LockShown(e, fills, q)
  {
  }

  lemma {:induction false} FirstLockApart(es: seq<Event>, k: nat, p: Position, lock: Option<real>)
    ensures FirstLock(es, k, p) == FirstLock(es, k, p.(reachedLockAt := lock))
  {
    if |es| > k { FirstLockApart(es[..|es| - 1], k, p, lock); }
  }

  lemma OutlivesApart(es: seq<Event>, k: nat, p: Position, lock: Option<real>)
    ensures Outlives(es, k, p) <==> Outlives(es, k, p.(reachedLockAt := lock))
  {
    if k < |es| {
      forall j | k <= j < |es| ensures Spares(es[j], j == k, p) <==> Spares(es[j], j == k, p.(reachedLockAt := lock)) {}
    }
  }

  /** The position before an event that it outlived. */
  function BeforeLock(es: seq<Event>, k: nat, p: Position): Position
    requires es != []
  {
    p.(reachedLockAt := FirstLock(es[..|es| - 1], k, p))
  }

  /** Living through one more event: having lived up to it, being spared by it, and noting its lock. */
  lemma LivesOn(es: seq<Event>, m: nat, k: nat, p: Position)
    requires es != [] && k < |es| - 1
    ensures Lives(es, m, k, p) <==>
      && Lives(es[..|es| - 1], m, k, BeforeLock(es, k, p)) && Spares(es[|es| - 1], false, p)
      && p.reachedLockAt == FirstLock(es, k, p)
  {
    var n := |es| - 1;
    var lock := FirstLock(es[..n], k, p);
    assert es[..n][..k] == es[..k];
    LockIsApart(es[k], true, if m < k && es[m].OnIntent? then es[m].intent else Intent(Long, None, 0.0, 0.0, 0.0), p, lock);
    FirstLockApart(es[..n], k, p, lock);
    OutlivesApart(es[..n], k, p, lock);
    OutlivesOn(es, k, p);
  }

  lemma OutlivesOn(es: seq<Event>, k: nat, p: Position)
    requires es != [] && k < |es| - 1
    ensures Outlives(es, k, p) <==> Outlives(es[..|es| - 1], k, p) && Spares(es[|es| - 1], false, p)
  {
    var n := |es| - 1;
    if Outlives(es, k, p) {
      forall j | k <= j < n ensures Spares(es[..n][j], j == k, p) { assert Spares(es[j], j == k, p); }
    }
    if Outlives(es[..n], k, p) && Spares(es[n], false, p) {
      forall j | k <= j < |es| ensures Spares(es[j], j == k, p) {
        if j < n { assert Spares(es[..n][j], j == k, p); }
      }
    }
  }

  ghost predicate Living(es: seq<Event>, p: Position) {
    exists m: nat, k: nat :: Lives(es, m, k, p)
  }

  // ---- one event, as the runs see it

  predicate FilledBy(e: Event, i: Intent, p: Position) {
    Fills(e, i, p) && Spares(e, true, p) && p.reachedLockAt == LockShown(e, true, p)
  }

  function Aged(q: Position, e: Event): Position {
    if q.reachedLockAt.Some? then q else q.(reachedLockAt := LockShown(e, false, q))
  }

  lemma OpenedOnce(p: Position, q: Position, i: Intent, ts: real, price: real)
    requires Opened(p, i, ts, price) && Opened(q, i, ts, price)
    ensures p == q
  {
  }

  lemma MetStays(s: State, r: State, p: Position, ts: real, high: real, low: real, stopFirst: bool, q: Position)
    requires Met(s, r, p, ts, high, low, stopFirst)
    ensures r.position == Some(q) <==>
      && !TouchesStop(p, high, low) && !TouchesTarget(p, high, low) && !TimeIsOver(p, ts)
      && q == if p.reachedLockAt.Some? then p else p.(reachedLockAt := if TouchesLock(p, high, low) then Some(ts) else None)
  {
  }

  /** After an event a position is open exactly if it was filled by it or stayed open through it. */
  lemma OpenAfter(pessimistic: bool, s: State, e: Event, p: Position)
    requires Placed(s) && Exclusive(s)
    ensures Step(pessimistic, s, e).position == Some(p) <==>
      || (s.pending.Some? && FilledBy(e, s.pending.value, p))
      || (s.position.Some? && Spares(e, false, s.position.value) && p == Aged(s.position.value, e))
  {
    match e
    case OnClock(ts) => OthersMean(pessimistic, s, Intent(Long, None, 0.0, 0.0, 0.0), ts);
    case OnIntent(i) => OthersMean(pessimistic, s, i, 0.0);
    case OnPrice(ts, x) => OpenAfterTick(pessimistic, s, ts, x, p);
    case OnBar(ts, high, low) => OpenAfterBar(pessimistic, s, ts, high, low, p);
  }

  lemma OpenAfterTick(pessimistic: bool, s: State, ts: real, x: real, p: Position)
    requires Placed(s) && Exclusive(s)
    ensures var e := OnPrice(ts, x);
      Step(pessimistic, s, e).position == Some(p) <==>
        || (s.pending.Some? && FilledBy(e, s.pending.value, p))
        || (s.position.Some? && Spares(e, false, s.position.value) && p == Aged(s.position.value, e))
  {
    var r := Step(pessimistic, s, OnPrice(ts, x));
    TickMeans(pessimistic, s, ts, x);
    if s.pending.Some? {
      if FilledBy(OnPrice(ts, x), s.pending.value, p) { OpenedOnce(p.(reachedLockAt := None), r.position.value, s.pending.value, ts, x); }
    } else if s.position.Some? {
      MetStays(s, r, s.position.value, ts, x, x, false, p);
    }
  }

  lemma OpenAfterBar(pessimistic: bool, s: State, ts: real, high: real, low: real, p: Position)
    requires Placed(s) && Exclusive(s)
    ensures var e := OnBar(ts, high, low);
      Step(pessimistic, s, e).position == Some(p) <==>
        || (s.pending.Some? && FilledBy(e, s.pending.value, p))
        || (s.position.Some? && Spares(e, false, s.position.value) && p == Aged(s.position.value, e))
  {
    var r := Step(pessimistic, s, OnBar(ts, high, low));
    BarMeans(pessimistic, s, ts, high, low);
    if s.pending.Some? {
      var q :| Opened(q, s.pending.value, ts, (high + low) / 2.0) && Met(s, r, q, ts, high, low, pessimistic);
      MetStays(s, r, q, ts, high, low, pessimistic, p);
      FilledByBar(s.pending.value, q, p, ts, high, low);
    } else if s.position.Some? {
      MetStays(s, r, s.position.value, ts, high, low, pessimistic, p);
    }
  }

  lemma FilledByBar(i: Intent, q: Position, p: Position, ts: real, high: real, low: real)
    requires Opened(q, i, ts, (high + low) / 2.0)
    ensures FilledBy(OnBar(ts, high, low), i, p) <==>
      && !TouchesStop(q, high, low) && !TouchesTarget(q, high, low) && !TimeIsOver(q, ts)
      && p == q.(reachedLockAt := if TouchesLock(q, high, low) then Some(ts) else None)
  {
    var e := OnBar(ts, high, low);
    if FilledBy(e, i, p) {
      OpenedOnce(p.(reachedLockAt := None), q, i, ts, (high + low) / 2.0);
      LockIsApart(e, true, i, p, None);
    }
  }

  // ---- and the histories

  lemma FilledNow(pessimistic: bool, es: seq<Event>, p: Position)
    requires es != []
    ensures var n := |es| - 1; var s := Run(pessimistic, es[..n]);
      (exists m: nat :: Lives(es, m, n, p)) <==> s.pending.Some? && FilledBy(es[n], s.pending.value, p)
  {
    var n := |es| - 1;
    var s := Run(pessimistic, es[..n]);
    assert FirstLock(es[..n], n, p) == None;
    if m: nat :| Lives(es, m, n, p) {
      PendingIff(pessimistic, es[..n], es[m].intent);
      assert WaitsSince(es[..n], m, es[m].intent) && Spares(es[n], true, p);
    }
    if s.pending.Some? && FilledBy(es[n], s.pending.value, p) {
      PendingIff(pessimistic, es[..n], s.pending.value);
      var m: nat :| WaitsSince(es[..n], m, s.pending.value);
      assert Lives(es, m, n, p);
    }
  }

  lemma LivedOn(es: seq<Event>, p: Position, q: Position, m: nat, k: nat)
    requires es != [] && Lives(es[..|es| - 1], m, k, q) && Spares(es[|es| - 1], false, q) && p == Aged(q, es[|es| - 1])
    ensures Lives(es, m, k, p)
  {
    var n := |es| - 1;
    LockIsApart(es[n], false, Intent(Long, None, 0.0, 0.0, 0.0), q, p.reachedLockAt);
    FirstLockApart(es[..n], k, q, p.reachedLockAt);
    LivesOn(es, m, k, p);
  }

  lemma LivedBefore(es: seq<Event>, p: Position, m: nat, k: nat) returns (q: Position)
    requires es != [] && k < |es| - 1 && Lives(es, m, k, p)
    ensures Lives(es[..|es| - 1], m, k, q) && Spares(es[|es| - 1], false, q) && p == Aged(q, es[|es| - 1])
  {
    var n := |es| - 1;
    q := BeforeLock(es, k, p);
    LivesOn(es, m, k, p);
    LockIsApart(es[n], false, Intent(Long, None, 0.0, 0.0, 0.0), p, q.reachedLockAt);
  }

  /** Over every run, for both ways of settling: a position is open exactly if it is that of an intent that was the last
      word before a price or a bar filled it, no intent came since, no price or bar since touched its stop or its target
      or came after its time, nor did the bar that filled it; and its lock is the first time since then that the price
      went one risk unit in favour. */
  lemma {:induction false} OpenIff(pessimistic: bool, es: seq<Event>, p: Position)
    ensures Run(pessimistic, es).position == Some(p) <==> Living(es, p)
  {
    if es != [] {
      var n := |es| - 1;
      var s := Run(pessimistic, es[..n]);
      NeverPendingAndOpen(pessimistic, es[..n]);
      AlwaysPlaced(pessimistic, es[..n]);
      OpenAfter(pessimistic, s, es[n], p);
      FilledNow(pessimistic, es, p);
      if s.position.Some? {
        var q := s.position.value;
        OpenIff(pessimistic, es[..n], q);
        var m: nat, k: nat :| Lives(es[..n], m, k, q);
        if Spares(es[n], false, q) && p == Aged(q, es[n]) { LivedOn(es, p, q, m, k); }
      }
      if m: nat, k: nat :| Lives(es, m, k, p) {
        if k < n {
          var q := LivedBefore(es, p, m, k);
          OpenIff(pessimistic, es[..n], q);
        }
      }
    }
  }
}
