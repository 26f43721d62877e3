/** What a new closed bar makes of the raid event of a pool, and the score of a confirmation, in terms of candles. */
module LiquidityBars {
  import opened Common
  import opened Candles
  import opened SwingPoolDiscovery
  import opened LiquidityPoolRegistry
  import opened LiquidityEngine
  import opened LiquidityStep
  import opened LiquidityPrices

  // ------------------------------------------------------------ the opposite displacement

  /** The bodies of the last `k` bars. */
  function BodySum(cs: seq<Candle>, k: nat): real
    requires k <= |cs|
  {
    if k == 0 then 0.0 else BodySum(cs[..|cs| - 1], k - 1) + Apart(cs[|cs| - 1].close, cs[|cs| - 1].open)
  }

  /** The last closed minute moves against the raid, with a body of more than one and a half times the mean of the last
      ten, or of all if there are fewer. */
  predicate TurnsAway(minutes: seq<Candle>, side: Side) {
    |minutes| >= 3 &&
    var closed := minutes[..|minutes| - 1];
    var n := if |closed| < 10 then |closed| else 10;
    var last := closed[|closed| - 1];
    && Outweighs(Apart(last.close, last.open), BodySum(closed, n), n as real, 1.5)
    && ((side == BuySide && last.close < last.open) || (side == SellSide && last.close > last.open))
  }

  lemma {:induction false} BodiesAre(cs: seq<Candle>, k: nat)
    requires k <= |cs|
    ensures Sum(Bodies(cs[|cs| - k..])) == BodySum(cs, k) && |Bodies(cs[|cs| - k..])| == k
  {
    var slice := cs[|cs| - k..];
    if k > 0 {
      var n := |cs| - 1;
      BodiesAre(cs[..n], k - 1);
      assert slice[..k - 1] == cs[..n][n - (k - 1)..] && slice[k - 1] == cs[n];
      SumSnoc(Bodies(slice[..k - 1]), Abs(slice[k - 1].close - slice[k - 1].open));
    }
  }

  lemma MeanBodyIs(closed: seq<Candle>, n: nat)
    requires n == (if |closed| < 10 then |closed| else 10) && n >= 1
    ensures Mean(Bodies(LastRows(closed, 10))) == BodySum(closed, n) / n as real
  {
    assert LastRows(closed, 10) == closed[|closed| - n..];
    BodiesAre(closed, n);
  }

  lemma DisplacementUnfolds(closed: seq<Candle>, mean: real, body: real)
    requires |closed| >= 2 && mean == Mean(Bodies(LastRows(closed, 10)))
    requires body == Apart(closed[|closed| - 1].close, closed[|closed| - 1].open)
    ensures DisplacementPresent(closed, 10) <==> LouderThan(body, mean, 1.5)
  {
  }

  lemma DisplacementIs(closed: seq<Candle>, n: nat, sum: real, body: real)
    requires |closed| >= 2 && n == if |closed| < 10 then |closed| else 10
    requires sum == BodySum(closed, n) && body == Apart(closed[|closed| - 1].close, closed[|closed| - 1].open)
    ensures DisplacementPresent(closed, 10) <==> Outweighs(body, sum, n as real, 1.5)
  {
    MeanBodyIs(closed, n);
    var mean := Mean(Bodies(LastRows(closed, 10)));
    DisplacementUnfolds(closed, mean, body);
    LouderIs(body, sum, n as real, 1.5);
  }

  lemma OppositeIs(minutes: seq<Candle>, side: Side)
    ensures OppositeDisplacement(minutes, side) <==> TurnsAway(minutes, side)
  {
    if |minutes| >= 3 {
      var closed := minutes[..|minutes| - 1];
      var n := if |closed| < 10 then |closed| else 10;
      var last := closed[|closed| - 1];
      DisplacementIs(closed, n, BodySum(closed, n), Apart(last.close, last.open));
    }
  }

  // ------------------------------------------------------------ the score

  function PointsIf(b: bool, points: int): int { if b then points else 0 }

  /** The deepest penetration lies between eight and thirty hundredths of a percent and in the band. */
  predicate Sweet(ev: RaidEvent, atr: real, cfg: EngineConfig) {
    var deepest := if ev.maxPenetrationPct.Some? then ev.maxPenetrationPct.value else 0.0;
    0.08 <= deepest <= 0.3 && InBand(deepest, atr, cfg)
  }

  /** The score of a confirmation: points for a pool of three pivots or more, a sweet penetration, a loud bar, the
      opposite displacement, a structure shift against the raid, a pool younger than half an hour, and a strong one. */
  function ScoreOf(closed: seq<Candle>, input: StepInput, cfg: EngineConfig, p: Pool, ev: RaidEvent, atr: real): int {
    PointsIf(p.pivotCount >= 3, 2) + PointsIf(Sweet(ev, atr, cfg), 2) + PointsIf(Loud(closed, cfg), 2)
    + PointsIf(TurnsAway(input.ltf1m, p.side), 3)
    + PointsIf(cfg.structureMssBonus && input.mss == (if p.side == BuySide then Bearish else Bullish), 2)
    + PointsIf(input.nowMs < p.createdAtBarTs + 1_800_000, 1) + PointsIf(p.strength > 0.65, 1)
  }

  lemma SweetIs(closed: seq<Candle>, cfg: EngineConfig, deepest: real, atr: real)
    requires IsVolatility(closed, atr)
    ensures SweetSpot(deepest, PenetrationBand(closed, cfg)) <==> 0.08 <= deepest <= 0.3 && InBand(deepest, atr, cfg)
  {
    VolatilityIs(closed);
    VolatilityOnce(closed, atr, AtrPercent(closed, 14));
    BandIs(closed, cfg, deepest, atr);
  }

  lemma ScoreWeighs(i: ScoreInput)
    ensures Score(i) == PointsIf(i.pivotCount >= 3, 2) + PointsIf(i.sweetSpot, 2) + PointsIf(i.volumeSpike, 2)
                        + PointsIf(i.displacementOpposite, 3)
                        + PointsIf(i.structureBonus && i.mss == (if i.side == BuySide then Bearish else Bullish), 2)
                        + PointsIf(i.freshPool, 1) + PointsIf(i.strength > 0.65, 1)
  {
    ScoreIsSum(i);
  }

  /** The view a bar gets of a pool and its event, from candles, price levels and counts alone. */
  lemma ViewMeans(closed: seq<Candle>, input: StepInput, cfg: EngineConfig, p: Pool, ev: RaidEvent, atr: real)
    requires IsVolatility(closed, atr)
    ensures var view := BarViews(closed, input, cfg)(p, ev);
      (view.opposite <==> TurnsAway(input.ltf1m, p.side)) && view.score == ScoreOf(closed, input, cfg, p, ev, atr)
  {
    var deepest := if ev.maxPenetrationPct.Some? then ev.maxPenetrationPct.value else 0.0;
    OppositeIs(input.ltf1m, p.side);
    LoudIs(closed, cfg);
    SweetIs(closed, cfg, deepest, atr);
    ScoreWeighs(ScoreInput(
      p.pivotCount, p.side, p.strength, cfg.structureMssBonus, input.mss, OppositeDisplacement(input.ltf1m, p.side),
      SweetSpot(deepest, PenetrationBand(closed, cfg)), VolumeSpike(closed, cfg), input.nowMs - p.createdAtBarTs < 1_800_000));
  }

  // ------------------------------------------------------------ one event, one bar

  /** The bar closes beyond the level, or beyond it and back inside. */
  predicate ClosesBeyond(p: Pool, bar: Candle) {
    (p.side == BuySide && bar.close > p.price) || (p.side == SellSide && bar.close < p.price)
  }

  predicate ClosesBack(p: Pool, bar: Candle) {
    (p.side == BuySide && bar.high > p.price && bar.close < p.price) || (p.side == SellSide && bar.low < p.price && bar.close > p.price)
  }

  /** The event after the bar, if it stays. */
  function Watched(ev: RaidEvent, p: Pool, bar: Candle, step: nat): RaidEvent {
    ev.(barsSinceSweep := ev.barsSinceSweep + 1,
        acceptances := if ClosesBeyond(p, bar) then ev.acceptances + 1 else 0,
        rejectionSeen := ev.rejectionSeen || ClosesBack(p, bar),
        shown := ev.shown + [Shown(p, bar, step)])
  }

  /** A swept event is broken out of when enough bars in a row closed beyond the level, is otherwise confirmed by an
      opposite displacement once a bar has closed back inside, and otherwise runs out after too many bars. */
  predicate BreaksOut(ev: RaidEvent, p: Pool, bar: Candle, cfg: EngineConfig, step: nat) {
    Watched(ev, p, bar, step).acceptances >= cfg.acceptanceHoldBars
  }

  predicate IsConfirmed(ev: RaidEvent, p: Pool, bar: Candle, view: BarView, cfg: EngineConfig, step: nat) {
    !BreaksOut(ev, p, bar, cfg, step) && Watched(ev, p, bar, step).rejectionSeen && view.opposite
  }

  predicate Watching(ev: RaidEvent, p: Pool, bar: Candle, view: BarView, cfg: EngineConfig, step: nat) {
    && !BreaksOut(ev, p, bar, cfg, step) && !IsConfirmed(ev, p, bar, view, cfg, step)
    && Watched(ev, p, bar, step).barsSinceSweep <= cfg.maxRejectionBars
  }

  lemma OnBarMeans(ev: RaidEvent, p: Pool, bar: Candle, view: BarView, cfg: EngineConfig, step: nat)
    ensures var o, next := OnBar(ev, p, bar, view, cfg, step), Watched(ev, p, bar, step);
      && (o == BrokenOut <==> BreaksOut(ev, p, bar, cfg, step))
      && (o == Confirms(next.(state := ConfirmedState), view.score) <==> IsConfirmed(ev, p, bar, view, cfg, step))
      && (o.Confirms? <==> IsConfirmed(ev, p, bar, view, cfg, step))
      && (o == Kept(next) <==> Watching(ev, p, bar, view, cfg, step)) && (o.Kept? <==> o == Kept(next))
  {
  }

  /** The first pool with the id of an event, if there is one. */
  predicate FirstPool(pools: seq<Pool>, id: PoolId, i: nat) {
    && i <= |pools| && (forall k | 0 <= k < i :: pools[k].id != id) && (i < |pools| ==> pools[i].id == id)
  }

  lemma FirstPoolIs(pools: seq<Pool>, id: PoolId, i: nat)
    requires FirstPool(pools, id, i)
    ensures FirstWithId(pools, id) == i
  {
  }

  /** Only the pools of other events have changed. */
  ghost predicate SpareOthers(pools: seq<Pool>, before: seq<Pool>, events: seq<RaidEvent>) {
    && |pools| == |before| && SamePlaces(pools, before)
    && forall k | 0 <= k < |pools| && !HasId(events, pools[k].id) :: pools[k] == before[k]
  }

  /** The event of a pool after a bar: unless it is swept and its first pool is of the bar's timeframe it stays; without a
      pool a swept one goes; else it goes or stays as the bar decides. */
  function AfterBar(
      before: Option<RaidEvent>, pools: seq<Pool>, i: nat, timeframe: string, bar: Candle,
      view: (Pool, RaidEvent) -> BarView, cfg: EngineConfig, step: nat): Option<RaidEvent>
    requires i <= |pools|
  {
    if before == None || before.value.state != Swept then before
    else if i == |pools| then None
    else if pools[i].timeframe != timeframe then before
    else if Watching(before.value, pools[i], bar, view(pools[i], before.value), cfg, step)
    then Some(Watched(before.value, pools[i], bar, step))
    else None
  }

  /** The event has this bar's verdict: it is swept and its first pool is of the timeframe. */
  predicate Judged(before: Option<RaidEvent>, pools: seq<Pool>, i: nat, timeframe: string) {
    before.Some? && before.value.state == Swept && i < |pools| && pools[i].timeframe == timeframe
  }

  predicate IsBroken(before: Option<RaidEvent>, pools: seq<Pool>, i: nat, timeframe: string, bar: Candle, cfg: EngineConfig, step: nat) {
    Judged(before, pools, i, timeframe) && BreaksOut(before.value, pools[i], bar, cfg, step)
  }

  /** What the bar confirms of the event, if anything. */
  predicate Confirming(
      c: Confirmation, before: Option<RaidEvent>, pools: seq<Pool>, i: nat, timeframe: string, bar: Candle,
      view: (Pool, RaidEvent) -> BarView, cfg: EngineConfig, step: nat)
  {
    && Judged(before, pools, i, timeframe)
    && var v := view(pools[i], before.value);
      && IsConfirmed(before.value, pools[i], bar, v, cfg, step)
      && c == Confirmation(Watched(before.value, pools[i], bar, step).(state := ConfirmedState), v.score, step)
  }

  /** The confirmations of `r` that are not yet in `st`. */
  function NewOnes(st: PairState, r: PairState): seq<Confirmation>
    requires st.confirmations <= r.confirmations
  {
    r.confirmations[|st.confirmations|..]
  }

  /** The pool of the event is invalidated exactly by a breakout, and exactly what the bar confirms is recorded for it. */
  ghost predicate Settled(
      st: PairState, r: PairState, events: seq<RaidEvent>, timeframe: string, bar: Candle,
      view: (Pool, RaidEvent) -> BarView, cfg: EngineConfig, id: PoolId, i: nat)
  {
    var before := Stored(events, id);
    && st.confirmations <= r.confirmations
    && (i < |st.pools| ==>
          i < |r.pools| && r.pools[i] == if IsBroken(before, st.pools, i, timeframe, bar, cfg, st.step)
                                         then st.pools[i].(status := Invalidated) else st.pools[i])
    && forall c: Confirmation | c.event.poolId == id ::
        c in NewOnes(st, r) <==> Confirming(c, before, st.pools, i, timeframe, bar, view, cfg, st.step)
  }

  lemma LastStored(events: seq<RaidEvent>, id: PoolId)
    requires events != [] && OneEventPerPool(events)
    ensures var n := |events| - 1;
      Stored(events, id) == if events[n].poolId == id then Some(events[n]) else Stored(events[..n], id)
    ensures events[|events| - 1].poolId == id ==> Stored(events[..|events| - 1], id) == None
    ensures OneEventPerPool(events[..|events| - 1])
  {
    var n := |events| - 1;
    assert events == events[..n] + [events[n]];
    forall k | 0 <= k < n ensures events[..n][k].poolId != events[n].poolId {}
    NoneStored(events[..n], events[n].poolId);
    AddedStored(events[..n], events[n], id);
  }

  lemma PushStored(events: seq<RaidEvent>, source: seq<RaidEvent>, ev: RaidEvent, id: PoolId)
    requires source != [] && OneEventPerPool(source) && OneEventPerPool(events) && IdsFrom(events, source[..|source| - 1])
    requires ev.poolId == source[|source| - 1].poolId
    ensures Stored(events + [ev], id) == if ev.poolId == id then Some(ev) else Stored(events, id)
    ensures OneEventPerPool(events + [ev]) && IdsFrom(events + [ev], source) && IdsFrom(events, source)
    ensures Stored(events, ev.poolId) == None
  {
    var n := |source| - 1;
    forall k | 0 <= k < |events| ensures events[k].poolId != ev.poolId {
      assert HasId(source[..n], events[k].poolId);
      var j :| 0 <= j < n && source[..n][j].poolId == events[k].poolId;
      assert source[j].poolId != source[n].poolId;
    }
    NoneStored(events, ev.poolId);
    AddedStored(events, ev, id);
    IdsWiden(events, source);
    assert HasId(source, source[n].poolId);
  }

  /** After the events up to here: each has had its bar, and only their pools have changed. */
  ghost predicate Seen(
      st: PairState, r: PairState, events: seq<RaidEvent>, timeframe: string, bar: Candle,
      view: (Pool, RaidEvent) -> BarView, cfg: EngineConfig, id: PoolId, i: nat)
  {
    && FirstPool(st.pools, id, i)
    && OneEventPerPool(r.events) && IdsFrom(r.events, events) && r.step == st.step
    && SpareOthers(r.pools, st.pools, events)
    && Stored(r.events, id) == AfterBar(Stored(events, id), st.pools, i, timeframe, bar, view, cfg, st.step)
  }

  lemma FirstPoolStays(pools: seq<Pool>, before: seq<Pool>, events: seq<RaidEvent>, id: PoolId, i: nat)
    requires FirstPool(before, id, i) && SpareOthers(pools, before, events) && !HasId(events, id)
    ensures FirstPool(pools, id, i) && (i < |pools| ==> pools[i] == before[i])
  {
    forall k | 0 <= k < i ensures pools[k].id != id { assert SamePlace(pools[k], before[k]); }
    if i < |pools| { assert SamePlace(pools[i], before[i]); }
  }

  /** For the event whose turn it is. */
  lemma EventSees(
      st: PairState, acc: PairState, events: seq<RaidEvent>, timeframe: string, bar: Candle,
      view: (Pool, RaidEvent) -> BarView, cfg: EngineConfig, nowMs: int, id: PoolId, i: nat, k: nat)
    requires events != [] && OneEventPerPool(events) && acc.step == st.step
    requires Seen(st, acc, events[..|events| - 1], timeframe, bar, view, cfg, id, i)
    requires FirstPool(st.pools, events[|events| - 1].poolId, k)
    requires FirstPool(acc.pools, events[|events| - 1].poolId, k) && (k < |st.pools| ==> acc.pools[k] == st.pools[k])
    ensures var ev := events[|events| - 1];
      var r := if ev.state != Swept then acc.(events := acc.events + [ev])
               else if k == |acc.pools| then acc
               else if acc.pools[k].timeframe != timeframe then acc.(events := acc.events + [ev])
               else SettleBar(acc, k, OnBar(ev, acc.pools[k], bar, view(acc.pools[k], ev), cfg, st.step), cfg, nowMs);
      Seen(st, r, events, timeframe, bar, view, cfg, id, i)
  {
    var n := |events| - 1;
    var ev := events[n];
    LastStored(events, id);
    PushStored(acc.events, events, ev, id);
    WidenSpare(acc.pools, st.pools, events);
    if ev.poolId == id { FirstPoolOnce(st.pools, id, i, k); }
    if ev.state == Swept && k < |acc.pools| && acc.pools[k].timeframe == timeframe {
      var o := OnBar(ev, acc.pools[k], bar, view(acc.pools[k], ev), cfg, st.step);
      OnBarMeans(ev, acc.pools[k], bar, view(acc.pools[k], ev), cfg, st.step);
      if o.Kept? { PushStored(acc.events, events, o.event, id); }
      if o.BrokenOut? { BrokenSpares(acc.pools, st.pools, events, k); }
    }
  }

  lemma FirstPoolOnce(pools: seq<Pool>, id: PoolId, i: nat, k: nat)
    requires FirstPool(pools, id, i) && FirstPool(pools, id, k)
    ensures i == k
  {
  }

  lemma WidenSpare(pools: seq<Pool>, before: seq<Pool>, events: seq<RaidEvent>)
    requires events != [] && SpareOthers(pools, before, events[..|events| - 1])
    ensures SpareOthers(pools, before, events)
  {
    forall k | 0 <= k < |pools| && !HasId(events, pools[k].id) ensures pools[k] == before[k] {
      HasIdWidens(events, pools[k].id);
    }
  }

  lemma HasIdWidens(events: seq<RaidEvent>, id: PoolId)
    requires events != []
    ensures HasId(events[..|events| - 1], id) ==> HasId(events, id)
  {
    if HasId(events[..|events| - 1], id) {
      var k :| 0 <= k < |events| - 1 && events[..|events| - 1][k].poolId == id;
      assert events[k].poolId == id;
    }
  }

  lemma BrokenSpares(pools: seq<Pool>, before: seq<Pool>, events: seq<RaidEvent>, k: nat)
    requires events != [] && SpareOthers(pools, before, events) && k < |pools| && pools[k].id == events[|events| - 1].poolId
    ensures SpareOthers(pools[k := pools[k].(status := Invalidated)], before, events)
  {
    var after := pools[k := pools[k].(status := Invalidated)];
    assert HasId(events, pools[k].id);
    forall j | 0 <= j < |after| ensures SamePlace(after[j], before[j]) { assert SamePlace(pools[j], before[j]); }
  }

  lemma Recorded(st: PairState, acc: PairState, c: Confirmation, r: PairState)
    requires st.confirmations <= acc.confirmations && r.confirmations == acc.confirmations + [c]
    ensures st.confirmations <= r.confirmations && NewOnes(st, r) == NewOnes(st, acc) + [c]
  {
  }

  lemma EventSettles(
      st: PairState, acc: PairState, events: seq<RaidEvent>, timeframe: string, bar: Candle,
      view: (Pool, RaidEvent) -> BarView, cfg: EngineConfig, nowMs: int, id: PoolId, i: nat, k: nat)
    requires events != [] && OneEventPerPool(events) && acc.step == st.step && FirstPool(st.pools, id, i)
    requires Settled(st, acc, events[..|events| - 1], timeframe, bar, view, cfg, id, i)
    requires |acc.pools| == |st.pools| && FirstPool(st.pools, events[|events| - 1].poolId, k)
    requires FirstPool(acc.pools, events[|events| - 1].poolId, k) && (k < |st.pools| ==> acc.pools[k] == st.pools[k])
    ensures var ev := events[|events| - 1];
      var r := if ev.state != Swept then acc.(events := acc.events + [ev])
               else if k == |acc.pools| then acc
               else if acc.pools[k].timeframe != timeframe then acc.(events := acc.events + [ev])
               else SettleBar(acc, k, OnBar(ev, acc.pools[k], bar, view(acc.pools[k], ev), cfg, st.step), cfg, nowMs);
      Settled(st, r, events, timeframe, bar, view, cfg, id, i)
  {
    var ev := events[|events| - 1];
    LastStored(events, id);
    if ev.poolId == id { FirstPoolOnce(st.pools, id, i, k); }
    if ev.state == Swept && k < |acc.pools| && acc.pools[k].timeframe == timeframe {
      var v := view(acc.pools[k], ev);
      OnBarMeans(ev, acc.pools[k], bar, v, cfg, st.step);
      if IsConfirmed(ev, acc.pools[k], bar, v, cfg, st.step) {
        var r := SettleBar(acc, k, OnBar(ev, acc.pools[k], bar, v, cfg, st.step), cfg, nowMs);
        Recorded(st, acc, Confirmation(Watched(ev, acc.pools[k], bar, st.step).(state := ConfirmedState), v.score, st.step), r);
      }
    }
  }

  lemma LastHasNoTwin(events: seq<RaidEvent>)
    requires events != [] && OneEventPerPool(events)
    ensures !HasId(events[..|events| - 1], events[|events| - 1].poolId)
  {
    var n := |events| - 1;
    forall k | 0 <= k < n ensures events[..n][k].poolId != events[n].poolId {}
  }

  function FirstOf(pools: seq<Pool>, id: PoolId): (i: nat)
    ensures FirstPool(pools, id, i)
  {
    if pools == [] || pools[0].id == id then 0 else 1 + FirstOf(pools[1..], id)
  }

  /** For every pair, timeframe and bar, and every pool id: the event of that pool after the bar is what its own bar makes
      of it, whatever the other events of the pair do; its pool is invalidated exactly by a breakout; and exactly what the
      bar confirms of it is recorded. */
  lemma {:induction false} BarMeans(
      st: PairState, events: seq<RaidEvent>, timeframe: string, bar: Candle,
      view: (Pool, RaidEvent) -> BarView, cfg: EngineConfig, nowMs: int, id: PoolId, i: nat)
    requires OneEventPerPool(events) && FirstPool(st.pools, id, i)
    ensures Seen(st, BarPhase(st, events, timeframe, bar, view, cfg, nowMs), events, timeframe, bar, view, cfg, id, i)
    ensures Settled(st, BarPhase(st, events, timeframe, bar, view, cfg, nowMs), events, timeframe, bar, view, cfg, id, i)
  {
    if events != [] {
      var n := |events| - 1;
      LastStored(events, id);
      BarMeans(st, events[..n], timeframe, bar, view, cfg, nowMs, id, i);
      var acc := BarPhase(st, events[..n], timeframe, bar, view, cfg, nowMs);
      var k := FirstOf(st.pools, events[n].poolId);
      LastHasNoTwin(events);
      FirstPoolStays(acc.pools, st.pools, events[..n], events[n].poolId, k);
      FirstPoolIs(acc.pools, events[n].poolId, k);
      EventSees(st, acc, events, timeframe, bar, view, cfg, nowMs, id, i, k);
      EventSettles(st, acc, events, timeframe, bar, view, cfg, nowMs, id, i, k);
    }
  }

  // ------------------------------------------------------------ which bars are shown

  /** The timeframe has a closed bar newer than the last one it showed. */
  predicate Newer(st: PairState, input: StepInput, timeframe: string) {
    && timeframe in input.candles && |input.candles[timeframe]| >= 8
    && var shown := if timeframe in st.lastBar then st.lastBar[timeframe] else 0;
      input.candles[timeframe][|input.candles[timeframe]| - 2].timestamp > shown
  }

  lemma NewerMeans(st: PairState, input: StepInput, timeframe: string)
    ensures HasNewBar(st, input, timeframe) <==> Newer(st, input, timeframe)
  {
  }

  lemma BarPhaseKeepsLast(
      st: PairState, events: seq<RaidEvent>, timeframe: string, bar: Candle,
      view: (Pool, RaidEvent) -> BarView, cfg: EngineConfig, nowMs: int)
    ensures BarPhase(st, events, timeframe, bar, view, cfg, nowMs).lastBar == st.lastBar
    decreases |events|
  {
    if events != [] { BarPhaseKeepsLast(st, events[..|events| - 1], timeframe, bar, view, cfg, nowMs); }
  }

  lemma LastBarAfter(st: PairState, input: StepInput, timeframe: string, cfg: EngineConfig)
    requires HasNewBar(st, input, timeframe)
    ensures var n := |input.candles[timeframe]|;
      n >= 8 && NewBar(st, input, timeframe, cfg).lastBar == st.lastBar[timeframe := input.candles[timeframe][n - 2].timestamp]
  {
    var closed := WithoutLast(CandlesOf(input, timeframe));
    var bar := closed[|closed| - 1];
    var barred := st.(lastBar := st.lastBar[timeframe := bar.timestamp],
                      pools := Refresh(st.pools, closed, timeframe, cfg.registry));
    BarPhaseKeepsLast(barred, barred.events, timeframe, bar, BarViews(closed, input, cfg), cfg, input.nowMs);
  }

  lemma NewBarNoted(st: PairState, input: StepInput, timeframe: string, cfg: EngineConfig)
    requires HasNewBar(st, input, timeframe)
    ensures !Newer(NewBar(st, input, timeframe, cfg), input, timeframe)
    ensures forall tf | tf != timeframe :: Newer(NewBar(st, input, timeframe, cfg), input, tf) <==> Newer(st, input, tf)
  {
    LastBarAfter(st, input, timeframe, cfg);
  }

  /** Each new bar is shown once: afterwards no timeframe of the list has a newer one, and the others are as they were. */
  lemma {:induction false} ShownOnce(st: PairState, input: StepInput, timeframes: seq<string>, cfg: EngineConfig, tf: string)
    ensures var r := Timeframes(st, input, timeframes, cfg).st;
      Newer(r, input, tf) <==> tf !in timeframes && Newer(st, input, tf)
  {
    if timeframes != [] {
      var n := |timeframes| - 1;
      ShownOnce(st, input, timeframes[..n], cfg, tf);
      var acc := Timeframes(st, input, timeframes[..n], cfg);
      NewerMeans(acc.st, input, timeframes[n]);
      assert tf in timeframes <==> tf in timeframes[..n] || tf == timeframes[n] by {
        assert timeframes == timeframes[..n] + [timeframes[n]];
      }
      if HasNewBar(acc.st, input, timeframes[n]) { NewBarNoted(acc.st, input, timeframes[n], cfg); }
    }
  }

  lemma {:induction false} NoneNewer(st: PairState, input: StepInput, timeframes: seq<string>, cfg: EngineConfig)
    requires forall tf | tf in timeframes :: !Newer(st, input, tf)
    ensures Timeframes(st, input, timeframes, cfg) == Advance(st, false)
  {
    if timeframes != [] {
      var n := |timeframes| - 1;
      assert timeframes[n] in timeframes && forall tf | tf in timeframes[..n] :: tf in timeframes;
      NoneNewer(st, input, timeframes[..n], cfg);
      NewerMeans(st, input, timeframes[n]);
    }
  }

  /** The state a price meets: the pools as the bars of this step left them, or decayed if there were none. */
  function BeforePrice(a: Advance, cfg: EngineConfig): PairState {
    if a.advanced then a.st else a.st.(pools := TickDecay(a.st.pools, cfg.registry.tickFactor))
  }

  lemma StepIs(st: PairState, input: StepInput, cfg: EngineConfig)
    requires AnyReady(input, cfg.timeframes)
    ensures StepPair(st, input, cfg)
            == PriceStep(BeforePrice(Timeframes(st.(step := st.step + 1), input, cfg.timeframes, cfg), cfg), input, cfg)
  {
  }

  lemma SameNewer(st: PairState, next: PairState, input: StepInput, tf: string)
    requires next.lastBar == st.lastBar
    ensures Newer(next, input, tf) <==> Newer(st, input, tf)
  {
  }

  lemma OnlyDecayed(st: PairState, cfg: EngineConfig)
    ensures BeforePrice(Advance(st, false), cfg) == st.(pools := TickDecay(st.pools, cfg.registry.tickFactor))
  {
  }

  /** A step without a newer bar shows none: the pools decay, and only the price is looked at. */
  lemma QuietStep(st: PairState, input: StepInput, cfg: EngineConfig)
    requires AnyReady(input, cfg.timeframes) && forall tf | tf in cfg.timeframes :: !Newer(st, input, tf)
    ensures StepPair(st, input, cfg)
            == PriceStep(st.(step := st.step + 1).(pools := TickDecay(st.pools, cfg.registry.tickFactor)), input, cfg)
  {
    var next := st.(step := st.step + 1);
    forall tf | tf in cfg.timeframes ensures !Newer(next, input, tf) { SameNewer(st, next, input, tf); }
    NoneNewer(next, input, cfg.timeframes, cfg);
    StepIs(st, input, cfg);
    OnlyDecayed(next, cfg);
  }
}
