/** The composite risk filter: rules with memory that judge every strategy signal. */
module RiskFilters {
  import opened Common

  datatype Rule =
    | MinConfidence(threshold: real)
    | MaxConcurrent(cap: int, windowMs: real)
    | PerStrategyMax(cap: int, windowMs: real)
    | Cooldown(cooldownMs: real)
    | Opposing(windowMs: real)
    | DrawdownGate(maxDrawdownPct: real)

  /** One call: the clock, the signal (`side` None is WAIT), who sent it, for which pair, and the account's equity
      (None where its text is no finite number). */
  datatype Request = Request(
    now: real, strategyId: string, pair: string, side: Option<TradeSide>, confidence: real, ttlMs: Option<real>,
    equity: Option<real>)

  datatype Live = Live(strategyId: string, pair: string, side: TradeSide, ts: real, ttlMs: real)

  type Key = (string, TradeSide, string)

  /** What the filter and its rules remember. Rules of one kind see the same calls, so they share their memory. */
  datatype State = State(live: seq<Live>, lastEmit: map<Key, real>, peak: real)

  const START := State([], map[], 0.0)

  function KeyOf(x: Live): Key { (x.strategyId, x.side, x.pair) }

  predicate Alive(x: Live, now: real) { now - x.ts < x.ttlMs }

  /** The records still alive, in order. */
  function Keep(xs: seq<Live>, now: real): seq<Live> {
    if xs == [] then []
    else
      var n := |xs| - 1;
      if Alive(xs[n], now) then Keep(xs[..n], now) + [xs[n]] else Keep(xs[..n], now)
  }

  /** `who` None counts every strategy. */
  predicate Counted(x: Live, cutoff: real, who: Option<string>) {
    x.ts >= cutoff && (who == None || who == Some(x.strategyId))
  }

  function Count(xs: seq<Live>, cutoff: real, who: Option<string>): nat {
    if xs == [] then 0
    else Count(xs[..|xs| - 1], cutoff, who) + if Counted(xs[|xs| - 1], cutoff, who) then 1 else 0
  }

  function Opposite(side: TradeSide): TradeSide {
    if side == Long then Short else Long
  }

  predicate Conflicts(x: Live, side: TradeSide, pair: string, cutoff: real) {
    x.pair == pair && x.side == Opposite(side) && x.ts >= cutoff
  }

  predicate HasConflict(xs: seq<Live>, side: TradeSide, pair: string, cutoff: real) {
    exists k | 0 <= k < |xs| :: Conflicts(xs[k], side, pair, cutoff)
  }

  function Last(lastEmit: map<Key, real>, key: Key): real {
    if key in lastEmit then lastEmit[key] else 0.0
  }

  predicate HasEquity(r: Request) {
    r.side.Some? && r.equity.Some? && r.equity.value > 0.0
  }

  function RaisedPeak(peak: real, r: Request): real {
    if HasEquity(r) && r.equity.value > peak then r.equity.value else peak
  }

  predicate InDrawdown(peak: real, equity: real, maxPct: real) {
    peak > 0.0 && (peak - equity) / peak >= maxPct
  }

  /** One rule's verdict, on expired state and a peak that already includes this call. */
  predicate Passes(rule: Rule, s: State, r: Request) {
    r.side == None ||
    match rule
    case MinConfidence(threshold) => r.confidence >= threshold
    case MaxConcurrent(cap, w) => Count(s.live, r.now - w, None) < cap
    case PerStrategyMax(cap, w) => Count(s.live, r.now - w, Some(r.strategyId)) < cap
    case Cooldown(ms) => r.now - Last(s.lastEmit, (r.strategyId, r.side.value, r.pair)) >= ms
    case Opposing(w) => !HasConflict(s.live, r.side.value, r.pair, r.now - w)
    case DrawdownGate(pct) => HasEquity(r) ==> !InDrawdown(s.peak, r.equity.value, pct)
  }

  predicate HasGate(rules: seq<Rule>) {
    exists k | 0 <= k < |rules| :: rules[k].DrawdownGate?
  }

  /** Expire, and let an installed drawdown gate see the equity. */
  function Judged(rules: seq<Rule>, s: State, r: Request): State {
    State(Keep(s.live, r.now), s.lastEmit, if HasGate(rules) then RaisedPeak(s.peak, r) else s.peak)
  }

  predicate AllPass(rules: seq<Rule>, s: State, r: Request) {
    forall k | 0 <= k < |rules| :: Passes(rules[k], s, r)
  }

  predicate Accepts(rules: seq<Rule>, s: State, r: Request) {
    AllPass(rules, Judged(rules, s, r), r)
  }

  function LiveOf(r: Request, ttlDefault: real): Live
    requires r.side.Some?
  {
    Live(r.strategyId, r.pair, r.side.value, r.now, if r.ttlMs.Some? then r.ttlMs.value else ttlDefault)
  }

  predicate HasCooldown(rules: seq<Rule>) {
    exists k | 0 <= k < |rules| :: rules[k].Cooldown?
  }

  function Recorded(rules: seq<Rule>, s: State, x: Live): State {
    State(s.live + [x], if HasCooldown(rules) then s.lastEmit[KeyOf(x) := x.ts] else s.lastEmit, s.peak)
  }

  function Filter(rules: seq<Rule>, ttlDefault: real, s: State, r: Request): State {
    var judged := Judged(rules, s, r);
    if AllPass(rules, judged, r) && r.side.Some? then Recorded(rules, judged, LiveOf(r, ttlDefault)) else judged
  }

  // ------------------------------------------------------------ runs

  function Run(rules: seq<Rule>, ttlDefault: real, rs: seq<Request>): State {
    if rs == [] then START
    else Filter(rules, ttlDefault, Run(rules, ttlDefault, rs[..|rs| - 1]), rs[|rs| - 1])
  }

  /** The last call of a run let a trade through. */
  predicate LastAccepted(rules: seq<Rule>, ttlDefault: real, rs: seq<Request>)
    requires rs != []
  {
    rs[|rs| - 1].side.Some? && Accepts(rules, Run(rules, ttlDefault, rs[..|rs| - 1]), rs[|rs| - 1])
  }

  /** Every trade ever let through, in order. */
  function Accepted(rules: seq<Rule>, ttlDefault: real, rs: seq<Request>): seq<Live> {
    if rs == [] then []
    else
      var before := Accepted(rules, ttlDefault, rs[..|rs| - 1]);
      if LastAccepted(rules, ttlDefault, rs) then before + [LiveOf(rs[|rs| - 1], ttlDefault)] else before
  }

  ghost predicate NonDecreasing(rs: seq<Request>) {
    forall i, j | 0 <= i < j < |rs| :: rs[i].now <= rs[j].now
  }

  /** A moment not before the last call. */
  predicate NotBefore(q: real, rs: seq<Request>) {
    rs != [] ==> q >= rs[|rs| - 1].now
  }

  /** Accepted trades that at `q` are alive and no older than the window. */
  function InForce(acc: seq<Live>, q: real, windowMs: real, who: Option<string>): nat {
    Count(Keep(acc, q), q - windowMs, who)
  }

  // ------------------------------------------------------------ the memory is the whole history

  lemma KeepOne(xs: seq<Live>, x: Live, now: real)
    ensures Keep(xs + [x], now) == if Alive(x, now) then Keep(xs, now) + [x] else Keep(xs, now)
  {
    assert (xs + [x])[..|xs|] == xs;
  }

  lemma CountOne(xs: seq<Live>, x: Live, cutoff: real, who: Option<string>)
    ensures Count(xs + [x], cutoff, who) == Count(xs, cutoff, who) + if Counted(x, cutoff, who) then 1 else 0
  {
    assert (xs + [x])[..|xs|] == xs;
  }

  /** What expired stays expired. */
  lemma {:induction false} KeepTwice(xs: seq<Live>, a: real, b: real)
    requires a <= b
    ensures Keep(Keep(xs, a), b) == Keep(xs, b)
  {
    if xs != [] {
      var n := |xs| - 1;
      KeepTwice(xs[..n], a, b);
      KeepOne(Keep(xs[..n], a), xs[n], b);
    }
  }

  /** The live list the rules see is the whole accepted history without what has expired. */
  lemma {:induction false} LiveIsHistory(rules: seq<Rule>, ttlDefault: real, rs: seq<Request>, now: real)
    requires NonDecreasing(rs) && NotBefore(now, rs)
    ensures Keep(Run(rules, ttlDefault, rs).live, now) == Keep(Accepted(rules, ttlDefault, rs), now)
  {
    if rs != [] {
      var n := |rs| - 1;
      var before := Run(rules, ttlDefault, rs[..n]);
      LiveIsHistory(rules, ttlDefault, rs[..n], rs[n].now);
      LiveIsHistory(rules, ttlDefault, rs[..n], now);
      KeepTwice(before.live, rs[n].now, now);
      if LastAccepted(rules, ttlDefault, rs) {
        var x := LiveOf(rs[n], ttlDefault);
        KeepOne(Keep(before.live, rs[n].now), x, now);
        KeepOne(Accepted(rules, ttlDefault, rs[..n]), x, now);
      }
    }
  }

  ghost predicate InOrder(acc: seq<Live>, q: real) {
    && (forall i | 0 <= i < |acc| :: acc[i].ts <= q)
    && (forall i, j | 0 <= i < j < |acc| :: acc[i].ts <= acc[j].ts)
  }

  lemma {:induction false} AcceptedInOrder(rules: seq<Rule>, ttlDefault: real, rs: seq<Request>, q: real)
    requires NonDecreasing(rs) && NotBefore(q, rs)
    ensures InOrder(Accepted(rules, ttlDefault, rs), q)
  {
    if rs != [] {
      var n := |rs| - 1;
      AcceptedInOrder(rules, ttlDefault, rs[..n], rs[n].now);
    }
  }

  /** The cooldown memory holds, for every key ever let through, its latest time. */
  ghost predicate LatestKnown(acc: seq<Live>, lastEmit: map<Key, real>) {
    forall i | 0 <= i < |acc| :: KeyOf(acc[i]) in lastEmit && lastEmit[KeyOf(acc[i])] >= acc[i].ts
  }

  lemma {:induction false} MemoryKnowsLatest(rules: seq<Rule>, ttlDefault: real, rs: seq<Request>)
    requires NonDecreasing(rs) && HasCooldown(rules)
    ensures LatestKnown(Accepted(rules, ttlDefault, rs), Run(rules, ttlDefault, rs).lastEmit)
  {
    if rs != [] {
      var n := |rs| - 1;
      MemoryKnowsLatest(rules, ttlDefault, rs[..n]);
      AcceptedInOrder(rules, ttlDefault, rs, rs[n].now);
      var acc := Accepted(rules, ttlDefault, rs);
      if LastAccepted(rules, ttlDefault, rs) {
        assert acc[|acc| - 1] == LiveOf(rs[n], ttlDefault);
      }
    }
  }

  // ------------------------------------------------------------ what the rules guarantee

  /** Trades with the same strategy, side and pair are at least the cooldown apart. */
  ghost predicate Spaced(acc: seq<Live>, cooldownMs: real) {
    forall i, j | 0 <= i < j < |acc| && KeyOf(acc[i]) == KeyOf(acc[j]) :: acc[j].ts - acc[i].ts >= cooldownMs
  }

  lemma {:induction false} CooldownSpaces(rules: seq<Rule>, ttlDefault: real, rs: seq<Request>, cooldownMs: real)
    requires NonDecreasing(rs) && Cooldown(cooldownMs) in rules
    ensures Spaced(Accepted(rules, ttlDefault, rs), cooldownMs)
  {
    if rs != [] {
      var n := |rs| - 1;
      CooldownSpaces(rules, ttlDefault, rs[..n], cooldownMs);
      var k :| 0 <= k < |rules| && rules[k] == Cooldown(cooldownMs);
      MemoryKnowsLatest(rules, ttlDefault, rs[..n]);
      if LastAccepted(rules, ttlDefault, rs) {
        assert Passes(rules[k], Judged(rules, Run(rules, ttlDefault, rs[..n]), rs[n]), rs[n]);
      }
    }
  }

  /** Whoever opposes an earlier trade on its pair finds it expired or out of the window. */
  predicate NoLonger(x: Live, now: real, windowMs: real) {
    now - x.ts >= x.ttlMs || x.ts < now - windowMs
  }

  ghost predicate Unopposed(acc: seq<Live>, windowMs: real) {
    forall i, j | 0 <= i < j < |acc| && acc[i].pair == acc[j].pair && acc[i].side != acc[j].side ::
      NoLonger(acc[i], acc[j].ts, windowMs)
  }

  ghost predicate NoneOpposed(acc: seq<Live>, x: Live, windowMs: real) {
    forall i | 0 <= i < |acc| && acc[i].pair == x.pair && acc[i].side != x.side :: NoLonger(acc[i], x.ts, windowMs)
  }

  lemma UnopposedOne(acc: seq<Live>, x: Live, windowMs: real)
    requires Unopposed(acc, windowMs) && NoneOpposed(acc, x, windowMs)
    ensures Unopposed(acc + [x], windowMs)
  {
  }

  lemma {:induction false} KeepHas(xs: seq<Live>, now: real, i: nat)
    requires i < |xs| && Alive(xs[i], now)
    ensures xs[i] in Keep(xs, now)
  {
    var n := |xs| - 1;
    if i < n { KeepHas(xs[..n], now, i); }
  }

  lemma {:induction false} OpposingNeverOverlaps(rules: seq<Rule>, ttlDefault: real, rs: seq<Request>, windowMs: real)
    requires NonDecreasing(rs) && Opposing(windowMs) in rules
    ensures Unopposed(Accepted(rules, ttlDefault, rs), windowMs)
  {
    if rs != [] {
      var n := |rs| - 1;
      OpposingNeverOverlaps(rules, ttlDefault, rs[..n], windowMs);
      if LastAccepted(rules, ttlDefault, rs) {
        NewcomerUnopposed(rules, ttlDefault, rs, windowMs);
        UnopposedOne(Accepted(rules, ttlDefault, rs[..n]), LiveOf(rs[n], ttlDefault), windowMs);
      }
    }
  }

  lemma NewcomerUnopposed(rules: seq<Rule>, ttlDefault: real, rs: seq<Request>, windowMs: real)
    requires NonDecreasing(rs) && Opposing(windowMs) in rules
    requires rs != [] && LastAccepted(rules, ttlDefault, rs)
    ensures NoneOpposed(Accepted(rules, ttlDefault, rs[..|rs| - 1]), LiveOf(rs[|rs| - 1], ttlDefault), windowMs)
  {
    var n := |rs| - 1;
    var acc, r, before := Accepted(rules, ttlDefault, rs[..n]), rs[n], Run(rules, ttlDefault, rs[..n]);
    LiveIsHistory(rules, ttlDefault, rs[..n], r.now);
    var k :| 0 <= k < |rules| && rules[k] == Opposing(windowMs);
    assert Passes(rules[k], Judged(rules, before, r), r);
    forall i | 0 <= i < |acc| && acc[i].pair == r.pair && acc[i].side != r.side.value
      ensures NoLonger(acc[i], r.now, windowMs)
    {
      if Alive(acc[i], r.now) {
        KeepHas(acc, r.now, i);
        var live := Keep(before.live, r.now);
        var m :| 0 <= m < |live| && live[m] == acc[i];
        assert !Conflicts(live[m], r.side.value, r.pair, r.now - windowMs);
      }
    }
  }

  lemma InForceOne(acc: seq<Live>, x: Live, q: real, windowMs: real, who: Option<string>)
    ensures InForce(acc + [x], q, windowMs, who)
            == InForce(acc, q, windowMs, who) + if Alive(x, q) && Counted(x, q - windowMs, who) then 1 else 0
  {
    KeepOne(acc, x, q);
    CountOne(Keep(acc, q), x, q - windowMs, who);
  }

  /** Time only takes trades out of force. */
  lemma {:induction false} InForceShrinks(acc: seq<Live>, a: real, b: real, windowMs: real, who: Option<string>)
    requires a <= b
    ensures InForce(acc, b, windowMs, who) <= InForce(acc, a, windowMs, who)
  {
    if acc != [] {
      var n := |acc| - 1;
      assert acc == acc[..n] + [acc[n]];
      InForceShrinks(acc[..n], a, b, windowMs, who);
      InForceOne(acc[..n], acc[n], a, windowMs, who);
      InForceOne(acc[..n], acc[n], b, windowMs, who);
    }
  }

  /** The rule that caps the trades of `who` (None: of all together) is installed. */
  predicate Caps(rules: seq<Rule>, cap: int, windowMs: real, who: Option<string>) {
    if who == None then MaxConcurrent(cap, windowMs) in rules else PerStrategyMax(cap, windowMs) in rules
  }

  /** At every moment from the last call on, the trades in force never exceed the cap, in all and per strategy. */
  lemma {:induction false} CapHolds(rules: seq<Rule>, ttlDefault: real, rs: seq<Request>, q: real,
                                    cap: int, windowMs: real, who: Option<string>)
    requires NonDecreasing(rs) && NotBefore(q, rs) && Caps(rules, cap, windowMs, who)
    ensures InForce(Accepted(rules, ttlDefault, rs), q, windowMs, who) <= if cap > 0 then cap else 0
  {
    if rs != [] {
      var n := |rs| - 1;
      var acc, r := Accepted(rules, ttlDefault, rs[..n]), rs[n];
      CapHolds(rules, ttlDefault, rs[..n], q, cap, windowMs, who);
      if LastAccepted(rules, ttlDefault, rs) {
        InForceOne(acc, LiveOf(r, ttlDefault), q, windowMs, who);
        InForceShrinks(acc, r.now, q, windowMs, who);
        if who == None || who == Some(r.strategyId) {
          RoomLeft(rules, ttlDefault, rs, cap, windowMs, who);
        }
      }
    }
  }

  lemma RoomLeft(rules: seq<Rule>, ttlDefault: real, rs: seq<Request>, cap: int, windowMs: real, who: Option<string>)
    requires NonDecreasing(rs) && Caps(rules, cap, windowMs, who)
    requires rs != [] && LastAccepted(rules, ttlDefault, rs)
    requires who == None || who == Some(rs[|rs| - 1].strategyId)
    ensures InForce(Accepted(rules, ttlDefault, rs[..|rs| - 1]), rs[|rs| - 1].now, windowMs, who) < cap
  {
    var n := |rs| - 1;
    LiveIsHistory(rules, ttlDefault, rs[..n], rs[n].now);
    var judged := Judged(rules, Run(rules, ttlDefault, rs[..n]), rs[n]);
    PassedCap(rules, judged, rs[n], cap, windowMs, who);
    ForceIs(Accepted(rules, ttlDefault, rs[..n]), judged.live, rs[n].now, windowMs, who);
  }

  lemma ForceIs(past: seq<Live>, live: seq<Live>, now: real, windowMs: real, who: Option<string>)
    requires live == Keep(past, now)
    ensures InForce(past, now, windowMs, who) == Count(live, now - windowMs, who)
  {
  }

  lemma PassedCap(rules: seq<Rule>, s: State, r: Request, cap: int, windowMs: real, who: Option<string>)
    requires AllPass(rules, s, r) && Caps(rules, cap, windowMs, who)
    requires r.side.Some? && (who == None || who == Some(r.strategyId))
    ensures Count(s.live, r.now - windowMs, who) < cap
  {
    var rule := if who == None then MaxConcurrent(cap, windowMs) else PerStrategyMax(cap, windowMs);
    var k :| 0 <= k < |rules| && rules[k] == rule;
    assert Passes(rules[k], s, r);
  }

  /** The peak is the largest positive equity any trade signal came with, blocked or not; zero before the first. */
  ghost predicate IsPeak(peak: real, rs: seq<Request>) {
    && (forall k | 0 <= k < |rs| && HasEquity(rs[k]) :: rs[k].equity.value <= peak)
    && (peak == 0.0 || exists k | 0 <= k < |rs| && HasEquity(rs[k]) :: rs[k].equity.value == peak)
    && peak >= 0.0
  }

  lemma {:induction false} PeakIsMaximum(rules: seq<Rule>, ttlDefault: real, rs: seq<Request>)
    requires HasGate(rules)
    ensures IsPeak(Run(rules, ttlDefault, rs).peak, rs)
  {
    if rs != [] {
      PeakIsMaximum(rules, ttlDefault, rs[..|rs| - 1]);
      PeakGrows(Run(rules, ttlDefault, rs[..|rs| - 1]).peak, rs);
    }
  }

  lemma PeakGrows(was: real, rs: seq<Request>)
    requires rs != [] && IsPeak(was, rs[..|rs| - 1])
    ensures IsPeak(RaisedPeak(was, rs[|rs| - 1]), rs)
  {
    var n := |rs| - 1;
    var peak := RaisedPeak(was, rs[n]);
    assert forall k | 0 <= k < n :: rs[..n][k] == rs[k];
    if peak == was && peak != 0.0 {
      var k :| 0 <= k < n && HasEquity(rs[..n][k]) && rs[..n][k].equity.value == peak;
      assert HasEquity(rs[k]) && rs[k].equity.value == peak;
    }
  }

  /** Less than the share of the peak below it. */
  predicate WithinLimit(peak: real, equity: real, pct: real) { peak - equity < pct * peak }

  /** With a gate installed, a trade let through with a known equity is less than the limit below that peak. */
  lemma GateLimitsDrawdown(rules: seq<Rule>, ttlDefault: real, rs: seq<Request>, maxPct: real)
    requires DrawdownGate(maxPct) in rules
    requires rs != [] && LastAccepted(rules, ttlDefault, rs) && HasEquity(rs[|rs| - 1])
    ensures var peak := Run(rules, ttlDefault, rs).peak;
      IsPeak(peak, rs) && WithinLimit(peak, rs[|rs| - 1].equity.value, maxPct)
  {
    var n := |rs| - 1;
    var k :| 0 <= k < |rules| && rules[k] == DrawdownGate(maxPct);
    assert rules[k].DrawdownGate?;
    PeakIsMaximum(rules, ttlDefault, rs);
    var before := Run(rules, ttlDefault, rs[..n]);
    assert Passes(rules[k], Judged(rules, before, rs[n]), rs[n]);
    var peak := Run(rules, ttlDefault, rs).peak;
    BelowLimit(peak, rs[n].equity.value, maxPct);
  }

  lemma BelowLimit(peak: real, equity: real, maxPct: real)
    requires peak > 0.0 && !InDrawdown(peak, equity, maxPct)
    ensures WithinLimit(peak, equity, maxPct)
  {
    BelowProduct((peak - equity) / peak, maxPct, peak, peak - equity);
  }

  lemma BelowProduct(x: real, bound: real, y: real, product: real)
    requires y > 0.0 && x < bound && x * y == product
    ensures product < bound * y
  {
    assert (bound - x) * y > 0.0;
  }

  /** A blocked trade changes nothing but expiry and the peak; a WAIT is never blocked and changes only expiry. */
  lemma BlockedChangesNothing(rules: seq<Rule>, ttlDefault: real, s: State, r: Request)
    ensures !Accepts(rules, s, r) || r.side == None ==>
      Filter(rules, ttlDefault, s, r).live == Keep(s.live, r.now) && Filter(rules, ttlDefault, s, r).lastEmit == s.lastEmit
    ensures r.side == None ==> Accepts(rules, s, r) && Filter(rules, ttlDefault, s, r).peak == s.peak
    ensures !HasGate(rules) ==> Filter(rules, ttlDefault, s, r).peak == s.peak
  {
  }

  // ------------------------------------------------------------ the component's own form

  class PerPairCooldownRule {
    var lastEmit: map<Key, real>

    constructor ()
      ensures lastEmit == map[]
    {
      lastEmit := map[];
    }

    method Apply(cooldownMs: real, r: Request) returns (pass: bool)
      ensures pass == Passes(Cooldown(cooldownMs), State([], lastEmit, 0.0), r)
    {
      if r.side == None {
        return true;
      }
      var key := (r.strategyId, r.side.value, r.pair);
      var last := if key in lastEmit then lastEmit[key] else 0.0;
      return !(r.now - last < cooldownMs);
    }

    method RecordEmit(key: Key, ts: real)
      modifies this
      ensures lastEmit == old(lastEmit)[key := ts]
    {
      lastEmit := lastEmit[key := ts];
    }
  }

  class DrawdownGateRule {
    var peak: real

    constructor ()
      ensures peak == 0.0
    {
      peak := 0.0;
    }

    method Apply(maxPct: real, r: Request) returns (pass: bool)
      modifies this
      ensures peak == RaisedPeak(old(peak), r)
      ensures pass == Passes(DrawdownGate(maxPct), State([], map[], peak), r)
    {
      if !HasEquity(r) {
        return true;
      }
      var equity := r.equity.value;
      if equity > peak {
        peak := equity;
      }
      if peak <= 0.0 {
        return true;
      }
      return (peak - equity) / peak < maxPct;
    }
  }

  method CountLive(xs: seq<Live>, cutoff: real, who: Option<string>) returns (n: nat)
    ensures n == Count(xs, cutoff, who)
  {
    n := 0;
    for k := 0 to |xs|
      invariant n == Count(xs[..k], cutoff, who)
    {
      assert xs[..k + 1][..k] == xs[..k];
      if Counted(xs[k], cutoff, who) {
        n := n + 1;
      }
    }
    assert xs[..|xs|] == xs;
  }

  method FindConflict(xs: seq<Live>, side: TradeSide, pair: string, cutoff: real) returns (found: Option<Live>)
    ensures found.Some? <==> HasConflict(xs, side, pair, cutoff)
    ensures found.Some? ==> found.value in xs && Conflicts(found.value, side, pair, cutoff)
  {
    for k := 0 to |xs|
      invariant forall m | 0 <= m < k :: !Conflicts(xs[m], side, pair, cutoff)
    {
      if Conflicts(xs[k], side, pair, cutoff) {
        return Some(xs[k]);
      }
    }
    return None;
  }

  class CompositeRiskFilter {
    const rules: seq<Rule>
    const ttlDefault: real
    const cooldown: PerPairCooldownRule
    const gate: DrawdownGateRule
    var liveSignals: seq<Live>

    ghost function Value(): State
      reads this, cooldown, gate
    {
      State(liveSignals, cooldown.lastEmit, gate.peak)
    }

    constructor (rules: seq<Rule>, ttlDefault: real)
      ensures this.rules == rules && this.ttlDefault == ttlDefault
      ensures Value() == START && fresh(cooldown) && fresh(gate)
    {
      this.rules, this.ttlDefault := rules, ttlDefault;
      cooldown := new PerPairCooldownRule();
      gate := new DrawdownGateRule();
      liveSignals := [];
    }

    method Expire(now: real)
      modifies this
      ensures liveSignals == Keep(old(liveSignals), now)
    {
      var kept: seq<Live> := [];
      for k := 0 to |liveSignals|
        invariant liveSignals == old(liveSignals)
        invariant kept == Keep(liveSignals[..k], now)
      {
        assert liveSignals[..k + 1][..k] == liveSignals[..k];
        if Alive(liveSignals[k], now) {
          kept := kept + [liveSignals[k]];
        }
      }
      assert liveSignals[..|liveSignals|] == liveSignals;
      liveSignals := kept;
    }

    method ApplyRule(rule: Rule, r: Request) returns (pass: bool)
      modifies gate
      ensures gate.peak == if rule.DrawdownGate? then RaisedPeak(old(gate.peak), r) else old(gate.peak)
      ensures pass == Passes(rule, Value(), r)
    {
      if r.side == None {
        return true;
      }
      match rule
      case MinConfidence(threshold) => pass := r.confidence >= threshold;
      case MaxConcurrent(cap, w) =>
        var n := CountLive(liveSignals, r.now - w, None);
        pass := n < cap;
      case PerStrategyMax(cap, w) =>
        var n := CountLive(liveSignals, r.now - w, Some(r.strategyId));
        pass := n < cap;
      case Cooldown(ms) => pass := cooldown.Apply(ms, r);
      case Opposing(w) =>
        var conflict := FindConflict(liveSignals, r.side.value, r.pair, r.now - w);
        pass := conflict == None;
      case DrawdownGate(pct) => pass := gate.Apply(pct, r);
    }

    /** All rules are asked, also after one has blocked. */
    method ApplyRules(r: Request) returns (blocks: nat)
      modifies gate
      ensures gate.peak == if HasGate(rules) then RaisedPeak(old(gate.peak), r) else old(gate.peak)
      ensures blocks == 0 <==> AllPass(rules, Value(), r)
    {
      blocks := 0;
      ghost var final := State(liveSignals, cooldown.lastEmit, if HasGate(rules) then RaisedPeak(gate.peak, r) else gate.peak);
      for k := 0 to |rules|
        invariant gate.peak == if HasGate(rules[..k]) then RaisedPeak(old(gate.peak), r) else old(gate.peak)
        invariant blocks == 0 <==> AllPass(rules[..k], final, r)
      {
        PrefixGate(rules, k);
        var pass := ApplyRule(rules[k], r);
        assert pass == Passes(rules[k], final, r);
        assert rules[..k + 1][k] == rules[k];
        assert AllPass(rules[..k + 1], final, r) <==> AllPass(rules[..k], final, r) && Passes(rules[k], final, r) by {
          PrefixAll(rules, k, final, r);
        }
        if !pass {
          blocks := blocks + 1;
        }
      }
      assert rules[..|rules|] == rules;
    }

    method FilterSignal(r: Request) returns (accepted: bool)
      modifies this, cooldown, gate
      ensures accepted == Accepts(rules, old(Value()), r)
      ensures Value() == Filter(rules, ttlDefault, old(Value()), r)
    {
      Expire(r.now);
      var blocks := ApplyRules(r);
      if blocks > 0 {
        return false;
      }
      if r.side.Some? {
        var x := LiveOf(r, ttlDefault);
        liveSignals := liveSignals + [x];
        if HasCooldown(rules) {
          cooldown.RecordEmit(KeyOf(x), r.now);
        }
      }
      return true;
    }
  }

  lemma PrefixGate(rules: seq<Rule>, k: nat)
    requires k < |rules|
    ensures HasGate(rules[..k + 1]) <==> HasGate(rules[..k]) || rules[k].DrawdownGate?
    ensures HasGate(rules[..k + 1]) ==> HasGate(rules)
  {
    var upTo := rules[..k + 1];
    if HasGate(upTo) {
      var m :| 0 <= m < |upTo| && upTo[m].DrawdownGate?;
      assert rules[m].DrawdownGate?;
      if m < k { assert rules[..k][m].DrawdownGate?; }
    }
    if HasGate(rules[..k]) {
      var m :| 0 <= m < k && rules[..k][m].DrawdownGate?;
      assert upTo[m].DrawdownGate?;
    }
    assert upTo[k] == rules[k];
  }

  lemma PrefixAll(rules: seq<Rule>, k: nat, s: State, r: Request)
    requires k < |rules|
    ensures AllPass(rules[..k + 1], s, r) <==> AllPass(rules[..k], s, r) && Passes(rules[k], s, r)
  {
    var upTo := rules[..k + 1];
    assert upTo[k] == rules[k];
    assert forall m | 0 <= m < k :: rules[..k][m] == upTo[m];
  }
}
