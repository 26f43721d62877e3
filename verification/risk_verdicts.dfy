/** The filter's verdict in terms of the calls so far and the trades let through, without any memory of its own. */
module RiskVerdicts {
  import opened Common
  import opened RiskFilters

  /** A trade a cap counts: not run out, not older than the window, and of the strategy asked for. */
  predicate InPlay(x: Live, now: real, windowMs: real, who: Option<string>) {
    now - x.ts < x.ttlMs && now - windowMs <= x.ts && (who == None || who.value == x.strategyId)
  }

  function PlacesInPlay(past: seq<Live>, now: real, windowMs: real, who: Option<string>): set<int> {
    set k | 0 <= k < |past| && InPlay(past[k], now, windowMs, who)
  }

  predicate SameTrade(x: Live, r: Request) {
    r.side == Some(x.side) && x.strategyId == r.strategyId && x.pair == r.pair
  }

  predicate Against(x: Live, r: Request) {
    r.side.Some? && x.side != r.side.value && x.pair == r.pair
  }

  /** A trade signal with a positive equity. */
  predicate Solvent(r: Request) {
    r.side.Some? && r.equity.Some? && r.equity.value > 0.0
  }

  /** The largest of the positive equities trade signals came with. */
  ghost predicate IsHighest(peak: real, rs: seq<Request>) {
    && (forall k | 0 <= k < |rs| && Solvent(rs[k]) :: rs[k].equity.value <= peak)
    && (exists k | 0 <= k < |rs| && Solvent(rs[k]) :: rs[k].equity.value == peak)
  }

  /** Whether a rule lets the last call trade, after these trades: by confidence; by how many trades are in play; by the
      distance to every like trade, and of the first one to time zero; by no trade in play against it; by how far its
      equity lies below the highest so far. */
  ghost predicate Allows(rule: Rule, past: seq<Live>, rs: seq<Request>)
    requires rs != []
  {
    var r := rs[|rs| - 1];
    match rule
    case MinConfidence(threshold) => r.confidence >= threshold
    case MaxConcurrent(cap, w) => |PlacesInPlay(past, r.now, w, None)| < cap
    case PerStrategyMax(cap, w) => |PlacesInPlay(past, r.now, w, Some(r.strategyId))| < cap
    case Cooldown(ms) => CooledDown(past, r, ms)
    case Opposing(w) => forall k | 0 <= k < |past| && Against(past[k], r) :: !InPlay(past[k], r.now, w, None)
    case DrawdownGate(pct) => Solvent(r) ==> forall peak | IsHighest(peak, rs) :: WithinLimit(peak, r.equity.value, pct)
  }

  ghost predicate CooledDown(past: seq<Live>, r: Request, ms: real) {
    && (forall k | 0 <= k < |past| && SameTrade(past[k], r) :: r.now - past[k].ts >= ms)
    && ((forall k | 0 <= k < |past| :: !SameTrade(past[k], r)) ==> r.now >= ms)
  }

  ghost predicate Allowed(rules: seq<Rule>, past: seq<Live>, rs: seq<Request>)
    requires rs != []
  {
    forall k | 0 <= k < |rules| :: Allows(rules[k], past, rs)
  }

  /** The trades so far: of each call that asks for one, exactly if every rule lets it. */
  ghost function Past(rules: seq<Rule>, ttlDefault: real, rs: seq<Request>): seq<Live> {
    if rs == [] then []
    else
      var n := |rs| - 1;
      var before := Past(rules, ttlDefault, rs[..n]);
      if rs[n].side.Some? && Allowed(rules, before, rs)
      then before + [Live(rs[n].strategyId, rs[n].pair, rs[n].side.value, rs[n].now,
                          if rs[n].ttlMs.Some? then rs[n].ttlMs.value else ttlDefault)]
      else before
  }

  // ------------------------------------------------------------ one rule

  lemma {:induction false} CountIsPlaces(xs: seq<Live>, now: real, windowMs: real, who: Option<string>)
    ensures Count(Keep(xs, now), now - windowMs, who) == |PlacesInPlay(xs, now, windowMs, who)|
  {
    if xs == [] {
      assert PlacesInPlay(xs, now, windowMs, who) == {};
    } else {
      var n := |xs| - 1;
      CountIsPlaces(xs[..n], now, windowMs, who);
      assert xs == xs[..n] + [xs[n]];
      InForceOne(xs[..n], xs[n], now, windowMs, who);
      PlacesGrow(xs, now, windowMs, who);
    }
  }

  lemma PlacesGrow(xs: seq<Live>, now: real, windowMs: real, who: Option<string>)
    requires xs != []
    ensures var n := |xs| - 1;
      |PlacesInPlay(xs, now, windowMs, who)|
      == |PlacesInPlay(xs[..n], now, windowMs, who)| + if InPlay(xs[n], now, windowMs, who) then 1 else 0
  {
    var n := |xs| - 1;
    var before, after := PlacesInPlay(xs[..n], now, windowMs, who), PlacesInPlay(xs, now, windowMs, who);
    assert n !in before;
    if InPlay(xs[n], now, windowMs, who) { assert after == before + {n}; } else { assert after == before; }
  }

  lemma {:induction false} KeepIs(xs: seq<Live>, now: real, x: Live)
    ensures x in Keep(xs, now) <==> x in xs && Alive(x, now)
  {
    if xs != [] {
      var n := |xs| - 1;
      KeepIs(xs[..n], now, x);
      assert xs == xs[..n] + [xs[n]];
    }
  }

  lemma ConflictIs(live: seq<Live>, past: seq<Live>, r: Request, windowMs: real)
    requires r.side.Some? && live == Keep(past, r.now)
    ensures HasConflict(live, r.side.value, r.pair, r.now - windowMs)
            <==> exists k | 0 <= k < |past| && Against(past[k], r) :: InPlay(past[k], r.now, windowMs, None)
  {
    forall k | 0 <= k < |live| ensures live[k] in past && Alive(live[k], r.now) { KeepIs(past, r.now, live[k]); }
    forall k | 0 <= k < |past| && InPlay(past[k], r.now, windowMs, None) ensures past[k] in live { KeepIs(past, r.now, past[k]); }
    if k :| 0 <= k < |live| && Conflicts(live[k], r.side.value, r.pair, r.now - windowMs) {
      var m :| 0 <= m < |past| && past[m] == live[k];
      assert Against(past[m], r) && InPlay(past[m], r.now, windowMs, None);
    }
    if m :| 0 <= m < |past| && Against(past[m], r) && InPlay(past[m], r.now, windowMs, None) {
      var k :| 0 <= k < |live| && live[k] == past[m];
      assert Conflicts(live[k], r.side.value, r.pair, r.now - windowMs);
    }
  }

  /** The cooldown memory holds nothing but times of trades. */
  ghost predicate FromPast(past: seq<Live>, lastEmit: map<Key, real>) {
    forall key | key in lastEmit :: exists k | 0 <= k < |past| :: KeyOf(past[k]) == key && past[k].ts == lastEmit[key]
  }

  lemma FromPastGrows(past: seq<Live>, lastEmit: map<Key, real>, x: Live)
    requires FromPast(past, lastEmit)
    ensures FromPast(past + [x], lastEmit) && FromPast(past + [x], lastEmit[KeyOf(x) := x.ts])
  {
    var more := past + [x];
    forall key | key in lastEmit ensures exists k | 0 <= k < |more| :: KeyOf(more[k]) == key && more[k].ts == lastEmit[key] {
      var k :| 0 <= k < |past| && KeyOf(past[k]) == key && past[k].ts == lastEmit[key];
      assert more[k] == past[k];
    }
    assert more[|past|] == x;
  }

  lemma {:induction false} MemoryFromPast(rules: seq<Rule>, ttlDefault: real, rs: seq<Request>)
    ensures FromPast(Accepted(rules, ttlDefault, rs), Run(rules, ttlDefault, rs).lastEmit)
  {
    if rs != [] {
      var n := |rs| - 1;
      MemoryFromPast(rules, ttlDefault, rs[..n]);
      if LastAccepted(rules, ttlDefault, rs) {
        FromPastGrows(Accepted(rules, ttlDefault, rs[..n]), Run(rules, ttlDefault, rs[..n]).lastEmit, LiveOf(rs[n], ttlDefault));
      }
    }
  }

  lemma CooldownIs(past: seq<Live>, lastEmit: map<Key, real>, r: Request, ms: real)
    requires r.side.Some? && LatestKnown(past, lastEmit) && FromPast(past, lastEmit)
    ensures r.now - Last(lastEmit, (r.strategyId, r.side.value, r.pair)) >= ms <==> CooledDown(past, r, ms)
  {
    var key := (r.strategyId, r.side.value, r.pair);
    assert forall k | 0 <= k < |past| :: SameTrade(past[k], r) <==> KeyOf(past[k]) == key;
    if key in lastEmit {
      var k :| 0 <= k < |past| && KeyOf(past[k]) == key && past[k].ts == lastEmit[key];
      assert SameTrade(past[k], r);
    }
  }

  lemma LimitIs(peak: real, equity: real, pct: real)
    requires peak > 0.0
    ensures !InDrawdown(peak, equity, pct) <==> WithinLimit(peak, equity, pct)
  {
    var q := (peak - equity) / peak;
    assert q * peak == peak - equity;
    assert (pct - q) * peak == pct * peak - q * peak;
    if q < pct { assert (pct - q) * peak > 0.0; } else { assert (q - pct) * peak >= 0.0; }
  }

  lemma GateIs(peak: real, rs: seq<Request>, pct: real)
    requires rs != [] && Solvent(rs[|rs| - 1]) && IsPeak(peak, rs)
    ensures !InDrawdown(peak, rs[|rs| - 1].equity.value, pct)
            <==> forall p | IsHighest(p, rs) :: WithinLimit(p, rs[|rs| - 1].equity.value, pct)
  {
    var r := rs[|rs| - 1];
    assert HasEquity(r) && peak > 0.0;
    assert forall k | 0 <= k < |rs| :: Solvent(rs[k]) <==> HasEquity(rs[k]);
    assert IsHighest(peak, rs);
    forall p | IsHighest(p, rs) ensures p == peak { HighestOnce(p, peak, rs); }
    LimitIs(peak, r.equity.value, pct);
  }

  lemma HighestOnce(p: real, q: real, rs: seq<Request>)
    requires IsHighest(p, rs) && IsHighest(q, rs)
    ensures p == q
  {
    var i :| 0 <= i < |rs| && Solvent(rs[i]) && rs[i].equity.value == p;
    var j :| 0 <= j < |rs| && Solvent(rs[j]) && rs[j].equity.value == q;
  }

  // ------------------------------------------------------------ all rules, all runs

  /** The state the rules see knows what the rule at hand needs of the past. */
  ghost predicate Knows(s: State, rule: Rule, past: seq<Live>, rs: seq<Request>)
    requires rs != []
  {
    && s.live == Keep(past, rs[|rs| - 1].now)
    && (rule.Cooldown? ==> LatestKnown(past, s.lastEmit) && FromPast(past, s.lastEmit))
    && (rule.DrawdownGate? ==> IsPeak(s.peak, rs))
  }

  lemma Knowing(rules: seq<Rule>, ttlDefault: real, rs: seq<Request>, rule: Rule)
    requires NonDecreasing(rs) && rs != [] && rule in rules
    ensures var n := |rs| - 1;
      Knows(Judged(rules, Run(rules, ttlDefault, rs[..n]), rs[n]), rule, Accepted(rules, ttlDefault, rs[..n]), rs)
  {
    var n := |rs| - 1;
    LiveIsHistory(rules, ttlDefault, rs[..n], rs[n].now);
    var i :| 0 <= i < |rules| && rules[i] == rule;
    if rule.Cooldown? {
      assert rules[i].Cooldown?;
      MemoryKnowsLatest(rules, ttlDefault, rs[..n]);
      MemoryFromPast(rules, ttlDefault, rs[..n]);
    }
    if rule.DrawdownGate? {
      assert rules[i].DrawdownGate?;
      PeakIsMaximum(rules, ttlDefault, rs);
    }
  }

  lemma CapMeans(s: State, rule: Rule, past: seq<Live>, rs: seq<Request>)
    requires rs != [] && rs[|rs| - 1].side.Some? && Knows(s, rule, past, rs) && (rule.MaxConcurrent? || rule.PerStrategyMax?)
    ensures Passes(rule, s, rs[|rs| - 1]) <==> Allows(rule, past, rs)
  {
    var r := rs[|rs| - 1];
    CountIsPlaces(past, r.now, rule.windowMs, if rule.MaxConcurrent? then None else Some(r.strategyId));
  }

  lemma CooldownMeans(s: State, ms: real, past: seq<Live>, rs: seq<Request>)
    requires rs != [] && rs[|rs| - 1].side.Some? && Knows(s, Cooldown(ms), past, rs)
    ensures Passes(Cooldown(ms), s, rs[|rs| - 1]) <==> Allows(Cooldown(ms), past, rs)
  {
    CooldownIs(past, s.lastEmit, rs[|rs| - 1], ms);
  }

  lemma OpposingMeans(s: State, w: real, past: seq<Live>, rs: seq<Request>)
    requires rs != [] && rs[|rs| - 1].side.Some? && Knows(s, Opposing(w), past, rs)
    ensures Passes(Opposing(w), s, rs[|rs| - 1]) <==> Allows(Opposing(w), past, rs)
  {
    ConflictIs(s.live, past, rs[|rs| - 1], w);
  }

  lemma GateMeans(s: State, pct: real, past: seq<Live>, rs: seq<Request>)
    requires rs != [] && rs[|rs| - 1].side.Some? && Knows(s, DrawdownGate(pct), past, rs)
    ensures Passes(DrawdownGate(pct), s, rs[|rs| - 1]) <==> Allows(DrawdownGate(pct), past, rs)
  {
    if Solvent(rs[|rs| - 1]) { GateIs(s.peak, rs, pct); }
  }

  lemma RuleMeans(s: State, rule: Rule, past: seq<Live>, rs: seq<Request>)
    requires rs != [] && rs[|rs| - 1].side.Some? && Knows(s, rule, past, rs)
    ensures Passes(rule, s, rs[|rs| - 1]) <==> Allows(rule, past, rs)
  {
    match rule
    case MinConfidence(_) =>
    case MaxConcurrent(_, _) => CapMeans(s, rule, past, rs);
    case PerStrategyMax(_, _) => CapMeans(s, rule, past, rs);
    case Cooldown(ms) => CooldownMeans(s, ms, past, rs);
    case Opposing(w) => OpposingMeans(s, w, past, rs);
    case DrawdownGate(pct) => GateMeans(s, pct, past, rs);
  }

  lemma RulesMean(rules: seq<Rule>, ttlDefault: real, rs: seq<Request>)
    requires NonDecreasing(rs) && rs != [] && rs[|rs| - 1].side.Some?
    ensures Accepts(rules, Run(rules, ttlDefault, rs[..|rs| - 1]), rs[|rs| - 1])
            <==> Allowed(rules, Accepted(rules, ttlDefault, rs[..|rs| - 1]), rs)
  {
    forall k | 0 <= k < |rules|
      ensures Passes(rules[k], Judged(rules, Run(rules, ttlDefault, rs[..|rs| - 1]), rs[|rs| - 1]), rs[|rs| - 1])
              <==> Allows(rules[k], Accepted(rules, ttlDefault, rs[..|rs| - 1]), rs)
    {
      Knowing(rules, ttlDefault, rs, rules[k]);
      RuleMeans(Judged(rules, Run(rules, ttlDefault, rs[..|rs| - 1]), rs[|rs| - 1]), rules[k],
                Accepted(rules, ttlDefault, rs[..|rs| - 1]), rs);
    }
  }

  /** Over every run on a clock that does not run backwards: a trade is let through exactly if every rule lets it, judged
      from all calls and all trades let through so far, and a WAIT always passes. */
  lemma {:induction false} VerdictMeans(rules: seq<Rule>, ttlDefault: real, rs: seq<Request>)
    requires NonDecreasing(rs)
    ensures Accepted(rules, ttlDefault, rs) == Past(rules, ttlDefault, rs)
    ensures rs != [] ==>
      var n := |rs| - 1;
      Accepts(rules, Run(rules, ttlDefault, rs[..n]), rs[n])
      <==> rs[n].side == None || Allowed(rules, Past(rules, ttlDefault, rs[..n]), rs)
  {
    if rs != [] {
      var n := |rs| - 1;
      VerdictMeans(rules, ttlDefault, rs[..n]);
      if rs[n].side.Some? { RulesMean(rules, ttlDefault, rs); }
    }
  }
}
