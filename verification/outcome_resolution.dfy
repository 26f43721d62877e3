/** Which level a prediction reached first, judged on completed fifteen-minute bars. */
module OutcomeResolution {
  import opened Common
  import opened Candles

  const BAR_MS := 900000

  datatype Outcome = TpFirst | SlFirst | TtlNeutral | InvalidGeometry | Pending

  datatype Prediction = Prediction(side: TradeSide, entry: real, sl: real, tp: real, signalMs: int, ttlMs: int)

  datatype Resolution = Resolution(outcome: Outcome, barsExamined: nat)

  predicate LevelsGeometryValid(p: Prediction) {
    if p.side == Long then p.sl < p.entry < p.tp else p.tp < p.entry < p.sl
  }

  predicate HitsSl(p: Prediction, c: Candle) {
    if p.side == Long then c.low <= p.sl else c.high >= p.sl
  }

  predicate HitsTp(p: Prediction, c: Candle) {
    if p.side == Long then c.high >= p.tp else c.low <= p.tp
  }

  predicate Relevant(p: Prediction, now: int, c: Candle) {
    c.timestamp + BAR_MS > p.signalMs && c.timestamp <= now
  }

  function RelevantBars(p: Prediction, now: int, bars: seq<Candle>): seq<Candle> {
    if bars == [] then []
    else
      var n := |bars| - 1;
      if Relevant(p, now, bars[n]) then RelevantBars(p, now, bars[..n]) + [bars[n]] else RelevantBars(p, now, bars[..n])
  }

  function ByTime(c: Candle): real { c.timestamp as real }

  /** Walk the ordered bars up to the first that is still open; the stop is asked first. */
  function Scan(p: Prediction, now: int, xs: seq<Candle>, examined: nat): (Option<Outcome>, nat) {
    if xs == [] || xs[0].timestamp + BAR_MS > now then (None, examined)
    else if HitsSl(p, xs[0]) then (Some(SlFirst), examined + 1)
    else if HitsTp(p, xs[0]) then (Some(TpFirst), examined + 1)
    else Scan(p, now, xs[1..], examined + 1)
  }

  function Verdict(p: Prediction, now: int, scan: (Option<Outcome>, nat)): Resolution {
    if scan.0.Some? then Resolution(scan.0.value, scan.1)
    else if now >= p.signalMs + p.ttlMs then Resolution(TtlNeutral, scan.1)
    else Resolution(Pending, scan.1)
  }

  function Resolve(p: Prediction, now: int, bars: seq<Candle>): Resolution {
    if !LevelsGeometryValid(p) then Resolution(InvalidGeometry, 0)
    else Verdict(p, now, Scan(p, now, Sort(ByTime, RelevantBars(p, now, bars)), 0))
  }

  // ------------------------------------------------------------ what each outcome means

  /** A bar that reaches past the signal and has closed. */
  predicate Completed(p: Prediction, now: int, c: Candle) {
    c.timestamp + BAR_MS > p.signalMs && c.timestamp + BAR_MS <= now
  }

  ghost predicate DistinctTimes(bars: seq<Candle>) {
    forall c, d | c in bars && d in bars && c != d :: c.timestamp != d.timestamp
  }

  /** `c` is a completed bar of the list. */
  predicate Counts(p: Prediction, now: int, bars: seq<Candle>, c: Candle) {
    c in bars && Completed(p, now, c)
  }

  /** A completed bar that touches the target when no completed bar up to and including it touches the stop. */
  ghost predicate IsTarget(p: Prediction, now: int, bars: seq<Candle>, b: Candle) {
    && Counts(p, now, bars, b) && HitsTp(p, b)
    && forall c: Candle | Counts(p, now, bars, c) && c.timestamp <= b.timestamp :: !HitsSl(p, c)
  }

  /** A completed bar that touches the stop when no completed bar before it touches the target. */
  ghost predicate IsStop(p: Prediction, now: int, bars: seq<Candle>, b: Candle) {
    && Counts(p, now, bars, b) && HitsSl(p, b)
    && forall c: Candle | Counts(p, now, bars, c) && c.timestamp < b.timestamp :: !HitsTp(p, c)
  }

  ghost predicate TargetFirst(p: Prediction, now: int, bars: seq<Candle>) {
    exists b: Candle :: IsTarget(p, now, bars, b)
  }

  ghost predicate StopFirst(p: Prediction, now: int, bars: seq<Candle>) {
    exists b: Candle :: IsStop(p, now, bars, b)
  }

  ghost predicate Untouched(p: Prediction, now: int, bars: seq<Candle>) {
    forall c: Candle | Counts(p, now, bars, c) :: !HitsSl(p, c) && !HitsTp(p, c)
  }

  lemma {:induction false} RelevantIsFilter(p: Prediction, now: int, bars: seq<Candle>)
    ensures forall c :: c in RelevantBars(p, now, bars) <==> c in bars && Relevant(p, now, c)
  {
    if bars != [] {
      var n := |bars| - 1;
      RelevantIsFilter(p, now, bars[..n]);
      assert bars == bars[..n] + [bars[n]];
    }
  }

  /** Bars in order of time, without two different ones for one time. */
  ghost predicate Ordered(xs: seq<Candle>) {
    SortedBy(ByTime, xs) && DistinctTimes(xs)
  }

  /** What a scan says about ordered bars, all of which reach past the signal. */
  lemma {:induction false} ScanDecides(p: Prediction, now: int, xs: seq<Candle>, examined: nat)
    requires Ordered(xs) && forall c | c in xs :: c.timestamp + BAR_MS > p.signalMs
    ensures Scan(p, now, xs, examined).0 == Some(TpFirst) <==> TargetFirst(p, now, xs)
    ensures Scan(p, now, xs, examined).0 == Some(SlFirst) <==> StopFirst(p, now, xs)
    ensures Scan(p, now, xs, examined).0 == None <==> Untouched(p, now, xs)
    ensures Scan(p, now, xs, examined).0 in {None, Some(TpFirst), Some(SlFirst)}
  {
    if xs == [] {
    } else if xs[0].timestamp + BAR_MS > now {
      forall c | c in xs ensures !Completed(p, now, c) {
        FirstIsEarliest(xs, c);
      }
    } else {
      forall c | c in xs ensures xs[0].timestamp <= c.timestamp { FirstIsEarliest(xs, c); }
      assert Counts(p, now, xs, xs[0]);
      if HitsSl(p, xs[0]) {
        assert IsStop(p, now, xs, xs[0]);
      } else if HitsTp(p, xs[0]) {
        FirstTakes(p, now, xs);
      } else {
        OrderedTail(xs);
        ScanDecides(p, now, xs[1..], examined + 1);
        TailDecides(p, now, xs);
      }
    }
  }

  lemma FirstIsEarliest(xs: seq<Candle>, c: Candle)
    requires SortedBy(ByTime, xs) && c in xs
    ensures xs[0].timestamp <= c.timestamp
  {
    var k :| 0 <= k < |xs| && xs[k] == c;
    assert k > 0 ==> ByTime(xs[0]) <= ByTime(xs[k]);
  }

  lemma OrderedTail(xs: seq<Candle>)
    requires Ordered(xs) && xs != []
    ensures Ordered(xs[1..])
  {
  }

  lemma FirstTakes(p: Prediction, now: int, xs: seq<Candle>)
    requires xs != [] && DistinctTimes(xs) && (forall c | c in xs :: xs[0].timestamp <= c.timestamp)
    requires Counts(p, now, xs, xs[0]) && HitsTp(p, xs[0]) && !HitsSl(p, xs[0])
    ensures TargetFirst(p, now, xs) && !StopFirst(p, now, xs) && !Untouched(p, now, xs)
  {
    assert forall c: Candle | Counts(p, now, xs, c) && c.timestamp <= xs[0].timestamp :: c == xs[0];
    assert IsTarget(p, now, xs, xs[0]);
    forall b: Candle | Counts(p, now, xs, b) && HitsSl(p, b) ensures xs[0].timestamp < b.timestamp {
      assert b != xs[0];
    }
  }

  /** A first bar that touches nothing decides nothing. */
  lemma TailDecides(p: Prediction, now: int, xs: seq<Candle>)
    requires xs != [] && !HitsSl(p, xs[0]) && !HitsTp(p, xs[0])
    ensures TargetFirst(p, now, xs) <==> TargetFirst(p, now, xs[1..])
    ensures StopFirst(p, now, xs) <==> StopFirst(p, now, xs[1..])
    ensures Untouched(p, now, xs) <==> Untouched(p, now, xs[1..])
  {
    assert forall c: Candle | c != xs[0] :: Counts(p, now, xs, c) <==> Counts(p, now, xs[1..], c) by {
      assert xs == [xs[0]] + xs[1..];
    }
    forall b: Candle ensures IsTarget(p, now, xs, b) <==> IsTarget(p, now, xs[1..], b) {}
    forall b: Candle ensures IsStop(p, now, xs, b) <==> IsStop(p, now, xs[1..], b) {}
  }

  lemma SortedRelevant(p: Prediction, now: int, bars: seq<Candle>)
    requires DistinctTimes(bars)
    ensures Ordered(Sort(ByTime, RelevantBars(p, now, bars)))
    ensures forall c :: c in Sort(ByTime, RelevantBars(p, now, bars)) <==> c in bars && Relevant(p, now, c)
  {
    var relevant := RelevantBars(p, now, bars);
    RelevantIsFilter(p, now, bars);
    SortSorts(ByTime, relevant);
    forall c ensures c in relevant <==> c in Sort(ByTime, relevant) {
      InMultiset(relevant, Sort(ByTime, relevant), c);
    }
  }

  /** The outcome for bars with distinct times, in any order, in terms of the completed bars alone. */
  lemma OutcomeMeans(p: Prediction, now: int, bars: seq<Candle>)
    requires DistinctTimes(bars) && LevelsGeometryValid(p)
    ensures Resolve(p, now, bars).outcome == TpFirst <==> TargetFirst(p, now, bars)
    ensures Resolve(p, now, bars).outcome == SlFirst <==> StopFirst(p, now, bars)
    ensures Resolve(p, now, bars).outcome == TtlNeutral <==> Untouched(p, now, bars) && now >= p.signalMs + p.ttlMs
    ensures Resolve(p, now, bars).outcome == Pending <==> Untouched(p, now, bars) && now < p.signalMs + p.ttlMs
  {
    ScanOfBars(p, now, bars);
    TouchExcludesUntouched(p, now, bars);
  }

  lemma TouchExcludesUntouched(p: Prediction, now: int, bars: seq<Candle>)
    ensures Untouched(p, now, bars) ==> !TargetFirst(p, now, bars) && !StopFirst(p, now, bars)
  {
  }

  lemma ScanOfBars(p: Prediction, now: int, bars: seq<Candle>)
    requires DistinctTimes(bars)
    ensures var hit := Scan(p, now, Sort(ByTime, RelevantBars(p, now, bars)), 0).0;
      && (hit == Some(TpFirst) <==> TargetFirst(p, now, bars))
      && (hit == Some(SlFirst) <==> StopFirst(p, now, bars))
      && (hit == None <==> Untouched(p, now, bars))
      && hit in {None, Some(TpFirst), Some(SlFirst)}
  {
    var xs := Sort(ByTime, RelevantBars(p, now, bars));
    SortedRelevant(p, now, bars);
    ScanDecides(p, now, xs, 0);
    SameCompleted(p, now, bars, xs);
  }

  /** Lists with the same completed bars agree. */
  lemma SameCompleted(p: Prediction, now: int, bars: seq<Candle>, xs: seq<Candle>)
    requires forall c: Candle :: c in xs <==> c in bars && Relevant(p, now, c)
    ensures TargetFirst(p, now, bars) <==> TargetFirst(p, now, xs)
    ensures StopFirst(p, now, bars) <==> StopFirst(p, now, xs)
    ensures Untouched(p, now, bars) <==> Untouched(p, now, xs)
  {
    assert forall c: Candle :: Counts(p, now, bars, c) <==> Counts(p, now, xs, c);
    forall b: Candle ensures IsTarget(p, now, bars, b) <==> IsTarget(p, now, xs, b) {}
    forall b: Candle ensures IsStop(p, now, bars, b) <==> IsStop(p, now, xs, b) {}
  }

  // ------------------------------------------------------------ verdicts are final

  /** Between two moments only bars that were still open or not there may have changed. */
  ghost predicate OnlyOpenBarsChange(now: int, bars: seq<Candle>, later: seq<Candle>) {
    forall c: Candle | c.timestamp + BAR_MS <= now :: c in bars <==> c in later
  }

  /** A target or stop verdict never changes as time passes, open bars close and new bars arrive. */
  lemma VerdictIsFinal(p: Prediction, now: int, bars: seq<Candle>, thenNow: int, later: seq<Candle>)
    requires DistinctTimes(bars) && DistinctTimes(later) && now <= thenNow && OnlyOpenBarsChange(now, bars, later)
    requires Resolve(p, now, bars).outcome in {TpFirst, SlFirst}
    ensures Resolve(p, thenNow, later).outcome == Resolve(p, now, bars).outcome
  {
    OutcomeMeans(p, now, bars);
    OutcomeMeans(p, thenNow, later);
    assert forall c: Candle | c.timestamp + BAR_MS <= now :: Counts(p, now, bars, c) <==> Counts(p, thenNow, later, c);
    if TargetFirst(p, now, bars) {
      var b: Candle :| IsTarget(p, now, bars, b);
      assert IsTarget(p, thenNow, later, b);
    } else {
      var b: Candle :| IsStop(p, now, bars, b);
      assert IsStop(p, thenNow, later, b);
    }
  }

  /** A bar of the later list that closed only after the earlier moment and touches a level. */
  predicate Overturns(p: Prediction, now: int, thenNow: int, later: seq<Candle>, c: Candle) {
    Counts(p, thenNow, later, c) && now < c.timestamp + BAR_MS && (HitsSl(p, c) || HitsTp(p, c))
  }

  /** The first such bar. */
  ghost predicate OverturnsFirst(p: Prediction, now: int, thenNow: int, later: seq<Candle>, c: Candle) {
    Overturns(p, now, thenNow, later, c)
    && forall d: Candle | Overturns(p, now, thenNow, later, d) :: c.timestamp <= d.timestamp
  }

  /** A neutral verdict stays exactly when no bar that closes after it touches a level, however long after the
      deadline. Otherwise the first such bar decides: it touches the stop, or only the target. */
  lemma NeutralStaysIff(p: Prediction, now: int, bars: seq<Candle>, thenNow: int, later: seq<Candle>)
    requires DistinctTimes(bars) && DistinctTimes(later) && now <= thenNow && OnlyOpenBarsChange(now, bars, later)
    requires Resolve(p, now, bars).outcome == TtlNeutral
    ensures Resolve(p, thenNow, later).outcome == TtlNeutral
      <==> forall c: Candle | c in later && Completed(p, thenNow, c) && now < c.timestamp + BAR_MS :: !HitsSl(p, c) && !HitsTp(p, c)
    ensures Resolve(p, thenNow, later).outcome == SlFirst
      <==> exists c: Candle :: OverturnsFirst(p, now, thenNow, later, c) && HitsSl(p, c)
    ensures Resolve(p, thenNow, later).outcome == TpFirst
      <==> exists c: Candle :: OverturnsFirst(p, now, thenNow, later, c) && HitsTp(p, c) && !HitsSl(p, c)
  {
    OutcomeMeans(p, now, bars);
    OutcomeMeans(p, thenNow, later);
    OnlyLateBarsTouch(p, now, bars, thenNow, later);
    FirstLateBarDecides(p, now, thenNow, later);
  }

  lemma OnlyLateBarsTouch(p: Prediction, now: int, bars: seq<Candle>, thenNow: int, later: seq<Candle>)
    requires now <= thenNow && OnlyOpenBarsChange(now, bars, later) && Untouched(p, now, bars)
    ensures forall c: Candle | Counts(p, thenNow, later, c) && (HitsSl(p, c) || HitsTp(p, c)) ::
      Overturns(p, now, thenNow, later, c)
  {
    forall c: Candle | Counts(p, thenNow, later, c) && (HitsSl(p, c) || HitsTp(p, c))
      ensures Overturns(p, now, thenNow, later, c)
    {
      assert c.timestamp + BAR_MS <= now ==> Counts(p, now, bars, c);
    }
  }

  lemma FirstLateBarDecides(p: Prediction, now: int, thenNow: int, later: seq<Candle>)
    requires DistinctTimes(later)
    requires forall c: Candle | Counts(p, thenNow, later, c) && (HitsSl(p, c) || HitsTp(p, c)) :: Overturns(p, now, thenNow, later, c)
    ensures StopFirst(p, thenNow, later) <==> exists c: Candle :: OverturnsFirst(p, now, thenNow, later, c) && HitsSl(p, c)
    ensures TargetFirst(p, thenNow, later)
      <==> exists c: Candle :: OverturnsFirst(p, now, thenNow, later, c) && HitsTp(p, c) && !HitsSl(p, c)
  {
    if c: Candle :| Overturns(p, now, thenNow, later, c) {
      var first := Earliest(p, now, thenNow, later, c);
      if HitsSl(p, first) {
        assert IsStop(p, thenNow, later, first);
      } else {
        assert IsTarget(p, thenNow, later, first);
      }
      forall d: Candle | OverturnsFirst(p, now, thenNow, later, d) ensures d == first {}
    }
  }

  /** Among the overturning bars there is a first one. */
  lemma {:induction false} Earliest(p: Prediction, now: int, thenNow: int, later: seq<Candle>, c: Candle) returns (first: Candle)
    requires Overturns(p, now, thenNow, later, c)
    ensures OverturnsFirst(p, now, thenNow, later, first)
    decreases c.timestamp + BAR_MS - now
  {
    first := c;
    if !OverturnsFirst(p, now, thenNow, later, c) {
      var d: Candle :| Overturns(p, now, thenNow, later, d) && d.timestamp < c.timestamp;
      first := Earliest(p, now, thenNow, later, d);
    }
  }

  /** A witness: bars after the deadline are still examined, so one that opens past the time to live can turn a
      neutral verdict into a reached target. */
  lemma NeutralCanBeOverturned(c: Candle)
    requires c == Candle(900000, 100.0, 111.0, 99.0, 110.0, 1.0)
    ensures var p := Prediction(Long, 100.0, 90.0, 110.0, 0, 600000);
      && c.timestamp > p.signalMs + p.ttlMs && OnlyOpenBarsChange(600000, [], [c])
      && Resolve(p, 600000, []).outcome == TtlNeutral
      && Resolve(p, 1800000, [c]).outcome == TpFirst
  {
    var p := Prediction(Long, 100.0, 90.0, 110.0, 0, 600000);
    NoBars(p, 600000);
    TouchedAlone(p, 1800000, c);
  }

  lemma TouchedAlone(p: Prediction, now: int, c: Candle)
    requires LevelsGeometryValid(p) && Completed(p, now, c) && HitsTp(p, c) && !HitsSl(p, c)
    ensures Resolve(p, now, [c]).outcome == TpFirst
  {
    assert Counts(p, now, [c], c);
    assert IsTarget(p, now, [c], c);
    OutcomeMeans(p, now, [c]);
  }

  lemma NoBars(p: Prediction, now: int)
    requires LevelsGeometryValid(p) && now >= p.signalMs + p.ttlMs
    ensures Resolve(p, now, []).outcome == TtlNeutral
  {
    assert RelevantBars(p, now, []) == [];
  }

  // ------------------------------------------------------------ the two sides mirror each other

  function MirrorBar(c: Candle): Candle {
    Candle(c.timestamp, -c.open, -c.low, -c.high, -c.close, c.volume)
  }

  function MirrorBars(xs: seq<Candle>): (r: seq<Candle>)
    ensures |r| == |xs| && forall k | 0 <= k < |xs| :: r[k] == MirrorBar(xs[k])
  {
    seq(|xs|, k requires 0 <= k < |xs| => MirrorBar(xs[k]))
  }

  function Mirror(p: Prediction): Prediction {
    Prediction(if p.side == Long then Short else Long, -p.entry, -p.sl, -p.tp, p.signalMs, p.ttlMs)
  }

  lemma {:induction false} MirrorInsert(x: Candle, xs: seq<Candle>)
    ensures Insert(ByTime, MirrorBar(x), MirrorBars(xs)) == MirrorBars(Insert(ByTime, x, xs))
  {
    if xs == [] {
      MirrorCons(x, []);
    } else if ByTime(x) <= ByTime(xs[0]) {
      MirrorCons(x, xs);
    } else {
      MirrorInsert(x, xs[1..]);
      MirrorCons(xs[0], xs[1..]);
      MirrorCons(xs[0], Insert(ByTime, x, xs[1..]));
      assert xs == [xs[0]] + xs[1..];
      assert MirrorBars(xs)[1..] == MirrorBars(xs[1..]);
    }
  }

  lemma MirrorCons(c: Candle, xs: seq<Candle>)
    ensures MirrorBars([c] + xs) == [MirrorBar(c)] + MirrorBars(xs)
  {
  }

  lemma {:induction false} MirrorSort(xs: seq<Candle>)
    ensures Sort(ByTime, MirrorBars(xs)) == MirrorBars(Sort(ByTime, xs))
  {
    if xs != [] {
      MirrorSort(xs[1..]);
      assert MirrorBars(xs)[1..] == MirrorBars(xs[1..]);
      MirrorInsert(xs[0], Sort(ByTime, xs[1..]));
    }
  }

  lemma {:induction false} MirrorRelevant(p: Prediction, now: int, bars: seq<Candle>)
    ensures RelevantBars(Mirror(p), now, MirrorBars(bars)) == MirrorBars(RelevantBars(p, now, bars))
  {
    if bars != [] {
      var n := |bars| - 1;
      MirrorRelevant(p, now, bars[..n]);
      assert MirrorBars(bars)[..n] == MirrorBars(bars[..n]);
    }
  }

  lemma {:induction false} MirrorScan(p: Prediction, now: int, xs: seq<Candle>, examined: nat)
    ensures Scan(Mirror(p), now, MirrorBars(xs), examined) == Scan(p, now, xs, examined)
  {
    if xs != [] {
      assert MirrorBars(xs)[1..] == MirrorBars(xs[1..]);
      MirrorScan(p, now, xs[1..], examined + 1);
    }
  }

  /** Negating all prices (each bar's high and low change places) and changing sides changes no outcome and no count,
      for any bars at all. */
  lemma SidesAreSymmetric(p: Prediction, now: int, bars: seq<Candle>)
    ensures Resolve(Mirror(p), now, MirrorBars(bars)) == Resolve(p, now, bars)
  {
    MirrorRelevant(p, now, bars);
    MirrorSort(RelevantBars(p, now, bars));
    MirrorScan(p, now, Sort(ByTime, RelevantBars(p, now, bars)), 0);
  }

  // ------------------------------------------------------------ the component's own form

  method FilterRelevant(p: Prediction, now: int, bars: seq<Candle>) returns (r: seq<Candle>)
    ensures r == RelevantBars(p, now, bars)
  {
    r := [];
    for k := 0 to |bars|
      invariant r == RelevantBars(p, now, bars[..k])
    {
      assert bars[..k + 1][..k] == bars[..k];
      if Relevant(p, now, bars[k]) {
        r := r + [bars[k]];
      }
    }
    assert bars[..|bars|] == bars;
  }

  method ScanBars(p: Prediction, now: int, xs: seq<Candle>) returns (hit: Option<Outcome>, barsExamined: nat)
    ensures (hit, barsExamined) == Scan(p, now, xs, 0)
  {
    barsExamined := 0;
    while barsExamined < |xs|
      invariant 0 <= barsExamined <= |xs|
      invariant Scan(p, now, xs, 0) == Scan(p, now, xs[barsExamined..], barsExamined)
    {
      var c := xs[barsExamined];
      if c.timestamp + BAR_MS > now {
        return None, barsExamined;
      }
      assert xs[barsExamined..][1..] == xs[barsExamined + 1..];
      barsExamined := barsExamined + 1;
      if HitsSl(p, c) {
        return Some(SlFirst), barsExamined;
      }
      if HitsTp(p, c) {
        return Some(TpFirst), barsExamined;
      }
    }
    return None, barsExamined;
  }

  method ResolvePredictionOn15mBars(p: Prediction, now: int, bars: seq<Candle>) returns (r: Resolution)
    ensures r == Resolve(p, now, bars)
  {
    if !LevelsGeometryValid(p) {
      return Resolution(InvalidGeometry, 0);
    }
    var relevant := FilterRelevant(p, now, bars);
    var hit, examined := ScanBars(p, now, Sort(ByTime, relevant));
    if hit.Some? {
      return Resolution(hit.value, examined);
    }
    if now >= p.signalMs + p.ttlMs {
      return Resolution(TtlNeutral, examined);
    }
    return Resolution(Pending, examined);
  }
}
