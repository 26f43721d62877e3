/** Two coupled token buckets that ration REST calls: one for all pairs, one for each pair. */
module RestBudgets {
  import opened Common

  /** Times are milliseconds, the refill rate is tokens per second. */
  datatype BucketState = BucketState(tokens: real, cap: real, refillPerSec: real, last: real)

  function FullBucket(perMin: real, now: real): BucketState {
    BucketState(perMin, perMin, perMin / 60.0, now)
  }

  /** Tokens earned between two times. */
  function Earned(refillPerSec: real, from: real, to: real): real {
    (to - from) / 1000.0 * refillPerSec
  }

  function Refill(b: BucketState, now: real): BucketState {
    b.(tokens := MinR(b.cap, b.tokens + Earned(b.refillPerSec, b.last, now)), last := now)
  }

  datatype BudgetState = BudgetState(global: BucketState, perPair: map<string, BucketState>)

  datatype Attempt = Attempt(pair: string, now: real)

  datatype AttemptResult = AttemptResult(state: BudgetState, granted: bool)

  /** One round of the acquire loop: refill both buckets, take a token from each if both have one. */
  function TryAcquire(s: BudgetState, pairPerMin: real, a: Attempt): AttemptResult {
    var pb := if a.pair in s.perPair then s.perPair[a.pair] else FullBucket(pairPerMin, a.now);
    var g', p' := Refill(s.global, a.now), Refill(pb, a.now);
    if g'.tokens >= 1.0 && p'.tokens >= 1.0 then
      AttemptResult(BudgetState(g'.(tokens := g'.tokens - 1.0), s.perPair[a.pair := p'.(tokens := p'.tokens - 1.0)]), true)
    else
      AttemptResult(BudgetState(g', s.perPair[a.pair := p']), false)
  }

  // ------------------------------------------------------------ whole runs

  datatype Limits = Limits(globalPerMin: real, pairPerMin: real, start: real)

  function After(l: Limits, run: seq<Attempt>): BudgetState {
    if run == [] then BudgetState(FullBucket(l.globalPerMin, l.start), map[])
    else TryAcquire(After(l, run[..|run| - 1]), l.pairPerMin, run[|run| - 1]).state
  }

  /** Is the last attempt of the run granted? */
  predicate LastGranted(l: Limits, run: seq<Attempt>)
    requires run != []
  {
    TryAcquire(After(l, run[..|run| - 1]), l.pairPerMin, run[|run| - 1]).granted
  }

  /** Grants with a time in [from, to]; for one pair, or for all if `pair` is None. */
  function Grants(l: Limits, run: seq<Attempt>, pair: Option<string>, from: real, to: real): nat {
    if run == [] then 0
    else
      var a := run[|run| - 1];
      Grants(l, run[..|run| - 1], pair, from, to)
      + if LastGranted(l, run) && from <= a.now <= to && (pair == None || pair == Some(a.pair)) then 1 else 0
  }

  /** One more attempt. */
  lemma AttemptPush(l: Limits, run: seq<Attempt>, a: Attempt, pair: Option<string>, from: real, to: real)
    ensures After(l, run + [a]) == TryAcquire(After(l, run), l.pairPerMin, a).state
    ensures Grants(l, run + [a], pair, from, to) == Grants(l, run, pair, from, to)
      + if TryAcquire(After(l, run), l.pairPerMin, a).granted && from <= a.now <= to && (pair == None || pair == Some(a.pair))
        then 1 else 0
  {
    assert (run + [a])[..|run|] == run;
  }

  /** The clock never runs backwards. */
  ghost predicate Timed(l: Limits, run: seq<Attempt>) {
    && (forall i | 0 <= i < |run| :: l.start <= run[i].now)
    && (forall i, j | 0 <= i <= j < |run| :: run[i].now <= run[j].now)
  }

  ghost predicate InBounds(b: BucketState, perMin: real) {
    0.0 <= b.tokens <= b.cap && b.cap == perMin && b.refillPerSec == perMin / 60.0
  }

  function LastTime(l: Limits, run: seq<Attempt>): real {
    if run == [] then l.start else run[|run| - 1].now
  }

  /** Token counts stay between zero and the capacity, and no bucket is dated after the last attempt. */
  lemma {:induction false} TokensStayInBounds(l: Limits, run: seq<Attempt>)
    requires l.globalPerMin >= 0.0 && l.pairPerMin >= 0.0 && Timed(l, run)
    ensures InBounds(After(l, run).global, l.globalPerMin) && After(l, run).global.last == LastTime(l, run)
    ensures forall p | p in After(l, run).perPair ::
      InBounds(After(l, run).perPair[p], l.pairPerMin) && After(l, run).perPair[p].last <= LastTime(l, run)
  {
    if run != [] {
      var before := After(l, run[..|run| - 1]);
      var a := run[|run| - 1];
      TokensStayInBounds(l, run[..|run| - 1]);
      assert LastTime(l, run[..|run| - 1]) <= a.now;
      RefillInBounds(before.global, l.globalPerMin, a.now);
      RefillInBounds(if a.pair in before.perPair then before.perPair[a.pair] else FullBucket(l.pairPerMin, a.now), l.pairPerMin, a.now);
    }
  }

  lemma EarnedAdds(rate: real, a: real, b: real, c: real)
    ensures Earned(rate, a, b) + Earned(rate, b, c) == Earned(rate, a, c)
  {
    var x, y := (b - a) / 1000.0, (c - b) / 1000.0;
    assert (c - a) / 1000.0 == x + y;
    assert (x + y) * rate == x * rate + y * rate;
  }

  lemma EarnedNonNegative(rate: real, a: real, b: real)
    requires rate >= 0.0 && a <= b
    ensures Earned(rate, a, b) >= 0.0
  {
    assert (b - a) / 1000.0 >= 0.0;
  }

  lemma EarnedGrows(rate: real, a: real, b: real, c: real)
    requires rate >= 0.0 && b <= c
    ensures Earned(rate, a, b) <= Earned(rate, a, c)
  {
    EarnedAdds(rate, a, b, c);
    EarnedNonNegative(rate, b, c);
  }

  lemma RefillInBounds(b: BucketState, perMin: real, now: real)
    requires InBounds(b, perMin) && b.last <= now && perMin >= 0.0
    ensures InBounds(Refill(b, now), perMin)
    ensures Refill(b, now).tokens == MinR(b.cap, b.tokens + Earned(b.refillPerSec, b.last, now))
  {
    EarnedNonNegative(b.refillPerSec, b.last, now);
  }

  /** The bucket that a grant for `pair` (or any grant, if None) draws from. */
  predicate HasBucket(s: BudgetState, pair: Option<string>) {
    pair == None || pair.value in s.perPair
  }

  function BucketOf(s: BudgetState, pair: Option<string>): BucketState
    requires HasBucket(s, pair)
  {
    if pair == None then s.global else s.perPair[pair.value]
  }

  function PerMin(l: Limits, pair: Option<string>): real {
    if pair == None then l.globalPerMin else l.pairPerMin
  }

  function Rate(l: Limits, pair: Option<string>): real {
    PerMin(l, pair) / 60.0
  }

  /** What the window knows of one bucket after `n` grants in [from, to]. */
  ghost predicate WindowOk(n: nat, b: BucketState, from: real, to: real) {
    && (b.last < from ==> n == 0)
    && (from <= b.last <= to ==> n as real + b.tokens <= b.cap + Earned(b.refillPerSec, from, b.last))
    && n as real <= b.cap + Earned(b.refillPerSec, from, to)
  }

  /** One refill, and one token taken if `take`, keep the window's account. */
  lemma DrawKeepsWindow(n: nat, b: BucketState, perMin: real, now: real, take: bool, from: real, to: real)
    requires perMin >= 0.0 && InBounds(b, perMin) && b.last <= now && from <= to && WindowOk(n, b, from, to)
    requires take ==> Refill(b, now).tokens >= 1.0
    ensures var b' := Refill(b, now);
      WindowOk(if take && from <= now <= to then n + 1 else n,
               if take then b'.(tokens := b'.tokens - 1.0) else b', from, to)
  {
    RefillInBounds(b, perMin, now);
    var rate := b.refillPerSec;
    if from <= b.last { EarnedAdds(rate, from, b.last, now); }
    if from <= now { EarnedNonNegative(rate, from, now); }
    if now <= to { EarnedGrows(rate, from, now, to); }
  }

  /** Grants in the window, plus the tokens still there, never exceed the capacity plus what was earned. */
  lemma {:induction false} WindowPotential(l: Limits, run: seq<Attempt>, pair: Option<string>, from: real, to: real)
    requires l.globalPerMin >= 0.0 && l.pairPerMin >= 0.0 && Timed(l, run) && l.start <= from <= to
    ensures if HasBucket(After(l, run), pair)
            then WindowOk(Grants(l, run, pair, from, to), BucketOf(After(l, run), pair), from, to)
            else Grants(l, run, pair, from, to) == 0
  {
    var perMin := PerMin(l, pair);
    EarnedNonNegative(Rate(l, pair), from, to);
    if run == [] {
      assert Earned(l.globalPerMin / 60.0, from, from) == 0.0;
    } else {
      var shorter, a := run[..|run| - 1], run[|run| - 1];
      WindowPotential(l, shorter, pair, from, to);
      TokensStayInBounds(l, shorter);
      if pair == None || pair == Some(a.pair) {
        var before := After(l, shorter);
        var n := Grants(l, shorter, pair, from, to);
        var b := if HasBucket(before, pair) then BucketOf(before, pair) else FullBucket(perMin, a.now);
        if !HasBucket(before, pair) { FreshBucketWindow(perMin, a.now, from, to); }
        DrawKeepsWindow(n, b, perMin, a.now, LastGranted(l, run), from, to);
      }
    }
  }

  lemma FreshBucketWindow(perMin: real, now: real, from: real, to: real)
    requires perMin >= 0.0 && from <= to
    ensures WindowOk(0, FullBucket(perMin, now), from, to)
  {
    EarnedNonNegative(perMin / 60.0, from, to);
    if from <= now { EarnedNonNegative(perMin / 60.0, from, now); }
  }

  /** The promised rate: `perMin` at once, and `perMin` more for each minute. */
  function MostGrants(perMin: real, seconds: real): real {
    perMin * (1.0 + seconds / 60.0)
  }

  lemma MostGrantsIsCapPlusEarned(perMin: real, from: real, to: real)
    ensures perMin + Earned(perMin / 60.0, from, to) == MostGrants(perMin, (to - from) / 1000.0)
  {
    var seconds := (to - from) / 1000.0;
    assert seconds * (perMin / 60.0) == perMin * (seconds / 60.0);
  }

  /** Rate bound: any interval of T seconds sees at most perMin * (1 + T/60) grants, in total and per pair. */
  lemma RateBound(l: Limits, run: seq<Attempt>, pair: Option<string>, from: real, to: real)
    requires l.globalPerMin >= 0.0 && l.pairPerMin >= 0.0 && Timed(l, run) && l.start <= from <= to
    ensures Grants(l, run, pair, from, to) as real <= MostGrants(PerMin(l, pair), (to - from) / 1000.0)
  {
    var perMin := PerMin(l, pair);
    WindowPotential(l, run, pair, from, to);
    TokensStayInBounds(l, run);
    FreshBucketWindow(perMin, from, from, to);
    MostGrantsIsCapPlusEarned(perMin, from, to);
  }

  /** A bucket that has earned a whole token has one to give. */
  lemma EarnedTokenIsThere(b: BucketState, perMin: real, now: real)
    requires perMin >= 1.0 && InBounds(b, perMin) && Earned(b.refillPerSec, b.last, now) >= 1.0
    ensures Refill(b, now).tokens >= 1.0
  {
  }

  /** A caller that has waited until both buckets have earned a token is granted one. */
  lemma WaitingIsEnough(l: Limits, run: seq<Attempt>, a: Attempt)
    requires l.globalPerMin >= 1.0 && l.pairPerMin >= 1.0 && Timed(l, run)
    requires var s := After(l, run);
      && Earned(s.global.refillPerSec, s.global.last, a.now) >= 1.0
      && (a.pair in s.perPair ==> Earned(s.perPair[a.pair].refillPerSec, s.perPair[a.pair].last, a.now) >= 1.0)
    ensures LastGranted(l, run + [a])
  {
    assert (run + [a])[..|run|] == run;
    TokensStayInBounds(l, run);
    var s := After(l, run);
    EarnedTokenIsThere(s.global, l.globalPerMin, a.now);
    if a.pair in s.perPair { EarnedTokenIsThere(s.perPair[a.pair], l.pairPerMin, a.now); }
  }

  // ------------------------------------------------------------ exactly which attempts are granted

  /** The attempt is for the pair, or for any. */
  predicate Draws(a: Attempt, pair: Option<string>) { pair == None || pair == Some(a.pair) }

  /** Grants of the attempts from place `k` on. */
  function GrantsFrom(l: Limits, run: seq<Attempt>, pair: Option<string>, k: nat): nat {
    if |run| <= k then 0
    else
      var n := |run| - 1;
      GrantsFrom(l, run[..n], pair, k) + if LastGranted(l, run) && Draws(run[n], pair) then 1 else 0
  }

  /** There is room for `x` more at a time: since no earlier attempt have the grants come so near to the capacity and what
      has been earned since then. */
  ghost predicate Room(l: Limits, run: seq<Attempt>, pair: Option<string>, now: real, x: real) {
    && x <= PerMin(l, pair)
    && forall k | 0 <= k < |run| && Draws(run[k], pair) :: Fits(l, run, pair, k, now, x)
  }

  predicate Fits(l: Limits, run: seq<Attempt>, pair: Option<string>, k: nat, now: real, x: real)
    requires k < |run|
  {
    GrantsFrom(l, run, pair, k) as real + x <= PerMin(l, pair) + Earned(Rate(l, pair), run[k].now, now)
  }

  /** The tokens the bucket would hold at a time; a bucket never drawn from is full. */
  function LevelAt(l: Limits, run: seq<Attempt>, pair: Option<string>, now: real): real {
    var s := After(l, run);
    if HasBucket(s, pair) then Refill(BucketOf(s, pair), now).tokens else PerMin(l, pair)
  }

  /** What an attempt leaves in a bucket by a later time: what was there when it came, less its grant, and what is earned
      since, up to the capacity. */
  lemma LevelNext(l: Limits, run: seq<Attempt>, pair: Option<string>, now: real)
    requires l.globalPerMin >= 0.0 && l.pairPerMin >= 0.0 && Timed(l, run) && run != [] && run[|run| - 1].now <= now
    ensures var n := |run| - 1; var t := run[n].now;
      LevelAt(l, run, pair, now) ==
        if Draws(run[n], pair)
        then MinR(PerMin(l, pair), LevelAt(l, run[..n], pair, t) - (if LastGranted(l, run) then 1.0 else 0.0) + Earned(Rate(l, pair), t, now))
        else LevelAt(l, run[..n], pair, now)
  {
    var n := |run| - 1;
    TokensStayInBounds(l, run[..n]);
    TokensStayInBounds(l, run);
    if pair.Some? && pair.value == run[n].pair && pair.value !in After(l, run[..n]).perPair {
      FreshIsFull(l.pairPerMin, run[n].now);
    }
  }

  lemma FreshIsFull(perMin: real, now: real)
    requires perMin >= 0.0
    ensures Refill(FullBucket(perMin, now), now).tokens == perMin
  {
    assert Earned(perMin / 60.0, now, now) == 0.0;
  }

  lemma RoomIsEmpty(l: Limits, pair: Option<string>, now: real, x: real)
    requires l.globalPerMin >= 0.0 && l.start <= now
    ensures x <= LevelAt(l, [], pair, now) <==> Room(l, [], pair, now, x)
  {
    EarnedNonNegative(l.globalPerMin / 60.0, l.start, now);
  }

  /** The room after an attempt, from the room before it at its own time. */
  lemma RoomNext(l: Limits, run: seq<Attempt>, pair: Option<string>, now: real, x: real)
    requires run != [] && Draws(run[|run| - 1], pair)
    ensures var n := |run| - 1; var t := run[n].now; var g := if LastGranted(l, run) then 1.0 else 0.0;
      var e := Earned(Rate(l, pair), t, now);
      Room(l, run, pair, now, x) <==> x <= PerMin(l, pair) && Room(l, run[..n], pair, t, x + g - e)
  {
    var n := |run| - 1;
    var t, g, e := run[n].now, if LastGranted(l, run) then 1.0 else 0.0, Earned(Rate(l, pair), run[n].now, now);
    forall k | 0 <= k < n && Draws(run[k], pair)
      ensures Fits(l, run, pair, k, now, x) <==> Fits(l, run[..n], pair, k, t, x + g - e)
    {
      EarnedAdds(Rate(l, pair), run[k].now, t, now);
    }
    assert GrantsFrom(l, run, pair, n) as real == g;
    assert forall k | 0 <= k < n :: run[..n][k] == run[k];
  }

  lemma RoomElsewhere(l: Limits, run: seq<Attempt>, pair: Option<string>, now: real, x: real)
    requires run != [] && !Draws(run[|run| - 1], pair)
    ensures Room(l, run, pair, now, x) <==> Room(l, run[..|run| - 1], pair, now, x)
  {
    var n := |run| - 1;
    forall k | 0 <= k < n && Draws(run[k], pair) ensures Fits(l, run, pair, k, now, x) <==> Fits(l, run[..n], pair, k, now, x) {}
    assert forall k | 0 <= k < n :: run[..n][k] == run[k];
  }

  /** A bucket holds at least `x` tokens exactly if there is room for `x` more. */
  lemma {:induction false} LevelIsRoom(l: Limits, run: seq<Attempt>, pair: Option<string>, now: real, x: real)
    requires l.globalPerMin >= 0.0 && l.pairPerMin >= 0.0 && Timed(l, run) && LastTime(l, run) <= now
    ensures x <= LevelAt(l, run, pair, now) <==> Room(l, run, pair, now, x)
  {
    if run == [] {
      RoomIsEmpty(l, pair, now, x);
    } else {
      var n := |run| - 1;
      var t, g := run[n].now, if LastGranted(l, run) then 1.0 else 0.0;
      LevelNext(l, run, pair, now);
      if Draws(run[n], pair) {
        LevelIsRoom(l, run[..n], pair, t, x + g - Earned(Rate(l, pair), t, now));
        RoomNext(l, run, pair, now, x);
      } else {
        LevelIsRoom(l, run[..n], pair, now, x);
        RoomElsewhere(l, run, pair, now, x);
      }
    }
  }

  /** Over every run on a clock that does not run backwards: an attempt is granted exactly if, counted from every earlier
      attempt, the grants since then and this one do not exceed the capacity and what was earned since then, over all
      pairs and for its own. */
  lemma GrantedIff(l: Limits, run: seq<Attempt>)
    requires l.globalPerMin >= 0.0 && l.pairPerMin >= 0.0 && Timed(l, run) && run != []
    ensures var n := |run| - 1; var a := run[n];
      LastGranted(l, run) <==> Room(l, run[..n], None, a.now, 1.0) && Room(l, run[..n], Some(a.pair), a.now, 1.0)
  {
    var n := |run| - 1;
    var a := run[n];
    LevelIsRoom(l, run[..n], None, a.now, 1.0);
    LevelIsRoom(l, run[..n], Some(a.pair), a.now, 1.0);
    FreshIsFull(l.pairPerMin, a.now);
  }

  // ------------------------------------------------------------ the mutable budget

  datatype Outcome = Granted | Exhausted | Retry

  class RestBudget {
    const pairPerMin: real
    var global: BucketState
    var perPair: map<string, BucketState>

    constructor (globalPerMin: real, pairPerMin: real, now: real)
      ensures this.pairPerMin == pairPerMin
      ensures View() == After(Limits(globalPerMin, pairPerMin, now), [])
    {
      this.pairPerMin := pairPerMin;
      global := FullBucket(globalPerMin, now);
      perPair := map[];
    }

    function View(): BudgetState
      reads this
    {
      BudgetState(global, perPair)
    }

    /** One round of the acquire loop; between rounds other callers may run. */
    method AttemptAcquire(pair: string, now: real, deadline: real) returns (r: Outcome)
      modifies this
      ensures AttemptResult(View(), r == Granted) == TryAcquire(old(View()), pairPerMin, Attempt(pair, now))
      ensures r == Exhausted ==> now >= deadline
      ensures r == Retry ==> now < deadline
    {
      if pair !in perPair {
        perPair := perPair[pair := FullBucket(pairPerMin, now)];
      }
      global := Refill(global, now);
      perPair := perPair[pair := Refill(perPair[pair], now)];
      if global.tokens >= 1.0 && perPair[pair].tokens >= 1.0 {
        global := global.(tokens := global.tokens - 1.0);
        perPair := perPair[pair := perPair[pair].(tokens := perPair[pair].tokens - 1.0)];
        return Granted;
      }
      r := if now >= deadline then Exhausted else Retry;
    }
  }
}
