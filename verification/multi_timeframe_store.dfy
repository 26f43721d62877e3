/** Candles per pair and timeframe, merged from live updates and polls. */
module MultiTimeframeStores {
  import opened Common
  import opened Candles

  const DEFAULT_HISTORY_LENGTH: nat := 100

  /** Oldest first, no two for one time. */
  ghost predicate OldestFirst(xs: seq<Candle>) {
    forall i, j | 0 <= i < j < |xs| :: xs[i].timestamp < xs[j].timestamp
  }

  function MergeOne(xs: seq<Candle>, c: Candle): seq<Candle> {
    if xs == [] then [c]
    else
      var n := |xs| - 1;
      if xs[n].timestamp == c.timestamp then xs[n := c]
      else if c.timestamp > xs[n].timestamp then xs + [c]
      else xs
  }

  function MergeAll(xs: seq<Candle>, incoming: seq<Candle>): seq<Candle> {
    if incoming == [] then xs
    else MergeOne(MergeAll(xs, incoming[..|incoming| - 1]), incoming[|incoming| - 1])
  }

  function Trim(xs: seq<Candle>, maxLen: nat): seq<Candle> {
    if |xs| > maxLen then xs[|xs| - maxLen..] else xs
  }

  function Merge(xs: seq<Candle>, incoming: seq<Candle>, maxLen: nat): seq<Candle> {
    Trim(MergeAll(xs, incoming), maxLen)
  }

  function Newest(xs: seq<Candle>): int
    requires xs != []
  {
    xs[|xs| - 1].timestamp
  }

  /** From the oldest bar kept later up to the bar that was newest earlier, both hold exactly the same bars: a bar
      never changes or goes missing once a newer one exists, until it is evicted at the front. */
  ghost predicate SameClosed(earlier: seq<Candle>, later: seq<Candle>) {
    earlier != [] && later != [] ==>
      forall x: Candle | later[0].timestamp <= x.timestamp < Newest(earlier) :: x in earlier <==> x in later
  }

  /** How a list may develop: the newest and the oldest bar only get newer. */
  ghost predicate MovesForward(earlier: seq<Candle>, later: seq<Candle>) {
    earlier != [] ==>
      && later != [] && Newest(earlier) <= Newest(later)
      && earlier[0].timestamp <= later[0].timestamp
  }

  lemma MergeOneIs(xs: seq<Candle>, c: Candle, y: Candle)
    requires OldestFirst(xs)
    ensures y in MergeOne(xs, c) <==>
      if xs == [] || c.timestamp >= Newest(xs) then y == c || (y in xs && y.timestamp != c.timestamp) else y in xs
  {
    if xs != [] {
      var n := |xs| - 1;
      assert xs == xs[..n] + [xs[n]];
      if xs[n].timestamp == c.timestamp { assert xs[n := c] == xs[..n] + [c]; }
    }
  }

  lemma MergeOneKeeps(xs: seq<Candle>, c: Candle)
    requires OldestFirst(xs)
    ensures OldestFirst(MergeOne(xs, c)) && MergeOne(xs, c) != []
    ensures MovesForward(xs, MergeOne(xs, c)) && SameClosed(xs, MergeOne(xs, c))
    ensures xs != [] ==> MergeOne(xs, c)[0].timestamp == xs[0].timestamp
  {
    var r := MergeOne(xs, c);
    if xs != [] {
      forall x: Candle | x.timestamp < Newest(xs) ensures x in xs <==> x in r { MergeOneIs(xs, c, x); }
    }
  }

  lemma ClosedTwice(a: seq<Candle>, b: seq<Candle>, c: seq<Candle>)
    requires SameClosed(a, b) && SameClosed(b, c) && MovesForward(a, b) && MovesForward(b, c)
    ensures SameClosed(a, c) && MovesForward(a, c)
  {
  }

  lemma {:induction false} MergeAllKeeps(xs: seq<Candle>, incoming: seq<Candle>)
    requires OldestFirst(xs)
    ensures OldestFirst(MergeAll(xs, incoming))
    ensures MovesForward(xs, MergeAll(xs, incoming)) && SameClosed(xs, MergeAll(xs, incoming))
  {
    if incoming != [] {
      var n := |incoming| - 1;
      MergeAllKeeps(xs, incoming[..n]);
      MergeOneKeeps(MergeAll(xs, incoming[..n]), incoming[n]);
      ClosedTwice(xs, MergeAll(xs, incoming[..n]), MergeAll(xs, incoming));
    }
  }

  lemma TrimHas(xs: seq<Candle>, cut: nat, x: Candle)
    requires OldestFirst(xs) && cut < |xs| && xs[cut].timestamp <= x.timestamp
    ensures x in xs <==> x in xs[cut..]
  {
    assert xs == xs[..cut] + xs[cut..];
    assert forall y | y in xs[..cut] :: y.timestamp < xs[cut].timestamp;
  }

  lemma TrimKeeps(xs: seq<Candle>, maxLen: nat)
    requires OldestFirst(xs) && maxLen >= 1
    ensures OldestFirst(Trim(xs, maxLen)) && |Trim(xs, maxLen)| <= maxLen
    ensures MovesForward(xs, Trim(xs, maxLen)) && SameClosed(xs, Trim(xs, maxLen))
  {
    if |xs| > maxLen {
      var cut := |xs| - maxLen;
      forall x: Candle | xs[cut].timestamp <= x.timestamp ensures x in xs <==> x in xs[cut..] { TrimHas(xs, cut, x); }
    }
  }

  /** One merge, from any oldest-first list and of any candles: still oldest first, no longer than allowed, never an
      older newest bar, and the closed bars as they were. */
  lemma MergeKeeps(xs: seq<Candle>, incoming: seq<Candle>, maxLen: nat)
    requires OldestFirst(xs) && maxLen >= 1
    ensures var r := Merge(xs, incoming, maxLen);
      OldestFirst(r) && |r| <= maxLen && MovesForward(xs, r) && SameClosed(xs, r)
  {
    MergeAllKeeps(xs, incoming);
    TrimKeeps(MergeAll(xs, incoming), maxLen);
    ClosedTwice(xs, MergeAll(xs, incoming), Merge(xs, incoming, maxLen));
  }

  /** The bound is needed: a history length of zero drops every bar. */
  lemma NoLengthNoBars(xs: seq<Candle>, incoming: seq<Candle>)
    ensures Merge(xs, incoming, 0) == []
  {
    assert |Trim(MergeAll(xs, incoming), 0)| == 0;
  }

  /** What the newest bar becomes: the last candle that came for the latest time, if any came for a time at least
      as new as the newest bar's. */
  ghost predicate IsLatestFor(incoming: seq<Candle>, k: nat, floor: int) {
    && k < |incoming| && incoming[k].timestamp >= floor
    && (forall m | 0 <= m < |incoming| :: incoming[m].timestamp <= incoming[k].timestamp)
    && (forall m | k < m < |incoming| :: incoming[m].timestamp < incoming[k].timestamp)
  }

  lemma {:induction false} NewestIsLatest(xs: seq<Candle>, incoming: seq<Candle>, k: nat)
    requires xs != [] && IsLatestFor(incoming, k, Newest(xs))
    ensures MergeAll(xs, incoming) != [] && MergeAll(xs, incoming)[|MergeAll(xs, incoming)| - 1] == incoming[k]
  {
    var n := |incoming| - 1;
    var before := MergeAll(xs, incoming[..n]);
    if k < n {
      NewestIsLatest(xs, incoming[..n], k);
      assert MergeOne(before, incoming[n]) == before;
    } else {
      NewestBounded(xs, incoming[..n], incoming[n].timestamp);
      TakesOver(before, incoming[n]);
    }
  }

  lemma TakesOver(xs: seq<Candle>, c: Candle)
    requires xs != [] && Newest(xs) <= c.timestamp
    ensures MergeOne(xs, c) != [] && MergeOne(xs, c)[|MergeOne(xs, c)| - 1] == c
  {
  }

  lemma {:induction false} NewestBounded(xs: seq<Candle>, incoming: seq<Candle>, bound: int)
    requires xs != [] && Newest(xs) <= bound
    requires forall m | 0 <= m < |incoming| :: incoming[m].timestamp <= bound
    ensures MergeAll(xs, incoming) != [] && Newest(MergeAll(xs, incoming)) <= bound
  {
    if incoming != [] {
      NewestBounded(xs, incoming[..|incoming| - 1], bound);
    }
  }

  // ------------------------------------------------------------ exactly which bars a merge leaves

  /** The candle comes for no older time than the newest bar's and every candle's before it. */
  predicate Arrives(xs: seq<Candle>, incoming: seq<Candle>, k: nat) {
    && k < |incoming| && (xs != [] ==> incoming[k].timestamp >= Newest(xs))
    && forall m | 0 <= m < k :: incoming[m].timestamp <= incoming[k].timestamp
  }

  /** Of the first `n` candles the last to arrive for its time. */
  ghost predicate Lands(xs: seq<Candle>, incoming: seq<Candle>, n: nat, k: nat)
    requires n <= |incoming|
  {
    && k < n && Arrives(xs, incoming, k)
    && forall m | k < m < n && Arrives(xs, incoming, m) :: incoming[m].timestamp != incoming[k].timestamp
  }

  ghost predicate LandsAs(xs: seq<Candle>, incoming: seq<Candle>, n: nat, c: Candle)
    requires n <= |incoming|
  {
    exists k: nat :: Lands(xs, incoming, n, k) && incoming[k] == c
  }

  /** A bar that was there and for whose time none of them arrives. */
  ghost predicate StaysOn(xs: seq<Candle>, incoming: seq<Candle>, n: nat, c: Candle)
    requires n <= |incoming|
  {
    c in xs && forall m | 0 <= m < n && Arrives(xs, incoming, m) :: incoming[m].timestamp != c.timestamp
  }

  /** The newest bar is as new as everything so far, and one of it. */
  ghost predicate NewestSoFar(xs: seq<Candle>, incoming: seq<Candle>, r: seq<Candle>) {
    && (r == [] <==> xs == [] && incoming == [])
    && (r != [] ==>
          && (xs != [] ==> Newest(xs) <= Newest(r)) && (forall m | 0 <= m < |incoming| :: incoming[m].timestamp <= Newest(r))
          && ((xs != [] && Newest(xs) == Newest(r)) || exists m | 0 <= m < |incoming| :: incoming[m].timestamp == Newest(r)))
  }

  lemma {:induction false} NewestIs(xs: seq<Candle>, incoming: seq<Candle>)
    ensures NewestSoFar(xs, incoming, MergeAll(xs, incoming))
  {
    if incoming != [] {
      var n := |incoming| - 1;
      NewestIs(xs, incoming[..n]);
      var before, r := MergeAll(xs, incoming[..n]), MergeAll(xs, incoming);
      assert forall m | 0 <= m < n :: incoming[..n][m] == incoming[m];
      assert incoming[n].timestamp == Newest(r) || Newest(before) == Newest(r);
    }
  }

  /** So a candle arrives exactly if it is not older than the newest bar when it comes. */
  lemma ArrivesIff(xs: seq<Candle>, incoming: seq<Candle>, n: nat)
    requires n < |incoming|
    ensures var before := MergeAll(xs, incoming[..n]);
      Arrives(xs, incoming, n) <==> before == [] || incoming[n].timestamp >= Newest(before)
  {
    NewestIs(xs, incoming[..n]);
    assert forall m | 0 <= m < n :: incoming[..n][m] == incoming[m];
  }

  /** The candle arrives, for that time. */
  predicate Replaces(xs: seq<Candle>, incoming: seq<Candle>, n: nat, time: int) {
    Arrives(xs, incoming, n) && incoming[n].timestamp == time
  }

  lemma LandsLast(xs: seq<Candle>, incoming: seq<Candle>, n: nat)
    requires n < |incoming|
    ensures Lands(xs, incoming, n + 1, n) <==> Arrives(xs, incoming, n)
  {
  }

  lemma LandsStep(xs: seq<Candle>, incoming: seq<Candle>, n: nat, k: nat)
    requires k < n < |incoming|
    ensures Lands(xs, incoming, n + 1, k) <==> Lands(xs, incoming, n, k) && !Replaces(xs, incoming, n, incoming[k].timestamp)
  {
  }

  lemma LandsNext(xs: seq<Candle>, incoming: seq<Candle>, n: nat, c: Candle)
    requires n < |incoming|
    ensures LandsAs(xs, incoming, n + 1, c) <==>
      if Arrives(xs, incoming, n) then c == incoming[n] || (LandsAs(xs, incoming, n, c) && incoming[n].timestamp != c.timestamp)
      else LandsAs(xs, incoming, n, c)
  {
    LandsLast(xs, incoming, n);
    forall k: nat | k < n
      ensures Lands(xs, incoming, n + 1, k) <==> Lands(xs, incoming, n, k) && !Replaces(xs, incoming, n, incoming[k].timestamp)
    {
      LandsStep(xs, incoming, n, k);
    }
  }

  lemma MergedNext(xs: seq<Candle>, incoming: seq<Candle>, n: nat, before: seq<Candle>, c: Candle)
    requires n < |incoming| && OldestFirst(before)
    requires c in before <==> StaysOn(xs, incoming, n, c) || LandsAs(xs, incoming, n, c)
    requires Arrives(xs, incoming, n) <==> before == [] || incoming[n].timestamp >= Newest(before)
    ensures c in MergeOne(before, incoming[n]) <==> StaysOn(xs, incoming, n + 1, c) || LandsAs(xs, incoming, n + 1, c)
  {
    MergeOneIs(before, incoming[n], c);
    LandsNext(xs, incoming, n, c);
  }

  lemma MergeAllNext(xs: seq<Candle>, incoming: seq<Candle>, n: nat)
    requires n < |incoming|
    ensures MergeAll(xs, incoming[..n + 1]) == MergeOne(MergeAll(xs, incoming[..n]), incoming[n])
  {
    assert incoming[..n + 1][..n] == incoming[..n];
  }

  lemma {:induction false} MergedSoFar(xs: seq<Candle>, incoming: seq<Candle>, n: nat, c: Candle)
    requires OldestFirst(xs) && n <= |incoming|
    ensures OldestFirst(MergeAll(xs, incoming[..n]))
    ensures c in MergeAll(xs, incoming[..n]) <==> StaysOn(xs, incoming, n, c) || LandsAs(xs, incoming, n, c)
  {
    if n > 0 {
      MergedSoFar(xs, incoming, n - 1, c);
      var before := MergeAll(xs, incoming[..n - 1]);
      MergeAllNext(xs, incoming, n - 1);
      ArrivesIff(xs, incoming, n - 1);
      MergeOneKeeps(before, incoming[n - 1]);
      MergedNext(xs, incoming, n - 1, before, c);
    }
  }

  /** For every oldest-first list and any candles: merging leaves the last candle to arrive for each time and the bars for
      whose time none arrives, oldest first. */
  lemma MergeMeans(xs: seq<Candle>, incoming: seq<Candle>, c: Candle)
    requires OldestFirst(xs)
    ensures OldestFirst(MergeAll(xs, incoming))
    ensures c in MergeAll(xs, incoming) <==> StaysOn(xs, incoming, |incoming|, c) || LandsAs(xs, incoming, |incoming|, c)
  {
    MergedSoFar(xs, incoming, |incoming|, c);
    assert incoming[..|incoming|] == incoming;
  }

  /** And the cut keeps the newest, as many as allowed. */
  lemma CutMeans(xs: seq<Candle>, incoming: seq<Candle>, maxLen: nat)
    ensures var all, r := MergeAll(xs, incoming), Merge(xs, incoming, maxLen);
      |r| == MinI(maxLen, |all|) && r == all[|all| - |r|..]
  {
    var all := MergeAll(xs, incoming);
    assert all[0..] == all;
  }

  // ------------------------------------------------------------ runs of merges

  datatype Update = Update(incoming: seq<Candle>, maxLen: nat)

  function Run(seed: seq<Candle>, updates: seq<Update>): seq<Candle> {
    if updates == [] then seed
    else
      var n := |updates| - 1;
      Merge(Run(seed, updates[..n]), updates[n].incoming, updates[n].maxLen)
  }

  /** From an oldest-first seed, any run of merges compared with any of its beginnings. */
  lemma {:induction false} RunKeeps(seed: seq<Candle>, updates: seq<Update>, k: nat)
    requires OldestFirst(seed) && k <= |updates|
    requires forall m | 0 <= m < |updates| :: updates[m].maxLen >= 1
    ensures var earlier, later := Run(seed, updates[..k]), Run(seed, updates);
      && OldestFirst(later) && MovesForward(earlier, later) && SameClosed(earlier, later)
      && (updates != [] ==> |later| <= updates[|updates| - 1].maxLen)
  {
    var n := |updates|;
    if k == n {
      assert updates[..k] == updates;
      if n > 0 {
        RunKeeps(seed, updates[..n - 1], n - 1);
        assert updates[..n - 1][..n - 1] == updates[..n - 1];
        MergeKeeps(Run(seed, updates[..n - 1]), updates[n - 1].incoming, updates[n - 1].maxLen);
      }
    } else {
      assert updates[..n - 1][..k] == updates[..k];
      RunKeeps(seed, updates[..n - 1], k);
      MergeKeeps(Run(seed, updates[..n - 1]), updates[n - 1].incoming, updates[n - 1].maxLen);
      ClosedTwice(Run(seed, updates[..k]), Run(seed, updates[..n - 1]), Run(seed, updates));
    }
  }

  // ------------------------------------------------------------ the component's own form

  /** A live candle; its opening time is in seconds. */
  datatype Raw = Raw(openTime: int, open: real, high: real, low: real, close: real, volume: real)

  function ToCandle(raw: Raw): Candle {
    Candle(raw.openTime * 1000, raw.open, raw.high, raw.low, raw.close, raw.volume)
  }

  type Stores = map<string, map<string, seq<Candle>>>

  function Stored(stores: Stores, pair: string, tf: string): seq<Candle> {
    if pair in stores && tf in stores[pair] then stores[pair][tf] else []
  }

  class MultiTimeframeStore {
    const historyLength: map<string, nat>
    var stores: Stores

    constructor (historyLength: map<string, nat>)
      ensures stores == map[] && this.historyLength == historyLength
    {
      this.historyLength := historyLength;
      stores := map[];
    }

    /** `fetched` holds what the fetch of each configured timeframe answered, the empty list where it failed. */
    method Seed(pair: string, fetched: map<string, seq<Candle>>)
      modifies this
      ensures stores == old(stores)[pair := fetched]
    {
      stores := stores[pair := fetched];
    }

    method MergeCandles(pair: string, tf: string, incoming: seq<Candle>, maxLen: nat) returns (updated: bool)
      modifies this
      ensures updated == (pair in old(stores))
      ensures stores == if updated then
          old(stores)[pair := old(stores)[pair][tf := Merge(Stored(old(stores), pair, tf), incoming, maxLen)]]
        else old(stores)
    {
      if pair !in stores {
        return false;
      }
      var existing := if tf in stores[pair] then stores[pair][tf] else [];
      var merged := existing;
      for k := 0 to |incoming|
        invariant merged == MergeAll(existing, incoming[..k])
      {
        assert incoming[..k + 1][..k] == incoming[..k];
        var c := incoming[k];
        if |merged| > 0 && merged[|merged| - 1].timestamp == c.timestamp {
          merged := merged[|merged| - 1 := c];
        } else if |merged| == 0 || c.timestamp > merged[|merged| - 1].timestamp {
          merged := merged + [c];
        }
      }
      assert incoming[..|incoming|] == incoming;
      if |merged| > maxLen {
        merged := merged[|merged| - maxLen..];
      }
      stores := stores[pair := stores[pair][tf := merged]];
      return true;
    }

    method ApplyWsCandle(pair: string, tf: string, raw: Raw) returns (updated: bool)
      modifies this
      ensures updated == (pair in old(stores))
      ensures Stored(stores, pair, tf) ==
        if !updated then []
        else Merge(Stored(old(stores), pair, tf), [ToCandle(raw)],
                   if tf in historyLength then historyLength[tf] else DEFAULT_HISTORY_LENGTH)
      ensures forall p: string, t: string | p != pair || t != tf :: Stored(stores, p, t) == Stored(old(stores), p, t)
    {
      var maxLen := if tf in historyLength then historyLength[tf] else DEFAULT_HISTORY_LENGTH;
      updated := MergeCandles(pair, tf, [ToCandle(raw)], maxLen);
    }

    method Unseed(pair: string)
      modifies this
      ensures stores == old(stores) - {pair}
    {
      stores := stores - {pair};
    }
  }
}
