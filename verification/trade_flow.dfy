/** Rolling trade-flow metrics per pair over a pruned buffer of ticks. */
module TradeFlows {
  import opened Common

  datatype Tick = Tick(ts: real, price: real, qty: real, buyAggressive: bool)

  datatype WindowMetrics = WindowMetrics(
    windowMs: real, trades: nat, buyVol: real, sellVol: real, totalVol: real, delta: real, imbalance: real)

  /** Drop ticks before the cutoff, from the front, up to the first that is not. */
  function DropOld(buf: seq<Tick>, cutoff: real): seq<Tick> {
    if buf != [] && buf[0].ts < cutoff then DropOld(buf[1..], cutoff) else buf
  }

  function SignedQty(t: Tick): real { if t.buyAggressive then t.qty else -t.qty }

  /** The ticks from the end back to, but without, the first one before the cutoff. */
  function BackScan(buf: seq<Tick>, cutoff: real): seq<Tick> {
    if buf == [] then []
    else
      var n := |buf| - 1;
      if buf[n].ts < cutoff then [] else BackScan(buf[..n], cutoff) + [buf[n]]
  }

  function BuyVol(ts: seq<Tick>): real {
    if ts == [] then 0.0 else (if ts[0].buyAggressive then ts[0].qty else 0.0) + BuyVol(ts[1..])
  }

  function SellVol(ts: seq<Tick>): real {
    if ts == [] then 0.0 else (if ts[0].buyAggressive then 0.0 else ts[0].qty) + SellVol(ts[1..])
  }

  function MetricsFrom(windowMs: real, trades: nat, buyVol: real, sellVol: real): WindowMetrics {
    var total, delta := buyVol + sellVol, buyVol - sellVol;
    WindowMetrics(windowMs, trades, buyVol, sellVol, total, delta, if total > 0.0 then delta / total else 0.0)
  }

  function MetricsOf(ticks: seq<Tick>, windowMs: real): WindowMetrics {
    MetricsFrom(windowMs, |ticks|, BuyVol(ticks), SellVol(ticks))
  }

  // ------------------------------------------------------------ all pairs, all ticks

  datatype State = State(buffers: map<string, seq<Tick>>, cvds: map<string, real>)

  function BufferOf(s: State, pair: string): seq<Tick> {
    if pair in s.buffers then s.buffers[pair] else []
  }

  function CvdOf(s: State, pair: string): real {
    if pair in s.cvds then s.cvds[pair] else 0.0
  }

  function Ingest(maxWindowMs: real, s: State, pair: string, tick: Tick): State {
    State(s.buffers[pair := DropOld(BufferOf(s, pair) + [tick], tick.ts - maxWindowMs)],
          s.cvds[pair := CvdOf(s, pair) + SignedQty(tick)])
  }

  datatype Trade = Trade(pair: string, tick: Tick)

  function Run(maxWindowMs: real, trades: seq<Trade>): State {
    if trades == [] then State(map[], map[])
    else
      var n := |trades| - 1;
      Ingest(maxWindowMs, Run(maxWindowMs, trades[..n]), trades[n].pair, trades[n].tick)
  }

  /** Every tick of a pair that was ever ingested. */
  function History(trades: seq<Trade>, pair: string): seq<Tick> {
    if trades == [] then []
    else
      var n := |trades| - 1;
      if trades[n].pair == pair then History(trades[..n], pair) + [trades[n].tick] else History(trades[..n], pair)
  }

  function Since(ts: seq<Tick>, cutoff: real): seq<Tick> {
    if ts == [] then []
    else
      var n := |ts| - 1;
      if ts[n].ts >= cutoff then Since(ts[..n], cutoff) + [ts[n]] else Since(ts[..n], cutoff)
  }

  function SignedSum(ts: seq<Tick>): real {
    if ts == [] then 0.0 else SignedSum(ts[..|ts| - 1]) + SignedQty(ts[|ts| - 1])
  }

  ghost predicate InTime(ts: seq<Tick>) {
    forall i, j | 0 <= i < j < |ts| :: ts[i].ts <= ts[j].ts
  }

  /** On ticks in time, dropping from the front is filtering. */
  lemma {:induction false} DropIsFilter(ts: seq<Tick>, cutoff: real)
    requires InTime(ts)
    ensures DropOld(ts, cutoff) == Since(ts, cutoff)
  {
    if ts == [] {
    } else if ts[0].ts < cutoff {
      DropIsFilter(ts[1..], cutoff);
      SinceFirst(ts, cutoff);
    } else {
      AllSince(ts, cutoff);
    }
  }

  lemma {:induction false} SinceFirst(ts: seq<Tick>, cutoff: real)
    requires ts != [] && ts[0].ts < cutoff
    ensures Since(ts, cutoff) == Since(ts[1..], cutoff)
  {
    var n := |ts| - 1;
    if n == 0 {
      assert ts[..0] == [];
    } else {
      SinceFirst(ts[..n], cutoff);
      assert ts[..n][1..] == ts[1..][..n - 1];
    }
  }

  lemma {:induction false} AllSince(ts: seq<Tick>, cutoff: real)
    requires forall i | 0 <= i < |ts| :: ts[i].ts >= cutoff
    ensures Since(ts, cutoff) == ts
  {
    if ts != [] {
      AllSince(ts[..|ts| - 1], cutoff);
    }
  }

  lemma {:induction false} NoneSince(ts: seq<Tick>, cutoff: real)
    requires forall i | 0 <= i < |ts| :: ts[i].ts < cutoff
    ensures Since(ts, cutoff) == []
  {
    if ts != [] {
      NoneSince(ts[..|ts| - 1], cutoff);
    }
  }

  /** On ticks in time, stopping at the first old tick is filtering. */
  lemma {:induction false} BackScanIsFilter(ts: seq<Tick>, cutoff: real)
    requires InTime(ts)
    ensures BackScan(ts, cutoff) == Since(ts, cutoff)
  {
    if ts != [] {
      var n := |ts| - 1;
      if ts[n].ts < cutoff {
        NoneSince(ts, cutoff);
      } else {
        BackScanIsFilter(ts[..n], cutoff);
      }
    }
  }

  lemma {:induction false} SinceTwice(ts: seq<Tick>, a: real, b: real)
    requires a <= b
    ensures Since(Since(ts, a), b) == Since(ts, b)
  {
    if ts != [] {
      var n := |ts| - 1;
      SinceTwice(ts[..n], a, b);
      if ts[n].ts >= a {
        assert (Since(ts[..n], a) + [ts[n]])[..|Since(ts[..n], a)|] == Since(ts[..n], a);
      }
    }
  }

  lemma {:induction false} SinceInTime(ts: seq<Tick>, cutoff: real)
    requires InTime(ts)
    ensures InTime(Since(ts, cutoff))
    ensures forall t | t in Since(ts, cutoff) :: t in ts && t.ts >= cutoff
  {
    if ts != [] {
      var n := |ts| - 1;
      SinceInTime(ts[..n], cutoff);
      var before := Since(ts[..n], cutoff);
      forall i | 0 <= i < |before| ensures before[i].ts <= ts[n].ts {
        assert before[i] in ts[..n];
      }
    }
  }

  lemma SinceSnoc(ts: seq<Tick>, t: Tick, cutoff: real)
    ensures Since(ts + [t], cutoff) == if t.ts >= cutoff then Since(ts, cutoff) + [t] else Since(ts, cutoff)
  {
    assert (ts + [t])[..|ts|] == ts;
  }

  lemma InTimePrefix(h: seq<Tick>, t: Tick)
    requires InTime(h + [t])
    ensures InTime(h) && (h != [] ==> h[|h| - 1].ts <= t.ts)
  {
    assert forall i | 0 <= i < |h| :: h[i] == (h + [t])[i];
    assert (h + [t])[|h|] == t;
  }

  /** If the history is in time, the buffer is it, cut at the largest window before its last tick. */
  ghost predicate KeepsRecent(buf: seq<Tick>, h: seq<Tick>, maxWindowMs: real) {
    InTime(h) ==> IsRecent(buf, h, maxWindowMs)
  }

  ghost predicate IsRecent(buf: seq<Tick>, h: seq<Tick>, maxWindowMs: real) {
    if h == [] then buf == [] else buf == Since(h, h[|h| - 1].ts - maxWindowMs)
  }

  /** The buffer of a pair whose ticks came in time is its whole history cut at the largest window before the last
      tick; other pairs' ticks do not matter. */
  lemma {:induction false} BufferIsRecentHistory(maxWindowMs: real, trades: seq<Trade>, pair: string)
    ensures KeepsRecent(BufferOf(Run(maxWindowMs, trades), pair), History(trades, pair), maxWindowMs)
  {
    if trades != [] {
      var n := |trades| - 1;
      LastTrade(maxWindowMs, trades, pair);
      BufferIsRecentHistory(maxWindowMs, trades[..n], pair);
      if trades[n].pair == pair {
        Extend(History(trades[..n], pair), BufferOf(Run(maxWindowMs, trades[..n]), pair), trades[n].tick, maxWindowMs);
      }
    }
  }

  lemma LastTrade(maxWindowMs: real, trades: seq<Trade>, pair: string)
    requires trades != []
    ensures var n := |trades| - 1;
      var buf, h, tick := BufferOf(Run(maxWindowMs, trades[..n]), pair), History(trades[..n], pair), trades[n].tick;
      if trades[n].pair == pair then
        && BufferOf(Run(maxWindowMs, trades), pair) == DropOld(buf + [tick], tick.ts - maxWindowMs)
        && History(trades, pair) == h + [tick]
      else BufferOf(Run(maxWindowMs, trades), pair) == buf && History(trades, pair) == h
  {
  }

  lemma Extend(h: seq<Tick>, buf: seq<Tick>, tick: Tick, maxWindowMs: real)
    requires KeepsRecent(buf, h, maxWindowMs)
    ensures KeepsRecent(DropOld(buf + [tick], tick.ts - maxWindowMs), h + [tick], maxWindowMs)
  {
    if InTime(h + [tick]) {
      InTimePrefix(h, tick);
      ExtendInTime(h, buf, tick, maxWindowMs);
    }
  }

  lemma ExtendInTime(h: seq<Tick>, buf: seq<Tick>, tick: Tick, maxWindowMs: real)
    requires InTime(h + [tick]) && InTime(h) && IsRecent(buf, h, maxWindowMs)
    ensures IsRecent(DropOld(buf + [tick], tick.ts - maxWindowMs), h + [tick], maxWindowMs)
  {
    var cutoff := tick.ts - maxWindowMs;
    RecentInTime(h, buf, maxWindowMs);
    LastIsNewest(h, buf, tick);
    InTimePrefix(h, tick);
    SinceOfRecent(h, buf, maxWindowMs, cutoff);
    DropIsFilter(buf + [tick], cutoff);
    SinceSnoc(buf, tick, cutoff);
    SinceSnoc(h, tick, cutoff);
  }

  lemma SinceOfRecent(h: seq<Tick>, buf: seq<Tick>, maxWindowMs: real, cutoff: real)
    requires IsRecent(buf, h, maxWindowMs) && (h != [] ==> h[|h| - 1].ts - maxWindowMs <= cutoff)
    ensures Since(buf, cutoff) == Since(h, cutoff)
  {
    if h != [] { SinceTwice(h, h[|h| - 1].ts - maxWindowMs, cutoff); }
  }

  lemma RecentInTime(h: seq<Tick>, buf: seq<Tick>, maxWindowMs: real)
    requires InTime(h) && IsRecent(buf, h, maxWindowMs)
    ensures InTime(buf) && forall t | t in buf :: t in h
  {
    if h != [] { SinceInTime(h, h[|h| - 1].ts - maxWindowMs); }
  }

  lemma LastIsNewest(h: seq<Tick>, buf: seq<Tick>, tick: Tick)
    requires InTime(h + [tick]) && InTime(buf) && forall t | t in buf :: t in h
    ensures InTime(buf + [tick])
  {
    forall i | 0 <= i < |buf| ensures buf[i].ts <= tick.ts {
      assert buf[i] in h;
      var k :| 0 <= k < |h| && h[k] == buf[i];
      assert (h + [tick])[k].ts <= (h + [tick])[|h|].ts;
    }
  }

  /** A query no wider than the largest window and no earlier than the last tick sees, through the pruned buffer and
      its early exit, exactly the ticks of the whole history inside the window: so all metrics agree. */
  lemma WindowIsFullHistory(maxWindowMs: real, trades: seq<Trade>, pair: string, windowMs: real, now: real)
    requires InTime(History(trades, pair)) && windowMs <= maxWindowMs
    requires var h := History(trades, pair); h != [] ==> h[|h| - 1].ts <= now
    ensures BackScan(BufferOf(Run(maxWindowMs, trades), pair), now - windowMs) == Since(History(trades, pair), now - windowMs)
  {
    BufferIsRecentHistory(maxWindowMs, trades, pair);
    WindowOfRecent(History(trades, pair), BufferOf(Run(maxWindowMs, trades), pair), maxWindowMs, windowMs, now);
  }

  lemma WindowOfRecent(h: seq<Tick>, buf: seq<Tick>, maxWindowMs: real, windowMs: real, now: real)
    requires InTime(h) && IsRecent(buf, h, maxWindowMs) && windowMs <= maxWindowMs
    requires h != [] ==> h[|h| - 1].ts <= now
    ensures BackScan(buf, now - windowMs) == Since(h, now - windowMs)
  {
    if h != [] {
      RecentInTime(h, buf, maxWindowMs);
      BackScanIsFilter(buf, now - windowMs);
      SinceTwice(h, h[|h| - 1].ts - maxWindowMs, now - windowMs);
    }
  }

  // ------------------------------------------------------------ ticks out of time

  /** No tick of the window was followed by one from before it. */
  ghost predicate WindowIsLast(ts: seq<Tick>, cutoff: real) {
    forall i, j | 0 <= i < j < |ts| && ts[j].ts < cutoff :: ts[i].ts < cutoff
  }

  lemma {:induction false} SinceLength(ts: seq<Tick>, cutoff: real)
    ensures |Since(ts, cutoff)| <= |ts|
    ensures |Since(ts, cutoff)| == 0 <==> forall i | 0 <= i < |ts| :: ts[i].ts < cutoff
  {
    if ts != [] {
      var n := |ts| - 1;
      SinceLength(ts[..n], cutoff);
      assert forall i | 0 <= i < n :: ts[..n][i] == ts[i];
    }
  }

  /** For every list of ticks the early exit sees exactly the window when the window's ticks came last, and misses some
      otherwise. */
  lemma {:induction false} ScanIsFilterIff(ts: seq<Tick>, cutoff: real)
    ensures BackScan(ts, cutoff) == Since(ts, cutoff) <==> WindowIsLast(ts, cutoff)
  {
    if ts != [] {
      var n := |ts| - 1;
      if ts[n].ts < cutoff {
        LastIsOld(ts, cutoff);
      } else {
        ScanIsFilterIff(ts[..n], cutoff);
        PrefixWindowIsLast(ts, cutoff);
        SameWithLast(BackScan(ts[..n], cutoff), Since(ts[..n], cutoff), ts[n]);
      }
    }
  }

  lemma SameWithLast(xs: seq<Tick>, ys: seq<Tick>, last: Tick)
    ensures xs + [last] == ys + [last] <==> xs == ys
  {
    assert (xs + [last])[..|xs|] == xs && (ys + [last])[..|ys|] == ys;
  }

  lemma LastIsOld(ts: seq<Tick>, cutoff: real)
    requires ts != [] && ts[|ts| - 1].ts < cutoff
    ensures Since(ts, cutoff) == [] <==> WindowIsLast(ts, cutoff)
  {
    SinceLength(ts, cutoff);
    var n := |ts| - 1;
    if WindowIsLast(ts, cutoff) {
      forall i | 0 <= i < |ts| ensures ts[i].ts < cutoff {
        assert i < n ==> ts[n].ts < cutoff;
      }
    }
  }

  lemma PrefixWindowIsLast(ts: seq<Tick>, cutoff: real)
    requires ts != [] && ts[|ts| - 1].ts >= cutoff
    ensures WindowIsLast(ts, cutoff) <==> WindowIsLast(ts[..|ts| - 1], cutoff)
  {
    var n := |ts| - 1;
    if WindowIsLast(ts[..n], cutoff) {
      forall i, j | 0 <= i < j < |ts| && ts[j].ts < cutoff ensures ts[i].ts < cutoff {
        assert ts[..n][j] == ts[j] && ts[..n][i] == ts[i];
      }
    }
  }

  /** The buffer is the history without its first `k` ticks, all from before the cutoff. */
  ghost predicate IsSuffix(buf: seq<Tick>, h: seq<Tick>, k: nat, cutoff: real) {
    k <= |h| && buf == h[k..] && forall i | 0 <= i < k :: h[i].ts < cutoff
  }

  lemma ExtendSuffix(h: seq<Tick>, buf: seq<Tick>, k: nat, tick: Tick, maxWindowMs: real, cutoff: real) returns (m: nat)
    requires IsSuffix(buf, h, k, cutoff) && tick.ts - maxWindowMs <= cutoff
    ensures IsSuffix(DropOld(buf + [tick], tick.ts - maxWindowMs), h + [tick], m, cutoff)
  {
    assert h[k..] + [tick] == (h + [tick])[k..];
    var dropped := DropIsSuffix(buf + [tick], tick.ts - maxWindowMs);
    m := k + dropped;
    SuffixTwice(h + [tick], k, dropped);
    forall i | 0 <= i < m ensures (h + [tick])[i].ts < cutoff {
      if k <= i { assert (h + [tick])[i] == (buf + [tick])[i - k]; }
    }
  }

  /** Pruning takes ticks off the front only, and only such as no later query can ask for. */
  lemma {:induction false} BufferIsSuffix(maxWindowMs: real, trades: seq<Trade>, pair: string, cutoff: real) returns (k: nat)
    requires forall t | t in History(trades, pair) :: t.ts - maxWindowMs <= cutoff
    ensures IsSuffix(BufferOf(Run(maxWindowMs, trades), pair), History(trades, pair), k, cutoff)
  {
    k := 0;
    if trades != [] {
      var n := |trades| - 1;
      LastTrade(maxWindowMs, trades, pair);
      if trades[n].pair == pair {
        ReachBack(History(trades[..n], pair), trades[n].tick, maxWindowMs, cutoff);
        k := BufferIsSuffix(maxWindowMs, trades[..n], pair, cutoff);
        k := ExtendSuffix(History(trades[..n], pair), BufferOf(Run(maxWindowMs, trades[..n]), pair), k,
                          trades[n].tick, maxWindowMs, cutoff);
      } else {
        k := BufferIsSuffix(maxWindowMs, trades[..n], pair, cutoff);
      }
    }
  }

  lemma ReachBack(h: seq<Tick>, tick: Tick, maxWindowMs: real, cutoff: real)
    requires forall t | t in h + [tick] :: t.ts - maxWindowMs <= cutoff
    ensures tick.ts - maxWindowMs <= cutoff && forall t | t in h :: t.ts - maxWindowMs <= cutoff
  {
    assert tick in h + [tick] && forall t | t in h :: t in h + [tick];
  }

  lemma SuffixTwice(ts: seq<Tick>, a: nat, b: nat)
    requires a + b <= |ts|
    ensures ts[a..][b..] == ts[a + b..]
  {
  }

  lemma {:induction false} DropIsSuffix(buf: seq<Tick>, cutoff: real) returns (k: nat)
    ensures k <= |buf| && DropOld(buf, cutoff) == buf[k..] && forall i | 0 <= i < k :: buf[i].ts < cutoff
  {
    k := 0;
    if buf != [] && buf[0].ts < cutoff {
      var rest := DropIsSuffix(buf[1..], cutoff);
      k := rest + 1;
      assert buf[1..][rest..] == buf[k..];
      forall i | 0 <= i < k ensures buf[i].ts < cutoff { if i > 0 { assert buf[1..][i - 1] == buf[i]; } }
    }
  }

  /** The scan stops at old ticks whether or not they were pruned. */
  lemma {:induction false} ScanOfSuffix(ts: seq<Tick>, k: nat, cutoff: real)
    requires k <= |ts| && forall i | 0 <= i < k :: ts[i].ts < cutoff
    ensures BackScan(ts[k..], cutoff) == BackScan(ts, cutoff)
    decreases |ts|
  {
    if k < |ts| {
      var n := |ts| - 1;
      assert ts[k..][..n - k] == ts[..n][k..] && ts[k..][n - k] == ts[n];
      if ts[n].ts >= cutoff { ScanOfSuffix(ts[..n], k, cutoff); }
    } else {
      assert ts[k..] == [];
    }
  }

  /** In whatever order the ticks came: a query no wider than the largest window and no earlier than any tick sees
      exactly the window of the whole history if and only if no tick of the window was followed by an older one from
      before it. */
  lemma WindowIsFullHistoryIff(maxWindowMs: real, trades: seq<Trade>, pair: string, windowMs: real, now: real)
    requires windowMs <= maxWindowMs && forall t | t in History(trades, pair) :: t.ts <= now
    ensures BackScan(BufferOf(Run(maxWindowMs, trades), pair), now - windowMs) == Since(History(trades, pair), now - windowMs)
      <==> WindowIsLast(History(trades, pair), now - windowMs)
  {
    var h := History(trades, pair);
    NoLaterThan(h, now, windowMs, maxWindowMs);
    var k := BufferIsSuffix(maxWindowMs, trades, pair, now - windowMs);
    SuffixScanIff(BufferOf(Run(maxWindowMs, trades), pair), h, k, now - windowMs);
  }

  lemma NoLaterThan(h: seq<Tick>, now: real, windowMs: real, maxWindowMs: real)
    requires windowMs <= maxWindowMs && forall t | t in h :: t.ts <= now
    ensures forall t | t in h :: t.ts - maxWindowMs <= now - windowMs
  {
  }

  lemma SuffixScanIff(buf: seq<Tick>, h: seq<Tick>, k: nat, cutoff: real)
    requires IsSuffix(buf, h, k, cutoff)
    ensures BackScan(buf, cutoff) == Since(h, cutoff) <==> WindowIsLast(h, cutoff)
  {
    ScanOfSuffix(h, k, cutoff);
    ScanIsFilterIff(h, cutoff);
  }

  /** A witness: one late tick hides an earlier one that is inside the window. */
  lemma LateTickHidesWindow(a: Tick, b: Tick)
    requires a == Tick(100.0, 1.0, 1.0, true) && b == Tick(0.0, 1.0, 1.0, true)
    ensures var trades := [Trade("p", a), Trade("p", b)];
      && History(trades, "p") == [a, b] && Since([a, b], 50.0) == [a]
      && BackScan(BufferOf(Run(50.0, trades), "p"), 100.0 - 50.0) == []
  {
    var trades := [Trade("p", a), Trade("p", b)];
    HistoryOfTwo("p", a, b);
    var k := BufferIsSuffix(50.0, trades, "p", 50.0);
    assert [a, b][0] == a && k == 0;
    SinceSnoc([a], b, 50.0);
    SinceSnoc([], a, 50.0);
    assert [a] + [b] == [a, b] && [] + [a] == [a];
  }

  lemma HistoryOfTwo(pair: string, a: Tick, b: Tick)
    ensures History([Trade(pair, a), Trade(pair, b)], pair) == [a, b]
  {
    var trades := [Trade(pair, a), Trade(pair, b)];
    assert trades[..1] == [Trade(pair, a)] && trades[..1][..0] == [];
    assert History(trades[..1], pair) == [a];
  }

  /** The running delta of a pair is the signed sum of all its ticks, in any order of time. */
  lemma {:induction false} CvdIsSignedSum(maxWindowMs: real, trades: seq<Trade>, pair: string)
    ensures CvdOf(Run(maxWindowMs, trades), pair) == SignedSum(History(trades, pair))
  {
    if trades != [] {
      var n := |trades| - 1;
      CvdIsSignedSum(maxWindowMs, trades[..n], pair);
      var h := History(trades[..n], pair);
      assert (h + [trades[n].tick])[..|h|] == h;
    }
  }

  lemma {:induction false} VolumesNonNegative(ts: seq<Tick>)
    requires forall i | 0 <= i < |ts| :: ts[i].qty > 0.0
    ensures BuyVol(ts) >= 0.0 && SellVol(ts) >= 0.0
    ensures ts != [] ==> BuyVol(ts) + SellVol(ts) > 0.0
  {
    if ts != [] {
      VolumesNonNegative(ts[1..]);
    }
  }

  lemma {:induction false} BuyOnly(ts: seq<Tick>)
    requires forall i | 0 <= i < |ts| :: ts[i].qty > 0.0
    ensures SellVol(ts) == 0.0 <==> forall i | 0 <= i < |ts| :: ts[i].buyAggressive
  {
    if ts != [] {
      VolumesNonNegative(ts[1..]);
      BuyOnly(ts[1..]);
      assert ts == [ts[0]] + ts[1..];
      if SellVol(ts) == 0.0 {
        forall i | 0 <= i < |ts| ensures ts[i].buyAggressive { if i > 0 { assert ts[1..][i - 1] == ts[i]; } }
      }
    }
  }

  lemma RatioBounds(delta: real, total: real)
    requires total > 0.0 && -total <= delta <= total
    ensures -1.0 <= delta / total <= 1.0
    ensures delta / total == 1.0 <==> delta == total
  {
    var q := delta / total;
    assert q * total == delta;
    assert (1.0 - q) * total == total - delta && (q + 1.0) * total == delta + total;
  }

  /** The imbalance of ticks with positive quantities lies in [-1, 1]; it is one exactly when there are ticks and all
      of them buy. */
  lemma ImbalanceInRange(ts: seq<Tick>, windowMs: real)
    requires forall i | 0 <= i < |ts| :: ts[i].qty > 0.0
    ensures -1.0 <= MetricsOf(ts, windowMs).imbalance <= 1.0
    ensures MetricsOf(ts, windowMs).imbalance == 1.0 <==> ts != [] && forall i | 0 <= i < |ts| :: ts[i].buyAggressive
  {
    VolumesNonNegative(ts);
    BuyOnly(ts);
    if ts != [] { RatioBounds(BuyVol(ts) - SellVol(ts), BuyVol(ts) + SellVol(ts)); }
  }

  function QtySum(ts: seq<Tick>): real {
    if ts == [] then 0.0 else QtySum(ts[..|ts| - 1]) + ts[|ts| - 1].qty
  }

  lemma {:induction false} SumsFromFront(ts: seq<Tick>)
    requires ts != []
    ensures QtySum(ts) == ts[0].qty + QtySum(ts[1..]) && SignedSum(ts) == SignedQty(ts[0]) + SignedSum(ts[1..])
  {
    var n := |ts| - 1;
    if n > 0 {
      SumsFromFront(ts[..n]);
      assert ts[..n][1..] == ts[1..][..n - 1];
    }
  }

  lemma {:induction false} VolumesAre(ts: seq<Tick>)
    ensures BuyVol(ts) + SellVol(ts) == QtySum(ts) && BuyVol(ts) - SellVol(ts) == SignedSum(ts)
  {
    if ts != [] {
      VolumesAre(ts[1..]);
      SumsFromFront(ts);
    }
  }

  /** `part` is that share of `whole`. */
  predicate IsShare(share: real, part: real, whole: real) { share * whole == part }

  /** Whatever the ticks: bought and sold add up to all quantities and differ by the signed ones, and the imbalance is the
      share of that difference in the total, zero without a positive total. */
  lemma MetricsMean(ts: seq<Tick>, windowMs: real)
    ensures var m := MetricsOf(ts, windowMs);
      && m.windowMs == windowMs && m.trades == |ts|
      && m.totalVol == m.buyVol + m.sellVol == QtySum(ts) && m.delta == m.buyVol - m.sellVol == SignedSum(ts)
      && if m.totalVol > 0.0 then IsShare(m.imbalance, m.delta, m.totalVol) else m.imbalance == 0.0
  {
    VolumesAre(ts);
    if QtySum(ts) > 0.0 { QuotientIsShare(SignedSum(ts), QtySum(ts)); }
  }

  lemma QuotientIsShare(part: real, whole: real)
    requires whole > 0.0
    ensures IsShare(part / whole, part, whole)
  {
  }

  // ------------------------------------------------------------ the component's own form

  function Backwards(ts: seq<Tick>): seq<Tick> {
    if ts == [] then [] else Backwards(ts[1..]) + [ts[0]]
  }

  lemma {:induction false} BackwardsTwice(ts: seq<Tick>)
    ensures Backwards(Backwards(ts)) == ts
  {
    if ts != [] {
      BackwardsTwice(ts[1..]);
      BackwardsAppend(Backwards(ts[1..]), ts[0]);
    }
  }

  lemma {:induction false} BackwardsAppend(ts: seq<Tick>, t: Tick)
    ensures Backwards(ts + [t]) == [t] + Backwards(ts)
  {
    if ts == [] {
      assert [t][1..] == [];
    } else {
      BackwardsAppend(ts[1..], t);
      assert (ts + [t])[1..] == ts[1..] + [t];
    }
  }

  /** Where the backward scan stops. */
  lemma {:induction false} ScanStops(buf: seq<Tick>, cutoff: real, i: nat)
    requires i <= |buf| && (forall k | i <= k < |buf| :: buf[k].ts >= cutoff) && (i > 0 ==> buf[i - 1].ts < cutoff)
    ensures BackScan(buf, cutoff) == buf[i..]
  {
    if i == |buf| {
      assert buf[i..] == [];
    } else {
      var n := |buf| - 1;
      ScanStops(buf[..n], cutoff, i);
      assert buf[..n][i..] + [buf[n]] == buf[i..];
      assert BackScan(buf, cutoff) == BackScan(buf[..n], cutoff) + [buf[n]];
    }
  }

  method WindowMetricsFromBuffer(buf: seq<Tick>, windowMs: real, now: real) returns (m: WindowMetrics)
    ensures m == MetricsOf(BackScan(buf, now - windowMs), windowMs)
  {
    var cutoff := now - windowMs;
    var buyVol, sellVol := 0.0, 0.0;
    var count: nat := 0;
    var i := |buf|;
    while i > 0 && !(buf[i - 1].ts < cutoff)
      invariant 0 <= i <= |buf| && count == |buf| - i
      invariant forall k | i <= k < |buf| :: buf[k].ts >= cutoff
      invariant buyVol == BuyVol(buf[i..]) && sellVol == SellVol(buf[i..])
    {
      i := i - 1;
      assert buf[i..][1..] == buf[i + 1..];
      count := count + 1;
      if buf[i].buyAggressive {
        buyVol := buyVol + buf[i].qty;
      } else {
        sellVol := sellVol + buf[i].qty;
      }
    }
    ScanStops(buf, cutoff, i);
    return MetricsFrom(windowMs, count, buyVol, sellVol);
  }

  class TradeFlow {
    const maxWindowMs: real
    var buffers: map<string, seq<Tick>>
    var cvds: map<string, real>

    ghost function Value(): State
      reads this
    {
      State(buffers, cvds)
    }

    constructor (maxWindowMs: real)
      ensures Value() == State(map[], map[]) && this.maxWindowMs == maxWindowMs
    {
      this.maxWindowMs := maxWindowMs;
      buffers, cvds := map[], map[];
    }

    method IngestTick(pair: string, tick: Tick)
      modifies this
      ensures Value() == Ingest(maxWindowMs, old(Value()), pair, tick)
    {
      var buf := (if pair in buffers then buffers[pair] else []) + [tick];
      var cutoff := tick.ts - maxWindowMs;
      var dropFrom := 0;
      while dropFrom < |buf| && buf[dropFrom].ts < cutoff
        invariant 0 <= dropFrom <= |buf|
        invariant DropOld(buf, cutoff) == DropOld(buf[dropFrom..], cutoff)
      {
        assert buf[dropFrom..][1..] == buf[dropFrom + 1..];
        dropFrom := dropFrom + 1;
      }
      buffers := buffers[pair := buf[dropFrom..]];
      var delta := if tick.buyAggressive then tick.qty else -tick.qty;
      cvds := cvds[pair := (if pair in cvds then cvds[pair] else 0.0) + delta];
    }

    method WindowMetricsFor(pair: string, windowMs: real, now: real) returns (m: Option<WindowMetrics>)
      ensures m == if BufferOf(Value(), pair) == [] then None
                   else Some(MetricsOf(BackScan(BufferOf(Value(), pair), now - windowMs), windowMs))
    {
      if pair !in buffers || |buffers[pair]| == 0 {
        return None;
      }
      var w := WindowMetricsFromBuffer(buffers[pair], windowMs, now);
      return Some(w);
    }

    method Ticks(pair: string, windowMs: real, now: real) returns (out: seq<Tick>)
      ensures out == BackScan(BufferOf(Value(), pair), now - windowMs)
    {
      if pair !in buffers || |buffers[pair]| == 0 {
        return [];
      }
      var buf, cutoff := buffers[pair], now - windowMs;
      out := [];
      var i := |buf|;
      while i > 0 && !(buf[i - 1].ts < cutoff)
        invariant 0 <= i <= |buf|
        invariant forall k | i <= k < |buf| :: buf[k].ts >= cutoff
        invariant out == Backwards(buf[i..])
      {
        i := i - 1;
        assert buf[i..][1..] == buf[i + 1..];
        out := out + [buf[i]];
      }
      ScanStops(buf, cutoff, i);
      BackwardsTwice(buf[i..]);
      out := Backwards(out);
    }
  }
}
