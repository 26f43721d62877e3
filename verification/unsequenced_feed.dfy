/** The replica over a feed whose frames may come without sequence numbers, as the live socket and REST send them. */
module UnsequencedFeeds {
  import opened Common
  import opened OrderBooks
  import opened Replication

  /** A number that is left out or right. */
  predicate NoneOr(given: Option<int>, seqNo: int) {
    given == None || given == Some(seqNo)
  }

  /** A frame with the content the exchange sent; each of its sequence numbers may be missing. */
  ghost predicate Authentic(e: Event, chains: Chains) {
    match e
    case Snapshot(pair, k, f) =>
      && pair in chains && k < |chains[pair]|
      && Lists(f.asks, chains[pair][k].asks) && Lists(f.bids, chains[pair][k].bids)
      && NoneOr(f.seqNo, chains[pair][k].seqNo)
    case Delta(pair, k, f) =>
      && pair in chains && k + 1 < |chains[pair]|
      && Describes(chains[pair][k].asks, f.asks, chains[pair][k + 1].asks)
      && Describes(chains[pair][k].bids, f.bids, chains[pair][k + 1].bids)
      && NoneOr(f.prevSeqNo, chains[pair][k].seqNo) && NoneOr(f.seqNo, chains[pair][k + 1].seqNo)
    case AwaitSnapshot(_) => true
  }

  /** The levels of one version, whatever the number says. */
  ghost predicate ShowsLevels(b: Book, chain: seq<Exchange>, k: nat) {
    k < |chain| && b.asks == chain[k].asks && b.bids == chain[k].bids
  }

  // ------------------------------------------------------------ one delta on the levels of another version

  /** Levels that a delta made from `base` can be applied to: alike wherever the delta says nothing, and with every
      level it deletes. */
  ghost predicate BridgesSide(from: Levels, rows: seq<Row>, base: Levels) {
    && (forall p | !Mentions(rows, p) :: (p in from <==> p in base) && (p in from ==> from[p] == base[p]))
    && (forall i | 0 <= i < |rows| && rows[i].1 == 0.0 :: rows[i].0 in from)
  }

  ghost predicate Bridges(from: Exchange, base: Exchange, f: Frame) {
    BridgesSide(from.asks, f.asks, base.asks) && BridgesSide(from.bids, f.bids, base.bids)
  }

  /** A side that is applied to the end had every level it deletes. */
  lemma {:induction false} DeletedWereThere(from: Levels, rows: seq<Row>)
    requires DistinctPrices(rows) && DeltaSide(from, rows).Applied?
    ensures forall i | 0 <= i < |rows| && rows[i].1 == 0.0 :: rows[i].0 in from
  {
    if rows != [] {
      var n := |rows| - 1;
      DeletedWereThere(from, rows[..n]);
      DeltaPrefix(from, rows[..n], n);
      assert rows[..n][..n] == rows[..n] && !Mentions(rows[..n], rows[n].0);
      forall i | 0 <= i < n && rows[i].1 == 0.0 ensures rows[i].0 in from { assert rows[..n][i] == rows[i]; }
    }
  }

  /** A side of a delta leads to its next version exactly when the levels bridge. */
  lemma SideBridgesIff(from: Levels, rows: seq<Row>, base: Levels, after: Levels)
    requires Describes(base, rows, after)
    ensures DeltaSide(from, rows) == Applied(after) <==> BridgesSide(from, rows, base)
  {
    assert rows[..|rows|] == rows;
    if DeltaSide(from, rows) == Applied(after) {
      DeletedWereThere(from, rows);
      DeltaPrefix(from, rows, |rows|);
    }
    if BridgesSide(from, rows, base) {
      DeltaPrefix(from, rows, |rows|);
      var r := DeltaSide(from, rows).levels;
      forall p ensures (p in r <==> p in after) && (p in r ==> r[p] == after[p]) {
        if Mentions(rows, p) { var i :| 0 <= i < |rows| && rows[i].0 == p; }
      }
      assert r == after;
    }
  }

  /** A taken delta of version `k`, on a book with the levels of version `v`, leads to version `k + 1` without a gap
      exactly when version `v` bridges. */
  lemma DeltaArrivesIff(b: Book, chain: seq<Exchange>, v: nat, k: nat, f: Frame)
    requires ShowsLevels(b, chain, v) && Taken(b, f) && k + 1 < |chain|
    requires Describes(chain[k].asks, f.asks, chain[k + 1].asks) && Describes(chain[k].bids, f.bids, chain[k + 1].bids)
    ensures Receive(b, f).gap == None && ShowsLevels(Receive(b, f).book, chain, k + 1) <==> Bridges(chain[v], chain[k], f)
  {
    SideBridgesIff(chain[v].asks, f.asks, chain[k].asks, chain[k + 1].asks);
    SideBridgesIff(chain[v].bids, f.bids, chain[k].bids, chain[k + 1].bids);
  }

  /** A delta bridges from its own version. */
  lemma OwnVersionBridges(chain: seq<Exchange>, k: nat, f: Frame)
    requires k + 1 < |chain|
    requires Describes(chain[k].asks, f.asks, chain[k + 1].asks) && Describes(chain[k].bids, f.bids, chain[k + 1].bids)
    ensures Bridges(chain[k], chain[k], f)
  {
  }

  // ------------------------------------------------------------ runs

  /** The last event is a snapshot of the pair. */
  predicate EndsInSnapshot(es: seq<Event>, pair: string) {
    es != [] && es[|es| - 1].Snapshot? && es[|es| - 1].pair == pair
  }

  /** The last event is a delta of the pair that its book takes. */
  predicate EndsInTaken(es: seq<Event>, pair: string) {
    es != [] &&
    var n := |es| - 1;
    es[n].Delta? && es[n].pair == pair && pair in Run(es[..n]) && Taken(Run(es[..n])[pair], es[n].frame)
  }

  /** The version the last frame that took effect leads to. */
  function VersionOf(es: seq<Event>, pair: string): nat {
    if es == [] then 0
    else
      var n := |es| - 1;
      if EndsInSnapshot(es, pair) then es[n].index
      else if EndsInTaken(es, pair) then es[n].index + 1
      else VersionOf(es[..n], pair)
  }

  ghost predicate OnCourse(es: seq<Event>, chains: Chains, pair: string) {
    pair in Run(es) && pair in chains && ShowsLevels(Run(es)[pair], chains[pair], VersionOf(es, pair))
  }

  /** At every moment since its last snapshot the book has had the levels it should have, and no taken delta met a
      gap. */
  ghost predicate StaysTrue(es: seq<Event>, chains: Chains, pair: string) {
    es != [] && OnCourse(es, chains, pair) &&
    (EndsInSnapshot(es, pair) ||
     var n := |es| - 1;
     StaysTrue(es[..n], chains, pair) && (EndsInTaken(es, pair) ==> Deliver(Run(es[..n]), es[n]).gap == None))
  }

  /** Every delta taken since the last snapshot bridges from the version before it. */
  ghost predicate AllBridge(es: seq<Event>, chains: Chains, pair: string) {
    es != [] &&
    (EndsInSnapshot(es, pair) ||
     var n := |es| - 1;
     AllBridge(es[..n], chains, pair) && (EndsInTaken(es, pair) ==>
       && pair in chains && VersionOf(es[..n], pair) < |chains[pair]| && es[n].index < |chains[pair]|
       && Bridges(chains[pair][VersionOf(es[..n], pair)], chains[pair][es[n].index], es[n].frame)))
  }

  /** Whatever was before, a snapshot puts the book on course. */
  lemma SnapshotRestores(es: seq<Event>, chains: Chains, pair: string)
    requires ValidChains(chains) && EndsInSnapshot(es, pair) && Authentic(es[|es| - 1], chains)
    ensures StaysTrue(es, chains, pair)
  {
    var e := es[|es| - 1];
    SnapshotReadsSide(e.frame.asks, chains[pair][e.index].asks);
    SnapshotReadsSide(e.frame.bids, chains[pair][e.index].bids);
  }

  /** Any other event but a taken delta leaves the levels of the pair's book alone. */
  lemma OthersChangeNothing(es: seq<Event>, pair: string)
    requires es != [] && !EndsInSnapshot(es, pair) && !EndsInTaken(es, pair)
    ensures SameLevels(Run(es[..|es| - 1]), Run(es), pair)
  {
    var n := |es| - 1;
    OtherStep(Run(es[..n]), es[n], pair);
  }

  /** Both tables have the pair's book with the same levels, or neither has one. */
  predicate SameLevels(before: Books, after: Books, pair: string) {
    && (pair in before <==> pair in after)
    && (pair in before ==> after[pair].asks == before[pair].asks && after[pair].bids == before[pair].bids)
  }

  lemma OtherStep(books: Books, e: Event, pair: string)
    requires !(e.Snapshot? && e.pair == pair)
    requires !(e.Delta? && e.pair == pair && pair in books && Taken(books[pair], e.frame))
    ensures SameLevels(books, Deliver(books, e).books, pair)
  {
    match e
    case Snapshot(other, _, f) =>
    case Delta(other, _, f) => if other == pair && pair in books { NotTaken(books[pair], f); }
    case AwaitSnapshot(other) =>
  }

  lemma NotTaken(b: Book, f: Frame)
    requires !Taken(b, f)
    ensures Receive(b, f).book == b
  {
  }

  lemma TakenIsReceived(es: seq<Event>, pair: string)
    requires EndsInTaken(es, pair)
    ensures var n := |es| - 1; var b, f := Run(es[..n])[pair], es[n].frame;
      pair in Run(es) && Run(es)[pair] == Receive(b, f).book && Deliver(Run(es[..n]), es[n]).gap == Receive(b, f).gap
  {
  }

  /** Over every run of frames with the exchange's content, numbered or not, whatever was lost, repeated or reordered:
      the book keeps showing the right levels exactly as long as every delta it takes bridges; the next snapshot puts
      it back on course in any case. */
  lemma {:induction false} StaysTrueIff(es: seq<Event>, chains: Chains, pair: string)
    requires ValidChains(chains) && forall e | e in es :: Authentic(e, chains)
    ensures StaysTrue(es, chains, pair) <==> AllBridge(es, chains, pair)
  {
    if es != [] {
      var n := |es| - 1;
      if EndsInSnapshot(es, pair) {
        SnapshotRestores(es, chains, pair);
      } else {
        StaysTrueIff(es[..n], chains, pair);
        if StaysTrue(es[..n], chains, pair) {
          if EndsInTaken(es, pair) {
            assert Authentic(es[n], chains);
            TakenIsReceived(es, pair);
            DeltaArrivesIff(Run(es[..n])[pair], chains[pair], VersionOf(es[..n], pair), es[n].index, es[n].frame);
          } else {
            OthersChangeNothing(es, pair);
          }
        }
      }
    }
  }

  /** Every taken delta comes from the version shown before it. */
  predicate InOrder(es: seq<Event>, pair: string) {
    es == [] || EndsInSnapshot(es, pair)
    || (InOrder(es[..|es| - 1], pair)
        && (EndsInTaken(es, pair) ==> es[|es| - 1].index == VersionOf(es[..|es| - 1], pair)))
  }

  /** So a feed that loses and reorders nothing between snapshots keeps the book true without any numbers. */
  lemma {:induction false} InOrderStaysTrue(es: seq<Event>, chains: Chains, pair: string)
    requires ValidChains(chains) && forall e | e in es :: Authentic(e, chains)
    requires HadSnapshot(es, pair) && InOrder(es, pair)
    ensures StaysTrue(es, chains, pair)
  {
    var n := |es| - 1;
    if EndsInSnapshot(es, pair) {
      SnapshotRestores(es, chains, pair);
    } else {
      SnapshotEarlier(es, pair);
      InOrderStaysTrue(es[..n], chains, pair);
      StaysTrueIff(es[..n], chains, pair);
      if EndsInTaken(es, pair) {
        assert Authentic(es[n], chains);
        OwnVersionBridges(chains[pair], es[n].index, es[n].frame);
      }
      StaysTrueIff(es, chains, pair);
    }
  }

  lemma SnapshotEarlier(es: seq<Event>, pair: string)
    requires HadSnapshot(es, pair) && !EndsInSnapshot(es, pair)
    ensures HadSnapshot(es[..|es| - 1], pair)
  {
    var i :| 0 <= i < |es| && es[i].Snapshot? && es[i].pair == pair;
    assert es[..|es| - 1][i] == es[i];
  }

  /** On or off course, every stored quantity stays positive. */
  lemma {:induction false} QuantitiesStayPositive(es: seq<Event>, chains: Chains)
    requires ValidChains(chains) && forall e | e in es :: Authentic(e, chains)
    ensures forall pair | pair in Run(es) :: PositiveBook(Run(es)[pair])
  {
    if es != [] {
      var n := |es| - 1;
      QuantitiesStayPositive(es[..n], chains);
      assert Authentic(es[n], chains);
      match es[n]
      case Snapshot(pair, k, f) =>
        SnapshotStoresPositive(if pair in Run(es[..n]) then Run(es[..n])[pair] else EMPTY_BOOK, f);
      case Delta(pair, k, f) =>
        if pair in Run(es[..n]) {
          RowsNonNegative(chains[pair][k].asks, f.asks, chains[pair][k + 1].asks);
          RowsNonNegative(chains[pair][k].bids, f.bids, chains[pair][k + 1].bids);
          DeltaStoresPositive(Run(es[..n])[pair], f);
        }
      case AwaitSnapshot(_) =>
    }
  }

  lemma RowsNonNegative(base: Levels, rows: seq<Row>, after: Levels)
    requires Describes(base, rows, after) && Positive(after)
    ensures NonNegativeRows(rows)
  {
  }

  /** The delta that a book takes, when all numbers are given, is the one from the version the book shows. */
  lemma TakenIsNext(books: Books, rs: Replicas, chains: Chains, pair: string, k: nat, f: Frame)
    requires ValidChains(chains) && Mirrors(books, rs, chains) && Genuine(Delta(pair, k, f), chains)
    ensures pair in books && Taken(books[pair], f) <==> Fits(rs, pair, k)
  {
    if pair in books {
      if rs[pair].index != k { DifferentNumbers(chains[pair], rs[pair].index, k); }
    }
  }

  lemma DifferentNumbers(chain: seq<Exchange>, i: nat, j: nat)
    requires ValidChain(chain) && i < |chain| && j < |chain| && i != j
    ensures chain[i].seqNo != chain[j].seqNo
  {
    assert i < j || j < i;
  }

  lemma TakenIffFits(es: seq<Event>, chains: Chains, pair: string)
    requires ValidChains(chains) && es != [] && Genuine(es[|es| - 1], chains)
    requires Mirrors(Run(es[..|es| - 1]), FollowAll(es[..|es| - 1]), chains)
    ensures EndsInTaken(es, pair) <==>
      var e := es[|es| - 1]; e.Delta? && e.pair == pair && Fits(FollowAll(es[..|es| - 1]), pair, e.index)
  {
    var n := |es| - 1;
    if es[n].Delta? && es[n].pair == pair {
      TakenIsNext(Run(es[..n]), FollowAll(es[..n]), chains, pair, es[n].index, es[n].frame);
    }
  }

  /** With all numbers given, every taken delta is in order: the sequence check refuses the others. */
  lemma {:induction false} SequencedIsInOrder(es: seq<Event>, chains: Chains, pair: string)
    requires ValidChains(chains) && forall e | e in es :: Genuine(e, chains)
    ensures InOrder(es, pair)
    ensures pair in FollowAll(es) ==> VersionOf(es, pair) == FollowAll(es)[pair].index
  {
    if es != [] {
      var n := |es| - 1;
      SequencedIsInOrder(es[..n], chains, pair);
      RunMirrors(es[..n], chains);
      TakenIffFits(es, chains, pair);
      VersionFollows(es, pair);
    }
  }

  lemma VersionFollows(es: seq<Event>, pair: string)
    requires es != []
    requires EndsInTaken(es, pair) <==>
      var e := es[|es| - 1]; e.Delta? && e.pair == pair && Fits(FollowAll(es[..|es| - 1]), pair, e.index)
    requires pair in FollowAll(es[..|es| - 1]) ==> VersionOf(es[..|es| - 1], pair) == FollowAll(es[..|es| - 1])[pair].index
    ensures pair in FollowAll(es) ==> VersionOf(es, pair) == FollowAll(es)[pair].index
    ensures EndsInTaken(es, pair) ==> es[|es| - 1].index == VersionOf(es[..|es| - 1], pair)
  {
    var n := |es| - 1;
    assert FollowAll(es) == Follow(FollowAll(es[..n]), es[n]);
  }

  /** A witness for a lost delta on the live feed: version 3 arrives where version 2 was lost, is applied without a
      gap, and leaves levels that no version has. */
  lemma LostDeltaGoesUnnoticed(p: Price, q: Price)
    requires p != q
    ensures var chain := [Exchange(map[p := 1.0], map[], 1), Exchange(map[p := 1.0, q := 1.0], map[], 2),
                          Exchange(map[p := 2.0, q := 1.0], map[], 3)];
      var b := AfterSnapshot(EMPTY_BOOK, Frame([(p, 1.0)], [], 0, None, None));
      var f := Frame([(p, 2.0)], [], 1, None, None);
      && ValidChain(chain) && ShowsLevels(b, chain, 0) && Describes(chain[1].asks, f.asks, chain[2].asks)
      && Receive(b, f).gap == None && forall k: nat :: !ShowsLevels(Receive(b, f).book, chain, k)
  {
    var f0, f := Frame([(p, 1.0)], [], 0, None, None), Frame([(p, 2.0)], [], 1, None, None);
    assert f0.asks[0].0 == p && f.asks[0].0 == p;
    assert Lists(f0.asks, map[p := 1.0]) && Lists(f0.bids, map[]);
    SnapshotReadsSide(f0.asks, map[p := 1.0]);
    SnapshotReadsSide(f0.bids, map[]);
    var b := AfterSnapshot(EMPTY_BOOK, f0);
    assert f.asks[..0] == [] && DeltaSide(b.asks, []) == Applied(b.asks);
    assert DeltaSide(b.asks, f.asks) == Applied(map[p := 2.0]);
    var after := Receive(b, f).book.asks;
    assert after == map[p := 2.0] && q !in after && after[p] == 2.0;
  }
}
