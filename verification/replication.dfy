/** The local books replicate the exchange's books over a feed that loses, repeats and reorders frames. */
module Replication {
  import opened Common
  import opened OrderBooks

  /** The exchange's own book after some update. */
  datatype Exchange = Exchange(asks: Levels, bids: Levels, seqNo: int)

  /** The history of one exchange book: positive quantities, sequence numbers that only grow. */
  ghost predicate ValidChain(chain: seq<Exchange>) {
    && (forall i | 0 <= i < |chain| :: Positive(chain[i].asks) && Positive(chain[i].bids))
    && (forall i, j | 0 <= i < j < |chain| :: chain[i].seqNo < chain[j].seqNo)
  }

  ghost predicate DistinctPrices(rows: seq<Row>) {
    forall i, j | 0 <= i < j < |rows| :: rows[i].0 != rows[j].0
  }

  /** The rows are the levels of a side, each once, in any order. */
  ghost predicate Lists(rows: seq<Row>, levels: Levels) {
    && DistinctPrices(rows)
    && (forall i | 0 <= i < |rows| :: rows[i].0 in levels && levels[rows[i].0] == rows[i].1)
    && (forall p | p in levels :: Mentions(rows, p))
  }

  /** The rows are the changes between two versions of a side: a zero row for a level that
      disappears, a positive row for one that is set, nothing for the others. */
  ghost predicate Describes(before: Levels, rows: seq<Row>, after: Levels) {
    && DistinctPrices(rows)
    && (forall i | 0 <= i < |rows| ::
          if rows[i].1 == 0.0 then rows[i].0 in before && rows[i].0 !in after
          else rows[i].0 in after && after[rows[i].0] == rows[i].1)
    && (forall p | !Mentions(rows, p) :: p in before <==> p in after)
    && (forall p | !Mentions(rows, p) && p in before :: after[p] == before[p])
  }

  /** What can happen to the books: a frame made from the chain at `index`, or the start of a resync. */
  datatype Event =
    | Snapshot(pair: string, index: nat, frame: Frame)
    | Delta(pair: string, index: nat, frame: Frame)
    | AwaitSnapshot(pair: string)

  type Chains = map<string, seq<Exchange>>

  ghost predicate ValidChains(chains: Chains) {
    forall p | p in chains :: ValidChain(chains[p])
  }

  /** A frame really sent by the exchange: the book at `index`, or the step from `index` to the next one. */
  ghost predicate Genuine(e: Event, chains: Chains) {
    match e
    case Snapshot(pair, k, f) =>
      && pair in chains && k < |chains[pair]|
      && Lists(f.asks, chains[pair][k].asks) && Lists(f.bids, chains[pair][k].bids)
      && f.seqNo == Some(chains[pair][k].seqNo)
    case Delta(pair, k, f) =>
      && pair in chains && k + 1 < |chains[pair]|
      && Describes(chains[pair][k].asks, f.asks, chains[pair][k + 1].asks)
      && Describes(chains[pair][k].bids, f.bids, chains[pair][k + 1].bids)
      && f.prevSeqNo == Some(chains[pair][k].seqNo) && f.seqNo == Some(chains[pair][k + 1].seqNo)
    case AwaitSnapshot(_) => true
  }

  function Deliver(books: Books, e: Event): BooksResult {
    match e
    case Snapshot(pair, _, f) => BooksResult(BooksAfterSnapshot(books, pair, f), None)
    case Delta(pair, _, f) => BooksAfterDelta(books, pair, f)
    case AwaitSnapshot(pair) =>
      BooksResult(if pair in books then books[pair := books[pair].(state := Resyncing)] else books, None)
  }

  function Run(es: seq<Event>): Books {
    if es == [] then map[] else Deliver(Run(es[..|es| - 1]), es[|es| - 1]).books
  }

  // ------------------------------------------------------------ the abstract replica

  /** All an ideal replica would keep of a pair: which version it shows, and whether it follows deltas. */
  datatype Replica = Replica(index: nat, following: bool)
  type Replicas = map<string, Replica>

  predicate Fits(rs: Replicas, pair: string, k: nat) {
    pair in rs && rs[pair] == Replica(k, true)
  }

  function Follow(rs: Replicas, e: Event): Replicas {
    match e
    case Snapshot(pair, k, _) => rs[pair := Replica(k, true)]
    case Delta(pair, k, _) => if Fits(rs, pair, k) then rs[pair := Replica(k + 1, true)] else rs
    case AwaitSnapshot(pair) => if pair in rs then rs[pair := rs[pair].(following := false)] else rs
  }

  function FollowAll(es: seq<Event>): Replicas {
    if es == [] then map[] else Follow(FollowAll(es[..|es| - 1]), es[|es| - 1])
  }

  /** The book shows exactly version `k` of the chain, levels and sequence number. */
  ghost predicate Shows(b: Book, chain: seq<Exchange>, k: nat) {
    && k < |chain|
    && b.asks == chain[k].asks && b.bids == chain[k].bids && b.lastSeq == chain[k].seqNo
  }

  ghost predicate Mirrors(books: Books, rs: Replicas, chains: Chains) {
    && books.Keys == rs.Keys
    && forall p | p in books ::
         && p in chains
         && Shows(books[p], chains[p], rs[p].index)
         && books[p].state == (if rs[p].following then Live else Resyncing)
  }

  // ------------------------------------------------------------ one side at a time

  lemma {:induction false} SnapshotPrefix(rows: seq<Row>)
    requires DistinctPrices(rows)
    requires forall i | 0 <= i < |rows| :: rows[i].1 > 0.0
    ensures forall p :: p in SnapshotSide(rows) <==> Mentions(rows, p)
    ensures forall i | 0 <= i < |rows| :: rows[i].0 in SnapshotSide(rows) && SnapshotSide(rows)[rows[i].0] == rows[i].1
  {
    if rows != [] {
      var n := |rows| - 1;
      SnapshotPrefix(rows[..n]);
      assert rows[..n + 1] == rows;
      forall p ensures p in SnapshotSide(rows) <==> Mentions(rows, p) { MentionsOneMore(rows, n, p); }
      forall i | 0 <= i < n ensures rows[i].0 in SnapshotSide(rows) && SnapshotSide(rows)[rows[i].0] == rows[i].1 {
        assert rows[..n][i] == rows[i];
      }
    }
  }

  /** Reading a full listing of a positive side gives that side back. */
  lemma SnapshotReadsSide(rows: seq<Row>, levels: Levels)
    requires Positive(levels) && Lists(rows, levels)
    ensures SnapshotSide(rows) == levels
  {
    SnapshotPrefix(rows);
    var r := SnapshotSide(rows);
    forall p ensures p in r <==> p in levels { assert p in r <==> Mentions(rows, p); }
    forall p | p in r ensures r[p] == levels[p] {
      var i :| 0 <= i < |rows| && rows[i].0 == p;
    }
  }

  /** After the first `n` rows: mentioned prices are as the rows say, the others as before. */
  lemma {:induction false} DeltaPrefix(before: Levels, rows: seq<Row>, n: nat)
    requires n <= |rows| && DistinctPrices(rows)
    requires forall i | 0 <= i < |rows| && rows[i].1 == 0.0 :: rows[i].0 in before
    ensures DeltaSide(before, rows[..n]).Applied?
    ensures var r := DeltaSide(before, rows[..n]).levels;
      && (forall p | !Mentions(rows[..n], p) :: (p in r <==> p in before) && (p in r ==> r[p] == before[p]))
      && (forall i | 0 <= i < n :: if rows[i].1 == 0.0 then rows[i].0 !in r else rows[i].0 in r && r[rows[i].0] == rows[i].1)
    decreases n
  {
    if n > 0 {
      var m := n - 1;
      DeltaPrefix(before, rows, m);
      assert rows[..n][..m] == rows[..m] && rows[..n][m] == rows[m];
      assert !Mentions(rows[..m], rows[m].0);
      forall p ensures Mentions(rows[..n], p) <==> Mentions(rows[..m], p) || p == rows[m].0 {
        MentionsOneMore(rows, m, p);
      }
    }
  }

  /** Applying a genuine delta to the version it was made from gives the next version, without a gap. */
  lemma DeltaReachesNext(before: Levels, rows: seq<Row>, after: Levels)
    requires Describes(before, rows, after)
    ensures DeltaSide(before, rows) == Applied(after)
  {
    DeltaPrefix(before, rows, |rows|);
    assert rows[..|rows|] == rows;
    var r := DeltaSide(before, rows).levels;
    forall p ensures (p in r <==> p in after) && (p in r ==> r[p] == after[p]) {
      if Mentions(rows, p) { var i :| 0 <= i < |rows| && rows[i].0 == p; }
    }
    assert r == after;
  }

  // ------------------------------------------------------------ the replica theorem

  /** A followed book accepts the delta made from its own version and moves to the next one; a delta made
      from any other version is a sequence mismatch that changes nothing. */
  lemma DeltaOnFollowedBook(b: Book, chain: seq<Exchange>, at: nat, k: nat, f: Frame)
    requires ValidChain(chain) && Shows(b, chain, at) && b.state == Live && k + 1 < |chain|
    requires Describes(chain[k].asks, f.asks, chain[k + 1].asks)
    requires Describes(chain[k].bids, f.bids, chain[k + 1].bids)
    requires f.prevSeqNo == Some(chain[k].seqNo) && f.seqNo == Some(chain[k + 1].seqNo)
    ensures at == k ==> Shows(Receive(b, f).book, chain, k + 1) && Receive(b, f).book.state == Live && Receive(b, f).gap == None
    ensures at != k ==> Receive(b, f) == DeltaResult(b, Some(SeqMismatch(chain[at].seqNo, chain[k].seqNo)))
  {
    if at == k {
      DeltaReachesNext(chain[k].asks, f.asks, chain[k + 1].asks);
      DeltaReachesNext(chain[k].bids, f.bids, chain[k + 1].bids);
    } else if at < k {
      assert chain[at].seqNo < chain[k].seqNo;
    } else {
      assert chain[k].seqNo < chain[at].seqNo;
    }
  }

  lemma SnapshotOnBook(b: Book, chain: seq<Exchange>, k: nat, f: Frame)
    requires ValidChain(chain) && k < |chain|
    requires Lists(f.asks, chain[k].asks) && Lists(f.bids, chain[k].bids) && f.seqNo == Some(chain[k].seqNo)
    ensures Shows(AfterSnapshot(b, f), chain, k) && AfterSnapshot(b, f).state == Live
  {
    SnapshotReadsSide(f.asks, chain[k].asks);
    SnapshotReadsSide(f.bids, chain[k].bids);
  }

  lemma MirrorsUpdate(books: Books, rs: Replicas, chains: Chains, pair: string, b: Book, r: Replica)
    requires Mirrors(books, rs, chains) && pair in chains
    requires Shows(b, chains[pair], r.index) && b.state == (if r.following then Live else Resyncing)
    ensures Mirrors(books[pair := b], rs[pair := r], chains)
  {
  }

  lemma DeltaMirrors(books: Books, rs: Replicas, chains: Chains, pair: string, k: nat, f: Frame)
    requires ValidChains(chains) && Genuine(Delta(pair, k, f), chains) && Mirrors(books, rs, chains)
    ensures Mirrors(BooksAfterDelta(books, pair, f).books, Follow(rs, Delta(pair, k, f)), chains)
    ensures BooksAfterDelta(books, pair, f).gap.Some? <==> pair in rs && rs[pair].following && rs[pair].index != k
    ensures BooksAfterDelta(books, pair, f).gap.Some? ==>
      BooksAfterDelta(books, pair, f).gap.value.SeqMismatch? && BooksAfterDelta(books, pair, f).books == books
  {
    if pair in books {
      if rs[pair].following {
        FollowedDeltaMirrors(books, rs, chains, pair, k, f);
      } else {
        assert Receive(books[pair], f) == DeltaResult(books[pair], None);
        assert books[pair := books[pair]] == books;
      }
    }
  }

  lemma FollowedDeltaMirrors(books: Books, rs: Replicas, chains: Chains, pair: string, k: nat, f: Frame)
    requires ValidChains(chains) && Genuine(Delta(pair, k, f), chains) && Mirrors(books, rs, chains)
    requires pair in books && rs[pair].following
    ensures Mirrors(BooksAfterDelta(books, pair, f).books, Follow(rs, Delta(pair, k, f)), chains)
    ensures BooksAfterDelta(books, pair, f).gap.Some? <==> rs[pair].index != k
    ensures BooksAfterDelta(books, pair, f).gap.Some? ==>
      BooksAfterDelta(books, pair, f).gap.value.SeqMismatch? && BooksAfterDelta(books, pair, f).books == books
  {
    var b, r := books[pair], rs[pair];
    DeltaOnFollowedBook(b, chains[pair], r.index, k, f);
    if r.index == k {
      MirrorsUpdate(books, rs, chains, pair, Receive(b, f).book, Replica(k + 1, true));
    } else {
      assert books[pair := b] == books;
    }
  }

  /** One event keeps the mirror. A gap is reported exactly when a followed book gets a delta made from
      another version; it is then a sequence mismatch and nothing changes. */
  lemma StepMirrors(books: Books, rs: Replicas, chains: Chains, e: Event)
    requires ValidChains(chains) && Genuine(e, chains) && Mirrors(books, rs, chains)
    ensures Mirrors(Deliver(books, e).books, Follow(rs, e), chains)
    ensures Deliver(books, e).gap.Some? <==>
      e.Delta? && e.pair in rs && rs[e.pair].following && rs[e.pair].index != e.index
    ensures Deliver(books, e).gap.Some? ==> Deliver(books, e).gap.value.SeqMismatch? && Deliver(books, e).books == books
  {
    match e
    case Snapshot(pair, k, f) =>
      var b := if pair in books then books[pair] else EMPTY_BOOK;
      SnapshotOnBook(b, chains[pair], k, f);
      MirrorsUpdate(books, rs, chains, pair, AfterSnapshot(b, f), Replica(k, true));
    case Delta(pair, k, f) =>
      DeltaMirrors(books, rs, chains, pair, k, f);
    case AwaitSnapshot(pair) =>
      if pair in books {
        MirrorsUpdate(books, rs, chains, pair, books[pair].(state := Resyncing), rs[pair].(following := false));
      }
  }

  /** Refinement: over every run of genuine frames, whatever was lost, repeated or reordered,
      the concrete books are the abstract replicas. */
  lemma {:induction false} RunMirrors(es: seq<Event>, chains: Chains)
    requires ValidChains(chains) && forall e | e in es :: Genuine(e, chains)
    ensures Mirrors(Run(es), FollowAll(es), chains)
  {
    if es != [] {
      RunMirrors(es[..|es| - 1], chains);
      StepMirrors(Run(es[..|es| - 1]), FollowAll(es[..|es| - 1]), chains, es[|es| - 1]);
    }
  }

  ghost predicate HadSnapshot(es: seq<Event>, pair: string) {
    exists i :: 0 <= i < |es| && es[i].Snapshot? && es[i].pair == pair
  }

  lemma {:induction false} BookExistsIffSnapshot(es: seq<Event>, pair: string)
    ensures pair in Run(es) <==> HadSnapshot(es, pair)
  {
    if es != [] {
      var n := |es| - 1;
      BookExistsIffSnapshot(es[..n], pair);
      if HadSnapshot(es[..n], pair) {
        var i :| 0 <= i < n && es[..n][i].Snapshot? && es[..n][i].pair == pair;
        assert es[i].Snapshot? && es[i].pair == pair;
      }
      if HadSnapshot(es, pair) {
        var i :| 0 <= i < |es| && es[i].Snapshot? && es[i].pair == pair;
        if i < n { assert es[..n][i].Snapshot? && es[..n][i].pair == pair; }
      }
    }
  }

  /** After a pair's first snapshot its local book is always the true book at its last sequence number,
      and every stored quantity is positive. */
  lemma LocalBookIsTrueBook(es: seq<Event>, chains: Chains, pair: string)
    requires ValidChains(chains) && forall e | e in es :: Genuine(e, chains)
    requires HadSnapshot(es, pair)
    ensures pair in Run(es) && pair in chains
    ensures exists k: nat :: Shows(Run(es)[pair], chains[pair], k)
    ensures PositiveBook(Run(es)[pair])
  {
    RunMirrors(es, chains);
    BookExistsIffSnapshot(es, pair);
    assert Shows(Run(es)[pair], chains[pair], FollowAll(es)[pair].index);
  }

  // ------------------------------------------------------------ snapshots without a sequence number

  /** A snapshot without a sequence number (as the REST fallback sends) keeps the old number. The book
      still is the true book at its last sequence number iff the version sent has the same levels. */
  lemma UnsequencedSnapshot(b: Book, chain: seq<Exchange>, k: nat, j: nat, f: Frame)
    requires ValidChain(chain) && Shows(b, chain, k) && j < |chain|
    requires Lists(f.asks, chain[j].asks) && Lists(f.bids, chain[j].bids) && f.seqNo == None
    ensures AfterSnapshot(b, f).asks == chain[j].asks && AfterSnapshot(b, f).bids == chain[j].bids
    ensures (exists i: nat :: Shows(AfterSnapshot(b, f), chain, i)) <==>
      chain[j].asks == chain[k].asks && chain[j].bids == chain[k].bids
  {
    SnapshotReadsSide(f.asks, chain[j].asks);
    SnapshotReadsSide(f.bids, chain[j].bids);
    var b' := AfterSnapshot(b, f);
    if i: nat :| Shows(b', chain, i) {
      assert chain[i].seqNo == chain[k].seqNo;
      assert i == k;
    }
    if chain[j].asks == chain[k].asks && chain[j].bids == chain[k].bids { assert Shows(b', chain, k); }
  }

  /** A run in which that happens: version 2 arrives without its number while the book is at version 1. */
  lemma UnsequencedSnapshotLosesTrack(p: Price)
    ensures var chain := [Exchange(map[p := 1.0], map[], 1), Exchange(map[p := 2.0], map[], 2)];
      var b := AfterSnapshot(EMPTY_BOOK, Frame([(p, 1.0)], [], 0, Some(1), None));
      && ValidChain(chain) && Shows(b, chain, 0)
      && forall k: nat :: !Shows(AfterSnapshot(b, Frame([(p, 2.0)], [], 0, None, None)), chain, k)
  {
    var chain := [Exchange(map[p := 1.0], map[], 1), Exchange(map[p := 2.0], map[], 2)];
    var f0, f1 := Frame([(p, 1.0)], [], 0, Some(1), None), Frame([(p, 2.0)], [], 0, None, None);
    assert f0.asks[0].0 == p && f1.asks[0].0 == p;
    assert Lists(f0.asks, chain[0].asks) && Lists(f0.bids, chain[0].bids);
    SnapshotReadsSide(f0.asks, chain[0].asks);
    SnapshotReadsSide(f0.bids, chain[0].bids);
    var b := AfterSnapshot(EMPTY_BOOK, f0);
    assert Lists(f1.asks, chain[1].asks) && Lists(f1.bids, chain[1].bids);
    UnsequencedSnapshot(b, chain, 0, 1, f1);
    assert chain[0].asks[p] != chain[1].asks[p];
  }
}
