/** The local level-2 book, its sequence check, and the per-pair book manager. */
module OrderBooks {
  import opened Common

  /** A price level is keyed by its decimal text; `value` is the parsed price. */
  datatype Price = Price(text: string, value: real)

  type Row = (Price, real)
  type Levels = map<Price, real>

  datatype BookState = Init | Live | Resyncing | Broken

  datatype Gap =
    | SeqMismatch(expected: int, prevSeq: int)
    | DeleteUnknownAsk(price: Price)
    | DeleteUnknownBid(price: Price)

  datatype Frame = Frame(asks: seq<Row>, bids: seq<Row>, ts: int, seqNo: Option<int>, prevSeqNo: Option<int>)

  datatype Book = Book(asks: Levels, bids: Levels, state: BookState, lastSeq: int, lastTs: int)

  const EMPTY_BOOK := Book(map[], map[], Init, 0, 0)

  /** One side of a snapshot: only positive rows count, the last row for a price wins. */
  function SnapshotSide(rows: seq<Row>): Levels {
    if rows == [] then map[]
    else
      var row := rows[|rows| - 1];
      var before := SnapshotSide(rows[..|rows| - 1]);
      if row.1 > 0.0 then before[row.0 := row.1] else before
  }

  datatype SideResult = Applied(levels: Levels) | Unknown(levels: Levels, price: Price)

  /** One side of a delta: rows in order, stopping at the first delete of a level that is not there. */
  function DeltaSide(levels: Levels, rows: seq<Row>): SideResult {
    if rows == [] then Applied(levels)
    else
      var row := rows[|rows| - 1];
      var before := DeltaSide(levels, rows[..|rows| - 1]);
      if before.Unknown? then before
      else if row.1 != 0.0 then Applied(before.levels[row.0 := row.1])
      else if row.0 in before.levels then Applied(before.levels - {row.0})
      else Unknown(before.levels, row.0)
  }

  function AfterSnapshot(b: Book, f: Frame): Book {
    Book(SnapshotSide(f.asks), SnapshotSide(f.bids), Live,
         if f.seqNo.Some? then f.seqNo.value else b.lastSeq, f.ts)
  }

  datatype DeltaResult = DeltaResult(book: Book, gap: Option<Gap>)

  predicate SeqBroken(b: Book, f: Frame) {
    f.seqNo.Some? && f.prevSeqNo.Some? && f.prevSeqNo.value != b.lastSeq
  }

  function AfterDelta(b: Book, f: Frame): DeltaResult {
    if SeqBroken(b, f) then DeltaResult(b, Some(SeqMismatch(b.lastSeq, f.prevSeqNo.value)))
    else
      var asks := DeltaSide(b.asks, f.asks);
      if asks.Unknown? then DeltaResult(b.(asks := asks.levels), Some(DeleteUnknownAsk(asks.price)))
      else
        var bids := DeltaSide(b.bids, f.bids);
        if bids.Unknown? then
          DeltaResult(b.(asks := asks.levels, bids := bids.levels), Some(DeleteUnknownBid(bids.price)))
        else
          DeltaResult(Book(asks.levels, bids.levels, b.state,
                           if f.seqNo.Some? then f.seqNo.value else b.lastSeq, f.ts), None)
  }

  /** The manager ignores deltas before the first snapshot and while a snapshot is awaited. */
  function Receive(b: Book, f: Frame): DeltaResult {
    if b.state == Init || b.state == Resyncing then DeltaResult(b, None) else AfterDelta(b, f)
  }

  type Books = map<string, Book>

  function BooksAfterSnapshot(books: Books, pair: string, f: Frame): Books {
    books[pair := AfterSnapshot(if pair in books then books[pair] else EMPTY_BOOK, f)]
  }

  datatype BooksResult = BooksResult(books: Books, gap: Option<Gap>)

  function BooksAfterDelta(books: Books, pair: string, f: Frame): BooksResult {
    if pair !in books then BooksResult(books, None)
    else
      var r := Receive(books[pair], f);
      BooksResult(books[pair := r.book], r.gap)
  }

  // ---------------------------------------------------------------- quantities

  ghost predicate Positive(levels: Levels) {
    forall p | p in levels :: levels[p] > 0.0
  }

  ghost predicate PositiveBook(b: Book) {
    Positive(b.asks) && Positive(b.bids)
  }

  ghost predicate NonNegativeRows(rows: seq<Row>) {
    forall i | 0 <= i < |rows| :: rows[i].1 >= 0.0
  }

  lemma {:induction false} SnapshotSidePositive(rows: seq<Row>)
    ensures Positive(SnapshotSide(rows))
  {
    if rows != [] { SnapshotSidePositive(rows[..|rows| - 1]); }
  }

  /** Whatever a snapshot frame carries, only positive quantities are stored afterwards. */
  lemma SnapshotStoresPositive(b: Book, f: Frame)
    ensures PositiveBook(AfterSnapshot(b, f))
  {
    SnapshotSidePositive(f.asks);
    SnapshotSidePositive(f.bids);
  }

  // ---------------------------------------------------------------- exactly when a delta stores a negative quantity

  ghost predicate Mentions(rows: seq<Row>, p: Price) {
    exists i :: 0 <= i < |rows| && rows[i].0 == p
  }

  lemma MentionsOneMore(rows: seq<Row>, n: nat, p: Price)
    requires n < |rows|
    ensures Mentions(rows[..n + 1], p) <==> Mentions(rows[..n], p) || rows[n].0 == p
  {
    if Mentions(rows[..n], p) {
      var i :| 0 <= i < n && rows[..n][i].0 == p;
      assert rows[..n + 1][i].0 == p;
    }
    assert rows[..n + 1][n] == rows[n];
    if Mentions(rows[..n + 1], p) && rows[n].0 != p {
      var i :| 0 <= i < n + 1 && rows[..n + 1][i].0 == p;
      assert rows[..n][i].0 == p;
    }
  }

  /** How many rows of a side are applied: those before the first delete of a level that is not there. */
  function Reach(levels: Levels, rows: seq<Row>): (n: nat)
    ensures n <= |rows|
  {
    if rows == [] then 0
    else if DeltaSide(levels, rows).Applied? then |rows|
    else Reach(levels, rows[..|rows| - 1])
  }

  /** Row `i` is the last one for its price. */
  ghost predicate LastOfPrice(rows: seq<Row>, i: nat) {
    i < |rows| && forall j | i < j < |rows| :: rows[j].0 != rows[i].0
  }

  /** No price ends with a negative row. */
  ghost predicate NoneEndsNegative(rows: seq<Row>) {
    forall i: nat | LastOfPrice(rows, i) :: rows[i].1 >= 0.0
  }

  lemma {:induction false} ReachIsApplied(levels: Levels, rows: seq<Row>)
    ensures DeltaSide(levels, rows[..Reach(levels, rows)]) == Applied(DeltaSide(levels, rows).levels)
  {
    if rows == [] {
    } else if DeltaSide(levels, rows).Applied? {
      assert rows[..|rows|] == rows;
    } else {
      var n := |rows| - 1;
      ReachIsApplied(levels, rows[..n]);
      assert rows[..n][..Reach(levels, rows[..n])] == rows[..Reach(levels, rows)];
    }
  }

  /** After applied rows every price is as its last row says, or as before if it has none. */
  ghost predicate FollowsLast(levels: Levels, rows: seq<Row>, after: Levels) {
    && (forall i: nat | LastOfPrice(rows, i) ::
          if rows[i].1 == 0.0 then rows[i].0 !in after else rows[i].0 in after && after[rows[i].0] == rows[i].1)
    && (forall p | !Mentions(rows, p) :: (p in after <==> p in levels) && (p in after ==> after[p] == levels[p]))
  }

  lemma {:induction false} AppliedFollowsLast(levels: Levels, rows: seq<Row>)
    requires DeltaSide(levels, rows).Applied?
    ensures FollowsLast(levels, rows, DeltaSide(levels, rows).levels)
  {
    if rows != [] {
      AppliedFollowsLast(levels, rows[..|rows| - 1]);
      OneMoreRow(levels, rows, DeltaSide(levels, rows[..|rows| - 1]).levels, DeltaSide(levels, rows).levels);
    }
  }

  lemma OneMoreRow(levels: Levels, rows: seq<Row>, before: Levels, after: Levels)
    requires rows != [] && FollowsLast(levels, rows[..|rows| - 1], before)
    requires var row := rows[|rows| - 1];
      after == if row.1 != 0.0 then before[row.0 := row.1] else before - {row.0}
    ensures FollowsLast(levels, rows, after)
  {
    var n := |rows| - 1;
    forall i: nat | LastOfPrice(rows, i)
      ensures if rows[i].1 == 0.0 then rows[i].0 !in after else rows[i].0 in after && after[rows[i].0] == rows[i].1
    {
      if i < n {
        assert rows[n].0 != rows[i].0;
        assert LastOfPrice(rows[..n], i);
      }
    }
    assert rows[..n + 1] == rows;
    forall p | !Mentions(rows, p) ensures (p in after <==> p in levels) && (p in after ==> after[p] == levels[p]) {
      MentionsOneMore(rows, n, p);
    }
  }

  lemma {:induction false} LastRowOf(rows: seq<Row>, p: Price) returns (i: nat)
    requires Mentions(rows, p)
    ensures LastOfPrice(rows, i) && rows[i].0 == p
  {
    var n := |rows| - 1;
    i := n;
    if rows[n].0 != p {
      assert rows[..n + 1] == rows;
      MentionsOneMore(rows, n, p);
      i := LastRowOf(rows[..n], p);
    }
  }

  lemma SidePositiveIff(levels: Levels, rows: seq<Row>)
    requires Positive(levels)
    ensures Positive(DeltaSide(levels, rows).levels) <==> NoneEndsNegative(rows[..Reach(levels, rows)])
  {
    var applied, after := rows[..Reach(levels, rows)], DeltaSide(levels, rows).levels;
    ReachIsApplied(levels, rows);
    AppliedFollowsLast(levels, applied);
    if NoneEndsNegative(applied) {
      forall p | p in after ensures after[p] > 0.0 {
        if Mentions(applied, p) { var i := LastRowOf(applied, p); }
      }
    }
    if Positive(after) {
      forall i: nat | LastOfPrice(applied, i) ensures applied[i].1 >= 0.0 {}
    }
  }

  /** The delta gets past the manager and the sequence check. */
  predicate Taken(b: Book, f: Frame) {
    b.state != Init && b.state != Resyncing && !SeqBroken(b, f)
  }

  /** The rows of a frame that are applied: none if it is not taken, no bids if the asks stopped at a gap. */
  function AppliedAsks(b: Book, f: Frame): seq<Row> {
    if Taken(b, f) then f.asks[..Reach(b.asks, f.asks)] else []
  }

  function AppliedBids(b: Book, f: Frame): seq<Row> {
    if Taken(b, f) && DeltaSide(b.asks, f.asks).Applied? then f.bids[..Reach(b.bids, f.bids)] else []
  }

  /** For every delta on a book with positive quantities: all quantities stay positive exactly when no price's last
      applied row is negative. */
  lemma DeltaStoresPositiveIff(b: Book, f: Frame)
    requires PositiveBook(b)
    ensures PositiveBook(Receive(b, f).book) <==> NoneEndsNegative(AppliedAsks(b, f)) && NoneEndsNegative(AppliedBids(b, f))
  {
    SidePositiveIff(b.asks, f.asks);
    SidePositiveIff(b.bids, f.bids);
  }

  /** So a frame without negative rows is always safe, also when it stops half-way at a gap. */
  lemma DeltaStoresPositive(b: Book, f: Frame)
    requires PositiveBook(b) && NonNegativeRows(f.asks) && NonNegativeRows(f.bids)
    ensures PositiveBook(Receive(b, f).book)
  {
    DeltaStoresPositiveIff(b, f);
  }

  /** A witness: one negative row that reaches an otherwise applicable delta is stored as it is. */
  lemma NegativeRowIsStored(b: Book, p: Price, q: real, ts: int)
    requires b.state == Live && q < 0.0
    ensures !PositiveBook(Receive(b, Frame([(p, q)], [], ts, None, None)).book)
  {
    var f := Frame([(p, q)], [], ts, None, None);
    assert f.asks[..0] == [];
    assert DeltaSide(b.asks, []) == Applied(b.asks);
    assert DeltaSide(b.asks, f.asks) == Applied(b.asks[p := q]);
    assert Receive(b, f).book.asks[p] < 0.0;
  }

  // ---------------------------------------------------------------- what a frame makes of a book

  /** When row `i` is looked at, its price has a level: the last row before it for the price is not zero, or, without one,
      the level was there. */
  ghost predicate LevelThere(levels: Levels, rows: seq<Row>, i: nat)
    requires i < |rows|
  {
    if Mentions(rows[..i], rows[i].0)
    then exists k: nat :: LastOfPrice(rows[..i], k) && rows[k].0 == rows[i].0 && rows[k].1 != 0.0
    else rows[i].0 in levels
  }

  /** Rows apply up to `n`, the first that deletes a level that is not there. */
  ghost predicate StopsAt(levels: Levels, rows: seq<Row>, n: nat) {
    && n <= |rows| && (forall i | 0 <= i < n && rows[i].1 == 0.0 :: LevelThere(levels, rows, i))
    && (n < |rows| ==> rows[n].1 == 0.0 && !LevelThere(levels, rows, n))
  }

  lemma StopsOnce(levels: Levels, rows: seq<Row>, a: nat, b: nat)
    requires StopsAt(levels, rows, a) && StopsAt(levels, rows, b)
    ensures a == b
  {
  }

  lemma LevelThereIs(levels: Levels, rows: seq<Row>, i: nat, after: Levels)
    requires i < |rows| && FollowsLast(levels, rows[..i], after)
    ensures LevelThere(levels, rows, i) <==> rows[i].0 in after
  {
    if Mentions(rows[..i], rows[i].0) {
      var k := LastRowOf(rows[..i], rows[i].0);
      forall j: nat | LastOfPrice(rows[..i], j) && rows[j].0 == rows[i].0 ensures j == k { LastOnce(rows[..i], j, k); }
    }
  }

  lemma LastOnce(rows: seq<Row>, j: nat, k: nat)
    requires LastOfPrice(rows, j) && LastOfPrice(rows, k) && rows[j].0 == rows[k].0
    ensures j == k
  {
  }

  lemma StopsEarlier(levels: Levels, rows: seq<Row>, n: nat)
    requires rows != [] && n < |rows| && StopsAt(levels, rows[..|rows| - 1], n)
    ensures n < |rows| - 1 ==> StopsAt(levels, rows, n)
    ensures n == |rows| - 1 ==>
      StopsAt(levels, rows, if rows[n].1 == 0.0 && !LevelThere(levels, rows, n) then n else n + 1)
  {
    var m := |rows| - 1;
    forall i | 0 <= i < m ensures rows[..m][i] == rows[i] && (LevelThere(levels, rows[..m], i) <==> LevelThere(levels, rows, i)) {
      assert rows[..m][..i] == rows[..i];
    }
  }

  lemma {:induction false} ReachStops(levels: Levels, rows: seq<Row>)
    ensures StopsAt(levels, rows, Reach(levels, rows))
    ensures DeltaSide(levels, rows).Applied? <==> Reach(levels, rows) == |rows|
    ensures DeltaSide(levels, rows).Unknown? ==>
      Reach(levels, rows) < |rows| && DeltaSide(levels, rows).price == rows[Reach(levels, rows)].0
  {
    if rows != [] {
      var n := |rows| - 1;
      ReachStops(levels, rows[..n]);
      var before := DeltaSide(levels, rows[..n]);
      StopsEarlier(levels, rows, Reach(levels, rows[..n]));
      if before.Applied? {
        AppliedFollowsLast(levels, rows[..n]);
        LevelThereIs(levels, rows, n, before.levels);
      }
    }
  }

  lemma SideMeans(levels: Levels, rows: seq<Row>, n: nat)
    requires StopsAt(levels, rows, n)
    ensures FollowsLast(levels, rows[..n], DeltaSide(levels, rows).levels)
    ensures DeltaSide(levels, rows).Applied? <==> n == |rows|
    ensures n < |rows| ==> DeltaSide(levels, rows) == Unknown(DeltaSide(levels, rows).levels, rows[n].0)
  {
    ReachStops(levels, rows);
    StopsOnce(levels, rows, n, Reach(levels, rows));
    ReachIsApplied(levels, rows);
    AppliedFollowsLast(levels, rows[..n]);
  }

  predicate Mismatch(b: Book, f: Frame) {
    f.seqNo.Some? && f.prevSeqNo.Some? && f.prevSeqNo != Some(b.lastSeq)
  }

  /** For every book and every delta: nothing happens before a snapshot and while one is awaited, nor by a sequence
      mismatch, which is a gap. Else the asks follow their rows up to the first unknown delete, which is a gap and leaves
      bids, number and time; then the bids likewise; and only without a gap number and time are the delta's. */
  lemma DeltaMeans(b: Book, f: Frame, n: nat, m: nat)
    requires StopsAt(b.asks, f.asks, n) && StopsAt(b.bids, f.bids, m)
    ensures var r := Receive(b, f); var a := r.book;
      && a.state == b.state
      && (b.state == Init || b.state == Resyncing ==> r == DeltaResult(b, None))
      && (b.state == Live || b.state == Broken ==>
            if Mismatch(b, f) then r == DeltaResult(b, Some(SeqMismatch(b.lastSeq, f.prevSeqNo.value)))
            else
              && FollowsLast(b.asks, f.asks[..n], a.asks)
              && (n < |f.asks| ==> r.gap == Some(DeleteUnknownAsk(f.asks[n].0)) && a == b.(asks := a.asks))
              && (n == |f.asks| ==> FollowsLast(b.bids, f.bids[..m], a.bids))
              && (n == |f.asks| && m < |f.bids| ==>
                    r.gap == Some(DeleteUnknownBid(f.bids[m].0)) && a == b.(asks := a.asks, bids := a.bids))
              && (n == |f.asks| && m == |f.bids| ==>
                    r.gap == None && a.lastTs == f.ts && a.lastSeq == if f.seqNo.Some? then f.seqNo.value else b.lastSeq))
  {
    SideMeans(b.asks, f.asks, n);
    SideMeans(b.bids, f.bids, m);
  }

  /** Of the first `n` rows the last positive one for its price. */
  ghost predicate LastPositive(rows: seq<Row>, n: nat, i: nat)
    requires n <= |rows|
  {
    i < n && rows[i].1 > 0.0 && forall j | i < j < n && rows[j].1 > 0.0 :: rows[j].0 != rows[i].0
  }

  ghost predicate HeldFrom(rows: seq<Row>, n: nat, p: Price, q: real)
    requires n <= |rows|
  {
    exists i: nat :: LastPositive(rows, n, i) && rows[i] == (p, q)
  }

  /** A side of a snapshot holds exactly, for every price with a positive row, the last such row. */
  ghost predicate HoldsPositive(rows: seq<Row>, levels: Levels) {
    forall p, q :: (p in levels && levels[p] == q) <==> HeldFrom(rows, |rows|, p, q)
  }

  lemma HeldNext(rows: seq<Row>, n: nat, p: Price, q: real)
    requires n < |rows|
    ensures HeldFrom(rows, n + 1, p, q) <==>
      if rows[n].1 > 0.0 && rows[n].0 == p then rows[n].1 == q else HeldFrom(rows, n, p, q)
  {
    if rows[n].1 > 0.0 { assert LastPositive(rows, n + 1, n); }
    forall i: nat | i < n
      ensures LastPositive(rows, n + 1, i) <==> LastPositive(rows, n, i) && !Covers(rows[n], rows[i].0)
    {
      LastPositiveNext(rows, n, i);
    }
  }

  predicate Covers(row: Row, p: Price) { row.1 > 0.0 && row.0 == p }

  lemma LastPositiveNext(rows: seq<Row>, n: nat, i: nat)
    requires i < n < |rows|
    ensures LastPositive(rows, n + 1, i) <==> LastPositive(rows, n, i) && !Covers(rows[n], rows[i].0)
  {
  }

  lemma {:induction false} SnapshotHolds(rows: seq<Row>, n: nat, p: Price, q: real)
    requires n <= |rows|
    ensures (p in SnapshotSide(rows[..n]) && SnapshotSide(rows[..n])[p] == q) <==> HeldFrom(rows, n, p, q)
  {
    if n > 0 {
      SnapshotHolds(rows, n - 1, p, q);
      assert rows[..n][..n - 1] == rows[..n - 1];
      HeldNext(rows, n - 1, p, q);
    }
  }

  lemma SideHolds(rows: seq<Row>)
    ensures HoldsPositive(rows, SnapshotSide(rows))
  {
    assert rows[..|rows|] == rows;
    forall p, q ensures (p in SnapshotSide(rows) && SnapshotSide(rows)[p] == q) <==> HeldFrom(rows, |rows|, p, q) {
      SnapshotHolds(rows, |rows|, p, q);
    }
  }

  /** After a snapshot, whatever was before, the book is live, of the snapshot's time, and of its number if it has one. */
  lemma SnapshotMeans(b: Book, f: Frame)
    ensures var a := AfterSnapshot(b, f);
      && a.state == Live && a.lastTs == f.ts && a.lastSeq == (if f.seqNo.Some? then f.seqNo.value else b.lastSeq)
      && HoldsPositive(f.asks, a.asks) && HoldsPositive(f.bids, a.bids)
  {
    SideHolds(f.asks);
    SideHolds(f.bids);
  }

  // ---------------------------------------------------------------- top of book

  /** `p` is shown strictly before `r` on this side. */
  predicate Better(ascending: bool, p: Price, r: Price) {
    if ascending then p.value < r.value else r.value < p.value
  }

  ghost predicate Distinct<T>(xs: seq<T>) {
    forall i, j | 0 <= i < j < |xs| :: xs[i] != xs[j]
  }

  /** `top` lists `n` levels best first (all of them if there are fewer), and nothing left out is better. */
  ghost predicate IsTopN(levels: Levels, ascending: bool, n: nat, top: seq<Row>) {
    && |top| == MinI(n, |levels|)
    && (forall i | 0 <= i < |top| :: top[i].0 in levels && levels[top[i].0] == top[i].1)
    && (forall i, j | 0 <= i < j < |top| :: top[i].0 != top[j].0 && !Better(ascending, top[j].0, top[i].0))
    && (forall p, i | p in levels && 0 <= i < |top| && Better(ascending, p, top[i].0) ::
          exists j :: 0 <= j < |top| && top[j].0 == p)
  }

  /** The best price of a non-empty set of prices. */
  method PickBest(prices: set<Price>, ascending: bool) returns (best: Price)
    requires prices != {}
    ensures best in prices
    ensures forall p | p in prices :: !Better(ascending, p, best)
  {
    best :| best in prices;
    var rest := prices - {best};
    while rest != {}
      invariant best in prices && rest <= prices
      invariant forall p | p in prices - rest :: !Better(ascending, p, best)
      decreases |rest|
    {
      var p :| p in rest;
      assert forall r | r in prices - rest :: !Better(ascending, r, best);
      ghost var previous := best;
      if Better(ascending, p, best) { best := p; }
      forall r | r in prices - (rest - {p}) ensures !Better(ascending, r, best) {
        if r != p { assert r in prices - rest && !Better(ascending, r, previous); }
      }
      rest := rest - {p};
    }
  }

  /** `top` holds the best levels so far, best first; `left` are the prices not taken, none of them better. */
  ghost predicate BestSoFar(levels: Levels, ascending: bool, top: seq<Row>, left: set<Price>) {
    && left <= levels.Keys
    && (forall i | 0 <= i < |top| :: top[i].0 in levels && levels[top[i].0] == top[i].1 && top[i].0 !in left)
    && (forall i, j | 0 <= i < j < |top| :: top[i].0 != top[j].0 && !Better(ascending, top[j].0, top[i].0))
    && (forall p, i | p in left && 0 <= i < |top| :: !Better(ascending, p, top[i].0))
    && (forall p | p in levels && p !in left :: ListsPrice(top, p))
  }

  ghost predicate ListsPrice(top: seq<Row>, p: Price) {
    exists j :: 0 <= j < |top| && top[j].0 == p
  }

  lemma TakeNext(levels: Levels, ascending: bool, top: seq<Row>, left: set<Price>, best: Price)
    requires BestSoFar(levels, ascending, top, left) && best in left
    requires forall p | p in left :: !Better(ascending, p, best)
    ensures BestSoFar(levels, ascending, top + [(best, levels[best])], left - {best})
  {
    var more := top + [(best, levels[best])];
    forall p | p in levels && p !in left - {best} ensures ListsPrice(more, p) {
      if p == best {
        assert more[|top|].0 == p;
      } else {
        var j :| 0 <= j < |top| && top[j].0 == p;
        assert more[j].0 == p;
      }
    }
  }

  lemma BestIsTop(levels: Levels, ascending: bool, n: nat, top: seq<Row>, left: set<Price>)
    requires BestSoFar(levels, ascending, top, left) && |top| == MinI(n, |levels|)
    ensures IsTopN(levels, ascending, n, top)
  {
    forall p, i | p in levels && 0 <= i < |top| && Better(ascending, p, top[i].0) ensures ListsPrice(top, p) {}
  }

  method TopOfSide(levels: Levels, ascending: bool, n: nat) returns (top: seq<Row>)
    ensures IsTopN(levels, ascending, n, top)
  {
    top := [];
    var left := levels.Keys;
    assert |left| == |levels|;
    while |top| < n && left != {}
      invariant |top| + |left| == |levels| && |top| <= n
      invariant BestSoFar(levels, ascending, top, left)
      decreases |left|
    {
      var best := PickBest(left, ascending);
      TakeNext(levels, ascending, top, left, best);
      top := top + [(best, levels[best])];
      left := left - {best};
    }
    BestIsTop(levels, ascending, n, top, left);
  }

  // ---------------------------------------------------------------- the mutable book

  class OrderBook {
    var asks: Levels
    var bids: Levels
    var state: BookState
    var lastSeq: int
    var lastTs: int

    constructor ()
      ensures View() == EMPTY_BOOK
    {
      asks, bids, state, lastSeq, lastTs := map[], map[], Init, 0, 0;
    }

    function View(): Book
      reads this
    {
      Book(asks, bids, state, lastSeq, lastTs)
    }

    method SetState(s: BookState)
      modifies this
      ensures View() == old(View()).(state := s)
    {
      state := s;
    }

    method ApplySnapshot(f: Frame)
      modifies this
      ensures View() == AfterSnapshot(old(View()), f)
    {
      asks, bids := map[], map[];
      for i := 0 to |f.asks|
        invariant asks == SnapshotSide(f.asks[..i])
        invariant bids == map[] && lastSeq == old(lastSeq)
      {
        assert f.asks[..i + 1][..i] == f.asks[..i];
        if f.asks[i].1 > 0.0 { asks := asks[f.asks[i].0 := f.asks[i].1]; }
      }
      assert f.asks[..|f.asks|] == f.asks;
      for i := 0 to |f.bids|
        invariant bids == SnapshotSide(f.bids[..i])
        invariant asks == SnapshotSide(f.asks) && lastSeq == old(lastSeq)
      {
        assert f.bids[..i + 1][..i] == f.bids[..i];
        if f.bids[i].1 > 0.0 { bids := bids[f.bids[i].0 := f.bids[i].1]; }
      }
      assert f.bids[..|f.bids|] == f.bids;
      lastTs := f.ts;
      if f.seqNo.Some? { lastSeq := f.seqNo.value; }
      state := Live;
    }

    method ApplyDelta(f: Frame) returns (gap: Option<Gap>)
      modifies this
      ensures DeltaResult(View(), gap) == AfterDelta(old(View()), f)
    {
      if f.seqNo.Some? && f.prevSeqNo.Some? && f.prevSeqNo.value != lastSeq {
        return Some(SeqMismatch(lastSeq, f.prevSeqNo.value));
      }
      var unknownAsk := ApplyAskRows(f.asks);
      if unknownAsk.Some? {
        return Some(DeleteUnknownAsk(unknownAsk.value));
      }
      var unknownBid := ApplyBidRows(f.bids);
      if unknownBid.Some? {
        return Some(DeleteUnknownBid(unknownBid.value));
      }
      lastTs := f.ts;
      if f.seqNo.Some? { lastSeq := f.seqNo.value; }
      gap := None;
    }

    /** Up to the first delete of a price that is not there. */
    method ApplyAskRows(rows: seq<Row>) returns (unknown: Option<Price>)
      modifies this
      ensures View() == old(View()).(asks := asks)
      ensures DeltaSide(old(asks), rows) == if unknown == None then Applied(asks) else Unknown(asks, unknown.value)
    {
      for i := 0 to |rows|
        invariant DeltaSide(old(asks), rows[..i]) == Applied(asks)
        invariant View() == old(View()).(asks := asks)
      {
        assert rows[..i + 1][..i] == rows[..i];
        var (p, q) := rows[i];
        if q == 0.0 {
          if p !in asks {
            UnknownStays(old(asks), rows, i + 1);
            return Some(p);
          }
          asks := asks - {p};
        } else {
          asks := asks[p := q];
        }
      }
      assert rows[..|rows|] == rows;
      unknown := None;
    }

    /** Up to the first delete of a price that is not there. */
    method ApplyBidRows(rows: seq<Row>) returns (unknown: Option<Price>)
      modifies this
      ensures View() == old(View()).(bids := bids)
      ensures DeltaSide(old(bids), rows) == if unknown == None then Applied(bids) else Unknown(bids, unknown.value)
    {
      for i := 0 to |rows|
        invariant DeltaSide(old(bids), rows[..i]) == Applied(bids)
        invariant View() == old(View()).(bids := bids)
      {
        assert rows[..i + 1][..i] == rows[..i];
        var (p, q) := rows[i];
        if q == 0.0 {
          if p !in bids {
            UnknownStays(old(bids), rows, i + 1);
            return Some(p);
          }
          bids := bids - {p};
        } else {
          bids := bids[p := q];
        }
      }
      assert rows[..|rows|] == rows;
      unknown := None;
    }

    method TopN(n: nat) returns (topAsks: seq<Row>, topBids: seq<Row>)
      ensures IsTopN(asks, true, n, topAsks) && IsTopN(bids, false, n, topBids)
    {
      topAsks := TopOfSide(asks, true, n);
      topBids := TopOfSide(bids, false, n);
    }
  }

  /** Once a delete has missed, the rest of the side is not looked at. */
  lemma {:induction false} UnknownStays(levels: Levels, rows: seq<Row>, i: nat)
    requires i <= |rows| && DeltaSide(levels, rows[..i]).Unknown?
    ensures DeltaSide(levels, rows) == DeltaSide(levels, rows[..i])
    decreases |rows|
  {
    if i == |rows| {
      assert rows[..i] == rows;
    } else {
      assert rows[..|rows| - 1][..i] == rows[..i];
      UnknownStays(levels, rows[..|rows| - 1], i);
    }
  }

  class BookManager {
    var books: map<string, OrderBook>

    constructor ()
      ensures Valid() && View() == map[]
    {
      books := map[];
    }

    /** Different pairs never share a book object. */
    ghost predicate Valid()
      reads this
    {
      forall p, r | p in books && r in books && p != r :: books[p] != books[r]
    }

    ghost function View(): Books
      reads this, books.Values
    {
      map p | p in books :: books[p].View()
    }

    /** The pair's book, made if there is none yet. */
    method EnsureBook(pair: string)
      requires Valid()
      modifies this
      ensures Valid() && pair in books && fresh(books.Values - old(books.Values))
      ensures View() == if pair in old(books) then old(View()) else old(View())[pair := EMPTY_BOOK]
    {
      if pair !in books {
        var b := new OrderBook();
        books := books[pair := b];
        assert forall p | p in books && p != pair :: books[p] == old(books)[p] && books[p] in old(books.Values);
      }
    }

    method OnDepthSnapshot(pair: string, f: Frame)
      requires Valid()
      modifies this, books.Values
      ensures Valid() && fresh(books.Values - old(books.Values))
      ensures View() == BooksAfterSnapshot(old(View()), pair, f)
    {
      EnsureBook(pair);
      assert books[pair] in books.Values;
      books[pair].ApplySnapshot(f);
    }

    method OnDepthDelta(pair: string, f: Frame) returns (gap: Option<Gap>)
      requires Valid()
      modifies books.Values
      ensures Valid()
      ensures BooksResult(View(), gap) == BooksAfterDelta(old(View()), pair, f)
    {
      if pair !in books || books[pair].state == Init || books[pair].state == Resyncing {
        assert pair in books ==> old(View())[pair := books[pair].View()] == View();
        return None;
      }
      assert books[pair] in books.Values;
      gap := books[pair].ApplyDelta(f);
    }
  }
}
