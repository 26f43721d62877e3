/** Sweeps: after the exchange has answered, diff, replace and report. */
module Reconciliation {
  import opened Common
  import opened Tables
  import opened AccountStores
  import D = Divergences

  function PositionDiffs(cfg: D.Config, table: seq<Position>, rows: seq<Position>): seq<D.Diff<Position>> {
    D.DiffRows(cfg, POSITIONS, Snapshot(cfg.number, table), rows)
  }

  function BalanceDiffs(cfg: D.Config, table: seq<Balance>, rows: seq<Balance>): seq<D.Diff<Balance>> {
    D.DiffRows(cfg, BALANCES, table, rows)
  }

  function OrderDiffs(cfg: D.Config, table: seq<Order>, rows: seq<Order>): seq<D.Diff<Order>> {
    D.DiffRows(cfg, ORDERS, OpenOrders(table), rows)
  }

  /** Orders that were open and unfilled here and are not in the exchange's answer: reported as cancelled. */
  function Unfilled(number: Reader, open: seq<Order>, rows: seq<Order>): seq<string> {
    if open == [] then []
    else
      var n := |open| - 1;
      var before := Unfilled(number, open[..n], rows);
      if !Has(OrderKey, rows, open[n].id) && number(open[n].remainingQty) > 0.0 then before + [open[n].id] else before
  }

  /** No sweep lists a missing id or a differing field twice. */
  lemma SweepsListOnce(
      cfg: D.Config, positions: seq<Position>, balances: seq<Balance>, orders: seq<Order>,
      positionRows: seq<Position>, balanceRows: seq<Balance>, orderRows: seq<Order>)
    ensures D.NoneTwice(PositionDiffs(cfg, positions, positionRows))
    ensures D.NoneTwice(BalanceDiffs(cfg, balances, balanceRows))
    ensures D.NoneTwice(OrderDiffs(cfg, orders, orderRows))
  {
    FieldsOnce();
    RowsListOnce(cfg, POSITIONS, Snapshot(cfg.number, positions), positionRows);
    RowsListOnce(cfg, BALANCES, balances, balanceRows);
    RowsListOnce(cfg, ORDERS, OpenOrders(orders), orderRows);
  }

  lemma RowsListOnce<T>(cfg: D.Config, schema: D.Schema<T>, local: seq<T>, rest: seq<T>)
    requires D.NoRepeats(schema.compare)
    ensures D.NoneTwice(D.DiffRows(cfg, schema, local, rest))
  {
    PutAllDistinct(schema.key, [], local);
    PutAllDistinct(schema.key, [], rest);
    D.DiffListsOnce(cfg, schema, TableOf(schema.key, local), TableOf(schema.key, rest));
  }

  // ------------------------------------------------------------ positions

  lemma {:induction false} SnapshotIs(number: Reader, table: seq<Position>, p: Position)
    ensures p in Snapshot(number, table) <==> p in table && !IsFlat(number, p)
  {
    if table != [] {
      var n := |table| - 1;
      SnapshotIs(number, table[..n], p);
      assert table == table[..n] + [table[n]];
    }
  }

  lemma {:induction false} SnapshotDistinct(number: Reader, table: seq<Position>)
    requires Distinct(PositionKey, table)
    ensures Distinct(PositionKey, Snapshot(number, table))
  {
    if table != [] {
      var n := |table| - 1;
      SnapshotDistinct(number, table[..n]);
      var before := Snapshot(number, table[..n]);
      forall i | 0 <= i < |before| ensures before[i].id != table[n].id {
        SnapshotIs(number, table[..n], before[i]);
        var k :| 0 <= k < n && table[..n][k] == before[i];
        assert PositionKey(table[k]) != PositionKey(table[n]);
      }
    }
  }

  /** After a sweep the visible positions are exactly the exchange's that are not flat. */
  lemma SnapshotIsRest(number: Reader, table: seq<Position>, rows: seq<Position>, p: Position)
    requires Distinct(PositionKey, table) && number("0") == 0.0
    ensures p in Snapshot(number, ReplacePositions(number, table, rows))
            <==> p in TableOf(PositionKey, rows) && !IsFlat(number, p)
  {
    var flattened := FlattenVanished(number, rows, table);
    SnapshotIs(number, ReplacePositions(number, table, rows), p);
    FlattenedDistinct(number, rows, table);
    PutAllMember(PositionKey, flattened, rows, p);
    if p in flattened && !Has(PositionKey, rows, p.id) {
      var i :| 0 <= i < |flattened| && flattened[i] == p;
      assert Vanished(number, rows, table[i]) || p == table[i];
      assert IsFlat(number, p);
    }
  }

  /** Sweeping again with the same answer finds only what the exchange reports as flat: nothing exactly when it
      reports no flat position. */
  lemma PositionsSettleIff(cfg: D.Config, table: seq<Position>, rows: seq<Position>)
    requires Distinct(PositionKey, table) && cfg.number("0") == 0.0
    ensures PositionDiffs(cfg, ReplacePositions(cfg.number, table, rows), rows) == []
            <==> forall p | p in TableOf(PositionKey, rows) :: !IsFlat(cfg.number, p)
  {
    var after, rest := ReplacePositions(cfg.number, table, rows), TableOf(PositionKey, rows);
    var local := Snapshot(cfg.number, after);
    ReplacedDistinct(cfg.number, table, rows);
    SnapshotDistinct(cfg.number, after);
    TableOfDistinct(PositionKey, local);
    forall p ensures p in local <==> p in rest && !IsFlat(cfg.number, p) { SnapshotIsRest(cfg.number, table, rows, p); }
    D.DiffEmptyIff(cfg, POSITIONS, local, rest);
    if forall p | p in rest :: !IsFlat(cfg.number, p) {
      SubsetAgrees(POSITIONS, local, rest);
    } else {
      var p :| p in rest && IsFlat(cfg.number, p);
      KeyNotHeld(PositionKey, rest, local, p);
      assert Has(PositionKey, rest, PositionKey(p));
    }
  }

  /** Tables with the same rows agree. */
  lemma SubsetAgrees<T>(schema: D.Schema<T>, local: seq<T>, rest: seq<T>)
    requires Distinct(schema.key, rest) && forall x :: x in local <==> x in rest
    ensures D.Agree(schema, local, rest)
  {
    forall id: string, l: T, r: T, f: string | l in local && r in rest && D.IsPair(schema, local, rest, id, l, r) && f in schema.compare
      ensures !D.Differs(schema, l, r, f)
    {
      DistinctMembers(schema.key, rest, l, r);
    }
  }

  lemma {:induction false} SynthesizedIs(number: Reader, rows: seq<Position>, table: seq<Position>, id: string)
    ensures id in Synthesized(number, rows, table) <==> exists p | p in table :: p.id == id && Vanished(number, rows, p)
  {
    if table != [] {
      var n := |table| - 1;
      SynthesizedIs(number, rows, table[..n], id);
      assert table == table[..n] + [table[n]];
      if id in Synthesized(number, rows, table[..n]) {
        var p :| p in table[..n] && p.id == id && Vanished(number, rows, p);
        assert p in table;
      }
      if p :| p in table && p.id == id && Vanished(number, rows, p) {
        assert p == table[n] || p in table[..n];
      }
    }
  }

  /** Each position that is open here and absent from the exchange is reported exactly once and is flat afterwards;
      a second identical sweep reports none. */
  lemma VanishedReportedOnce(number: Reader, table: seq<Position>, rows: seq<Position>, id: string)
    requires Distinct(PositionKey, table) && number("0") == 0.0
    ensures D.NoRepeats(Synthesized(number, rows, table))
    ensures id in Synthesized(number, rows, table) <==> exists p | p in table :: p.id == id && Vanished(number, rows, p)
    ensures id in Synthesized(number, rows, table) ==> IsFlatIn(number, ReplacePositions(number, table, rows), id)
    ensures Synthesized(number, rows, ReplacePositions(number, table, rows)) == []
  {
    SynthesizedOnce(number, rows, table);
    SynthesizedIs(number, rows, table, id);
    if id in Synthesized(number, rows, table) { FlatAfterwards(number, table, rows, id); }
    NoneVanishedTwice(number, table, rows);
  }

  /** The position with this id is held as flat, in size and in name. */
  ghost predicate IsFlatIn(number: Reader, table: seq<Position>, id: string) {
    exists p :: p in table && p.id == id && IsFlat(number, p) && p.side == FlatPosition
  }

  lemma FlatAfterwards(number: Reader, table: seq<Position>, rows: seq<Position>, id: string)
    requires Distinct(PositionKey, table) && number("0") == 0.0
    requires exists p | p in table :: p.id == id && Vanished(number, rows, p)
    ensures IsFlatIn(number, ReplacePositions(number, table, rows), id)
  {
    var flattened := FlattenVanished(number, rows, table);
    var p :| p in table && p.id == id && Vanished(number, rows, p);
    var i :| 0 <= i < |table| && table[i] == p;
    assert flattened[i] == Flattened(p);
    FlattenedDistinct(number, rows, table);
    PutAllMember(PositionKey, flattened, rows, Flattened(p));
    assert Flattened(p) in ReplacePositions(number, table, rows);
  }

  lemma {:induction false} SynthesizedOnce(number: Reader, rows: seq<Position>, table: seq<Position>)
    requires Distinct(PositionKey, table)
    ensures D.NoRepeats(Synthesized(number, rows, table))
  {
    if table != [] {
      var n := |table| - 1;
      SynthesizedOnce(number, rows, table[..n]);
      SynthesizedIs(number, rows, table[..n], table[n].id);
      forall p | p in table[..n] ensures p.id != table[n].id {
        var k :| 0 <= k < n && table[..n][k] == p;
        assert PositionKey(table[k]) != PositionKey(table[n]);
      }
    }
  }

  lemma NoneVanishedTwice(number: Reader, table: seq<Position>, rows: seq<Position>)
    requires Distinct(PositionKey, table) && number("0") == 0.0
    ensures Synthesized(number, rows, ReplacePositions(number, table, rows)) == []
  {
    var after := ReplacePositions(number, table, rows);
    var again := Synthesized(number, rows, after);
    if |again| > 0 {
      SynthesizedIs(number, rows, after, again[0]);
      var p :| p in after && p.id == again[0] && Vanished(number, rows, p);
      SnapshotIs(number, after, p);
      SnapshotIsRest(number, table, rows, p);
      PutAllMember(PositionKey, [], rows, p);
    }
  }

  // ------------------------------------------------------------ balances

  /** After a sweep the balances are the exchange's, and comparing again finds nothing. */
  lemma BalancesSettle(cfg: D.Config, rows: seq<Balance>)
    ensures BalanceDiffs(cfg, TableOf(BalanceKey, rows), rows) == []
  {
    var rest := TableOf(BalanceKey, rows);
    PutAllDistinct(BalanceKey, [], rows);
    TableOfDistinct(BalanceKey, rest);
    D.DiffOfSame(cfg, BALANCES, rest);
  }

  // ------------------------------------------------------------ orders

  /** What a sweep leaves of the orders: the answer put in, then the eviction. */
  function SweptOrders(opts: OrderStoreOptions, table: seq<Order>, rows: seq<Order>, now: real): seq<Order> {
    Evicted(opts, ReplaceOrders(table, rows), now)
  }

  /** Eviction only removes rows, and no open one. */
  lemma EvictionKeepsOpen(opts: OrderStoreOptions, table: seq<Order>, now: real, o: Order)
    requires Distinct(OrderKey, table)
    ensures o in Evicted(opts, table, now) ==> o in table
    ensures o in OpenOrders(Evicted(opts, table, now)) <==> o in OpenOrders(table)
  {
    ClosedAndOpen(table, o);
    ClosedAndOpen(Evicted(opts, table, now), o);
    WithoutIs(Unexpired(opts, table, now), Overflow(opts, FreshClosed(opts, table, now)), o);
    EvictionParts(opts, table, now, o);
    if o in table { Survives(opts, table, now, o); }
  }

  lemma EvictedDistinct(opts: OrderStoreOptions, table: seq<Order>, now: real)
    requires Distinct(OrderKey, table)
    ensures Distinct(OrderKey, Evicted(opts, table, now))
  {
    UnexpiredDistinct(opts, table, now);
    WithoutDistinct(Unexpired(opts, table, now), Overflow(opts, FreshClosed(opts, table, now)));
  }

  lemma SweptDistinct(opts: OrderStoreOptions, table: seq<Order>, rows: seq<Order>, now: real)
    requires Distinct(OrderKey, table)
    ensures Distinct(OrderKey, SweptOrders(opts, table, rows, now)) && Distinct(OrderKey, TableOf(OrderKey, rows))
  {
    ReplacedOrdersDistinct(table, rows);
    EvictedDistinct(opts, ReplaceOrders(table, rows), now);
  }

  /** After a sweep the open orders are exactly the exchange's rows that are open. */
  lemma OpenOrdersAreRest(opts: OrderStoreOptions, table: seq<Order>, rows: seq<Order>, now: real, o: Order)
    requires Distinct(OrderKey, table)
    ensures o in OpenOrders(SweptOrders(opts, table, rows, now)) <==> o in TableOf(OrderKey, rows) && !IsClosed(o)
  {
    PartsDistinct(table);
    ReplacedOrdersDistinct(table, rows);
    EvictionKeepsOpen(opts, ReplaceOrders(table, rows), now, o);
    ClosedAndOpen(ReplaceOrders(table, rows), o);
    PutAllMember(OrderKey, ClosedOrders(table), rows, o);
    ClosedAndOpen(table, o);
  }

  /** Comparing the open orders again after the sweep finds nothing exactly when the exchange's rows are all open. */
  lemma OrdersSettleIff(cfg: D.Config, opts: OrderStoreOptions, table: seq<Order>, rows: seq<Order>, now: real)
    requires Distinct(OrderKey, table)
    ensures OrderDiffs(cfg, SweptOrders(opts, table, rows, now), rows) == []
            <==> forall o | o in TableOf(OrderKey, rows) :: !IsClosed(o)
  {
    var after, rest := SweptOrders(opts, table, rows, now), TableOf(OrderKey, rows);
    var local := OpenOrders(after);
    SweptDistinct(opts, table, rows, now);
    PartsDistinct(after);
    TableOfDistinct(OrderKey, local);
    forall o ensures o in local <==> o in rest && !IsClosed(o) { OpenOrdersAreRest(opts, table, rows, now, o); }
    D.DiffEmptyIff(cfg, ORDERS, local, rest);
    if forall o | o in rest :: !IsClosed(o) {
      SubsetAgrees(ORDERS, local, rest);
    } else {
      var o :| o in rest && IsClosed(o);
      KeyNotHeld(OrderKey, rest, local, o);
      assert Has(OrderKey, rest, OrderKey(o));
    }
  }

  lemma {:induction false} UnfilledIs(number: Reader, open: seq<Order>, rows: seq<Order>, id: string)
    ensures id in Unfilled(number, open, rows)
            <==> exists o | o in open :: o.id == id && !Has(OrderKey, rows, id) && number(o.remainingQty) > 0.0
  {
    if open != [] {
      var n := |open| - 1;
      UnfilledIs(number, open[..n], rows, id);
      assert open == open[..n] + [open[n]];
      if id in Unfilled(number, open[..n], rows) {
        var o :| o in open[..n] && o.id == id && number(o.remainingQty) > 0.0;
        assert o in open;
      }
      if o :| o in open && o.id == id && !Has(OrderKey, rows, id) && number(o.remainingQty) > 0.0 {
        assert o == open[n] || o in open[..n];
      }
    }
  }

  /** An order reported as cancelled unfilled was open here with a rest, is not at the exchange, and is gone from the
      store after the sweep. */
  lemma UnfilledIsGone(
      number: Reader, opts: OrderStoreOptions, table: seq<Order>, rows: seq<Order>, now: real, id: string)
    requires Distinct(OrderKey, table) && id in Unfilled(number, OpenOrders(table), rows)
    ensures exists o | o in table :: o.id == id && !IsClosed(o) && number(o.remainingQty) > 0.0
    ensures !Has(OrderKey, rows, id) && !Has(OrderKey, SweptOrders(opts, table, rows, now), id)
  {
    UnfilledIs(number, OpenOrders(table), rows, id);
    var o :| o in OpenOrders(table) && o.id == id && number(o.remainingQty) > 0.0;
    ClosedAndOpen(table, o);
    ReplacedOrdersDistinct(table, rows);
    if Has(OrderKey, SweptOrders(opts, table, rows, now), id) {
      var q :| q in SweptOrders(opts, table, rows, now) && OrderKey(q) == id;
      EvictionKeepsOpen(opts, ReplaceOrders(table, rows), now, q);
      OpenIsReplaced(table, rows, o, q);
    }
  }

  /** An open order that the answer lacks has no row after the replacement. */
  lemma OpenIsReplaced(table: seq<Order>, rows: seq<Order>, o: Order, q: Order)
    requires Distinct(OrderKey, table) && o in table && !IsClosed(o) && !Has(OrderKey, rows, o.id)
    ensures q in ReplaceOrders(table, rows) ==> q.id != o.id
  {
    PartsDistinct(table);
    PutAllMember(OrderKey, ClosedOrders(table), rows, q);
    ClosedAndOpen(table, q);
    if q.id == o.id { DistinctOrRow(table, rows, o, q); }
  }

  /** A second sweep with the same answer reports no order as cancelled. */
  lemma UnfilledOnce(number: Reader, opts: OrderStoreOptions, table: seq<Order>, rows: seq<Order>, now: real)
    requires Distinct(OrderKey, table)
    ensures Unfilled(number, OpenOrders(SweptOrders(opts, table, rows, now)), rows) == []
  {
    var open := OpenOrders(SweptOrders(opts, table, rows, now));
    var again := Unfilled(number, open, rows);
    if |again| > 0 {
      UnfilledIs(number, open, rows, again[0]);
      var o :| o in open && o.id == again[0] && !Has(OrderKey, rows, again[0]);
      OpenOrdersAreRest(opts, table, rows, now, o);
      PutAllMember(OrderKey, [], rows, o);
    }
  }

  lemma DistinctOrRow(table: seq<Order>, rows: seq<Order>, o: Order, q: Order)
    requires Distinct(OrderKey, table) && o in table && q.id == o.id
    ensures q in table ==> q == o
    ensures q in TableOf(OrderKey, rows) ==> Has(OrderKey, rows, o.id)
  {
    if q in table { DistinctMembers(OrderKey, table, o, q); }
    PutAllMember(OrderKey, [], rows, q);
  }

  // ------------------------------------------------------------ eviction

  lemma OverflowIs(opts: OrderStoreOptions, closed: seq<Order>, x: Order, y: Order)
    requires x in Overflow(opts, closed)
    ensures x in closed
    ensures y in closed && y !in Overflow(opts, closed) ==> opts.place(x.updatedAt) <= opts.place(y.updatedAt)
  {
    var sorted := Sort(ByText(opts), closed);
    SortSorts(ByText(opts), closed);
    InMultiset(closed, sorted, x);
    InMultiset(closed, sorted, y);
    var cut := |closed| - opts.closedMax;
    var i :| 0 <= i < cut && sorted[i] == x;
    if y in closed && y !in sorted[..cut] {
      var j :| 0 <= j < |sorted| && sorted[j] == y;
      assert forall m | 0 <= m < cut :: sorted[m] in sorted[..cut];
      assert ByText(opts)(sorted[i]) <= ByText(opts)(sorted[j]);
    }
  }

  /** Eviction never touches an open order, keeps no closed order past its time, and takes a closed order that is in
      time only when there are too many, and then no newer than any it keeps. */
  lemma EvictsOldestClosed(opts: OrderStoreOptions, table: seq<Order>, now: real, x: Order, y: Order)
    requires Distinct(OrderKey, table) && x in table && y in table
    ensures var after := Evicted(opts, table, now); var inTime := FreshClosed(opts, table, now);
      && (!IsClosed(x) ==> x in after)
      && (Expired(opts, x, now) ==> x !in after)
      && (x !in after && !Expired(opts, x, now) ==> |inTime| > opts.closedMax && x in inTime)
      && (x !in after && !Expired(opts, x, now) && IsClosed(y) && y in after ==> opts.place(x.updatedAt) <= opts.place(y.updatedAt))
  {
    var inTime := FreshClosed(opts, table, now);
    var gone := Overflow(opts, inTime);
    Survives(opts, table, now, x);
    Survives(opts, table, now, y);
    if x in gone { OverflowIs(opts, inTime, x, y); }
  }

  /** Where the order of the texts is the order of the times they denote, the evicted are the oldest in time. */
  lemma EvictsOldestInTime(opts: OrderStoreOptions, table: seq<Order>, now: real, x: Order, y: Order)
    requires Distinct(OrderKey, table) && x in table && y in table
    requires forall o | o in table :: opts.time(o.updatedAt).Some?
    requires forall o, q | o in table && q in table && opts.place(o.updatedAt) <= opts.place(q.updatedAt) ::
               opts.time(o.updatedAt).value <= opts.time(q.updatedAt).value
    requires x !in Evicted(opts, table, now) && IsClosed(y) && y in Evicted(opts, table, now)
    ensures opts.time(x.updatedAt).value <= opts.time(y.updatedAt).value
  {
    EvictsOldestClosed(opts, table, now, x, y);
    Survives(opts, table, now, y);
  }

  /** A row survives exactly if it has not expired and is not in the overflow. */
  lemma Survives(opts: OrderStoreOptions, table: seq<Order>, now: real, x: Order)
    requires Distinct(OrderKey, table) && x in table
    ensures var gone := Overflow(opts, FreshClosed(opts, table, now));
      && (x in Evicted(opts, table, now) <==> !Expired(opts, x, now) && x !in gone)
      && (x in gone ==> IsClosed(x) && x in FreshClosed(opts, table, now))
    ensures IsClosed(x) && !Expired(opts, x, now) ==> x in FreshClosed(opts, table, now)
  {
    var inTime := FreshClosed(opts, table, now);
    var gone := Overflow(opts, inTime);
    EvictionParts(opts, table, now, x);
    WithoutIs(Unexpired(opts, table, now), gone, x);
    if x in gone { OverflowIs(opts, inTime, x, x); }
    if Has(OrderKey, gone, x.id) {
      var z :| z in gone && OrderKey(z) == x.id;
      OverflowIs(opts, inTime, z, z);
      EvictionParts(opts, table, now, z);
      DistinctMembers(OrderKey, table, x, z);
    }
  }

  lemma {:induction false} FitsInto(xs: seq<Order>, ys: seq<Order>)
    requires Distinct(OrderKey, xs) && forall x | x in xs :: x in ys
    ensures |xs| <= |ys|
  {
    if xs != [] {
      assert xs[0] in ys;
      var i :| 0 <= i < |ys| && ys[i] == xs[0];
      var rest := ys[..i] + ys[i + 1..];
      forall x | x in xs[1..] ensures x in rest {
        HeadKey(OrderKey, xs, x);
        assert x in xs;
        var j :| 0 <= j < |ys| && ys[j] == x;
        assert j < i ==> rest[j] == x;
        assert j > i ==> rest[j - 1] == x;
      }
      FitsInto(xs[1..], rest);
    }
  }

  /** After eviction there are at most as many closed orders as allowed. */
  lemma ClosedOrdersBounded(opts: OrderStoreOptions, table: seq<Order>, now: real)
    requires Distinct(OrderKey, table)
    ensures |ClosedOrders(Evicted(opts, table, now))| <= opts.closedMax
  {
    var inTime := FreshClosed(opts, table, now);
    var after := Evicted(opts, table, now);
    var kept := if |inTime| > opts.closedMax then Sort(ByText(opts), inTime)[|inTime| - opts.closedMax..] else inTime;
    EvictedDistinct(opts, table, now);
    PartsDistinct(after);
    forall o | o in ClosedOrders(after) ensures o in kept { KeptIsNewest(opts, table, now, o); }
    FitsInto(ClosedOrders(after), kept);
  }

  lemma EvictedClosed(opts: OrderStoreOptions, table: seq<Order>, now: real, o: Order)
    requires o in ClosedOrders(Evicted(opts, table, now))
    ensures o in table && IsClosed(o) && o in Evicted(opts, table, now)
  {
    ClosedAndOpen(Evicted(opts, table, now), o);
    WithoutIs(Unexpired(opts, table, now), Overflow(opts, FreshClosed(opts, table, now)), o);
    EvictionParts(opts, table, now, o);
  }

  lemma KeptIsNewest(opts: OrderStoreOptions, table: seq<Order>, now: real, o: Order)
    requires Distinct(OrderKey, table) && o in ClosedOrders(Evicted(opts, table, now))
    ensures var inTime := FreshClosed(opts, table, now);
      o in if |inTime| > opts.closedMax then Sort(ByText(opts), inTime)[|inTime| - opts.closedMax..] else inTime
  {
    var inTime := FreshClosed(opts, table, now);
    EvictedClosed(opts, table, now, o);
    Survives(opts, table, now, o);
    if |inTime| > opts.closedMax {
      var sorted := Sort(ByText(opts), inTime);
      InMultiset(inTime, sorted, o);
      InTail(sorted, |inTime| - opts.closedMax, o);
    }
  }

  lemma InTail(xs: seq<Order>, cut: nat, o: Order)
    requires cut <= |xs| && o in xs && o !in xs[..cut]
    ensures o in xs[cut..]
  {
    assert xs == xs[..cut] + xs[cut..];
  }

  // ------------------------------------------------------------ the controller's own form

  class AccountReconcileController {
    const cfg: D.Config
    const positions: PositionStore
    const balances: BalanceStore
    const orders: OrderStore

    /** Every store has one row for each key, and reads numbers as the controller does. */
    ghost predicate Valid()
      reads this, positions, balances, orders
    {
      && positions.Valid() && balances.Valid() && orders.Valid()
      && positions.number == cfg.number && balances.number == cfg.number
    }

    constructor (cfg: D.Config, opts: OrderStoreOptions)
      ensures Valid() && this.cfg == cfg && orders.opts == opts
      ensures positions.table == [] && balances.table == [] && orders.table == []
      ensures fresh(positions) && fresh(balances) && fresh(orders)
    {
      this.cfg := cfg;
      positions := new PositionStore(cfg.number);
      balances := new BalanceStore(cfg.number);
      orders := new OrderStore(opts);
    }

    method SweepPositions(rows: seq<Position>) returns (diffs: seq<D.Diff<Position>>, closed: seq<string>)
      requires Valid()
      modifies positions
      ensures Valid()
      ensures diffs == PositionDiffs(cfg, old(positions.table), rows)
      ensures closed == Synthesized(cfg.number, rows, old(positions.table))
      ensures positions.table == ReplacePositions(cfg.number, old(positions.table), rows)
    {
      var localBefore := positions.TakeSnapshot();
      var local := D.ToTable(PositionKey, localBefore);
      var rest := D.ToTable(PositionKey, rows);
      diffs := D.DiffMaps(cfg, POSITIONS, local, rest);
      closed := positions.ReplaceFromRest(rows);
    }

    method SweepBalances(rows: seq<Balance>) returns (diffs: seq<D.Diff<Balance>>)
      requires Valid()
      modifies balances
      ensures Valid()
      ensures diffs == BalanceDiffs(cfg, old(balances.table), rows)
      ensures balances.table == TableOf(BalanceKey, rows)
    {
      var local := D.ToTable(BalanceKey, balances.table);
      var rest := D.ToTable(BalanceKey, rows);
      diffs := D.DiffMaps(cfg, BALANCES, local, rest);
      balances.ReplaceFromRest(rows);
    }

    method SweepOrders(rows: seq<Order>, now: real) returns (diffs: seq<D.Diff<Order>>, unfilled: seq<string>)
      requires Valid()
      modifies orders
      ensures Valid()
      ensures diffs == OrderDiffs(cfg, old(orders.table), rows)
      ensures unfilled == Unfilled(cfg.number, OpenOrders(old(orders.table)), rows)
      ensures orders.table == SweptOrders(orders.opts, old(orders.table), rows, now)
    {
      var localBefore := orders.OpenSnapshot();
      var local := D.ToTable(OrderKey, localBefore);
      var rest := D.ToTable(OrderKey, rows);
      diffs := D.DiffMaps(cfg, ORDERS, local, rest);
      orders.ReplaceFromRest(rows);
      unfilled := HandleUnfilledTimeouts(localBefore, rows);
      orders.EvictExpired(now);
    }

    method HandleUnfilledTimeouts(open: seq<Order>, rows: seq<Order>) returns (unfilled: seq<string>)
      ensures unfilled == Unfilled(cfg.number, open, rows)
    {
      unfilled := [];
      for k := 0 to |open|
        invariant unfilled == Unfilled(cfg.number, open[..k], rows)
      {
        assert open[..k + 1][..k] == open[..k];
        if !Has(OrderKey, rows, open[k].id) && cfg.number(open[k].remainingQty) > 0.0 {
          unfilled := unfilled + [open[k].id];
        }
      }
      assert open[..|open|] == open;
    }
  }
}
