/** The stores for positions, balances and orders, kept in order of insertion. */
module AccountStores {
  import opened Common
  import opened Tables
  import D = Divergences

  /** How a decimal text is read; the text of a flattened position reads as zero. */
  type Reader = string -> real

  datatype PositionSide = LongPosition | ShortPosition | FlatPosition

  datatype Position = Position(
    id: string, pair: string, side: PositionSide, activePos: string, avgPrice: string, markPrice: Option<string>,
    leverage: Option<string>, unrealizedPnl: string, realizedPnl: string)

  datatype Balance = Balance(currency: string, available: string, locked: string)

  datatype OrderStatus = Open | PartiallyFilled | Filled | Cancelled | Rejected

  datatype Order = Order(
    id: string, pair: string, status: OrderStatus, price: Option<string>, totalQty: string, remainingQty: string,
    avgFillPrice: Option<string>, updatedAt: string)

  function PositionKey(p: Position): string { p.id }

  function BalanceKey(b: Balance): string { b.currency }

  function OrderKey(o: Order): string { o.id }

  function TextOr(x: Option<string>): string { if x.Some? then x.value else "" }

  function PositionText(p: Position, field: string): string {
    if field == "activePos" then p.activePos
    else if field == "avgPrice" then p.avgPrice
    else if field == "markPrice" then TextOr(p.markPrice)
    else if field == "unrealizedPnl" then p.unrealizedPnl
    else if field == "realizedPnl" then p.realizedPnl
    else TextOr(p.leverage)
  }

  function BalanceText(b: Balance, field: string): string {
    if field == "available" then b.available else b.locked
  }

  function StatusText(s: OrderStatus): string {
    match s
    case Open => "open"
    case PartiallyFilled => "partially_filled"
    case Filled => "filled"
    case Cancelled => "cancelled"
    case Rejected => "rejected"
  }

  function OrderText(o: Order, field: string): string {
    if field == "status" then StatusText(o.status)
    else if field == "totalQty" then o.totalQty
    else if field == "remainingQty" then o.remainingQty
    else if field == "avgFillPrice" then TextOr(o.avgFillPrice)
    else TextOr(o.price)
  }

  const POSITIONS := D.Schema(PositionKey, PositionText,
    ["activePos", "avgPrice", "markPrice", "unrealizedPnl", "realizedPnl", "leverage"],
    ["activePos"], ["unrealizedPnl", "realizedPnl"])

  const BALANCES := D.Schema(BalanceKey, BalanceText, ["available", "locked"], ["available", "locked"], [])

  const ORDERS := D.Schema(OrderKey, OrderText,
    ["status", "totalQty", "remainingQty", "avgFillPrice", "price"], ["totalQty", "remainingQty"], [])

  /** No field is compared twice. */
  lemma FieldsOnce()
    ensures D.NoRepeats(POSITIONS.compare) && D.NoRepeats(BALANCES.compare) && D.NoRepeats(ORDERS.compare)
  {
    var p := POSITIONS.compare;
    assert |p[0]| == 9 && |p[1]| == 8 && |p[2]| == 9 && |p[3]| == 13 && |p[4]| == 11 && |p[5]| == 8;
    assert p[0][0] == 'a' && p[2][0] == 'm' && p[1][0] == 'a' && p[5][0] == 'l';
    var o := ORDERS.compare;
    assert |o[0]| == 6 && |o[1]| == 8 && |o[2]| == 12 && |o[3]| == 12 && |o[4]| == 5;
    assert o[2][0] == 'r' && o[3][0] == 'a';
    assert |BALANCES.compare[0]| == 9 && |BALANCES.compare[1]| == 6;
  }

  // ------------------------------------------------------------ positions

  predicate IsFlat(number: Reader, p: Position) { number(p.activePos) == 0.0 }

  function Flattened(p: Position): Position {
    p.(side := FlatPosition, activePos := "0")
  }

  predicate Vanished(number: Reader, rows: seq<Position>, p: Position) {
    !Has(PositionKey, rows, p.id) && !IsFlat(number, p)
  }

  function FlattenVanished(number: Reader, rows: seq<Position>, table: seq<Position>): (r: seq<Position>)
    ensures |r| == |table|
    ensures forall i | 0 <= i < |r| :: r[i] == if Vanished(number, rows, table[i]) then Flattened(table[i]) else table[i]
  {
    if table == [] then []
    else
      var n := |table| - 1;
      FlattenVanished(number, rows, table[..n])
        + [if Vanished(number, rows, table[n]) then Flattened(table[n]) else table[n]]
  }

  /** The ids flattened because the exchange no longer has them, in order. */
  function Synthesized(number: Reader, rows: seq<Position>, table: seq<Position>): seq<string> {
    if table == [] then []
    else
      var n := |table| - 1;
      var before := Synthesized(number, rows, table[..n]);
      if Vanished(number, rows, table[n]) then before + [table[n].id] else before
  }

  function ReplacePositions(number: Reader, table: seq<Position>, rows: seq<Position>): seq<Position> {
    PutAll(PositionKey, FlattenVanished(number, rows, table), rows)
  }

  lemma FlattenedDistinct(number: Reader, rows: seq<Position>, table: seq<Position>)
    requires Distinct(PositionKey, table)
    ensures Distinct(PositionKey, FlattenVanished(number, rows, table))
  {
    var r := FlattenVanished(number, rows, table);
    forall i, j | 0 <= i < j < |r| ensures PositionKey(r[i]) != PositionKey(r[j]) {
      assert PositionKey(r[i]) == PositionKey(table[i]) && PositionKey(r[j]) == PositionKey(table[j]);
    }
  }

  lemma ReplacedDistinct(number: Reader, table: seq<Position>, rows: seq<Position>)
    requires Distinct(PositionKey, table)
    ensures Distinct(PositionKey, ReplacePositions(number, table, rows)) && Distinct(PositionKey, TableOf(PositionKey, rows))
  {
    FlattenedDistinct(number, rows, table);
    PutAllDistinct(PositionKey, FlattenVanished(number, rows, table), rows);
    PutAllDistinct(PositionKey, [], rows);
  }

  function Snapshot(number: Reader, table: seq<Position>): seq<Position> {
    if table == [] then []
    else
      var n := |table| - 1;
      if IsFlat(number, table[n]) then Snapshot(number, table[..n]) else Snapshot(number, table[..n]) + [table[n]]
  }

  datatype Lifecycle = Opened | Closed | Flipped

  predicate SameSign(x: real, y: real) { (x > 0.0) == (y > 0.0) && (x < 0.0) == (y < 0.0) }

  function ClassifyLifecycle(number: Reader, prev: Option<Position>, next: Position): Option<Lifecycle> {
    var p := if prev.Some? then number(prev.value.activePos) else 0.0;
    var n := number(next.activePos);
    if p == 0.0 && n != 0.0 then Some(Opened)
    else if p != 0.0 && n == 0.0 then Some(Closed)
    else if p != 0.0 && n != 0.0 && !SameSign(p, n) then Some(Flipped)
    else None
  }

  class PositionStore {
    const number: Reader
    var table: seq<Position>

    /** One row for each id. */
    ghost predicate Valid()
      reads this
    {
      Distinct(PositionKey, table)
    }

    constructor (number: Reader)
      ensures Valid() && table == [] && this.number == number
    {
      this.number := number;
      table := [];
    }

    method ApplyWs(next: Position) returns (lifecycle: Option<Lifecycle>)
      requires Valid()
      modifies this
      ensures Valid() && table == Put(PositionKey, old(table), next)
      ensures lifecycle == ClassifyLifecycle(number, Find(PositionKey, old(table), next.id), next)
    {
      lifecycle := ClassifyLifecycle(number, Find(PositionKey, table, next.id), next);
      PutDistinct(PositionKey, table, next);
      table := Put(PositionKey, table, next);
    }

    method ReplaceFromRest(rows: seq<Position>) returns (synthesizedFlat: seq<string>)
      requires Valid()
      modifies this
      ensures Valid() && table == ReplacePositions(number, old(table), rows)
      ensures synthesizedFlat == Synthesized(number, rows, old(table))
    {
      synthesizedFlat := [];
      var flattened: seq<Position> := [];
      for k := 0 to |table|
        invariant table == old(table)
        invariant flattened == FlattenVanished(number, rows, table[..k])
        invariant synthesizedFlat == Synthesized(number, rows, table[..k])
      {
        assert table[..k + 1][..k] == table[..k];
        var existing := table[k];
        if !Has(PositionKey, rows, existing.id) && number(existing.activePos) != 0.0 {
          flattened := flattened + [Flattened(existing)];
          synthesizedFlat := synthesizedFlat + [existing.id];
        } else {
          flattened := flattened + [existing];
        }
      }
      assert table[..|table|] == table;
      table := flattened;
      for k := 0 to |rows|
        invariant table == PutAll(PositionKey, flattened, rows[..k])
      {
        assert rows[..k + 1][..k] == rows[..k];
        table := Put(PositionKey, table, rows[k]);
      }
      assert rows[..|rows|] == rows;
      ReplacedDistinct(number, old(table), rows);
    }

    method TakeSnapshot() returns (r: seq<Position>)
      ensures r == Snapshot(number, table)
    {
      r := [];
      for k := 0 to |table|
        invariant r == Snapshot(number, table[..k])
      {
        assert table[..k + 1][..k] == table[..k];
        if number(table[k].activePos) != 0.0 {
          r := r + [table[k]];
        }
      }
      assert table[..|table|] == table;
    }
  }

  // ------------------------------------------------------------ balances

  predicate IsNegative(number: Reader, b: Balance) {
    number(b.available) < 0.0 || number(b.locked) < 0.0
  }

  predicate SomeNegative(number: Reader, table: seq<Balance>) {
    exists k | 0 <= k < |table| :: IsNegative(number, table[k])
  }

  class BalanceStore {
    const number: Reader
    var table: seq<Balance>
    var violation: bool

    /** One row for each currency, and the flag is up exactly while some balance is negative. */
    ghost predicate Valid()
      reads this
    {
      Distinct(BalanceKey, table) && (violation <==> SomeNegative(number, table))
    }

    constructor (number: Reader)
      ensures Valid() && table == [] && this.number == number
    {
      this.number := number;
      table, violation := [], false;
    }

    method RecomputeViolation()
      requires Distinct(BalanceKey, table)
      modifies this
      ensures Valid() && table == old(table)
    {
      violation := false;
      for k := 0 to |table|
        invariant table == old(table) && !violation
        invariant forall m | 0 <= m < k :: !IsNegative(number, table[m])
      {
        if number(table[k].available) < 0.0 || number(table[k].locked) < 0.0 {
          assert IsNegative(number, table[k]);
          violation := true;
          return;
        }
      }
    }

    method ApplyWs(next: Balance)
      requires Valid()
      modifies this
      ensures Valid() && table == Put(BalanceKey, old(table), next)
    {
      PutDistinct(BalanceKey, table, next);
      table := Put(BalanceKey, table, next);
      RecomputeViolation();
    }

    method ReplaceFromRest(rows: seq<Balance>)
      modifies this
      ensures Valid() && table == TableOf(BalanceKey, rows)
    {
      table := [];
      for k := 0 to |rows|
        invariant table == PutAll(BalanceKey, [], rows[..k])
      {
        assert rows[..k + 1][..k] == rows[..k];
        table := Put(BalanceKey, table, rows[k]);
      }
      assert rows[..|rows|] == rows;
      PutAllDistinct(BalanceKey, [], rows);
      RecomputeViolation();
    }
  }

  // ------------------------------------------------------------ orders

  predicate IsClosed(o: Order) { o.status in {Filled, Cancelled, Rejected} }

  function ClosedOrders(table: seq<Order>): seq<Order> {
    if table == [] then []
    else
      var n := |table| - 1;
      if IsClosed(table[n]) then ClosedOrders(table[..n]) + [table[n]] else ClosedOrders(table[..n])
  }

  function OpenOrders(table: seq<Order>): seq<Order> {
    if table == [] then []
    else
      var n := |table| - 1;
      if IsClosed(table[n]) then OpenOrders(table[..n]) else OpenOrders(table[..n]) + [table[n]]
  }

  function ReplaceOrders(table: seq<Order>, rows: seq<Order>): seq<Order> {
    PutAll(OrderKey, ClosedOrders(table), rows)
  }

  /** How long and how many closed orders are kept; how the text of an update time is read, if it is a time; and the
      place of a text in the order of texts. */
  datatype OrderStoreOptions = OrderStoreOptions(
    closedTtlMs: real, closedMax: nat, time: string -> Option<real>, place: string -> real)

  /** The sort key of eviction: update times are compared as texts. */
  function ByText(opts: OrderStoreOptions): Order -> real {
    (o: Order) => opts.place(o.updatedAt)
  }

  /** A time that cannot be read never runs out. */
  predicate Expired(opts: OrderStoreOptions, o: Order, now: real) {
    var t := opts.time(o.updatedAt);
    IsClosed(o) && t.Some? && now - t.value > opts.closedTtlMs
  }

  /** The closed orders that have not outlived their time. */
  function FreshClosed(opts: OrderStoreOptions, table: seq<Order>, now: real): seq<Order> {
    if table == [] then []
    else
      var n := |table| - 1;
      var before := FreshClosed(opts, table[..n], now);
      if IsClosed(table[n]) && !Expired(opts, table[n], now) then before + [table[n]] else before
  }

  function Unexpired(opts: OrderStoreOptions, table: seq<Order>, now: real): seq<Order> {
    if table == [] then []
    else
      var n := |table| - 1;
      var before := Unexpired(opts, table[..n], now);
      if Expired(opts, table[n], now) then before else before + [table[n]]
  }

  /** The oldest of the closed orders, as many as there are too many. */
  function Overflow(opts: OrderStoreOptions, closed: seq<Order>): seq<Order> {
    if |closed| > opts.closedMax then Sort(ByText(opts), closed)[..|closed| - opts.closedMax] else []
  }

  function Without(table: seq<Order>, gone: seq<Order>): seq<Order> {
    if table == [] then []
    else
      var n := |table| - 1;
      if Has(OrderKey, gone, table[n].id) then Without(table[..n], gone) else Without(table[..n], gone) + [table[n]]
  }

  function Evicted(opts: OrderStoreOptions, table: seq<Order>, now: real): seq<Order> {
    Without(Unexpired(opts, table, now), Overflow(opts, FreshClosed(opts, table, now)))
  }

  lemma {:induction false} ClosedAndOpen(table: seq<Order>, o: Order)
    ensures o in ClosedOrders(table) <==> o in table && IsClosed(o)
    ensures o in OpenOrders(table) <==> o in table && !IsClosed(o)
  {
    if table != [] {
      var n := |table| - 1;
      ClosedAndOpen(table[..n], o);
      assert table == table[..n] + [table[n]];
    }
  }

  lemma {:induction false} PartsDistinct(table: seq<Order>)
    requires Distinct(OrderKey, table)
    ensures Distinct(OrderKey, ClosedOrders(table)) && Distinct(OrderKey, OpenOrders(table))
  {
    if table != [] {
      var n := |table| - 1;
      PartsDistinct(table[..n]);
      OthersDiffer(table, ClosedOrders(table[..n]));
      OthersDiffer(table, OpenOrders(table[..n]));
    }
  }

  lemma OthersDiffer(table: seq<Order>, part: seq<Order>)
    requires table != [] && Distinct(OrderKey, table)
    requires forall o | o in part :: o in ClosedOrders(table[..|table| - 1]) || o in OpenOrders(table[..|table| - 1])
    ensures forall i | 0 <= i < |part| :: OrderKey(part[i]) != OrderKey(table[|table| - 1])
  {
    var n := |table| - 1;
    forall i | 0 <= i < |part| ensures OrderKey(part[i]) != OrderKey(table[n]) {
      assert part[i] in part;
      ClosedAndOpen(table[..n], part[i]);
      var k :| 0 <= k < n && table[..n][k] == part[i];
      assert OrderKey(table[k]) != OrderKey(table[n]);
    }
  }

  lemma ReplacedOrdersDistinct(table: seq<Order>, rows: seq<Order>)
    requires Distinct(OrderKey, table)
    ensures Distinct(OrderKey, ReplaceOrders(table, rows)) && Distinct(OrderKey, TableOf(OrderKey, rows))
  {
    PartsDistinct(table);
    PutAllDistinct(OrderKey, ClosedOrders(table), rows);
    PutAllDistinct(OrderKey, [], rows);
  }

  lemma {:induction false} EvictionParts(opts: OrderStoreOptions, table: seq<Order>, now: real, o: Order)
    ensures o in FreshClosed(opts, table, now) <==> o in table && IsClosed(o) && !Expired(opts, o, now)
    ensures o in Unexpired(opts, table, now) <==> o in table && !Expired(opts, o, now)
  {
    if table != [] {
      var n := |table| - 1;
      EvictionParts(opts, table[..n], now, o);
      assert table == table[..n] + [table[n]];
    }
  }

  lemma {:induction false} WithoutIs(table: seq<Order>, gone: seq<Order>, o: Order)
    ensures o in Without(table, gone) <==> o in table && !Has(OrderKey, gone, o.id)
  {
    if table != [] {
      var n := |table| - 1;
      WithoutIs(table[..n], gone, o);
      assert table == table[..n] + [table[n]];
    }
  }

  lemma {:induction false} WithoutDistinct(table: seq<Order>, gone: seq<Order>)
    requires Distinct(OrderKey, table)
    ensures Distinct(OrderKey, Without(table, gone))
  {
    if table != [] {
      var n := |table| - 1;
      WithoutDistinct(table[..n], gone);
      var before := Without(table[..n], gone);
      forall i | 0 <= i < |before| ensures OrderKey(before[i]) != OrderKey(table[n]) {
        WithoutIs(table[..n], gone, before[i]);
        var k :| 0 <= k < n && table[..n][k] == before[i];
        assert OrderKey(table[k]) != OrderKey(table[n]);
      }
    }
  }

  lemma {:induction false} UnexpiredDistinct(opts: OrderStoreOptions, table: seq<Order>, now: real)
    requires Distinct(OrderKey, table)
    ensures Distinct(OrderKey, Unexpired(opts, table, now))
  {
    if table != [] {
      var n := |table| - 1;
      UnexpiredDistinct(opts, table[..n], now);
      var before := Unexpired(opts, table[..n], now);
      forall i | 0 <= i < |before| ensures OrderKey(before[i]) != OrderKey(table[n]) {
        EvictionParts(opts, table[..n], now, before[i]);
        var k :| 0 <= k < n && table[..n][k] == before[i];
        assert OrderKey(table[k]) != OrderKey(table[n]);
      }
    }
  }
  class OrderStore {
    const opts: OrderStoreOptions
    var table: seq<Order>

    /** One row for each id. */
    ghost predicate Valid()
      reads this
    {
      Distinct(OrderKey, table)
    }

    constructor (opts: OrderStoreOptions)
      ensures Valid() && table == [] && this.opts == opts
    {
      this.opts := opts;
      table := [];
    }

    method ApplyWs(next: Order)
      requires Valid()
      modifies this
      ensures Valid() && table == Put(OrderKey, old(table), next)
    {
      PutDistinct(OrderKey, table, next);
      table := Put(OrderKey, table, next);
    }

    method ReplaceFromRest(rows: seq<Order>)
      requires Valid()
      modifies this
      ensures Valid() && table == ReplaceOrders(old(table), rows)
    {
      var kept: seq<Order> := [];
      for k := 0 to |table|
        invariant table == old(table) && kept == ClosedOrders(table[..k])
      {
        assert table[..k + 1][..k] == table[..k];
        if IsClosed(table[k]) {
          kept := kept + [table[k]];
        }
      }
      assert table[..|table|] == table;
      table := kept;
      for k := 0 to |rows|
        invariant table == PutAll(OrderKey, kept, rows[..k])
      {
        assert rows[..k + 1][..k] == rows[..k];
        table := Put(OrderKey, table, rows[k]);
      }
      assert rows[..|rows|] == rows;
      ReplacedOrdersDistinct(old(table), rows);
    }

    method OpenSnapshot() returns (r: seq<Order>)
      ensures r == OpenOrders(table)
    {
      r := [];
      for k := 0 to |table|
        invariant r == OpenOrders(table[..k])
      {
        assert table[..k + 1][..k] == table[..k];
        if !IsClosed(table[k]) {
          r := r + [table[k]];
        }
      }
      assert table[..|table|] == table;
    }

    method Remove(gone: seq<Order>)
      requires Valid()
      modifies this
      ensures Valid() && table == Without(old(table), gone)
    {
      var kept: seq<Order> := [];
      for k := 0 to |table|
        invariant table == old(table) && kept == Without(table[..k], gone)
      {
        assert table[..k + 1][..k] == table[..k];
        if !Has(OrderKey, gone, table[k].id) {
          kept := kept + [table[k]];
        }
      }
      assert table[..|table|] == table;
      WithoutDistinct(table, gone);
      table := kept;
    }

    method EvictExpired(now: real)
      requires Valid()
      modifies this
      ensures Valid() && table == Evicted(opts, old(table), now)
    {
      var kept, closed := SplitExpired(opts, table, now);
      UnexpiredDistinct(opts, table, now);
      table := kept;
      var overflow := TakeOverflow(opts, closed);
      Remove(overflow);
    }
  }

  method TakeOverflow(opts: OrderStoreOptions, closed: seq<Order>) returns (overflow: seq<Order>)
    ensures overflow == Overflow(opts, closed)
  {
    overflow := [];
    if |closed| > opts.closedMax {
      overflow := Sort(ByText(opts), closed)[..|closed| - opts.closedMax];
    }
  }

  method SplitExpired(opts: OrderStoreOptions, table: seq<Order>, now: real) returns (kept: seq<Order>, closed: seq<Order>)
    ensures kept == Unexpired(opts, table, now) && closed == FreshClosed(opts, table, now)
  {
    kept, closed := [], [];
    for k := 0 to |table|
      invariant kept == Unexpired(opts, table[..k], now)
      invariant closed == FreshClosed(opts, table[..k], now)
    {
      assert table[..k + 1][..k] == table[..k];
      var o := table[k];
      if IsClosed(o) {
        var t := opts.time(o.updatedAt);
        if t.Some? && now - t.value > opts.closedTtlMs {
          continue;
        }
        closed := closed + [o];
      }
      kept := kept + [o];
    }
    assert table[..|table|] == table;
  }
}
