/** The account stores over whole runs of socket updates and sweeps. */
module AccountRuns {
  import opened Common
  import opened Tables
  import opened AccountStores
  import opened Reconciliation
  import D = Divergences

  // ------------------------------------------------------------ positions

  datatype PositionOp = PositionUpdate(next: Position) | PositionSweep(rows: seq<Position>)

  function PositionStep(number: Reader, table: seq<Position>, op: PositionOp): seq<Position> {
    match op
    case PositionUpdate(next) => Put(PositionKey, table, next)
    case PositionSweep(rows) => ReplacePositions(number, table, rows)
  }

  /** The store's rows after a run. */
  function PositionsAfter(number: Reader, ops: seq<PositionOp>): seq<Position> {
    if ops == [] then [] else PositionStep(number, PositionsAfter(number, ops[..|ops| - 1]), ops[|ops| - 1])
  }

  lemma {:induction false} PositionsDistinct(number: Reader, ops: seq<PositionOp>)
    ensures Distinct(PositionKey, PositionsAfter(number, ops))
  {
    if ops != [] {
      var n := |ops| - 1;
      PositionsDistinct(number, ops[..n]);
      match ops[n]
      case PositionUpdate(next) => PutDistinct(PositionKey, PositionsAfter(number, ops[..n]), next);
      case PositionSweep(rows) => ReplacedDistinct(number, PositionsAfter(number, ops[..n]), rows);
    }
  }

  /** What was last said about an id, by the socket or by a sweep; a sweep that is silent about it flattens it. */
  function LastWord(number: Reader, ops: seq<PositionOp>, id: string): Option<Position> {
    if ops == [] then None
    else
      var n := |ops| - 1;
      var before := LastWord(number, ops[..n], id);
      match ops[n]
      case PositionUpdate(next) => if next.id == id then Some(next) else before
      case PositionSweep(rows) =>
        if Has(PositionKey, rows, id) then LastOf(PositionKey, rows, id)
        else if before.Some? && !IsFlat(number, before.value) then Some(Flattened(before.value))
        else before
  }

  lemma FindFlattened(number: Reader, rows: seq<Position>, table: seq<Position>, id: string)
    requires Distinct(PositionKey, table) && !Has(PositionKey, rows, id)
    ensures var before := Find(PositionKey, table, id);
      Find(PositionKey, FlattenVanished(number, rows, table), id)
      == if before.Some? && !IsFlat(number, before.value) then Some(Flattened(before.value)) else before
  {
    var flattened := FlattenVanished(number, rows, table);
    FlattenedDistinct(number, rows, table);
    FindMember(PositionKey, table, id);
    FindMember(PositionKey, flattened, id);
    var before := Find(PositionKey, table, id);
    if before.Some? {
      var i :| 0 <= i < |table| && table[i] == before.value;
      assert flattened[i] in flattened && flattened[i].id == id;
    } else {
      forall p | p in flattened ensures p.id != id {
        var i :| 0 <= i < |flattened| && flattened[i] == p;
        assert table[i] in table && PositionKey(table[i]) == PositionKey(p);
      }
    }
  }

  /** After every run, an id finds exactly what was last said about it. */
  lemma {:induction false} StoreHoldsLastWord(number: Reader, ops: seq<PositionOp>, id: string)
    ensures Find(PositionKey, PositionsAfter(number, ops), id) == LastWord(number, ops, id)
    ensures LastWord(number, ops, id).Some? ==> LastWord(number, ops, id).value.id == id
  {
    if ops != [] {
      var n := |ops| - 1;
      var before := PositionsAfter(number, ops[..n]);
      StoreHoldsLastWord(number, ops[..n], id);
      match ops[n]
      case PositionUpdate(next) => FindPut(PositionKey, before, next, id);
      case PositionSweep(rows) =>
        PositionsDistinct(number, ops[..n]);
        FindPutAll(PositionKey, FlattenVanished(number, rows, before), rows, id);
        if !Has(PositionKey, rows, id) { FindFlattened(number, rows, before, id); }
    }
  }

  /** The visible positions are the last words that are not flat. */
  lemma VisibleIsLastWord(number: Reader, ops: seq<PositionOp>, p: Position)
    ensures p in Snapshot(number, PositionsAfter(number, ops))
            <==> LastWord(number, ops, p.id) == Some(p) && !IsFlat(number, p)
  {
    StoreHoldsLastWord(number, ops, p.id);
    PositionsDistinct(number, ops);
    FindMember(PositionKey, PositionsAfter(number, ops), p.id);
    SnapshotIs(number, PositionsAfter(number, ops), p);
  }

  /** Whatever happened before, a sweep makes the visible positions the exchange's, reports each vanished position
      once, and a second one with the same answer reports nothing and differs only on flat rows. */
  lemma EverySweepSettles(cfg: D.Config, ops: seq<PositionOp>, rows: seq<Position>, p: Position)
    requires cfg.number("0") == 0.0
    ensures var before := PositionsAfter(cfg.number, ops); var after := PositionsAfter(cfg.number, ops + [PositionSweep(rows)]);
      && (p in Snapshot(cfg.number, after) <==> p in TableOf(PositionKey, rows) && !IsFlat(cfg.number, p))
      && D.NoRepeats(Synthesized(cfg.number, rows, before))
      && Synthesized(cfg.number, rows, after) == []
      && (PositionDiffs(cfg, after, rows) == [] <==> forall q | q in TableOf(PositionKey, rows) :: !IsFlat(cfg.number, q))
  {
    var before := PositionsAfter(cfg.number, ops);
    assert (ops + [PositionSweep(rows)])[..|ops|] == ops;
    PositionsDistinct(cfg.number, ops);
    SnapshotIsRest(cfg.number, before, rows, p);
    SynthesizedOnce(cfg.number, rows, before);
    NoneVanishedTwice(cfg.number, before, rows);
    PositionsSettleIff(cfg, before, rows);
  }

  // ------------------------------------------------------------ opened, closed, flipped

  /** The size held for an id; none is zero. */
  function Held(number: Reader, ops: seq<PositionOp>, id: string): real {
    var w := LastWord(number, ops, id);
    if w.Some? then number(w.value.activePos) else 0.0
  }

  /** What is reported of an id when `op` follows `ops`. */
  function ReportOf(number: Reader, ops: seq<PositionOp>, op: PositionOp, id: string): seq<Lifecycle> {
    var table := PositionsAfter(number, ops);
    match op
    case PositionUpdate(next) =>
      var l := ClassifyLifecycle(number, Find(PositionKey, table, next.id), next);
      if next.id == id && l.Some? then [l.value] else []
    case PositionSweep(rows) => if id in Synthesized(number, rows, table) then [Closed] else []
  }

  function Reports(number: Reader, ops: seq<PositionOp>, id: string): seq<Lifecycle> {
    if ops == [] then []
    else
      var n := |ops| - 1;
      Reports(number, ops[..n], id) + ReportOf(number, ops[..n], ops[n], id)
  }

  /** A socket update is reported by the sizes before and after: flipped exactly if they have opposite signs. */
  lemma UpdateReports(number: Reader, ops: seq<PositionOp>, next: Position)
    ensures var op := PositionUpdate(next); var r := ReportOf(number, ops, op, next.id);
      var held, later := Held(number, ops, next.id), Held(number, ops + [op], next.id);
      && (r == [Opened] <==> held == 0.0 && later != 0.0)
      && (r == [Closed] <==> held != 0.0 && later == 0.0)
      && (r == [Flipped] <==> held * later < 0.0)
      && (r == [] <==> (held == 0.0 && later == 0.0) || held * later > 0.0)
  {
    var op := PositionUpdate(next);
    assert (ops + [op])[..|ops|] == ops && (ops + [op])[|ops|] == op;
    StoreHoldsLastWord(number, ops, next.id);
    assert Held(number, ops + [op], next.id) == number(next.activePos);
    Signs(Held(number, ops, next.id), number(next.activePos));
  }

  lemma Signs(x: real, y: real)
    ensures x * y < 0.0 <==> x != 0.0 && y != 0.0 && !SameSign(x, y)
    ensures x * y > 0.0 <==> x != 0.0 && y != 0.0 && SameSign(x, y)
  {
    if x > 0.0 && y > 0.0 {
      assert x * y > 0.0;
    } else if x > 0.0 && y < 0.0 {
      assert x * -y > 0.0;
    } else if x < 0.0 && y > 0.0 {
      assert -x * y > 0.0;
    } else if x < 0.0 && y < 0.0 {
      assert -x * -y > 0.0;
    }
  }

  /** A sweep reports an id closed exactly if it lacks it and something was held. */
  lemma SweepReports(number: Reader, ops: seq<PositionOp>, rows: seq<Position>, id: string)
    ensures ReportOf(number, ops, PositionSweep(rows), id)
            == if !Has(PositionKey, rows, id) && Held(number, ops, id) != 0.0 then [Closed] else []
  {
    var table := PositionsAfter(number, ops);
    SynthesizedIs(number, rows, table, id);
    StoreHoldsLastWord(number, ops, id);
    PositionsDistinct(number, ops);
    FindMember(PositionKey, table, id);
    if p :| p in table && p.id == id && Vanished(number, rows, p) { assert Find(PositionKey, table, id) == Some(p); }
  }

  /** The last report that is not a flip opened the position. */
  predicate ReportedOpen(rs: seq<Lifecycle>) {
    rs != [] &&
    match rs[|rs| - 1]
    case Opened => true
    case Closed => false
    case Flipped => ReportedOpen(rs[..|rs| - 1])
  }

  /** Opened and closed take turns, opened first, and flips come only in between. */
  predicate TakeTurns(rs: seq<Lifecycle>) {
    rs == [] || (TakeTurns(rs[..|rs| - 1]) && (rs[|rs| - 1] == Opened <==> !ReportedOpen(rs[..|rs| - 1])))
  }

  /** The reports tell whether something is held. */
  predicate InStep(number: Reader, ops: seq<PositionOp>, id: string) {
    ReportedOpen(Reports(number, ops, id)) <==> Held(number, ops, id) != 0.0
  }

  predicate AlwaysInStep(number: Reader, ops: seq<PositionOp>, id: string) {
    InStep(number, ops, id) && (ops != [] ==> AlwaysInStep(number, ops[..|ops| - 1], id))
  }

  /** The answer of a sweep opens or closes the position by a row of its own, which is not reported. */
  predicate Silent(number: Reader, ops: seq<PositionOp>, op: PositionOp, id: string) {
    op.PositionSweep? && Has(PositionKey, op.rows, id)
    && (Held(number, ops, id) == 0.0 <==> number(LastSize(op.rows, id)) != 0.0)
  }

  function LastSize(rows: seq<Position>, id: string): string {
    var r := LastOf(PositionKey, rows, id);
    if r.Some? then r.value.activePos else "0"
  }

  predicate NoneSilent(number: Reader, ops: seq<PositionOp>, id: string) {
    ops == [] || (NoneSilent(number, ops[..|ops| - 1], id) && !Silent(number, ops[..|ops| - 1], ops[|ops| - 1], id))
  }

  /** A run that is in step stays so with one more operation exactly if that is not a silent sweep. */
  lemma StaysInStepIff(number: Reader, ops: seq<PositionOp>, id: string)
    requires number("0") == 0.0 && ops != [] && InStep(number, ops[..|ops| - 1], id)
    ensures InStep(number, ops, id) <==> !Silent(number, ops[..|ops| - 1], ops[|ops| - 1], id)
    ensures TakeTurns(Reports(number, ops[..|ops| - 1], id)) ==> TakeTurns(Reports(number, ops, id))
  {
    var n := |ops| - 1;
    OperationFits(number, ops, id);
    ReportsGrow(number, ops, id);
    FittingReport(Reports(number, ops[..n], id), ReportOf(number, ops[..n], ops[n], id),
                  Held(number, ops[..n], id), Held(number, ops, id), Silent(number, ops[..n], ops[n], id));
  }

  lemma ReportsGrow(number: Reader, ops: seq<PositionOp>, id: string)
    requires ops != []
    ensures var n := |ops| - 1;
      Reports(number, ops, id) == Reports(number, ops[..n], id) + ReportOf(number, ops[..n], ops[n], id)
  {
  }

  lemma FittingReport(before: seq<Lifecycle>, r: seq<Lifecycle>, held: real, later: real, silent: bool)
    requires Fits(r, held, later, silent) && (ReportedOpen(before) <==> held != 0.0)
    ensures (ReportedOpen(before + r) <==> later != 0.0) <==> !silent
    ensures TakeTurns(before) ==> TakeTurns(before + r)
  {
    OneMoreReport(before, r);
  }

  lemma OneMoreReport(before: seq<Lifecycle>, r: seq<Lifecycle>)
    ensures r == [] ==> before + r == before
    ensures |r| == 1 ==>
      && (ReportedOpen(before + r) <==> r[0] == Opened || (r[0] == Flipped && ReportedOpen(before)))
      && (TakeTurns(before + r) <==> TakeTurns(before) && (r[0] == Opened <==> !ReportedOpen(before)))
  {
    if |r| == 1 { assert (before + r)[..|before|] == before; }
  }

  /** A report that fits the sizes before and after; it is missing where it should not be exactly if `silent`. */
  predicate Fits(r: seq<Lifecycle>, held: real, later: real, silent: bool) {
    && |r| <= 1
    && (r == [Opened] ==> held == 0.0 && later != 0.0 && !silent)
    && (r == [Closed] ==> held != 0.0 && later == 0.0 && !silent)
    && (r == [Flipped] ==> held != 0.0 && later != 0.0 && !silent)
    && (r == [] ==> (silent <==> (held == 0.0 <==> later != 0.0)))
  }

  lemma OperationFits(number: Reader, ops: seq<PositionOp>, id: string)
    requires number("0") == 0.0 && ops != []
    ensures var n := |ops| - 1;
      Fits(ReportOf(number, ops[..n], ops[n], id), Held(number, ops[..n], id), Held(number, ops, id),
           Silent(number, ops[..n], ops[n], id))
  {
    var n := |ops| - 1;
    assert ops == ops[..n] + [ops[n]];
    if ops[n].PositionSweep? {
      SweepReports(number, ops[..n], ops[n].rows, id);
      FindPutAll(PositionKey, [], ops[n].rows, id);
    } else if ops[n].next.id == id {
      UpdateReports(number, ops[..n], ops[n].next);
    }
  }

  /** Over every run: the reports tell at every moment whether something is held, exactly if no sweep opens or closes
      the position silently; and then opened and closed take turns. */
  lemma {:induction false} ReportsFollowIff(number: Reader, ops: seq<PositionOp>, id: string)
    requires number("0") == 0.0
    ensures AlwaysInStep(number, ops, id) <==> NoneSilent(number, ops, id)
    ensures NoneSilent(number, ops, id) ==> TakeTurns(Reports(number, ops, id))
  {
    if ops != [] {
      ReportsFollowIff(number, ops[..|ops| - 1], id);
      if AlwaysInStep(number, ops[..|ops| - 1], id) { StaysInStepIff(number, ops, id); }
    }
  }

  /** Socket updates alone are never silent. */
  lemma {:induction false} UpdatesTakeTurns(number: Reader, ops: seq<PositionOp>, id: string)
    requires number("0") == 0.0 && forall op | op in ops :: op.PositionUpdate?
    ensures NoneSilent(number, ops, id) && TakeTurns(Reports(number, ops, id)) && InStep(number, ops, id)
  {
    if ops != [] { UpdatesTakeTurns(number, ops[..|ops| - 1], id); }
    ReportsFollowIff(number, ops, id);
  }

  /** A witness: a position that a sweep finds first is held without ever having been reported. */
  lemma FoundBySweepIsSilent(number: Reader, p: Position)
    requires number("0") == 0.0 && !IsFlat(number, p)
    ensures var ops := [PositionSweep([p])];
      Silent(number, [], ops[0], p.id) && Reports(number, ops, p.id) == [] && Held(number, ops, p.id) != 0.0
  {
    var ops := [PositionSweep([p])];
    assert ops[..0] == [] && p in [p] && PositionKey(p) == p.id;
    SweepReports(number, [], [p], p.id);
    ReportsGrow(number, ops, p.id);
  }

  // ------------------------------------------------------------ orders

  datatype OrderOp = OrderUpdate(next: Order) | OrderSweep(rows: seq<Order>, now: real)

  function OrderStep(opts: OrderStoreOptions, table: seq<Order>, op: OrderOp): seq<Order> {
    match op
    case OrderUpdate(next) => Put(OrderKey, table, next)
    case OrderSweep(rows, now) => SweptOrders(opts, table, rows, now)
  }

  function OrdersAfter(opts: OrderStoreOptions, ops: seq<OrderOp>): seq<Order> {
    if ops == [] then [] else OrderStep(opts, OrdersAfter(opts, ops[..|ops| - 1]), ops[|ops| - 1])
  }

  lemma {:induction false} OrdersDistinct(opts: OrderStoreOptions, ops: seq<OrderOp>)
    ensures Distinct(OrderKey, OrdersAfter(opts, ops))
  {
    if ops != [] {
      var n := |ops| - 1;
      OrdersDistinct(opts, ops[..n]);
      match ops[n]
      case OrderUpdate(next) => PutDistinct(OrderKey, OrdersAfter(opts, ops[..n]), next);
      case OrderSweep(rows, now) => SweptDistinct(opts, OrdersAfter(opts, ops[..n]), rows, now);
    }
  }

  /** What was last said about an order; a sweep that is silent about an open one withdraws it. */
  function LastOrder(ops: seq<OrderOp>, id: string): Option<Order> {
    if ops == [] then None
    else
      var n := |ops| - 1;
      var before := LastOrder(ops[..n], id);
      match ops[n]
      case OrderUpdate(next) => if next.id == id then Some(next) else before
      case OrderSweep(rows, _) =>
        if Has(OrderKey, rows, id) then LastOf(OrderKey, rows, id)
        else if before.Some? && !IsClosed(before.value) then None
        else before
  }

  /** After every run, the open orders held are the last words that are open. */
  lemma {:induction false} OpenIsLastWord(opts: OrderStoreOptions, ops: seq<OrderOp>, o: Order)
    ensures o in OpenOrders(OrdersAfter(opts, ops)) <==> LastOrder(ops, o.id) == Some(o) && !IsClosed(o)
  {
    ClosedAndOpen(OrdersAfter(opts, ops), o);
    if ops != [] {
      var n := |ops| - 1;
      var before := OrdersAfter(opts, ops[..n]);
      OpenIsLastWord(opts, ops[..n], o);
      OrdersDistinct(opts, ops[..n]);
      ClosedAndOpen(before, o);
      match ops[n]
      case OrderUpdate(next) => PutMember(OrderKey, before, next, o);
      case OrderSweep(rows, now) =>
        OpenOrdersAreRest(opts, before, rows, now, o);
        FindPutAll(OrderKey, [], rows, o.id);
        PutAllDistinct(OrderKey, [], rows);
        FindMember(OrderKey, TableOf(OrderKey, rows), o.id);
    }
  }

  /** Whatever happened before, a sweep makes the open orders the exchange's, a second one with the same answer reports
      none as cancelled, and differs only on closed rows. */
  lemma EveryOrderSweepSettles(
      cfg: D.Config, opts: OrderStoreOptions, ops: seq<OrderOp>, rows: seq<Order>, now: real, o: Order)
    ensures var after := OrdersAfter(opts, ops + [OrderSweep(rows, now)]);
      && (o in OpenOrders(after) <==> o in TableOf(OrderKey, rows) && !IsClosed(o))
      && Unfilled(cfg.number, OpenOrders(after), rows) == []
      && (OrderDiffs(cfg, after, rows) == [] <==> forall q | q in TableOf(OrderKey, rows) :: !IsClosed(q))
      && |ClosedOrders(after)| <= opts.closedMax
  {
    var before := OrdersAfter(opts, ops);
    assert (ops + [OrderSweep(rows, now)])[..|ops|] == ops;
    OrdersDistinct(opts, ops);
    OpenOrdersAreRest(opts, before, rows, now, o);
    UnfilledOnce(cfg.number, opts, before, rows, now);
    OrdersSettleIff(cfg, opts, before, rows, now);
    ReplacedOrdersDistinct(before, rows);
    ClosedOrdersBounded(opts, ReplaceOrders(before, rows), now);
  }

  /** The socket updates since the last sweep. */
  function UpdatesSince(ops: seq<OrderOp>): nat {
    if ops == [] || ops[|ops| - 1].OrderSweep? then 0 else UpdatesSince(ops[..|ops| - 1]) + 1
  }

  /** At every moment: no more closed orders than allowed and one for each update since the last sweep. */
  lemma {:induction false} ClosedOrdersStayBounded(opts: OrderStoreOptions, ops: seq<OrderOp>)
    ensures |ClosedOrders(OrdersAfter(opts, ops))| <= opts.closedMax + UpdatesSince(ops)
  {
    if ops != [] {
      var n := |ops| - 1;
      var before := OrdersAfter(opts, ops[..n]);
      ClosedOrdersStayBounded(opts, ops[..n]);
      OrdersDistinct(opts, ops[..n]);
      match ops[n]
      case OrderUpdate(next) => OneMoreClosed(before, next);
      case OrderSweep(rows, now) =>
        ReplacedOrdersDistinct(before, rows);
        ClosedOrdersBounded(opts, ReplaceOrders(before, rows), now);
    }
  }

  lemma OneMoreClosed(table: seq<Order>, next: Order)
    requires Distinct(OrderKey, table)
    ensures |ClosedOrders(Put(OrderKey, table, next))| <= |ClosedOrders(table)| + 1
  {
    var after := Put(OrderKey, table, next);
    PutDistinct(OrderKey, table, next);
    PartsDistinct(after);
    var room := ClosedOrders(table) + [next];
    forall o | o in ClosedOrders(after) ensures o in room {
      ClosedAndOpen(after, o);
      ClosedAndOpen(table, o);
      PutMember(OrderKey, table, next, o);
    }
    FitsInto(ClosedOrders(after), room);
  }
}
