/** What a sweep reports and leaves, in terms of the rows held before and the rows of the answer. */
module SweepResults {
  import opened Common
  import opened Tables
  import opened AccountStores
  import opened Reconciliation
  import D = Divergences

  /** A row of the answer that no later one with its key replaces. */
  ghost predicate IsLast<T, K>(key: T -> K, rows: seq<T>, r: T) {
    exists i | 0 <= i < |rows| :: rows[i] == r && forall j | i < j < |rows| :: key(rows[j]) != key(r)
  }

  ghost predicate NoRow<T, K>(key: T -> K, rows: seq<T>, k: K) {
    forall i | 0 <= i < |rows| :: key(rows[i]) != k
  }

  lemma {:induction false} TableIsLast<T, K>(key: T -> K, rows: seq<T>, y: T)
    ensures y in TableOf(key, rows) <==> IsLast(key, rows, y)
  {
    if rows != [] {
      var n := |rows| - 1;
      TableIsLast(key, rows[..n], y);
      PutAllDistinct(key, [], rows[..n]);
      PutMember(key, TableOf(key, rows[..n]), rows[n], y);
      if IsLast(key, rows[..n], y) && key(rows[n]) != key(y) {
        var i :| 0 <= i < n && rows[..n][i] == y && forall j | i < j < n :: key(rows[..n][j]) != key(y);
        assert rows[i] == y && forall j | i < j <= n :: key(rows[j]) != key(y) by {
          forall j | i < j < n ensures key(rows[j]) != key(y) { assert rows[..n][j] == rows[j]; }
        }
      }
      if IsLast(key, rows, y) && y != rows[n] {
        var i :| 0 <= i < |rows| && rows[i] == y && forall j | i < j < |rows| :: key(rows[j]) != key(y);
        assert rows[..n][i] == y;
      }
    }
  }

  lemma NoRowIs<T, K>(key: T -> K, rows: seq<T>, k: K)
    ensures Has(key, rows, k) <==> !NoRow(key, rows, k)
  {
    if i :| 0 <= i < |rows| && key(rows[i]) == k { assert rows[i] in rows; }
  }

  // ------------------------------------------------------------ how grave a difference is

  /** A profit is alarmingly off by more than the absolute limit, or by more than the relative one of the larger of both
      and one, as a product. */
  predicate Alarming(cfg: D.Config, l: real, r: real) {
    || Abs(l - r) > cfg.pnlAbsAlarm
    || Abs(l - r) > cfg.pnlPctAlarm * MaxR(MaxR(Abs(l), Abs(r)), 1.0)
  }

  lemma AlarmingIs<T>(cfg: D.Config, schema: D.Schema<T>, field: string, lv: string, rv: string)
    requires field !in schema.quantities && field in schema.profits
    ensures D.Classify(cfg, schema, field, lv, rv) == if Alarming(cfg, cfg.number(lv), cfg.number(rv)) then D.Alarm else D.Warn
  {
    var l, r := cfg.number(lv), cfg.number(rv);
    Shares(Abs(l - r), MaxR(MaxR(Abs(l), Abs(r)), 1.0), cfg.pnlPctAlarm);
  }

  lemma Shares(gap: real, whole: real, pct: real)
    requires whole > 0.0
    ensures gap / whole > pct <==> gap > pct * whole
  {
    var q := gap / whole;
    assert q * whole == gap;
    assert (q - pct) * whole == gap - pct * whole;
    if q > pct { assert (q - pct) * whole > 0.0; } else { assert (pct - q) * whole >= 0.0; }
  }

  // ------------------------------------------------------------ positions

  predicate Sized(number: Reader, p: Position) { number(p.activePos) != 0.0 }

  /** The texts of a compared field on both sides, with the severity of a difference: a size is grave, a profit as far as
      it is off, the rest is for information. */
  predicate PositionField(cfg: D.Config, l: Position, r: Position, field: string, lv: string, rv: string, severity: D.Severity) {
    || (field == "activePos" && lv == l.activePos && rv == r.activePos && severity == D.Alarm)
    || (field == "avgPrice" && lv == l.avgPrice && rv == r.avgPrice && severity == D.Info)
    || (field == "markPrice" && lv == TextOr(l.markPrice) && rv == TextOr(r.markPrice) && severity == D.Info)
    || (field == "leverage" && lv == TextOr(l.leverage) && rv == TextOr(r.leverage) && severity == D.Info)
    || (field == "unrealizedPnl" && lv == l.unrealizedPnl && rv == r.unrealizedPnl
        && severity == if Alarming(cfg, cfg.number(lv), cfg.number(rv)) then D.Alarm else D.Warn)
    || (field == "realizedPnl" && lv == l.realizedPnl && rv == r.realizedPnl
        && severity == if Alarming(cfg, cfg.number(lv), cfg.number(rv)) then D.Alarm else D.Warn)
  }

  /** A position of the answer that is not held open here; one open here that the answer lacks; or a field of one that
      both have with different texts. */
  ghost predicate PositionDifference(cfg: D.Config, table: seq<Position>, rows: seq<Position>, d: D.Diff<Position>) {
    match d
    case MissingInLocal(id, row, severity) =>
      && IsLast(PositionKey, rows, row) && id == row.id && severity == D.Warn
      && forall p | p in table && p.id == id :: !Sized(cfg.number, p)
    case MissingInRest(id, row, severity) =>
      row in table && id == row.id && Sized(cfg.number, row) && NoRow(PositionKey, rows, id) && severity == D.Warn
    case FieldMismatch(id, field, lv, rv, severity) =>
      lv != rv && exists l, r :: SharedPosition(cfg, table, rows, id, l, r) && PositionField(cfg, l, r, field, lv, rv, severity)
  }

  ghost predicate SharedPosition(cfg: D.Config, table: seq<Position>, rows: seq<Position>, id: string, l: Position, r: Position) {
    l in table && Sized(cfg.number, l) && IsLast(PositionKey, rows, r) && l.id == id && r.id == id
  }

  lemma FieldNames()
    ensures |"activePos"| == 9 && |"avgPrice"| == 8 && |"markPrice"| == 9 && |"unrealizedPnl"| == 13
    ensures |"realizedPnl"| == 11 && |"leverage"| == 8
    ensures "activePos"[0] == 'a' && "markPrice"[0] == 'm' && "avgPrice"[0] == 'a' && "leverage"[0] == 'l'
  {
  }

  lemma PositionTexts(p: Position)
    ensures PositionText(p, "activePos") == p.activePos && PositionText(p, "avgPrice") == p.avgPrice
    ensures PositionText(p, "markPrice") == TextOr(p.markPrice) && PositionText(p, "leverage") == TextOr(p.leverage)
    ensures PositionText(p, "unrealizedPnl") == p.unrealizedPnl && PositionText(p, "realizedPnl") == p.realizedPnl
  {
    FieldNames();
  }

  lemma ComparedPositionFields(field: string)
    ensures field in POSITIONS.compare <==>
      field == "activePos" || field == "avgPrice" || field == "markPrice" || field == "leverage"
      || field == "unrealizedPnl" || field == "realizedPnl"
    ensures field in POSITIONS.quantities <==> field == "activePos"
    ensures field in POSITIONS.profits <==> field == "unrealizedPnl" || field == "realizedPnl"
  {
    var c := POSITIONS.compare;
    assert c[0] == "activePos" && c[1] == "avgPrice" && c[2] == "markPrice" && c[3] == "unrealizedPnl"
           && c[4] == "realizedPnl" && c[5] == "leverage";
  }

  lemma PositionFieldIs(cfg: D.Config, l: Position, r: Position, field: string, lv: string, rv: string, severity: D.Severity)
    ensures PositionField(cfg, l, r, field, lv, rv, severity) <==>
      field in POSITIONS.compare && lv == PositionText(l, field) && rv == PositionText(r, field)
      && severity == D.Classify(cfg, POSITIONS, field, lv, rv)
  {
    FieldNames();
    ComparedPositionFields(field);
    PositionTexts(l);
    PositionTexts(r);
    if field == "unrealizedPnl" || field == "realizedPnl" { AlarmingIs(cfg, POSITIONS, field, lv, rv); }
  }

  lemma HeldOpen(number: Reader, table: seq<Position>, id: string)
    ensures Has(PositionKey, Snapshot(number, table), id) <==> exists p | p in table :: p.id == id && Sized(number, p)
  {
    forall p ensures p in Snapshot(number, table) <==> p in table && Sized(number, p) { SnapshotIs(number, table, p); }
  }

  lemma SharedIs(cfg: D.Config, table: seq<Position>, rows: seq<Position>, id: string, l: Position, r: Position)
    ensures SharedPosition(cfg, table, rows, id, l, r)
            <==> D.IsPair(POSITIONS, Snapshot(cfg.number, table), TableOf(PositionKey, rows), id, l, r)
  {
    SnapshotIs(cfg.number, table, l);
    TableIsLast(PositionKey, rows, r);
  }

  lemma PositionMismatch(cfg: D.Config, table: seq<Position>, rows: seq<Position>, d: D.Diff<Position>)
    requires d.FieldMismatch?
    ensures PositionDifference(cfg, table, rows, d)
            <==> D.IsDifference(cfg, POSITIONS, Snapshot(cfg.number, table), TableOf(PositionKey, rows), d)
  {
    var local, rest := Snapshot(cfg.number, table), TableOf(PositionKey, rows);
    if PositionDifference(cfg, table, rows, d) {
      var l, r :| SharedPosition(cfg, table, rows, d.id, l, r) && PositionField(cfg, l, r, d.field, d.local, d.rest, d.severity);
      SharedIs(cfg, table, rows, d.id, l, r);
      PositionFieldIs(cfg, l, r, d.field, d.local, d.rest, d.severity);
    }
    if D.IsDifference(cfg, POSITIONS, local, rest, d) {
      var l, r :| l in local && r in rest && D.IsPair(POSITIONS, local, rest, d.id, l, r) && d.field in POSITIONS.compare
        && d.local == PositionText(l, d.field) && d.rest == PositionText(r, d.field) && d.local != d.rest
        && d.severity == D.Classify(cfg, POSITIONS, d.field, d.local, d.rest);
      SharedIs(cfg, table, rows, d.id, l, r);
      PositionFieldIs(cfg, l, r, d.field, d.local, d.rest, d.severity);
    }
  }

  /** The list of a position sweep holds exactly these differences. */
  lemma PositionDiffsMean(cfg: D.Config, table: seq<Position>, rows: seq<Position>, d: D.Diff<Position>)
    requires Distinct(PositionKey, table)
    ensures d in PositionDiffs(cfg, table, rows) <==> PositionDifference(cfg, table, rows, d)
  {
    var local, rest := Snapshot(cfg.number, table), TableOf(PositionKey, rows);
    SnapshotDistinct(cfg.number, table);
    TableOfDistinct(PositionKey, local);
    PutAllDistinct(PositionKey, [], rows);
    D.DiffIsExact(cfg, POSITIONS, local, rest, d);
    match d
    case MissingInLocal(id, row, severity) =>
      TableIsLast(PositionKey, rows, row);
      HeldOpen(cfg.number, table, id);
    case MissingInRest(id, row, severity) =>
      SnapshotIs(cfg.number, table, row);
      TableHas(PositionKey, rows, id);
      NoRowIs(PositionKey, rows, id);
    case FieldMismatch(_, _, _, _, _) => PositionMismatch(cfg, table, rows, d);
  }

  /** What a held position becomes that the answer lacks: flat. */
  function Closed(number: Reader, p: Position): Position {
    if Sized(number, p) then p.(side := FlatPosition, activePos := "0") else p
  }

  /** The answer lacks `q`, and it has become `p`. */
  ghost predicate ClosedTo(number: Reader, rows: seq<Position>, q: Position, p: Position) {
    NoRow(PositionKey, rows, q.id) && p == Closed(number, q)
  }

  lemma FlattenedIs(number: Reader, rows: seq<Position>, table: seq<Position>, p: Position)
    ensures p in FlattenVanished(number, rows, table) && NoRow(PositionKey, rows, p.id)
            <==> exists q | q in table :: ClosedTo(number, rows, q, p)
  {
    var flattened := FlattenVanished(number, rows, table);
    NoRowIs(PositionKey, rows, p.id);
    if p in flattened && NoRow(PositionKey, rows, p.id) {
      var i :| 0 <= i < |flattened| && flattened[i] == p;
      assert table[i] in table && table[i].id == p.id && ClosedTo(number, rows, table[i], p);
    }
    if q :| q in table && ClosedTo(number, rows, q, p) {
      var i :| 0 <= i < |table| && table[i] == q;
      assert flattened[i] == p;
    }
  }

  /** After the sweep the store holds the last row of each id of the answer, and of every other id the row it held, flat. */
  lemma SweptPositionsMean(number: Reader, table: seq<Position>, rows: seq<Position>, p: Position)
    requires Distinct(PositionKey, table)
    ensures p in ReplacePositions(number, table, rows)
            <==> IsLast(PositionKey, rows, p) || exists q | q in table :: ClosedTo(number, rows, q, p)
  {
    FlattenedDistinct(number, rows, table);
    PutAllMember(PositionKey, FlattenVanished(number, rows, table), rows, p);
    TableIsLast(PositionKey, rows, p);
    NoRowIs(PositionKey, rows, p.id);
    FlattenedIs(number, rows, table, p);
  }

  /** Reported as closed are exactly the ids held open that the answer lacks. */
  lemma ReportedMean(number: Reader, table: seq<Position>, rows: seq<Position>, id: string)
    ensures id in Synthesized(number, rows, table)
            <==> NoRow(PositionKey, rows, id) && exists p | p in table :: p.id == id && Sized(number, p)
  {
    SynthesizedIs(number, rows, table, id);
    NoRowIs(PositionKey, rows, id);
  }

  // ------------------------------------------------------------ balances

  predicate BalanceField(l: Balance, r: Balance, field: string, lv: string, rv: string) {
    (field == "available" && lv == l.available && rv == r.available) || (field == "locked" && lv == l.locked && rv == r.locked)
  }

  ghost predicate BalanceDifference(table: seq<Balance>, rows: seq<Balance>, d: D.Diff<Balance>) {
    match d
    case MissingInLocal(id, row, severity) =>
      IsLast(BalanceKey, rows, row) && id == row.currency && NoRow(BalanceKey, table, id) && severity == D.Warn
    case MissingInRest(id, row, severity) =>
      row in table && id == row.currency && NoRow(BalanceKey, rows, id) && severity == D.Warn
    case FieldMismatch(id, field, lv, rv, severity) =>
      && lv != rv && severity == D.Alarm
      && exists l, r :: SharedBalance(table, rows, id, l, r) && BalanceField(l, r, field, lv, rv)
  }

  ghost predicate SharedBalance(table: seq<Balance>, rows: seq<Balance>, id: string, l: Balance, r: Balance) {
    l in table && IsLast(BalanceKey, rows, r) && l.currency == id && r.currency == id
  }

  lemma BalanceFieldIs(cfg: D.Config, l: Balance, r: Balance, field: string, lv: string, rv: string)
    ensures BalanceField(l, r, field, lv, rv) <==>
      field in BALANCES.compare && lv == BalanceText(l, field) && rv == BalanceText(r, field)
    ensures field in BALANCES.compare ==> D.Classify(cfg, BALANCES, field, lv, rv) == D.Alarm
  {
    var c := BALANCES.compare;
    assert c[0] == "available" && c[1] == "locked" && |"available"| == 9 && |"locked"| == 6;
  }

  lemma BalanceMismatch(cfg: D.Config, table: seq<Balance>, rows: seq<Balance>, d: D.Diff<Balance>)
    requires d.FieldMismatch?
    ensures BalanceDifference(table, rows, d) <==> D.IsDifference(cfg, BALANCES, table, TableOf(BalanceKey, rows), d)
  {
    var rest := TableOf(BalanceKey, rows);
    if BalanceDifference(table, rows, d) {
      var l, r :| SharedBalance(table, rows, d.id, l, r) && BalanceField(l, r, d.field, d.local, d.rest);
      TableIsLast(BalanceKey, rows, r);
      BalanceFieldIs(cfg, l, r, d.field, d.local, d.rest);
      assert D.IsPair(BALANCES, table, rest, d.id, l, r);
    }
    if D.IsDifference(cfg, BALANCES, table, rest, d) {
      var l, r :| l in table && r in rest && D.IsPair(BALANCES, table, rest, d.id, l, r) && d.field in BALANCES.compare
        && d.local == BalanceText(l, d.field) && d.rest == BalanceText(r, d.field) && d.local != d.rest
        && d.severity == D.Classify(cfg, BALANCES, d.field, d.local, d.rest);
      TableIsLast(BalanceKey, rows, r);
      BalanceFieldIs(cfg, l, r, d.field, d.local, d.rest);
      assert SharedBalance(table, rows, d.id, l, r);
    }
  }

  /** The list of a balance sweep: currencies one side lacks, and amounts that differ, each an alarm. */
  lemma BalanceDiffsMean(cfg: D.Config, table: seq<Balance>, rows: seq<Balance>, d: D.Diff<Balance>)
    requires Distinct(BalanceKey, table)
    ensures d in BalanceDiffs(cfg, table, rows) <==> BalanceDifference(table, rows, d)
  {
    TableOfDistinct(BalanceKey, table);
    PutAllDistinct(BalanceKey, [], rows);
    D.DiffIsExact(cfg, BALANCES, table, TableOf(BalanceKey, rows), d);
    match d
    case MissingInLocal(id, row, severity) =>
      TableIsLast(BalanceKey, rows, row);
      NoRowIs(BalanceKey, table, id);
    case MissingInRest(id, row, severity) =>
      TableHas(BalanceKey, rows, id);
      NoRowIs(BalanceKey, rows, id);
    case FieldMismatch(_, _, _, _, _) => BalanceMismatch(cfg, table, rows, d);
  }

  // ------------------------------------------------------------ orders

  predicate Working(o: Order) { o.status == Open || o.status == PartiallyFilled }

  /** Sizes are grave, the rest is for information. */
  predicate OrderField(l: Order, r: Order, field: string, lv: string, rv: string, severity: D.Severity) {
    || (field == "status" && lv == StatusText(l.status) && rv == StatusText(r.status) && severity == D.Info)
    || (field == "totalQty" && lv == l.totalQty && rv == r.totalQty && severity == D.Alarm)
    || (field == "remainingQty" && lv == l.remainingQty && rv == r.remainingQty && severity == D.Alarm)
    || (field == "avgFillPrice" && lv == TextOr(l.avgFillPrice) && rv == TextOr(r.avgFillPrice) && severity == D.Info)
    || (field == "price" && lv == TextOr(l.price) && rv == TextOr(r.price) && severity == D.Info)
  }

  ghost predicate OrderDifference(table: seq<Order>, rows: seq<Order>, d: D.Diff<Order>) {
    match d
    case MissingInLocal(id, row, severity) =>
      && IsLast(OrderKey, rows, row) && id == row.id && severity == D.Warn
      && forall o | o in table && o.id == id :: !Working(o)
    case MissingInRest(id, row, severity) =>
      row in table && id == row.id && Working(row) && NoRow(OrderKey, rows, id) && severity == D.Warn
    case FieldMismatch(id, field, lv, rv, severity) =>
      lv != rv && exists l, r :: SharedOrder(table, rows, id, l, r) && OrderField(l, r, field, lv, rv, severity)
  }

  ghost predicate SharedOrder(table: seq<Order>, rows: seq<Order>, id: string, l: Order, r: Order) {
    l in table && Working(l) && IsLast(OrderKey, rows, r) && l.id == id && r.id == id
  }

  lemma OrderTexts(o: Order)
    ensures OrderText(o, "status") == StatusText(o.status) && OrderText(o, "totalQty") == o.totalQty
    ensures OrderText(o, "remainingQty") == o.remainingQty && OrderText(o, "avgFillPrice") == TextOr(o.avgFillPrice)
    ensures OrderText(o, "price") == TextOr(o.price)
  {
    OrderNames();
  }

  lemma OrderNames()
    ensures |"status"| == 6 && |"totalQty"| == 8 && |"remainingQty"| == 12 && |"avgFillPrice"| == 12 && |"price"| == 5
    ensures "remainingQty"[0] == 'r' && "avgFillPrice"[0] == 'a'
  {
  }

  lemma ComparedOrderFields(field: string)
    ensures field in ORDERS.compare <==>
      field == "status" || field == "totalQty" || field == "remainingQty" || field == "avgFillPrice" || field == "price"
    ensures field in ORDERS.quantities <==> field == "totalQty" || field == "remainingQty"
  {
    var c, q := ORDERS.compare, ORDERS.quantities;
    assert c[0] == "status" && c[1] == "totalQty" && c[2] == "remainingQty" && c[3] == "avgFillPrice" && c[4] == "price";
    assert q[0] == "totalQty" && q[1] == "remainingQty";
  }

  lemma OrderFieldIs(cfg: D.Config, l: Order, r: Order, field: string, lv: string, rv: string, severity: D.Severity)
    ensures OrderField(l, r, field, lv, rv, severity) <==>
      field in ORDERS.compare && lv == OrderText(l, field) && rv == OrderText(r, field)
      && severity == D.Classify(cfg, ORDERS, field, lv, rv)
  {
    OrderNames();
    ComparedOrderFields(field);
    OrderTexts(l);
    OrderTexts(r);
  }

  lemma OpenIs(table: seq<Order>, o: Order)
    ensures o in OpenOrders(table) <==> o in table && Working(o)
  {
    ClosedAndOpen(table, o);
  }

  lemma SharedOrderIs(table: seq<Order>, rows: seq<Order>, id: string, l: Order, r: Order)
    ensures SharedOrder(table, rows, id, l, r) <==> D.IsPair(ORDERS, OpenOrders(table), TableOf(OrderKey, rows), id, l, r)
  {
    OpenIs(table, l);
    TableIsLast(OrderKey, rows, r);
  }

  lemma OrderMismatch(cfg: D.Config, table: seq<Order>, rows: seq<Order>, d: D.Diff<Order>)
    requires d.FieldMismatch?
    ensures OrderDifference(table, rows, d) <==> D.IsDifference(cfg, ORDERS, OpenOrders(table), TableOf(OrderKey, rows), d)
  {
    var local, rest := OpenOrders(table), TableOf(OrderKey, rows);
    if OrderDifference(table, rows, d) {
      var l, r :| SharedOrder(table, rows, d.id, l, r) && OrderField(l, r, d.field, d.local, d.rest, d.severity);
      SharedOrderIs(table, rows, d.id, l, r);
      OrderFieldIs(cfg, l, r, d.field, d.local, d.rest, d.severity);
    }
    if D.IsDifference(cfg, ORDERS, local, rest, d) {
      var l, r :| l in local && r in rest && D.IsPair(ORDERS, local, rest, d.id, l, r) && d.field in ORDERS.compare
        && d.local == OrderText(l, d.field) && d.rest == OrderText(r, d.field) && d.local != d.rest
        && d.severity == D.Classify(cfg, ORDERS, d.field, d.local, d.rest);
      SharedOrderIs(table, rows, d.id, l, r);
      OrderFieldIs(cfg, l, r, d.field, d.local, d.rest, d.severity);
    }
  }

  lemma HeldWorking(table: seq<Order>, id: string)
    ensures Has(OrderKey, OpenOrders(table), id) <==> exists o | o in table :: o.id == id && Working(o)
  {
    forall o ensures o in OpenOrders(table) <==> o in table && Working(o) { OpenIs(table, o); }
  }

  /** The list of an order sweep compares the orders that are still working here with the answer. */
  lemma OrderDiffsMean(cfg: D.Config, table: seq<Order>, rows: seq<Order>, d: D.Diff<Order>)
    requires Distinct(OrderKey, table)
    ensures d in OrderDiffs(cfg, table, rows) <==> OrderDifference(table, rows, d)
  {
    var local, rest := OpenOrders(table), TableOf(OrderKey, rows);
    PartsDistinct(table);
    TableOfDistinct(OrderKey, local);
    PutAllDistinct(OrderKey, [], rows);
    D.DiffIsExact(cfg, ORDERS, local, rest, d);
    match d
    case MissingInLocal(id, row, severity) =>
      TableIsLast(OrderKey, rows, row);
      HeldWorking(table, id);
    case MissingInRest(id, row, severity) =>
      OpenIs(table, row);
      TableHas(OrderKey, rows, id);
      NoRowIs(OrderKey, rows, id);
    case FieldMismatch(_, _, _, _, _) => OrderMismatch(cfg, table, rows, d);
  }

  /** Reported as cancelled unfilled are exactly the orders working here with a rest that the answer lacks. */
  lemma UnfilledMeans(number: Reader, table: seq<Order>, rows: seq<Order>, id: string)
    ensures id in Unfilled(number, OpenOrders(table), rows)
            <==> NoRow(OrderKey, rows, id) && exists o | o in table :: o.id == id && Working(o) && number(o.remainingQty) > 0.0
  {
    UnfilledIs(number, OpenOrders(table), rows, id);
    NoRowIs(OrderKey, rows, id);
    forall o ensures o in OpenOrders(table) <==> o in table && Working(o) { OpenIs(table, o); }
  }

  // ------------------------------------------------------------ which orders stay

  predicate Settled(o: Order) { o.status == Filled || o.status == Cancelled || o.status == Rejected }

  /** Settled, and not for longer than closed orders are kept; a time that cannot be read does not run out. */
  predicate InTime(opts: OrderStoreOptions, o: Order, now: real) {
    var t := opts.time(o.updatedAt);
    Settled(o) && (t.Some? ==> now - t.value <= opts.closedTtlMs)
  }

  /** Places of the settled orders in time that come behind place `i`: a later text, or the same and a later place. */
  function Behind(opts: OrderStoreOptions, table: seq<Order>, i: nat, now: real): set<int>
    requires i < |table|
  {
    var v := opts.place(table[i].updatedAt);
    set j | 0 <= j < |table| && InTime(opts, table[j], now)
            && (opts.place(table[j].updatedAt) > v || (opts.place(table[j].updatedAt) == v && j > i))
  }

  /** Places of the settled orders in time with a text before, or the same as, a given one, and of all of them. */
  function Before(opts: OrderStoreOptions, table: seq<Order>, now: real, v: real): set<int> {
    set j | 0 <= j < |table| && InTime(opts, table[j], now) && opts.place(table[j].updatedAt) < v
  }

  function Alike(opts: OrderStoreOptions, table: seq<Order>, now: real, v: real): set<int> {
    set j | 0 <= j < |table| && InTime(opts, table[j], now) && opts.place(table[j].updatedAt) == v
  }

  function AllInTime(opts: OrderStoreOptions, table: seq<Order>, now: real): set<int> {
    set j | 0 <= j < |table| && InTime(opts, table[j], now)
  }

  lemma {:induction false} BelowSnoc<T>(key: T -> real, xs: seq<T>, x: T, v: real)
    ensures Below(key, xs + [x], v) == Below(key, xs, v) + if key(x) < v then 1 else 0
    ensures Ties(key, xs + [x], v) == Ties(key, xs, v) + if key(x) == v then 1 else 0
  {
    if xs != [] {
      assert (xs + [x])[1..] == xs[1..] + [x];
      BelowSnoc(key, xs[1..], x, v);
    }
  }

  lemma OneMore(before: set<int>, all: set<int>, n: int, more: bool)
    requires n !in before && before <= all && all <= before + {n} && (n in all <==> more)
    ensures |all| == |before| + if more then 1 else 0
  {
    if more { assert all == before + {n}; } else { assert all == before; }
  }

  lemma AllSnoc(opts: OrderStoreOptions, table: seq<Order>, now: real)
    requires table != []
    ensures var n := |table| - 1;
      |AllInTime(opts, table, now)| == |AllInTime(opts, table[..n], now)| + if InTime(opts, table[n], now) then 1 else 0
  {
    var n := |table| - 1;
    OneMore(AllInTime(opts, table[..n], now), AllInTime(opts, table, now), n, InTime(opts, table[n], now));
  }

  lemma BeforeSnoc(opts: OrderStoreOptions, table: seq<Order>, now: real, v: real)
    requires table != []
    ensures var n := |table| - 1;
      |Before(opts, table, now, v)| == |Before(opts, table[..n], now, v)|
        + if InTime(opts, table[n], now) && opts.place(table[n].updatedAt) < v then 1 else 0
  {
    var n := |table| - 1;
    OneMore(Before(opts, table[..n], now, v), Before(opts, table, now, v), n,
            InTime(opts, table[n], now) && opts.place(table[n].updatedAt) < v);
  }

  lemma AlikeSnoc(opts: OrderStoreOptions, table: seq<Order>, now: real, v: real)
    requires table != []
    ensures var n := |table| - 1;
      |Alike(opts, table, now, v)| == |Alike(opts, table[..n], now, v)|
        + if InTime(opts, table[n], now) && opts.place(table[n].updatedAt) == v then 1 else 0
  {
    var n := |table| - 1;
    OneMore(Alike(opts, table[..n], now, v), Alike(opts, table, now, v), n,
            InTime(opts, table[n], now) && opts.place(table[n].updatedAt) == v);
  }

  lemma {:induction false} CountsAre(opts: OrderStoreOptions, table: seq<Order>, now: real, v: real)
    ensures var inTime := FreshClosed(opts, table, now);
      && |inTime| == |AllInTime(opts, table, now)|
      && Below(ByText(opts), inTime, v) == |Before(opts, table, now, v)|
      && Ties(ByText(opts), inTime, v) == |Alike(opts, table, now, v)|
  {
    if table == [] {
      assert AllInTime(opts, table, now) == {} && Before(opts, table, now, v) == {} && Alike(opts, table, now, v) == {};
    } else {
      var n := |table| - 1;
      CountsAre(opts, table[..n], now, v);
      AllSnoc(opts, table, now);
      BeforeSnoc(opts, table, now, v);
      AlikeSnoc(opts, table, now, v);
      BelowSnoc(ByText(opts), FreshClosed(opts, table[..n], now), table[n], v);
    }
  }

  lemma {:induction false} InTimePlace(opts: OrderStoreOptions, table: seq<Order>, now: real, i: nat)
    requires i < |table| && InTime(opts, table[i], now)
    ensures var before, all := FreshClosed(opts, table[..i], now), FreshClosed(opts, table, now);
      |before| < |all| && all[..|before|] == before && all[|before|] == table[i]
  {
    var n := |table| - 1;
    if i < n {
      InTimePlace(opts, table[..n], now, i);
      assert table[..n][..i] == table[..i];
    }
  }

  /** Of the settled orders in time, those behind place `i` are the ones that do not go before it. */
  lemma BehindIsRest(opts: OrderStoreOptions, table: seq<Order>, now: real, i: nat)
    requires i < |table| && InTime(opts, table[i], now)
    ensures var v := opts.place(table[i].updatedAt);
      |AllInTime(opts, table, now)|
      == |Before(opts, table, now, v)| + |Alike(opts, table[..i], now, v)| + 1 + |Behind(opts, table, i, now)|
  {
    var v := opts.place(table[i].updatedAt);
    var a, b, c := Before(opts, table, now, v), Alike(opts, table[..i], now, v), Behind(opts, table, i, now);
    assert forall j | 0 <= j < i :: table[..i][j] == table[j];
    assert AllInTime(opts, table, now) == a + b + {i} + c;
    assert a !! b && i !in a + b && (a + b + {i}) !! c;
  }

  lemma {:induction false} FreshDistinct(opts: OrderStoreOptions, table: seq<Order>, now: real)
    requires Distinct(OrderKey, table)
    ensures Distinct(OrderKey, FreshClosed(opts, table, now))
    decreases |table|
  {
    if table != [] {
      var n := |table| - 1;
      FreshDistinct(opts, table[..n], now);
      var before := FreshClosed(opts, table[..n], now);
      forall k | 0 <= k < |before| ensures OrderKey(before[k]) != OrderKey(table[n]) {
        EvictionParts(opts, table[..n], now, before[k]);
        var m :| 0 <= m < n && table[..n][m] == before[k];
        assert OrderKey(table[m]) != OrderKey(table[n]);
      }
    }
  }

  /** The sort puts the row at `k` under the first `cut` exactly if fewer go before it. */
  lemma CutIff(key: Order -> real, xs: seq<Order>, k: nat, cut: nat)
    requires Distinct(OrderKey, xs) && k < |xs| && cut <= |xs|
    ensures xs[k] in Sort(key, xs)[..cut] <==> Ahead(key, xs, k) < cut
  {
    var sorted := Sort(key, xs);
    SortPlace(key, xs, k);
    if Ahead(key, xs, k) < cut { assert sorted[..cut][Ahead(key, xs, k)] == xs[k]; }
    if xs[k] in sorted[..cut] {
      var m :| 0 <= m < cut && sorted[m] == xs[k];
      var j := SortFrom(key, xs, m);
      assert OrderKey(xs[j]) == OrderKey(xs[k]);
    }
  }

  lemma OverflowMeans(opts: OrderStoreOptions, table: seq<Order>, now: real, i: nat)
    requires Distinct(OrderKey, table) && i < |table| && InTime(opts, table[i], now)
    ensures table[i] in Overflow(opts, FreshClosed(opts, table, now)) <==> |Behind(opts, table, i, now)| >= opts.closedMax
  {
    var inTime, k, v := FreshClosed(opts, table, now), |FreshClosed(opts, table[..i], now)|, opts.place(table[i].updatedAt);
    InTimePlace(opts, table, now, i);
    FreshDistinct(opts, table, now);
    CountsAre(opts, table, now, v);
    CountsAre(opts, table[..i], now, v);
    BehindIsRest(opts, table, now, i);
    assert Ahead(ByText(opts), inTime, k) == |inTime| - 1 - |Behind(opts, table, i, now)|;
    if |inTime| > opts.closedMax { CutIff(ByText(opts), inTime, k, |inTime| - opts.closedMax); }
  }

  /** Eviction keeps exactly the working orders, and of the settled ones those in time with fewer than the allowed number
      of others behind them. */
  lemma EvictionMeans(opts: OrderStoreOptions, table: seq<Order>, now: real, i: nat)
    requires Distinct(OrderKey, table) && i < |table|
    ensures table[i] in Evicted(opts, table, now)
            <==> Working(table[i]) || (InTime(opts, table[i], now) && |Behind(opts, table, i, now)| < opts.closedMax)
  {
    Survives(opts, table, now, table[i]);
    if InTime(opts, table[i], now) { OverflowMeans(opts, table, now, i); }
  }

  /** Before the eviction a sweep holds the last row of each id of the answer, and the settled orders of other ids. */
  lemma ReplacedOrdersMean(table: seq<Order>, rows: seq<Order>, o: Order)
    requires Distinct(OrderKey, table)
    ensures o in ReplaceOrders(table, rows) <==> IsLast(OrderKey, rows, o) || (o in table && Settled(o) && NoRow(OrderKey, rows, o.id))
  {
    PartsDistinct(table);
    PutAllMember(OrderKey, ClosedOrders(table), rows, o);
    ClosedAndOpen(table, o);
    TableIsLast(OrderKey, rows, o);
    NoRowIs(OrderKey, rows, o.id);
  }
}
