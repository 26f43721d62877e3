/** Paging a candle history out of an API that answers at most a fixed number of bars per call. */
module CandlePagers {
  import opened Common
  import opened Candles
  import opened Tables

  /** A row of an answer: something unusable, or a candle (its timestamp the opening time in milliseconds). */
  datatype Row = Junk | Bar(candle: Candle)

  /** The answer to a call for `from..to` (seconds); calls are numbered, so answers may differ from call to call. */
  type Api = (int, int, nat) -> seq<Row>

  const MAX_PAGE_BARS := 1000

  function StepSeconds(timeframe: string): Option<int> {
    if timeframe == "1m" then Some(60)
    else if timeframe == "5m" then Some(300)
    else if timeframe == "15m" then Some(900)
    else if timeframe == "30m" then Some(1800)
    else if timeframe == "1h" then Some(3600)
    else if timeframe == "4h" then Some(14400)
    else if timeframe == "1d" then Some(86400)
    else None
  }

  function ByTime(c: Candle): real { c.timestamp as real }

  function TimeOf(c: Candle): int { c.timestamp }

  function Table(rows: seq<Row>): seq<Candle> {
    if rows == [] then []
    else
      var n := |rows| - 1;
      if rows[n].Bar? then Put(TimeOf, Table(rows[..n]), rows[n].candle) else Table(rows[..n])
  }

  /** The usable bars of an answer: the last of each opening time, ordered by it. */
  function Normalize(rows: seq<Row>): (r: seq<Candle>)
    ensures multiset(r) == multiset(Table(rows))
  {
    Sort(ByTime, Table(rows))
  }

  /** The last second of a full page. */
  function PageEnd(cursor: int, step: int, maxBars: int): int {
    cursor + step * (maxBars - 1)
  }

  function PageTo(cursor: int, until: int, step: int, maxBars: int): int {
    MinI(until, PageEnd(cursor, step, maxBars))
  }

  function NextCursor(cursor: int, pageTo: int, step: int, parsed: seq<Candle>): int {
    if parsed == [] then pageTo + step
    else
      var next := parsed[|parsed| - 1].timestamp / 1000 + step;
      if next > cursor then next else pageTo + step
  }

  datatype Summary = Summary(pages: nat, handed: seq<Candle>)

  /** Whatever the API answers, the cursor strictly increases. */
  lemma CursorAdvances(cursor: int, until: int, step: int, maxBars: int, parsed: seq<Candle>)
    requires cursor <= until && step > 0 && maxBars >= 1
    ensures cursor <= PageTo(cursor, until, step, maxBars) <= until
    ensures NextCursor(cursor, PageTo(cursor, until, step, maxBars), step, parsed) > cursor
  {
    assert step * (maxBars - 1) >= 0;
  }

  /** The pages from a cursor on, and all bars they hand to persistence, in order. */
  function Ingest(api: Api, step: int, maxBars: int, cursor: int, until: int, page: nat): Summary
    requires step > 0 && maxBars >= 1
    decreases until - cursor
  {
    if cursor > until then Summary(page, [])
    else
      var pageTo := PageTo(cursor, until, step, maxBars);
      var parsed := Normalize(api(cursor, pageTo, page));
      CursorAdvances(cursor, until, step, maxBars, parsed);
      var rest := Ingest(api, step, maxBars, NextCursor(cursor, pageTo, step, parsed), until, page + 1);
      Summary(rest.pages, parsed + rest.handed)
  }

  // ------------------------------------------------------------ reading a timeframe

  /** The number a text of digits denotes. */
  function Decimal(digits: string): int {
    if digits == "" then 0 else 10 * Decimal(digits[..|digits| - 1]) + (digits[|digits| - 1] as int - '0' as int)
  }

  /** Minutes, hours and days in seconds. */
  function UnitSeconds(unit: char): int {
    if unit == 'm' then 60 else if unit == 'h' then 60 * 60 else 24 * 60 * 60
  }

  lemma DecimalOne(digits: string)
    requires |digits| == 1
    ensures Decimal(digits) == digits[0] as int - '0' as int
  {
    assert digits[..0] == "";
  }

  lemma DecimalTwo(digits: string)
    requires |digits| == 2
    ensures Decimal(digits) == 10 * (digits[0] as int - '0' as int) + (digits[1] as int - '0' as int)
  {
    DecimalOne(digits[..1]);
  }

  /** The step of every known timeframe is its number times its unit. */
  lemma TimeframeSeconds(timeframe: string)
    requires StepSeconds(timeframe).Some?
    ensures |timeframe| >= 2
    ensures StepSeconds(timeframe).value == Decimal(timeframe[..|timeframe| - 1]) * UnitSeconds(timeframe[|timeframe| - 1])
  {
    var digits := timeframe[..|timeframe| - 1];
    if |digits| == 1 { DecimalOne(digits); } else { DecimalTwo(digits); }
  }

  // ------------------------------------------------------------ normalising an answer

  ghost predicate Increasing(xs: seq<Candle>) {
    forall i, j | 0 <= i < j < |xs| :: xs[i].timestamp < xs[j].timestamp
  }

  /** The row at `k` is the last of its opening time. */
  ghost predicate LastOfTime(rows: seq<Row>, k: nat) {
    && k < |rows| && rows[k].Bar?
    && forall m | k < m < |rows| && rows[m].Bar? :: rows[m].candle.timestamp != rows[k].candle.timestamp
  }

  /** A table's entries are the candles of exactly the last rows of each time. */
  ghost predicate Collects(rows: seq<Row>, table: seq<Candle>) {
    && (forall c | c in table :: exists k: nat :: LastOfTime(rows, k) && rows[k].candle == c)
    && (forall k: nat | LastOfTime(rows, k) :: rows[k].candle in table)
  }

  lemma {:induction false} TableCollects(rows: seq<Row>)
    ensures Distinct(TimeOf, Table(rows)) && Collects(rows, Table(rows))
  {
    if rows != [] {
      var n := |rows| - 1;
      TableCollects(rows[..n]);
      var before, table := Table(rows[..n]), Table(rows);
      if rows[n].Bar? {
        PutDistinct(TimeOf, before, rows[n].candle);
        forall c { PutMember(TimeOf, before, rows[n].candle, c); }
      }
      forall c | c in table ensures exists k: nat :: LastOfTime(rows, k) && rows[k].candle == c {
        if rows[n].Bar? && c == rows[n].candle {
          assert LastOfTime(rows, n);
        } else {
          var k: nat :| LastOfTime(rows[..n], k) && rows[..n][k].candle == c;
          assert LastOfTime(rows, k);
        }
      }
      forall k: nat | LastOfTime(rows, k) ensures rows[k].candle in table {
        if k < n { assert LastOfTime(rows[..n], k); }
      }
    }
  }

  lemma CountOnce(xs: seq<Candle>, a: nat)
    requires Distinct(TimeOf, xs) && a < |xs|
    ensures multiset(xs)[xs[a]] == 1
  {
    assert xs == xs[..a] + [xs[a]] + xs[a + 1..];
    assert xs[a] !in xs[..a] && xs[a] !in xs[a + 1..];
  }

  lemma CountPair(ys: seq<Candle>, i: nat, j: nat)
    requires i < j < |ys|
    ensures ys[i] == ys[j] ==> multiset(ys)[ys[i]] >= 2
  {
    assert ys == ys[..j] + ys[j..];
    assert ys[..j][i] == ys[i] && ys[j..][0] == ys[j];
    assert multiset(ys)[ys[i]] == multiset(ys[..j])[ys[i]] + multiset(ys[j..])[ys[i]];
  }

  lemma DistinctPermutation(xs: seq<Candle>, ys: seq<Candle>)
    requires Distinct(TimeOf, xs) && multiset(xs) == multiset(ys)
    ensures Distinct(TimeOf, ys)
  {
    forall i, j | 0 <= i < j < |ys| ensures TimeOf(ys[i]) != TimeOf(ys[j]) {
      InMultiset(xs, ys, ys[i]);
      InMultiset(xs, ys, ys[j]);
      var a :| 0 <= a < |xs| && xs[a] == ys[i];
      var b :| 0 <= b < |xs| && xs[b] == ys[j];
      CountOnce(xs, a);
      CountPair(ys, i, j);
    }
  }

  /** Normalising keeps exactly the last row of each time, in strictly increasing time. */
  lemma NormalizeOrders(rows: seq<Row>)
    ensures Increasing(Normalize(rows)) && Collects(rows, Normalize(rows))
  {
    var table, r := Table(rows), Normalize(rows);
    TableCollects(rows);
    DistinctPermutation(table, r);
    SortSorts(ByTime, table);
    forall i, j | 0 <= i < j < |r| ensures r[i].timestamp < r[j].timestamp {
      assert ByTime(r[i]) <= ByTime(r[j]);
    }
    forall c ensures c in table <==> c in r { InMultiset(table, r, c); }
  }

  // ------------------------------------------------------------ paging is complete

  /** The candles opening in `from..to`, in order. */
  function Window(avail: seq<Candle>, from: int, until: int): seq<Candle> {
    if avail == [] then []
    else
      var n := |avail| - 1;
      if from * 1000 <= avail[n].timestamp <= until * 1000 then Window(avail[..n], from, until) + [avail[n]]
      else Window(avail[..n], from, until)
  }

  /** What exists at the exchange: in order, opening at multiples of the step. */
  ghost predicate StepAligned(avail: seq<Candle>, step: int)
    requires step > 0
  {
    Increasing(avail) && forall i | 0 <= i < |avail| :: avail[i].timestamp % 1000 == 0 && (avail[i].timestamp / 1000) % step == 0
  }

  /** Every answer holds precisely the existing candles of the window asked for: any order, duplicates and junk allowed. */
  ghost predicate Faithful(api: Api, avail: seq<Candle>) {
    forall from: int, until: int, page: nat :: Answers(api(from, until, page), avail, from, until)
  }

  ghost predicate Answers(rows: seq<Row>, avail: seq<Candle>, from: int, until: int) {
    && (forall k | 0 <= k < |rows| && rows[k].Bar? :: rows[k].candle in Window(avail, from, until))
    && (forall c | c in Window(avail, from, until) :: exists k :: 0 <= k < |rows| && rows[k] == Bar(c))
  }

  lemma {:induction false} WindowIsFilter(avail: seq<Candle>, from: int, until: int)
    requires Increasing(avail)
    ensures Increasing(Window(avail, from, until))
    ensures forall c :: c in Window(avail, from, until) <==> c in avail && from * 1000 <= c.timestamp <= until * 1000
  {
    if avail != [] {
      var n := |avail| - 1;
      WindowIsFilter(avail[..n], from, until);
      assert avail == avail[..n] + [avail[n]];
      var before := Window(avail[..n], from, until);
      forall i | 0 <= i < |before| ensures before[i].timestamp < avail[n].timestamp {
        assert before[i] in avail[..n];
      }
    }
  }

  lemma HasElement(ys: seq<Candle>)
    ensures ys != [] ==> exists c :: c in ys
  {
    if ys != [] { assert ys[0] in ys; }
  }

  lemma {:induction false} SameElementsSameOrder(xs: seq<Candle>, ys: seq<Candle>)
    requires Increasing(xs) && Increasing(ys)
    requires forall c :: c in xs <==> c in ys
    ensures xs == ys
  {
    if xs == [] {
      HasElement(ys);
    } else {
      var n := |xs| - 1;
      assert xs[n] in ys;
      var m := |ys| - 1;
      assert ys[m] in xs;
      assert xs[n] == ys[m];
      assert xs == xs[..n] + [xs[n]] && ys == ys[..m] + [ys[m]];
      forall c ensures c in xs[..n] <==> c in ys[..m] {
        if c in xs[..n] { assert c in ys && c.timestamp < xs[n].timestamp; }
        if c in ys[..m] { assert c in xs && c.timestamp < ys[m].timestamp; }
      }
      SameElementsSameOrder(xs[..n], ys[..m]);
    }
  }

  /** One page of a faithful API, once normalised, is its window. */
  lemma PageIsWindow(rows: seq<Row>, avail: seq<Candle>, from: int, until: int)
    requires Increasing(avail) && Answers(rows, avail, from, until)
    ensures Normalize(rows) == Window(avail, from, until)
  {
    NormalizeOrders(rows);
    WindowIsFilter(avail, from, until);
    var r, w := Normalize(rows), Window(avail, from, until);
    forall c ensures c in r <==> c in w {
      if c in r {
        var k: nat :| LastOfTime(rows, k) && rows[k].candle == c;
      }
      if c in w { SomeLastRow(rows, w, c); }
    }
    SameElementsSameOrder(r, w);
  }

  lemma SomeLastRow(rows: seq<Row>, w: seq<Candle>, c: Candle)
    requires Increasing(w) && c in w && Collects(rows, Normalize(rows))
    requires forall k | 0 <= k < |rows| && rows[k].Bar? :: rows[k].candle in w
    requires exists k :: 0 <= k < |rows| && rows[k] == Bar(c)
    ensures c in Normalize(rows)
  {
    var first :| 0 <= first < |rows| && rows[first] == Bar(c);
    var k := LastWith(rows, c.timestamp, first);
    assert rows[k].candle in w && rows[k].candle.timestamp == c.timestamp;
    assert rows[k].candle == c;
  }

  lemma {:induction false} LastWith(rows: seq<Row>, t: int, k: nat) returns (m: nat)
    requires k < |rows| && rows[k].Bar? && rows[k].candle.timestamp == t
    ensures LastOfTime(rows, m) && rows[m].candle.timestamp == t
    decreases |rows| - k
  {
    m := k;
    if !LastOfTime(rows, k) {
      var later :| k < later < |rows| && rows[later].Bar? && rows[later].candle.timestamp == t;
      m := LastWith(rows, t, later);
    }
  }

  lemma {:induction false} WindowSplits(avail: seq<Candle>, from: int, mid: int, until: int)
    requires Increasing(avail) && from <= mid + 1 && mid <= until
    requires forall c | c in avail :: c.timestamp % 1000 == 0
    ensures Window(avail, from, until) == Window(avail, from, mid) + Window(avail, mid + 1, until)
  {
    WindowIsFilter(avail, from, until);
    WindowIsFilter(avail, from, mid);
    WindowIsFilter(avail, mid + 1, until);
    var a, b := Window(avail, from, mid), Window(avail, mid + 1, until);
    forall i, j | 0 <= i < |a| && 0 <= j < |b| ensures a[i].timestamp < b[j].timestamp {
      assert a[i] in a && b[j] in b;
    }
    SameElementsSameOrder(Window(avail, from, until), a + b);
  }

  /** Between two seconds no existing candle opens. */
  ghost predicate NoneBetween(avail: seq<Candle>, from: int, until: int) {
    forall c | c in avail :: !(from * 1000 <= c.timestamp <= until * 1000)
  }

  /** The smallest multiple of the step not below `x`. */
  function AlignUp(x: int, step: int): (r: int)
    requires step > 0
    ensures r % step == 0 && x <= r < x + step
  {
    var up := if x % step == 0 then x else x - x % step + step;
    Multiple(x, step);
    up
  }

  lemma Multiple(x: int, step: int)
    requires step > 0
    ensures (x - x % step) % step == 0 && (x - x % step + step) % step == 0
  {
    var q := x / step;
    assert x - x % step == q * step;
    ProductModulo(q, step);
    ProductModulo(q + 1, step);
    assert (q + 1) * step == q * step + step;
  }

  lemma ProductModulo(q: int, step: int)
    requires step > 0
    ensures (q * step) % step == 0
  {
    var r := (q * step) % step;
    var d := (q * step) / step;
    assert q * step == d * step + r;
    NoMultipleBetween(q - d, r, step);
  }

  lemma NoMultipleBetween(k: int, r: int, step: int)
    requires step > 0 && 0 <= r < step && k * step == r
    ensures r == 0
  {
    assert k > 0 ==> (k - 1) * step >= 0;
    assert k < 0 ==> (-k - 1) * step >= 0;
  }

  /** Two multiples of the step less than a step apart are the same. */
  lemma MultiplesApart(a: int, b: int, step: int)
    requires step > 0 && a % step == 0 && b % step == 0 && a < b
    ensures a + step <= b
  {
    OrderedProducts(a / step, b / step, step);
  }

  lemma OrderedProducts(p: int, q: int, step: int)
    requires step > 0 && p * step < q * step
    ensures p * step + step <= q * step
  {
    assert q <= p ==> (p - q) * step >= 0;
    assert (q - p - 1) * step >= 0;
  }

  /** When every existing candle of the range is reached whatever exists: the range starts at a multiple of the step,
      or the first multiple after the end of a full first page already lies beyond the range. */
  predicate Reaches(step: int, maxBars: int, from: int, until: int)
    requires step > 0
  {
    from % step == 0 || AlignUp(PageEnd(from, step, maxBars), step) > until
  }

  /** The cursor jumps over no candle, and afterwards is aligned or nothing is left. */
  ghost predicate MovesOn(avail: seq<Candle>, step: int, pageTo: int, next: int, until: int)
    requires step > 0
  {
    && (next > pageTo ==> NoneBetween(avail, pageTo + 1, MinI(next - 1, until)))
    && (next <= pageTo ==> NoneBetween(avail, next, pageTo))
    && (next > until || next % step == 0 || NoneBetween(avail, next, until))
  }

  lemma PageMovesOn(avail: seq<Candle>, step: int, maxBars: int, cursor: int, until: int)
    requires step > 0 && maxBars >= 1 && cursor <= until && StepAligned(avail, step) && Reaches(step, maxBars, cursor, until)
    ensures var pageTo := PageTo(cursor, until, step, maxBars);
      MovesOn(avail, step, pageTo, NextCursor(cursor, pageTo, step, Window(avail, cursor, pageTo)), until)
  {
    CursorAdvances(cursor, until, step, maxBars, []);
    var pageTo := PageTo(cursor, until, step, maxBars);
    if Window(avail, cursor, pageTo) != [] {
      FullPageMovesOn(avail, step, cursor, pageTo, until);
    } else if pageTo < until {
      EmptyPageMovesOn(avail, step, maxBars, cursor, pageTo, until);
    }
  }

  lemma FullPageMovesOn(avail: seq<Candle>, step: int, cursor: int, pageTo: int, until: int)
    requires step > 0 && cursor <= pageTo <= until && StepAligned(avail, step) && Window(avail, cursor, pageTo) != []
    ensures MovesOn(avail, step, pageTo, NextCursor(cursor, pageTo, step, Window(avail, cursor, pageTo)), until)
  {
    var w := Window(avail, cursor, pageTo);
    WindowIsFilter(avail, cursor, pageTo);
    var last := w[|w| - 1];
    assert last in w;
    AlignedSum(last.timestamp / 1000, 1, step);
    forall c | c in avail && c.timestamp > last.timestamp
      ensures c.timestamp >= last.timestamp + step * 1000 && c.timestamp > pageTo * 1000
    {
      BeyondLast(avail, step, cursor, pageTo, c);
    }
  }

  /** What opens after the last candle of a page opens a step later, and after the page. */
  lemma BeyondLast(avail: seq<Candle>, step: int, cursor: int, pageTo: int, c: Candle)
    requires step > 0 && StepAligned(avail, step) && Window(avail, cursor, pageTo) != [] && c in avail
    ensures var w := Window(avail, cursor, pageTo); var last := w[|w| - 1];
      c.timestamp > last.timestamp ==> c.timestamp >= last.timestamp + step * 1000 && c.timestamp > pageTo * 1000
  {
    var w := Window(avail, cursor, pageTo);
    WindowIsFilter(avail, cursor, pageTo);
    var last := w[|w| - 1];
    assert last in w;
    if c in w { LastIsLatest(w, c); }
    if c.timestamp > last.timestamp { LaterCandle(last.timestamp / 1000, c.timestamp / 1000, step); }
  }

  lemma LaterCandle(a: int, b: int, step: int)
    requires step > 0 && a % step == 0 && b % step == 0 && a < b
    ensures b * 1000 >= (a + step) * 1000
  {
    MultiplesApart(a, b, step);
  }

  lemma EmptyPageMovesOn(avail: seq<Candle>, step: int, maxBars: int, cursor: int, pageTo: int, until: int)
    requires step > 0 && maxBars >= 1 && StepAligned(avail, step) && Reaches(step, maxBars, cursor, until)
    requires cursor <= pageTo < until && pageTo == PageEnd(cursor, step, maxBars)
    ensures MovesOn(avail, step, pageTo, pageTo + step, until)
  {
    forall c | c in avail && c.timestamp > pageTo * 1000
      ensures c.timestamp >= (pageTo + step) * 1000 || c.timestamp > until * 1000
    {
      BeyondPage(c.timestamp / 1000, cursor, pageTo, step, maxBars, until);
    }
    if cursor % step == 0 {
      AlignedSum(cursor, maxBars - 1, step);
      AlignedSum(pageTo, 1, step);
    } else {
      forall c | c in avail ensures !((pageTo + step) * 1000 <= c.timestamp <= until * 1000) {
        if c.timestamp >= (pageTo + step) * 1000 {
          BeyondRange(c.timestamp / 1000, AlignUp(pageTo, step), step, until);
        }
      }
    }
  }

  lemma BeyondRange(t: int, up: int, step: int, until: int)
    requires step > 0 && up > until && t >= up
    ensures t > until
  {
  }

  lemma LastIsLatest(w: seq<Candle>, c: Candle)
    requires Increasing(w) && c in w
    ensures c.timestamp <= w[|w| - 1].timestamp
  {
  }

  lemma AlignedSum(x: int, k: int, step: int)
    requires step > 0 && x % step == 0
    ensures (x + step * k) % step == 0
  {
    var q := x / step;
    assert x == q * step;
    assert x + step * k == (q + k) * step;
    ProductModulo(q + k, step);
  }

  /** A multiple of the step after a full page is at least one step after it, or beyond the range. */
  lemma BeyondPage(t: int, cursor: int, pageTo: int, step: int, maxBars: int, until: int)
    requires step > 0 && pageTo == PageEnd(cursor, step, maxBars) && t % step == 0 && t > pageTo
    requires Reaches(step, maxBars, cursor, until)
    ensures t >= pageTo + step || t > until
  {
    if cursor % step == 0 {
      AlignedSum(cursor, maxBars - 1, step);
      MultiplesApart(pageTo, t, step);
    } else {
      var up := AlignUp(pageTo, step);
      if t < up { MultiplesApart(t, up, step); }
    }
  }

  /** If nothing opens from the cursor on, nothing is handed on. */
  lemma {:induction false} NothingLeft(api: Api, avail: seq<Candle>, step: int, maxBars: int, cursor: int, until: int, page: nat)
    requires step > 0 && maxBars >= 1 && Increasing(avail) && Faithful(api, avail) && NoneBetween(avail, cursor, until)
    ensures Ingest(api, step, maxBars, cursor, until, page).handed == []
    decreases until - cursor
  {
    if cursor <= until {
      var pageTo := PageTo(cursor, until, step, maxBars);
      CursorAdvances(cursor, until, step, maxBars, []);
      WindowIsFilter(avail, cursor, pageTo);
      HasElement(Window(avail, cursor, pageTo));
      PageIsWindow(api(cursor, pageTo, page), avail, cursor, pageTo);
      NothingLeft(api, avail, step, maxBars, NextCursor(cursor, pageTo, step, []), until, page + 1);
    }
  }

  /** What a page hands on, and what is left to ask for after it. */
  lemma IngestStep(api: Api, avail: seq<Candle>, step: int, maxBars: int, cursor: int, until: int, page: nat)
    requires step > 0 && maxBars >= 1 && cursor <= until && Increasing(avail) && Faithful(api, avail)
    ensures var pageTo := PageTo(cursor, until, step, maxBars); var w := Window(avail, cursor, pageTo);
      var next := NextCursor(cursor, pageTo, step, w);
      && next > cursor
      && Ingest(api, step, maxBars, cursor, until, page).handed == w + Ingest(api, step, maxBars, next, until, page + 1).handed
  {
    var pageTo := PageTo(cursor, until, step, maxBars);
    CursorAdvances(cursor, until, step, maxBars, Window(avail, cursor, pageTo));
    PageIsWindow(api(cursor, pageTo, page), avail, cursor, pageTo);
  }

  /** The page and the rest of the range from the next cursor on are the range. */
  lemma WindowStep(avail: seq<Candle>, step: int, maxBars: int, cursor: int, until: int)
    requires step > 0 && maxBars >= 1 && cursor <= until && StepAligned(avail, step)
    requires Reaches(step, maxBars, cursor, until)
    ensures var pageTo := PageTo(cursor, until, step, maxBars); var w := Window(avail, cursor, pageTo);
      var next := NextCursor(cursor, pageTo, step, w);
      && Window(avail, cursor, until) == w + Window(avail, next, until)
      && (next > until || next % step == 0 || NoneBetween(avail, next, until))
  {
    var pageTo := PageTo(cursor, until, step, maxBars);
    CursorAdvances(cursor, until, step, maxBars, []);
    WindowSplits(avail, cursor, pageTo, until);
    PageMovesOn(avail, step, maxBars, cursor, until);
    RestOfRange(avail, pageTo, NextCursor(cursor, pageTo, step, Window(avail, cursor, pageTo)), until);
  }

  /** Where nothing opens any more, the rest of the paging agrees with the rest of the range. */
  lemma NothingOnEitherSide(api: Api, avail: seq<Candle>, step: int, maxBars: int, cursor: int, until: int, page: nat)
    requires step > 0 && maxBars >= 1 && Increasing(avail) && Faithful(api, avail) && NoneBetween(avail, cursor, until)
    ensures Ingest(api, step, maxBars, cursor, until, page).handed == Window(avail, cursor, until)
  {
    NothingLeft(api, avail, step, maxBars, cursor, until, page);
    WindowIsFilter(avail, cursor, until);
    HasElement(Window(avail, cursor, until));
  }

  /** If no existing candle can be missed, paging a faithful API hands every existing candle of the range to
      persistence: each once, in order, nothing else. */
  lemma {:induction false} PagingIsComplete(
      api: Api, avail: seq<Candle>, step: int, maxBars: int, cursor: int, until: int, page: nat)
    requires step > 0 && maxBars >= 1 && StepAligned(avail, step) && Faithful(api, avail)
    requires Reaches(step, maxBars, cursor, until)
    ensures Ingest(api, step, maxBars, cursor, until, page).handed == Window(avail, cursor, until)
    decreases until - cursor
  {
    if cursor > until {
      NothingOnEitherSide(api, avail, step, maxBars, cursor, until, page);
    } else {
      var w, next := PageLeads(api, avail, step, maxBars, cursor, until, page);
      if MaySkip(step, next, until) {
        NothingOnEitherSide(api, avail, step, maxBars, next, until, page + 1);
      } else {
        AlwaysReaches(step, maxBars, next, until);
        PagingIsComplete(api, avail, step, maxBars, next, until, page + 1);
      }
    }
  }

  /** The cursor lies in the range, between two multiples of the step. */
  predicate MaySkip(step: int, cursor: int, until: int)
    requires step > 0
  {
    cursor <= until && cursor % step != 0
  }

  /** What a page hands on, and where that leaves the paging and the range. */
  lemma PageLeads(api: Api, avail: seq<Candle>, step: int, maxBars: int, cursor: int, until: int, page: nat)
    returns (w: seq<Candle>, next: int)
    requires step > 0 && maxBars >= 1 && cursor <= until && StepAligned(avail, step) && Faithful(api, avail)
    requires Reaches(step, maxBars, cursor, until)
    ensures next > cursor && (MaySkip(step, next, until) ==> NoneBetween(avail, next, until))
    ensures Ingest(api, step, maxBars, cursor, until, page).handed == w + Ingest(api, step, maxBars, next, until, page + 1).handed
    ensures Window(avail, cursor, until) == w + Window(avail, next, until)
  {
    var pageTo := PageTo(cursor, until, step, maxBars);
    w := Window(avail, cursor, pageTo);
    next := NextCursor(cursor, pageTo, step, w);
    IngestStep(api, avail, step, maxBars, cursor, until, page);
    WindowStep(avail, step, maxBars, cursor, until);
  }

  lemma AlwaysReaches(step: int, maxBars: int, cursor: int, until: int)
    requires step > 0 && maxBars >= 1 && !MaySkip(step, cursor, until)
    ensures Reaches(step, maxBars, cursor, until)
  {
    assert step * (maxBars - 1) >= 0;
  }

  lemma RestOfRange(avail: seq<Candle>, pageTo: int, next: int, until: int)
    requires Increasing(avail) && pageTo <= until && forall c | c in avail :: c.timestamp % 1000 == 0
    requires next > pageTo ==> NoneBetween(avail, pageTo + 1, MinI(next - 1, until))
    requires next <= pageTo ==> NoneBetween(avail, next, pageTo)
    ensures Window(avail, pageTo + 1, until) == Window(avail, next, until)
  {
    WindowIsFilter(avail, pageTo + 1, until);
    WindowIsFilter(avail, next, until);
    SameElementsSameOrder(Window(avail, pageTo + 1, until), Window(avail, next, until));
  }

  /** The condition is exact: where it fails, a lone candle at the first multiple after the first page is never
      asked for, by any faithful API. */
  lemma OtherwiseACandleIsLost(api: Api, c: Candle, step: int, maxBars: int, from: int, until: int, page: nat)
    requires step > 0 && maxBars >= 1 && from <= until && !Reaches(step, maxBars, from, until)
    requires c.timestamp == 1000 * AlignUp(PageEnd(from, step, maxBars), step) && Faithful(api, [c])
    ensures StepAligned([c], step)
    ensures Window([c], from, until) == [c] && Ingest(api, step, maxBars, from, until, page).handed == []
  {
    FirstGap(step, maxBars, from, until);
    AlignedAlone(c, AlignUp(PageEnd(from, step, maxBars), step), step);
    LoneCandle(c, from, until);
    LostBehindPage(api, c, step, maxBars, from, until, page);
  }

  lemma AlignedAlone(c: Candle, up: int, step: int)
    requires step > 0 && up % step == 0 && c.timestamp == 1000 * up
    ensures StepAligned([c], step)
  {
  }

  /** The first multiple of the step after the first page lies in the range, but before the next cursor. */
  lemma FirstGap(step: int, maxBars: int, from: int, until: int)
    requires step > 0 && maxBars >= 1 && from <= until && !Reaches(step, maxBars, from, until)
    ensures var pageTo := PageTo(from, until, step, maxBars); var up := AlignUp(PageEnd(from, step, maxBars), step);
      from <= pageTo < up < pageTo + step && up <= until
  {
    CursorAdvances(from, until, step, maxBars, []);
    NotItself(from, step, maxBars);
  }

  lemma LoneCandle(c: Candle, from: int, until: int)
    ensures Window([c], from, until) == if from * 1000 <= c.timestamp <= until * 1000 then [c] else []
  {
    assert [c][..0] == [];
  }

  /** A candle strictly between the first page and the next cursor is never asked for. */
  lemma LostBehindPage(api: Api, c: Candle, step: int, maxBars: int, from: int, until: int, page: nat)
    requires step > 0 && maxBars >= 1 && from <= until && Faithful(api, [c])
    requires PageTo(from, until, step, maxBars) * 1000 < c.timestamp < (PageTo(from, until, step, maxBars) + step) * 1000
    ensures Ingest(api, step, maxBars, from, until, page).handed == []
  {
    var pageTo := PageTo(from, until, step, maxBars);
    LoneCandle(c, from, pageTo);
    IngestStep(api, [c], step, maxBars, from, until, page);
    NothingLeft(api, [c], step, maxBars, pageTo + step, until, page + 1);
  }

  lemma NotItself(from: int, step: int, maxBars: int)
    requires step > 0 && from % step != 0
    ensures PageEnd(from, step, maxBars) % step != 0
  {
    AlignedBack(from, maxBars - 1, step);
  }

  lemma AlignedBack(x: int, k: int, step: int)
    requires step > 0
    ensures (x + step * k) % step == 0 ==> x % step == 0
  {
    if (x + step * k) % step == 0 {
      AlignedSum(x + step * k, -k, step);
      assert step * k + step * -k == 0;
    }
  }

  /** Whatever the API answers: no more pages than bars handed on, plus one per full page of the range, plus one. */
  lemma {:induction false} PagesBounded(api: Api, step: int, maxBars: int, cursor: int, until: int, page: nat)
    requires step > 0 && maxBars >= 1
    ensures var s := Ingest(api, step, maxBars, cursor, until, page);
      s.pages - page <= |s.handed| + if cursor > until then 0 else FullPages(cursor, until, step, maxBars) + 1
    decreases until - cursor
  {
    if cursor <= until {
      var pageTo := PageTo(cursor, until, step, maxBars);
      var parsed := Normalize(api(cursor, pageTo, page));
      var next := NextCursor(cursor, pageTo, step, parsed);
      CursorAdvances(cursor, until, step, maxBars, parsed);
      PagesBounded(api, step, maxBars, next, until, page + 1);
      FullPagesShrink(cursor, next, until, step, maxBars);
      assert parsed == [] && pageTo < until ==> next == cursor + maxBars * step;
    }
  }

  function FullPages(cursor: int, until: int, step: int, maxBars: int): nat
    requires step > 0 && maxBars >= 1 && cursor <= until
  {
    assert maxBars * step > 0;
    NatQuotient(until - cursor, maxBars * step);
    (until - cursor) / (maxBars * step)
  }

  lemma NatQuotient(x: int, y: int)
    requires x >= 0 && y > 0
    ensures x / y >= 0
  {
  }

  lemma FullPagesShrink(cursor: int, next: int, until: int, step: int, maxBars: int)
    requires step > 0 && maxBars >= 1 && cursor < next
    ensures next <= until ==> FullPages(next, until, step, maxBars) <= FullPages(cursor, until, step, maxBars)
    ensures next <= until && next == cursor + maxBars * step
            ==> FullPages(next, until, step, maxBars) + 1 == FullPages(cursor, until, step, maxBars)
  {
    assert maxBars * step > 0;
    if next <= until {
      QuotientOrder(until - next, until - cursor, maxBars * step);
      if next == cursor + maxBars * step { QuotientStep(until - next, maxBars * step); }
    }
  }

  lemma QuotientOrder(x: int, y: int, d: int)
    requires d > 0 && x <= y
    ensures x / d <= y / d
  {
    QuotientsOrdered(x / d, y / d, x % d, y % d, d);
  }

  lemma QuotientsOrdered(p: int, q: int, r: int, s: int, d: int)
    requires 0 <= r < d && 0 <= s < d && p * d + r <= q * d + s
    ensures p <= q
  {
    assert p > q ==> (p - q - 1) * d >= 0;
  }

  lemma QuotientStep(x: int, d: int)
    requires d > 0
    ensures (x + d) / d == x / d + 1
  {
    var p := x / d;
    var q := (x + d) / d;
    assert x == p * d + x % d && x + d == q * d + (x + d) % d;
    Pinned(q - p - 1, x % d - (x + d) % d, d);
  }

  lemma Pinned(k: int, r: int, d: int)
    requires d > 0 && -d < r < d && k * d == r
    ensures k == 0
  {
    assert k > 0 ==> (k - 1) * d >= 0;
    assert k < 0 ==> (-k - 1) * d >= 0;
  }

  // ------------------------------------------------------------ the component's own form

  method NormalizeCandles(rows: seq<Row>) returns (r: seq<Candle>)
    ensures r == Normalize(rows)
  {
    var byOpenTime: seq<Candle> := [];
    for k := 0 to |rows|
      invariant byOpenTime == Table(rows[..k])
    {
      assert rows[..k + 1][..k] == rows[..k];
      if rows[k].Bar? {
        byOpenTime := Put(TimeOf, byOpenTime, rows[k].candle);
      }
    }
    assert rows[..|rows|] == rows;
    return Sort(ByTime, byOpenTime);
  }

  /** What is persisted and what the rest will hand on make up the whole, in as many pages. */
  ghost predicate Leads(persisted: seq<Candle>, rest: Summary, whole: Summary) {
    persisted + rest.handed == whole.handed && rest.pages == whole.pages
  }

  lemma OnePage(whole: Summary, persisted: seq<Candle>, api: Api, step: int, maxBars: int, cursor: int, until: int, page: nat,
                parsed: seq<Candle>)
    requires step > 0 && maxBars >= 1 && cursor <= until
    requires parsed == Normalize(api(cursor, PageTo(cursor, until, step, maxBars), page))
    requires Leads(persisted, Ingest(api, step, maxBars, cursor, until, page), whole)
    ensures var next := NextCursor(cursor, PageTo(cursor, until, step, maxBars), step, parsed);
      Leads(persisted + parsed, Ingest(api, step, maxBars, next, until, page + 1), whole)
  {
    var next := NextCursor(cursor, PageTo(cursor, until, step, maxBars), step, parsed);
    var rest := Ingest(api, step, maxBars, next, until, page + 1);
    assert persisted + (parsed + rest.handed) == persisted + parsed + rest.handed;
  }

  class CandleHistoryIngestor {
    const api: Api
    const maxBarsPerCall: int
    var persisted: seq<Candle>

    constructor (api: Api, maxBars: int)
      ensures this.api == api && persisted == []
      ensures 1 <= maxBars <= MAX_PAGE_BARS ==> maxBarsPerCall == maxBars
      ensures maxBars < 1 ==> maxBarsPerCall == 1
      ensures maxBars > MAX_PAGE_BARS ==> maxBarsPerCall == MAX_PAGE_BARS
    {
      this.api := api;
      var capped := MinI(MAX_PAGE_BARS, maxBars);
      maxBarsPerCall := if capped < 1 then 1 else capped;
      persisted := [];
    }

    /** Ask for one page, hand its bars on, and find the next cursor. */
    method Page(step: int, cursor: int, until: int, page: nat) returns (next: int, ghost parsed: seq<Candle>)
      requires step > 0 && maxBarsPerCall >= 1 && cursor <= until
      modifies this
      ensures parsed == Normalize(api(cursor, PageTo(cursor, until, step, maxBarsPerCall), page))
      ensures next == NextCursor(cursor, PageTo(cursor, until, step, maxBarsPerCall), step, parsed) && next > cursor
      ensures persisted == old(persisted) + parsed
    {
      var pageTo := PageTo(cursor, until, step, maxBarsPerCall);
      var candles := NormalizeCandles(api(cursor, pageTo, page));
      parsed := candles;
      CursorAdvances(cursor, until, step, maxBarsPerCall, candles);
      if |candles| == 0 {
        next := pageTo + step;
        return;
      }
      persisted := persisted + candles;
      var nextCursor := candles[|candles| - 1].timestamp / 1000 + step;
      next := if nextCursor > cursor then nextCursor else pageTo + step;
    }

    method Pages(step: int, from: int, until: int) returns (pages: nat)
      requires step > 0 && maxBarsPerCall >= 1
      modifies this
      ensures var s := Ingest(api, step, maxBarsPerCall, from, until, 0);
        pages == s.pages && persisted == old(persisted) + s.handed
    {
      var cursor := from;
      pages := 0;
      ghost var first := Ingest(api, step, maxBarsPerCall, from, until, 0);
      ghost var whole := Summary(first.pages, persisted + first.handed);
      while cursor <= until
        invariant Leads(persisted, Ingest(api, step, maxBarsPerCall, cursor, until, pages), whole)
        decreases until - cursor
      {
        ghost var before := persisted;
        var next, parsed := Page(step, cursor, until, pages);
        OnePage(whole, before, api, step, maxBarsPerCall, cursor, until, pages, parsed);
        cursor, pages := next, pages + 1;
      }
    }

    /** Page through `fromMs..toMs`; None for an unknown timeframe. `fetched` counts the usable bars. */
    method IngestRange(timeframe: string, fromMs: int, toMs: int) returns (r: Option<(nat, nat)>)
      requires maxBarsPerCall >= 1
      modifies this
      ensures r == None <==> StepSeconds(timeframe) == None
      ensures r == None ==> persisted == old(persisted)
      ensures r.Some? ==>
        var s := Ingest(api, StepSeconds(timeframe).value, maxBarsPerCall, fromMs / 1000, toMs / 1000, 0);
        r.value == (s.pages, |s.handed|) && persisted == old(persisted) + s.handed
    {
      var meta := StepSeconds(timeframe);
      if meta == None {
        return None;
      }
      var before := |persisted|;
      var pages := Pages(meta.value, fromMs / 1000, toMs / 1000);
      return Some((pages, |persisted| - before));
    }
  }
}
