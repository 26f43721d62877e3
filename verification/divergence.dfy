/** Comparing local rows with the rows the exchange reports. */
module Divergences {
  import opened Common
  import opened Tables

  datatype Severity = Info | Warn | Alarm

  datatype Diff<T> =
    | MissingInLocal(id: string, restRow: T, severity: Severity)
    | MissingInRest(id: string, localRow: T, severity: Severity)
    | FieldMismatch(id: string, field: string, local: string, rest: string, severity: Severity)

  /** The limits, and how a decimal text is read. */
  datatype Config = Config(pnlAbsAlarm: real, pnlPctAlarm: real, number: string -> real)

  /** What to compare of one kind of row: its key, its fields as texts, and the roles of those fields. */
  datatype Schema<!T> = Schema(
    key: T -> string, text: (T, string) -> string, compare: seq<string>, quantities: seq<string>, profits: seq<string>)

  function Classify<T>(cfg: Config, schema: Schema<T>, field: string, local: string, rest: string): Severity {
    if field in schema.quantities then Alarm
    else if field in schema.profits then
      var l, r := cfg.number(local), cfg.number(rest);
      var gap := Abs(l - r);
      if gap > cfg.pnlAbsAlarm then Alarm
      else
        var denom := MaxR(MaxR(Abs(l), Abs(r)), 1.0);
        if gap / denom > cfg.pnlPctAlarm then Alarm else Warn
    else Info
  }

  function Mismatch<T>(cfg: Config, schema: Schema<T>, l: T, r: T, field: string): Diff<T> {
    var lv, rv := schema.text(l, field), schema.text(r, field);
    FieldMismatch(schema.key(r), field, lv, rv, Classify(cfg, schema, field, lv, rv))
  }

  predicate Differs<T>(schema: Schema<T>, l: T, r: T, field: string) {
    schema.text(l, field) != schema.text(r, field)
  }

  function FieldDiffs<T>(cfg: Config, schema: Schema<T>, l: T, r: T, fields: seq<string>): seq<Diff<T>> {
    if fields == [] then []
    else
      var n := |fields| - 1;
      var before := FieldDiffs(cfg, schema, l, r, fields[..n]);
      if Differs(schema, l, r, fields[n]) then before + [Mismatch(cfg, schema, l, r, fields[n])] else before
  }

  function RowDiffs<T>(cfg: Config, schema: Schema<T>, local: seq<T>, r: T): seq<Diff<T>> {
    var l := Find(schema.key, local, schema.key(r));
    if l == None then [MissingInLocal(schema.key(r), r, Warn)]
    else FieldDiffs(cfg, schema, l.value, r, schema.compare)
  }

  function RestDiffs<T>(cfg: Config, schema: Schema<T>, local: seq<T>, rest: seq<T>): seq<Diff<T>> {
    if rest == [] then []
    else
      var n := |rest| - 1;
      RestDiffs(cfg, schema, local, rest[..n]) + RowDiffs(cfg, schema, local, rest[n])
  }

  function LocalDiffs<T>(schema: Schema<T>, rest: seq<T>, local: seq<T>): seq<Diff<T>> {
    if local == [] then []
    else
      var n := |local| - 1;
      var before := LocalDiffs(schema, rest, local[..n]);
      if Find(schema.key, rest, schema.key(local[n])) == None
      then before + [MissingInRest(schema.key(local[n]), local[n], Warn)] else before
  }

  /** On tables: first along the exchange's rows, then the local rows the exchange does not have. */
  function DiffTables<T>(cfg: Config, schema: Schema<T>, local: seq<T>, rest: seq<T>): seq<Diff<T>> {
    RestDiffs(cfg, schema, local, rest) + LocalDiffs(schema, rest, local)
  }

  function DiffRows<T>(cfg: Config, schema: Schema<T>, local: seq<T>, rest: seq<T>): seq<Diff<T>> {
    DiffTables(cfg, schema, TableOf(schema.key, local), TableOf(schema.key, rest))
  }

  // ------------------------------------------------------------ sound and complete

  /** A difference between the two tables, with the severity its kind calls for. */
  ghost predicate IsDifference<T>(cfg: Config, schema: Schema<T>, local: seq<T>, rest: seq<T>, d: Diff<T>) {
    match d
    case MissingInLocal(id, row, severity) =>
      row in rest && id == schema.key(row) && !Has(schema.key, local, id) && severity == Warn
    case MissingInRest(id, row, severity) =>
      row in local && id == schema.key(row) && !Has(schema.key, rest, id) && severity == Warn
    case FieldMismatch(id, field, lv, rv, severity) =>
      exists l, r | l in local && r in rest :: IsPair(schema, local, rest, id, l, r) && field in schema.compare
        && lv == schema.text(l, field) && rv == schema.text(r, field) && lv != rv
        && severity == Classify(cfg, schema, field, lv, rv)
  }

  predicate IsPair<T(==)>(schema: Schema<T>, local: seq<T>, rest: seq<T>, id: string, l: T, r: T) {
    l in local && r in rest && schema.key(l) == id && schema.key(r) == id
  }

  lemma {:induction false} FieldDiffsAre<T>(cfg: Config, schema: Schema<T>, l: T, r: T, fields: seq<string>, d: Diff<T>)
    ensures d in FieldDiffs(cfg, schema, l, r, fields) <==>
      exists f :: f in fields && Differs(schema, l, r, f) && d == Mismatch(cfg, schema, l, r, f)
  {
    if fields != [] {
      var n := |fields| - 1;
      FieldDiffsAre(cfg, schema, l, r, fields[..n], d);
      assert forall f :: f in fields <==> f in fields[..n] || f == fields[n] by { assert fields == fields[..n] + [fields[n]]; }
    }
  }

  lemma RowDiffsAre<T>(cfg: Config, schema: Schema<T>, local: seq<T>, rest: seq<T>, r: T, d: Diff<T>)
    requires Distinct(schema.key, local) && r in rest
    ensures d in RowDiffs(cfg, schema, local, r) ==> IsDifference(cfg, schema, local, rest, d) && d.id == schema.key(r) && !d.MissingInRest?
  {
    var l := Find(schema.key, local, schema.key(r));
    FindMember(schema.key, local, schema.key(r));
    if l.Some? {
      FieldDiffsAre(cfg, schema, l.value, r, schema.compare, d);
      assert IsPair(schema, local, rest, schema.key(r), l.value, r);
    }
  }

  lemma {:induction false} RestDiffsSound<T>(cfg: Config, schema: Schema<T>, local: seq<T>, rest: seq<T>, k: nat, d: Diff<T>)
    requires Distinct(schema.key, local) && k <= |rest| && d in RestDiffs(cfg, schema, local, rest[..k])
    ensures IsDifference(cfg, schema, local, rest, d) && !d.MissingInRest?
    ensures Has(schema.key, rest[..k], d.id)
  {
    if k > 0 {
      assert rest[..k][..k - 1] == rest[..k - 1];
      assert rest[..k] == rest[..k - 1] + [rest[k - 1]];
      if d in RestDiffs(cfg, schema, local, rest[..k - 1]) {
        RestDiffsSound(cfg, schema, local, rest, k - 1, d);
      } else {
        RowDiffsAre(cfg, schema, local, rest, rest[k - 1], d);
      }
      HasSnoc(schema.key, rest[..k], d.id);
    }
  }

  lemma {:induction false} RestDiffsHold<T>(cfg: Config, schema: Schema<T>, local: seq<T>, rest: seq<T>, r: T, d: Diff<T>)
    requires r in rest && d in RowDiffs(cfg, schema, local, r)
    ensures d in RestDiffs(cfg, schema, local, rest)
  {
    var n := |rest| - 1;
    assert rest == rest[..n] + [rest[n]];
    if r != rest[n] { RestDiffsHold(cfg, schema, local, rest[..n], r, d); }
  }

  lemma {:induction false} LocalDiffsAre<T>(schema: Schema<T>, rest: seq<T>, local: seq<T>, d: Diff<T>)
    requires Distinct(schema.key, rest)
    ensures d in LocalDiffs(schema, rest, local) <==>
      d.MissingInRest? && d.localRow in local && d.id == schema.key(d.localRow) && !Has(schema.key, rest, d.id) && d.severity == Warn
  {
    if local != [] {
      var n := |local| - 1;
      LocalDiffsAre(schema, rest, local[..n], d);
      FindMember(schema.key, rest, schema.key(local[n]));
      assert d.MissingInRest? ==> (d.localRow in local <==> d.localRow in local[..n] || d.localRow == local[n]) by {
        assert local == local[..n] + [local[n]];
      }
    }
  }

  lemma DifferenceListed<T>(cfg: Config, schema: Schema<T>, local: seq<T>, rest: seq<T>, d: Diff<T>)
    requires Distinct(schema.key, local) && Distinct(schema.key, rest) && IsDifference(cfg, schema, local, rest, d)
    ensures d in DiffTables(cfg, schema, local, rest)
  {
    LocalDiffsAre(schema, rest, local, d);
    match d
    case MissingInLocal(id, row, severity) =>
      FindMember(schema.key, local, id);
      RestDiffsHold(cfg, schema, local, rest, row, d);
    case MissingInRest(id, row, severity) =>
    case FieldMismatch(id, field, lv, rv, severity) => MismatchListed(cfg, schema, local, rest, d);
  }

  lemma MismatchListed<T>(cfg: Config, schema: Schema<T>, local: seq<T>, rest: seq<T>, d: Diff<T>)
    requires Distinct(schema.key, local) && IsDifference(cfg, schema, local, rest, d) && d.FieldMismatch?
    ensures d in DiffTables(cfg, schema, local, rest)
  {
    var l, r :| l in local && r in rest && IsPair(schema, local, rest, d.id, l, r) && d.field in schema.compare
      && d.local == schema.text(l, d.field) && d.rest == schema.text(r, d.field) && d.local != d.rest
      && d.severity == Classify(cfg, schema, d.field, d.local, d.rest);
    FindMember(schema.key, local, d.id);
    FieldDiffsAre(cfg, schema, l, r, schema.compare, d);
    assert Differs(schema, l, r, d.field) && d == Mismatch(cfg, schema, l, r, d.field);
    RestDiffsHold(cfg, schema, local, rest, r, d);
  }

  /** The list holds exactly the differences: one missing id each way, one entry per differing field of a shared id,
      and each with its severity. */
  lemma DiffIsExact<T>(cfg: Config, schema: Schema<T>, local: seq<T>, rest: seq<T>, d: Diff<T>)
    requires Distinct(schema.key, local) && Distinct(schema.key, rest)
    ensures d in DiffTables(cfg, schema, local, rest) <==> IsDifference(cfg, schema, local, rest, d)
  {
    if d in DiffTables(cfg, schema, local, rest) {
      if d in RestDiffs(cfg, schema, local, rest) {
        assert rest[..|rest|] == rest;
        RestDiffsSound(cfg, schema, local, rest, |rest|, d);
      } else {
        LocalDiffsAre(schema, rest, local, d);
      }
    }
    if IsDifference(cfg, schema, local, rest, d) { DifferenceListed(cfg, schema, local, rest, d); }
  }

  /** What an entry is about: a missing id, or one field of an id. */
  predicate SameSubject<T>(a: Diff<T>, b: Diff<T>) {
    a.id == b.id && (a.FieldMismatch? <==> b.FieldMismatch?) && (a.FieldMismatch? && b.FieldMismatch? ==> a.field == b.field)
  }

  ghost predicate NoneTwice<T>(ds: seq<Diff<T>>) {
    forall i, j | 0 <= i < j < |ds| :: !SameSubject(ds[i], ds[j])
  }

  lemma NoneTwiceAppend<T>(a: seq<Diff<T>>, b: seq<Diff<T>>)
    requires NoneTwice(a) && NoneTwice(b) && forall x, y | x in a && y in b :: !SameSubject(x, y)
    ensures NoneTwice(a + b)
  {
    var c := a + b;
    forall i, j | 0 <= i < j < |c| ensures !SameSubject(c[i], c[j]) {
      if i < |a| <= j { assert c[i] in a && c[j] in b; }
    }
  }

  ghost predicate NoRepeats(fields: seq<string>) {
    forall i, j | 0 <= i < j < |fields| :: fields[i] != fields[j]
  }

  lemma {:induction false} FieldDiffsOnce<T>(cfg: Config, schema: Schema<T>, l: T, r: T, fields: seq<string>)
    requires NoRepeats(fields)
    ensures NoneTwice(FieldDiffs(cfg, schema, l, r, fields))
  {
    if fields != [] {
      var n := |fields| - 1;
      var before := FieldDiffs(cfg, schema, l, r, fields[..n]);
      FieldDiffsOnce(cfg, schema, l, r, fields[..n]);
      var last := Mismatch(cfg, schema, l, r, fields[n]);
      forall x, y | x in before && y in [last] ensures !SameSubject(x, y) {
        FieldDiffsAre(cfg, schema, l, r, fields[..n], x);
      }
      NoneTwiceAppend(before, [last]);
    }
  }

  lemma RowDiffsOnce<T>(cfg: Config, schema: Schema<T>, local: seq<T>, r: T)
    requires NoRepeats(schema.compare)
    ensures NoneTwice(RowDiffs(cfg, schema, local, r))
  {
    var l := Find(schema.key, local, schema.key(r));
    if l.Some? { FieldDiffsOnce(cfg, schema, l.value, r, schema.compare); }
  }

  lemma {:induction false} RestDiffsOnce<T>(cfg: Config, schema: Schema<T>, local: seq<T>, rest: seq<T>)
    requires Distinct(schema.key, local) && Distinct(schema.key, rest) && NoRepeats(schema.compare)
    ensures NoneTwice(RestDiffs(cfg, schema, local, rest))
  {
    if rest != [] {
      var n := |rest| - 1;
      RestDiffsOnce(cfg, schema, local, rest[..n]);
      RowDiffsOnce(cfg, schema, local, rest[n]);
      var before, row := RestDiffs(cfg, schema, local, rest[..n]), RowDiffs(cfg, schema, local, rest[n]);
      forall x, y | x in before && y in row ensures !SameSubject(x, y) {
        assert rest[..n][..n] == rest[..n];
        RestDiffsSound(cfg, schema, local, rest[..n], n, x);
        RowDiffsAre(cfg, schema, local, [rest[n]], rest[n], y);
        var r :| r in rest[..n] && schema.key(r) == x.id;
      }
      NoneTwiceAppend(before, row);
    }
  }

  lemma {:induction false} LocalDiffsOnce<T>(schema: Schema<T>, rest: seq<T>, local: seq<T>)
    requires Distinct(schema.key, local) && Distinct(schema.key, rest)
    ensures NoneTwice(LocalDiffs(schema, rest, local))
  {
    if local != [] {
      var n := |local| - 1;
      LocalDiffsOnce(schema, rest, local[..n]);
      var before, last := LocalDiffs(schema, rest, local[..n]), MissingInRest(schema.key(local[n]), local[n], Warn);
      forall x, y | x in before && y in [last] ensures !SameSubject(x, y) {
        LocalDiffsAre(schema, rest, local[..n], x);
      }
      NoneTwiceAppend(before, [last]);
    }
  }

  /** No missing id and no differing field is listed twice. */
  lemma DiffListsOnce<T>(cfg: Config, schema: Schema<T>, local: seq<T>, rest: seq<T>)
    requires Distinct(schema.key, local) && Distinct(schema.key, rest) && NoRepeats(schema.compare)
    ensures NoneTwice(DiffTables(cfg, schema, local, rest))
  {
    RestDiffsOnce(cfg, schema, local, rest);
    LocalDiffsOnce(schema, rest, local);
    var a, b := RestDiffs(cfg, schema, local, rest), LocalDiffs(schema, rest, local);
    forall x, y | x in a && y in b ensures !SameSubject(x, y) {
      assert rest[..|rest|] == rest;
      RestDiffsSound(cfg, schema, local, rest, |rest|, x);
      LocalDiffsAre(schema, rest, local, y);
    }
    NoneTwiceAppend(a, b);
  }

  /** Same ids, and all compared fields alike. */
  ghost predicate Agree<T>(schema: Schema<T>, local: seq<T>, rest: seq<T>) {
    && (forall id: string :: Has(schema.key, local, id) <==> Has(schema.key, rest, id))
    && (forall id: string, l: T, r: T, f: string | l in local && r in rest && IsPair(schema, local, rest, id, l, r) && f in schema.compare ::
          !Differs(schema, l, r, f))
  }

  /** Nothing is listed exactly when the tables agree. */
  lemma DiffEmptyIff<T>(cfg: Config, schema: Schema<T>, local: seq<T>, rest: seq<T>)
    requires Distinct(schema.key, local) && Distinct(schema.key, rest)
    ensures DiffTables(cfg, schema, local, rest) == [] <==> Agree(schema, local, rest)
  {
    var ds := DiffTables(cfg, schema, local, rest);
    if Agree(schema, local, rest) && ds != [] {
      DiffIsExact(cfg, schema, local, rest, ds[0]);
    }
    if ds == [] {
      forall id: string ensures Has(schema.key, local, id) <==> Has(schema.key, rest, id) {
        NothingMissing(cfg, schema, local, rest, id);
      }
      forall id: string, l: T, r: T, f: string | IsPair(schema, local, rest, id, l, r) && f in schema.compare
        ensures !Differs(schema, l, r, f)
      {
        if Differs(schema, l, r, f) { DiffIsExact(cfg, schema, local, rest, Mismatch(cfg, schema, l, r, f)); }
      }
    }
  }

  lemma NothingMissing<T>(cfg: Config, schema: Schema<T>, local: seq<T>, rest: seq<T>, id: string)
    requires Distinct(schema.key, local) && Distinct(schema.key, rest) && DiffTables(cfg, schema, local, rest) == []
    ensures Has(schema.key, local, id) <==> Has(schema.key, rest, id)
  {
    if Has(schema.key, local, id) && !Has(schema.key, rest, id) {
      var l :| l in local && schema.key(l) == id;
      DiffIsExact(cfg, schema, local, rest, MissingInRest(id, l, Warn));
    }
    if Has(schema.key, rest, id) && !Has(schema.key, local, id) {
      var r :| r in rest && schema.key(r) == id;
      DiffIsExact(cfg, schema, local, rest, MissingInLocal(id, r, Warn));
    }
  }

  /** A table against itself. */
  lemma DiffOfSame<T>(cfg: Config, schema: Schema<T>, rows: seq<T>)
    requires Distinct(schema.key, rows)
    ensures DiffTables(cfg, schema, rows, rows) == []
  {
    forall id: string, l: T, r: T, f: string | IsPair(schema, rows, rows, id, l, r) ensures !Differs(schema, l, r, f) {
      DistinctMembers(schema.key, rows, l, r);
    }
    DiffEmptyIff(cfg, schema, rows, rows);
  }

  // ------------------------------------------------------------ the component's own form

  method ToTable<T>(key: T -> string, rows: seq<T>) returns (table: seq<T>)
    ensures table == TableOf(key, rows)
  {
    table := [];
    for k := 0 to |rows|
      invariant table == PutAll(key, [], rows[..k])
    {
      assert rows[..k + 1][..k] == rows[..k];
      table := Put(key, table, rows[k]);
    }
    assert rows[..|rows|] == rows;
  }

  method DiffMaps<T>(cfg: Config, schema: Schema<T>, local: seq<T>, rest: seq<T>) returns (diffs: seq<Diff<T>>)
    ensures diffs == DiffTables(cfg, schema, local, rest)
  {
    diffs := [];
    for i := 0 to |rest|
      invariant diffs == RestDiffs(cfg, schema, local, rest[..i])
    {
      assert rest[..i + 1][..i] == rest[..i];
      var r := rest[i];
      var l := Find(schema.key, local, schema.key(r));
      if l == None {
        diffs := diffs + [MissingInLocal(schema.key(r), r, Warn)];
        continue;
      }
      var row := DiffFields(cfg, schema, l.value, r);
      diffs := diffs + row;
    }
    assert rest[..|rest|] == rest;
    ghost var first := diffs;
    for i := 0 to |local|
      invariant diffs == first + LocalDiffs(schema, rest, local[..i])
    {
      assert local[..i + 1][..i] == local[..i];
      if Find(schema.key, rest, schema.key(local[i])) == None {
        diffs := diffs + [MissingInRest(schema.key(local[i]), local[i], Warn)];
      }
    }
    assert local[..|local|] == local;
  }

  method DiffFields<T>(cfg: Config, schema: Schema<T>, l: T, r: T) returns (diffs: seq<Diff<T>>)
    ensures diffs == FieldDiffs(cfg, schema, l, r, schema.compare)
  {
    diffs := [];
    for k := 0 to |schema.compare|
      invariant diffs == FieldDiffs(cfg, schema, l, r, schema.compare[..k])
    {
      assert schema.compare[..k + 1][..k] == schema.compare[..k];
      var field := schema.compare[k];
      var lv, rv := schema.text(l, field), schema.text(r, field);
      if lv == rv {
        continue;
      }
      diffs := diffs + [FieldMismatch(schema.key(r), field, lv, rv, Classify(cfg, schema, field, lv, rv))];
    }
    assert schema.compare[..|schema.compare|] == schema.compare;
  }
}
