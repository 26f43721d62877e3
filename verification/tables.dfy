/** Tables keyed by a part of their rows, in order of insertion. */
module Tables {
  import opened Common

  /** No two rows for one key. */
  ghost predicate Distinct<T, K>(key: T -> K, xs: seq<T>) {
    forall i, j | 0 <= i < j < |xs| :: key(xs[i]) != key(xs[j])
  }

  predicate Has<T(==), K(==)>(key: T -> K, xs: seq<T>, k: K) {
    exists x | x in xs :: key(x) == k
  }

  function Find<T, K(==)>(key: T -> K, xs: seq<T>, k: K): Option<T> {
    if xs == [] then None
    else if key(xs[0]) == k then Some(xs[0])
    else Find(key, xs[1..], k)
  }

  /** Set a row: in place of the row with its key, or at the end. */
  function Put<T, K(==)>(key: T -> K, xs: seq<T>, x: T): seq<T> {
    if xs == [] then [x]
    else if key(xs[0]) == key(x) then [x] + xs[1..]
    else [xs[0]] + Put(key, xs[1..], x)
  }

  function PutAll<T, K(==)>(key: T -> K, xs: seq<T>, rows: seq<T>): seq<T> {
    if rows == [] then xs else Put(key, PutAll(key, xs, rows[..|rows| - 1]), rows[|rows| - 1])
  }

  /** The rows of a list, the last of each key. */
  function TableOf<T, K(==)>(key: T -> K, rows: seq<T>): seq<T> {
    PutAll(key, [], rows)
  }

  lemma HeadKey<T, K>(key: T -> K, xs: seq<T>, y: T)
    requires Distinct(key, xs) && xs != [] && y in xs[1..]
    ensures key(y) != key(xs[0])
  {
    var i :| 0 <= i < |xs| - 1 && xs[1..][i] == y;
    assert xs[i + 1] == y;
  }

  lemma {:induction false} PutMember<T, K>(key: T -> K, xs: seq<T>, x: T, y: T)
    requires Distinct(key, xs)
    ensures y in Put(key, xs, x) <==> y == x || (y in xs && key(y) != key(x))
  {
    if xs != [] {
      assert y in xs <==> y == xs[0] || y in xs[1..];
      if y in xs[1..] { HeadKey(key, xs, y); }
      if key(xs[0]) != key(x) { PutMember(key, xs[1..], x, y); }
    }
  }

  lemma {:induction false} PutDistinct<T, K>(key: T -> K, xs: seq<T>, x: T)
    requires Distinct(key, xs)
    ensures Distinct(key, Put(key, xs, x))
  {
    if xs != [] && key(xs[0]) != key(x) {
      PutDistinct(key, xs[1..], x);
      var r := Put(key, xs[1..], x);
      forall j | 0 <= j < |r| ensures key(r[j]) != key(xs[0]) {
        PutMember(key, xs[1..], x, r[j]);
        if r[j] != x { HeadKey(key, xs, r[j]); }
      }
    }
  }

  lemma {:induction false} PutAllDistinct<T, K>(key: T -> K, xs: seq<T>, rows: seq<T>)
    requires Distinct(key, xs)
    ensures Distinct(key, PutAll(key, xs, rows))
  {
    if rows != [] {
      PutAllDistinct(key, xs, rows[..|rows| - 1]);
      PutDistinct(key, PutAll(key, xs, rows[..|rows| - 1]), rows[|rows| - 1]);
    }
  }

  lemma HasSnoc<T, K>(key: T -> K, rows: seq<T>, k: K)
    requires rows != []
    ensures Has(key, rows, k) <==> Has(key, rows[..|rows| - 1], k) || key(rows[|rows| - 1]) == k
  {
    var n := |rows| - 1;
    assert forall x :: x in rows <==> x in rows[..n] || x == rows[n] by { assert rows == rows[..n] + [rows[n]]; }
  }

  /** Putting rows into a table leaves, next to the rows' own table, exactly the old rows of other keys. */
  lemma {:induction false} PutAllMember<T, K>(key: T -> K, xs: seq<T>, rows: seq<T>, y: T)
    requires Distinct(key, xs)
    ensures y in PutAll(key, xs, rows) <==> y in TableOf(key, rows) || (y in xs && !Has(key, rows, key(y)))
    ensures y in TableOf(key, rows) ==> y in rows
  {
    if rows != [] {
      var n := |rows| - 1;
      PutAllMember(key, xs, rows[..n], y);
      PutAllDistinct(key, xs, rows[..n]);
      PutAllDistinct(key, [], rows[..n]);
      PutMember(key, PutAll(key, xs, rows[..n]), rows[n], y);
      PutMember(key, TableOf(key, rows[..n]), rows[n], y);
      HasSnoc(key, rows, key(y));
      assert y in rows[..n] ==> y in rows;
    }
  }

  lemma {:induction false} TableHas<T, K>(key: T -> K, rows: seq<T>, k: K)
    ensures Has(key, TableOf(key, rows), k) <==> Has(key, rows, k)
  {
    if rows != [] {
      var n := |rows| - 1;
      TableHas(key, rows[..n], k);
      HasSnoc(key, rows, k);
      PutAllDistinct(key, [], rows[..n]);
      PutHas(key, TableOf(key, rows[..n]), rows[n], k);
    }
  }

  lemma PutHas<T, K>(key: T -> K, xs: seq<T>, x: T, k: K)
    requires Distinct(key, xs)
    ensures Has(key, Put(key, xs, x), k) <==> Has(key, xs, k) || key(x) == k
  {
    forall y ensures y in Put(key, xs, x) <==> y == x || (y in xs && key(y) != key(x)) { PutMember(key, xs, x, y); }
    assert x in Put(key, xs, x);
  }

  /** The last row with a key. */
  function LastOf<T, K(==)>(key: T -> K, rows: seq<T>, k: K): Option<T> {
    if rows == [] then None
    else
      var n := |rows| - 1;
      if key(rows[n]) == k then Some(rows[n]) else LastOf(key, rows[..n], k)
  }

  lemma {:induction false} FindPut<T, K>(key: T -> K, xs: seq<T>, x: T, k: K)
    ensures Find(key, Put(key, xs, x), k) == if key(x) == k then Some(x) else Find(key, xs, k)
  {
    if xs != [] && key(xs[0]) != key(x) { FindPut(key, xs[1..], x, k); }
  }

  /** What a key finds after putting rows: the last row of that key, or else what it found before. */
  lemma {:induction false} FindPutAll<T, K>(key: T -> K, xs: seq<T>, rows: seq<T>, k: K)
    ensures LastOf(key, rows, k).Some? <==> Has(key, rows, k)
    ensures LastOf(key, rows, k).Some? ==> key(LastOf(key, rows, k).value) == k
    ensures Find(key, PutAll(key, xs, rows), k) == if Has(key, rows, k) then LastOf(key, rows, k) else Find(key, xs, k)
  {
    if rows != [] {
      var n := |rows| - 1;
      FindPutAll(key, xs, rows[..n], k);
      FindPut(key, PutAll(key, xs, rows[..n]), rows[n], k);
      HasSnoc(key, rows, k);
    }
  }

  /** A row is in a distinct table exactly if it is what its key finds. */
  lemma {:induction false} FindMember<T, K>(key: T -> K, xs: seq<T>, k: K)
    requires Distinct(key, xs)
    ensures Find(key, xs, k).Some? <==> Has(key, xs, k)
    ensures forall x :: Find(key, xs, k) == Some(x) <==> x in xs && key(x) == k
  {
    if xs != [] {
      FindMember(key, xs[1..], k);
      forall x ensures x in xs <==> x == xs[0] || x in xs[1..] { assert xs == [xs[0]] + xs[1..]; }
      forall x | x in xs[1..] ensures key(x) != key(xs[0]) { HeadKey(key, xs, x); }
    }
  }

  lemma DistinctMembers<T, K>(key: T -> K, xs: seq<T>, x: T, y: T)
    requires Distinct(key, xs) && x in xs && y in xs
    ensures key(x) == key(y) ==> x == y
  {
    var i :| 0 <= i < |xs| && xs[i] == x;
    var j :| 0 <= j < |xs| && xs[j] == y;
  }

  /** A part of a distinct table that lacks a row lacks its key. */
  lemma KeyNotHeld<T, K>(key: T -> K, whole: seq<T>, part: seq<T>, x: T)
    requires Distinct(key, whole) && x in whole && x !in part && forall y | y in part :: y in whole
    ensures !Has(key, part, key(x))
  {
    forall y | y in part ensures key(y) != key(x) { DistinctMembers(key, whole, x, y); }
  }

  lemma {:induction false} PutNew<T, K>(key: T -> K, xs: seq<T>, x: T)
    requires forall i | 0 <= i < |xs| :: key(xs[i]) != key(x)
    ensures Put(key, xs, x) == xs + [x]
  {
    if xs != [] { PutNew(key, xs[1..], x); }
  }

  /** A table with distinct keys is its own table. */
  lemma {:induction false} TableOfDistinct<T, K>(key: T -> K, xs: seq<T>)
    requires Distinct(key, xs)
    ensures TableOf(key, xs) == xs
  {
    if xs != [] {
      var n := |xs| - 1;
      TableOfDistinct(key, xs[..n]);
      PutNew(key, xs[..n], xs[n]);
    }
  }
}
