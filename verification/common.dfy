/** Shared vocabulary: an option type, real-number helpers and a stable sort. */
module Common {
  datatype Option<+T> = None | Some(value: T)

  datatype TradeSide = Long | Short

  function Abs(x: real): real { if x < 0.0 then -x else x }

  function MinR(x: real, y: real): real { if x <= y then x else y }

  function MaxR(x: real, y: real): real { if x >= y then x else y }

  /** At most the share `bound` of `whole`. */
  predicate AtMostShare(x: real, bound: real, whole: real) { x <= bound * whole }

  function MinI(x: int, y: int): int { if x <= y then x else y }

  /** Rows whose key does not decrease. */
  ghost predicate SortedBy<T>(key: T -> real, xs: seq<T>) {
    forall i, j | 0 <= i < j < |xs| :: key(xs[i]) <= key(xs[j])
  }

  /** Put `x` in front of the first row whose key is not smaller. */
  function Insert<T>(key: T -> real, x: T, xs: seq<T>): (r: seq<T>)
    ensures multiset(r) == multiset(xs) + multiset{x}
    ensures |r| == |xs| + 1
  {
    if xs == [] then [x]
    else if key(x) <= key(xs[0]) then [x] + xs
    else
      assert xs == [xs[0]] + xs[1..];
      [xs[0]] + Insert(key, x, xs[1..])
  }

  /** Stable ascending sort: rows with equal keys keep their order. */
  function Sort<T>(key: T -> real, xs: seq<T>): (r: seq<T>)
    ensures multiset(r) == multiset(xs)
    ensures |r| == |xs|
  {
    if xs == [] then []
    else
      assert xs == [xs[0]] + xs[1..];
      Insert(key, xs[0], Sort(key, xs[1..]))
  }

  lemma InMultiset<T>(xs: seq<T>, ys: seq<T>, x: T)
    requires multiset(xs) == multiset(ys)
    ensures x in xs <==> x in ys
  {
    assert x in xs <==> x in multiset(xs);
    assert x in ys <==> x in multiset(ys);
  }

  lemma {:induction false} InsertAbove<T>(key: T -> real, x: T, xs: seq<T>, bound: real)
    requires bound <= key(x) && forall i | 0 <= i < |xs| :: bound <= key(xs[i])
    ensures forall i | 0 <= i <= |xs| :: bound <= key(Insert(key, x, xs)[i])
  {
    if xs != [] && key(x) > key(xs[0]) { InsertAbove(key, x, xs[1..], bound); }
  }

  lemma {:induction false} InsertSorted<T>(key: T -> real, x: T, xs: seq<T>)
    requires SortedBy(key, xs)
    ensures SortedBy(key, Insert(key, x, xs))
  {
    if xs != [] && key(x) > key(xs[0]) {
      InsertSorted(key, x, xs[1..]);
      InsertAbove(key, x, xs[1..], key(xs[0]));
    }
  }

  lemma {:induction false} SortSorts<T>(key: T -> real, xs: seq<T>)
    ensures SortedBy(key, Sort(key, xs))
  {
    if xs != [] {
      SortSorts(key, xs[1..]);
      InsertSorted(key, xs[0], Sort(key, xs[1..]));
    }
  }

  // ------------------------------------------------------------ where the sort puts a row

  /** How many rows have a smaller key. */
  function Below<T>(key: T -> real, xs: seq<T>, v: real): nat {
    if xs == [] then 0 else Below(key, xs[1..], v) + if key(xs[0]) < v then 1 else 0
  }

  /** How many rows have this key. */
  function Ties<T>(key: T -> real, xs: seq<T>, v: real): nat {
    if xs == [] then 0 else Ties(key, xs[1..], v) + if key(xs[0]) == v then 1 else 0
  }

  /** How many rows go before row `i`: those with a smaller key, and those in front of it with the same. */
  function Ahead<T>(key: T -> real, xs: seq<T>, i: nat): nat
    requires i < |xs|
  {
    Below(key, xs, key(xs[i])) + Ties(key, xs[..i], key(xs[i]))
  }

  lemma AheadLater<T>(key: T -> real, xs: seq<T>, i: nat)
    requires 0 < i < |xs|
    ensures Ahead(key, xs, i) == Ahead(key, xs[1..], i - 1) + if key(xs[0]) <= key(xs[i]) then 1 else 0
  {
    assert xs[..i][1..] == xs[1..][..i - 1];
  }

  lemma {:induction false} BelowInsert<T>(key: T -> real, x: T, xs: seq<T>, v: real)
    ensures Below(key, Insert(key, x, xs), v) == Below(key, xs, v) + if key(x) < v then 1 else 0
  {
    if xs == [] || key(x) <= key(xs[0]) {
      assert ([x] + xs)[1..] == xs;
    } else {
      BelowInsert(key, x, xs[1..], v);
    }
  }

  lemma {:induction false} BelowSort<T>(key: T -> real, xs: seq<T>, v: real)
    ensures Below(key, Sort(key, xs), v) == Below(key, xs, v)
  {
    if xs != [] {
      BelowSort(key, xs[1..], v);
      BelowInsert(key, xs[0], Sort(key, xs[1..]), v);
    }
  }

  /** `all` is `rest` with `x` put in at `b`, behind all rows with a smaller key. */
  ghost predicate PutIn<T>(key: T -> real, x: T, b: nat, rest: seq<T>, all: seq<T>) {
    && b <= |rest| && |all| == |rest| + 1 && all[b] == x
    && (forall k | 0 <= k < b :: all[k] == rest[k] && key(rest[k]) < key(x))
    && (forall k | b <= k < |rest| :: all[k + 1] == rest[k] && key(x) <= key(rest[k]))
  }

  lemma PutInBehind<T>(key: T -> real, x: T, b: nat, y: T, rest: seq<T>, all: seq<T>)
    requires PutIn(key, x, b, rest, all) && key(y) < key(x)
    ensures PutIn(key, x, b + 1, [y] + rest, [y] + all)
  {
  }

  /** A row is inserted behind all smaller ones; the rows behind it move by one. */
  lemma {:induction false} InsertPlace<T>(key: T -> real, x: T, xs: seq<T>)
    requires SortedBy(key, xs)
    ensures PutIn(key, x, Below(key, xs, key(x)), xs, Insert(key, x, xs))
  {
    if xs == [] {
    } else if key(x) <= key(xs[0]) {
      NoneBelow(key, xs, key(x));
    } else {
      InsertPlace(key, x, xs[1..]);
      PutInBehind(key, x, Below(key, xs[1..], key(x)), xs[0], xs[1..], Insert(key, x, xs[1..]));
      assert [xs[0]] + xs[1..] == xs;
    }
  }

  lemma {:induction false} NoneBelow<T>(key: T -> real, xs: seq<T>, v: real)
    requires forall k | 0 <= k < |xs| :: v <= key(xs[k])
    ensures Below(key, xs, v) == 0
  {
    if xs != [] { NoneBelow(key, xs[1..], v); }
  }

  /** How sorting all rows differs from sorting all but the first. */
  lemma SortShift<T>(key: T -> real, xs: seq<T>)
    requires xs != []
    ensures PutIn(key, xs[0], Ahead(key, xs, 0), Sort(key, xs[1..]), Sort(key, xs))
  {
    SortSorts(key, xs[1..]);
    InsertPlace(key, xs[0], Sort(key, xs[1..]));
    BelowSort(key, xs[1..], key(xs[0]));
  }

  lemma PlaceLater<T>(key: T -> real, xs: seq<T>, i: nat, rest: seq<T>, all: seq<T>)
    requires 0 < i < |xs| && PutIn(key, xs[0], Ahead(key, xs, 0), rest, all)
    requires Ahead(key, xs[1..], i - 1) < |rest| && rest[Ahead(key, xs[1..], i - 1)] == xs[i]
    ensures Ahead(key, xs, i) < |all| && all[Ahead(key, xs, i)] == xs[i]
    ensures Ahead(key, xs, i) ==
      var before := Ahead(key, xs[1..], i - 1); if before < Ahead(key, xs, 0) then before else before + 1
  {
    AheadLater(key, xs, i);
  }

  /** Row `i` ends up behind exactly the rows that go before it. */
  lemma {:induction false} SortPlace<T>(key: T -> real, xs: seq<T>, i: nat)
    requires i < |xs|
    ensures Ahead(key, xs, i) < |xs| && Sort(key, xs)[Ahead(key, xs, i)] == xs[i]
  {
    SortShift(key, xs);
    if i > 0 {
      SortPlace(key, xs[1..], i - 1);
      PlaceLater(key, xs, i, Sort(key, xs[1..]), Sort(key, xs));
    }
  }

  /** And every place of the sorted rows is such a place. */
  lemma {:induction false} SortFrom<T>(key: T -> real, xs: seq<T>, j: nat) returns (i: nat)
    requires j < |xs|
    ensures i < |xs| && Ahead(key, xs, i) == j && Sort(key, xs)[j] == xs[i]
  {
    SortShift(key, xs);
    var b := Ahead(key, xs, 0);
    if j == b {
      i := 0;
    } else {
      var k := SortFrom(key, xs[1..], if j < b then j else j - 1);
      i := k + 1;
      PlaceLater(key, xs, i, Sort(key, xs[1..]), Sort(key, xs));
    }
  }
}
