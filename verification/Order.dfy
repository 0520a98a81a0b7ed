/** Options, the orders behind Python's `sorted` and string comparison, and a few facts on sets and reals. */
module Order {

  datatype Option<+T> = None | Some(value: T)

  /** Lexicographic order on code points: Python's `<=` on `str`. */
  predicate StrLe(a: string, b: string) {
    if a == "" then true
    else if b == "" then false
    else if a[0] == b[0] then StrLe(a[1..], b[1..])
    else a[0] < b[0]
  }

  ghost predicate TotalOrder<T(!new)>(le: (T, T) -> bool) {
    && (forall a, b :: le(a, b) || le(b, a))
    && (forall a, b :: le(a, b) && le(b, a) ==> a == b)
    && (forall a, b, c :: le(a, b) && le(b, c) ==> le(a, c))
  }

  lemma StrLeTotal(a: string, b: string)
    ensures StrLe(a, b) || StrLe(b, a)
  {}

  lemma {:induction false} StrLeAntisymmetric(a: string, b: string)
    requires StrLe(a, b) && StrLe(b, a)
    ensures a == b
  {
    if a != "" && b != "" {
      StrLeAntisymmetric(a[1..], b[1..]);
      assert a == [a[0]] + a[1..];
      assert b == [b[0]] + b[1..];
    }
  }

  lemma StrLeTransitive(a: string, b: string, c: string)
    requires StrLe(a, b) && StrLe(b, c)
    ensures StrLe(a, c)
  {}

  lemma StrLeIsTotalOrder()
    ensures TotalOrder(StrLe)
  {
    forall a, b ensures StrLe(a, b) || StrLe(b, a) { StrLeTotal(a, b); }
    forall a, b | StrLe(a, b) && StrLe(b, a) ensures a == b { StrLeAntisymmetric(a, b); }
    forall a, b, c | StrLe(a, b) && StrLe(b, c) ensures StrLe(a, c) { StrLeTransitive(a, b, c); }
  }

  /** A string comes first if it is a beginning of the other, or smaller where the two first differ. */
  lemma {:induction false} StrLeIsLexicographic(a: string, b: string)
    ensures StrLe(a, b) <==> a <= b || exists i :: FirstDifference(a, b, i) && a[i] < b[i]
    decreases |a|
  {
    if a != "" && b != "" && a[0] == b[0] {
      StrLeIsLexicographic(a[1..], b[1..]);
      if i :| FirstDifference(a[1..], b[1..], i) && a[1..][i] < b[1..][i] {
        assert a[..i + 1] == [a[0]] + a[1..][..i] && b[..i + 1] == [b[0]] + b[1..][..i];
        assert FirstDifference(a, b, i + 1);
      }
      if i :| FirstDifference(a, b, i) && a[i] < b[i] {
        assert a[1..][..i - 1] == a[..i][1..] && b[1..][..i - 1] == b[..i][1..];
        assert FirstDifference(a[1..], b[1..], i - 1);
      }
      if a[1..] <= b[1..] { assert a == [a[0]] + a[1..] && b[..|a|] == [b[0]] + b[1..][..|a| - 1]; }
    } else if a != "" && b != "" && a[0] < b[0] {
      assert FirstDifference(a, b, 0);
    }
  }

  predicate FirstDifference(a: string, b: string, i: int) {
    0 <= i < |a| && i < |b| && a[..i] == b[..i] && a[i] != b[i]
  }

  /** Every non-empty finite set has a least element in a total order. */
  lemma {:induction false} LeastExists<T(!new)>(xs: set<T>, le: (T, T) -> bool)
    requires TotalOrder(le)
    requires xs != {}
    ensures exists m :: m in xs && forall x :: x in xs ==> le(m, x)
    decreases |xs|
  {
    var a :| a in xs;
    var rest := xs - {a};
    var least := a;
    if rest != {} {
      LeastExists(rest, le);
      var m :| m in rest && forall x :: x in rest ==> le(m, x);
      least := if le(a, m) then a else m;
    }
    forall x | x in xs ensures le(least, x) {
      if x != a { assert x in rest; }
    }
  }

  // ---------------------------------------------------------------- sorting

  ghost predicate Preorder<T(!new)>(le: (T, T) -> bool) {
    (forall a, b :: le(a, b) || le(b, a)) && (forall a, b, c :: le(a, b) && le(b, c) ==> le(a, c))
  }

  predicate SortedBy<T>(xs: seq<T>, le: (T, T) -> bool) {
    forall i, j :: 0 <= i < j < |xs| ==> le(xs[i], xs[j])
  }

  function Members<T(==)>(xs: seq<T>): set<T> { set x | x in xs }

  predicate Distinct<T(==)>(xs: seq<T>) {
    forall i, j :: 0 <= i < j < |xs| ==> xs[i] != xs[j]
  }

  lemma DistinctAppend<T>(xs: seq<T>, x: T)
    requires Distinct(xs) && x !in xs
    ensures Distinct(xs + [x])
    ensures forall y :: y in xs + [x] <==> y in xs || y == x
  {}

  lemma DistinctConcat<T>(xs: seq<T>, ys: seq<T>)
    requires Distinct(xs) && Distinct(ys) && forall y :: y in ys ==> y !in xs
    ensures Distinct(xs + ys)
  {
    var all := xs + ys;
    forall i, j | 0 <= i < j < |all| ensures all[i] != all[j] {
      if i < |xs| <= j { assert all[j] in ys; }
    }
  }

  lemma SubsetSize<T>(xs: set<T>, ys: set<T>)
    requires xs <= ys
    ensures |xs| <= |ys|
  {
    assert ys == xs + (ys - xs);
  }

  function Insert<T>(x: T, xs: seq<T>, le: (T, T) -> bool): seq<T> {
    if xs == [] then [x] else if le(x, xs[0]) then [x] + xs else [xs[0]] + Insert(x, xs[1..], le)
  }

  /** Python's `sorted`: stable, so equal elements keep their order. */
  function SortBy<T>(xs: seq<T>, le: (T, T) -> bool): seq<T> {
    if xs == [] then [] else Insert(xs[0], SortBy(xs[1..], le), le)
  }

  lemma {:induction false} InsertMembers<T(!new)>(x: T, xs: seq<T>, le: (T, T) -> bool)
    ensures forall y :: y in Insert(x, xs, le) <==> y == x || y in xs
  {
    if xs != [] && !le(x, xs[0]) {
      InsertMembers(x, xs[1..], le);
      assert xs == [xs[0]] + xs[1..];
    }
  }

  lemma {:induction false} InsertSorts<T(!new)>(x: T, xs: seq<T>, le: (T, T) -> bool)
    requires Preorder(le) && SortedBy(xs, le)
    ensures multiset(Insert(x, xs, le)) == multiset{x} + multiset(xs)
    ensures SortedBy(Insert(x, xs, le), le)
  {
    if xs == [] {
    } else if le(x, xs[0]) {
      assert le(xs[0], xs[0]);
    } else {
      assert xs == [xs[0]] + xs[1..];
      InsertSorts(x, xs[1..], le);
      var rest := Insert(x, xs[1..], le);
      forall y | y in rest ensures le(xs[0], y) {
        assert y in multiset(rest);
        if y != x {
          assert y in xs[1..];
          var k :| 0 <= k < |xs[1..]| && xs[1..][k] == y;
          assert xs[k + 1] == y;
        }
      }
    }
  }

  lemma {:induction false} SortBySorts<T(!new)>(xs: seq<T>, le: (T, T) -> bool)
    requires Preorder(le)
    ensures multiset(SortBy(xs, le)) == multiset(xs)
    ensures SortedBy(SortBy(xs, le), le)
  {
    if xs != [] {
      assert xs == [xs[0]] + xs[1..];
      SortBySorts(xs[1..], le);
      InsertSorts(xs[0], SortBy(xs[1..], le), le);
    }
  }

  lemma {:induction false} DistinctByCount<T>(xs: seq<T>)
    ensures Distinct(xs) <==> forall x :: x in xs ==> multiset(xs)[x] == 1
  {
    if xs != [] {
      var rest := xs[1..];
      assert xs == [xs[0]] + rest;
      DistinctByCount(rest);
      if Distinct(xs) {
        assert xs[0] !in rest;
      } else if forall x :: x in xs ==> multiset(xs)[x] == 1 {
        assert multiset(xs)[xs[0]] == 1 + multiset(rest)[xs[0]];
        assert xs[0] !in multiset(rest);
        forall x | x in rest ensures multiset(rest)[x] == 1 {
          assert multiset(xs)[x] == 1;
        }
        assert false;
      }
    }
  }

  lemma SortByDistinct<T(!new)>(xs: seq<T>, le: (T, T) -> bool)
    requires Preorder(le) && Distinct(xs)
    ensures Distinct(SortBy(xs, le)) && |SortBy(xs, le)| == |xs|
    ensures forall x :: x in SortBy(xs, le) <==> x in xs
  {
    SortBySorts(xs, le);
    DistinctByCount(xs);
    DistinctByCount(SortBy(xs, le));
    assert |multiset(xs)| == |xs| && |multiset(SortBy(xs, le))| == |SortBy(xs, le)|;
    forall x ensures x in SortBy(xs, le) <==> x in xs {
      assert x in multiset(xs) <==> x in multiset(SortBy(xs, le));
    }
  }

  lemma {:induction false} DistinctSize<T>(xs: seq<T>)
    requires Distinct(xs)
    ensures |set x | x in xs| == |xs|
  {
    if xs != [] {
      DistinctSize(xs[1..]);
      assert (set x | x in xs) == {xs[0]} + (set x | x in xs[1..]);
    }
  }

  /** Python's `sorted` of a set of strings. */
  method SortedIds(ids: set<string>) returns (r: seq<string>)
    ensures SortedBy(r, StrLe) && Distinct(r) && Members(r) == ids
  {
    r := [];
    var todo := ids;
    while todo != {}
      invariant todo <= ids && SortedBy(r, StrLe) && Distinct(r) && Members(r) == ids - todo
      decreases todo
    {
      var x :| x in todo;
      todo := todo - {x};
      StrLeIsTotalOrder();
      InsertSorts(x, r, StrLe);
      InsertMembers(x, r, StrLe);
      InsertDistinct(x, r);
      assert Members(Insert(x, r, StrLe)) == Members(r) + {x};
      r := Insert(x, r, StrLe);
    }
  }

  lemma InsertDistinct(o: string, names: seq<string>)
    requires Distinct(names) && o !in names && SortedBy(names, StrLe)
    ensures Distinct(Insert(o, names, StrLe))
  {
    StrLeIsTotalOrder();
    InsertSorts(o, names, StrLe);
    InsertMembers(o, names, StrLe);
    DistinctByCount(names);
    DistinctByCount(Insert(o, names, StrLe));
  }

  // ---------------------------------------------------------------- real arithmetic

  lemma Scale(x: real, y: real, k: real)
    requires k > 0.0
    ensures x <= y <==> x * k <= y * k
  {}

  lemma Fraction(a: real, b: real)
    requires 0.0 <= a <= b && b > 0.0
    ensures 0.0 <= a / b <= 1.0
  {
    Scale(0.0, a / b, b);
    Scale(a / b, 1.0, b);
  }
}
