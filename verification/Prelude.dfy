/** Small pieces shared by the other modules: options and Python's `sorted`. */
module Prelude {

  datatype Option<+T> = None | Some(value: T)

  /** True when `key` never decreases along `s`. */
  ghost predicate SortedBy<T>(s: seq<T>, key: T -> real) {
    forall i, j :: 0 <= i < j < |s| ==> key(s[i]) <= key(s[j])
  }

  function InsertBy<T>(x: T, s: seq<T>, key: T -> real): seq<T> {
    if s == [] || key(x) <= key(s[0]) then [x] + s
    else [s[0]] + InsertBy(x, s[1..], key)
  }

  lemma {:induction false} InsertByElements<T>(x: T, s: seq<T>, key: T -> real)
    ensures multiset(InsertBy(x, s, key)) == multiset{x} + multiset(s)
  {
    if s != [] && key(x) > key(s[0]) {
      InsertByElements(x, s[1..], key);
      assert s == [s[0]] + s[1..];
    }
  }

  lemma {:induction false} InsertByOrder<T>(x: T, s: seq<T>, key: T -> real)
    requires SortedBy(s, key)
    ensures SortedBy(InsertBy(x, s, key), key)
  {
    if s != [] && key(x) > key(s[0]) {
      var rest := InsertBy(x, s[1..], key);
      InsertByOrder(x, s[1..], key);
      InsertByElements(x, s[1..], key);
      forall j | 0 <= j < |rest|
        ensures key(s[0]) <= key(rest[j])
      {
        assert rest[j] in multiset(rest);
        assert rest[j] == x || rest[j] in s[1..];
      }
    }
  }

  /** Python's `sorted(s, key=...)`. */
  function SortBy<T>(s: seq<T>, key: T -> real): seq<T> {
    if s == [] then [] else InsertBy(s[0], SortBy(s[1..], key), key)
  }

  lemma {:induction false} SortBySorts<T>(s: seq<T>, key: T -> real)
    ensures SortedBy(SortBy(s, key), key)
    ensures multiset(SortBy(s, key)) == multiset(s)
  {
    if s != [] {
      SortBySorts(s[1..], key);
      InsertByOrder(s[0], SortBy(s[1..], key), key);
      InsertByElements(s[0], SortBy(s[1..], key), key);
      assert s == [s[0]] + s[1..];
    }
  }

  lemma SameElements<T>(a: seq<T>, b: seq<T>)
    requires multiset(a) == multiset(b)
    ensures |a| == |b|
    ensures forall x :: x in a <==> x in b
  {
    assert |multiset(a)| == |a| && |multiset(b)| == |b|;
    forall x
      ensures x in a <==> x in b
    {
      assert x in a <==> x in multiset(a);
      assert x in b <==> x in multiset(b);
    }
  }

  lemma {:induction false} Extremes(s: set<nat>) returns (lo: nat, hi: nat)
    requires s != {}
    ensures lo in s && hi in s && forall t :: t in s ==> lo <= t <= hi
    decreases |s|
  {
    var x :| x in s;
    lo, hi := x, x;
    var rest := s - {x};
    assert forall t :: t in s ==> t == x || t in rest;
    if rest != {} {
      lo, hi := Extremes(rest);
      lo, hi := if x < lo then x else lo, if x > hi then x else hi;
    }
  }

  lemma ExtremesExist(s: set<nat>)
    requires s != {}
    ensures exists m :: m in s && forall t :: t in s ==> t <= m
    ensures exists m :: m in s && forall t :: t in s ==> m <= t
  {
    var lo, hi := Extremes(s);
  }

  ghost function Highest(s: set<nat>): (m: nat)
    requires s != {}
    ensures m in s && forall t :: t in s ==> t <= m
  {
    ExtremesExist(s);
    var m :| m in s && forall t :: t in s ==> t <= m;
    m
  }

  ghost function Lowest(s: set<nat>): (m: nat)
    requires s != {}
    ensures m in s && forall t :: t in s ==> m <= t
  {
    ExtremesExist(s);
    var m :| m in s && forall t :: t in s ==> m <= t;
    m
  }

  /** The numbers 1, 2, ..., n. */
  function UpTo(n: nat): (s: set<nat>)
    ensures |s| == n
    ensures forall t :: t in s <==> 1 <= t <= n
  {
    if n == 0 then {} else UpTo(n - 1) + {n}
  }

  lemma SubsetSize<T>(a: set<T>, b: set<T>)
    requires a <= b
    ensures |a| <= |b|
  {
    assert b == a + (b - a);
  }

  function Filter<T(!new)>(s: seq<T>, keep: T -> bool): (r: seq<T>)
    ensures forall x :: x in r <==> x in s && keep(x)
  {
    if s == [] then []
    else
      assert s == [s[0]] + s[1..];
      (if keep(s[0]) then [s[0]] else []) + Filter(s[1..], keep)
  }

  lemma {:induction false} FilterAppend<T(!new)>(a: seq<T>, x: T, keep: T -> bool)
    ensures Filter(a + [x], keep) == Filter(a, keep) + (if keep(x) then [x] else [])
  {
    if a == [] {
      assert a + [x] == [x] && [x][1..] == [];
    } else {
      assert (a + [x])[1..] == a[1..] + [x];
      FilterAppend(a[1..], x, keep);
    }
  }

  /** The result rows of a query, each once, in an order the database chooses. */
  method Fetch(rows: set<nat>) returns (ids: seq<nat>)
    ensures multiset(ids) == multiset(rows)
    ensures forall x :: x in ids <==> x in rows
  {
    ids := [];
    var rest := rows;
    while rest != {}
      invariant multiset(ids) + multiset(rest) == multiset(rows)
    {
      var d :| d in rest;
      ids, rest := ids + [d], rest - {d};
    }
    assert forall x :: x in ids <==> x in multiset(ids);
  }

  lemma {:induction false} FilterConcat<T(!new)>(a: seq<T>, b: seq<T>, keep: T -> bool)
    ensures Filter(a + b, keep) == Filter(a, keep) + Filter(b, keep)
  {
    if a == [] {
      assert a + b == b;
    } else {
      assert (a + b)[0] == a[0] && (a + b)[1..] == a[1..] + b;
      FilterConcat(a[1..], b, keep);
    }
  }

  lemma SameHead<T>(a: seq<T>, b: seq<T>, key: T -> real)
    requires SortedBy(a, key) && multiset(a) == multiset(b) && a != []
    requires forall i, j :: 0 <= i < j < |b| ==> key(b[i]) < key(b[j])
    ensures |a| == |b| && a[0] == b[0]
  {
    SameElements(a, b);
    assert a[0] in b && b[0] in a;
    var i :| 0 <= i < |b| && b[i] == a[0];
    var j :| 0 <= j < |a| && a[j] == b[0];
    assert key(a[0]) <= key(a[j]);
    assert key(b[i]) <= key(b[0]);
  }

  lemma SameTails<T>(a: seq<T>, b: seq<T>)
    requires multiset(a) == multiset(b) && a != [] && b != [] && a[0] == b[0]
    ensures multiset(a[1..]) == multiset(b[1..])
  {
    assert a == [a[0]] + a[1..] && b == [b[0]] + b[1..];
    assert multiset(a[1..]) == multiset(a) - multiset{a[0]};
    assert multiset(b[1..]) == multiset(b) - multiset{b[0]};
  }

  /** A list with strictly growing keys is the only sorted arrangement of its elements. */
  lemma {:induction false} SortedArrangement<T>(a: seq<T>, b: seq<T>, key: T -> real)
    requires SortedBy(a, key) && multiset(a) == multiset(b)
    requires forall i, j :: 0 <= i < j < |b| ==> key(b[i]) < key(b[j])
    ensures a == b
  {
    if a == [] {
      SameElements(a, b);
    } else {
      SameHead(a, b, key);
      SameTails(a, b);
      SortedArrangement(a[1..], b[1..], key);
      assert a == [a[0]] + a[1..] && b == [b[0]] + b[1..];
    }
  }
}
