/** ORDER BY over a finite set of keys: the one listing that respects a strict total order. */
module Ordering {

  ghost predicate StrictTotal<T(!new)>(s: set<T>, before: (T, T) -> bool) {
    && (forall x, y | x in s && y in s :: x != y ==> before(x, y) || before(y, x))
    && (forall x, y | x in s && y in s :: before(x, y) ==> !before(y, x))
    && (forall x, y, z | x in s && y in s && z in s :: before(x, y) && before(y, z) ==> before(x, z))
  }

  lemma Pick<T>(s: set<T>) returns (x: T)
    requires s != {}
    ensures x in s
  {
    x :| x in s;
  }

  lemma {:induction false} SubsetIsSmaller<T>(a: set<T>, b: set<T>)
    requires a <= b
    ensures |a| <= |b|
  {
    if a != {} {
      var x :| x in a;
      SubsetIsSmaller(a - {x}, b - {x});
    }
  }

  ghost predicate First<T(!new)>(s: set<T>, before: (T, T) -> bool, x: T) {
    x in s && forall y | y in s && y != x :: before(x, y)
  }

  lemma HasFirst<T(!new)>(s: set<T>, before: (T, T) -> bool)
    requires StrictTotal(s, before) && s != {}
    ensures exists x :: First(s, before, x)
  {
    var x :| x in s;
    var rest := s - {x};
    if rest == {} {
      assert s == {x};
      assert First(s, before, x);
    } else {
      HasFirst(rest, before);
      var y :| First(rest, before, y);
      assert First(s, before, if before(x, y) then x else y);
    }
  }

  /** `s` listed in ascending order. */
  ghost function OrderBy<T(!new)>(s: set<T>, before: (T, T) -> bool): seq<T>
    requires StrictTotal(s, before)
  {
    if s == {} then [] else
      HasFirst(s, before);
      var x :| First(s, before, x);
      [x] + OrderBy(s - {x}, before)
  }

  ghost predicate Ascending<T(!new)>(l: seq<T>, before: (T, T) -> bool) {
    forall i, j | 0 <= i < j < |l| :: before(l[i], l[j])
  }

  ghost predicate Lists<T(!new)>(l: seq<T>, s: set<T>) {
    && (forall x :: x in s <==> x in l)
    && (forall i, j | 0 <= i < j < |l| :: l[i] != l[j])
  }

  lemma {:induction false} OrderByLists<T(!new)>(s: set<T>, before: (T, T) -> bool)
    requires StrictTotal(s, before)
    ensures Lists(OrderBy(s, before), s) && Ascending(OrderBy(s, before), before)
    ensures |OrderBy(s, before)| == |s|
  {
    if s != {} {
      var x := OrderBy(s, before)[0];
      var rest := OrderBy(s - {x}, before);
      OrderByLists(s - {x}, before);
      assert OrderBy(s, before) == [x] + rest;
      PutFirst(x, rest, s, before);
    }
  }

  lemma PutFirst<T(!new)>(x: T, rest: seq<T>, s: set<T>, before: (T, T) -> bool)
    requires First(s, before, x) && Lists(rest, s - {x}) && Ascending(rest, before)
    ensures Lists([x] + rest, s) && Ascending([x] + rest, before)
  {
    var l := [x] + rest;
    forall i, j | 0 <= i < j < |l| ensures before(l[i], l[j]) && l[i] != l[j] {
      assert l[j] == rest[j - 1];
      assert rest[j - 1] in rest;
    }
    forall y ensures y in s <==> y in l {
      assert y in l <==> y == x || y in rest;
    }
  }

  /** The listing is unique, so it does not matter how a query engine produced it. */
  lemma {:induction false} ListingUnique<T(!new)>(l: seq<T>, k: seq<T>, s: set<T>, before: (T, T) -> bool)
    requires StrictTotal(s, before) && Lists(l, s) && Lists(k, s)
    requires Ascending(l, before) && Ascending(k, before)
    ensures l == k
    decreases |l|
  {
    if l == [] {
      if k != [] { SameHead(k, l, s, before); }
    } else {
      SameHead(l, k, s, before);
      var s' := s - {l[0]};
      DropFirst(l, s);
      DropFirst(k, s);
      ListingUnique(l[1..], k[1..], s', before);
    }
  }

  lemma HeadIsFirst<T(!new)>(l: seq<T>, s: set<T>, before: (T, T) -> bool)
    requires Lists(l, s) && Ascending(l, before) && l != []
    ensures First(s, before, l[0])
  {
    forall y | y in s && y != l[0] ensures before(l[0], y) {
      var i :| 0 <= i < |l| && l[i] == y;
    }
  }

  lemma SameHead<T(!new)>(l: seq<T>, k: seq<T>, s: set<T>, before: (T, T) -> bool)
    requires StrictTotal(s, before) && Lists(l, s) && Lists(k, s)
    requires Ascending(l, before) && Ascending(k, before) && l != []
    ensures k != [] && l[0] == k[0]
  {
    assert l[0] in s;
    HeadIsFirst(l, s, before);
    HeadIsFirst(k, s, before);
  }

  lemma DropFirst<T(!new)>(l: seq<T>, s: set<T>)
    requires Lists(l, s) && l != []
    ensures Lists(l[1..], s - {l[0]})
  {
    forall x ensures x in s - {l[0]} <==> x in l[1..] {
      if x in s && x != l[0] {
        var i :| 0 <= i < |l| && l[i] == x;
        assert l[1..][i - 1] == x;
      }
      if x in l[1..] {
        var i :| 0 <= i < |l[1..]| && l[1..][i] == x;
        assert l[i + 1] == x;
      }
    }
  }

  function Reversed<T>(l: seq<T>): (r: seq<T>)
    ensures |r| == |l| && forall i | 0 <= i < |l| :: r[i] == l[|l| - 1 - i]
  {
    seq(|l|, i requires 0 <= i < |l| => l[|l| - 1 - i])
  }

  function Opposite<T(!new)>(before: (T, T) -> bool): (T, T) -> bool {
    (x, y) => before(y, x)
  }

  lemma ReversedLists<T(!new)>(up: seq<T>, s: set<T>, before: (T, T) -> bool)
    requires Lists(up, s) && Ascending(up, before)
    ensures Lists(Reversed(up), s) && Ascending(Reversed(up), Opposite(before))
  {
    var r := Reversed(up);
    forall x ensures x in s <==> x in r {
      if x in s {
        var i :| 0 <= i < |up| && up[i] == x;
        assert r[|up| - 1 - i] == x;
      }
    }
  }

  lemma OppositeIsStrict<T(!new)>(s: set<T>, before: (T, T) -> bool)
    requires StrictTotal(s, before)
    ensures StrictTotal(s, Opposite(before))
  {
  }

  /** Listing under the opposite order lists backwards. */
  lemma OppositeOrder<T(!new)>(s: set<T>, before: (T, T) -> bool)
    requires StrictTotal(s, before)
    ensures StrictTotal(s, Opposite(before))
    ensures OrderBy(s, Opposite(before)) == Reversed(OrderBy(s, before))
  {
    OppositeIsStrict(s, before);
    OrderByLists(s, before);
    OrderByLists(s, Opposite(before));
    ReversedLists(OrderBy(s, before), s, before);
    ListingUnique(OrderBy(s, Opposite(before)), Reversed(OrderBy(s, before)), s, Opposite(before));
  }
}
