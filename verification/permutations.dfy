/** Lists that hold the same entries in another order. */
module Permutations {
  import opened Ordering

  /** Two entries of a list that carry the same value show in its multiset. */
  lemma {:induction false} TwiceInMultiset<T>(s: seq<T>, i: nat, j: nat)
    requires i < j < |s| && s[i] == s[j]
    ensures multiset(s)[s[i]] >= 2
  {
    var front := s[..j];
    assert s == front + s[j..] && s[j..] == [s[j]] + s[j + 1..];
    assert front[i] in multiset(front);
    assert multiset(s) == multiset(front) + multiset([s[j]]) + multiset(s[j + 1..]);
  }

  lemma {:induction false} MultisetHasTwo<T>(s: seq<T>, x: T) returns (i: nat, j: nat)
    requires multiset(s)[x] >= 2
    ensures i < j < |s| && s[i] == x == s[j]
  {
    var last := |s| - 1;
    assert s == s[..last] + [s[last]];
    assert multiset(s) == multiset(s[..last]) + multiset([s[last]]);
    if s[last] == x {
      assert x in multiset(s[..last]);
      i :| 0 <= i < last && s[..last][i] == x;
      j := last;
    } else {
      i, j := MultisetHasTwo(s[..last], x);
    }
  }

  lemma SameMembers<T>(s: seq<T>, s': seq<T>, x: T)
    requires multiset(s) == multiset(s')
    ensures x in s <==> x in s'
  {
    assert x in s <==> x in multiset(s);
    assert x in s' <==> x in multiset(s');
  }

  /** Reordering a listing leaves a listing. */
  lemma ListsPermute<T(!new)>(l: seq<T>, r: seq<T>, s: set<T>)
    requires Lists(l, s) && multiset(l) == multiset(r)
    ensures Lists(r, s)
  {
    forall x ensures x in s <==> x in r { SameMembers(l, r, x); }
    forall i, j | 0 <= i < j < |r| ensures r[i] != r[j] {
      if r[i] == r[j] {
        TwiceInMultiset(r, i, j);
        var a, b := MultisetHasTwo(l, r[i]);
      }
    }
  }
}
