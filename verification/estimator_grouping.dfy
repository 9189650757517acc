/** The list-level steps: contract validation, grouping, sorting by time, choosing representatives. */
module EstimatorGrouping {
  import opened EstimatorClaims
  import opened EstimatorMass
  import opened EstimatorFiles
  import opened Ordering
  import opened Permutations

  // ---- validate_claims -------------------------------------------------------------------------

  datatype ContractError = Assisted(index: nat) | Exposed(index: nat) | NotNatural(index: nat) | ManyPrimaries(key: GroupTarget)

  datatype GroupTarget = GroupTarget(group: Word, target: Target)

  function PlaceOf(c: Claim): GroupTarget {
    GroupTarget(c.group, c.target)
  }

  type Primaries = map<GroupTarget, seq<nat>>

  ghost predicate Tallied(cs: seq<Claim>, n: nat, bins: Primaries)
    requires n <= |cs|
  {
    && (forall k | k in bins :: Ranked(bins[k]) && forall i | i in bins[k] :: i < n && Primary(cs[i].performance) && PlaceOf(cs[i]) == k)
    && (forall i | 0 <= i < n && Primary(cs[i].performance) :: PlaceOf(cs[i]) in bins && i in bins[PlaceOf(cs[i])])
  }

  ghost predicate Ranked(l: seq<nat>) {
    forall a, b | 0 <= a < b < |l| :: l[a] < l[b]
  }

  lemma RankedAppend(l: seq<nat>, i: nat)
    requires Ranked(l) && forall a | a in l :: a < i
    ensures Ranked(l + [i])
  {
    assert forall a | 0 <= a < |l| :: l[a] in l;
  }

  function ErrorsOf(c: Claim, i: nat): (e: seq<ContractError>)
    ensures e == [] <==> ClaimOk(c)
  {
    (if (c.performance.Independent? || c.performance.Spontaneous?) && !LowSupport(c.support) then [Assisted(i)] else [])
    + (if (c.performance.Independent? || c.performance.Spontaneous?) && !c.exposure.NoExposure? then [Exposed(i)] else [])
    + (if c.performance.Spontaneous? && !c.natural then [NotNatural(i)] else [])
  }

  method TallyPrimaries(cs: seq<Claim>) returns (errors: seq<ContractError>, bins: Primaries)
    ensures errors == [] <==> forall i | 0 <= i < |cs| :: ClaimOk(cs[i])
    ensures Tallied(cs, |cs|, bins)
  {
    errors, bins := [], map[];
    for i := 0 to |cs|
      invariant errors == [] <==> forall j | 0 <= j < i :: ClaimOk(cs[j])
      invariant Tallied(cs, i, bins)
    {
      if Primary(cs[i].performance) {
        var k := PlaceOf(cs[i]);
        RankedAppend(Get(bins, k, []), i);
        bins := bins[k := Get(bins, k, []) + [i]];
      }
      errors := errors + ErrorsOf(cs[i], i);
    }
  }

  lemma LonePrimary(cs: seq<Claim>, bins: Primaries, i: nat, j: nat)
    requires Tallied(cs, |cs|, bins) && i < j < |cs| && Primary(cs[i].performance) && Primary(cs[j].performance)
    requires SameGroupTarget(cs[i], cs[j])
    ensures PlaceOf(cs[i]) in bins && 1 < |bins[PlaceOf(cs[i])]|
  {
    var l := bins[PlaceOf(cs[i])];
    assert i in l && j in l;
  }

  lemma TwoPrimaries(cs: seq<Claim>, bins: Primaries, k: GroupTarget)
    requires Tallied(cs, |cs|, bins) && k in bins && 1 < |bins[k]|
    ensures !ValidClaims(cs)
  {
    var l := bins[k];
    assert l[0] in l && l[1] in l && l[0] < l[1];
    assert SameGroupTarget(cs[l[0]], cs[l[1]]);
  }

  /** No error is reported exactly when the contract holds. */
  method ValidateClaims(cs: seq<Claim>) returns (errors: seq<ContractError>)
    ensures errors == [] <==> ValidClaims(cs)
  {
    var bins: Primaries;
    errors, bins := TallyPrimaries(cs);
    ghost var clean := errors == [];
    var todo := bins.Keys;
    while todo != {}
      invariant todo <= bins.Keys
      invariant errors == [] <==> clean && forall k | k in bins && k !in todo :: |bins[k]| <= 1
      decreases todo
    {
      var k :| k in todo;
      todo := todo - {k};
      if |bins[k]| > 1 { errors := errors + [ManyPrimaries(k)]; }
    }
    VerdictIsRight(cs, bins, clean);
  }

  lemma VerdictIsRight(cs: seq<Claim>, bins: Primaries, clean: bool)
    requires Tallied(cs, |cs|, bins) && (clean <==> forall i | 0 <= i < |cs| :: ClaimOk(cs[i]))
    ensures (clean && forall k | k in bins :: |bins[k]| <= 1) <==> ValidClaims(cs)
  {
    if ValidClaims(cs) {
      forall k | k in bins ensures |bins[k]| <= 1 { if 1 < |bins[k]| { TwoPrimaries(cs, bins, k); } }
    } else if clean {
      var i, j :| 0 <= i < j < |cs| && Primary(cs[i].performance) && Primary(cs[j].performance) && SameGroupTarget(cs[i], cs[j]);
      LonePrimary(cs, bins, i, j);
    }
  }

  // ---- grouping ----------------------------------------------------------------------------------

  function Elements<T>(l: seq<T>): set<T> {
    set x | x in l
  }

  ghost predicate Apart<T(!new)>(l: seq<T>) {
    forall i, j | 0 <= i < j < |l| :: l[i] != l[j]
  }

  /** The claims of `l` arranged by a property, as a dictionary of lists. */
  ghost predicate Arranged<K(!new)>(l: seq<Claim>, key: Claim -> K, bins: map<K, seq<Claim>>) {
    && (forall c | c in l :: key(c) in bins)
    && (forall k | k in bins :: bins[k] != [] && forall c :: c in bins[k] <==> c in l && key(c) == k)
    && (Apart(l) ==> forall k | k in bins :: Apart(bins[k]))
  }

  lemma ArrangeOne<K(!new)>(l: seq<Claim>, c: Claim, key: Claim -> K, bins: map<K, seq<Claim>>)
    requires Arranged(l, key, bins)
    ensures Arranged(l + [c], key, bins[key(c) := Get(bins, key(c), []) + [c]])
  {
    var more, bins' := l + [c], bins[key(c) := Get(bins, key(c), []) + [c]];
    assert forall x :: x in more <==> x in l || x == c;
    assert forall k | k in bins' :: bins'[k] == if k == key(c) then Get(bins, k, []) + [c] else bins[k];
    if Apart(more) { ApartFront(l, c); }
  }

  lemma ApartFront<T(!new)>(l: seq<T>, x: T)
    requires Apart(l + [x])
    ensures Apart(l) && x !in l
  {
    var more := l + [x];
    assert more[|l|] == x;
    forall i | 0 <= i < |l| ensures l[i] != x { assert more[i] == l[i]; }
    forall i, j | 0 <= i < j < |l| ensures l[i] != l[j] { assert more[i] == l[i] && more[j] == l[j]; }
  }

  method Arrange<K(==, !new)>(l: seq<Claim>, key: Claim -> K) returns (bins: map<K, seq<Claim>>)
    ensures Arranged(l, key, bins)
  {
    bins := map[];
    for i := 0 to |l|
      invariant Arranged(l[..i], key, bins)
    {
      ArrangeOne(l[..i], l[i], key, bins);
      assert l[..i + 1] == l[..i] + [l[i]];
      bins := bins[key(l[i]) := Get(bins, key(l[i]), []) + [l[i]]];
    }
    assert l[..|l|] == l;
  }

  // ---- sorting by time ------------------------------------------------------------------------------

  function Inserted(l: seq<Claim>, c: Claim): (r: seq<Claim>)
    requires InTime(l)
    ensures InTime(r) && multiset(r) == multiset(l) + multiset{c}
  {
    if l == [] || l[|l| - 1].timestamp <= c.timestamp then
      assert multiset(l + [c]) == multiset(l) + multiset{c};
      l + [c]
    else
      var last := l[|l| - 1];
      assert l == l[..|l| - 1] + [last];
      var front := Inserted(l[..|l| - 1], c);
      assert forall x | x in front :: x.timestamp <= last.timestamp by {
        forall x | x in front ensures x.timestamp <= last.timestamp {
          assert x in multiset(front);
          assert x in l[..|l| - 1] || x == c;
        }
      }
      front + [last]
  }

  /** A stable sort by timestamp. */
  function ByTime(l: seq<Claim>): (r: seq<Claim>)
    ensures InTime(r) && multiset(r) == multiset(l)
  {
    if l == [] then [] else
      assert l == l[..|l| - 1] + [l[|l| - 1]];
      Inserted(ByTime(l[..|l| - 1]), l[|l| - 1])
  }

  lemma SortedLists(l: seq<Claim>, s: set<Claim>)
    requires Lists(l, s)
    ensures Lists(ByTime(l), s)
  {
    ListsPermute(l, ByTime(l), s);
  }

  function KeyFn(): Claim -> ClusterKey { c => KeyOf(c) }

  method FileByCluster(l: seq<Claim>) returns (file: File)
    requires Apart(l)
    ensures Filed(Elements(l), file)
  {
    var bins := Arrange(l, KeyFn());
    file := map k | k in bins :: ByTime(bins[k]);
    SortedFile(l, bins, file);
  }

  lemma SortedFile(l: seq<Claim>, bins: File, file: File)
    requires Apart(l) && Arranged(l, KeyFn(), bins)
    requires file.Keys == bins.Keys && forall k | k in bins :: file[k] == ByTime(bins[k])
    ensures Filed(Elements(l), file)
  {
    forall k ensures k in file <==> k in KeysOf(Elements(l)) {
      if k in file {
        assert bins[k][0] in bins[k];
        assert bins[k][0] in Elements(l) && KeyOf(bins[k][0]) == k;
      }
    }
    forall k | k in file ensures Lists(file[k], KeyedBy(Elements(l), k)) {
      assert Lists(bins[k], KeyedBy(Elements(l), k));
      SortedLists(bins[k], KeyedBy(Elements(l), k));
    }
  }

  // ---- representatives --------------------------------------------------------------------------------

  /** The first of the earliest claims. */
  function Exemplar(cs: seq<Claim>): (e: Claim)
    requires cs != []
    ensures e in cs && forall c | c in cs :: e.timestamp <= c.timestamp
  {
    if |cs| == 1 then cs[0] else
      var e := Exemplar(cs[..|cs| - 1]);
      var last := cs[|cs| - 1];
      assert forall c | c in cs :: c in cs[..|cs| - 1] || c == last;
      if last.timestamp < e.timestamp then last else e
  }

  /** The first claim that no other beats, by strength and then by time. */
  function Champion(cs: seq<Claim>, f: Claim -> real): (r: Claim)
    requires cs != []
    ensures r in cs && forall x | x in cs :: NoStronger(x, r, f)
  {
    if |cs| == 1 then cs[0] else
      var r := Champion(cs[..|cs| - 1], f);
      var last := cs[|cs| - 1];
      assert forall c | c in cs :: c in cs[..|cs| - 1] || c == last;
      if NoStronger(last, r, f) then r else last
  }

  /** The first of the most confident claims. */
  function Surest(cs: seq<Claim>): (r: Claim)
    requires cs != []
    ensures r in cs && forall x | x in cs :: x.confidence <= r.confidence
  {
    if |cs| == 1 then cs[0] else
      var r := Surest(cs[..|cs| - 1]);
      var last := cs[|cs| - 1];
      assert forall c | c in cs :: c in cs[..|cs| - 1] || c == last;
      if last.confidence <= r.confidence then r else last
  }
}
