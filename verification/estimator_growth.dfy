/** What one more evidence group does to an estimate, wherever in time it falls. */
module EstimatorGrowth {
  import opened EstimatorClaims
  import opened EstimatorMass
  import opened EstimatorFiles
  import opened EstimatorTheorems
  import opened EstimatorInsertion
  import opened Ordering

  /** `late` is one new evidence group. */
  ghost predicate NewGroup(s: set<Claim>, late: set<Claim>, g: Word) {
    late != {} && g !in GroupsOf(s) && forall c | c in late :: c.group == g
  }

  lemma NewExemplars(s: set<Claim>, late: set<Claim>, g: Word, reps: set<Claim>, e: Claim)
    requires NewGroup(s, late, g) && Exemplars(s, reps) && Earliest(late, e)
    ensures Exemplars(s + late, reps + {e})
  {
    forall r | r in reps ensures r.group != g && Earliest(s + late, r) {
      assert Earliest(s, r);
      assert r.group in GroupsOf(s);
    }
    forall x | x in s + late && x.group == g ensures e.timestamp <= x.timestamp {
      assert x in s ==> x.group in GroupsOf(s);
    }
    assert Earliest(s + late, e);
    forall c | c in s + late ensures c.group in GroupsOf(reps + {e}) {
      if c in s {
        var r :| r in reps && r.group == c.group;
        assert r in reps + {e};
      } else {
        assert e in reps + {e};
      }
    }
  }

  // ---- its place in the file of its cluster --------------------------------------------------

  /** How many of the cluster come before e. */
  function Slot(l: seq<Claim>, e: Claim): (p: nat)
    ensures p <= |l|
  {
    if l == [] then 0 else if l[|l| - 1].timestamp < e.timestamp then |l| else Slot(l[..|l| - 1], e)
  }

  lemma {:induction false} SlotSplits(l: seq<Claim>, e: Claim)
    requires InTime(l)
    ensures forall k | 0 <= k < Slot(l, e) :: l[k].timestamp < e.timestamp
    ensures forall k | Slot(l, e) <= k < |l| :: e.timestamp <= l[k].timestamp
  {
    if l != [] && l[|l| - 1].timestamp >= e.timestamp {
      SlotSplits(l[..|l| - 1], e);
    }
  }

  function ClusterOf(file: File, e: Claim): seq<Claim> {
    Get(file, KeyOf(e), [])
  }

  /** The cluster with e at its place in time. */
  function WithClaim(file: File, e: Claim): seq<Claim> {
    InsertedAt(ClusterOf(file, e), Slot(ClusterOf(file, e), e), e)
  }

  function Placed(file: File, e: Claim): File {
    file[KeyOf(e) := WithClaim(file, e)]
  }

  lemma InsertLists(l: seq<Claim>, s: set<Claim>, p: nat, e: Claim)
    requires Lists(l, s) && e !in s && p <= |l|
    ensures Lists(InsertedAt(l, p, e), s + {e})
  {
    InsertMembers(l, p, e);
    InsertApart(l, p, e);
  }

  lemma InsertMembers(l: seq<Claim>, p: nat, e: Claim)
    requires p <= |l|
    ensures forall x :: x in InsertedAt(l, p, e) <==> x in l || x == e
  {
    var a, b := l[..p], l[p..];
    assert l == a + b;
    forall x ensures x in a + [e] + b <==> x in a + b || x == e {}
  }

  lemma InsertApart(l: seq<Claim>, p: nat, e: Claim)
    requires p <= |l| && e !in l && forall i, j | 0 <= i < j < |l| :: l[i] != l[j]
    ensures forall i, j | 0 <= i < j < |l| + 1 :: InsertedAt(l, p, e)[i] != InsertedAt(l, p, e)[j]
  {
    var more := InsertedAt(l, p, e);
    forall i, j | 0 <= i < j < |more| ensures more[i] != more[j] {
      assert more[i] == if i < p then l[i] else if i == p then e else l[i - 1];
      assert more[j] == if j < p then l[j] else if j == p then e else l[j - 1];
    }
  }

  lemma InsertInTime(l: seq<Claim>, e: Claim)
    requires InTime(l)
    ensures InTime(InsertedAt(l, Slot(l, e), e))
  {
    SlotSplits(l, e);
  }

  lemma ClusterIsListed(reps: set<Claim>, file: File, e: Claim)
    requires Filed(reps, file)
    ensures Lists(ClusterOf(file, e), KeyedBy(reps, KeyOf(e))) && InTime(ClusterOf(file, e))
  {
    if KeyOf(e) !in file { NoneKeyed(reps, KeyOf(e)); }
  }

  lemma PlacedCluster(reps: set<Claim>, file: File, e: Claim)
    requires Filed(reps, file) && e !in reps
    ensures Lists(WithClaim(file, e), KeyedBy(reps + {e}, KeyOf(e))) && InTime(WithClaim(file, e))
  {
    var l, there := ClusterOf(file, e), KeyedBy(reps, KeyOf(e));
    ClusterIsListed(reps, file, e);
    InsertLists(l, there, Slot(l, e), e);
    InsertInTime(l, e);
    assert KeyedBy(reps + {e}, KeyOf(e)) == there + {e};
  }

  lemma PlacedFile(reps: set<Claim>, file: File, e: Claim)
    requires Filed(reps, file) && e !in reps
    ensures Filed(reps + {e}, Placed(file, e))
  {
    var more, file', key := reps + {e}, Placed(file, e), KeyOf(e);
    assert KeysOf(more) == KeysOf(reps) + {key};
    PlacedCluster(reps, file, e);
    forall k | k in file' && k != key ensures Lists(file'[k], KeyedBy(more, k)) && InTime(file'[k]) {
      assert KeyedBy(more, k) == KeyedBy(reps, k);
    }
  }

  lemma NoneKeyed(reps: set<Claim>, key: ClusterKey)
    requires key !in KeysOf(reps)
    ensures forall x :: x !in KeyedBy(reps, key)
  {
    forall x ensures x !in KeyedBy(reps, key) {
      if x in reps { assert KeyOf(x) in KeysOf(reps); }
    }
  }

  lemma {:induction false} ValuesIgnoreOtherGroups(s: set<Claim>, more: set<Claim>, l: seq<Claim>, f: Claim -> real)
    requires forall i | 0 <= i < |l| :: GroupOf(s, l[i].group) == GroupOf(more, l[i].group)
    ensures Values(s, l, f) == Values(more, l, f)
  {
    if l != [] {
      ValuesIgnoreOtherGroups(s, more, l[..|l| - 1], f);
    }
  }

  lemma SumUpdates(m: map<ClusterKey, real>, k: ClusterKey, v: real)
    ensures Sum(m[k := v]) == Sum(m) + v - Get(m, k, 0.0)
  {
    SumTakes(m[k := v], k);
    if k in m {
      SumTakes(m, k);
      assert m[k := v] - {k} == m - {k};
    } else {
      assert m[k := v] - {k} == m;
    }
  }

  lemma MassesMove(s: set<Claim>, late: set<Claim>, g: Word, reps: set<Claim>, file: File, e: Claim, f: Claim -> real, cfg: Config)
    requires cfg.repeatWeights != [] && NewGroup(s, late, g) && AbilityChosen(s, reps, file)
    ensures Masses(s + late, Placed(file, e), f, cfg)
         == Masses(s, file, f, cfg)[KeyOf(e) := MassIn(s + late, WithClaim(file, e), f, cfg)]
  {
    forall k | k in file ensures Values(s, file[k], f) == Values(s + late, file[k], f) {
      OldListsKeepTheirValues(s, late, g, reps, file, k, f);
    }
    MassesStay(s, s + late, file, f, cfg);
    MassesPlaced(s + late, file, KeyOf(e), WithClaim(file, e), f, cfg);
  }

  lemma MassesStay(s: set<Claim>, more: set<Claim>, file: File, f: Claim -> real, cfg: Config)
    requires cfg.repeatWeights != [] && forall k | k in file :: Values(s, file[k], f) == Values(more, file[k], f)
    ensures Masses(s, file, f, cfg) == Masses(more, file, f, cfg)
  {
  }

  lemma MassesPlaced(s: set<Claim>, file: File, key: ClusterKey, l: seq<Claim>, f: Claim -> real, cfg: Config)
    requires cfg.repeatWeights != []
    ensures Masses(s, file[key := l], f, cfg) == Masses(s, file, f, cfg)[key := MassIn(s, l, f, cfg)]
  {
  }

  lemma MassUnder(s: set<Claim>, file: File, e: Claim, f: Claim -> real, cfg: Config)
    requires cfg.repeatWeights != []
    ensures Get(Masses(s, file, f, cfg), KeyOf(e), 0.0) == MassIn(s, ClusterOf(file, e), f, cfg)
  {
  }

  /** A new group moves the mass of its own cluster only. */
  lemma NewMass(s: set<Claim>, late: set<Claim>, g: Word, reps: set<Claim>, file: File, e: Claim, f: Claim -> real, cfg: Config)
    requires cfg.repeatWeights != [] && NewGroup(s, late, g) && AbilityChosen(s, reps, file)
    ensures Mass(s + late, Placed(file, e), f, cfg)
         == Mass(s, file, f, cfg) + MassIn(s + late, WithClaim(file, e), f, cfg) - MassIn(s, ClusterOf(file, e), f, cfg)
  {
    MassesMove(s, late, g, reps, file, e, f, cfg);
    MassUnder(s, file, e, f, cfg);
    SumUpdates(Masses(s, file, f, cfg), KeyOf(e), MassIn(s + late, WithClaim(file, e), f, cfg));
  }

  lemma OldListsKeepTheirValues(s: set<Claim>, late: set<Claim>, g: Word, reps: set<Claim>, file: File, k: ClusterKey, f: Claim -> real)
    requires NewGroup(s, late, g) && AbilityChosen(s, reps, file)
    ensures forall i | 0 <= i < |Get(file, k, [])| :: GroupOf(s, Get(file, k, [])[i].group) == GroupOf(s + late, Get(file, k, [])[i].group)
    ensures Values(s, Get(file, k, []), f) == Values(s + late, Get(file, k, []), f)
  {
    var l := Get(file, k, []);
    forall i | 0 <= i < |l| ensures GroupOf(s, l[i].group) == GroupOf(s + late, l[i].group) {
      assert l[i] in KeyedBy(reps, k);
      assert Earliest(s, l[i]);
      assert l[i].group in GroupsOf(s);
    }
    ValuesIgnoreOtherGroups(s, s + late, l, f);
  }

  // ---- its place among the groups that weigh ------------------------------------------------

  /** How many groups of e's cluster weigh on the dimension, and how many of them come before e. */
  ghost function Size(s: set<Claim>, file: File, e: Claim, f: Claim -> real): nat {
    |Values(s, ClusterOf(file, e), f)|
  }

  ghost function Rank(s: set<Claim>, file: File, e: Claim, f: Claim -> real): nat {
    |Values(s, ClusterOf(file, e)[..Slot(ClusterOf(file, e), e)], f)|
  }

  lemma ValuesStep(s: set<Claim>, l: seq<Claim>, c: Claim, f: Claim -> real)
    ensures Values(s, l + [c], f) == Values(s, l, f) + Kept(GroupValue(s, c, f))
  {
    assert (l + [c])[..|l|] == l;
  }

  lemma {:induction false} ValuesConcat(s: set<Claim>, a: seq<Claim>, b: seq<Claim>, f: Claim -> real)
    ensures Values(s, a + b, f) == Values(s, a, f) + Values(s, b, f)
  {
    if b == [] {
      assert a + b == a;
    } else {
      var front, c := b[..|b| - 1], b[|b| - 1];
      assert b == front + [c] && a + b == (a + front) + [c];
      ValuesConcat(s, a, front, f);
      ValuesStep(s, a + front, c, f);
      ValuesStep(s, front, c, f);
      Associates(Values(s, a, f), Values(s, front, f), Kept(GroupValue(s, c, f)));
    }
  }

  lemma Associates<T>(a: seq<T>, b: seq<T>, c: seq<T>)
    ensures (a + b) + c == a + (b + c)
  {
  }

  function Kept(v: real): seq<real> {
    if v > 0.0 then [v] else []
  }

  lemma InsertedValues(s: set<Claim>, a: seq<Claim>, b: seq<Claim>, e: Claim, f: Claim -> real)
    ensures Values(s, a + [e] + b, f) == Values(s, a, f) + Kept(GroupValue(s, e, f)) + Values(s, b, f)
  {
    ValuesConcat(s, a + [e], b, f);
    ValuesStep(s, a, e, f);
  }

  lemma SplicedValue(before: seq<real>, v: real, after: seq<real>)
    ensures before + Kept(v) + after == if v > 0.0 then InsertedAt(before + after, |before|, v) else before + after
  {
    var all := before + after;
    assert all[..|before|] == before && all[|before|..] == after;
  }

  lemma NewValues(s: set<Claim>, late: set<Claim>, g: Word, reps: set<Claim>, file: File, e: Claim, f: Claim -> real)
    requires NewGroup(s, late, g) && AbilityChosen(s, reps, file)
    ensures var vals, i, v := Values(s, ClusterOf(file, e), f), Rank(s, file, e, f), GroupValue(s + late, e, f);
            && i <= |vals|
            && Values(s + late, WithClaim(file, e), f) == if v > 0.0 then InsertedAt(vals, i, v) else vals
  {
    var l, more, v := ClusterOf(file, e), s + late, GroupValue(s + late, e, f);
    var a, b := l[..Slot(l, e)], l[Slot(l, e)..];
    assert l == a + b;
    OldListsKeepTheirValues(s, late, g, reps, file, KeyOf(e), f);
    ValuesIgnoreOtherGroups(s, more, a, f);
    ValuesConcat(more, a, b, f);
    InsertedValues(more, a, b, e, f);
    SplicedValue(Values(more, a, f), v, Values(more, b, f));
  }

  /** A place where, whatever the values, nothing is lost. */
  ghost predicate SafePlace(cfg: Config, i: nat, n: nat)
    requires cfg.repeatWeights != []
  {
    i == n || (i < n && Diminishing(cfg) && Effective(cfg, i) == Effective(cfg, n))
  }

  lemma SafePlaceHolds(vals: seq<real>, i: nat, v: real, cfg: Config)
    requires ProfileFile(cfg) && AllPositive(vals) && 0.0 < v && i <= |vals| && SafePlace(cfg, i, |vals|)
    ensures ClusterMass(vals, cfg) <= ClusterMass(InsertedAt(vals, i, v), cfg)
  {
    if i == |vals| {
      assert InsertedAt(vals, i, v) == vals + [v];
      LateRepeatNeverLowers(vals, v, cfg);
    } else {
      LevelPlaceHolds(cfg, vals, i, v);
    }
  }

  /** The cluster itself: it keeps its mass if the group brings nothing, and loses none at a safe place. */
  lemma NewCluster(s: set<Claim>, late: set<Claim>, g: Word, reps: set<Claim>, file: File, e: Claim, f: Claim -> real, cfg: Config)
    requires ProfileFile(cfg) && NewGroup(s, late, g) && AbilityChosen(s, reps, file) && e in late
    ensures (forall c | c in late :: f(c) == 0.0) ==> MassIn(s, ClusterOf(file, e), f, cfg) == MassIn(s + late, WithClaim(file, e), f, cfg)
    ensures SafePlace(cfg, Rank(s, file, e, f), Size(s, file, e, f)) ==>
              MassIn(s, ClusterOf(file, e), f, cfg) <= MassIn(s + late, WithClaim(file, e), f, cfg)
  {
    var more := s + late;
    var v := GroupValue(more, e, f);
    NewValues(s, late, g, reps, file, e, f);
    if v > 0.0 {
      var c :| c in GroupOf(more, e.group) && f(c) == v;
      assert c.group == g;
      assert c in s ==> c.group in GroupsOf(s);
      if SafePlace(cfg, Rank(s, file, e, f), Size(s, file, e, f)) {
        SafePlaceHolds(Values(s, ClusterOf(file, e), f), Rank(s, file, e, f), v, cfg);
      }
    }
  }

  /** One choice for all the claims is the old one with the new exemplar at its place. */
  lemma NewChoice(s: set<Claim>, late: set<Claim>, g: Word, e: Claim, reps: set<Claim>, file: File, reps': set<Claim>, file': File)
    requires NewGroup(s, late, g) && DistinctTimes(s + late) && Earliest(late, e)
    requires AbilityChosen(s, reps, file) && AbilityChosen(s + late, reps', file')
    ensures file' == Placed(file, e)
  {
    NewExemplars(s, late, g, reps, e);
    assert e !in reps by { assert e in reps ==> Earliest(s, e) && e.group in GroupsOf(s); }
    PlacedFile(reps, file, e);
    AbilityChoiceUnique(s + late, reps + {e}, Placed(file, e), reps', file');
  }

  lemma GroupOnlyAdds(s: set<Claim>, late: set<Claim>, g: Word, e: Claim, reps: set<Claim>, file: File,
                      reps': set<Claim>, file': File, f: Claim -> real, cfg: Config)
    requires ProfileFile(cfg) && NewGroup(s, late, g) && DistinctTimes(s + late) && Earliest(late, e)
    requires AbilityChosen(s, reps, file) && AbilityChosen(s + late, reps', file')
    ensures (forall c | c in late :: f(c) == 0.0) ==> Mass(s, file, f, cfg) == Mass(s + late, file', f, cfg)
    ensures SafePlace(cfg, Rank(s, file, e, f), Size(s, file, e, f)) ==> Mass(s, file, f, cfg) <= Mass(s + late, file', f, cfg)
  {
    NewChoice(s, late, g, e, reps, file, reps', file');
    NewMass(s, late, g, reps, file, e, f, cfg);
    NewCluster(s, late, g, reps, file, e, f, cfg);
  }

  lemma MoreOfTheBad(pos: real, neg: real, neg': real)
    requires 0.0 <= pos && 0.0 < pos + neg && neg <= neg'
    ensures Share(pos, neg') <= Share(pos, neg)
  {
    var q, q' := Share(pos, neg), Share(pos, neg');
    assert q * (pos + neg) == pos && q' * (pos + neg') == pos;
    NonNegativeFactor(q', pos + neg');
    Monotone(q', 0.0, neg' - neg);
    assert q' * (pos + neg') == q' * (pos + neg) + q' * (neg' - neg);
    var r := q - q';
    assert r * (pos + neg) == q * (pos + neg) - q' * (pos + neg);
    NonNegativeFactor(r, pos + neg);
  }

  lemma NeverHigher(a: Ability, a': Ability, cfg: Config)
    requires 0.0 <= a.pos == a'.pos && a.neg <= a'.neg && EstimateOf(a, cfg).Some?
    ensures EstimateOf(a', cfg).Some? && EstimateOf(a', cfg).value <= EstimateOf(a, cfg).value
  {
    MoreOfTheBad(a.pos, a.neg, a'.neg);
  }

  // A negative evidence group at a safe place of its cluster never raises a known estimate, in any
  // dimension, and never makes it unknown. With the shipped weights every place from the third on
  // is safe.
  lemma FailureNeverRaises(
      s: set<Claim>, late: set<Claim>, g: Word, e: Claim, reps: set<Claim>, file: File, reps': set<Claim>, file': File,
      cfg: Config, d: Dim)
    requires ProfileFile(cfg) && NewGroup(s, late, g) && DistinctTimes(s + late) && Earliest(late, e)
    requires AbilityChosen(s, reps, file) && AbilityChosen(s + late, reps', file')
    requires forall c | c in late :: c.polarity.Negative?
    requires SafePlace(cfg, Rank(s, file, e, NegAt(cfg, d)), Size(s, file, e, NegAt(cfg, d)))
    requires EstimateOf(AbilityOf(s, file, cfg, d), cfg).Some?
    ensures EstimateOf(AbilityOf(s + late, file', cfg, d), cfg).Some?
    ensures EstimateOf(AbilityOf(s + late, file', cfg, d), cfg).value <= EstimateOf(AbilityOf(s, file, cfg, d), cfg).value
  {
    var a, a' := AbilityOf(s, file, cfg, d), AbilityOf(s + late, file', cfg, d);
    assert a.neg <= a'.neg by {
      GroupOnlyAdds(s, late, g, e, reps, file, reps', file', NegAt(cfg, d), cfg);
    }
    assert a'.pos == a.pos by {
      assert forall c | c in late :: PosAt(cfg, d)(c) == 0.0;
      GroupOnlyAdds(s, late, g, e, reps, file, reps', file', PosAt(cfg, d), cfg);
    }
    assert 0.0 <= a.pos by { AbilityNonNegative(s, file, cfg, d); }
    NeverHigher(a, a', cfg);
  }

  lemma ShippedPlaces(cfg: Config, i: nat, n: nat)
    requires cfg.repeatWeights == [1.0, 0.35, 0.15] && cfg.capMultiple == 1.6 && i <= n
    ensures SafePlace(cfg, i, n) <==> i == n || 2 <= i
  {
  }

  ghost predicate Later(s: set<Claim>, late: set<Claim>) {
    forall c, x | c in late && x in s :: x.timestamp < c.timestamp
  }

  lemma LastIsSafe(s: set<Claim>, late: set<Claim>, e: Claim, reps: set<Claim>, file: File, f: Claim -> real)
    requires Later(s, late) && e in late && AbilityChosen(s, reps, file)
    ensures Rank(s, file, e, f) == Size(s, file, e, f)
  {
    var l := ClusterOf(file, e);
    if l != [] {
      var last := l[|l| - 1];
      assert last in KeyedBy(reps, KeyOf(e));
      assert Earliest(s, last);
    }
    assert l[..Slot(l, e)] == l;
  }

  lemma LateSpeaker(s: set<Claim>, late: set<Claim>, g: Word, reps: set<Claim>) returns (e: Claim)
    requires NewGroup(s, late, g) && Exemplars(s + late, reps)
    ensures Earliest(late, e)
  {
    var c := Pick(late);
    assert c in s + late;
    e :| e in reps && e.group == c.group;
    assert Earliest(s + late, e);
    assert e in s ==> e.group in GroupsOf(s);
  }

  /** In particular one that comes after everything else, whatever the weights. */
  lemma LateFailureNeverRaises(
      s: set<Claim>, late: set<Claim>, g: Word, reps: set<Claim>, file: File, reps': set<Claim>, file': File, cfg: Config, d: Dim)
    requires ProfileFile(cfg) && NewGroup(s, late, g) && Later(s, late) && DistinctTimes(s + late)
    requires AbilityChosen(s, reps, file) && AbilityChosen(s + late, reps', file')
    requires forall c | c in late :: c.polarity.Negative?
    requires EstimateOf(AbilityOf(s, file, cfg, d), cfg).Some?
    ensures EstimateOf(AbilityOf(s + late, file', cfg, d), cfg).Some?
    ensures EstimateOf(AbilityOf(s + late, file', cfg, d), cfg).value <= EstimateOf(AbilityOf(s, file, cfg, d), cfg).value
  {
    var e := LateSpeaker(s, late, g, reps');
    LastIsSafe(s, late, e, reps, file, NegAt(cfg, d));
    FailureNeverRaises(s, late, g, e, reps, file, reps', file', cfg, d);
  }
}
