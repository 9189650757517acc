/** What holds of every estimate, whatever the claims. */
module EstimatorTheorems {
  import opened EstimatorClaims
  import opened EstimatorMass
  import opened EstimatorFiles
  import opened Ordering
  import opened Permutations

  function Active(cs: seq<Claim>, t: Target): set<Claim> {
    set c | c in cs && c.active && c.target == t
  }

  /** None: the claims were refused. */
  ghost predicate Estimated(cs: seq<Claim>, t: Target, cfg: Config, strict: bool, r: Option<Estimation>)
    requires cfg.repeatWeights != []
  {
    if strict && !ValidClaims(cs) then r.None?
    else exists ch :: Chosen(Active(cs, t), cfg, ch) && r == Some(EstimationOf(Active(cs, t), cfg, ch))
  }

  // ---- order independence -----------------------------------------------------------------

  lemma ValidIgnoresOrder(cs: seq<Claim>, cs': seq<Claim>)
    requires multiset(cs) == multiset(cs') && ValidClaims(cs)
    ensures ValidClaims(cs')
  {
    forall i | 0 <= i < |cs'| ensures ClaimOk(cs'[i]) {
      SameMembers(cs, cs', cs'[i]);
    }
    forall i, j | 0 <= i < j < |cs'| && Primary(cs'[i].performance) && Primary(cs'[j].performance)
      ensures !SameGroupTarget(cs'[i], cs'[j])
    {
      TwoPlaces(cs, cs', i, j);
    }
  }

  lemma TwoPlaces(cs: seq<Claim>, cs': seq<Claim>, i: nat, j: nat)
    requires multiset(cs) == multiset(cs') && i < j < |cs'|
    ensures exists a, b :: 0 <= a < b < |cs| && ((cs[a] == cs'[i] && cs[b] == cs'[j]) || (cs[a] == cs'[j] && cs[b] == cs'[i]))
  {
    if cs'[i] == cs'[j] {
      TwiceInMultiset(cs', i, j);
      var a, b := MultisetHasTwo(cs, cs'[i]);
    } else {
      SameMembers(cs, cs', cs'[i]);
      SameMembers(cs, cs', cs'[j]);
      var a :| 0 <= a < |cs| && cs[a] == cs'[i];
      var b :| 0 <= b < |cs| && cs[b] == cs'[j];
      assert a < b || b < a;
    }
  }

  lemma ValidMeansOnePrimary(cs: seq<Claim>, t: Target)
    requires ValidClaims(cs)
    ensures OnePrimary(Active(cs, t))
  {
    forall c, d | c in Active(cs, t) && d in Active(cs, t) && Primary(c.performance) && Primary(d.performance) && c.group == d.group
      ensures c == d
    {
      var i :| 0 <= i < |cs| && cs[i] == c;
      var j :| 0 <= j < |cs| && cs[j] == d;
      assert SameGroupTarget(cs[i], cs[j]) && SameGroupTarget(cs[j], cs[i]);
    }
  }

  /** The order of the claim list shows nowhere: not in the verdict, nor in any mass or count. */
  lemma EstimateIgnoresOrder(
      cs: seq<Claim>, cs': seq<Claim>, t: Target, cfg: Config, r: Option<Estimation>, r': Option<Estimation>)
    requires cfg.repeatWeights != [] && multiset(cs) == multiset(cs') && DistinctTimes(Active(cs, t))
    requires Estimated(cs, t, cfg, true, r) && Estimated(cs', t, cfg, true, r')
    ensures r == r'
  {
    if ValidClaims(cs) { ValidIgnoresOrder(cs, cs'); }
    if ValidClaims(cs') {
      ValidIgnoresOrder(cs', cs);
      ActiveIgnoresOrder(cs, cs', t);
      ValidMeansOnePrimary(cs, t);
      OneEstimation(Active(cs, t), cfg, r, r');
    }
  }

  lemma ActiveIgnoresOrder(cs: seq<Claim>, cs': seq<Claim>, t: Target)
    requires multiset(cs) == multiset(cs')
    ensures Active(cs, t) == Active(cs', t)
  {
    forall c ensures c in cs <==> c in cs' { SameMembers(cs, cs', c); }
  }

  lemma OneEstimation(s: set<Claim>, cfg: Config, r: Option<Estimation>, r': Option<Estimation>)
    requires cfg.repeatWeights != [] && DistinctTimes(s) && OnePrimary(s)
    requires exists ch :: Chosen(s, cfg, ch) && r == Some(EstimationOf(s, cfg, ch))
    requires exists ch :: Chosen(s, cfg, ch) && r' == Some(EstimationOf(s, cfg, ch))
    ensures r == r'
  {
    var ch :| Chosen(s, cfg, ch) && r == Some(EstimationOf(s, cfg, ch));
    var ch' :| Chosen(s, cfg, ch') && r' == Some(EstimationOf(s, cfg, ch'));
    ChoicesUnique(s, cfg, ch, ch');
  }

  // ---- estimates ------------------------------------------------------------------------------

  function Share(pos: real, neg: real): real
    requires 0.0 < pos + neg
  {
    pos / (pos + neg)
  }

  /** The unrounded estimate of a dimension, None below the least effective mass. */
  function EstimateOf(a: Ability, cfg: Config): Option<real> {
    if a.pos + a.neg < cfg.minMass || a.pos + a.neg <= 0.0 then None else Some(Share(a.pos, a.neg))
  }

  lemma ShareInRange(pos: real, neg: real)
    requires 0.0 <= pos && 0.0 <= neg && 0.0 < pos + neg
    ensures 0.0 <= Share(pos, neg) <= 1.0
  {
    var m, q := pos + neg, Share(pos, neg);
    assert q * m == pos;
    NonNegativeFactor(q, m);
    var r := 1.0 - q;
    assert r * m == m - q * m;
    NonNegativeFactor(r, m);
  }

  lemma NonNegativeFactor(q: real, m: real)
    requires 0.0 <= q * m && 0.0 < m
    ensures 0.0 <= q
  {
  }

  lemma MassNonNegative(s: set<Claim>, file: File, f: Claim -> real, cfg: Config)
    requires ProfileFile(cfg)
    ensures 0.0 <= Mass(s, file, f, cfg)
  {
    var m := Masses(s, file, f, cfg);
    forall k | k in m ensures 0.0 <= m[k] {
      ClusterNonNegative(Values(s, file[k], f), cfg);
    }
    SumNonNegative(m);
  }

  lemma AbilityNonNegative(s: set<Claim>, file: File, cfg: Config, d: Dim)
    requires ProfileFile(cfg)
    ensures 0.0 <= AbilityOf(s, file, cfg, d).pos && 0.0 <= AbilityOf(s, file, cfg, d).neg
  {
    MassNonNegative(s, file, PosAt(cfg, d), cfg);
    MassNonNegative(s, file, NegAt(cfg, d), cfg);
  }

  lemma EstimateInRange(s: set<Claim>, file: File, cfg: Config, d: Dim)
    requires ProfileFile(cfg) && EstimateOf(AbilityOf(s, file, cfg, d), cfg).Some?
    ensures 0.0 <= EstimateOf(AbilityOf(s, file, cfg, d), cfg).value <= 1.0
  {
    AbilityNonNegative(s, file, cfg, d);
    var a := AbilityOf(s, file, cfg, d);
    ShareInRange(a.pos, a.neg);
  }

  // ---- the cap ----------------------------------------------------------------------------------

  lemma {:induction false} ValuesComeFromGroups(s: set<Claim>, l: seq<Claim>, f: Claim -> real, v: real)
    requires v in Values(s, l, f)
    ensures exists i :: 0 <= i < |l| && GroupValue(s, l[i], f) == v
  {
    var n := |l| - 1;
    if v in Values(s, l[..n], f) {
      ValuesComeFromGroups(s, l[..n], f, v);
      var i :| 0 <= i < n && GroupValue(s, l[..n][i], f) == v;
      assert l[i] == l[..n][i];
    } else {
      assert GroupValue(s, l[n], f) == v;
    }
  }

  lemma StrongestGroup(s: set<Claim>, l: seq<Claim>, f: Claim -> real) returns (i: nat)
    requires Values(s, l, f) != []
    ensures i < |l| && GroupValue(s, l[i], f) == Largest(Values(s, l, f))
  {
    var vals := Values(s, l, f);
    ValuesComeFromGroups(s, l, f, Largest(vals));
    i :| 0 <= i < |l| && GroupValue(s, l[i], f) == Largest(vals);
  }

  /** However many groups a cluster holds, the cap multiple of one of them bounds the whole cluster. */
  lemma ClusterIsWorthOneGroup(s: set<Claim>, l: seq<Claim>, f: Claim -> real, cfg: Config) returns (i: nat)
    requires cfg.repeatWeights != [] && 0.0 <= cfg.capMultiple && l != []
    ensures i < |l| && MassIn(s, l, f, cfg) <= Times(cfg.capMultiple)(GroupValue(s, l[i], f))
  {
    i := 0;
    if Values(s, l, f) == [] {
      MultipleNonNegative(cfg.capMultiple, GroupValue(s, l[0], f));
    } else {
      i := StrongestGroup(s, l, f);
      ClusterIsCapped(Values(s, l, f), cfg);
    }
  }

  lemma MultipleNonNegative(k: real, v: real)
    requires 0.0 <= k && 0.0 <= v
    ensures 0.0 <= Times(k)(v)
  {
  }

  // ---- PARTIAL evidence ---------------------------------------------------------------------------

  ghost predicate ScaledAt(c: Claim, f: Claim -> real, f': Claim -> real, h: real -> real) {
    f'(c) == h(f(c))
  }

  ghost predicate Scaled(s: set<Claim>, f: Claim -> real, f': Claim -> real, h: real -> real) {
    forall c | c in s :: ScaledAt(c, f, f', h)
  }

  lemma GroupValueStretches(s: set<Claim>, r: Claim, f: Claim -> real, f': Claim -> real, h: real -> real)
    requires Stretches(h) && Scaled(s, f, f', h)
    ensures GroupValue(s, r, f') == h(GroupValue(s, r, f))
  {
    assert forall c | c in s :: ScaledAt(c, f, f', h);
    StrongestStretches(GroupOf(s, r.group), f, f', h);
  }

  lemma {:induction false} ValuesStretch(s: set<Claim>, l: seq<Claim>, f: Claim -> real, f': Claim -> real, h: real -> real)
    requires Stretches(h) && Scaled(s, f, f', h)
    ensures Image(h, Values(s, l, f), Values(s, l, f'))
  {
    if l != [] {
      var n := |l| - 1;
      ValuesStretch(s, l[..n], f, f', h);
      GroupValueStretches(s, l[n], f, f', h);
    }
  }

  /** A common factor of all contributions goes through all three levels, caps included. */
  lemma MassStretches(s: set<Claim>, file: File, f: Claim -> real, f': Claim -> real, h: real -> real, cfg: Config)
    requires cfg.repeatWeights != [] && Stretches(h) && Scaled(s, f, f', h)
    ensures Mass(s, file, f', cfg) == h(Mass(s, file, f, cfg))
  {
    forall k | k in file ensures MassIn(s, file[k], f', cfg) == h(MassIn(s, file[k], f, cfg)) {
      ValuesStretch(s, file[k], f, f', h);
      ClusterStretches(h, Values(s, file[k], f), Values(s, file[k], f'), cfg);
    }
    SumStretches(Masses(s, file, f, cfg), Masses(s, file, f', cfg), h);
  }

  /** Only half-successes of one directly observed performance. */
  ghost predicate OnlyPartial(s: set<Claim>, p: Performance) {
    forall c | c in s :: c.performance == p && c.polarity.Positive? && c.outcome.Partial?
  }

  ghost predicate DirectlyMapped(cfg: Config, p: Performance, d: Dim) {
    Direct(p) == Some(d) && p in cfg.mapping && d in cfg.mapping[p] && 0.0 < cfg.mapping[p][d]
  }

  function PartialFactor(cfg: Config): real {
    Get(cfg.outcomeFactor, Partial, 1.0)
  }

  /** What a partial success weighs before it is split into a good and a bad part. */
  function Whole(cfg: Config, p: Performance, d: Dim): Claim -> real
    requires p in cfg.mapping && d in cfg.mapping[p]
  {
    var w := cfg.mapping[p][d];
    (c: Claim) => if Counts(c, cfg) then w * c.confidence * Assist(c, cfg) else 0.0
  }

  lemma Reorder(w: real, k: real, x: real, y: real)
    ensures w * k * x * y == k * (w * x * y)
  {
    assert w * k * x * y == (w * k) * (x * y);
    assert w * x * y == w * (x * y);
    assert (w * k) * (x * y) == k * (w * (x * y));
  }

  lemma GoodSplit(c: Claim, cfg: Config, d: Dim)
    requires DirectlyMapped(cfg, c.performance, d) && c.polarity.Positive? && c.outcome.Partial?
    ensures Pos(c, cfg, d) == PartialFactor(cfg) * Whole(cfg, c.performance, d)(c)
  {
    Reorder(cfg.mapping[c.performance][d], PartialFactor(cfg), c.confidence, Assist(c, cfg));
  }

  lemma BadSplit(c: Claim, cfg: Config, d: Dim)
    requires DirectlyMapped(cfg, c.performance, d) && c.polarity.Positive? && c.outcome.Partial?
    ensures Neg(c, cfg, d) == cfg.partialResidual * Whole(cfg, c.performance, d)(c)
  {
    Reorder(cfg.mapping[c.performance][d], cfg.partialResidual, c.confidence, Assist(c, cfg));
  }

  lemma ShareOfParts(of: real, residual: real, x: real)
    requires 0.0 < of && 0.0 < residual && 0.0 < of * x + residual * x
    ensures Share(of * x, residual * x) == Share(of, residual)
  {
    assert of * x + residual * x == (of + residual) * x;
    PositiveFactor(of + residual, x);
    var q := Share(of, residual);
    assert q * (of + residual) == of;
    assert q * ((of + residual) * x) == of * x;
  }

  lemma PartsSettle(a: Ability, cfg: Config, of: real, residual: real, x: real)
    requires 0.0 < of && 0.0 < residual && a.pos == Times(of)(x) && a.neg == Times(residual)(x)
    ensures EstimateOf(a, cfg).Some? ==> EstimateOf(a, cfg).value == Share(of, residual)
  {
    if 0.0 < of * x + residual * x { ShareOfParts(of, residual, x); }
  }

  // Repeating half-successes settles at half-control: the estimate is the same for one claim or a
  // thousand, for any confidences, groups, clusters and caps.
  lemma PartialSettles(s: set<Claim>, file: File, cfg: Config, p: Performance, d: Dim)
    requires cfg.repeatWeights != [] && OnlyPartial(s, p) && DirectlyMapped(cfg, p, d)
    requires 0.0 < PartialFactor(cfg) && 0.0 < cfg.partialResidual
    ensures EstimateOf(AbilityOf(s, file, cfg, d), cfg).Some? ==>
              EstimateOf(AbilityOf(s, file, cfg, d), cfg).value == Share(PartialFactor(cfg), cfg.partialResidual)
  {
    var of, residual, f := PartialFactor(cfg), cfg.partialResidual, Whole(cfg, p, d);
    var x := Mass(s, file, f, cfg);
    assert Mass(s, file, PosAt(cfg, d), cfg) == Times(of)(x) by { GoodPart(s, file, cfg, p, d); }
    assert Mass(s, file, NegAt(cfg, d), cfg) == Times(residual)(x) by { BadPart(s, file, cfg, p, d); }
    PartsSettle(AbilityOf(s, file, cfg, d), cfg, of, residual, x);
  }

  lemma GoodShare(c: Claim, cfg: Config, p: Performance, d: Dim)
    requires OnlyPartial({c}, p) && DirectlyMapped(cfg, p, d)
    ensures ScaledAt(c, Whole(cfg, p, d), PosAt(cfg, d), Times(PartialFactor(cfg)))
  {
    assert c in {c};
    GoodSplit(c, cfg, d);
  }

  lemma BadShare(c: Claim, cfg: Config, p: Performance, d: Dim)
    requires OnlyPartial({c}, p) && DirectlyMapped(cfg, p, d)
    ensures ScaledAt(c, Whole(cfg, p, d), NegAt(cfg, d), Times(cfg.partialResidual))
  {
    assert c in {c};
    BadSplit(c, cfg, d);
  }

  lemma GoodPart(s: set<Claim>, file: File, cfg: Config, p: Performance, d: Dim)
    requires cfg.repeatWeights != [] && OnlyPartial(s, p) && DirectlyMapped(cfg, p, d) && 0.0 < PartialFactor(cfg)
    ensures Mass(s, file, PosAt(cfg, d), cfg) == Times(PartialFactor(cfg))(Mass(s, file, Whole(cfg, p, d), cfg))
  {
    FactorStretches(PartialFactor(cfg));
    forall c | c in s ensures ScaledAt(c, Whole(cfg, p, d), PosAt(cfg, d), Times(PartialFactor(cfg))) { GoodShare(c, cfg, p, d); }
    MassStretches(s, file, Whole(cfg, p, d), PosAt(cfg, d), Times(PartialFactor(cfg)), cfg);
  }

  lemma BadPart(s: set<Claim>, file: File, cfg: Config, p: Performance, d: Dim)
    requires cfg.repeatWeights != [] && OnlyPartial(s, p) && DirectlyMapped(cfg, p, d) && 0.0 < cfg.partialResidual
    ensures Mass(s, file, NegAt(cfg, d), cfg) == Times(cfg.partialResidual)(Mass(s, file, Whole(cfg, p, d), cfg))
  {
    FactorStretches(cfg.partialResidual);
    forall c | c in s ensures ScaledAt(c, Whole(cfg, p, d), NegAt(cfg, d), Times(cfg.partialResidual)) { BadShare(c, cfg, p, d); }
    MassStretches(s, file, Whole(cfg, p, d), NegAt(cfg, d), Times(cfg.partialResidual), cfg);
  }
}
