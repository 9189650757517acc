// The three levels of aggregation. A group keeps its strongest contribution, a cluster sums its
// groups in time order with diminishing weights under a cap, and clusters add up. Everything is
// stated for any contribution function, so it serves every dimension and both polarities.
module EstimatorMass {
  import opened EstimatorClaims
  import opened Ordering

  // ---- a group -------------------------------------------------------------------------

  function GroupOf(s: set<Claim>, g: Word): set<Claim> {
    set c | c in s && c.group == g
  }

  function GroupsOf(s: set<Claim>): set<Word> {
    set c | c in s :: c.group
  }

  /** The strongest contribution of a set of claims, and 0 when there is none. */
  ghost predicate IsStrongest(cs: set<Claim>, f: Claim -> real, v: real) {
    && 0.0 <= v && (forall c | c in cs :: f(c) <= v)
    && (v == 0.0 || exists c :: c in cs && f(c) == v)
  }

  lemma StrongestExists(cs: set<Claim>, f: Claim -> real)
    ensures exists v :: IsStrongest(cs, f, v)
  {
    if cs == {} {
      assert IsStrongest(cs, f, 0.0);
    } else {
      var c := Pick(cs);
      StrongestExists(cs - {c}, f);
      var v :| IsStrongest(cs - {c}, f, v);
      assert IsStrongest(cs, f, if f(c) > v then f(c) else v);
    }
  }

  ghost function Strongest(cs: set<Claim>, f: Claim -> real): (v: real)
    ensures IsStrongest(cs, f, v)
  {
    StrongestExists(cs, f);
    var v :| IsStrongest(cs, f, v); v
  }

  lemma StrongestUnique(cs: set<Claim>, f: Claim -> real, v: real, w: real)
    requires IsStrongest(cs, f, v) && IsStrongest(cs, f, w)
    ensures v == w
  {
  }

  // ---- stretching every contribution by one factor ---------------------------------------

  function Plus(a: real, w: real, v: real): real {
    a + w * v
  }

  ghost predicate Lin(h: real -> real, a: real, w: real, v: real) {
    h(Plus(a, w, v)) == Plus(h(a), w, h(v))
  }

  /** What multiplying by a positive factor does, without naming the factor. */
  ghost predicate Stretches(h: real -> real) {
    && h(0.0) == 0.0
    && (forall x, y :: x <= y ==> h(x) <= h(y))
    && (forall x :: 0.0 < x <==> 0.0 < h(x))
    && (forall a, w, v :: Lin(h, a, w, v))
  }

  function Times(k: real): real -> real { (x: real) => k * x }

  lemma FactorStretches(k: real)
    requires 0.0 < k
    ensures Stretches(Times(k))
  {
    var h := Times(k);
    forall x, y | x <= y ensures h(x) <= h(y) { Monotone(k, x, y); }
    forall x ensures 0.0 < x <==> 0.0 < h(x) { PositiveFactor(k, x); }
    forall a, w, v ensures Lin(h, a, w, v) { Distributes(k, a, w, v); }
  }

  lemma PositiveFactor(k: real, x: real)
    requires 0.0 < k
    ensures 0.0 < x <==> 0.0 < k * x
  {
    if x <= 0.0 { assert 0.0 <= k * (0.0 - x); }
  }

  lemma Distributes(k: real, a: real, w: real, v: real)
    ensures k * Plus(a, w, v) == Plus(k * a, w, k * v)
  {
    assert k * (a + w * v) == k * a + k * (w * v);
    assert k * (w * v) == w * (k * v);
  }

  lemma Monotone(k: real, x: real, y: real)
    requires 0.0 <= k && x <= y
    ensures k * x <= k * y
  {
    assert 0.0 <= k * (y - x);
  }

  lemma StrongestStretches(cs: set<Claim>, f: Claim -> real, f': Claim -> real, h: real -> real)
    requires Stretches(h) && forall c | c in cs :: f'(c) == h(f(c))
    ensures Strongest(cs, f') == h(Strongest(cs, f))
  {
    var v := Strongest(cs, f);
    assert IsStrongest(cs, f, v);
    if v != 0.0 {
      var c :| c in cs && f(c) == v;
      assert f'(c) == h(v);
    }
    assert IsStrongest(cs, f', h(v));
    StrongestUnique(cs, f', Strongest(cs, f'), h(v));
  }

  // ---- a cluster -----------------------------------------------------------------------

  function Weight(cfg: Config, i: nat): real
    requires cfg.repeatWeights != []
  {
    if i < |cfg.repeatWeights| then cfg.repeatWeights[i] else cfg.repeatWeights[|cfg.repeatWeights| - 1]
  }

  function Diminished(vals: seq<real>, cfg: Config): real
    requires cfg.repeatWeights != []
  {
    if vals == [] then 0.0
    else Plus(Diminished(vals[..|vals| - 1], cfg), Weight(cfg, |vals| - 1), vals[|vals| - 1])
  }

  function Largest(vals: seq<real>): (m: real)
    requires vals != []
    ensures (exists i :: 0 <= i < |vals| && vals[i] == m) && forall i | 0 <= i < |vals| :: vals[i] <= m
  {
    if |vals| == 1 then vals[0]
    else
      var front := vals[..|vals| - 1];
      assert forall i | 0 <= i < |front| :: front[i] == vals[i];
      Max(Largest(front), vals[|vals| - 1])
  }

  predicate AllPositive(vals: seq<real>) {
    forall i | 0 <= i < |vals| :: 0.0 < vals[i]
  }

  function Capped(total: real, multiple: real, largest: real): real {
    Min(total, multiple * largest)
  }

  function ClusterMass(vals: seq<real>, cfg: Config): real
    requires cfg.repeatWeights != []
  {
    if vals == [] then 0.0 else Capped(Diminished(vals, cfg), cfg.capMultiple, Largest(vals))
  }

  /** However many repeats a cluster holds, it never outweighs the cap multiple of its strongest group. */
  lemma ClusterIsCapped(vals: seq<real>, cfg: Config)
    requires cfg.repeatWeights != [] && vals != []
    ensures ClusterMass(vals, cfg) <= Times(cfg.capMultiple)(Largest(vals))
  {
    CappedBelow(Diminished(vals, cfg), cfg.capMultiple, Largest(vals));
  }

  lemma ClusterNonNegative(vals: seq<real>, cfg: Config)
    requires ProfileFile(cfg) && AllPositive(vals)
    ensures 0.0 <= ClusterMass(vals, cfg)
  {
    if vals != [] {
      DiminishedNonNegative(vals, cfg);
      CappedNonNegative(Diminished(vals, cfg), cfg.capMultiple, Largest(vals));
    }
  }

  lemma CappedBelow(total: real, multiple: real, largest: real)
    ensures Capped(total, multiple, largest) <= Times(multiple)(largest)
  {
  }

  lemma CappedNonNegative(total: real, multiple: real, largest: real)
    requires 0.0 <= total && 0.0 <= multiple && 0.0 <= largest
    ensures 0.0 <= Capped(total, multiple, largest)
  {
  }

  lemma CappedGrows(total: real, total': real, multiple: real, largest: real, largest': real)
    requires total <= total' && 0.0 <= multiple && largest <= largest'
    ensures Capped(total, multiple, largest) <= Capped(total', multiple, largest')
  {
    Monotone(multiple, largest, largest');
  }

  lemma {:induction false} DiminishedNonNegative(vals: seq<real>, cfg: Config)
    requires ProfileFile(cfg) && AllPositive(vals)
    ensures 0.0 <= Diminished(vals, cfg)
  {
    if vals != [] {
      DiminishedNonNegative(vals[..|vals| - 1], cfg);
      var w, v := Weight(cfg, |vals| - 1), vals[|vals| - 1];
      assert 0.0 <= w && 0.0 < v;
      assert 0.0 <= w * v;
    }
  }

  /** A repeat added at the end never lowers a cluster. */
  lemma LateRepeatNeverLowers(vals: seq<real>, v: real, cfg: Config)
    requires ProfileFile(cfg) && 0.0 < v && AllPositive(vals)
    ensures ClusterMass(vals, cfg) <= ClusterMass(vals + [v], cfg)
  {
    var more := vals + [v];
    if vals == [] {
      ClusterNonNegative(more, cfg);
    } else {
      LateRepeatAdds(vals, v, cfg);
      var i :| 0 <= i < |vals| && vals[i] == Largest(vals);
      assert more[i] == Largest(vals);
      CappedGrows(Diminished(vals, cfg), Diminished(more, cfg), cfg.capMultiple, Largest(vals), Largest(more));
    }
  }

  lemma LateRepeatAdds(vals: seq<real>, v: real, cfg: Config)
    requires ProfileFile(cfg) && 0.0 < v
    ensures Diminished(vals, cfg) <= Diminished(vals + [v], cfg)
  {
    var more := vals + [v];
    assert more[..|vals|] == vals;
    var w := Weight(cfg, |vals|);
    assert 0.0 <= w * v;
  }

  ghost predicate Image(h: real -> real, vals: seq<real>, s: seq<real>) {
    |s| == |vals| && forall i | 0 <= i < |vals| :: s[i] == h(vals[i])
  }

  lemma {:induction false} DiminishedStretches(h: real -> real, vals: seq<real>, s: seq<real>, cfg: Config)
    requires cfg.repeatWeights != [] && Stretches(h) && Image(h, vals, s)
    ensures Diminished(s, cfg) == h(Diminished(vals, cfg))
  {
    if vals != [] {
      var n := |vals| - 1;
      DiminishedStretches(h, vals[..n], s[..n], cfg);
      assert Lin(h, Diminished(vals[..n], cfg), Weight(cfg, n), vals[n]);
    }
  }

  lemma LargestStretches(h: real -> real, vals: seq<real>, s: seq<real>)
    requires vals != [] && Stretches(h) && Image(h, vals, s)
    ensures Largest(s) == h(Largest(vals))
  {
    var i :| 0 <= i < |vals| && vals[i] == Largest(vals);
    assert s[i] == h(Largest(vals));
    var j :| 0 <= j < |s| && s[j] == Largest(s);
    assert vals[j] <= Largest(vals);
  }

  lemma CapStretches(h: real -> real, a: real, cap: real, b: real)
    requires Stretches(h)
    ensures Capped(h(a), cap, h(b)) == h(Capped(a, cap, b))
  {
    assert Lin(h, 0.0, cap, b);
    assert Plus(0.0, cap, b) == cap * b;
  }

  /** Stretching every group of a cluster stretches its mass, cap and all. */
  lemma ClusterStretches(h: real -> real, vals: seq<real>, s: seq<real>, cfg: Config)
    requires cfg.repeatWeights != [] && Stretches(h) && Image(h, vals, s)
    ensures ClusterMass(s, cfg) == h(ClusterMass(vals, cfg))
  {
    if vals != [] {
      var total, largest := Diminished(vals, cfg), Largest(vals);
      assert Diminished(s, cfg) == h(total) by { DiminishedStretches(h, vals, s, cfg); }
      assert Largest(s) == h(largest) by { LargestStretches(h, vals, s); }
      CapStretches(h, total, cfg.capMultiple, largest);
    }
  }
}
