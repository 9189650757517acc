/** The estimator as it runs: loops over claims, groups and clusters with running totals. */
module EstimatorEvaluate {
  import opened EstimatorClaims
  import opened EstimatorMass
  import opened EstimatorFiles
  import opened EstimatorTheorems
  import opened EstimatorGrouping
  import opened Ordering

  // ---- groups ----------------------------------------------------------------------------------

  type Profile = map<Dim, real>

  /** Contributions on one side, dimension by dimension. */
  type Side = Dim -> (Claim -> real)

  function PosSide(cfg: Config): Side { d => PosAt(cfg, d) }
  function NegSide(cfg: Config): Side { d => NegAt(cfg, d) }

  ghost predicate Covers(cs: set<Claim>, side: Side, p: Profile) {
    p.Keys == DIMS && forall d | d in DIMS :: IsStrongest(cs, side(d), p[d])
  }

  lemma StrongestStep(cs: set<Claim>, f: Claim -> real, v: real, c: Claim)
    requires IsStrongest(cs, f, v)
    ensures IsStrongest(cs + {c}, f, Max(v, f(c)))
  {
    if v != 0.0 {
      var x :| x in cs && f(x) == v;
      assert x in cs + {c};
    }
    assert c in cs + {c};
  }

  function Raised(p: Profile, side: Side, c: Claim): (r: Profile)
    requires p.Keys == DIMS
    ensures r.Keys == DIMS && forall d | d in DIMS :: r[d] == Max(p[d], side(d)(c))
  {
    map d | d in p :: Max(p[d], side(d)(c))
  }

  lemma CoversStep(cs: set<Claim>, side: Side, p: Profile, c: Claim)
    requires Covers(cs, side, p)
    ensures Covers(cs + {c}, side, Raised(p, side, c))
  {
    forall d | d in DIMS ensures IsStrongest(cs + {c}, side(d), Max(p[d], side(d)(c))) {
      StrongestStep(cs, side(d), p[d], c);
    }
  }

  /** A group keeps its strongest contribution to each dimension, on each side. */
  method AggregateGroup(cs: seq<Claim>, pos: Side, neg: Side) returns (p: Profile, n: Profile)
    ensures Covers(Elements(cs), pos, p) && Covers(Elements(cs), neg, n)
  {
    p, n := Nothing(), Nothing();
    ghost var seen := {};
    for i := 0 to |cs|
      invariant seen == Elements(cs[..i]) && Covers(seen, pos, p) && Covers(seen, neg, n)
    {
      CoversStep(seen, pos, p, cs[i]);
      CoversStep(seen, neg, n, cs[i]);
      ElementsGrow(cs, i);
      seen := seen + {cs[i]};
      p, n := Raised(p, pos, cs[i]), Raised(n, neg, cs[i]);
    }
    assert cs[..|cs|] == cs;
  }

  function Nothing(): Profile {
    map d | d in DIMS :: 0.0
  }

  lemma ElementsGrow(cs: seq<Claim>, i: nat)
    requires i < |cs|
    ensures Elements(cs[..i + 1]) == Elements(cs[..i]) + {cs[i]}
  {
    assert cs[..i + 1] == cs[..i] + [cs[i]];
  }

  // ---- clusters --------------------------------------------------------------------------------

  method Diminish(vals: seq<real>, cfg: Config) returns (total: real)
    requires cfg.repeatWeights != []
    ensures total == Diminished(vals, cfg)
  {
    total := 0.0;
    for i := 0 to |vals|
      invariant total == Diminished(vals[..i], cfg)
    {
      assert vals[..i + 1][..i] == vals[..i];
      total := Plus(total, Weight(cfg, i), vals[i]);
    }
    assert vals[..|vals|] == vals;
  }

  /** `value` holds the strongest contribution of each group in `l`, to one dimension and side. */
  method AggregateCluster(l: seq<Claim>, value: map<Word, real>, ghost s: set<Claim>, ghost f: Claim -> real, cfg: Config)
      returns (mass: real)
    requires cfg.repeatWeights != []
    requires forall c | c in l :: c.group in value && value[c.group] == GroupValue(s, c, f)
    ensures mass == MassIn(s, l, f, cfg)
  {
    var vals := [];
    for i := 0 to |l|
      invariant vals == Values(s, l[..i], f)
    {
      assert l[..i + 1][..i] == l[..i];
      assert l[i] in l;
      if value[l[i].group] > 0.0 { vals := vals + [value[l[i].group]]; }
    }
    assert l[..|l|] == l;
    if vals == [] {
      mass := 0.0;
    } else {
      var total := Diminish(vals, cfg);
      mass := Capped(total, cfg.capMultiple, Largest(vals));
    }
  }
}
