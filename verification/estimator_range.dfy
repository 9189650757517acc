/** Estimates and confidences stay in [0, 1], and confidence grows with the evidence. */
module EstimatorRange {
  import opened EstimatorClaims
  import opened EstimatorMass
  import opened EstimatorFiles
  import opened EstimatorTheorems
  import Ordering

  // ---- transfer and support dependency -----------------------------------------------------------

  function TransferEstimate(t: Transfer, capability: bool, cfg: Config): Option<real> {
    var open := |t.clusters| >= 2 && (|t.contexts| >= 2 || |t.personas| >= 2 || |t.realizations| >= 2)
                && (capability ==> |t.realizations| >= 2);
    if open && t.pos + t.neg >= cfg.minMass && t.pos + t.neg > 0.0 then Some(Share(t.pos, t.neg)) else None
  }

  function SupportEstimate(dep: Dependency, cfg: Config): Option<real>
    requires 0.0 < cfg.supportMinMass && dep.kinds.Keys == KINDS
  {
    var identifiable := dep.kinds[LowSuccess] >= cfg.supportMinMass || (dep.kinds[AssistedSuccess] >= 0.5 && dep.kinds[LowFailure] >= 0.5);
    if identifiable && dep.den >= cfg.supportMinMass then Some(dep.num / dep.den) else None
  }

  ghost predicate Confident(s: set<Claim>) {
    forall c | c in s :: 0.0 <= c.confidence
  }

  lemma ProductInRange(x: real, y: real)
    requires 0.0 <= x && 0.0 <= y
    ensures 0.0 <= x * y
  {
  }

  lemma StrengthNonNegative(c: Claim, cfg: Config)
    requires ProfileFile(cfg) && 0.0 <= c.confidence
    ensures 0.0 <= Strength(c, cfg) && 0.0 <= FailureStrength(c, cfg)
  {
    ProductInRange(c.confidence, Assist(c, cfg));
    ProductInRange(c.confidence, ErrorFactor(c, cfg));
  }

  lemma TransferInRange(s: set<Claim>, cfg: Config, strong: map<ClusterKey, Claim>, base: Option<ClusterKey>,
                        worst: map<ClusterKey, real>, capability: bool)
    requires ProfileFile(cfg) && Confident(s) && TransferChosen(s, cfg, strong, base, worst)
    requires TransferEstimate(TransferOf(strong, base, worst, cfg), capability, cfg).Some?
    ensures 0.0 <= TransferEstimate(TransferOf(strong, base, worst, cfg), capability, cfg).value <= 1.0
  {
    var m := Transferred(strong, base, cfg);
    forall k | k in m ensures 0.0 <= m[k] {
      assert Represents(StrongClaims(s, cfg), StrengthAt(cfg), k, strong[k]);
      StrengthNonNegative(strong[k], cfg);
    }
    SumNonNegative(m);
    forall k | k in worst ensures 0.0 <= worst[k] {
      assert IsMost(KeyedBy(FailedTransfers(s), k), cfg, worst[k]);
      var c :| c in KeyedBy(FailedTransfers(s), k) && FailureStrength(c, cfg) == worst[k];
      StrengthNonNegative(c, cfg);
    }
    SumNonNegative(worst);
    ShareInRange(Sum(m), Sum(worst));
  }

  ghost predicate Below(l: seq<Claim>, f: Claim -> real, g: Claim -> real) {
    forall i | 0 <= i < |l| :: BelowAt(l[i], f, g)
  }

  ghost predicate BelowAt(c: Claim, f: Claim -> real, g: Claim -> real) {
    0.0 <= f(c) <= g(c)
  }

  lemma PlusGrows(a: real, b: real, w: real, x: real, y: real)
    requires 0.0 <= a <= b && 0.0 <= w && 0.0 <= x <= y
    ensures 0.0 <= Plus(a, w, x) <= Plus(b, w, y)
  {
    Monotone(w, 0.0, x);
    Monotone(w, x, y);
  }

  lemma {:induction false} DiminishedGrows(l: seq<Claim>, f: Claim -> real, g: Claim -> real, cfg: Config)
    requires ProfileFile(cfg) && Below(l, f, g)
    ensures 0.0 <= Diminished(Each(l, f), cfg) <= Diminished(Each(l, g), cfg)
  {
    if l != [] {
      var n := |l| - 1;
      DiminishedGrows(l[..n], f, g, cfg);
      assert Each(l, f)[..n] == Each(l[..n], f) && Each(l, g)[..n] == Each(l[..n], g);
      assert BelowAt(l[n], f, g);
      PlusGrows(Diminished(Each(l[..n], f), cfg), Diminished(Each(l[..n], g), cfg), Weight(cfg, n), f(l[n]), g(l[n]));
    }
  }

  lemma {:induction false} SumGrows(m: map<ClusterKey, real>, m': map<ClusterKey, real>)
    requires m.Keys == m'.Keys && forall k | k in m :: 0.0 <= m[k] <= m'[k]
    ensures 0.0 <= Sum(m) <= Sum(m')
  {
    if m != map[] {
      var k :| k in m;
      SumTakes(m, k);
      SumTakes(m', k);
      SumGrows(m - {k}, m' - {k});
    } else {
      assert m' == map[];
    }
  }

  lemma BurdenIsAShare(c: Claim, cfg: Config)
    requires ProfileFile(cfg) && 0.0 <= c.confidence
    ensures BelowAt(c, BurdenAt(cfg), EvidenceAt(cfg))
  {
    EvidenceNonNegative(c, cfg);
    ShareOfProduct(Burden(c, cfg), Evidence(c, cfg));
  }

  lemma EvidenceNonNegative(c: Claim, cfg: Config)
    requires ProfileFile(cfg) && 0.0 <= c.confidence
    ensures 0.0 <= Evidence(c, cfg)
  {
    ProductInRange(c.confidence, OutcomeFactor(c, cfg));
    ProductInRange(c.confidence, ErrorFactor(c, cfg));
    ProductInRange(c.confidence * ErrorFactor(c, cfg), OutcomeFactor(c, cfg));
  }

  lemma ShareOfProduct(b: real, e: real)
    requires 0.0 <= b <= 1.0 && 0.0 <= e
    ensures 0.0 <= Loaded(b, e) <= e
  {
    Monotone(e, 0.0, b);
    Monotone(e, b, 1.0);
  }

  lemma BurdensAreShares(s: set<Claim>, cfg: Config, speakers: set<Claim>, file: File, k: ClusterKey)
    requires ProfileFile(cfg) && SupportChosen(s, cfg, speakers, file) && k in file
    ensures Below(file[k], BurdenAt(cfg), EvidenceAt(cfg))
  {
    forall i | 0 <= i < |file[k]| ensures BelowAt(file[k][i], BurdenAt(cfg), EvidenceAt(cfg)) {
      assert file[k][i] in KeyedBy(Observations(speakers), k);
      assert MostConfident(s, cfg, file[k][i]);
      BurdenIsAShare(file[k][i], cfg);
    }
  }

  lemma SupportInRange(s: set<Claim>, cfg: Config, speakers: set<Claim>, file: File)
    requires ProfileFile(cfg) && SupportChosen(s, cfg, speakers, file)
    requires SupportEstimate(DependencyOf(file, cfg), cfg).Some?
    ensures 0.0 <= SupportEstimate(DependencyOf(file, cfg), cfg).value <= 1.0
  {
    forall k | k in file ensures Below(file[k], BurdenAt(cfg), EvidenceAt(cfg)) {
      BurdensAreShares(s, cfg, speakers, file, k);
    }
    RepeatsGrow(file, BurdenAt(cfg), EvidenceAt(cfg), cfg);
    SupportShareInRange(DependencyOf(file, cfg), cfg);
  }

  lemma SupportShareInRange(dep: Dependency, cfg: Config)
    requires 0.0 < cfg.supportMinMass && dep.kinds.Keys == KINDS
    requires 0.0 <= dep.num <= dep.den && SupportEstimate(dep, cfg).Some?
    ensures 0.0 <= SupportEstimate(dep, cfg).value <= 1.0
  {
    assert dep.num + (dep.den - dep.num) == dep.den;
    ShareInRange(dep.num, dep.den - dep.num);
  }

  lemma RepeatsGrow(file: File, f: Claim -> real, g: Claim -> real, cfg: Config)
    requires ProfileFile(cfg) && forall k | k in file :: Below(file[k], f, g)
    ensures 0.0 <= Repeats(file, f, cfg) <= Repeats(file, g, cfg)
  {
    var m, m' := RepeatMasses(file, f, cfg), RepeatMasses(file, g, cfg);
    forall k | k in m ensures 0.0 <= m[k] <= m'[k] { DiminishedGrows(file[k], f, g, cfg); }
    SumGrows(m, m');
  }

  // ---- confidence ------------------------------------------------------------------------------------

  /** All that is used of the exponential. */
  ghost predicate ExpLike(exp: real -> real) {
    exp(0.0) == 1.0 && (forall x :: 0.0 < exp(x)) && forall x, y :: x <= y ==> exp(x) <= exp(y)
  }

  datatype Counts4 = Counts4(days: nat, contexts: nat, personas: nat, realizations: nat)

  function CountsOf(v: Variety): Counts4 {
    Counts4(|v.days|, |v.contexts|, |v.personas|, |v.realizations|)
  }

  function Beyond(n: nat): real {
    if n == 0 then 0.0 else (n - 1) as real
  }

  function Extra(m: Counts4): real {
    0.35 * Beyond(m.days) + 0.25 * Beyond(m.contexts) + 0.15 * Beyond(m.personas) + 0.25 * Beyond(m.realizations)
  }

  function RawConfidence(mass: real, extra: real, tau: real, exp: real -> real): real
    requires tau != 0.0
  {
    (1.0 - exp(-(mass / tau))) * (0.8 + 0.2 * (1.0 - exp(-extra)))
  }

  predicate Narrow(d: Dim) {
    d.IndependentProduction? || d.SpontaneousProduction? || d.PragmaticControl?
  }

  /** `limited`: a capability seen in fewer than two realizations is capped in the narrow dimensions. */
  function Confidence(mass: real, m: Counts4, limited: bool, cfg: Config, exp: real -> real): real
    requires cfg.tau != 0.0
  {
    if mass <= 0.0 then 0.0 else
      var raw := RawConfidence(mass, Extra(m), cfg.tau, exp);
      Clamp(if limited && m.realizations < 2 then Min(raw, cfg.narrowCap) else raw)
  }

  lemma ProductGrows(a: real, b: real, x: real, y: real)
    requires 0.0 <= a <= b && 0.0 <= x <= y
    ensures a * x <= b * y
  {
    Monotone(a, x, y);
    Monotone(y, a, b);
  }

  lemma QuotientGrows(x: real, y: real, tau: real)
    requires 0.0 < tau && x <= y
    ensures x / tau <= y / tau
  {
    var p, q := x / tau, y / tau;
    assert p * tau == x && q * tau == y;
    var r := q - p;
    assert r * tau == q * tau - p * tau;
    NonNegativeFactor(r, tau);
  }

  /** The clamp never changes anything from above: unclamped confidence is below one, and it is never negative. */
  lemma RawConfidenceInRange(mass: real, extra: real, tau: real, exp: real -> real)
    requires ExpLike(exp) && 0.0 < tau && 0.0 <= mass && 0.0 <= extra
    ensures 0.0 <= RawConfidence(mass, extra, tau, exp) < 1.0
  {
    QuotientGrows(0.0, mass, tau);
    var a, x := 1.0 - exp(-(mass / tau)), 0.8 + 0.2 * (1.0 - exp(-extra));
    FractionsMultiply(a, x);
    assert RawConfidence(mass, extra, tau, exp) == a * x;
  }

  lemma FractionsMultiply(a: real, x: real)
    requires 0.0 <= a < 1.0 && 0.0 <= x < 1.0
    ensures 0.0 <= a * x < 1.0
  {
    ProductGrows(0.0, a, 0.0, x);
    ProductGrows(a, a, x, 1.0);
  }

  lemma RawConfidenceGrows(mass: real, mass': real, extra: real, extra': real, tau: real, exp: real -> real)
    requires ExpLike(exp) && 0.0 < tau && 0.0 <= mass <= mass' && 0.0 <= extra <= extra'
    ensures RawConfidence(mass, extra, tau, exp) <= RawConfidence(mass', extra', tau, exp)
  {
    QuotientGrows(0.0, mass, tau);
    QuotientGrows(mass, mass', tau);
    ProductGrows(1.0 - exp(-(mass / tau)), 1.0 - exp(-(mass' / tau)),
      0.8 + 0.2 * (1.0 - exp(-extra)), 0.8 + 0.2 * (1.0 - exp(-extra')));
  }

  ghost predicate AtMost(m: Counts4, m': Counts4) {
    m.days <= m'.days && m.contexts <= m'.contexts && m.personas <= m'.personas && m.realizations <= m'.realizations
  }

  /** More mass or more variety never lowers a confidence, and confidence stays in [0, 1]. */
  lemma ConfidenceGrows(mass: real, mass': real, m: Counts4, m': Counts4, limited: bool, cfg: Config, exp: real -> real)
    requires ProfileFile(cfg) && ExpLike(exp) && mass <= mass' && AtMost(m, m')
    ensures 0.0 <= Confidence(mass, m, limited, cfg, exp) <= Confidence(mass', m', limited, cfg, exp) <= 1.0
  {
    if 0.0 < mass {
      assert 0.0 <= Extra(m) <= Extra(m');
      RawConfidenceGrows(mass, mass', Extra(m), Extra(m'), cfg.tau, exp);
    }
  }

  function ConfidenceOf(a: Ability, capability: bool, d: Dim, cfg: Config, exp: real -> real): real
    requires cfg.tau != 0.0
  {
    Confidence(a.pos + a.neg, CountsOf(a.variety), capability && Narrow(d), cfg, exp)
  }

  ghost predicate Within(v: Variety, v': Variety) {
    v.days <= v'.days && v.contexts <= v'.contexts && v.personas <= v'.personas && v.realizations <= v'.realizations
  }

  /** So an ability that gained evidence, wherever it came from, is reported with no less confidence. */
  lemma MoreEvidenceIsSurer(a: Ability, a': Ability, capability: bool, d: Dim, cfg: Config, exp: real -> real)
    requires ProfileFile(cfg) && ExpLike(exp) && a.pos + a.neg <= a'.pos + a'.neg && Within(a.variety, a'.variety)
    ensures 0.0 <= ConfidenceOf(a, capability, d, cfg, exp) <= ConfidenceOf(a', capability, d, cfg, exp) <= 1.0
  {
    var v, v' := a.variety, a'.variety;
    Ordering.SubsetIsSmaller(v.days, v'.days);
    Ordering.SubsetIsSmaller(v.contexts, v'.contexts);
    Ordering.SubsetIsSmaller(v.personas, v'.personas);
    Ordering.SubsetIsSmaller(v.realizations, v'.realizations);
    ConfidenceGrows(a.pos + a.neg, a'.pos + a'.neg, CountsOf(v), CountsOf(v'), capability && Narrow(d), cfg, exp);
  }

  /** Unknown transfer has none; a capability seen in one context is capped. */
  function TransferConfidence(t: Transfer, capability: bool, cfg: Config, exp: real -> real): real
    requires cfg.tau != 0.0
  {
    if TransferEstimate(t, capability, cfg).None? then 0.0 else
      var c := Confidence(t.pos + t.neg, Counts4(|t.days|, |t.contexts|, |t.personas|, |t.realizations|), false, cfg, exp);
      if capability && |t.contexts| < 2 then Min(c, cfg.transferCap) else c
  }

  /** Over all active claims; a claim without a persona counts as one kind of persona here. */
  function ActiveCounts(s: set<Claim>): Counts4 {
    Counts4(|set c | c in s :: c.timestamp / DAY|, |set c | c in s :: c.context|, |set c | c in s :: c.persona|,
            |set c | c in s :: c.realization|)
  }

  function SupportConfidence(dep: Dependency, s: set<Claim>, cfg: Config, exp: real -> real): real
    requires cfg.tau != 0.0 && 0.0 < cfg.supportMinMass && dep.kinds.Keys == KINDS
  {
    if SupportEstimate(dep, cfg).None? then 0.0 else Confidence(dep.den, ActiveCounts(s), false, cfg, exp)
  }

  /** Every confidence an estimation reports lies in [0, 1], and a positive one comes with positive mass. */
  lemma ReportedConfidences(s: set<Claim>, e: Estimation, capability: bool, cfg: Config, exp: real -> real)
    requires ProfileFile(cfg) && ExpLike(exp) && e.abilities.Keys == DIMS && e.dependency.kinds.Keys == KINDS
    ensures forall d | d in DIMS :: 0.0 <= ConfidenceOf(e.abilities[d], capability, d, cfg, exp) <= 1.0
    ensures 0.0 <= TransferConfidence(e.transfer, capability, cfg, exp) <= 1.0
    ensures 0.0 <= SupportConfidence(e.dependency, s, cfg, exp) <= 1.0
    ensures TransferConfidence(e.transfer, capability, cfg, exp) > 0.0 ==> e.transfer.pos + e.transfer.neg > 0.0
    ensures SupportConfidence(e.dependency, s, cfg, exp) > 0.0 ==> e.dependency.den > 0.0
  {
    var t, dep := e.transfer, e.dependency;
    forall d | d in DIMS ensures 0.0 <= ConfidenceOf(e.abilities[d], capability, d, cfg, exp) <= 1.0 {
      var a := e.abilities[d];
      MoreEvidenceIsSurer(a, a, capability, d, cfg, exp);
    }
    var m := Counts4(|t.days|, |t.contexts|, |t.personas|, |t.realizations|);
    ConfidenceGrows(t.pos + t.neg, t.pos + t.neg, m, m, false, cfg, exp);
    ConfidenceGrows(dep.den, dep.den, ActiveCounts(s), ActiveCounts(s), false, cfg, exp);
  }

  /** Evidence of one day, context, persona and realization is believed to four fifths at most, however much there is. */
  lemma LoneConditionIsHeldBack(mass: real, m: Counts4, limited: bool, cfg: Config, exp: real -> real)
    requires ProfileFile(cfg) && ExpLike(exp)
    requires m.days <= 1 && m.contexts <= 1 && m.personas <= 1 && m.realizations <= 1
    ensures Confidence(mass, m, limited, cfg, exp) <= 0.8
  {
    if 0.0 < mass {
      assert Extra(m) == 0.0;
      LoneRaw(mass, cfg.tau, exp);
    }
  }

  lemma LoneRaw(mass: real, tau: real, exp: real -> real)
    requires ExpLike(exp) && 0.0 < tau
    ensures RawConfidence(mass, 0.0, tau, exp) <= 0.8
  {
    var e := exp(-(mass / tau));
    assert 0.0 < e;
    assert RawConfidence(mass, 0.0, tau, exp) == (1.0 - e) * 0.8;
  }

  /** A capability seen in one realization is held under the cap where production or fit is judged, one seen in one context for transfer. */
  lemma CapabilitiesAreCapped(a: Ability, d: Dim, t: Transfer, cfg: Config, exp: real -> real)
    requires ProfileFile(cfg) && ExpLike(exp)
    ensures d in {IndependentProduction, SpontaneousProduction, PragmaticControl} && |a.variety.realizations| < 2 ==>
              ConfidenceOf(a, true, d, cfg, exp) <= cfg.narrowCap
    ensures |t.contexts| < 2 ==> TransferConfidence(t, true, cfg, exp) <= cfg.transferCap
    ensures d in {Recognition, GuidedProduction, Accuracy} || 2 <= |a.variety.realizations| ==>
              ConfidenceOf(a, true, d, cfg, exp) == ConfidenceOf(a, false, d, cfg, exp)
  {
  }
}
