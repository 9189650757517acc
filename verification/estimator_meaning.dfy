/** What single claims tell, and where estimates settle when all claims tell the same. */
module EstimatorMeaning {
  import opened EstimatorClaims
  import opened EstimatorMass
  import opened EstimatorFiles
  import opened EstimatorTheorems
  import opened EstimatorInsertion

  // ---- one side only -------------------------------------------------------------------

  ghost predicate Silent(s: set<Claim>, f: Claim -> real) {
    forall c | c in s :: f(c) == 0.0
  }

  lemma {:induction false} SilentValues(s: set<Claim>, l: seq<Claim>, f: Claim -> real)
    requires Silent(s, f)
    ensures Values(s, l, f) == []
  {
    if l != [] {
      SilentValues(s, l[..|l| - 1], f);
      var v := GroupValue(s, l[|l| - 1], f);
      assert IsStrongest(GroupOf(s, l[|l| - 1].group), f, v);
    }
  }

  lemma {:induction false} SumOfNothing(m: map<ClusterKey, real>)
    requires forall k | k in m :: m[k] == 0.0
    ensures Sum(m) == 0.0
  {
    if m != map[] {
      var k :| k in m;
      SumTakes(m, k);
      SumOfNothing(m - {k});
    }
  }

  lemma SilentMass(s: set<Claim>, file: File, f: Claim -> real, cfg: Config)
    requires cfg.repeatWeights != [] && Silent(s, f)
    ensures Mass(s, file, f, cfg) == 0.0
  {
    forall k | k in file ensures MassIn(s, file[k], f, cfg) == 0.0 { SilentValues(s, file[k], f); }
    SumOfNothing(Masses(s, file, f, cfg));
  }

  lemma WholeShare(x: real)
    requires 0.0 < x
    ensures Share(x, 0.0) == 1.0 && Share(0.0, x) == 0.0
  {
  }

  /** With nothing said against it an estimate is one. */
  lemma Unopposed(s: set<Claim>, file: File, cfg: Config, d: Dim)
    requires cfg.repeatWeights != [] && Silent(s, NegAt(cfg, d)) && EstimateOf(AbilityOf(s, file, cfg, d), cfg).Some?
    ensures EstimateOf(AbilityOf(s, file, cfg, d), cfg).value == 1.0
  {
    SilentMass(s, file, NegAt(cfg, d), cfg);
    OneSideOnly(AbilityOf(s, file, cfg, d), cfg);
  }

  /** With nothing said for it an estimate is zero. */
  lemma Unsupported(s: set<Claim>, file: File, cfg: Config, d: Dim)
    requires cfg.repeatWeights != [] && Silent(s, PosAt(cfg, d)) && EstimateOf(AbilityOf(s, file, cfg, d), cfg).Some?
    ensures EstimateOf(AbilityOf(s, file, cfg, d), cfg).value == 0.0
  {
    SilentMass(s, file, PosAt(cfg, d), cfg);
    OneSideOnly(AbilityOf(s, file, cfg, d), cfg);
  }

  lemma OneSideOnly(a: Ability, cfg: Config)
    requires EstimateOf(a, cfg).Some?
    ensures a.neg == 0.0 ==> EstimateOf(a, cfg).value == 1.0
    ensures a.pos == 0.0 ==> EstimateOf(a, cfg).value == 0.0
  {
    WholeShare(a.pos + a.neg);
  }

  predicate Judgeable(d: Dim) {
    d == Accuracy || d == PragmaticControl
  }

  /** Full successes say nothing against any dimension but the judged ones: their estimates are one. */
  lemma SuccessSettles(s: set<Claim>, file: File, cfg: Config, d: Dim)
    requires cfg.repeatWeights != [] && !Judgeable(d)
    requires forall c | c in s :: c.polarity == Positive && c.outcome != Partial
    requires EstimateOf(AbilityOf(s, file, cfg, d), cfg).Some?
    ensures EstimateOf(AbilityOf(s, file, cfg, d), cfg).value == 1.0
  {
    forall c | c in s ensures NegAt(cfg, d)(c) == 0.0 {}
    Unopposed(s, file, cfg, d);
  }

  /** Failures say nothing for any dimension: known estimates are zero. */
  lemma FailureSettles(s: set<Claim>, file: File, cfg: Config, d: Dim)
    requires cfg.repeatWeights != [] && forall c | c in s :: c.polarity == Negative
    requires EstimateOf(AbilityOf(s, file, cfg, d), cfg).Some?
    ensures EstimateOf(AbilityOf(s, file, cfg, d), cfg).value == 0.0
  {
    forall c | c in s ensures PosAt(cfg, d)(c) == 0.0 {}
    Unsupported(s, file, cfg, d);
  }

  // ---- judged quality ------------------------------------------------------------------------

  /** Successes that were all judged alike in a dimension their performances give no weight of their own. */
  ghost predicate JudgedAlike(s: set<Claim>, cfg: Config, d: Dim, q: real)
    requires Judgeable(d)
  {
    forall c | c in s :: JudgedAt(c, cfg, d, q)
  }

  predicate JudgedAt(c: Claim, cfg: Config, d: Dim, q: real)
    requires Judgeable(d)
  {
    && c.polarity == Positive && c.performance in cfg.mapping && Get(cfg.mapping[c.performance], d, 0.0) == 0.0
    && Judgement(c, d).Some? && Clamp(Judgement(c, d).value) == q
  }

  function Judgement(c: Claim, d: Dim): Option<real>
    requires Judgeable(d)
  {
    if d == Accuracy then c.accuracy else c.pragmaticFit
  }

  function Portion(w: real, c: Claim, cfg: Config): real {
    w * OutcomeFactor(c, cfg) * c.confidence * Assist(c, cfg)
  }

  lemma NoPortion(c: Claim, cfg: Config)
    ensures Portion(0.0, c, cfg) == 0.0
  {
  }

  /** Both sides of a success in a judged dimension. */
  lemma SidesOfSuccess(c: Claim, cfg: Config, d: Dim)
    requires Judgeable(d) && CountsPositive(c, cfg)
    ensures Pos(c, cfg, d) == Portion(Get(cfg.mapping[c.performance], d, 0.0), c, cfg) + QualityShare(c, cfg, d, true)
    ensures Neg(c, cfg, d) == QualityShare(c, cfg, d, false)
  {
  }

  /** What a judgement weighs before it is split into good and bad. */
  function Judging(cfg: Config): Claim -> real {
    c => if CountsPositive(c, cfg) && 0.0 < QualityStrength(c, cfg) then QualityStrength(c, cfg) else 0.0
  }

  lemma ShareIsSplit(c: Claim, cfg: Config, d: Dim, q: real)
    requires Judgeable(d) && CountsPositive(c, cfg) && JudgedAt(c, cfg, d, q)
    ensures QualityShare(c, cfg, d, true) == q * Judging(cfg)(c) && QualityShare(c, cfg, d, false) == (1.0 - q) * Judging(cfg)(c)
  {
    Commutes(q, Judging(cfg)(c));
    Commutes(1.0 - q, Judging(cfg)(c));
  }

  lemma Commutes(q: real, x: real)
    ensures q * x == x * q && (x == 0.0 ==> q * x == 0.0)
  {
  }

  lemma JudgementSplits(c: Claim, cfg: Config, d: Dim, q: real)
    requires Judgeable(d) && JudgedAt(c, cfg, d, q)
    ensures ScaledAt(c, Judging(cfg), PosAt(cfg, d), Times(q)) && ScaledAt(c, Judging(cfg), NegAt(cfg, d), Times(1.0 - q))
  {
    if CountsPositive(c, cfg) {
      SidesOfSuccess(c, cfg, d);
      NoPortion(c, cfg);
      ShareIsSplit(c, cfg, d, q);
    } else {
      Unjudged(c, cfg, d);
      Commutes(q, 0.0);
      Commutes(1.0 - q, 0.0);
    }
  }

  lemma Unjudged(c: Claim, cfg: Config, d: Dim)
    requires Judgeable(d) && c.polarity == Positive && !CountsPositive(c, cfg)
    ensures Pos(c, cfg, d) == Neg(c, cfg, d) == Judging(cfg)(c) == 0.0
  {
  }

  /** A common factor goes through, zero included. */
  lemma MassScales(s: set<Claim>, file: File, f: Claim -> real, f': Claim -> real, k: real, cfg: Config)
    requires cfg.repeatWeights != [] && 0.0 <= k && Scaled(s, f, f', Times(k))
    ensures Mass(s, file, f', cfg) == Times(k)(Mass(s, file, f, cfg))
  {
    if k == 0.0 {
      forall c | c in s ensures f'(c) == 0.0 { assert ScaledAt(c, f, f', Times(k)); }
      SilentMass(s, file, f', cfg);
    } else {
      FactorStretches(k);
      MassStretches(s, file, f, f', Times(k), cfg);
    }
  }

  lemma WholeIsShared(q: real, x: real)
    requires 0.0 < Times(q)(x) + Times(1.0 - q)(x)
    ensures Share(Times(q)(x), Times(1.0 - q)(x)) == q
  {
    assert q * x + (1.0 - q) * x == x;
    assert q * x / x == q;
  }

  lemma JudgementsSplit(s: set<Claim>, cfg: Config, d: Dim, q: real)
    requires Judgeable(d) && JudgedAlike(s, cfg, d, q)
    ensures Scaled(s, Judging(cfg), PosAt(cfg, d), Times(q)) && Scaled(s, Judging(cfg), NegAt(cfg, d), Times(1.0 - q))
  {
    forall c | c in s
      ensures ScaledAt(c, Judging(cfg), PosAt(cfg, d), Times(q)) && ScaledAt(c, Judging(cfg), NegAt(cfg, d), Times(1.0 - q))
    {
      assert JudgedAt(c, cfg, d, q);
      JudgementSplits(c, cfg, d, q);
    }
  }

  lemma OneSideJudged(s: set<Claim>, file: File, f: Claim -> real, k: real, cfg: Config)
    requires cfg.repeatWeights != [] && 0.0 <= k && Scaled(s, Judging(cfg), f, Times(k))
    ensures Mass(s, file, f, cfg) == Times(k)(Mass(s, file, Judging(cfg), cfg))
  {
    MassScales(s, file, Judging(cfg), f, k, cfg);
  }

  lemma JudgedMasses(s: set<Claim>, file: File, cfg: Config, d: Dim, q: real) returns (x: real)
    requires cfg.repeatWeights != [] && Judgeable(d) && JudgedAlike(s, cfg, d, q) && 0.0 <= q <= 1.0
    ensures AbilityOf(s, file, cfg, d).pos == Times(q)(x) && AbilityOf(s, file, cfg, d).neg == Times(1.0 - q)(x)
  {
    x := Mass(s, file, Judging(cfg), cfg);
    JudgementsSplit(s, cfg, d, q);
    assert Mass(s, file, PosAt(cfg, d), cfg) == Times(q)(x) by { OneSideJudged(s, file, PosAt(cfg, d), q, cfg); }
    assert Mass(s, file, NegAt(cfg, d), cfg) == Times(1.0 - q)(x) by { OneSideJudged(s, file, NegAt(cfg, d), 1.0 - q, cfg); }
  }

  /** Judged alike, a thousand claims give the judgement back, whatever the groups, clusters, confidences and caps. */
  lemma QualitySettles(s: set<Claim>, file: File, cfg: Config, d: Dim, q: real)
    requires cfg.repeatWeights != [] && Judgeable(d) && JudgedAlike(s, cfg, d, q) && 0.0 <= q <= 1.0
    requires EstimateOf(AbilityOf(s, file, cfg, d), cfg).Some?
    ensures EstimateOf(AbilityOf(s, file, cfg, d), cfg).value == q
  {
    var x := JudgedMasses(s, file, cfg, d, q);
    JudgedShare(AbilityOf(s, file, cfg, d), cfg, q, x);
  }

  /** The same of a whole estimation: successes judged q are reported as q. */
  lemma QualityIsReported(cs: seq<Claim>, t: Target, cfg: Config, strict: bool, r: Option<Estimation>, d: Dim, q: real)
    requires cfg.repeatWeights != [] && Estimated(cs, t, cfg, strict, r) && r.Some? && d in r.value.abilities
    requires Judgeable(d) && JudgedAlike(Active(cs, t), cfg, d, q) && 0.0 <= q <= 1.0
    requires EstimateOf(r.value.abilities[d], cfg).Some?
    ensures EstimateOf(r.value.abilities[d], cfg).value == q
  {
    var ch :| Chosen(Active(cs, t), cfg, ch) && r == Some(EstimationOf(Active(cs, t), cfg, ch));
    QualitySettles(Active(cs, t), ch.file, cfg, d, q);
  }

  lemma JudgedShare(a: Ability, cfg: Config, q: real, x: real)
    requires a.pos == Times(q)(x) && a.neg == Times(1.0 - q)(x) && EstimateOf(a, cfg).Some?
    ensures EstimateOf(a, cfg).value == q
  {
    WholeIsShared(q, x);
  }

  /** A better judgement never says less for the quality, nor more against it. */
  lemma JudgementIsMonotone(c: Claim, cfg: Config, a: real, b: real)
    requires a <= b
    ensures var low, high := c.(accuracy := Some(a)), c.(accuracy := Some(b));
            Pos(low, cfg, Accuracy) <= Pos(high, cfg, Accuracy) && Neg(high, cfg, Accuracy) <= Neg(low, cfg, Accuracy)
    ensures var low, high := c.(pragmaticFit := Some(a)), c.(pragmaticFit := Some(b));
            Pos(low, cfg, PragmaticControl) <= Pos(high, cfg, PragmaticControl)
            && Neg(high, cfg, PragmaticControl) <= Neg(low, cfg, PragmaticControl)
  {
    BetterJudged(c.(accuracy := Some(a)), c.(accuracy := Some(b)), cfg, Accuracy);
    BetterJudged(c.(pragmaticFit := Some(a)), c.(pragmaticFit := Some(b)), cfg, PragmaticControl);
  }

  /** Two claims that differ in one judgement only. */
  predicate JudgedApart(low: Claim, high: Claim, d: Dim)
    requires Judgeable(d)
  {
    && Judgement(low, d).Some? && Judgement(high, d).Some? && Judgement(low, d).value <= Judgement(high, d).value
    && high == (if d == Accuracy then low.(accuracy := high.accuracy) else low.(pragmaticFit := high.pragmaticFit))
  }

  lemma BetterJudged(low: Claim, high: Claim, cfg: Config, d: Dim)
    requires Judgeable(d) && JudgedApart(low, high, d)
    ensures Pos(low, cfg, d) <= Pos(high, cfg, d) && Neg(high, cfg, d) <= Neg(low, cfg, d)
  {
    if CountsPositive(low, cfg) {
      SidesOfSuccess(low, cfg, d);
      SidesOfSuccess(high, cfg, d);
      SamePortion(Get(cfg.mapping[low.performance], d, 0.0), low, high, cfg, d);
      SharesMove(low, high, cfg, d);
    } else {
      NotJudged(low, high, cfg, d);
    }
  }

  lemma NotJudged(low: Claim, high: Claim, cfg: Config, d: Dim)
    requires Judgeable(d) && JudgedApart(low, high, d) && !CountsPositive(low, cfg)
    ensures Pos(low, cfg, d) == Pos(high, cfg, d) && Neg(high, cfg, d) == Neg(low, cfg, d)
  {
  }

  lemma SamePortion(w: real, low: Claim, high: Claim, cfg: Config, d: Dim)
    requires Judgeable(d) && JudgedApart(low, high, d)
    ensures Portion(w, low, cfg) == Portion(w, high, cfg)
  {
    assert OutcomeFactor(low, cfg) == OutcomeFactor(high, cfg) && Assist(low, cfg) == Assist(high, cfg);
    assert low.confidence == high.confidence;
  }

  lemma StrengthIsPortion(c: Claim, cfg: Config)
    ensures QualityStrength(c, cfg) == Portion(Get(cfg.quality, c.performance, 0.0), c, cfg)
  {
  }

  lemma ClampGrows(x: real, y: real)
    requires x <= y
    ensures Clamp(x) <= Clamp(y)
  {
  }

  lemma SharesMove(low: Claim, high: Claim, cfg: Config, d: Dim)
    requires Judgeable(d) && JudgedApart(low, high, d)
    ensures QualityShare(low, cfg, d, true) <= QualityShare(high, cfg, d, true)
    ensures QualityShare(high, cfg, d, false) <= QualityShare(low, cfg, d, false)
  {
    StrengthIsPortion(low, cfg);
    StrengthIsPortion(high, cfg);
    SamePortion(Get(cfg.quality, low.performance, 0.0), low, high, cfg, d);
    ClampGrows(Judgement(low, d).value, Judgement(high, d).value);
    ShareMoves(low, high, cfg, d, QualityStrength(low, cfg));
  }

  lemma ShareMoves(low: Claim, high: Claim, cfg: Config, d: Dim, k: real)
    requires Judgeable(d) && Judgement(low, d).Some? && Judgement(high, d).Some?
    requires k == QualityStrength(low, cfg) == QualityStrength(high, cfg)
    requires Clamp(Judgement(low, d).value) <= Clamp(Judgement(high, d).value)
    ensures QualityShare(low, cfg, d, true) <= QualityShare(high, cfg, d, true)
    ensures QualityShare(high, cfg, d, false) <= QualityShare(low, cfg, d, false)
  {
    var p, q := Clamp(Judgement(low, d).value), Clamp(Judgement(high, d).value);
    ShareParts(low, cfg, d, k);
    ShareParts(high, cfg, d, k);
    if 0.0 < k {
      TimesGrows(k, p, q);
      TimesGrows(k, 1.0 - q, 1.0 - p);
    }
  }

  lemma TimesGrows(k: real, x: real, y: real)
    requires 0.0 <= k && x <= y
    ensures Times(k)(x) <= Times(k)(y)
  {
    Monotone(k, x, y);
  }

  lemma ShareParts(c: Claim, cfg: Config, d: Dim, k: real)
    requires Judgeable(d) && Judgement(c, d).Some? && QualityStrength(c, cfg) == k
    ensures QualityShare(c, cfg, d, true) == if k <= 0.0 then 0.0 else Times(k)(Clamp(Judgement(c, d).value))
    ensures QualityShare(c, cfg, d, false) == if k <= 0.0 then 0.0 else Times(k)(1.0 - Clamp(Judgement(c, d).value))
  {
  }

  // ---- what failures and repairs tell --------------------------------------------------------------

  /** Everything one failure can weigh. */
  function Blame(c: Claim, cfg: Config): real {
    OutcomeFactor(c, cfg) * c.confidence * ErrorFactor(c, cfg)
  }

  /** Unsure and abstaining claims tell nothing, and failures nothing good. */
  lemma NothingToTell(c: Claim, cfg: Config, d: Dim)
    requires c.confidence < cfg.minConfidence || c.outcome == Abstain || c.polarity == Negative
    ensures Pos(c, cfg, d) == 0.0
    ensures c.polarity != Negative || c.confidence < cfg.minConfidence || c.outcome == Abstain ==> Neg(c, cfg, d) == 0.0
  {
  }

  predicate Fails(c: Claim, cfg: Config, performance: Performance) {
    && c.polarity == Negative && c.performance == performance
    && cfg.minConfidence <= c.confidence && c.outcome != Abstain
  }

  lemma Weighs(c: Claim, cfg: Config, d: Dim)
    requires Fails(c, cfg, c.performance)
    ensures Neg(c, cfg, d) == Times(NegativeWeight(c, d))(Blame(c, cfg))
  {
    Regroups(NegativeWeight(c, d), OutcomeFactor(c, cfg), c.confidence, ErrorFactor(c, cfg));
  }

  lemma Regroups(w: real, a: real, b: real, e: real)
    ensures w * a * b * e == w * (a * b * e)
  {
  }

  /** A failed attempt tells of the tier it was made at, and of no easier one but the tier right below. */
  lemma FailedAttemptsLand(c: Claim, cfg: Config)
    requires Fails(c, cfg, FailedAttempt)
    ensures Neg(c, cfg, Recognition) == Neg(c, cfg, Accuracy) == Neg(c, cfg, PragmaticControl) == 0.0
    ensures c.support == NoSupport || c.support == ContextOnly ==> Neg(c, cfg, GuidedProduction) == 0.0
    ensures c.support.OtherSupport? ==>
              && Neg(c, cfg, GuidedProduction) == Blame(c, cfg)
              && Neg(c, cfg, IndependentProduction) == Neg(c, cfg, SpontaneousProduction) == 0.0
    ensures !c.support.OtherSupport? && c.natural ==>
              && Neg(c, cfg, SpontaneousProduction) == Blame(c, cfg)
              && Neg(c, cfg, IndependentProduction) == 0.75 * Blame(c, cfg)
    ensures !c.support.OtherSupport? && !c.natural ==>
              && Neg(c, cfg, IndependentProduction) == Blame(c, cfg)
              && Neg(c, cfg, SpontaneousProduction) == 0.0
  {
    forall d ensures Neg(c, cfg, d) == Times(NegativeWeight(c, d))(Blame(c, cfg)) { Weighs(c, cfg, d); }
  }

  /** A misuse tells of accuracy first, and half as much of the production it came from. */
  lemma MisusesLand(c: Claim, cfg: Config)
    requires Fails(c, cfg, Misuse)
    ensures Neg(c, cfg, Accuracy) == Blame(c, cfg) && Neg(c, cfg, Recognition) == Neg(c, cfg, PragmaticControl) == 0.0
    ensures var half := 0.5 * Blame(c, cfg);
            var low := c.support == NoSupport || c.support == ContextOnly;
            && Neg(c, cfg, GuidedProduction) == (if low then 0.0 else half)
            && Neg(c, cfg, IndependentProduction) == (if low then half else 0.0)
            && Neg(c, cfg, SpontaneousProduction) == (if low && c.natural then half else 0.0)
  {
    forall d ensures Neg(c, cfg, d) == Times(NegativeWeight(c, d))(Blame(c, cfg)) { Weighs(c, cfg, d); }
  }

  /** A failed recognition tells of recognition only. */
  lemma MissesLand(c: Claim, cfg: Config, d: Dim)
    requires Fails(c, cfg, RecognitionTask)
    ensures Neg(c, cfg, d) == if d == Recognition then Blame(c, cfg) else 0.0
  {
    Weighs(c, cfg, d);
  }

  // A repair the learner made unasked counts half for spontaneous production, and nothing else of it
  // is different.
  lemma UnaskedRepairCountsHalf(c: Claim, cfg: Config, d: Dim)
    requires CountsPositive(c, cfg) && c.outcome != Partial
    ensures var asked, unasked := c.(spontaneity := IndependentTry), c.(spontaneity := SpontaneousTry);
            Pos(unasked, cfg, d) - Pos(asked, cfg, d) ==
              if c.performance == SelfRepair && c.exposure != FullExposure && d == SpontaneousProduction then Portion(0.5, c, cfg)
              else 0.0
  {
    var asked, unasked := c.(spontaneity := IndependentTry), c.(spontaneity := SpontaneousTry);
    SameWeights(asked, c, cfg, d);
    SameWeights(unasked, c, cfg, d);
  }

  lemma PartsOf(c: Claim, cfg: Config, d: Dim)
    requires CountsPositive(c, cfg)
    ensures Pos(c, cfg, d) == Portion(Get(cfg.mapping[c.performance], d, 0.0), c, cfg)
                              + (if SpontaneousRepair(c) && d.SpontaneousProduction? then Portion(0.5, c, cfg) else 0.0)
                              + QualityShare(c, cfg, d, true)
  {
  }

  lemma SamePortionUnasked(w: real, a: Claim, c: Claim, cfg: Config)
    requires a == c.(spontaneity := a.spontaneity)
    ensures Portion(w, a, cfg) == Portion(w, c, cfg)
  {
    assert OutcomeFactor(a, cfg) == OutcomeFactor(c, cfg) && Assist(a, cfg) == Assist(c, cfg);
    assert a.confidence == c.confidence;
  }

  lemma SameShare(a: Claim, c: Claim, cfg: Config, d: Dim)
    requires Judged(a, d) == Judged(c, d) && QualityStrength(a, cfg) == QualityStrength(c, cfg)
    ensures QualityShare(a, cfg, d, true) == QualityShare(c, cfg, d, true)
  {
  }

  lemma SameWeights(a: Claim, c: Claim, cfg: Config, d: Dim)
    requires a == c.(spontaneity := a.spontaneity) && CountsPositive(c, cfg)
    ensures Pos(a, cfg, d) == Portion(Get(cfg.mapping[c.performance], d, 0.0), c, cfg)
                              + (if SpontaneousRepair(a) && d.SpontaneousProduction? then Portion(0.5, c, cfg) else 0.0)
                              + QualityShare(c, cfg, d, true)
  {
    PartsOf(a, cfg, d);
    SamePortionUnasked(Get(cfg.mapping[c.performance], d, 0.0), a, c, cfg);
    SamePortionUnasked(0.5, a, c, cfg);
    SamePortionUnasked(Get(cfg.quality, c.performance, 0.0), a, c, cfg);
    StrengthIsPortion(a, cfg);
    StrengthIsPortion(c, cfg);
    SameShare(a, c, cfg, d);
  }

  /** The tier a performance is about; misuses and failed attempts have none of their own. */
  predicate OwnTier(p: Performance, d: Dim) {
    || (p == RecognitionTask && d == Recognition) || (p == Guided && d == GuidedProduction)
    || ((p == Independent || p == SelfRepair) && d == IndependentProduction)
    || (p == Spontaneous && d == SpontaneousProduction)
  }

  /** A half success leaves a doubt at its own tier and, for an unasked repair, about spontaneous production; a full one none. */
  lemma HalfSuccessLeavesDoubt(c: Claim, cfg: Config, d: Dim)
    requires CountsPositive(c, cfg) && !Judgeable(d)
    ensures c.outcome == Partial && OwnTier(c.performance, d) ==>
              Neg(c, cfg, d) == Get(cfg.mapping[c.performance], d, 1.0) * cfg.partialResidual * c.confidence * Assist(c, cfg)
    ensures c.outcome == Partial && !OwnTier(c.performance, d) && !(c.performance == SelfRepair && d == SpontaneousProduction) ==>
              Neg(c, cfg, d) == 0.0
    ensures c.outcome != Partial ==> Neg(c, cfg, d) == 0.0
  {
  }

  // ---- correlated claims -------------------------------------------------------------------------------

  /** A place neither claim names is the same one unless one of them is new; new ones are the group's own. */
  predicate SamePlace(c: Option<Word>, d: Option<Word>, cNew: bool, dNew: bool, sameGroup: bool) {
    c == d && (c.None? ==> cNew == dNew && (cNew ==> sameGroup))
  }

  predicate NewContext(c: Claim) {
    CrossContext in c.qualifiers || HighContextNovelty in c.qualifiers
  }

  // Two claims are correlated when they come from one teaching moment, or outside of teaching from one
  // conversation on one day with one persona, in the same context and realization.
  lemma CorrelatedExactly(c: Claim, d: Claim)
    ensures KeyOf(c) == KeyOf(d) <==>
              if c.moment.Some? || d.moment.Some? then c.moment == d.moment
              else
                && c.conversation == d.conversation && c.persona == d.persona && c.timestamp / DAY == d.timestamp / DAY
                && SamePlace(c.context, d.context, NewContext(c), NewContext(d), c.group == d.group)
                && SamePlace(c.realization, d.realization, NovelRealization in c.qualifiers, NovelRealization in d.qualifiers,
                             c.group == d.group)
  {
  }

  /** The variety behind an estimate is that of its claims: of their days, contexts, named personas and realizations. */
  lemma VarietyExactly(s: set<Claim>)
    ensures var v := VarietyOf(s);
            && (forall day :: day in v.days <==> exists c :: c in s && c.timestamp / DAY == day)
            && (forall x :: x in v.contexts <==> exists c :: c in s && c.context == x)
            && (forall x :: x in v.realizations <==> exists c :: c in s && c.realization == x)
            && (forall x :: x in v.personas <==> exists c :: c in s && c.persona == Some(x))
  {
  }
}
