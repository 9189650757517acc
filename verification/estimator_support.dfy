/** What transfer and support dependency tell when all observations tell the same. */
module EstimatorSupport {
  import opened EstimatorClaims
  import opened EstimatorMass
  import opened EstimatorFiles
  import opened EstimatorRange
  import opened EstimatorMeaning
  import opened EstimatorTheorems
  import opened Ordering

  // ---- support dependency --------------------------------------------------------------------------

  ghost predicate Linear(h: real -> real) {
    h(0.0) == 0.0 && forall a, w, v :: Lin(h, a, w, v)
  }

  lemma FactorIsLinear(k: real)
    ensures Linear(Times(k))
  {
    forall a, w, v ensures Lin(Times(k), a, w, v) { Distributes(k, a, w, v); }
  }

  ghost predicate Alike(file: File, f: Claim -> real, g: Claim -> real, h: real -> real) {
    forall key | key in file :: forall c | c in file[key] :: ScaledAt(c, g, f, h)
  }

  lemma {:induction false} DiminishedFollows(l: seq<Claim>, f: Claim -> real, g: Claim -> real, h: real -> real, cfg: Config)
    requires cfg.repeatWeights != [] && Linear(h) && forall c | c in l :: ScaledAt(c, g, f, h)
    ensures Diminished(Each(l, f), cfg) == h(Diminished(Each(l, g), cfg))
  {
    if l != [] {
      var n := |l| - 1;
      DiminishedFollows(l[..n], f, g, h, cfg);
      assert Each(l, f)[..n] == Each(l[..n], f) && Each(l, g)[..n] == Each(l[..n], g);
      assert ScaledAt(l[n], g, f, h);
      assert Lin(h, Diminished(Each(l[..n], g), cfg), Weight(cfg, n), g(l[n]));
    }
  }

  lemma {:induction false} SumFollows(m: map<ClusterKey, real>, m': map<ClusterKey, real>, h: real -> real)
    requires Linear(h) && m.Keys == m'.Keys && forall key | key in m :: m[key] == h(m'[key])
    ensures Sum(m) == h(Sum(m'))
  {
    if m == map[] {
      assert m' == map[];
    } else {
      var key :| key in m;
      SumTakes(m, key);
      SumTakes(m', key);
      SumFollows(m - {key}, m' - {key}, h);
      assert Lin(h, Sum(m' - {key}), 1.0, m'[key]);
    }
  }

  lemma RepeatsFollow(file: File, f: Claim -> real, g: Claim -> real, h: real -> real, cfg: Config)
    requires cfg.repeatWeights != [] && Linear(h) && Alike(file, f, g, h)
    ensures Repeats(file, f, cfg) == h(Repeats(file, g, cfg))
  {
    forall key | key in file ensures Diminished(Each(file[key], f), cfg) == h(Diminished(Each(file[key], g), cfg)) {
      DiminishedFollows(file[key], f, g, h, cfg);
    }
    SumFollows(RepeatMasses(file, f, cfg), RepeatMasses(file, g, cfg), h);
  }

  ghost predicate InFile(file: File, c: Claim) {
    exists key :: key in file && c in file[key]
  }

  lemma WholeBurden(dep: Dependency, cfg: Config, b: real)
    requires 0.0 < cfg.supportMinMass && dep.kinds.Keys == KINDS && dep.num == Times(b)(dep.den)
    requires SupportEstimate(dep, cfg).Some?
    ensures SupportEstimate(dep, cfg).value == b
  {
    assert b * dep.den / dep.den == b;
  }

  /** Observations of one burden give that burden, whatever the clusters, repeats and confidences. */
  lemma BurdenSettles(file: File, cfg: Config, b: real)
    requires cfg.repeatWeights != [] && 0.0 < cfg.supportMinMass
    requires forall c | InFile(file, c) :: Burden(c, cfg) == b
    requires SupportEstimate(DependencyOf(file, cfg), cfg).Some?
    ensures SupportEstimate(DependencyOf(file, cfg), cfg).value == b
  {
    BurdensFollow(file, cfg, b);
    DependencySettles(file, cfg, b, Times(b));
  }

  lemma BurdensFollow(file: File, cfg: Config, b: real)
    requires forall c | InFile(file, c) :: Burden(c, cfg) == b
    ensures Linear(Times(b)) && Alike(file, BurdenAt(cfg), EvidenceAt(cfg), Times(b))
  {
    FactorIsLinear(b);
    forall key, c | key in file && c in file[key] ensures ScaledAt(c, EvidenceAt(cfg), BurdenAt(cfg), Times(b)) {
      assert InFile(file, c);
      LoadedBy(b, Evidence(c, cfg));
    }
  }

  lemma LoadedBy(b: real, e: real)
    ensures Loaded(b, e) == Times(b)(e)
  {
  }

  lemma DependencySettles(file: File, cfg: Config, b: real, h: real -> real)
    requires cfg.repeatWeights != [] && 0.0 < cfg.supportMinMass && h == Times(b)
    requires Linear(h) && Alike(file, BurdenAt(cfg), EvidenceAt(cfg), h)
    requires SupportEstimate(DependencyOf(file, cfg), cfg).Some?
    ensures SupportEstimate(DependencyOf(file, cfg), cfg).value == b
  {
    assert DependencyOf(file, cfg).num == h(DependencyOf(file, cfg).den) by {
      RepeatsFollow(file, BurdenAt(cfg), EvidenceAt(cfg), h, cfg);
    }
    WholeBurden(DependencyOf(file, cfg), cfg, b);
  }

  predicate Unaided(c: Claim, cfg: Config) {
    c.polarity == Positive && Get(cfg.supportBurden, c.support, 0.0) == 0.0 && !c.exposure.PartialExposure? && !c.exposure.FullExposure?
  }

  /** Successes without any help show no dependency. */
  lemma UnaidedIsFree(file: File, cfg: Config)
    requires cfg.repeatWeights != [] && 0.0 < cfg.supportMinMass
    requires forall c | InFile(file, c) :: Unaided(c, cfg)
    requires SupportEstimate(DependencyOf(file, cfg), cfg).Some?
    ensures SupportEstimate(DependencyOf(file, cfg), cfg).value == 0.0
  {
    forall c | InFile(file, c) ensures Burden(c, cfg) == 0.0 { assert Unaided(c, cfg); }
    BurdenSettles(file, cfg, 0.0);
  }

  lemma KindIsSilent(file: File, cfg: Config, kind: Kind)
    requires cfg.repeatWeights != [] && forall c | InFile(file, c) :: KindOf(c, cfg) != kind
    ensures Repeats(file, KindAt(cfg, kind), cfg) == 0.0
  {
    var none := (x: real) => 0.0;
    forall a, w, v ensures Lin(none, a, w, v) { assert Plus(0.0, w, 0.0) == 0.0; }
    forall key, c | key in file && c in file[key] ensures ScaledAt(c, EvidenceAt(cfg), KindAt(cfg, kind), none) {
      assert InFile(file, c);
    }
    RepeatsFollow(file, KindAt(cfg, kind), EvidenceAt(cfg), none, cfg);
  }

  /** Failures alone, however many, say nothing of dependency. */
  lemma FailuresAloneTellNothing(file: File, cfg: Config)
    requires cfg.repeatWeights != [] && 0.0 < cfg.supportMinMass
    requires forall c | InFile(file, c) :: c.polarity == Negative
    ensures SupportEstimate(DependencyOf(file, cfg), cfg) == None
  {
    KindIsSilent(file, cfg, LowSuccess);
    KindIsSilent(file, cfg, AssistedSuccess);
  }

  /** Nor does success with help, unless there is a failure without: the learner may not need the help. */
  lemma HelpAloneTellsNothing(file: File, cfg: Config)
    requires cfg.repeatWeights != [] && 0.0 < cfg.supportMinMass
    requires forall c | InFile(file, c) ::
               if c.polarity == Positive then c.exposure.PartialExposure? || c.exposure.FullExposure? else c.support.OtherSupport?
    ensures SupportEstimate(DependencyOf(file, cfg), cfg) == None
  {
    forall c | InFile(file, c) ensures KindOf(c, cfg) != LowSuccess && KindOf(c, cfg) != LowFailure {}
    KindIsSilent(file, cfg, LowSuccess);
    KindIsSilent(file, cfg, LowFailure);
  }

  lemma FiledAreObserved(s: set<Claim>, cfg: Config, speakers: set<Claim>, file: File, c: Claim)
    requires SupportChosen(s, cfg, speakers, file) && InFile(file, c)
    ensures c in s && Diagnostic(c, cfg) && Observed(c)
  {
    var key :| key in file && c in file[key];
    assert c in KeyedBy(Observations(speakers), key);
    assert MostConfident(s, cfg, c);
  }

  lemma SupportBehind(cs: seq<Claim>, t: Target, cfg: Config, strict: bool, r: Option<Estimation>)
      returns (speakers: set<Claim>, file: File)
    requires cfg.repeatWeights != [] && Estimated(cs, t, cfg, strict, r) && r.Some?
    ensures SupportChosen(Active(cs, t), cfg, speakers, file) && r.value.dependency == DependencyOf(file, cfg)
  {
    var ch :| Chosen(Active(cs, t), cfg, ch) && r == Some(EstimationOf(Active(cs, t), cfg, ch));
    speakers, file := ch.speakers, ch.supportFile;
  }

  ghost predicate AllProduced(cs: seq<Claim>, t: Target, p: Claim -> bool) {
    forall c | c in Active(cs, t) && Production(c.performance) :: p(c)
  }

  lemma FiledAreProduced(cs: seq<Claim>, t: Target, cfg: Config, speakers: set<Claim>, file: File, p: Claim -> bool)
    requires SupportChosen(Active(cs, t), cfg, speakers, file) && AllProduced(cs, t, p)
    ensures forall c | InFile(file, c) :: p(c)
  {
    forall c | InFile(file, c) ensures p(c) { FiledAreObserved(Active(cs, t), cfg, speakers, file, c); }
  }

  function UnaidedFn(cfg: Config): Claim -> bool { c => Unaided(c, cfg) }
  function FailingFn(): Claim -> bool { (c: Claim) => c.polarity == Negative }

  /** Reported of a whole estimation: unaided successes show no dependency. */
  lemma NoDependencyIsReported(cs: seq<Claim>, t: Target, cfg: Config, strict: bool, r: Option<Estimation>)
    requires cfg.repeatWeights != [] && 0.0 < cfg.supportMinMass && Estimated(cs, t, cfg, strict, r) && r.Some?
    requires AllProduced(cs, t, UnaidedFn(cfg))
    ensures r.value.dependency.kinds.Keys == KINDS
    ensures SupportEstimate(r.value.dependency, cfg).Some? ==> SupportEstimate(r.value.dependency, cfg).value == 0.0
  {
    var speakers, file := SupportBehind(cs, t, cfg, strict, r);
    FiledAreProduced(cs, t, cfg, speakers, file, UnaidedFn(cfg));
    if SupportEstimate(r.value.dependency, cfg).Some? { UnaidedIsFree(file, cfg); }
  }

  /** And nothing is reported from failures alone. */
  lemma FailuresReportNothing(cs: seq<Claim>, t: Target, cfg: Config, strict: bool, r: Option<Estimation>)
    requires cfg.repeatWeights != [] && 0.0 < cfg.supportMinMass && Estimated(cs, t, cfg, strict, r) && r.Some?
    requires AllProduced(cs, t, FailingFn())
    ensures r.value.dependency.kinds.Keys == KINDS && SupportEstimate(r.value.dependency, cfg) == None
  {
    var speakers, file := SupportBehind(cs, t, cfg, strict, r);
    FiledAreProduced(cs, t, cfg, speakers, file, FailingFn());
    FailuresAloneTellNothing(file, cfg);
  }

  // A failure is the heaviest dependency there is: with successes of burden b or more and any failures
  // the estimate is b or more.
  lemma DependencyAtLeast(s: set<Claim>, cfg: Config, speakers: set<Claim>, file: File, b: real)
    requires ProfileFile(cfg) && SupportChosen(s, cfg, speakers, file) && 0.0 <= b <= 1.0
    requires forall c | InFile(file, c) :: c.polarity == Negative || b <= Burden(c, cfg)
    requires SupportEstimate(DependencyOf(file, cfg), cfg).Some?
    ensures b <= SupportEstimate(DependencyOf(file, cfg), cfg).value
  {
    var least := LeastAt(b, cfg);
    forall k | k in file ensures Below(file[k], least, BurdenAt(cfg)) {
      LeastIsBelow(s, cfg, speakers, file, k, b);
    }
    RepeatsGrow(file, least, BurdenAt(cfg), cfg);
    FactorIsLinear(b);
    forall key, c | key in file && c in file[key] ensures ScaledAt(c, EvidenceAt(cfg), least, Times(b)) {}
    RepeatsFollow(file, least, EvidenceAt(cfg), Times(b), cfg);
    QuotientAtLeast(DependencyOf(file, cfg).num, DependencyOf(file, cfg).den, b);
  }

  function LeastAt(b: real, cfg: Config): Claim -> real { c => Times(b)(Evidence(c, cfg)) }

  lemma LeastIsBelow(s: set<Claim>, cfg: Config, speakers: set<Claim>, file: File, k: ClusterKey, b: real)
    requires ProfileFile(cfg) && SupportChosen(s, cfg, speakers, file) && k in file && 0.0 <= b <= 1.0
    requires forall c | InFile(file, c) :: c.polarity == Negative || b <= Burden(c, cfg)
    ensures Below(file[k], LeastAt(b, cfg), BurdenAt(cfg))
  {
    forall i | 0 <= i < |file[k]| ensures BelowAt(file[k][i], LeastAt(b, cfg), BurdenAt(cfg)) {
      var c := file[k][i];
      assert InFile(file, c);
      FiledAreObserved(s, cfg, speakers, file, c);
      EvidenceNonNegative(c, cfg);
      LoadAtLeast(b, Burden(c, cfg), Evidence(c, cfg));
    }
  }

  lemma LoadAtLeast(b: real, burden: real, e: real)
    requires 0.0 <= b <= burden && 0.0 <= e
    ensures 0.0 <= Times(b)(e) <= Loaded(burden, e)
  {
    ProductGrows(b, burden, e, e);
  }

  lemma QuotientAtLeast(num: real, den: real, b: real)
    requires Times(b)(den) <= num && 0.0 < den
    ensures b <= num / den
  {
    QuotientGrows(b * den, num, den);
  }

  // What an observation weighs is proportional to the evaluator's confidence and to what its outcome
  // counts, and of a failure to what its attribution counts; a success is weighed without that.
  lemma EvidenceIsProportional(c: Claim, cfg: Config, o: Outcome, x: real, w: Word)
    ensures Evidence(c.(outcome := o), cfg) * OutcomeFactor(c, cfg) == Evidence(c, cfg) * OutcomeFactor(c.(outcome := o), cfg)
    ensures Evidence(c.(confidence := x), cfg) * c.confidence == Evidence(c, cfg) * x
    ensures c.polarity == Positive ==> Evidence(c.(attribution := w), cfg) == Evidence(c, cfg)
    ensures c.polarity == Negative ==>
              Evidence(c.(attribution := w), cfg) * ErrorFactor(c, cfg) == Evidence(c, cfg) * ErrorFactor(c.(attribution := w), cfg)
  {
    var a, k, e := OutcomeFactor(c, cfg), c.confidence, ErrorFactor(c, cfg);
    SwapFactor(k, e, a, OutcomeFactor(c.(outcome := o), cfg));
    SwapFactor(e, a, k, x);
    SwapFactor(k, a, e, ErrorFactor(c.(attribution := w), cfg));
  }

  lemma SwapFactor(a: real, b: real, x: real, y: real)
    ensures a * x * y == a * y * x && a * b * x * y == a * b * y * x && x * a * y == y * a * x && x * b * y == y * b * x
    ensures x * a * b * y == y * a * b * x && a * x * b * y == a * y * b * x
  {
  }

  // ---- transfer ------------------------------------------------------------------------------------------

  ghost predicate OneOf<T(!new)>(s: set<T>) {
    forall x, y | x in s && y in s :: x == y
  }

  lemma OneOfIsSmall<T(!new)>(s: set<T>)
    requires OneOf(s)
    ensures |s| <= 1
  {
    if s != {} {
      var x := Pick(s);
      assert s == {x};
    }
  }

  ghost predicate Uniform(strong: map<ClusterKey, Claim>) {
    forall k, j | k in strong && j in strong ::
      && strong[k].context == strong[j].context && strong[k].persona == strong[j].persona
      && strong[k].realization == strong[j].realization
  }

  lemma UniformIsNarrow(strong: map<ClusterKey, Claim>, base: Option<ClusterKey>, worst: map<ClusterKey, real>, cfg: Config)
    requires Uniform(strong) && (base.Some? ==> base.value in strong)
    ensures var t := TransferOf(strong, base, worst, cfg); |t.contexts| <= 1 && |t.personas| <= 1 && |t.realizations| <= 1
  {
    OneOfIsSmall(set k | k in strong :: strong[k].context);
    OneOfIsSmall(set k | k in strong :: strong[k].persona);
    OneOfIsSmall(set k | k in strong :: strong[k].realization);
  }

  // However many strong retrievals there are, without two contexts, personas or realizations among them
  // nothing is said of transfer.
  lemma SameConditionsTellNoTransfer(
      s: set<Claim>, cfg: Config, strong: map<ClusterKey, Claim>, base: Option<ClusterKey>, worst: map<ClusterKey, real>,
      capability: bool)
    requires TransferChosen(s, cfg, strong, base, worst)
    requires forall c, d | c in s && d in s && StrongRetrieval(c, cfg) && StrongRetrieval(d, cfg) ::
               c.context == d.context && c.persona == d.persona && c.realization == d.realization
    ensures TransferEstimate(TransferOf(strong, base, worst, cfg), capability, cfg) == None
  {
    forall k | k in strong ensures strong[k] in s && StrongRetrieval(strong[k], cfg) {
      assert Represents(StrongClaims(s, cfg), StrengthAt(cfg), k, strong[k]);
    }
    UniformIsNarrow(strong, base, worst, cfg);
  }

  /** Nor inside a single cluster, such as one teaching moment. */
  lemma OneClusterTellsNoTransfer(
      s: set<Claim>, cfg: Config, strong: map<ClusterKey, Claim>, base: Option<ClusterKey>, worst: map<ClusterKey, real>,
      capability: bool)
    requires TransferChosen(s, cfg, strong, base, worst)
    requires forall c, d | c in s && d in s && StrongRetrieval(c, cfg) && StrongRetrieval(d, cfg) :: KeyOf(c) == KeyOf(d)
    ensures TransferEstimate(TransferOf(strong, base, worst, cfg), capability, cfg) == None
  {
    forall k, j | k in strong && j in strong ensures k == j {
      assert Represents(StrongClaims(s, cfg), StrengthAt(cfg), k, strong[k]);
      assert Represents(StrongClaims(s, cfg), StrengthAt(cfg), j, strong[j]);
    }
    OneOfIsSmall(strong.Keys);
  }

  /** The clusters that speak of transfer are those with a sure, little assisted success at unaided production. */
  lemma StrongExactly(s: set<Claim>, cfg: Config, strong: map<ClusterKey, Claim>, base: Option<ClusterKey>, worst: map<ClusterKey, real>)
    requires TransferChosen(s, cfg, strong, base, worst)
    ensures forall c | c in s && c.polarity == Positive && c.outcome == Success && 0.7 <= c.confidence
                       && (c.performance == Independent || c.performance == Spontaneous
                           || (c.performance == SelfRepair && c.spontaneity != OtherTry))
                       && 0.7 <= Get(cfg.supportFactor, c.support, 1.0) && 0.7 <= Get(cfg.exposureFactor, c.exposure, 1.0) ::
              KeyOf(c) in strong && Strength(c, cfg) <= Strength(strong[KeyOf(c)], cfg)
    ensures forall k | k in strong ::
              && strong[k] in s && KeyOf(strong[k]) == k && strong[k].polarity == Positive && strong[k].outcome == Success
              && 0.7 <= strong[k].confidence && strong[k].performance in {Independent, Spontaneous, SelfRepair}
              && (strong[k].performance == SelfRepair ==> strong[k].spontaneity != OtherTry)
              && 0.7 <= Get(cfg.supportFactor, strong[k].support, 1.0) && 0.7 <= Get(cfg.exposureFactor, strong[k].exposure, 1.0)
  {
    forall k | k in strong ensures Represents(StrongClaims(s, cfg), StrengthAt(cfg), k, strong[k]) {}
    forall c | c in s && StrongRetrieval(c, cfg) ensures KeyOf(c) in strong && Strength(c, cfg) <= Strength(strong[KeyOf(c)], cfg) {
      assert c in KeyedBy(StrongClaims(s, cfg), KeyOf(c));
      assert Represents(StrongClaims(s, cfg), StrengthAt(cfg), KeyOf(c), strong[KeyOf(c)]);
      assert NoStronger(c, strong[KeyOf(c)], StrengthAt(cfg));
    }
  }

  /** Used under other conditions than the base, or said to be. */
  predicate Elsewhere(c: Claim, base: Claim) {
    || !(c.context == base.context && c.persona == base.persona && c.realization == base.realization)
    || c.qualifiers * {CrossContext, CrossPersona, NovelRealization, CrossModality} != {}
  }

  lemma {:induction false} SumOfPositives(m: map<ClusterKey, real>)
    requires forall k | k in m :: 0.0 < m[k]
    ensures Sum(m) == 0.0 <==> m == map[]
    ensures 0.0 <= Sum(m)
  {
    if m != map[] {
      var k :| k in m;
      SumTakes(m, k);
      SumOfPositives(m - {k});
    }
  }

  // Success speaks for transfer if and only if some cluster shows it elsewhere than the first one, which
  // is the earliest: uses under the first conditions never add up to transfer.
  lemma TransferNeedsElsewhere(
      s: set<Claim>, cfg: Config, strong: map<ClusterKey, Claim>, base: Option<ClusterKey>, worst: map<ClusterKey, real>)
    requires TransferChosen(s, cfg, strong, base, worst)
    ensures 0.0 <= TransferOf(strong, base, worst, cfg).pos
    ensures 0.0 < TransferOf(strong, base, worst, cfg).pos <==>
              exists b, k :: b in strong && k in strong && b != k && base == Some(b) && Elsewhere(strong[k], strong[b])
    ensures base.Some? ==> base.value in strong && forall k | k in strong :: strong[base.value].timestamp <= strong[k].timestamp
  {
    var m := Transferred(strong, base, cfg);
    forall k | k in strong ensures 0.0 < Strength(strong[k], cfg) {
      assert Represents(StrongClaims(s, cfg), StrengthAt(cfg), k, strong[k]);
      PositiveProduct(strong[k].confidence, Assist(strong[k], cfg));
    }
    SumOfPositives(m);
    if base.Some? {
      forall k | k in strong ensures Elsewhere(strong[k], strong[base.value]) <==> Diverse(strong[k], strong[base.value]) {
        CrossesInWords(strong[k]);
      }
      forall k ensures k in m <==> k in strong && k != base.value && Elsewhere(strong[k], strong[base.value]) {}
    }
  }

  lemma PositiveProduct(x: real, y: real)
    requires 0.0 < x && 0.0 < y
    ensures 0.0 < x * y
  {
  }

  lemma CrossesInWords(c: Claim)
    ensures Crosses(c) <==> c.qualifiers * {CrossContext, CrossPersona, NovelRealization, CrossModality} != {}
  {
    var four: set<Qualifier> := {CrossContext, CrossPersona, NovelRealization, CrossModality};
    if c.qualifiers * four != {} {
      var q :| q in c.qualifiers * four;
      assert q in four;
    }
    if Crosses(c) {
      var q :| q in four && q in c.qualifiers;
      assert q in c.qualifiers * four;
    }
  }

  /** A failure to carry a use over: an attempt or a misuse under conditions said to be new. */
  predicate FailsElsewhere(c: Claim) {
    && c.polarity == Negative && c.performance in {FailedAttempt, Misuse}
    && c.qualifiers * {CrossContext, CrossPersona, NovelRealization, CrossModality} != {}
  }

  /** Against transfer speak the failures to carry a use over, each cluster with its worst one. */
  lemma WorstExactly(s: set<Claim>, cfg: Config, strong: map<ClusterKey, Claim>, base: Option<ClusterKey>, worst: map<ClusterKey, real>)
    requires TransferChosen(s, cfg, strong, base, worst)
    ensures forall c | c in s && FailsElsewhere(c) :: KeyOf(c) in worst && FailureStrength(c, cfg) <= worst[KeyOf(c)]
    ensures forall k | k in worst :: exists c :: c in s && FailsElsewhere(c) && KeyOf(c) == k && worst[k] == FailureStrength(c, cfg)
  {
    forall c | c in s ensures FailsElsewhere(c) <==> FailedTransfer(c) { CrossesInWords(c); }
    forall k | k in worst
      ensures exists c :: c in s && FailsElsewhere(c) && KeyOf(c) == k && worst[k] == FailureStrength(c, cfg)
    {
      assert IsMost(KeyedBy(FailedTransfers(s), k), cfg, worst[k]);
      var c :| c in KeyedBy(FailedTransfers(s), k) && FailureStrength(c, cfg) == worst[k];
    }
    forall c | c in s && FailsElsewhere(c) ensures KeyOf(c) in worst && FailureStrength(c, cfg) <= worst[KeyOf(c)] {
      assert c in KeyedBy(FailedTransfers(s), KeyOf(c));
      assert IsMost(KeyedBy(FailedTransfers(s), KeyOf(c)), cfg, worst[KeyOf(c)]);
    }
  }

  /** A failure weighs against transfer what it weighs against ability, but for its outcome. */
  lemma FailureWeighsAsBlame(c: Claim, cfg: Config)
    ensures Blame(c, cfg) == OutcomeFactor(c, cfg) * FailureStrength(c, cfg)
  {
  }
}
