// Which claims speak for their groups, how they are filed by cluster and time, and what the files
// amount to. Ties between equal timestamps are left open: a `Choices` value records one way of
// breaking them, and `ChoicesUnique` says when there is nothing left to choose.
module EstimatorFiles {
  import opened EstimatorClaims
  import opened EstimatorMass
  import opened Ordering

  type File = map<ClusterKey, seq<Claim>>

  // ---- sums over clusters ----------------------------------------------------------------

  ghost function Sum<K(!new)>(m: map<K, real>): real {
    if m == map[] then 0.0 else
      var k :| k in m;
      m[k] + Sum(m - {k})
  }

  lemma {:induction false} SumTakes<K(!new)>(m: map<K, real>, k: K)
    requires k in m
    ensures Sum(m) == m[k] + Sum(m - {k})
  {
    var j :| j in m && Sum(m) == m[j] + Sum(m - {j});
    if j != k {
      SumTakes(m - {j}, k);
      SumTakes(m - {k}, j);
      assert m - {j} - {k} == m - {k} - {j};
    }
  }

  /** Adding a new entry adds its value. */
  lemma SumAdds<K(!new)>(m: map<K, real>, k: K, v: real)
    requires k !in m
    ensures Sum(m[k := v]) == Sum(m) + v
  {
    SumTakes(m[k := v], k);
    assert m[k := v] - {k} == m;
  }

  lemma {:induction false} SumStretches<K(!new)>(m: map<K, real>, m': map<K, real>, h: real -> real)
    requires Stretches(h) && m'.Keys == m.Keys && forall k | k in m :: m'[k] == h(m[k])
    ensures Sum(m') == h(Sum(m))
  {
    if m != map[] {
      var k :| k in m;
      SumTakes(m, k);
      SumTakes(m', k);
      SumStretches(m - {k}, m' - {k}, h);
      assert Lin(h, Sum(m - {k}), 1.0, m[k]);
    } else {
      assert m' == map[];
    }
  }

  lemma {:induction false} SumNonNegative<K(!new)>(m: map<K, real>)
    requires forall k | k in m :: 0.0 <= m[k]
    ensures 0.0 <= Sum(m)
  {
    if m != map[] {
      var k :| k in m;
      SumTakes(m, k);
      SumNonNegative(m - {k});
    }
  }

  // ---- exemplars and files ---------------------------------------------------------------

  ghost predicate DistinctTimes(s: set<Claim>) {
    forall c, d | c in s && d in s && c != d :: c.timestamp != d.timestamp
  }

  ghost predicate Earliest(s: set<Claim>, c: Claim) {
    c in s && forall x | x in s && x.group == c.group :: c.timestamp <= x.timestamp
  }

  ghost predicate OnePerGroup(reps: set<Claim>) {
    forall r, q | r in reps && q in reps && r.group == q.group :: r == q
  }

  /** Every group of `s` is spoken for by one of its earliest claims. */
  ghost predicate Exemplars(s: set<Claim>, reps: set<Claim>) {
    && (forall r | r in reps :: Earliest(s, r))
    && OnePerGroup(reps)
    && (forall c | c in s :: c.group in GroupsOf(reps))
  }

  lemma ExemplarsUnique(s: set<Claim>, reps: set<Claim>, reps': set<Claim>)
    requires DistinctTimes(s) && Exemplars(s, reps) && Exemplars(s, reps')
    ensures reps == reps'
  {
    ExemplarsWithin(s, reps, reps');
    ExemplarsWithin(s, reps', reps);
  }

  lemma ExemplarsWithin(s: set<Claim>, reps: set<Claim>, reps': set<Claim>)
    requires DistinctTimes(s) && Exemplars(s, reps) && Exemplars(s, reps')
    ensures reps <= reps'
  {
    forall r | r in reps ensures r in reps' {
      assert Earliest(s, r);
      var q :| q in reps' && q.group == r.group;
      assert Earliest(s, q);
    }
  }

  function KeysOf(s: set<Claim>): set<ClusterKey> {
    set c | c in s :: KeyOf(c)
  }

  function KeyedBy(s: set<Claim>, k: ClusterKey): set<Claim> {
    set c | c in s && KeyOf(c) == k
  }

  ghost predicate InTime(l: seq<Claim>) {
    forall i, j | 0 <= i < j < |l| :: l[i].timestamp <= l[j].timestamp
  }

  /** One list a cluster, oldest first. */
  ghost predicate Filed(reps: set<Claim>, file: File) {
    && file.Keys == KeysOf(reps)
    && forall k | k in file :: Lists(file[k], KeyedBy(reps, k)) && InTime(file[k])
  }

  function Sooner(): (Claim, Claim) -> bool {
    (c: Claim, d: Claim) => c.timestamp < d.timestamp
  }

  lemma InTimeAscends(l: seq<Claim>, s: set<Claim>)
    requires DistinctTimes(s) && Lists(l, s) && InTime(l)
    ensures Ascending(l, Sooner())
  {
    forall i, j | 0 <= i < j < |l| ensures Sooner()(l[i], l[j]) {
      assert l[i] in s && l[j] in s && l[i] != l[j];
    }
  }

  lemma InTimeUnique(l: seq<Claim>, l': seq<Claim>, s: set<Claim>)
    requires DistinctTimes(s) && Lists(l, s) && InTime(l) && Lists(l', s) && InTime(l')
    ensures l == l'
  {
    InTimeAscends(l, s);
    InTimeAscends(l', s);
    ListingUnique(l, l', s, Sooner());
  }

  lemma FileUnique(reps: set<Claim>, file: File, file': File)
    requires DistinctTimes(reps) && Filed(reps, file) && Filed(reps, file')
    ensures file == file'
  {
    forall k | k in file ensures file[k] == file'[k] {
      InTimeUnique(file[k], file'[k], KeyedBy(reps, k));
    }
  }

  // ---- ability dimensions ------------------------------------------------------------------

  function PosAt(cfg: Config, d: Dim): Claim -> real { c => Pos(c, cfg, d) }
  function NegAt(cfg: Config, d: Dim): Claim -> real { c => Neg(c, cfg, d) }

  ghost function GroupValue(s: set<Claim>, rep: Claim, f: Claim -> real): real {
    Strongest(GroupOf(s, rep.group), f)
  }

  /** The positive group values of a cluster, in the order of its file. */
  ghost function Values(s: set<Claim>, l: seq<Claim>, f: Claim -> real): (vals: seq<real>)
    ensures AllPositive(vals)
  {
    if l == [] then [] else
      var v := GroupValue(s, l[|l| - 1], f);
      Values(s, l[..|l| - 1], f) + if v > 0.0 then [v] else []
  }

  ghost function MassIn(s: set<Claim>, l: seq<Claim>, f: Claim -> real, cfg: Config): real
    requires cfg.repeatWeights != []
  {
    ClusterMass(Values(s, l, f), cfg)
  }

  ghost function Masses(s: set<Claim>, file: File, f: Claim -> real, cfg: Config): map<ClusterKey, real>
    requires cfg.repeatWeights != []
  {
    map k | k in file :: MassIn(s, file[k], f, cfg)
  }

  ghost function Mass(s: set<Claim>, file: File, f: Claim -> real, cfg: Config): real
    requires cfg.repeatWeights != []
  {
    Sum(Masses(s, file, f, cfg))
  }

  /** What a set of claims shows of the variety of its evidence. */
  datatype Variety = Variety(days: set<int>, contexts: set<Option<Word>>, personas: set<Word>, realizations: set<Option<Word>>)

  function VarietyOf(s: set<Claim>): Variety {
    Variety(set c | c in s :: c.timestamp / DAY, set c | c in s :: c.context,
            set c | c in s && c.persona.Some? :: c.persona.value, set c | c in s :: c.realization)
  }

  datatype Ability = Ability(pos: real, neg: real, clusters: set<ClusterKey>, variety: Variety)

  /** The clusters that say anything of a dimension. */
  ghost function Telling(good: map<ClusterKey, real>, bad: map<ClusterKey, real>): set<ClusterKey>
    requires good.Keys == bad.Keys
  {
    set k | k in good && (good[k] > 0.0 || bad[k] > 0.0)
  }

  function ClaimsOf(s: set<Claim>, l: seq<Claim>): set<Claim> {
    set c | c in s && c.group in GroupsOf(set r | r in l)
  }

  ghost predicate Under(c: Claim, s: set<Claim>, file: File, keys: set<ClusterKey>) {
    exists k :: k in keys && k in file && c in ClaimsOf(s, file[k])
  }

  /** The claims of the groups filed under some of the clusters. */
  ghost function ClaimsUnder(s: set<Claim>, file: File, keys: set<ClusterKey>): set<Claim> {
    set c | c in s && Under(c, s, file, keys)
  }

  ghost function AbilityOf(s: set<Claim>, file: File, cfg: Config, d: Dim): Ability
    requires cfg.repeatWeights != []
  {
    var good, bad := Masses(s, file, PosAt(cfg, d), cfg), Masses(s, file, NegAt(cfg, d), cfg);
    Ability(Sum(good), Sum(bad), Telling(good, bad), VarietyOf(ClaimsUnder(s, file, Telling(good, bad))))
  }

  // ---- transfer ------------------------------------------------------------------------------

  predicate StrongRetrieval(c: Claim, cfg: Config) {
    && c.polarity.Positive? && c.outcome.Success?
    && (c.performance.Independent? || c.performance.Spontaneous? || c.performance.SelfRepair?)
    && (c.performance.SelfRepair? ==> c.spontaneity.IndependentTry? || c.spontaneity.SpontaneousTry?)
    && 0.7 <= c.confidence && 0.7 <= Assist(c, cfg)
  }

  function StrongClaims(s: set<Claim>, cfg: Config): set<Claim> {
    set c | c in s && StrongRetrieval(c, cfg)
  }

  function Strength(c: Claim, cfg: Config): real {
    c.confidence * Assist(c, cfg)
  }

  function StrengthAt(cfg: Config): Claim -> real { c => Strength(c, cfg) }

  predicate NoStronger(x: Claim, r: Claim, f: Claim -> real) {
    f(x) < f(r) || (f(x) == f(r) && x.timestamp <= r.timestamp)
  }

  /** Each cluster of strong retrievals is represented by its strongest, latest claim. */
  ghost predicate Represented(strong: set<Claim>, f: Claim -> real, reps: map<ClusterKey, Claim>) {
    && reps.Keys == KeysOf(strong)
    && forall k | k in reps :: Represents(strong, f, k, reps[k])
  }

  ghost predicate Represents(strong: set<Claim>, f: Claim -> real, k: ClusterKey, r: Claim) {
    r in KeyedBy(strong, k) && forall x | x in KeyedBy(strong, k) :: NoStronger(x, r, f)
  }

  /** The oldest representative is the base that the others are compared with. */
  ghost predicate IsBase(reps: map<ClusterKey, Claim>, base: Option<ClusterKey>) {
    match base
    case None => reps == map[]
    case Some(b) => b in reps && forall k | k in reps :: reps[b].timestamp <= reps[k].timestamp
  }

  predicate Crosses(c: Claim) {
    CrossContext in c.qualifiers || CrossPersona in c.qualifiers || NovelRealization in c.qualifiers || CrossModality in c.qualifiers
  }

  predicate Diverse(c: Claim, base: Claim) {
    c.context != base.context || c.persona != base.persona || c.realization != base.realization || Crosses(c)
  }

  function Transferred(reps: map<ClusterKey, Claim>, base: Option<ClusterKey>, cfg: Config): map<ClusterKey, real>
    requires base.Some? ==> base.value in reps
  {
    if base.None? then map[] else
      map k | k in reps && k != base.value && Diverse(reps[k], reps[base.value]) :: Strength(reps[k], cfg)
  }

  predicate FailedTransfer(c: Claim) {
    c.polarity.Negative? && (c.performance.FailedAttempt? || c.performance.Misuse?) && Crosses(c)
  }

  function FailedTransfers(s: set<Claim>): set<Claim> {
    set c | c in s && FailedTransfer(c)
  }

  function FailureStrength(c: Claim, cfg: Config): real {
    c.confidence * ErrorFactor(c, cfg)
  }

  ghost predicate IsMost(cs: set<Claim>, cfg: Config, v: real) {
    (exists c :: c in cs && FailureStrength(c, cfg) == v) && forall c | c in cs :: FailureStrength(c, cfg) <= v
  }

  /** Each cluster of failed transfers counts its worst failure once. */
  ghost predicate WorstFailures(failed: set<Claim>, cfg: Config, worst: map<ClusterKey, real>) {
    worst.Keys == KeysOf(failed) && forall k | k in worst :: IsMost(KeyedBy(failed, k), cfg, worst[k])
  }

  datatype Transfer = Transfer(
    pos: real, neg: real, clusters: set<ClusterKey>, contexts: set<Option<Word>>, personas: set<Option<Word>>,
    realizations: set<Option<Word>>, days: set<int>)

  ghost function TransferOf(reps: map<ClusterKey, Claim>, base: Option<ClusterKey>, worst: map<ClusterKey, real>, cfg: Config): Transfer
    requires base.Some? ==> base.value in reps
  {
    Transfer(Sum(Transferred(reps, base, cfg)), Sum(worst), reps.Keys,
             set k | k in reps :: reps[k].context, set k | k in reps :: reps[k].persona,
             set k | k in reps :: reps[k].realization, set k | k in reps :: reps[k].timestamp / DAY)
  }

  lemma RepresentedUnique(strong: set<Claim>, f: Claim -> real, reps: map<ClusterKey, Claim>, reps': map<ClusterKey, Claim>)
    requires DistinctTimes(strong) && Represented(strong, f, reps) && Represented(strong, f, reps')
    ensures reps == reps'
  {
    forall k | k in reps ensures reps[k] == reps'[k] {
      assert Represents(strong, f, k, reps[k]) && Represents(strong, f, k, reps'[k]);
    }
  }

  lemma BaseUnique(strong: set<Claim>, f: Claim -> real, reps: map<ClusterKey, Claim>, base: Option<ClusterKey>, base': Option<ClusterKey>)
    requires DistinctTimes(strong) && Represented(strong, f, reps) && IsBase(reps, base) && IsBase(reps, base')
    ensures base == base'
  {
    if base.Some? && base'.Some? {
      assert Represents(strong, f, base.value, reps[base.value]);
      assert Represents(strong, f, base'.value, reps[base'.value]);
    }
  }

  lemma WorstUnique(failed: set<Claim>, cfg: Config, worst: map<ClusterKey, real>, worst': map<ClusterKey, real>)
    requires WorstFailures(failed, cfg, worst) && WorstFailures(failed, cfg, worst')
    ensures worst == worst'
  {
    forall k | k in worst ensures worst[k] == worst'[k] {
      assert IsMost(KeyedBy(failed, k), cfg, worst[k]) && IsMost(KeyedBy(failed, k), cfg, worst'[k]);
    }
  }

  // ---- support dependency ----------------------------------------------------------------------

  predicate Diagnostic(c: Claim, cfg: Config) {
    Production(c.performance) && cfg.minConfidence <= c.confidence
  }

  ghost predicate MostConfident(s: set<Claim>, cfg: Config, c: Claim) {
    && c in s && Diagnostic(c, cfg)
    && forall x | x in s && Diagnostic(x, cfg) && x.group == c.group :: x.confidence <= c.confidence
  }

  /** Every group with a diagnostic claim is spoken for by its most confident one. */
  ghost predicate Speakers(s: set<Claim>, cfg: Config, speakers: set<Claim>) {
    && (forall r | r in speakers :: MostConfident(s, cfg, r))
    && OnePerGroup(speakers)
    && (forall c | c in s && Diagnostic(c, cfg) :: c.group in GroupsOf(speakers))
  }

  /** At most one primary performance a group. */
  ghost predicate OnePrimary(s: set<Claim>) {
    forall c, d | c in s && d in s && Primary(c.performance) && Primary(d.performance) && c.group == d.group :: c == d
  }

  lemma SpeakersWithin(s: set<Claim>, cfg: Config, sp: set<Claim>, sp': set<Claim>)
    requires OnePrimary(s) && Speakers(s, cfg, sp) && Speakers(s, cfg, sp')
    ensures sp <= sp'
  {
    forall r | r in sp ensures r in sp' {
      assert MostConfident(s, cfg, r);
      var q :| q in sp' && q.group == r.group;
      assert MostConfident(s, cfg, q);
    }
  }

  lemma SpeakersUnique(s: set<Claim>, cfg: Config, sp: set<Claim>, sp': set<Claim>)
    requires OnePrimary(s) && Speakers(s, cfg, sp) && Speakers(s, cfg, sp')
    ensures sp == sp'
  {
    SpeakersWithin(s, cfg, sp, sp');
    SpeakersWithin(s, cfg, sp', sp);
  }

  predicate Observed(c: Claim) {
    || (c.polarity.Positive? && (c.outcome.Success? || c.outcome.Partial?))
    || (c.polarity.Negative? && (c.outcome.Failure? || c.outcome.Partial?))
  }

  function Observations(speakers: set<Claim>): set<Claim> {
    set c | c in speakers && Observed(c)
  }

  lemma ObservationsAreClaims(s: set<Claim>, cfg: Config, speakers: set<Claim>)
    requires Speakers(s, cfg, speakers) && DistinctTimes(s)
    ensures DistinctTimes(Observations(speakers))
  {
    forall c | c in Observations(speakers) ensures c in s {
      assert MostConfident(s, cfg, c);
    }
  }

  function ExposureBurden(e: Exposure): real {
    match e
    case PartialExposure => 0.75
    case FullExposure => 0.95
    case _ => 0.0
  }

  function Burden(c: Claim, cfg: Config): real {
    if c.polarity.Positive? then Max(Get(cfg.supportBurden, c.support, 0.0), ExposureBurden(c.exposure)) else 1.0
  }

  function Evidence(c: Claim, cfg: Config): real {
    if c.polarity.Positive? then c.confidence * OutcomeFactor(c, cfg)
    else c.confidence * ErrorFactor(c, cfg) * OutcomeFactor(c, cfg)
  }

  datatype Kind = LowSuccess | AssistedSuccess | LowFailure | SupportedFailure

  function KindOf(c: Claim, cfg: Config): Kind {
    if c.polarity.Positive? then (if Burden(c, cfg) <= 0.1 then LowSuccess else AssistedSuccess)
    else if LowSupport(c.support) then LowFailure else SupportedFailure
  }

  function EvidenceAt(cfg: Config): Claim -> real { c => Evidence(c, cfg) }
  function Loaded(burden: real, evidence: real): real { burden * evidence }
  function BurdenAt(cfg: Config): Claim -> real { c => Loaded(Burden(c, cfg), Evidence(c, cfg)) }
  function KindAt(cfg: Config, kind: Kind): Claim -> real { c => if KindOf(c, cfg) == kind then Evidence(c, cfg) else 0.0 }

  function Each(l: seq<Claim>, f: Claim -> real): seq<real> {
    seq(|l|, i requires 0 <= i < |l| => f(l[i]))
  }

  ghost function RepeatMasses(file: File, f: Claim -> real, cfg: Config): map<ClusterKey, real>
    requires cfg.repeatWeights != []
  {
    map k | k in file :: Diminished(Each(file[k], f), cfg)
  }

  /** Repeats inside one cluster weigh less, here without a cap. */
  ghost function Repeats(file: File, f: Claim -> real, cfg: Config): real
    requires cfg.repeatWeights != []
  {
    Sum(RepeatMasses(file, f, cfg))
  }

  datatype Dependency = Dependency(num: real, den: real, kinds: map<Kind, real>, clusters: set<ClusterKey>)

  const KINDS: set<Kind> := {LowSuccess, AssistedSuccess, LowFailure, SupportedFailure}

  ghost function DependencyOf(file: File, cfg: Config): Dependency
    requires cfg.repeatWeights != []
  {
    Dependency(Repeats(file, BurdenAt(cfg), cfg), Repeats(file, EvidenceAt(cfg), cfg),
               map kind | kind in KINDS :: Repeats(file, KindAt(cfg, kind), cfg), file.Keys)
  }

  // ---- the whole estimation ----------------------------------------------------------------------

  datatype Choices = Choices(
    reps: set<Claim>, file: File, strong: map<ClusterKey, Claim>, base: Option<ClusterKey>,
    worst: map<ClusterKey, real>, speakers: set<Claim>, supportFile: File)

  ghost predicate AbilityChosen(s: set<Claim>, reps: set<Claim>, file: File) {
    Exemplars(s, reps) && Filed(reps, file)
  }

  ghost predicate TransferChosen(
    s: set<Claim>, cfg: Config, strong: map<ClusterKey, Claim>, base: Option<ClusterKey>, worst: map<ClusterKey, real>)
  {
    && Represented(StrongClaims(s, cfg), StrengthAt(cfg), strong) && IsBase(strong, base)
    && WorstFailures(FailedTransfers(s), cfg, worst)
  }

  ghost predicate SupportChosen(s: set<Claim>, cfg: Config, speakers: set<Claim>, file: File) {
    Speakers(s, cfg, speakers) && Filed(Observations(speakers), file)
  }

  ghost predicate Chosen(s: set<Claim>, cfg: Config, ch: Choices) {
    && AbilityChosen(s, ch.reps, ch.file)
    && TransferChosen(s, cfg, ch.strong, ch.base, ch.worst)
    && SupportChosen(s, cfg, ch.speakers, ch.supportFile)
  }

  const DIMS: set<Dim> :=
    {Recognition, GuidedProduction, IndependentProduction, SpontaneousProduction, Accuracy, PragmaticControl}

  /** The unrounded masses and the variety behind each reported dimension. */
  datatype Estimation = Estimation(abilities: map<Dim, Ability>, transfer: Transfer, dependency: Dependency)

  ghost function EstimationOf(s: set<Claim>, cfg: Config, ch: Choices): Estimation
    requires cfg.repeatWeights != [] && Chosen(s, cfg, ch)
  {
    Estimation(map d | d in DIMS :: AbilityOf(s, ch.file, cfg, d),
               TransferOf(ch.strong, ch.base, ch.worst, cfg), DependencyOf(ch.supportFile, cfg))
  }

  lemma AbilityChoiceUnique(s: set<Claim>, reps: set<Claim>, file: File, reps': set<Claim>, file': File)
    requires DistinctTimes(s) && AbilityChosen(s, reps, file) && AbilityChosen(s, reps', file')
    ensures reps == reps' && file == file'
  {
    ExemplarsUnique(s, reps, reps');
    assert forall r | r in reps :: Earliest(s, r);
    FileUnique(reps, file, file');
  }

  lemma TransferChoiceUnique(
      s: set<Claim>, cfg: Config, strong: map<ClusterKey, Claim>, base: Option<ClusterKey>, worst: map<ClusterKey, real>,
      strong': map<ClusterKey, Claim>, base': Option<ClusterKey>, worst': map<ClusterKey, real>)
    requires DistinctTimes(s) && TransferChosen(s, cfg, strong, base, worst) && TransferChosen(s, cfg, strong', base', worst')
    ensures strong == strong' && base == base' && worst == worst'
  {
    RepresentedUnique(StrongClaims(s, cfg), StrengthAt(cfg), strong, strong');
    BaseUnique(StrongClaims(s, cfg), StrengthAt(cfg), strong, base, base');
    WorstUnique(FailedTransfers(s), cfg, worst, worst');
  }

  /** Here `validate_claims` is needed: it leaves a group one claim to speak for it. */
  lemma SupportChoiceUnique(s: set<Claim>, cfg: Config, sp: set<Claim>, file: File, sp': set<Claim>, file': File)
    requires DistinctTimes(s) && OnePrimary(s) && SupportChosen(s, cfg, sp, file) && SupportChosen(s, cfg, sp', file')
    ensures sp == sp' && file == file'
  {
    SpeakersUnique(s, cfg, sp, sp');
    assert DistinctTimes(Observations(sp)) by { ObservationsAreClaims(s, cfg, sp); }
    FileUnique(Observations(sp), file, file');
  }

  /** With distinct timestamps and one primary claim a group, no tie is left to break. */
  lemma ChoicesUnique(s: set<Claim>, cfg: Config, ch: Choices, ch': Choices)
    requires DistinctTimes(s) && OnePrimary(s) && Chosen(s, cfg, ch) && Chosen(s, cfg, ch')
    ensures ch == ch'
  {
    AbilityChoiceUnique(s, ch.reps, ch.file, ch'.reps, ch'.file);
    TransferChoiceUnique(s, cfg, ch.strong, ch.base, ch.worst, ch'.strong, ch'.base, ch'.worst);
    SupportChoiceUnique(s, cfg, ch.speakers, ch.supportFile, ch'.speakers, ch'.supportFile);
  }
}
