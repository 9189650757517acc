/** Evidence claims: what each one contributes to each ability dimension, and which cluster it belongs to. */
module EstimatorClaims {

  type Word = int
  type Instant = int

  const DAY := 86400

  datatype Option<+T> = None | Some(value: T)

  datatype Dim =
    | Recognition | GuidedProduction | IndependentProduction | SpontaneousProduction | Accuracy | PragmaticControl

  datatype Performance =
    | RecognitionTask | Imitative | Guided | Independent | Spontaneous | SelfRepair | FailedAttempt | Misuse
    | OtherPerformance

  datatype Outcome = Success | Partial | Failure | Abstain | OtherOutcome
  datatype Polarity = Positive | Negative | OtherPolarity
  datatype Support = NoSupport | ContextOnly | OtherSupport(level: Word)
  datatype Exposure = NoExposure | PartialExposure | FullExposure | OtherExposure(level: Word)
  datatype Spontaneity = IndependentTry | SpontaneousTry | OtherTry
  datatype Qualifier = CrossContext | HighContextNovelty | CrossPersona | NovelRealization | CrossModality | OtherQualifier(w: Word)

  datatype Target = Target(kind: Word, id: Word, modality: Word)

  datatype Claim = Claim(
    group: Word, target: Target, active: bool, performance: Performance, support: Support, exposure: Exposure,
    natural: bool, confidence: real, outcome: Outcome, polarity: Polarity, attribution: Word,
    accuracy: Option<real>, pragmaticFit: Option<real>, spontaneity: Spontaneity, timestamp: Instant,
    moment: Option<Word>, conversation: Word, context: Option<Word>, realization: Option<Word>,
    persona: Option<Word>, qualifiers: set<Qualifier>)

  datatype Config = Config(
    minConfidence: real, outcomeFactor: map<Outcome, real>, mapping: map<Performance, map<Dim, real>>,
    supportFactor: map<Support, real>, exposureFactor: map<Exposure, real>, errorMultiplier: map<Word, real>,
    quality: map<Performance, real>, partialResidual: real, repeatWeights: seq<real>, capMultiple: real,
    minMass: real, supportBurden: map<Support, real>, supportMinMass: real, tau: real, narrowCap: real,
    transferCap: real)

  function Get<K, V>(m: map<K, V>, k: K, default: V): V {
    if k in m then m[k] else default
  }

  function Min(x: real, y: real): real { if x <= y then x else y }
  function Max(x: real, y: real): real { if x >= y then x else y }
  function Clamp(x: real): real { Min(1.0, Max(0.0, x)) }

  ghost predicate NonNegative<K(!new)>(m: map<K, real>) {
    forall k | k in m :: 0.0 <= m[k]
  }

  /** What a profile file is: non-negative factors and weights, and at least one repeat weight. */
  ghost predicate ProfileFile(cfg: Config) {
    && 0.0 <= cfg.minConfidence && 0.0 <= cfg.partialResidual && 0.0 <= cfg.capMultiple && 0.0 <= cfg.minMass
    && 0.0 < cfg.supportMinMass && 0.0 < cfg.tau && 0.0 <= cfg.narrowCap && 0.0 <= cfg.transferCap
    && NonNegative(cfg.supportBurden) && (forall x | x in cfg.supportBurden :: cfg.supportBurden[x] <= 1.0)
    && NonNegative(cfg.outcomeFactor) && NonNegative(cfg.supportFactor) && NonNegative(cfg.exposureFactor)
    && NonNegative(cfg.errorMultiplier) && NonNegative(cfg.quality)
    && (forall p | p in cfg.mapping :: NonNegative(cfg.mapping[p]))
    && cfg.repeatWeights != [] && forall i | 0 <= i < |cfg.repeatWeights| :: 0.0 <= cfg.repeatWeights[i]
  }

  // ---- validation --------------------------------------------------------------------

  predicate Production(p: Performance) {
    !p.RecognitionTask? && !p.OtherPerformance?
  }

  predicate Primary(p: Performance) {
    Production(p) || p.RecognitionTask?
  }

  predicate LowSupport(s: Support) {
    s.NoSupport? || s.ContextOnly?
  }

  predicate ClaimOk(c: Claim) {
    && (c.performance.Independent? || c.performance.Spontaneous? ==> LowSupport(c.support) && c.exposure.NoExposure?)
    && (c.performance.Spontaneous? ==> c.natural)
  }

  predicate SameGroupTarget(c: Claim, d: Claim) {
    c.group == d.group && c.target == d.target
  }

  /** validate_claims reports no error. */
  ghost predicate ValidClaims(cs: seq<Claim>) {
    && (forall i | 0 <= i < |cs| :: ClaimOk(cs[i]))
    && (forall i, j | 0 <= i < j < |cs| && Primary(cs[i].performance) && Primary(cs[j].performance) ::
          !SameGroupTarget(cs[i], cs[j]))
  }

  // ---- contributions -----------------------------------------------------------------

  function Assist(c: Claim, cfg: Config): real {
    Min(Get(cfg.supportFactor, c.support, 1.0), Get(cfg.exposureFactor, c.exposure, 1.0))
  }

  function ErrorFactor(c: Claim, cfg: Config): real {
    Get(cfg.errorMultiplier, c.attribution, 0.6)
  }

  function OutcomeFactor(c: Claim, cfg: Config): real {
    Get(cfg.outcomeFactor, c.outcome, 1.0)
  }

  function Direct(p: Performance): Option<Dim> {
    match p
    case RecognitionTask => Some(Recognition)
    case Guided => Some(GuidedProduction)
    case Independent => Some(IndependentProduction)
    case Spontaneous => Some(SpontaneousProduction)
    case SelfRepair => Some(IndependentProduction)
    case _ => None
  }

  predicate Counts(c: Claim, cfg: Config) {
    cfg.minConfidence <= c.confidence && !c.outcome.Abstain?
  }

  predicate SpontaneousRepair(c: Claim) {
    c.performance.SelfRepair? && c.spontaneity.SpontaneousTry? && !c.exposure.FullExposure?
  }

  function QualityStrength(c: Claim, cfg: Config): real {
    Get(cfg.quality, c.performance, 0.0) * OutcomeFactor(c, cfg) * c.confidence * Assist(c, cfg)
  }

  /** The judged quality of one claim in one of the two quality dimensions. */
  function Judged(c: Claim, d: Dim): Option<real> {
    match d
    case Accuracy => c.accuracy
    case PragmaticControl => c.pragmaticFit
    case _ => None
  }

  function QualityShare(c: Claim, cfg: Config, d: Dim, good: bool): real {
    if Judged(c, d).None? || QualityStrength(c, cfg) <= 0.0 then 0.0
    else
      var q := Clamp(Judged(c, d).value);
      QualityStrength(c, cfg) * (if good then q else 1.0 - q)
  }

  function NegativeWeight(c: Claim, d: Dim): real {
    match c.performance
    case RecognitionTask => if d.Recognition? then 1.0 else 0.0
    case FailedAttempt =>
      if c.natural && LowSupport(c.support) then
        (if d.SpontaneousProduction? then 1.0 else if d.IndependentProduction? then 0.75 else 0.0)
      else if LowSupport(c.support) then (if d.IndependentProduction? then 1.0 else 0.0)
      else (if d.GuidedProduction? then 1.0 else 0.0)
    case Misuse =>
      if d.Accuracy? then 1.0
      else if c.natural && LowSupport(c.support) then
        (if d.SpontaneousProduction? || d.IndependentProduction? then 0.5 else 0.0)
      else if LowSupport(c.support) then (if d.IndependentProduction? then 0.5 else 0.0)
      else (if d.GuidedProduction? then 0.5 else 0.0)
    case _ => 0.0
  }

  predicate CountsPositive(c: Claim, cfg: Config) {
    Counts(c, cfg) && c.polarity.Positive? && c.performance in cfg.mapping
  }

  /** Positive mass a claim brings to a dimension. */
  function Pos(c: Claim, cfg: Config, d: Dim): real {
    if !CountsPositive(c, cfg) then 0.0
    else
      Get(cfg.mapping[c.performance], d, 0.0) * OutcomeFactor(c, cfg) * c.confidence * Assist(c, cfg)
      + (if SpontaneousRepair(c) && d.SpontaneousProduction?
         then 0.5 * OutcomeFactor(c, cfg) * c.confidence * Assist(c, cfg) else 0.0)
      + QualityShare(c, cfg, d, true)
  }

  /** The direct-dimension residue of a PARTIAL success. */
  function PartialResidue(c: Claim, cfg: Config, d: Dim): real
    requires c.performance in cfg.mapping
  {
    if !c.outcome.Partial? then 0.0
    else
      (if Direct(c.performance) == Some(d)
       then Get(cfg.mapping[c.performance], d, 1.0) * cfg.partialResidual * c.confidence * Assist(c, cfg) else 0.0)
      + (if SpontaneousRepair(c) && d.SpontaneousProduction?
         then 0.5 * cfg.partialResidual * c.confidence * Assist(c, cfg) else 0.0)
  }

  /** Negative mass a claim brings to a dimension. */
  function Neg(c: Claim, cfg: Config, d: Dim): real {
    if CountsPositive(c, cfg) then PartialResidue(c, cfg, d) + QualityShare(c, cfg, d, false)
    else if Counts(c, cfg) && c.polarity.Negative? then
      NegativeWeight(c, d) * OutcomeFactor(c, cfg) * c.confidence * ErrorFactor(c, cfg)
    else 0.0
  }

  // ---- clusters ------------------------------------------------------------------------

  datatype Place = Known(w: Word) | Novel(group: Word) | Unplaced

  /** Claims of one key are correlated. */
  datatype ClusterKey =
    | Teaching(moment: Word)
    | Natural(conversation: Word, day: int, context: Place, realization: Place, persona: Option<Word>)

  function KeyOf(c: Claim): ClusterKey {
    if c.moment.Some? then Teaching(c.moment.value)
    else
      Natural(c.conversation, c.timestamp / DAY,
        if c.context.Some? then Known(c.context.value)
        else if CrossContext in c.qualifiers || HighContextNovelty in c.qualifiers then Novel(c.group) else Unplaced,
        if c.realization.Some? then Known(c.realization.value)
        else if NovelRealization in c.qualifiers then Novel(c.group) else Unplaced,
        c.persona)
  }
}
