/** Planner candidates, eligibility, scoring, dominance and the tie key. */
module PlannerCandidates {

  /** Words (ids, canonical keys, readiness labels) are ordered and opaque; 0 is the empty word. */
  type Word = nat

  datatype Initiative = Proactive | Opportunistic | Reactive | UnknownInitiative
  datatype Mode = ResourcePractice | CapabilityPractice | Probe | Review | Transfer | UnknownMode
  datatype Intent =
    | Establish | Develop | WithdrawSupport | ExpandRepertoire | ProbeIntent | Consolidate | TransferIntent
    | UnknownIntent
  datatype Prerequisite = Ready | ReadyWithScaffold | Unresolved | Blocked | UnknownPrerequisite
  datatype Service = NoService | Watch | Due | Critical | UnknownService
  datatype Scope = Open | LearningRequest | TargetedLearningRequest | JustChat | NonLearningTask | UnknownScope
  datatype Policy = Balanced | StudyFirst | OtherPolicy(word: Word)

  const BENEFITS := 11
  const OPPORTUNITY_EXPIRY := 9
  const COSTS := 5
  const INTERRUPTION_COST := 0
  const COGNITIVE_LOAD := 1
  const OVEREXPOSURE := 2
  const SUPPORT_COST := 3

  /** Factor vectors follow BENEFIT_KEYS and COST_KEYS; a missing key is a short vector. */
  datatype Candidate = Candidate(
    id: Word, canonicalKey: Word, initiative: Initiative, mode: Mode, intent: Intent,
    readiness: Word, prerequisite: Prerequisite, scaffoldable: bool, service: Service,
    priority: int, userInitiated: bool, requestAligned: bool, taskAligned: bool, criticalRepair: bool,
    currentUserError: bool, runtimeReady: bool,
    expired: bool, deprecated: bool, suppressed: bool, modalityAvailable: bool,
    benefit: seq<real>, cost: seq<real>)

  datatype Profile = Profile(multiplier: map<Initiative, real>, costMultiplier: real, threshold: real)

  datatype Config = Config(
    profiles: map<Policy, Profile>, benefitWeights: seq<real>, costWeights: seq<real>,
    readinessRank: map<Word, int>, initiativeRank: map<Initiative, real>, serviceBonus: map<Policy, real>,
    scaffoldSupport: real, scaffoldLoad: real, epsilon: real, round: real -> real)

  datatype Input = Input(
    scope: Scope, policy: Policy, assemblyComplete: bool, snapshotValid: bool, naturalBreak: bool,
    candidates: seq<Candidate>)

  predicate NonNegative(v: seq<real>) {
    forall k | 0 <= k < |v| :: 0.0 <= v[k]
  }

  predicate Covers(m: map<Initiative, real>) {
    Proactive in m && Opportunistic in m && Reactive in m
  }

  /** What a profile file is: complete, non-negative, a non-negative epsilon, and `round` monotone. */
  ghost predicate ProfileFile(cfg: Config) {
    && |cfg.benefitWeights| == BENEFITS && NonNegative(cfg.benefitWeights)
    && |cfg.costWeights| == COSTS && NonNegative(cfg.costWeights)
    && Covers(cfg.initiativeRank)
    && (forall p :: p in cfg.profiles ==>
          && Covers(cfg.profiles[p].multiplier) && 0.0 <= cfg.profiles[p].costMultiplier
          && forall i :: i in cfg.profiles[p].multiplier ==> 0.0 <= cfg.profiles[p].multiplier[i])
    && 0.0 <= cfg.epsilon
    && (forall x, y :: x <= y ==> cfg.round(x) <= cfg.round(y))
  }

  // ---- validation of one candidate -------------------------------------------

  predicate ModeAllows(mode: Mode, intent: Intent) {
    match mode
    case ResourcePractice => intent in {Establish, Develop, WithdrawSupport, ExpandRepertoire}
    case CapabilityPractice => intent in {Establish, Develop, WithdrawSupport, ExpandRepertoire}
    case Probe => intent == ProbeIntent
    case Review => intent == Consolidate
    case Transfer => intent == TransferIntent
    case UnknownMode => false
  }

  predicate UnitVector(v: seq<real>, n: nat) {
    |v| == n && forall k | 0 <= k < n :: 0.0 <= v[k] <= 1.0
  }

  predicate NeedsScaffold(c: Candidate) {
    c.prerequisite.ReadyWithScaffold? || (c.prerequisite.Unresolved? && c.scaffoldable)
  }

  /** Everything validate_input asks of one candidate on its own. */
  predicate WellFormed(c: Candidate, scope: Scope, cfg: Config) {
    && c.id != 0
    && !c.initiative.UnknownInitiative?
    && ModeAllows(c.mode, c.intent)
    && c.readiness in cfg.readinessRank
    && !c.prerequisite.UnknownPrerequisite?
    && !c.service.UnknownService?
    && 0 <= c.priority
    && !(scope.JustChat? && c.userInitiated)
    && UnitVector(c.benefit, BENEFITS) && UnitVector(c.cost, COSTS)
    && (NeedsScaffold(c) ==> cfg.scaffoldSupport <= c.cost[SUPPORT_COST] && cfg.scaffoldLoad <= c.cost[COGNITIVE_LOAD])
  }

  function KeyOf(c: Candidate): Word {
    if c.canonicalKey != 0 then c.canonicalKey else c.id
  }

  // ---- eligibility and score ---------------------------------------------------

  datatype Reason =
    | Expired | Deprecated | Suppressed | ModalityUnavailable | HardPrerequisiteBlocked
    | PrerequisiteUnknownUnresolved | InJustChat | OutsideTargetedScope | NonLearningTaskScope | ContentNotReady

  datatype Eligibility = Eligible | Excluded(reason: Reason)

  function MinReadiness(c: Candidate): int {
    if c.mode.Probe? then 2
    else if c.userInitiated then 3
    else if c.currentUserError then 4
    else 3
  }

  function Eligibly(c: Candidate, scope: Scope, cfg: Config): Eligibility
    requires c.readiness in cfg.readinessRank
  {
    if c.expired then Excluded(Expired)
    else if c.deprecated then Excluded(Deprecated)
    else if c.suppressed then Excluded(Suppressed)
    else if !c.modalityAvailable then Excluded(ModalityUnavailable)
    else if c.prerequisite.Blocked? then Excluded(HardPrerequisiteBlocked)
    else if c.prerequisite.Unresolved? && !(c.mode.Probe? || c.scaffoldable) then Excluded(PrerequisiteUnknownUnresolved)
    else if scope.JustChat? then Excluded(InJustChat)
    else if scope.TargetedLearningRequest? && !c.requestAligned then Excluded(OutsideTargetedScope)
    else if scope.NonLearningTask? && !(c.userInitiated || c.taskAligned || c.criticalRepair)
      then Excluded(NonLearningTaskScope)
    else if cfg.readinessRank[c.readiness] < MinReadiness(c) && !(c.runtimeReady && c.userInitiated)
      then Excluded(ContentNotReady)
    else Eligible
  }

  function Weighted(v: seq<real>, w: seq<real>): real
    requires |v| == |w|
  {
    if v == [] then 0.0 else v[0] * w[0] + Weighted(v[1..], w[1..])
  }

  lemma {:induction false} WeightedIsMonotone(v: seq<real>, v': seq<real>, w: seq<real>)
    requires |v| == |v'| == |w| && NonNegative(w)
    requires forall k | 0 <= k < |v| :: v[k] <= v'[k]
    ensures Weighted(v, w) <= Weighted(v', w)
  {
    if v != [] {
      WeightedIsMonotone(v[1..], v'[1..], w[1..]);
      ScaledIsMonotone(v[0], v'[0], w[0]);
    }
  }

  lemma ScaledIsMonotone(x: real, y: real, w: real)
    requires x <= y && 0.0 <= w
    ensures x * w <= y * w && w * x <= w * y
  {
    assert 0.0 <= (y - x) * w;
  }

  /** The setting every candidate of one evaluation is scored in. */
  ghost predicate Settled(inp: Input, cfg: Config) {
    ProfileFile(cfg) && inp.policy in cfg.profiles
  }

  function ServiceBonus(c: Candidate, inp: Input, cfg: Config): real {
    if c.service.Critical? && inp.naturalBreak && !inp.policy.OtherPolicy? && inp.policy in cfg.serviceBonus
    then cfg.serviceBonus[inp.policy] else 0.0
  }

  function Utility(c: Candidate, inp: Input, cfg: Config): real
    requires Settled(inp, cfg) && WellFormed(c, inp.scope, cfg)
  {
    var p := cfg.profiles[inp.policy];
    p.multiplier[c.initiative] * Weighted(c.benefit, cfg.benefitWeights)
    - p.costMultiplier * Weighted(c.cost, cfg.costWeights)
    + ServiceBonus(c, inp, cfg)
  }

  datatype Row = Row(c: Candidate, utility: real, userPath: bool, activated: bool)

  function RowOf(c: Candidate, inp: Input, cfg: Config): Row
    requires Settled(inp, cfg) && WellFormed(c, inp.scope, cfg)
  {
    var utility := Utility(c, inp, cfg);
    var userPath := c.userInitiated && (inp.scope.LearningRequest? || inp.scope.TargetedLearningRequest?);
    Row(c, cfg.round(utility), userPath, userPath || cfg.profiles[inp.policy].threshold <= utility)
  }

  // ---- dominance ---------------------------------------------------------------

  predicate SameClass(a: Row, b: Row) {
    a.userPath == b.userPath && a.c.initiative == b.c.initiative && a.c.priority == b.c.priority
    && a.c.service == b.c.service
  }

  predicate AtLeast(v: seq<real>, w: seq<real>) {
    |v| == |w| && forall k | 0 <= k < |v| :: v[k] >= w[k]
  }

  predicate SomewhereMore(v: seq<real>, w: seq<real>) {
    |v| == |w| && exists k :: 0 <= k < |v| && v[k] > w[k]
  }

  predicate Dominates(a: Row, b: Row) {
    && SameClass(a, b)
    && AtLeast(a.c.benefit, b.c.benefit) && AtLeast(b.c.cost, a.c.cost)
    && (SomewhereMore(a.c.benefit, b.c.benefit) || SomewhereMore(b.c.cost, a.c.cost))
  }

  lemma DominanceIsStrict(a: Row, b: Row)
    ensures !Dominates(a, a)
    ensures Dominates(a, b) ==> !Dominates(b, a)
  {
  }

  lemma DominanceIsTransitive(a: Row, b: Row, c: Row)
    requires Dominates(a, b) && Dominates(b, c)
    ensures Dominates(a, c)
  {
    if SomewhereMore(a.c.benefit, b.c.benefit) {
      var k :| 0 <= k < |a.c.benefit| && a.c.benefit[k] > b.c.benefit[k];
      assert a.c.benefit[k] > c.c.benefit[k];
    } else {
      var k :| 0 <= k < |b.c.cost| && b.c.cost[k] > a.c.cost[k];
      assert c.c.cost[k] > a.c.cost[k];
    }
  }

  lemma BetterFactorsPay(m: real, n: real, ba: real, bb: real, ca: real, cb: real)
    requires 0.0 <= m && 0.0 <= n && bb <= ba && ca <= cb
    ensures m * bb - n * cb <= m * ba - n * ca
  {
    ScaledIsMonotone(bb, ba, m);
    ScaledIsMonotone(ca, cb, n);
  }

  lemma BetterFactorsRaiseUtility(a: Candidate, b: Candidate, inp: Input, cfg: Config)
    requires Settled(inp, cfg) && WellFormed(a, inp.scope, cfg) && WellFormed(b, inp.scope, cfg)
    requires a.initiative == b.initiative && a.service == b.service
    requires AtLeast(a.benefit, b.benefit) && AtLeast(b.cost, a.cost)
    ensures Utility(b, inp, cfg) <= Utility(a, inp, cfg)
  {
    var p := cfg.profiles[inp.policy];
    WeightedIsMonotone(b.benefit, a.benefit, cfg.benefitWeights);
    WeightedIsMonotone(a.cost, b.cost, cfg.costWeights);
    BetterFactorsPay(p.multiplier[a.initiative], p.costMultiplier,
                     Weighted(a.benefit, cfg.benefitWeights), Weighted(b.benefit, cfg.benefitWeights),
                     Weighted(a.cost, cfg.costWeights), Weighted(b.cost, cfg.costWeights));
  }

  /** Dominating costs no utility: weights and multipliers are non-negative and rounding is monotone. */
  lemma DominatingPays(a: Candidate, b: Candidate, inp: Input, cfg: Config)
    requires Settled(inp, cfg) && WellFormed(a, inp.scope, cfg) && WellFormed(b, inp.scope, cfg)
    requires Dominates(RowOf(a, inp, cfg), RowOf(b, inp, cfg))
    ensures RowOf(a, inp, cfg).utility >= RowOf(b, inp, cfg).utility
  {
    BetterFactorsRaiseUtility(a, b, inp, cfg);
  }

  // ---- the tie key ---------------------------------------------------------------

  function Flag(b: bool): real { if b then 1.0 else 0.0 }

  const KEY_LENGTH := 7

  predicate Keyable(r: Row, cfg: Config) {
    r.c.initiative in cfg.initiativeRank && |r.c.benefit| == BENEFITS && |r.c.cost| == COSTS
  }

  function TieKey(r: Row, cfg: Config): (key: seq<real>)
    requires Keyable(r, cfg)
    ensures |key| == KEY_LENGTH
  {
    [Flag(r.c.requestAligned), Flag(r.c.userInitiated), cfg.initiativeRank[r.c.initiative],
     r.c.benefit[OPPORTUNITY_EXPIRY], -r.c.cost[INTERRUPTION_COST], -r.c.cost[OVEREXPOSURE], -r.c.cost[COGNITIVE_LOAD]]
  }

  /** Tuple comparison. */
  predicate LexLeq(a: seq<real>, b: seq<real>)
    requires |a| == |b|
  {
    a == [] || a[0] < b[0] || (a[0] == b[0] && LexLeq(a[1..], b[1..]))
  }

  lemma {:induction false} LexTotal(a: seq<real>, b: seq<real>)
    requires |a| == |b|
    ensures LexLeq(a, b) || LexLeq(b, a)
    ensures LexLeq(a, b) && LexLeq(b, a) ==> a == b
    ensures a == b ==> LexLeq(a, b)
  {
    if a != [] {
      LexTotal(a[1..], b[1..]);
      assert a == [a[0]] + a[1..] && b == [b[0]] + b[1..];
    }
  }

  lemma {:induction false} LexTransitive(a: seq<real>, b: seq<real>, c: seq<real>)
    requires |a| == |b| == |c| && LexLeq(a, b) && LexLeq(b, c)
    ensures LexLeq(a, c)
  {
    if a != [] && a[0] == b[0] && b[0] == c[0] {
      LexTransitive(a[1..], b[1..], c[1..]);
    }
  }
}
