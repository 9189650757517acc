/** What an evaluation tells about each candidate, in the candidate's own fields. */
module PlannerMeaning {
  import opened PlannerCandidates
  import opened PlannerRanking
  import opened PlannerEvaluate

  // ---- who is scored -------------------------------------------------------------------

  predicate Offerable(c: Candidate) {
    && !c.expired && !c.deprecated && !c.suppressed && c.modalityAvailable
    && c.prerequisite != Blocked && (c.prerequisite == Unresolved ==> c.mode == Probe || c.scaffoldable)
  }

  predicate FitsScope(c: Candidate, scope: Scope) {
    && scope != JustChat
    && (scope == TargetedLearningRequest ==> c.requestAligned)
    && (scope == NonLearningTask ==> c.userInitiated || c.taskAligned || c.criticalRepair)
  }

  /** Probes need rank 2, the learner's fresh errors rank 4 unless the learner asks, everything else rank 3. */
  predicate ReadyEnough(c: Candidate, rank: int) {
    || (c.runtimeReady && c.userInitiated)
    || (if c.mode == Probe then 2 <= rank else if c.currentUserError && !c.userInitiated then 4 <= rank else 3 <= rank)
  }

  ghost predicate IsScored(o: Outcome, c: Candidate)
    requires o.Succeeded?
  {
    exists r :: r in o.scored && r.c == c
  }

  /** Exactly the offerable, fitting and ready candidates are scored. */
  lemma ScoredExactly(inp: Input, cfg: Config, o: Outcome, c: Candidate)
    requires ProfileFile(cfg) && Evaluated(inp, cfg, o) && o.Succeeded?
    ensures IsScored(o, c) ==> c in inp.candidates && c.readiness in cfg.readinessRank
    ensures c in inp.candidates && c.readiness in cfg.readinessRank ==>
              (IsScored(o, c) <==> Offerable(c) && FitsScope(c, inp.scope) && ReadyEnough(c, cfg.readinessRank[c.readiness]))
  {
    if IsScored(o, c) {
      var r :| r in o.scored && r.c == c;
      assert r in RowsOf(inp, cfg);
      RowOfItself(inp, cfg, r);
    }
    if c in inp.candidates && c.readiness in cfg.readinessRank {
      EligibleInWords(c, inp.scope, cfg);
      if Eligibly(c, inp.scope, cfg).Eligible? {
        RowIsScored(inp, cfg, c);
        assert RowOf(c, inp, cfg) in o.scored;
      }
    }
  }

  lemma EligibleInWords(c: Candidate, scope: Scope, cfg: Config)
    requires c.readiness in cfg.readinessRank
    ensures Eligibly(c, scope, cfg).Eligible? <==> Offerable(c) && FitsScope(c, scope) && ReadyEnough(c, cfg.readinessRank[c.readiness])
  {
  }

  lemma RowOfItself(inp: Input, cfg: Config, r: Row)
    requires Accepted(inp, cfg) && r in RowsOf(inp, cfg)
    ensures IsRow(inp, cfg, r.c, r) && WellFormed(r.c, inp.scope, cfg)
  {
  }

  lemma RowIsScored(inp: Input, cfg: Config, c: Candidate)
    requires Accepted(inp, cfg) && c in inp.candidates && c.readiness in cfg.readinessRank && Eligibly(c, inp.scope, cfg).Eligible?
    ensures WellFormed(c, inp.scope, cfg) && RowOf(c, inp, cfg) in RowsOf(inp, cfg)
  {
    assert IsRow(inp, cfg, c, RowOf(c, inp, cfg));
  }

  /** So nothing the planner selects, keeps or ties was to be left out. */
  lemma SelectionIsOfferable(inp: Input, cfg: Config, o: Outcome)
    requires ProfileFile(cfg) && Evaluated(inp, cfg, o) && o.Succeeded? && o.decision.Select?
    ensures exists c :: c in inp.candidates && c.id == o.decision.id && c.readiness in cfg.readinessRank
                        && Offerable(c) && FitsScope(c, inp.scope) && ReadyEnough(c, cfg.readinessRank[c.readiness])
    ensures forall id | id in o.report.activated || id in o.report.tieSet ::
              exists c :: c in inp.candidates && c.id == id && c.readiness in cfg.readinessRank
                          && Offerable(c) && FitsScope(c, inp.scope) && ReadyEnough(c, cfg.readinessRank[c.readiness])
  {
    var rows := RowsOf(inp, cfg);
    RowsAreScored(inp, cfg);
    var w :| Wins(rows, cfg, w) && w.c.id == o.decision.id;
    RowIsOfferable(inp, cfg, o, w);
    forall id | id in o.report.activated || id in o.report.tieSet
      ensures exists c :: c in inp.candidates && c.id == id && c.readiness in cfg.readinessRank
                          && Offerable(c) && FitsScope(c, inp.scope) && ReadyEnough(c, cfg.readinessRank[c.readiness])
    {
      var r :| Kept(rows, r) && r.c.id == id;
      RowIsOfferable(inp, cfg, o, r);
    }
  }

  lemma RowIsOfferable(inp: Input, cfg: Config, o: Outcome, r: Row)
    requires ProfileFile(cfg) && Evaluated(inp, cfg, o) && o.Succeeded? && r in RowsOf(inp, cfg)
    ensures r.c in inp.candidates && r.c.readiness in cfg.readinessRank
    ensures Offerable(r.c) && FitsScope(r.c, inp.scope) && ReadyEnough(r.c, cfg.readinessRank[r.c.readiness])
  {
    assert r in o.scored;
    assert IsScored(o, r.c);
    ScoredExactly(inp, cfg, o, r.c);
  }

  // ---- who is excluded, and why ------------------------------------------------------------

  /** The order in which reasons are looked for. */
  function Place(reason: Reason): nat {
    match reason
    case Expired => 0
    case Deprecated => 1
    case Suppressed => 2
    case ModalityUnavailable => 3
    case HardPrerequisiteBlocked => 4
    case PrerequisiteUnknownUnresolved => 5
    case InJustChat => 6
    case OutsideTargetedScope => 7
    case NonLearningTaskScope => 8
    case ContentNotReady => 9
  }

  predicate Applies(reason: Reason, c: Candidate, scope: Scope, rank: int) {
    match reason
    case Expired => c.expired
    case Deprecated => c.deprecated
    case Suppressed => c.suppressed
    case ModalityUnavailable => !c.modalityAvailable
    case HardPrerequisiteBlocked => c.prerequisite == Blocked
    case PrerequisiteUnknownUnresolved => c.prerequisite == Unresolved && c.mode != Probe && !c.scaffoldable
    case InJustChat => scope == JustChat
    case OutsideTargetedScope => scope == TargetedLearningRequest && !c.requestAligned
    case NonLearningTaskScope => scope == NonLearningTask && !c.userInitiated && !c.taskAligned && !c.criticalRepair
    case ContentNotReady => !ReadyEnough(c, rank)
  }

  /** It applies, and no reason before it does. */
  ghost predicate FirstReason(reason: Reason, c: Candidate, scope: Scope, rank: int) {
    Applies(reason, c, scope, rank) && forall other: Reason | Place(other) < Place(reason) :: !Applies(other, c, scope, rank)
  }

  lemma EligibleMeans(c: Candidate, scope: Scope, cfg: Config)
    requires c.readiness in cfg.readinessRank && Eligibly(c, scope, cfg).Eligible?
    ensures forall reason: Reason :: !Applies(reason, c, scope, cfg.readinessRank[c.readiness])
  {
  }

  lemma ExcludedMeans(c: Candidate, scope: Scope, cfg: Config)
    requires c.readiness in cfg.readinessRank && Eligibly(c, scope, cfg).Excluded?
    ensures FirstReason(Eligibly(c, scope, cfg).reason, c, scope, cfg.readinessRank[c.readiness])
  {
  }

  lemma FirstReasonUnique(c: Candidate, scope: Scope, rank: int, reason: Reason, other: Reason)
    requires FirstReason(reason, c, scope, rank) && FirstReason(other, c, scope, rank)
    ensures reason == other
  {
    assert Place(reason) == Place(other);
    PlacesDiffer(reason, other);
  }

  lemma PlacesDiffer(reason: Reason, other: Reason)
    requires Place(reason) == Place(other)
    ensures reason == other
  {
  }

  lemma EligibilityReason(c: Candidate, scope: Scope, cfg: Config, reason: Reason)
    requires c.readiness in cfg.readinessRank
    ensures Eligibly(c, scope, cfg) == Excluded(reason) <==> FirstReason(reason, c, scope, cfg.readinessRank[c.readiness])
  {
    if Eligibly(c, scope, cfg).Eligible? {
      EligibleMeans(c, scope, cfg);
    } else {
      ExcludedMeans(c, scope, cfg);
      if FirstReason(reason, c, scope, cfg.readinessRank[c.readiness]) {
        FirstReasonUnique(c, scope, cfg.readinessRank[c.readiness], reason, Eligibly(c, scope, cfg).reason);
      }
    }
  }

  /** An exclusion is reported exactly for a candidate the reason applies to, no earlier reason applying. */
  lemma ExcludedExactly(inp: Input, cfg: Config, o: Outcome, id: Word, reason: Reason)
    requires ProfileFile(cfg) && Evaluated(inp, cfg, o) && o.Succeeded?
    ensures (id, reason) in o.excluded <==>
              exists c :: c in inp.candidates && c.id == id && c.readiness in cfg.readinessRank
                          && FirstReason(reason, c, inp.scope, cfg.readinessRank[c.readiness])
  {
    if (id, reason) in o.excluded {
      var c :| IsExcluded(inp, cfg, c, (id, reason));
      EligibilityReason(c, inp.scope, cfg, reason);
    }
    if c :| c in inp.candidates && c.id == id && c.readiness in cfg.readinessRank
            && FirstReason(reason, c, inp.scope, cfg.readinessRank[c.readiness]) {
      EligibilityReason(c, inp.scope, cfg, reason);
      assert IsExcluded(inp, cfg, c, (id, reason));
    }
  }

  // ---- when nothing is evaluated ---------------------------------------------------------------

  /** What is asked of one candidate by itself. */
  predicate Sound(c: Candidate, scope: Scope, cfg: Config) {
    && c.id != 0 && c.initiative in {Proactive, Opportunistic, Reactive}
    && (c.mode in {ResourcePractice, CapabilityPractice} <==> c.intent in {Establish, Develop, WithdrawSupport, ExpandRepertoire})
    && (c.mode == Probe <==> c.intent == ProbeIntent) && (c.mode == Review <==> c.intent == Consolidate)
    && (c.mode == Transfer <==> c.intent == TransferIntent) && c.mode != UnknownMode
    && c.readiness in cfg.readinessRank && c.service in {NoService, Watch, Due, Critical} && c.priority >= 0
    && c.prerequisite in {Ready, ReadyWithScaffold, Unresolved, Blocked} && (scope == JustChat ==> !c.userInitiated)
    && |c.benefit| == 11 && |c.cost| == 5
    && (forall k | 0 <= k < 11 :: 0.0 <= c.benefit[k] <= 1.0) && (forall k | 0 <= k < 5 :: 0.0 <= c.cost[k] <= 1.0)
    && (c.prerequisite == ReadyWithScaffold || (c.prerequisite == Unresolved && c.scaffoldable) ==>
          c.cost[3] >= cfg.scaffoldSupport && c.cost[1] >= cfg.scaffoldLoad)
  }

  // Evaluation raises exactly on an unknown scope or policy, or, once the context is complete and
  // valid, on an unsound candidate or one whose id or merged key another one has.
  lemma RaisedExactly(inp: Input, cfg: Config, o: Outcome)
    requires ProfileFile(cfg) && Evaluated(inp, cfg, o)
    ensures o.Raised? <==>
              || inp.scope == UnknownScope || inp.policy !in cfg.profiles
              || (inp.assemblyComplete && inp.snapshotValid
                  && !((forall i | 0 <= i < |inp.candidates| :: Sound(inp.candidates[i], inp.scope, cfg))
                       && forall i, j | 0 <= i < j < |inp.candidates| ::
                            inp.candidates[i].id != inp.candidates[j].id && KeyOf(inp.candidates[i]) != KeyOf(inp.candidates[j])))
    ensures o.Degraded? <==> !(inp.scope == UnknownScope || inp.policy !in cfg.profiles) && !(inp.assemblyComplete && inp.snapshotValid)
  {
    forall i | 0 <= i < |inp.candidates| ensures Sound(inp.candidates[i], inp.scope, cfg) <==> WellFormed(inp.candidates[i], inp.scope, cfg) {
      SoundIsWellFormed(inp.candidates[i], inp.scope, cfg);
    }
  }

  lemma SoundIsWellFormed(c: Candidate, scope: Scope, cfg: Config)
    ensures Sound(c, scope, cfg) <==> WellFormed(c, scope, cfg)
  {
  }

  // ---- scores and activation ---------------------------------------------------------------------

  lemma {:induction false} WeightedMoves(v: seq<real>, w: seq<real>, i: nat, x: real)
    requires |v| == |w| && i < |v|
    ensures Weighted(v[i := x], w) == Weighted(v, w) + (x - v[i]) * w[i]
  {
    if i == 0 {
      assert v[0 := x][1..] == v[1..];
      Regroup(x, v[0], w[0]);
    } else {
      assert v[i := x][1..] == v[1..][i - 1 := x];
      WeightedMoves(v[1..], w[1..], i - 1, x);
    }
  }

  lemma Regroup(x: real, y: real, w: real)
    ensures x * w == y * w + (x - y) * w
  {
  }

  lemma {:induction false} NothingWeighsNothing(v: seq<real>, w: seq<real>)
    requires |v| == |w| && forall k | 0 <= k < |v| :: v[k] == 0.0
    ensures Weighted(v, w) == 0.0
  {
    if v != [] { NothingWeighsNothing(v[1..], w[1..]); }
  }

  lemma ProductOfSum(m: real, a: real, b: real)
    ensures m * (a + b) == m * a + m * b
  {
  }

  /** A candidate that promises and costs nothing scores the service bonus: only a critical service, at a natural break, under two policies. */
  lemma UtilityOfNothing(c: Candidate, inp: Input, cfg: Config)
    requires Settled(inp, cfg) && WellFormed(c, inp.scope, cfg)
    requires (forall k | 0 <= k < BENEFITS :: c.benefit[k] == 0.0) && forall k | 0 <= k < COSTS :: c.cost[k] == 0.0
    ensures Utility(c, inp, cfg) ==
              if c.service == Critical && inp.naturalBreak && inp.policy in {Balanced, StudyFirst} && inp.policy in cfg.serviceBonus
              then cfg.serviceBonus[inp.policy] else 0.0
  {
    NothingWeighsNothing(c.benefit, cfg.benefitWeights);
    NothingWeighsNothing(c.cost, cfg.costWeights);
  }

  /** Each benefit counts with its own weight, under the multiplier of the initiative. */
  lemma BenefitCounts(c: Candidate, inp: Input, cfg: Config, i: nat, x: real)
    requires Settled(inp, cfg) && i < BENEFITS && WellFormed(c, inp.scope, cfg) && 0.0 <= x <= 1.0
    ensures var c' := c.(benefit := c.benefit[i := x]);
            WellFormed(c', inp.scope, cfg) &&
            Utility(c', inp, cfg) == Utility(c, inp, cfg) + cfg.profiles[inp.policy].multiplier[c.initiative] * ((x - c.benefit[i]) * cfg.benefitWeights[i])
  {
    WeightedMoves(c.benefit, cfg.benefitWeights, i, x);
    ProductOfSum(cfg.profiles[inp.policy].multiplier[c.initiative], Weighted(c.benefit, cfg.benefitWeights), (x - c.benefit[i]) * cfg.benefitWeights[i]);
  }

  /** Each cost counts against it with its own weight, under the policy's multiplier. */
  lemma CostCounts(c: Candidate, inp: Input, cfg: Config, i: nat, x: real)
    requires Settled(inp, cfg) && i < COSTS && WellFormed(c, inp.scope, cfg)
    requires WellFormed(c.(cost := c.cost[i := x]), inp.scope, cfg)
    ensures Utility(c.(cost := c.cost[i := x]), inp, cfg) ==
              Utility(c, inp, cfg) - cfg.profiles[inp.policy].costMultiplier * ((x - c.cost[i]) * cfg.costWeights[i])
  {
    WeightedMoves(c.cost, cfg.costWeights, i, x);
    ProductOfSum(cfg.profiles[inp.policy].costMultiplier, Weighted(c.cost, cfg.costWeights), (x - c.cost[i]) * cfg.costWeights[i]);
  }

  /** The learner asked for this very thing, in a request to learn. */
  predicate Asked(c: Candidate, scope: Scope) {
    c.userInitiated && scope in {LearningRequest, TargetedLearningRequest}
  }

  ghost predicate Worthwhile(c: Candidate, inp: Input, cfg: Config)
    requires Settled(inp, cfg) && WellFormed(c, inp.scope, cfg)
  {
    Asked(c, inp.scope) || cfg.profiles[inp.policy].threshold <= Utility(c, inp, cfg)
  }

  lemma ActivatedExactly(inp: Input, cfg: Config, r: Row)
    requires Accepted(inp, cfg) && r in RowsOf(inp, cfg)
    ensures WellFormed(r.c, inp.scope, cfg)
    ensures (r.activated <==> Worthwhile(r.c, inp, cfg)) && (r.userPath <==> Asked(r.c, inp.scope))
    ensures r.utility == cfg.round(Utility(r.c, inp, cfg))
  {
    RowOfItself(inp, cfg, r);
  }

  /** Something is selected exactly when a scored candidate was asked for or clears the policy's threshold. */
  lemma SelectsExactly(inp: Input, cfg: Config, o: Outcome)
    requires ProfileFile(cfg) && Evaluated(inp, cfg, o) && o.Succeeded?
    ensures o.decision.Select? <==>
              exists r :: r in o.scored && WellFormed(r.c, inp.scope, cfg) && Worthwhile(r.c, inp, cfg)
    ensures o.decision.NoEligible? <==> o.scored == []
  {
    var rows := RowsOf(inp, cfg);
    RowsAreScored(inp, cfg);
    if o.decision.Select? {
      var w :| Wins(rows, cfg, w) && w.c.id == o.decision.id;
      ActivatedExactly(inp, cfg, w);
      assert w in o.scored;
    }
    if r :| r in o.scored && WellFormed(r.c, inp.scope, cfg) && Worthwhile(r.c, inp, cfg) {
      ActivatedExactly(inp, cfg, r);
    }
    assert o.scored != [] ==> o.scored[0] in rows;
  }

  /** Below the threshold nothing scored is worthwhile, and what is named is of the greatest rounded utility, the largest id of those. */
  lemma BelowThresholdNamesTheTop(inp: Input, cfg: Config, o: Outcome, r: Row)
    requires ProfileFile(cfg) && Evaluated(inp, cfg, o) && o.Succeeded? && o.decision.BelowThreshold? && r in o.scored
    ensures WellFormed(r.c, inp.scope, cfg) && !Worthwhile(r.c, inp, cfg)
    ensures exists t: Row :: t in o.scored && t.c.id == o.decision.top
                             && (r.utility < t.utility || (r.utility == t.utility && r.c.id <= t.c.id))
  {
    var rows := RowsOf(inp, cfg);
    RowsAreScored(inp, cfg);
    ActivatedExactly(inp, cfg, r);
    var t :| Tops(rows, t) && t.c.id == o.decision.top;
    assert t in o.scored;
  }

  /** If anything was asked for, what is selected was asked for, and nothing asked for has a smaller priority number. */
  lemma RequestsComeFirst(inp: Input, cfg: Config, o: Outcome, r: Row)
    requires ProfileFile(cfg) && Evaluated(inp, cfg, o) && o.Succeeded? && o.decision.Select?
    requires r in o.scored && Asked(r.c, inp.scope)
    ensures o.decision.userPath
    ensures exists w :: w in o.scored && w.c.id == o.decision.id && Asked(w.c, inp.scope) && w.c.priority <= r.c.priority
  {
    var rows := RowsOf(inp, cfg);
    RowsAreScored(inp, cfg);
    ActivatedExactly(inp, cfg, r);
    var w :| Wins(rows, cfg, w) && w.c.id == o.decision.id && w.userPath == o.decision.userPath;
    ActivatedExactly(inp, cfg, w);
    assert Contends(rows, w) && w in o.scored;
  }

  // ---- ties ------------------------------------------------------------------------------------------

  /** The first of: aligned with the request, asked by the user, initiative, expiry, interruption, overexposure, load, id. */
  predicate Preferred(w: Candidate, r: Candidate, cfg: Config)
    requires w.initiative in cfg.initiativeRank && r.initiative in cfg.initiativeRank
    requires |w.benefit| == BENEFITS == |r.benefit| && |w.cost| == COSTS == |r.cost|
  {
    if w.requestAligned != r.requestAligned then w.requestAligned
    else if w.userInitiated != r.userInitiated then w.userInitiated
    else if cfg.initiativeRank[w.initiative] != cfg.initiativeRank[r.initiative]
      then cfg.initiativeRank[w.initiative] > cfg.initiativeRank[r.initiative]
    else if w.benefit[9] != r.benefit[9] then w.benefit[9] > r.benefit[9]
    else if w.cost[0] != r.cost[0] then w.cost[0] < r.cost[0]
    else if w.cost[2] != r.cost[2] then w.cost[2] < r.cost[2]
    else if w.cost[1] != r.cost[1] then w.cost[1] < r.cost[1]
    else w.id <= r.id
  }

  lemma BeatsIsPreferred(w: Row, r: Row, cfg: Config)
    requires Keyable(w, cfg) && Keyable(r, cfg) && Beats(w, r, cfg)
    ensures Preferred(w.c, r.c, cfg)
  {
    var a, b := TieKey(r, cfg), TieKey(w, cfg);
    LexUnfolds(a, b);
  }

  lemma LexUnfolds(a: seq<real>, b: seq<real>)
    requires |a| == KEY_LENGTH == |b|
    ensures LexLeq(a, b) <==>
              (if a[0] != b[0] then a[0] < b[0] else if a[1] != b[1] then a[1] < b[1] else if a[2] != b[2] then a[2] < b[2]
               else if a[3] != b[3] then a[3] < b[3] else if a[4] != b[4] then a[4] < b[4] else if a[5] != b[5] then a[5] < b[5]
               else a[6] <= b[6])
    ensures a == b <==> a[0] == b[0] && a[1] == b[1] && a[2] == b[2] && a[3] == b[3] && a[4] == b[4] && a[5] == b[5] && a[6] == b[6]
  {
    assert a[0..] == a && b[0..] == b;
    LexStep(a, b, 0); LexStep(a, b, 1); LexStep(a, b, 2); LexStep(a, b, 3); LexStep(a, b, 4); LexStep(a, b, 5); LexStep(a, b, 6);
  }

  lemma LexStep(a: seq<real>, b: seq<real>, i: nat)
    requires |a| == |b| && i < |a|
    ensures LexLeq(a[i..], b[i..]) <==> a[i] < b[i] || (a[i] == b[i] && LexLeq(a[i + 1..], b[i + 1..]))
  {
    assert a[i..][1..] == a[i + 1..] && b[i..][1..] == b[i + 1..];
  }

  /** The same to the planner but for what it promises and costs: no worse in anything, and not the same. */
  predicate Outclasses(a: Candidate, b: Candidate, scope: Scope) {
    && Asked(a, scope) == Asked(b, scope) && a.initiative == b.initiative && a.priority == b.priority && a.service == b.service
    && |a.benefit| == |b.benefit| && (forall k | 0 <= k < |a.benefit| :: b.benefit[k] <= a.benefit[k])
    && |a.cost| == |b.cost| && (forall k | 0 <= k < |a.cost| :: a.cost[k] <= b.cost[k])
    && !(a.benefit == b.benefit && a.cost == b.cost)
  }

  lemma OutclassesIsDominates(inp: Input, cfg: Config, a: Row, b: Row)
    requires Accepted(inp, cfg) && a in RowsOf(inp, cfg) && b in RowsOf(inp, cfg)
    ensures Outclasses(a.c, b.c, inp.scope) <==> Dominates(a, b)
  {
    assert a.userPath == Asked(a.c, inp.scope) by { ActivatedExactly(inp, cfg, a); }
    assert b.userPath == Asked(b.c, inp.scope) by { ActivatedExactly(inp, cfg, b); }
    SameRule(a, b, inp.scope);
  }

  lemma SameRule(a: Row, b: Row, scope: Scope)
    requires a.userPath == Asked(a.c, scope) && b.userPath == Asked(b.c, scope)
    ensures Outclasses(a.c, b.c, scope) <==> Dominates(a, b)
  {
    Differ(a.c.benefit, b.c.benefit);
    Differ(b.c.cost, a.c.cost);
  }

  lemma Differ(v: seq<real>, w: seq<real>)
    ensures AtLeast(v, w) ==> (v != w <==> SomewhereMore(v, w))
  {
    if AtLeast(v, w) && v != w {
      var k :| 0 <= k < |v| && v[k] != w[k];
    }
  }

  /** Worthwhile, and if anything was asked for, asked for with the smallest priority number. */
  ghost predicate InTheRunning(inp: Input, cfg: Config, o: Outcome, r: Row)
    requires Settled(inp, cfg) && o.Succeeded?
  {
    && r in o.scored && WellFormed(r.c, inp.scope, cfg) && Worthwhile(r.c, inp, cfg)
    && forall s | s in o.scored && Asked(s.c, inp.scope) :: Asked(r.c, inp.scope) && r.c.priority <= s.c.priority
  }

  ghost predicate Unbeaten(inp: Input, cfg: Config, o: Outcome, r: Row)
    requires Settled(inp, cfg) && o.Succeeded?
  {
    InTheRunning(inp, cfg, o, r) && forall s | InTheRunning(inp, cfg, o, s) :: !Outclasses(s.c, r.c, inp.scope)
  }

  ghost predicate AmongTheBest(inp: Input, cfg: Config, o: Outcome, r: Row)
    requires Settled(inp, cfg) && o.Succeeded?
  {
    Unbeaten(inp, cfg, o, r) && forall s | Unbeaten(inp, cfg, o, s) :: s.utility <= r.utility + cfg.epsilon
  }

  lemma RunningIsContending(inp: Input, cfg: Config, o: Outcome, r: Row)
    requires ProfileFile(cfg) && Evaluated(inp, cfg, o) && o.Succeeded?
    ensures InTheRunning(inp, cfg, o, r) <==> Contends(RowsOf(inp, cfg), r)
  {
    var rows := RowsOf(inp, cfg);
    forall s | s in o.scored || s in rows
      ensures s in o.scored && s in rows && WellFormed(s.c, inp.scope, cfg)
      ensures (s.activated <==> Worthwhile(s.c, inp, cfg)) && (s.userPath <==> Asked(s.c, inp.scope))
    {
      ActivatedExactly(inp, cfg, s);
    }
  }

  lemma UnbeatenIsKept(inp: Input, cfg: Config, o: Outcome, r: Row)
    requires ProfileFile(cfg) && Evaluated(inp, cfg, o) && o.Succeeded?
    ensures Unbeaten(inp, cfg, o, r) <==> Kept(RowsOf(inp, cfg), r)
  {
    RunningIsContending(inp, cfg, o, r);
    forall s ensures InTheRunning(inp, cfg, o, s) <==> Contends(RowsOf(inp, cfg), s) { RunningIsContending(inp, cfg, o, s); }
    forall s | r in RowsOf(inp, cfg) && s in RowsOf(inp, cfg)
      ensures Outclasses(s.c, r.c, inp.scope) <==> Dominates(s, r)
    {
      OutclassesIsDominates(inp, cfg, s, r);
    }
  }

  lemma BestAreTied(inp: Input, cfg: Config, o: Outcome, r: Row)
    requires ProfileFile(cfg) && Evaluated(inp, cfg, o) && o.Succeeded?
    ensures AmongTheBest(inp, cfg, o, r) <==> Tied(RowsOf(inp, cfg), cfg, r)
  {
    forall s ensures Unbeaten(inp, cfg, o, s) <==> Kept(RowsOf(inp, cfg), s) { UnbeatenIsKept(inp, cfg, o, s); }
  }

  /** A SELECT reports as kept exactly the unbeaten candidates, and as tied exactly those among the best. */
  lemma ReportedExactly(inp: Input, cfg: Config, o: Outcome, id: Word)
    requires ProfileFile(cfg) && Evaluated(inp, cfg, o) && o.Succeeded? && o.decision.Select?
    ensures id in o.report.activated <==> exists r :: Unbeaten(inp, cfg, o, r) && r.c.id == id
    ensures id in o.report.tieSet <==> exists r :: AmongTheBest(inp, cfg, o, r) && r.c.id == id
  {
    forall r ensures Unbeaten(inp, cfg, o, r) <==> Kept(RowsOf(inp, cfg), r) { UnbeatenIsKept(inp, cfg, o, r); }
    forall r ensures AmongTheBest(inp, cfg, o, r) <==> Tied(RowsOf(inp, cfg), cfg, r) { BestAreTied(inp, cfg, o, r); }
  }

  ghost predicate Beaten(inp: Input, cfg: Config, o: Outcome, p: (Word, Word), r: Row, s: Row)
    requires Settled(inp, cfg) && o.Succeeded?
  {
    && r.c.id == p.0 && s.c.id == p.1 && InTheRunning(inp, cfg, o, r) && InTheRunning(inp, cfg, o, s)
    && Outclasses(s.c, r.c, inp.scope)
  }

  /** Whatever was in the running and is beaten is reported, and only that, each with one that outclasses it. */
  lemma BeatenAreReported(inp: Input, cfg: Config, o: Outcome)
    requires ProfileFile(cfg) && Evaluated(inp, cfg, o) && o.Succeeded? && o.decision.Select?
    ensures forall p | p in o.report.dominated :: exists r: Row, s: Row :: Beaten(inp, cfg, o, p, r, s)
    ensures forall r | InTheRunning(inp, cfg, o, r) && !Unbeaten(inp, cfg, o, r) :: exists p :: p in o.report.dominated && p.0 == r.c.id
  {
    var rows := RowsOf(inp, cfg);
    forall p | p in o.report.dominated ensures exists r: Row, s: Row :: Beaten(inp, cfg, o, p, r, s) {
      var r: Row, s: Row :| DropsFor(rows, p, r, s);
      RunningIsContending(inp, cfg, o, r);
      RunningIsContending(inp, cfg, o, s);
      OutclassesIsDominates(inp, cfg, s, r);
      assert Beaten(inp, cfg, o, p, r, s);
    }
    forall r | InTheRunning(inp, cfg, o, r) && !Unbeaten(inp, cfg, o, r)
      ensures exists p :: p in o.report.dominated && p.0 == r.c.id
    {
      RunningIsContending(inp, cfg, o, r);
      UnbeatenIsKept(inp, cfg, o, r);
    }
  }

  // What is selected is in the running, unbeaten and within epsilon of every other unbeaten candidate,
  // and of all those it is preferred to every other.
  lemma SelectedIsPreferred(inp: Input, cfg: Config, o: Outcome, r: Row)
    requires ProfileFile(cfg) && Evaluated(inp, cfg, o) && o.Succeeded? && o.decision.Select?
    requires AmongTheBest(inp, cfg, o, r)
    ensures exists w: Row :: w.c.id == o.decision.id && AmongTheBest(inp, cfg, o, w) && Keyable(w, cfg) && Keyable(r, cfg)
                        && Preferred(w.c, r.c, cfg)
  {
    var rows := RowsOf(inp, cfg);
    RowsAreScored(inp, cfg);
    BestAreTied(inp, cfg, o, r);
    var w :| Wins(rows, cfg, w) && w.c.id == o.decision.id;
    BestAreTied(inp, cfg, o, w);
    BeatsIsPreferred(w, r, cfg);
  }
}
