// Failures dated before others of their cluster. Where the weights fall they can raise an estimate,
// and the claims that show it are built here, for any profile and with the shipped numbers.
module EstimatorEarly {
  import opened EstimatorClaims
  import opened EstimatorMass
  import opened EstimatorFiles
  import opened EstimatorTheorems
  import opened EstimatorInsertion
  import opened EstimatorGrowth
  import opened Ordering

  // ---- claims that are groups of their own ------------------------------------------------------

  ghost predicate Loners(s: set<Claim>) {
    forall c, d | c in s && d in s && c.group == d.group :: c == d
  }

  lemma LoneValue(s: set<Claim>, c: Claim, f: Claim -> real)
    requires Loners(s) && c in s && 0.0 <= f(c)
    ensures GroupValue(s, c, f) == f(c)
  {
    assert GroupOf(s, c.group) == {c};
    assert IsStrongest({c}, f, f(c));
    StrongestUnique({c}, f, GroupValue(s, c, f), f(c));
  }

  ghost predicate Weighing(s: set<Claim>, l: seq<Claim>, f: Claim -> real) {
    forall i | 0 <= i < |l| :: l[i] in s && 0.0 < f(l[i])
  }

  lemma {:induction false} LoneValues(s: set<Claim>, l: seq<Claim>, f: Claim -> real)
    requires Loners(s) && Weighing(s, l, f)
    ensures Values(s, l, f) == Each(l, f)
  {
    if l != [] {
      var n := |l| - 1;
      LoneValues(s, l[..n], f);
      LoneValue(s, l[n], f);
      assert Each(l, f) == Each(l[..n], f) + [f(l[n])];
    }
  }

  // ---- one cluster of failures and one success beside it -------------------------------------------

  function All(l: seq<Claim>, good: Claim): set<Claim> {
    (set c | c in l) + {good}
  }

  function FileFor(l: seq<Claim>, good: Claim): File {
    map[Teaching(1) := l, Teaching(2) := [good]]
  }

  /** Failures of one teaching moment in time order, after a success of another. */
  ghost predicate Story(l: seq<Claim>, good: Claim) {
    && l != [] && good.moment == Some(2)
    && (forall i | 0 <= i < |l| :: l[i].moment == Some(1) && good.timestamp < l[i].timestamp)
    && (forall i, j | 0 <= i < j < |l| :: l[i].timestamp < l[j].timestamp)
    && Loners(All(l, good))
  }

  lemma StoryFiled(l: seq<Claim>, good: Claim)
    requires Story(l, good)
    ensures Filed(All(l, good), FileFor(l, good))
  {
    var s, file := All(l, good), FileFor(l, good);
    forall c | c in s ensures KeyOf(c) == if c == good then Teaching(2) else Teaching(1) {}
    assert l[0] in s && KeyOf(l[0]) == Teaching(1) && good in s && KeyOf(good) == Teaching(2);
    assert KeysOf(s) == {Teaching(1), Teaching(2)};
    assert good !in l;
    assert Lists(l, KeyedBy(s, Teaching(1)));
    assert KeyedBy(s, Teaching(2)) == {good};
    assert Lists([good], KeyedBy(s, Teaching(2)));
  }

  lemma StoryChosen(l: seq<Claim>, good: Claim)
    requires Story(l, good)
    ensures AbilityChosen(All(l, good), All(l, good), FileFor(l, good))
  {
    StoryFiled(l, good);
    forall r | r in All(l, good) ensures Earliest(All(l, good), r) {}
  }

  /** A further failure of the same moment, at its own time. */
  ghost predicate Joins(l: seq<Claim>, good: Claim, e: Claim) {
    && e.moment == Some(1) && e.polarity.Negative? && good.timestamp < e.timestamp
    && (forall c | c in All(l, good) :: c.group != e.group)
    && forall i | 0 <= i < |l| :: l[i].timestamp != e.timestamp
  }

  lemma JoinedIsNew(l: seq<Claim>, good: Claim, e: Claim)
    requires Joins(l, good, e)
    ensures NewGroup(All(l, good), {e}, e.group) && Earliest({e}, e) && e !in All(l, good)
  {
  }

  lemma StoryTimes(l: seq<Claim>, good: Claim, c: Claim, d: Claim)
    requires Story(l, good) && c in l && d in l && c != d
    ensures c.timestamp != d.timestamp
  {
    var i :| 0 <= i < |l| && l[i] == c;
    var j :| 0 <= j < |l| && l[j] == d;
    assert i < j || j < i;
  }

  lemma JoinedTimes(l: seq<Claim>, good: Claim, e: Claim)
    requires Story(l, good) && Joins(l, good, e)
    ensures DistinctTimes(All(l, good) + {e})
  {
    assert forall c | c in l :: good.timestamp < c.timestamp && c.timestamp != e.timestamp;
    forall c, d | c in All(l, good) + {e} && d in All(l, good) + {e} && c != d ensures c.timestamp != d.timestamp {
      if c in l && d in l { StoryTimes(l, good, c, d); }
    }
  }

  lemma JoinedChosen(l: seq<Claim>, good: Claim, e: Claim)
    requires Story(l, good) && Joins(l, good, e)
    ensures AbilityChosen(All(l, good) + {e}, All(l, good) + {e}, Placed(FileFor(l, good), e))
  {
    var s := All(l, good);
    JoinedIsNew(l, good, e);
    assert Exemplars(s, s) && Filed(s, FileFor(l, good)) by { StoryChosen(l, good); }
    NewExemplars(s, {e}, e.group, s, e);
    PlacedFile(s, FileFor(l, good), e);
  }

  // ---- the estimate follows the cluster ------------------------------------------------------------

  ghost function EstimateFor(s: set<Claim>, file: File, cfg: Config, d: Dim): Option<real>
    requires cfg.repeatWeights != []
  {
    EstimateOf(AbilityOf(s, file, cfg, d), cfg)
  }

  ghost predicate Rises(before: Option<real>, after: Option<real>) {
    before.Some? && after.Some? && before.value < after.value
  }

  /** A failure that costs its cluster mass raises every estimate that rests on enough successes. */
  lemma LosingClusterRaises(s: set<Claim>, reps: set<Claim>, file: File, e: Claim, reps': set<Claim>, cfg: Config, d: Dim)
    requires ProfileFile(cfg) && NewGroup(s, {e}, e.group) && DistinctTimes(s + {e}) && e.polarity.Negative?
    requires AbilityChosen(s, reps, file) && AbilityChosen(s + {e}, reps', Placed(file, e))
    requires MassIn(s + {e}, WithClaim(file, e), NegAt(cfg, d), cfg) < MassIn(s, ClusterOf(file, e), NegAt(cfg, d), cfg)
    requires 0.0 < Mass(s, file, PosAt(cfg, d), cfg) && cfg.minMass <= Mass(s, file, PosAt(cfg, d), cfg)
    ensures Rises(EstimateFor(s, file, cfg, d), EstimateFor(s + {e}, Placed(file, e), cfg, d))
  {
    var a, a' := AbilityOf(s, file, cfg, d), AbilityOf(s + {e}, Placed(file, e), cfg, d);
    assert a'.neg < a.neg by { NewMass(s, {e}, e.group, reps, file, e, NegAt(cfg, d), cfg); }
    assert a'.pos == a.pos by { SamePositive(s, reps, file, e, reps', cfg, d); }
    assert 0.0 <= a'.neg by { AbilityNonNegative(s + {e}, Placed(file, e), cfg, d); }
    LessIsMore(a, a', cfg);
  }

  lemma SamePositive(s: set<Claim>, reps: set<Claim>, file: File, e: Claim, reps': set<Claim>, cfg: Config, d: Dim)
    requires ProfileFile(cfg) && NewGroup(s, {e}, e.group) && DistinctTimes(s + {e}) && e.polarity.Negative?
    requires AbilityChosen(s, reps, file) && AbilityChosen(s + {e}, reps', Placed(file, e))
    ensures Mass(s, file, PosAt(cfg, d), cfg) == Mass(s + {e}, Placed(file, e), PosAt(cfg, d), cfg)
  {
    assert PosAt(cfg, d)(e) == 0.0;
    assert Earliest({e}, e);
    GroupOnlyAdds(s, {e}, e.group, e, reps, file, reps', Placed(file, e), PosAt(cfg, d), cfg);
  }

  lemma LessIsMore(a: Ability, a': Ability, cfg: Config)
    requires 0.0 < a.pos == a'.pos && cfg.minMass <= a.pos && 0.0 <= a'.neg < a.neg
    ensures Rises(EstimateOf(a, cfg), EstimateOf(a', cfg))
  {
    LessOfTheBad(a.pos, a.neg, a'.neg);
  }

  // ---- the cluster of the story ----------------------------------------------------------------------

  lemma StoryRank(l: seq<Claim>, good: Claim, e: Claim, f: Claim -> real)
    requires Story(l, good) && e.moment == Some(1) && Weighing(All(l, good), l, f)
    ensures var s, file := All(l, good), FileFor(l, good);
            && ClusterOf(file, e) == l && Values(s, l, f) == Each(l, f)
            && Rank(s, file, e, f) == Slot(l, e) && Size(s, file, e, f) == |l|
  {
    var s, file := All(l, good), FileFor(l, good);
    assert KeyOf(e) == Teaching(1) && file[Teaching(1)] == l;
    LoneValues(s, l, f);
    LoneValues(s, l[..Slot(l, e)], f);
  }

  lemma StoryCluster(l: seq<Claim>, good: Claim, e: Claim, f: Claim -> real)
    requires Story(l, good) && Joins(l, good, e)
    requires 0.0 < f(e) && Weighing(All(l, good), l, f)
    ensures var s, file := All(l, good), FileFor(l, good);
            Values(s + {e}, WithClaim(file, e), f) == InsertedAt(Each(l, f), Slot(l, e), f(e))
  {
    var s, file := All(l, good), FileFor(l, good);
    StoryRank(l, good, e, f);
    JoinedValue(l, good, e, f);
    assert NewGroup(s, {e}, e.group) by { JoinedIsNew(l, good, e); }
    assert AbilityChosen(s, s, file) by { StoryChosen(l, good); }
    NewValues(s, {e}, e.group, s, file, e, f);
  }

  lemma JoinedValue(l: seq<Claim>, good: Claim, e: Claim, f: Claim -> real)
    requires Story(l, good) && Joins(l, good, e) && 0.0 < f(e)
    ensures GroupValue(All(l, good) + {e}, e, f) == f(e)
  {
    assert Loners(All(l, good) + {e});
    LoneValue(All(l, good) + {e}, e, f);
  }

  lemma GoodCounts(l: seq<Claim>, good: Claim, f: Claim -> real, cfg: Config)
    requires Story(l, good) && ProfileFile(cfg) && 0.0 < f(good)
    ensures ClusterMass([f(good)], cfg) <= Mass(All(l, good), FileFor(l, good), f, cfg)
  {
    var s, file := All(l, good), FileFor(l, good);
    var m := Masses(s, file, f, cfg);
    assert Weighing(s, [good], f);
    LoneValues(s, [good], f);
    assert Each([good], f) == [f(good)];
    SumTakes(m, Teaching(2));
    forall k | k in file ensures 0.0 <= m[k] { ClusterNonNegative(Values(s, file[k], f), cfg); }
    SumNonNegative(m - {Teaching(2)});
  }

  /** What the story comes to, told by the values of its claims. */
  lemma EarlyFailureRaises(l: seq<Claim>, good: Claim, e: Claim, cfg: Config, d: Dim)
    requires Story(l, good) && Joins(l, good, e) && ProfileFile(cfg)
    requires 0.0 < NegAt(cfg, d)(e) && Weighing(All(l, good), l, NegAt(cfg, d)) && 0.0 < PosAt(cfg, d)(good)
    requires !Holds(cfg, Each(l, NegAt(cfg, d)), Slot(l, e), NegAt(cfg, d)(e))
    requires 0.0 < ClusterMass([PosAt(cfg, d)(good)], cfg) && cfg.minMass <= ClusterMass([PosAt(cfg, d)(good)], cfg)
    ensures var s, file := All(l, good), FileFor(l, good);
            && AbilityChosen(s, s, file) && AbilityChosen(s + {e}, s + {e}, Placed(file, e)) && DistinctTimes(s + {e})
            && Rises(EstimateFor(s, file, cfg, d), EstimateFor(s + {e}, Placed(file, e), cfg, d))
  {
    var s, file := All(l, good), FileFor(l, good);
    StoryChosen(l, good);
    JoinedChosen(l, good, e);
    JoinedTimes(l, good, e);
    JoinedIsNew(l, good, e);
    StoryRank(l, good, e, NegAt(cfg, d));
    StoryCluster(l, good, e, NegAt(cfg, d));
    GoodCounts(l, good, PosAt(cfg, d), cfg);
    LosingClusterRaises(s, s, file, e, s + {e}, cfg, d);
  }

  lemma LessOfTheBad(pos: real, neg: real, neg': real)
    requires 0.0 < pos && 0.0 <= neg' < neg
    ensures Share(pos, neg) < Share(pos, neg')
  {
    var q, q' := Share(pos, neg), Share(pos, neg');
    assert q * (pos + neg) == pos && q' * (pos + neg') == pos;
    assert q * (pos + neg) == q * (pos + neg') + q * (neg - neg');
    PositiveFactor(pos + neg, q);
    PositiveFactor(q, neg - neg');
    if q' <= q { Monotone(pos + neg', q', q); }
  }

  // ---- claims of any strength ---------------------------------------------------------------------

  const TARGET := Target(1, 1, 1)

  /** A failed recognition in teaching moment 1. */
  function Miss(group: Word, time: Instant, confidence: real, attribution: Word): Claim {
    Claim(group, TARGET, true, RecognitionTask, NoSupport, NoExposure, false, confidence, Failure, Negative, attribution,
          None, None, OtherTry, time, Some(1), 0, None, None, None, {})
  }

  /** A recognition in teaching moment 2, before all of them. */
  function Recognized(confidence: real): Claim {
    Miss(-1, -1, confidence, 0).(outcome := Success, polarity := Positive, moment := Some(2))
  }

  /** Successes and failures of recognition both weigh something. */
  ghost predicate Observable(cfg: Config, word: Word) {
    && RecognitionTask in cfg.mapping && 0.0 < Get(cfg.mapping[RecognitionTask], Recognition, 0.0)
    && 0.0 < Get(cfg.outcomeFactor, Success, 1.0) && 0.0 < Get(cfg.outcomeFactor, Failure, 1.0)
    && 0.0 < Get(cfg.supportFactor, NoSupport, 1.0) && 0.0 < Get(cfg.exposureFactor, NoExposure, 1.0)
    && 0.0 < Get(cfg.errorMultiplier, word, 0.6) && 0.0 < cfg.capMultiple
  }

  function MissFactor(cfg: Config, word: Word): real {
    Get(cfg.outcomeFactor, Failure, 1.0) * Get(cfg.errorMultiplier, word, 0.6)
  }

  lemma MissWeighs(cfg: Config, group: Word, time: Instant, confidence: real, word: Word)
    requires cfg.minConfidence <= confidence
    ensures NegAt(cfg, Recognition)(Miss(group, time, confidence, word)) == Times(MissFactor(cfg, word))(confidence)
  {
    var of, em := Get(cfg.outcomeFactor, Failure, 1.0), Get(cfg.errorMultiplier, word, 0.6);
    assert 1.0 * of * confidence * em == of * em * confidence;
  }

  function HitFactor(cfg: Config): real
    requires RecognitionTask in cfg.mapping
  {
    Get(cfg.mapping[RecognitionTask], Recognition, 0.0) * Get(cfg.outcomeFactor, Success, 1.0)
    * Min(Get(cfg.supportFactor, NoSupport, 1.0), Get(cfg.exposureFactor, NoExposure, 1.0))
  }

  lemma HitWeighs(cfg: Config, confidence: real)
    requires RecognitionTask in cfg.mapping && cfg.minConfidence <= confidence
    ensures PosAt(cfg, Recognition)(Recognized(confidence)) == Times(HitFactor(cfg))(confidence)
  {
    var w, of := Get(cfg.mapping[RecognitionTask], Recognition, 0.0), Get(cfg.outcomeFactor, Success, 1.0);
    var assist := Min(Get(cfg.supportFactor, NoSupport, 1.0), Get(cfg.exposureFactor, NoExposure, 1.0));
    Regroup(w, of, confidence, assist);
  }

  lemma Regroup(w: real, of: real, c: real, assist: real)
    ensures w * of * c * assist == w * of * assist * c
  {
    assert (w * of) * c * assist == (w * of) * assist * c;
  }

  lemma FactorsArePositive(cfg: Config, word: Word)
    requires Observable(cfg, word)
    ensures 0.0 < MissFactor(cfg, word) && 0.0 < HitFactor(cfg)
  {
    PositiveFactor(Get(cfg.outcomeFactor, Failure, 1.0), Get(cfg.errorMultiplier, word, 0.6));
    var w, of := Get(cfg.mapping[RecognitionTask], Recognition, 0.0), Get(cfg.outcomeFactor, Success, 1.0);
    PositiveFactor(w, of);
    PositiveFactor(w * of, Min(Get(cfg.supportFactor, NoSupport, 1.0), Get(cfg.exposureFactor, NoExposure, 1.0)));
  }

  /** Failures of given confidences: the k-th at time 2k + 1, and a newcomer before the i-th at time 2i. */
  function Told(confidences: seq<real>, word: Word): (l: seq<Claim>)
    ensures |l| == |confidences|
    ensures forall k | 0 <= k < |l| :: l[k] == Miss(k, 2 * k + 1, confidences[k], word)
  {
    seq(|confidences|, k requires 0 <= k < |confidences| => Miss(k, 2 * k + 1, confidences[k], word))
  }

  function Newcomer(n: nat, i: nat, confidence: real, word: Word): Claim {
    Miss(n, 2 * i, confidence, word)
  }

  lemma ToldGroups(l: seq<Claim>, good: Claim, c: Claim)
    requires c in All(l, good) && good.group == -1 && forall k | 0 <= k < |l| :: l[k].group == k
    ensures if c.group == -1 then c == good else 0 <= c.group < |l| && c == l[c.group]
  {
    if c in l { var k :| 0 <= k < |l| && l[k] == c; }
  }

  lemma ToldIsAStory(confidences: seq<real>, word: Word, confidence: real)
    requires confidences != []
    ensures Story(Told(confidences, word), Recognized(confidence))
  {
    var l, good := Told(confidences, word), Recognized(confidence);
    forall c, d | c in All(l, good) && d in All(l, good) && c.group == d.group ensures c == d {
      ToldGroups(l, good, c);
      ToldGroups(l, good, d);
    }
  }

  lemma NewcomerJoins(confidences: seq<real>, word: Word, confidence: real, i: nat, late: real)
    requires i <= |confidences|
    ensures Joins(Told(confidences, word), Recognized(confidence), Newcomer(|confidences|, i, late, word))
  {
    var l, good := Told(confidences, word), Recognized(confidence);
    forall c | c in All(l, good) ensures c.group != |confidences| { ToldGroups(l, good, c); }
  }

  lemma NewcomerSlot(confidences: seq<real>, word: Word, i: nat, late: real)
    requires i <= |confidences|
    ensures Slot(Told(confidences, word), Newcomer(|confidences|, i, late, word)) == i
  {
    var l, e := Told(confidences, word), Newcomer(|confidences|, i, late, word);
    SlotSplits(l, e);
    var p := Slot(l, e);
    assert p < |l| ==> l[p].timestamp == 2 * p + 1;
    assert i < |l| ==> l[i].timestamp == 2 * i + 1;
  }

  // ---- the exact condition ------------------------------------------------------------------------------

  /** A negative group arrives: the claims before it, its claims and exemplar, and the choices before and after. */
  datatype Arrival = Arrival(
    s: set<Claim>, late: set<Claim>, e: Claim, reps: set<Claim>, file: File, repsAfter: set<Claim>, fileAfter: File)

  ghost predicate Arrives(a: Arrival) {
    && NewGroup(a.s, a.late, a.e.group) && DistinctTimes(a.s + a.late) && Earliest(a.late, a.e)
    && AbilityChosen(a.s, a.reps, a.file) && AbilityChosen(a.s + a.late, a.repsAfter, a.fileAfter)
    && forall c | c in a.late :: c.polarity.Negative?
  }

  /** It comes i-th among the n groups of its cluster that already weigh on the dimension. */
  ghost predicate ComesAt(a: Arrival, cfg: Config, d: Dim, i: nat, n: nat) {
    Rank(a.s, a.file, a.e, NegAt(cfg, d)) == i && Size(a.s, a.file, a.e, NegAt(cfg, d)) == n
  }

  ghost predicate NotRaised(a: Arrival, cfg: Config, d: Dim)
    requires cfg.repeatWeights != []
  {
    var before, after := EstimateFor(a.s, a.file, cfg, d), EstimateFor(a.s + a.late, a.fileAfter, cfg, d);
    before.Some? ==> after.Some? && after.value <= before.value
  }

  ghost predicate NeverRaises(cfg: Config, d: Dim, i: nat, n: nat)
    requires cfg.repeatWeights != []
  {
    forall a: Arrival | Arrives(a) && ComesAt(a, cfg, d, i, n) :: NotRaised(a, cfg, d)
  }

  lemma SafeArrival(a: Arrival, cfg: Config, d: Dim, i: nat, n: nat)
    requires ProfileFile(cfg) && Arrives(a) && ComesAt(a, cfg, d, i, n) && SafePlace(cfg, i, n)
    ensures NotRaised(a, cfg, d)
  {
    if EstimateFor(a.s, a.file, cfg, d).Some? {
      FailureNeverRaises(a.s, a.late, a.e.group, a.e, a.reps, a.file, a.repsAfter, a.fileAfter, cfg, d);
    }
  }

  function Scaled(k: real, vals: seq<real>): (r: seq<real>)
    ensures |r| == |vals| && forall m | 0 <= m < |r| :: r[m] == Times(k)(vals[m])
  {
    seq(|vals|, m requires 0 <= m < |vals| => Times(k)(vals[m]))
  }

  lemma ScaledInsertion(k: real, vals: seq<real>, s: seq<real>, i: nat, v: real)
    requires i <= |vals| && Image(Times(k), vals, s)
    ensures Image(Times(k), InsertedAt(vals, i, v), InsertedAt(s, i, Times(k)(v)))
  {
  }

  lemma StretchedStrictly(k: real, x: real, y: real)
    requires 0.0 < k && x < y
    ensures Times(k)(x) < Times(k)(y)
  {
    PositiveFactor(k, y - x);
    assert k * y == k * x + k * (y - x);
  }

  /** Losing does not depend on the scale. */
  lemma ScaledLoss(cfg: Config, vals: seq<real>, i: nat, v: real, k: real, s: seq<real>)
    requires cfg.repeatWeights != [] && i <= |vals| && 0.0 < k && Image(Times(k), vals, s) && !Holds(cfg, vals, i, v)
    ensures !Holds(cfg, s, i, Times(k)(v))
  {
    FactorStretches(k);
    var more, more' := InsertedAt(vals, i, v), InsertedAt(s, i, Times(k)(v));
    assert ClusterMass(s, cfg) == Times(k)(ClusterMass(vals, cfg)) by { ClusterStretches(Times(k), vals, s, cfg); }
    assert ClusterMass(more', cfg) == Times(k)(ClusterMass(more, cfg)) by {
      ScaledInsertion(k, vals, s, i, v);
      ClusterStretches(Times(k), more, more', cfg);
    }
    StretchedStrictly(k, ClusterMass(more, cfg), ClusterMass(vals, cfg));
  }

  /** A scale at which every value is a confidence the profile admits. */
  lemma ScaleUp(floor: real, v: real) returns (k: real)
    requires 0.0 <= floor && 0.0 < v
    ensures 0.0 < k && forall x :: v <= x ==> floor <= Times(k)(x)
  {
    var q := floor / v;
    assert q * v == floor;
    NonNegativeFactor(q, v);
    k := q + 1.0;
    forall x | v <= x ensures floor <= Times(k)(x) {
      Monotone(k, v, x);
      assert k * v == q * v + v;
    }
  }

  lemma LoneMass(p: real, cfg: Config)
    requires ProfileFile(cfg) && 0.0 <= p
    ensures ClusterMass([p], cfg) == Times(Effective(cfg, 0))(p)
  {
    assert [p][..0] == [] && Diminished([p], cfg) == Plus(0.0, Weight(cfg, 0), p);
    assert Largest([p]) == p;
    LoneCap(Weight(cfg, 0), cfg.capMultiple, p);
  }

  lemma LoneCap(w: real, cap: real, p: real)
    requires 0.0 <= p
    ensures Capped(Plus(0.0, w, p), cap, p) == Times(Min(w, cap))(p)
  {
    if w <= cap { Monotone(p, w, cap); } else { Monotone(p, cap, w); }
  }

  /** A success sure enough to make the estimate known. */
  lemma SureEnough(cfg: Config, word: Word) returns (confidence: real)
    requires ProfileFile(cfg) && Observable(cfg, word) && 0.0 < Weight(cfg, 0)
    ensures cfg.minConfidence <= confidence && 0.0 < Times(HitFactor(cfg))(confidence)
    ensures var p := Times(HitFactor(cfg))(confidence); 0.0 < ClusterMass([p], cfg) && cfg.minMass <= ClusterMass([p], cfg)
  {
    FactorsArePositive(cfg, word);
    var m := Effective(cfg, 0);
    var k := ScaleUp(cfg.minMass, m);
    var q := k / HitFactor(cfg);
    assert q * HitFactor(cfg) == k;
    NonNegativeFactor(q, HitFactor(cfg));
    confidence := q + cfg.minConfidence + 1.0;
    var p := Times(HitFactor(cfg))(confidence);
    assert k <= p by { TimesMonotone(HitFactor(cfg), q, confidence); }
    LoneMass(p, cfg);
    Outweighs(m, k, p);
  }

  lemma Outweighs(m: real, k: real, p: real)
    requires 0.0 < m && 0.0 < k <= p
    ensures 0.0 < Times(m)(p) && Times(k)(m) <= Times(m)(p)
  {
    PositiveFactor(m, p);
    Monotone(m, k, p);
  }

  lemma TwiceScaled(a: real, b: real, x: real)
    ensures Times(a)(Times(b)(x)) == Times(a * b)(x)
  {
    assert a * (b * x) == a * b * x;
  }

  function ToldFactor(cfg: Config, word: Word, k: real): real {
    MissFactor(cfg, word) * k
  }

  ghost predicate Tells(c: Claim, f: Claim -> real, factor: real, x: real) {
    f(c) == Times(factor)(x) && 0.0 < f(c)
  }

  lemma ScaledMiss(cfg: Config, group: Word, time: Instant, k: real, x: real, word: Word)
    requires Observable(cfg, word) && 0.0 < k && 0.0 < x && cfg.minConfidence <= Times(k)(x)
    ensures 0.0 < ToldFactor(cfg, word, k)
    ensures Tells(Miss(group, time, Times(k)(x), word), NegAt(cfg, Recognition), ToldFactor(cfg, word, k), x)
  {
    FactorsArePositive(cfg, word);
    MissWeighs(cfg, group, time, Times(k)(x), word);
    TwiceScaled(MissFactor(cfg, word), k, x);
    PositiveFactor(MissFactor(cfg, word), k);
    PositiveFactor(ToldFactor(cfg, word, k), x);
  }

  lemma TellingWeighs(l: seq<Claim>, f: Claim -> real, factor: real, vals: seq<real>, good: Claim)
    requires |l| == |vals| && forall m | 0 <= m < |vals| :: Tells(l[m], f, factor, vals[m])
    ensures Weighing(All(l, good), l, f) && Image(Times(factor), vals, Each(l, f))
  {
  }

  lemma ToldWeighs(cfg: Config, word: Word, vals: seq<real>, k: real, confidence: real)
    requires Observable(cfg, word) && 0.0 < k && AllPositive(vals)
    requires forall m | 0 <= m < |vals| :: cfg.minConfidence <= Times(k)(vals[m])
    ensures var l := Told(Scaled(k, vals), word);
            && Weighing(All(l, Recognized(confidence)), l, NegAt(cfg, Recognition))
            && Image(Times(ToldFactor(cfg, word, k)), vals, Each(l, NegAt(cfg, Recognition)))
  {
    var l, f, factor := Told(Scaled(k, vals), word), NegAt(cfg, Recognition), ToldFactor(cfg, word, k);
    forall m | 0 <= m < |vals| ensures Tells(l[m], f, factor, vals[m]) {
      ScaledMiss(cfg, m, 2 * m + 1, k, vals[m], word);
    }
    TellingWeighs(l, f, factor, vals, Recognized(confidence));
  }

  /** Where the weights fall, claims exist whose latest arrival raises the estimate. */
  lemma RaisingArrival(cfg: Config, i: nat, n: nat, word: Word) returns (a: Arrival)
    requires ProfileFile(cfg) && Diminishing(cfg) && Observable(cfg, word) && i <= n && Effective(cfg, i) != Effective(cfg, n)
    ensures Arrives(a) && ComesAt(a, cfg, Recognition, i, n) && !NotRaised(a, cfg, Recognition)
  {
    var vals, v := FallCanLower(cfg, i, n);
    var k := ScaleUp(cfg.minConfidence, v);
    WeightsFall(cfg, i, n);
    WeightsFall(cfg, 0, i);
    var sure := SureEnough(cfg, word);
    var l, good, e := Told(Scaled(k, vals), word), Recognized(sure), Newcomer(n, i, Times(k)(v), word);
    ToldIsAStory(Scaled(k, vals), word, sure);
    NewcomerJoins(Scaled(k, vals), word, sure, i, Times(k)(v));
    NewcomerSlot(Scaled(k, vals), word, i, Times(k)(v));
    ToldWeighs(cfg, word, vals, k, sure);
    LossIsTold(cfg, word, vals, v, k, i);
    HitWeighs(cfg, sure);
    a := RaisedBy(l, good, e, cfg, Recognition);
  }

  lemma LossIsTold(cfg: Config, word: Word, vals: seq<real>, v: real, k: real, i: nat)
    requires cfg.repeatWeights != [] && Observable(cfg, word) && 0.0 < k && i <= |vals| && 0.0 < v
    requires cfg.minConfidence <= Times(k)(v) && !Holds(cfg, vals, i, v)
    requires Image(Times(ToldFactor(cfg, word, k)), vals, Each(Told(Scaled(k, vals), word), NegAt(cfg, Recognition)))
    ensures var l, e, f := Told(Scaled(k, vals), word), Newcomer(|vals|, i, Times(k)(v), word), NegAt(cfg, Recognition);
            0.0 < f(e) && !Holds(cfg, Each(l, f), i, f(e))
  {
    var e, f, factor := Newcomer(|vals|, i, Times(k)(v), word), NegAt(cfg, Recognition), ToldFactor(cfg, word, k);
    ScaledMiss(cfg, |vals|, 2 * i, k, v, word);
    assert Tells(e, f, factor, v);
    ToldLoss(cfg, vals, v, factor, i, Each(Told(Scaled(k, vals), word), f), e, f);
  }

  lemma ToldLoss(cfg: Config, vals: seq<real>, v: real, factor: real, i: nat, s: seq<real>, e: Claim, f: Claim -> real)
    requires cfg.repeatWeights != [] && i <= |vals| && 0.0 < factor && !Holds(cfg, vals, i, v)
    requires Image(Times(factor), vals, s) && Tells(e, f, factor, v)
    ensures 0.0 < f(e) && !Holds(cfg, s, i, f(e))
  {
    ScaledLoss(cfg, vals, i, v, factor, s);
  }

  lemma RaisedBy(l: seq<Claim>, good: Claim, e: Claim, cfg: Config, d: Dim) returns (a: Arrival)
    requires Story(l, good) && Joins(l, good, e) && ProfileFile(cfg)
    requires 0.0 < NegAt(cfg, d)(e) && Weighing(All(l, good), l, NegAt(cfg, d)) && 0.0 < PosAt(cfg, d)(good)
    requires !Holds(cfg, Each(l, NegAt(cfg, d)), Slot(l, e), NegAt(cfg, d)(e))
    requires 0.0 < ClusterMass([PosAt(cfg, d)(good)], cfg) && cfg.minMass <= ClusterMass([PosAt(cfg, d)(good)], cfg)
    ensures a.s == All(l, good) && a.late == {e}
    ensures Arrives(a) && ComesAt(a, cfg, d, Slot(l, e), |l|) && !NotRaised(a, cfg, d)
  {
    var s, file := All(l, good), FileFor(l, good);
    a := Arrival(s, {e}, e, s, file, s + {e}, Placed(file, e));
    EarlyFailureRaises(l, good, e, cfg, d);
    StoryRank(l, good, e, NegAt(cfg, d));
    JoinedIsNew(l, good, e);
  }

  // For a profile whose weights diminish and a place i among n: negative groups arriving there never
  // raise an estimate, whatever the claims, if and only if place i weighs as much as place n,
  // counted up to the cap.
  lemma NeverRaisesExactlyWhenLevel(cfg: Config, i: nat, n: nat, word: Word)
    requires ProfileFile(cfg) && Diminishing(cfg) && Observable(cfg, word) && i <= n
    ensures NeverRaises(cfg, Recognition, i, n) <==> Effective(cfg, i) == Effective(cfg, n)
  {
    if Effective(cfg, i) == Effective(cfg, n) {
      forall a: Arrival | Arrives(a) && ComesAt(a, cfg, Recognition, i, n) ensures NotRaised(a, cfg, Recognition) {
        SafeArrival(a, cfg, Recognition, i, n);
      }
    } else {
      var a := RaisingArrival(cfg, i, n, word);
    }
  }

  // ---- the shipped numbers --------------------------------------------------------------------------------

  const SLIP: Word := 1
  const GAP: Word := 2

  /** The entries of the shipped profile that this story reads. */
  ghost predicate Shipped(cfg: Config) {
    && ProfileFile(cfg) && cfg.repeatWeights == [1.0, 0.35, 0.15] && cfg.capMultiple == 1.6
    && cfg.minConfidence == 0.5 && cfg.minMass == 0.55
    && RecognitionTask in cfg.mapping && cfg.mapping[RecognitionTask] == map[Recognition := 1.0]
    && Get(cfg.outcomeFactor, Success, 0.0) == 1.0 && Get(cfg.outcomeFactor, Failure, 0.0) == 1.0
    && Get(cfg.supportFactor, NoSupport, 0.0) == 1.0 && Get(cfg.exposureFactor, NoExposure, 0.0) == 1.0
    && Get(cfg.errorMultiplier, SLIP, 0.0) == 0.2 && Get(cfg.errorMultiplier, GAP, 0.0) == 1.0
  }

  /** A likely slip crowds the knowledge gap after it into the second place. */
  lemma SlipCrowdsOutGap(cfg: Config)
    requires cfg.repeatWeights == [1.0, 0.35, 0.15] && cfg.capMultiple == 1.6
    ensures !Holds(cfg, [1.0], 0, 0.1) && ClusterMass([1.0], cfg) == 1.0
  {
    assert InsertedAt([1.0], 0, 0.1) == [0.1, 1.0];
    assert [0.1, 1.0][..1] == [0.1] && [0.1][..0] == [] && [1.0][..0] == [];
    assert Diminished([0.1], cfg) == 0.1 && Diminished([0.1, 1.0], cfg) == 0.45 && Diminished([1.0], cfg) == 1.0;
    assert Largest([1.0]) == 1.0;
    assert Capped(Diminished([0.1, 1.0], cfg), 1.6, Largest([0.1, 1.0])) <= 0.45;
  }

  const SURE := Recognized(1.0)
  const GAP_MISS := Miss(0, 1, 1.0, GAP)
  const SLIP_MISS := Miss(1, 0, 0.5, SLIP)

  lemma SlipStory()
    ensures Story([GAP_MISS], SURE) && Joins([GAP_MISS], SURE, SLIP_MISS) && Slot([GAP_MISS], SLIP_MISS) == 0
    ensures All([GAP_MISS], SURE) == {SURE, GAP_MISS}
    ensures ValidClaims([SURE, GAP_MISS, SLIP_MISS])
  {
    assert [GAP_MISS][..0] == [];
  }

  lemma SlipValues(cfg: Config)
    requires Shipped(cfg)
    ensures NegAt(cfg, Recognition)(GAP_MISS) == 1.0 && NegAt(cfg, Recognition)(SLIP_MISS) == 0.1
    ensures PosAt(cfg, Recognition)(SURE) == 1.0
  {
    MissWeighs(cfg, 0, 1, 1.0, GAP);
    MissWeighs(cfg, 1, 0, 0.5, SLIP);
    HitWeighs(cfg, 1.0);
  }

  // One recognition, one later failure to recognize put down to a gap; then a half-sure slip of the
  // same teaching moment is added, dated before the gap. The estimate of recognition rises.
  lemma SlipBeforeGapRaises(cfg: Config) returns (a: Arrival)
    requires Shipped(cfg)
    ensures a.s == {SURE, GAP_MISS} && a.late == {SLIP_MISS} && ValidClaims([SURE, GAP_MISS, SLIP_MISS])
    ensures Arrives(a) && ComesAt(a, cfg, Recognition, 0, 1) && !NotRaised(a, cfg, Recognition)
  {
    SlipStory();
    SlipLoses(cfg, [GAP_MISS], NegAt(cfg, Recognition), PosAt(cfg, Recognition));
    a := RaisedBy([GAP_MISS], SURE, SLIP_MISS, cfg, Recognition);
  }

  lemma SlipLoses(cfg: Config, l: seq<Claim>, f: Claim -> real, g: Claim -> real)
    requires Shipped(cfg) && l == [GAP_MISS] && f == NegAt(cfg, Recognition) && g == PosAt(cfg, Recognition)
    ensures 0.0 < f(SLIP_MISS) && Weighing(All(l, SURE), l, f) && 0.0 < g(SURE)
    ensures !Holds(cfg, Each(l, f), 0, f(SLIP_MISS))
    ensures 0.0 < ClusterMass([g(SURE)], cfg) && cfg.minMass <= ClusterMass([g(SURE)], cfg)
  {
    SlipValues(cfg);
    SlipCrowdsOutGap(cfg);
    assert Each(l, f) == [1.0];
  }
}
