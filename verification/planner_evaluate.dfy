/** The planner's evaluation over a candidate list, proved against the order-free ranking. */
module PlannerEvaluate {
  import opened PlannerCandidates
  import opened PlannerRanking

  /** Validation of the whole list: each candidate on its own, and no id or canonical key twice. */
  ghost predicate ValidCandidates(cs: seq<Candidate>, scope: Scope, cfg: Config) {
    && (forall i | 0 <= i < |cs| :: WellFormed(cs[i], scope, cfg))
    && (forall i, j | 0 <= i < j < |cs| :: cs[i].id != cs[j].id && KeyOf(cs[i]) != KeyOf(cs[j]))
  }

  ghost predicate Accepted(inp: Input, cfg: Config) {
    Settled(inp, cfg) && ValidCandidates(inp.candidates, inp.scope, cfg)
  }

  ghost predicate IsRow(inp: Input, cfg: Config, c: Candidate, r: Row)
    requires Accepted(inp, cfg)
  {
    c in inp.candidates && Eligibly(c, inp.scope, cfg).Eligible? && r == RowOf(c, inp, cfg)
  }

  ghost function RowsOf(inp: Input, cfg: Config): set<Row>
    requires Accepted(inp, cfg)
  {
    set c | c in inp.candidates && Eligibly(c, inp.scope, cfg).Eligible? :: RowOf(c, inp, cfg)
  }

  lemma RowsAreScored(inp: Input, cfg: Config)
    requires Accepted(inp, cfg)
    ensures Scored(RowsOf(inp, cfg), cfg)
  {
    forall a, b | a in RowsOf(inp, cfg) && b in RowsOf(inp, cfg) && Dominates(a, b) ensures b.utility <= a.utility {
      DominatingPays(a.c, b.c, inp, cfg);
    }
    forall a, b | a in RowsOf(inp, cfg) && b in RowsOf(inp, cfg) && a.c.id == b.c.id ensures a == b {
      var i :| 0 <= i < |inp.candidates| && inp.candidates[i] == a.c;
      var j :| 0 <= j < |inp.candidates| && inp.candidates[j] == b.c;
      assert i == j;
    }
  }

  datatype DegradedReason = FeatureAssemblyIncomplete | SnapshotInvalid

  datatype Outcome =
    | Raised
    | Degraded(reason: DegradedReason)
    | Succeeded(decision: Decision, report: Report, excluded: seq<(Word, Reason)>, scored: seq<Row>)

  /** Ids of the kept rows, dropped ids with a dominator each, and ids of the tie set. */
  datatype Report = Report(activated: seq<Word>, dominated: seq<(Word, Word)>, tieSet: seq<Word>)

  const BLANK := Report([], [], [])

  ghost predicate DropsFor(rows: set<Row>, p: (Word, Word), r: Row, s: Row) {
    r.c.id == p.0 && s.c.id == p.1 && Contends(rows, r) && Contends(rows, s) && Dominates(s, r)
  }

  /** What a SELECT reports beside its choice, nothing missing and nothing foreign. */
  ghost predicate ReportsRanking(rows: set<Row>, cfg: Config, rep: Report) {
    && (forall id :: id in rep.activated <==> exists r :: Kept(rows, r) && r.c.id == id)
    && (forall id :: id in rep.tieSet <==> exists r :: Tied(rows, cfg, r) && r.c.id == id)
    && (forall p | p in rep.dominated :: exists r: Row, s: Row :: DropsFor(rows, p, r, s))
    && (forall r | Contends(rows, r) && !Kept(rows, r) :: exists p :: p in rep.dominated && p.0 == r.c.id)
  }

  ghost predicate IsExcluded(inp: Input, cfg: Config, c: Candidate, x: (Word, Reason))
    requires Accepted(inp, cfg)
  {
    c in inp.candidates && Eligibly(c, inp.scope, cfg).Excluded? && x == (c.id, Eligibly(c, inp.scope, cfg).reason)
  }

  /** Every candidate is scored or excluded with its reason, and nothing else is listed. */
  ghost predicate ReportsScoring(inp: Input, cfg: Config, excluded: seq<(Word, Reason)>, scored: seq<Row>)
    requires Accepted(inp, cfg)
  {
    && (forall x :: x in excluded <==> exists c :: IsExcluded(inp, cfg, c, x))
    && (forall r :: r in scored <==> r in RowsOf(inp, cfg))
  }

  /** The whole contract of an evaluation, with no mention of candidate order. */
  ghost predicate Evaluated(inp: Input, cfg: Config, o: Outcome)
    requires ProfileFile(cfg)
  {
    if inp.scope.UnknownScope? || inp.policy !in cfg.profiles then o == Raised
    else if !inp.assemblyComplete then o == Degraded(FeatureAssemblyIncomplete)
    else if !inp.snapshotValid then o == Degraded(SnapshotInvalid)
    else if !ValidCandidates(inp.candidates, inp.scope, cfg) then o == Raised
    else
      var rows := RowsOf(inp, cfg);
      RowsAreScored(inp, cfg);
      && o.Succeeded? && Decides(rows, cfg, o.decision) && ReportsScoring(inp, cfg, o.excluded, o.scored)
      && (if o.decision.Select? then ReportsRanking(rows, cfg, o.report) else o.report == BLANK)
  }

  // ---- the loops ---------------------------------------------------------------------

  method ValidateInput(cs: seq<Candidate>, scope: Scope, cfg: Config) returns (ok: bool)
    ensures ok <==> ValidCandidates(cs, scope, cfg)
  {
    var ids, keys := {}, {};
    for i := 0 to |cs|
      invariant ids == set k | 0 <= k < i :: cs[k].id
      invariant keys == set k | 0 <= k < i :: KeyOf(cs[k])
      invariant ValidCandidates(cs[..i], scope, cfg)
    {
      assert cs[..i + 1] == cs[..i] + [cs[i]];
      if cs[i].id in ids || KeyOf(cs[i]) in keys || !WellFormed(cs[i], scope, cfg) {
        return false;
      }
      ids, keys := ids + {cs[i].id}, keys + {KeyOf(cs[i])};
    }
    assert cs[..|cs|] == cs;
    return true;
  }

  method ScoreAll(inp: Input, cfg: Config) returns (excluded: seq<(Word, Reason)>, scored: seq<Row>)
    requires Accepted(inp, cfg)
    ensures ReportsScoring(inp, cfg, excluded, scored) && |excluded| + |scored| == |inp.candidates|
  {
    excluded, scored := [], [];
    for i := 0 to |inp.candidates|
      invariant |excluded| + |scored| == i
      invariant forall x :: x in excluded <==> exists k :: 0 <= k < i && IsExcluded(inp, cfg, inp.candidates[k], x)
      invariant forall r :: r in scored <==> exists k :: 0 <= k < i && IsRow(inp, cfg, inp.candidates[k], r)
    {
      var c := inp.candidates[i];
      var e := Eligibly(c, inp.scope, cfg);
      if e.Excluded? {
        assert IsExcluded(inp, cfg, inp.candidates[i], (c.id, e.reason));
        excluded := excluded + [(c.id, e.reason)];
      } else {
        assert IsRow(inp, cfg, inp.candidates[i], RowOf(c, inp, cfg));
        scored := scored + [RowOf(c, inp, cfg)];
      }
    }
  }

  function SetOf<T>(s: seq<T>): set<T> {
    set x | x in s
  }

  /** A list comprehension with a condition. */
  function Filter<T(!new)>(s: seq<T>, p: T -> bool): (f: seq<T>)
    ensures forall x :: x in f <==> x in s && p(x)
  {
    if s == [] then [] else (if p(s[0]) then [s[0]] else []) + Filter(s[1..], p)
  }

  method ParetoPrune(rows: seq<Row>) returns (keep: seq<Row>, dominated: seq<(Word, Word)>)
    ensures forall r :: r in keep <==> r in rows && forall s | s in rows :: !Dominates(s, r)
    ensures forall p | p in dominated :: exists r, s ::
              r in rows && s in rows && Dominates(s, r) && r.c.id == p.0 && s.c.id == p.1
    ensures forall r | r in rows && r !in keep :: exists p :: p in dominated && p.0 == r.c.id
    ensures |keep| + |dominated| == |rows|
  {
    keep, dominated := [], [];
    for i := 0 to |rows|
      invariant |keep| + |dominated| == i
      invariant forall r :: r in keep <==> r in rows[..i] && forall s | s in rows :: !Dominates(s, r)
      invariant forall p | p in dominated :: exists r, s ::
                  r in rows && s in rows && Dominates(s, r) && r.c.id == p.0 && s.c.id == p.1
      invariant forall r | r in rows[..i] && r !in keep :: Dropped(dominated, r)
    {
      var r := rows[i];
      var hit := FirstDominator(rows, i);
      assert rows[..i + 1] == rows[..i] + [r];
      if hit == |rows| {
        keep := keep + [r];
      } else {
        assert rows[hit] in rows;
        DroppedStays(dominated, (r.c.id, rows[hit].c.id));
        dominated := dominated + [(r.c.id, rows[hit].c.id)];
      }
    }
    assert rows[..|rows|] == rows;
  }

  ghost predicate Dropped(dominated: seq<(Word, Word)>, r: Row) {
    exists p :: p in dominated && p.0 == r.c.id
  }

  lemma DroppedStays(dominated: seq<(Word, Word)>, p: (Word, Word))
    ensures forall r: Row | Dropped(dominated, r) || r.c.id == p.0 :: Dropped(dominated + [p], r)
  {
    forall r: Row | Dropped(dominated, r) || r.c.id == p.0 ensures Dropped(dominated + [p], r) {
      if Dropped(dominated, r) {
        var q :| q in dominated && q.0 == r.c.id;
        assert q in dominated + [p];
      } else {
        assert p in dominated + [p];
      }
    }
  }

  /** The inner loop: the first other row that dominates rows[i], or |rows|. */
  method FirstDominator(rows: seq<Row>, i: nat) returns (hit: nat)
    requires i < |rows|
    ensures hit <= |rows|
    ensures hit == |rows| ==> forall s | s in rows :: !Dominates(s, rows[i])
    ensures hit < |rows| ==> Dominates(rows[hit], rows[i])
  {
    hit := 0;
    while hit < |rows| && !(hit != i && Dominates(rows[hit], rows[i]))
      invariant hit <= |rows|
      invariant forall j | 0 <= j < hit :: !Dominates(rows[j], rows[i])
    {
      DominanceIsStrict(rows[i], rows[i]);
      hit := hit + 1;
    }
  }

  method Top(scored: seq<Row>) returns (top: Row)
    requires scored != []
    ensures top in scored
    ensures forall s | s in scored :: s.utility < top.utility || (s.utility == top.utility && s.c.id <= top.c.id)
  {
    top := scored[0];
    for i := 0 to |scored|
      invariant top in scored
      invariant forall s | s in scored[..i] :: s.utility < top.utility || (s.utility == top.utility && s.c.id <= top.c.id)
    {
      assert scored[..i + 1] == scored[..i] + [scored[i]];
      var s := scored[i];
      if top.utility < s.utility || (top.utility == s.utility && top.c.id < s.c.id) { top := s; }
    }
    assert scored[..|scored|] == scored;
  }

  method MinPriority(rows: seq<Row>) returns (p: int)
    requires rows != []
    ensures (exists r :: r in rows && r.c.priority == p) && forall r | r in rows :: p <= r.c.priority
  {
    p := rows[0].c.priority;
    for i := 0 to |rows|
      invariant exists r :: r in rows && r.c.priority == p
      invariant forall r | r in rows[..i] :: p <= r.c.priority
    {
      assert rows[..i + 1] == rows[..i] + [rows[i]];
      assert rows[i] in rows;
      if rows[i].c.priority < p { p := rows[i].c.priority; }
    }
    assert rows[..|rows|] == rows;
  }

  method MaxUtility(rows: seq<Row>) returns (u: real)
    requires rows != []
    ensures (exists r :: r in rows && r.utility == u) && forall r | r in rows :: r.utility <= u
  {
    u := rows[0].utility;
    for i := 0 to |rows|
      invariant exists r :: r in rows && r.utility == u
      invariant forall r | r in rows[..i] :: r.utility <= u
    {
      assert rows[..i + 1] == rows[..i] + [rows[i]];
      assert rows[i] in rows;
      if rows[i].utility > u { u := rows[i].utility; }
    }
    assert rows[..|rows|] == rows;
  }

  /** The contenders: every active row, or the most urgent of those the user asked for. */
  method Contenders(scored: seq<Row>, active: seq<Row>) returns (contenders: seq<Row>)
    requires active != [] && forall r :: r in active <==> r in scored && r.activated
    ensures contenders != []
    ensures forall r :: r in contenders <==> Contends(SetOf(scored), r)
  {
    var userActive := Filter(active, (r: Row) => r.userPath);
    if userActive == [] {
      assert forall r | r in scored :: r.activated && r.userPath ==> r in userActive;
      return active;
    }
    var p := MinPriority(userActive);
    contenders := Filter(userActive, (r: Row) => r.c.priority == p);
    assert contenders != [] by {
      var m :| m in userActive && m.c.priority == p;
      assert m in contenders;
    }
    forall r ensures r in contenders <==> Contends(SetOf(scored), r) {
      var m :| m in userActive && m.c.priority == p;
      assert m in SetOf(scored) && m.activated && m.userPath;
      if Contends(SetOf(scored), r) { assert r in userActive; }
    }
  }

  method BestKey(tie: seq<Row>, cfg: Config) returns (best: seq<real>)
    requires tie != [] && forall r | r in tie :: Keyable(r, cfg)
    ensures exists r :: r in tie && TieKey(r, cfg) == best
    ensures forall r | r in tie :: |best| == KEY_LENGTH && LexLeq(TieKey(r, cfg), best)
  {
    best := TieKey(tie[0], cfg);
    for i := 0 to |tie|
      invariant |best| == KEY_LENGTH && exists r :: r in tie && TieKey(r, cfg) == best
      invariant forall r | r in tie[..i] :: LexLeq(TieKey(r, cfg), best)
    {
      assert tie[..i + 1] == tie[..i] + [tie[i]];
      assert tie[i] in tie;
      var key := TieKey(tie[i], cfg);
      LexTotal(best, key);
      if !LexLeq(key, best) {
        forall r | r in tie[..i] ensures LexLeq(TieKey(r, cfg), key) {
          LexTransitive(TieKey(r, cfg), best, key);
        }
        LexTotal(key, key);
        best := key;
      }
    }
    assert tie[..|tie|] == tie;
  }

  method FirstById(rows: seq<Row>) returns (first: Row)
    requires rows != []
    ensures first in rows && forall r | r in rows :: first.c.id <= r.c.id
  {
    first := rows[0];
    for i := 0 to |rows|
      invariant first in rows
      invariant forall r | r in rows[..i] :: first.c.id <= r.c.id
    {
      assert rows[..i + 1] == rows[..i] + [rows[i]];
      if rows[i].c.id < first.c.id { first := rows[i]; }
    }
    assert rows[..|rows|] == rows;
  }

  /** The best tie key, then the first id among the rows that reach it. */
  method Choose(tie: seq<Row>, cfg: Config) returns (w: Row)
    requires tie != [] && forall r | r in tie :: Keyable(r, cfg)
    ensures w in tie && forall s | s in tie :: Beats(w, s, cfg)
  {
    var best := BestKey(tie, cfg);
    var finalists := Filter(tie, (r: Row) => Keyable(r, cfg) && TieKey(r, cfg) == best);
    assert finalists != [] by {
      var r :| r in tie && TieKey(r, cfg) == best;
      assert r in finalists;
    }
    w := FirstById(finalists);
    forall s | s in tie ensures Beats(w, s, cfg) {
      if TieKey(s, cfg) == best { assert s in finalists; }
    }
  }

  function Ids(rows: seq<Row>): (ids: seq<Word>)
    ensures forall id :: id in ids <==> exists r :: r in rows && r.c.id == id
  {
    if rows == [] then [] else [rows[0].c.id] + Ids(rows[1..])
  }

  /** Pruning, the epsilon tie set and the choice, over the contenders of `rows`. */
  method SelectFrom(contenders: seq<Row>, cfg: Config, ghost rows: set<Row>) returns (d: Decision, rep: Report)
    requires Scored(rows, cfg) && contenders != []
    requires forall r :: r in contenders <==> Contends(rows, r)
    ensures d.Select? && Decides(rows, cfg, d) && ReportsRanking(rows, cfg, rep)
  {
    var keep, dominated := ParetoPrune(contenders);
    assert forall r :: r in keep <==> Kept(rows, r);
    ghost var best := PrunedHasKeptDominator(rows, cfg, contenders[0]);
    assert best in keep;
    var top := MaxUtility(keep);
    var tie := Filter(keep, (r: Row) => top - r.utility <= cfg.epsilon);
    TieSetIsExact(rows, cfg, keep, top, tie);
    assert tie != [] by {
      var r :| r in keep && r.utility == top;
      assert r in tie;
    }
    var w := Choose(tie, cfg);
    assert Wins(rows, cfg, w);
    d, rep := Select(w.c.id, w.utility, w.userPath), Report(Ids(keep), dominated, Ids(tie));
    ReportIsExact(rows, cfg, contenders, keep, dominated, tie);
  }

  lemma ReportIsExact(rows: set<Row>, cfg: Config, contenders: seq<Row>, keep: seq<Row>, dominated: seq<(Word, Word)>, tie: seq<Row>)
    requires forall r :: r in contenders <==> Contends(rows, r)
    requires forall r :: r in keep <==> Kept(rows, r)
    requires forall r :: r in tie <==> Tied(rows, cfg, r)
    requires forall p | p in dominated :: exists r, s ::
               r in contenders && s in contenders && Dominates(s, r) && r.c.id == p.0 && s.c.id == p.1
    requires forall r | r in contenders && r !in keep :: exists p :: p in dominated && p.0 == r.c.id
    ensures ReportsRanking(rows, cfg, Report(Ids(keep), dominated, Ids(tie)))
  {
    forall p | p in dominated ensures exists r: Row, s: Row :: DropsFor(rows, p, r, s) {
      var r, s :| r in contenders && s in contenders && Dominates(s, r) && r.c.id == p.0 && s.c.id == p.1;
      assert DropsFor(rows, p, r, s);
    }
  }

  lemma TieSetIsExact(rows: set<Row>, cfg: Config, keep: seq<Row>, top: real, tie: seq<Row>)
    requires forall r :: r in keep <==> Kept(rows, r)
    requires (exists r :: r in keep && r.utility == top) && forall r | r in keep :: r.utility <= top
    requires forall r :: r in tie <==> r in keep && top - r.utility <= cfg.epsilon
    ensures forall r :: r in tie <==> Tied(rows, cfg, r)
  {
    var b :| b in keep && b.utility == top;
    forall r ensures r in tie <==> Tied(rows, cfg, r) {
      assert Kept(rows, b);
    }
  }

  method Evaluate(inp: Input, cfg: Config) returns (o: Outcome)
    requires ProfileFile(cfg)
    ensures Evaluated(inp, cfg, o)
  {
    if inp.scope.UnknownScope? || inp.policy !in cfg.profiles { return Raised; }
    if !inp.assemblyComplete { return Degraded(FeatureAssemblyIncomplete); }
    if !inp.snapshotValid { return Degraded(SnapshotInvalid); }
    var ok := ValidateInput(inp.candidates, inp.scope, cfg);
    if !ok { return Raised; }
    ghost var rows := RowsOf(inp, cfg);
    RowsAreScored(inp, cfg);
    var excluded, scored := ScoreAll(inp, cfg);
    assert SetOf(scored) == rows;
    var d, rep := Decide(scored, cfg);
    o := Succeeded(d, rep, excluded, scored);
  }

  method Decide(scored: seq<Row>, cfg: Config) returns (d: Decision, rep: Report)
    requires Scored(SetOf(scored), cfg)
    ensures Decides(SetOf(scored), cfg, d)
    ensures if d.Select? then ReportsRanking(SetOf(scored), cfg, rep) else rep == BLANK
  {
    if scored == [] { return NoEligible, BLANK; }
    assert scored[0] in SetOf(scored);
    var active := Filter(scored, (r: Row) => r.activated);
    if active == [] {
      var top := Top(scored);
      assert forall r | r in scored :: r.activated ==> r in active;
      assert Tops(SetOf(scored), top);
      return BelowThreshold(top.c.id), BLANK;
    }
    var contenders := Contenders(scored, active);
    d, rep := SelectFrom(contenders, cfg, SetOf(scored));
  }
}
