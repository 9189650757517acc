/** What the decision does not depend on: the order of candidates, and candidates outside the tie set. */
module PlannerTheorems {
  import opened PlannerCandidates
  import opened PlannerRanking
  import opened PlannerEvaluate
  import opened Permutations

  lemma ValidPermutes(cs: seq<Candidate>, cs': seq<Candidate>, scope: Scope, cfg: Config)
    requires multiset(cs) == multiset(cs') && ValidCandidates(cs, scope, cfg)
    ensures ValidCandidates(cs', scope, cfg)
  {
    forall i | 0 <= i < |cs'| ensures WellFormed(cs'[i], scope, cfg) {
      SameMembers(cs, cs', cs'[i]);
    }
    forall i, j | 0 <= i < j < |cs'| ensures cs'[i].id != cs'[j].id && KeyOf(cs'[i]) != KeyOf(cs'[j]) {
      if cs'[i] == cs'[j] {
        TwiceInMultiset(cs', i, j);
        var a, b := MultisetHasTwo(cs, cs'[i]);
      } else {
        SameMembers(cs, cs', cs'[i]);
        SameMembers(cs, cs', cs'[j]);
        var a :| 0 <= a < |cs| && cs[a] == cs'[i];
        var b :| 0 <= b < |cs| && cs[b] == cs'[j];
      }
    }
  }

  lemma RowsPermute(inp: Input, inp': Input, cfg: Config)
    requires inp' == inp.(candidates := inp'.candidates) && multiset(inp.candidates) == multiset(inp'.candidates)
    requires Accepted(inp, cfg) && Accepted(inp', cfg)
    ensures RowsOf(inp, cfg) == RowsOf(inp', cfg)
  {
    forall c ensures c in inp.candidates <==> c in inp'.candidates {
      SameMembers(inp.candidates, inp'.candidates, c);
    }
    forall c | c in inp.candidates && Eligibly(c, inp.scope, cfg).Eligible?
      ensures RowOf(c, inp, cfg) == RowOf(c, inp', cfg)
    {
    }
  }

  /** The two outcomes raise, degrade or decide alike. */
  predicate SameAnswer(o: Outcome, o': Outcome) {
    match (o, o')
    case (Raised, Raised) => true
    case (Degraded(r), Degraded(r')) => r == r'
    case (Succeeded(d, _, _, _), Succeeded(d', _, _, _)) => d == d'
    case _ => false
  }

  /** Every permutation of the candidate list gets the same answer. */
  lemma DecisionIgnoresOrder(inp: Input, inp': Input, cfg: Config, o: Outcome, o': Outcome)
    requires ProfileFile(cfg)
    requires inp' == inp.(candidates := inp'.candidates) && multiset(inp.candidates) == multiset(inp'.candidates)
    requires Evaluated(inp, cfg, o) && Evaluated(inp', cfg, o')
    ensures SameAnswer(o, o')
  {
    if inp.policy in cfg.profiles {
      if ValidCandidates(inp.candidates, inp.scope, cfg) {
        ValidPermutes(inp.candidates, inp'.candidates, inp.scope, cfg);
        RowsPermute(inp, inp', cfg);
        RowsAreScored(inp, cfg);
        if o.Succeeded? && o'.Succeeded? {
          DecisionUnique(RowsOf(inp, cfg), cfg, o.decision, o'.decision);
        }
      } else if ValidCandidates(inp'.candidates, inp.scope, cfg) {
        ValidPermutes(inp'.candidates, inp.candidates, inp.scope, cfg);
      }
    }
  }

  // ---- independence ----------------------------------------------------------------

  function Without<T>(s: seq<T>, k: nat): seq<T>
    requires k < |s|
  {
    s[..k] + s[k + 1..]
  }

  lemma WithoutAt<T>(s: seq<T>, k: nat, i: nat)
    requires k < |s| && i < |s| - 1
    ensures Without(s, k)[i] == s[if i < k then i else i + 1]
  {
  }

  lemma WithoutMembers(cs: seq<Candidate>, k: nat, c: Candidate)
    requires k < |cs| && forall i, j | 0 <= i < j < |cs| :: cs[i].id != cs[j].id
    ensures c in Without(cs, k) <==> c in cs && c != cs[k]
  {
    var w := Without(cs, k);
    if c in cs && c != cs[k] {
      var i :| 0 <= i < |cs| && cs[i] == c;
      WithoutAt(cs, k, if i < k then i else i - 1);
    }
    if c in w {
      var i :| 0 <= i < |w| && w[i] == c;
      WithoutAt(cs, k, i);
    }
  }

  lemma ValidWithout(cs: seq<Candidate>, k: nat, scope: Scope, cfg: Config)
    requires k < |cs| && ValidCandidates(cs, scope, cfg)
    ensures ValidCandidates(Without(cs, k), scope, cfg)
  {
    var w := Without(cs, k);
    forall i | 0 <= i < |w| ensures WellFormed(w[i], scope, cfg) { WithoutAt(cs, k, i); }
    forall i, j | 0 <= i < j < |w| ensures w[i].id != w[j].id && KeyOf(w[i]) != KeyOf(w[j]) {
      WithoutAt(cs, k, i);
      WithoutAt(cs, k, j);
    }
  }

  /** A row knows its candidate, and membership among the rows is membership of that candidate. */
  lemma RowMembership(inp: Input, cfg: Config, r: Row)
    requires Accepted(inp, cfg)
    ensures r in RowsOf(inp, cfg) <==> IsRow(inp, cfg, r.c, r)
  {
  }

  lemma IsRowWithout(inp: Input, k: nat, cfg: Config, r: Row)
    requires k < |inp.candidates| && Accepted(inp, cfg)
    requires Accepted(inp.(candidates := Without(inp.candidates, k)), cfg)
    ensures IsRow(inp.(candidates := Without(inp.candidates, k)), cfg, r.c, r) <==>
            IsRow(inp, cfg, r.c, r) && r.c != inp.candidates[k]
  {
    WithoutMembers(inp.candidates, k, r.c);
    var inp' := inp.(candidates := Without(inp.candidates, k));
    if r.c in inp.candidates && r.c in inp'.candidates { RowIgnoresRest(inp, inp', r.c, cfg); }
  }

  /** A candidate is scored on its own. */
  lemma RowIgnoresRest(inp: Input, inp': Input, c: Candidate, cfg: Config)
    requires Settled(inp, cfg) && WellFormed(c, inp.scope, cfg) && inp' == inp.(candidates := inp'.candidates)
    ensures RowOf(c, inp', cfg) == RowOf(c, inp, cfg)
  {
    assert Utility(c, inp', cfg) == Utility(c, inp, cfg);
  }

  lemma RowsWithout(inp: Input, k: nat, cfg: Config)
    requires k < |inp.candidates| && Accepted(inp, cfg)
    ensures var inp' := inp.(candidates := Without(inp.candidates, k));
            && Accepted(inp', cfg)
            && RowsOf(inp', cfg) == RowsOf(inp, cfg) - {RowOf(inp.candidates[k], inp, cfg)}
  {
    var inp', x := inp.(candidates := Without(inp.candidates, k)), inp.candidates[k];
    ValidWithout(inp.candidates, k, inp.scope, cfg);
    forall r ensures r in RowsOf(inp', cfg) <==> r in RowsOf(inp, cfg) && r != RowOf(x, inp, cfg) {
      RowMembership(inp, cfg, r);
      RowMembership(inp', cfg, r);
      IsRowWithout(inp, k, cfg, r);
      assert RowOf(x, inp, cfg).c == x;
    }
  }

  lemma OutsiderIsUntied(rows: set<Row>, cfg: Config, rep: Report, x: Row)
    requires ReportsRanking(rows, cfg, rep) && x.c.id !in rep.tieSet
    ensures !Tied(rows, cfg, x)
  {
  }

  // When the planner selects, removing any one candidate that is not in the reported tie set
  // (excluded, unactivated, of lower priority, dominated, or kept but not tied) changes nothing.
  lemma SelectionIgnoresOutsiders(inp: Input, k: nat, cfg: Config, o: Outcome, o': Outcome)
    requires ProfileFile(cfg) && k < |inp.candidates|
    requires Evaluated(inp, cfg, o) && o.Succeeded? && o.decision.Select?
    requires inp.candidates[k].id !in o.report.tieSet
    requires Evaluated(inp.(candidates := Without(inp.candidates, k)), cfg, o')
    ensures o'.Succeeded? && o'.decision == o.decision
  {
    var inp', x := inp.(candidates := Without(inp.candidates, k)), RowOf(inp.candidates[k], inp, cfg);
    var rows := RowsOf(inp, cfg);
    RowsAreScored(inp, cfg);
    RowsWithout(inp, k, cfg);
    var w :| Wins(rows, cfg, w) && w.c.id == o.decision.id && w.utility == o.decision.utility
             && w.userPath == o.decision.userPath;
    OutsiderIsUntied(rows, cfg, o.report, x);
    WinnerIgnoresOutsiders(rows, cfg, x, w);
    assert Decides(rows - {x}, cfg, o.decision);
    DecisionUnique(rows - {x}, cfg, o.decision, o'.decision);
  }

  /** The selected candidate is undominated, and within epsilon of every row of the class it was chosen from. */
  lemma SelectionIsNearBest(inp: Input, cfg: Config, o: Outcome, r: Row)
    requires ProfileFile(cfg) && Evaluated(inp, cfg, o) && o.Succeeded? && o.decision.Select?
    requires Contends(RowsOf(inp, cfg), r)
    ensures r.utility - o.decision.utility <= cfg.epsilon
    ensures exists w :: w in RowsOf(inp, cfg) && w.c.id == o.decision.id && !Dominates(r, w)
  {
    var rows := RowsOf(inp, cfg);
    RowsAreScored(inp, cfg);
    var w :| Wins(rows, cfg, w) && w.c.id == o.decision.id && w.utility == o.decision.utility
             && w.userPath == o.decision.userPath;
    SelectedIsNearBest(rows, cfg, w, r);
  }
}
