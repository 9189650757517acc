// The decision as a property of the set of scored rows: which rows contend, which survive
// pruning, which tie, and who wins. Nothing here depends on an order of candidates.
module PlannerRanking {
  import opened PlannerCandidates
  import Ordering

  /** What scoring valid candidates yields. */
  ghost predicate Scored(rows: set<Row>, cfg: Config) {
    && 0.0 <= cfg.epsilon
    && (forall r | r in rows :: Keyable(r, cfg))
    && (forall a, b | a in rows && b in rows :: a.c.id == b.c.id ==> a == b)
    && (forall a, b | a in rows && b in rows :: Dominates(a, b) ==> b.utility <= a.utility)
  }

  /** Activated, and of the class explicit user intent restricts the choice to. */
  ghost predicate Contends(rows: set<Row>, r: Row) {
    && r in rows && r.activated
    && forall s | s in rows && s.activated && s.userPath :: r.userPath && r.c.priority <= s.c.priority
  }

  ghost predicate Kept(rows: set<Row>, r: Row) {
    Contends(rows, r) && forall s | Contends(rows, s) :: !Dominates(s, r)
  }

  ghost predicate Tied(rows: set<Row>, cfg: Config, r: Row) {
    Kept(rows, r) && forall s | Kept(rows, s) :: s.utility - r.utility <= cfg.epsilon
  }

  ghost predicate Beats(r: Row, s: Row, cfg: Config)
    requires Keyable(r, cfg) && Keyable(s, cfg)
  {
    || (TieKey(r, cfg) != TieKey(s, cfg) && LexLeq(TieKey(s, cfg), TieKey(r, cfg)))
    || (TieKey(r, cfg) == TieKey(s, cfg) && r.c.id <= s.c.id)
  }

  ghost predicate Wins(rows: set<Row>, cfg: Config, r: Row)
    requires Scored(rows, cfg)
  {
    Tied(rows, cfg, r) && forall s | Tied(rows, cfg, s) :: Beats(r, s, cfg)
  }

  ghost predicate Tops(rows: set<Row>, r: Row) {
    r in rows && forall s | s in rows :: s.utility < r.utility || (s.utility == r.utility && s.c.id <= r.c.id)
  }

  datatype Decision = NoEligible | BelowThreshold(top: Word) | Select(id: Word, utility: real, userPath: bool)

  ghost predicate Decides(rows: set<Row>, cfg: Config, d: Decision)
    requires Scored(rows, cfg)
  {
    match d
    case NoEligible => rows == {}
    case BelowThreshold(top) =>
      rows != {} && (forall r | r in rows :: !r.activated) && exists r :: Tops(rows, r) && r.c.id == top
    case Select(id, utility, userPath) =>
      exists r :: Wins(rows, cfg, r) && r.c.id == id && r.utility == utility && r.userPath == userPath
  }

  lemma WinnerUnique(rows: set<Row>, cfg: Config, r: Row, s: Row)
    requires Scored(rows, cfg) && Wins(rows, cfg, r) && Wins(rows, cfg, s)
    ensures r == s
  {
    LexTotal(TieKey(r, cfg), TieKey(s, cfg));
    assert Beats(r, s, cfg) && Beats(s, r, cfg);
  }

  /** One set of rows has one decision. */
  lemma DecisionUnique(rows: set<Row>, cfg: Config, d: Decision, d': Decision)
    requires Scored(rows, cfg) && Decides(rows, cfg, d) && Decides(rows, cfg, d')
    ensures d == d'
  {
    if d.Select? && d'.Select? {
      var r :| Wins(rows, cfg, r) && r.c.id == d.id && r.utility == d.utility && r.userPath == d.userPath;
      var s :| Wins(rows, cfg, s) && s.c.id == d'.id && s.utility == d'.utility && s.userPath == d'.userPath;
      WinnerUnique(rows, cfg, r, s);
    } else if d.BelowThreshold? && d'.BelowThreshold? {
      var r :| Tops(rows, r) && r.c.id == d.top;
      var s :| Tops(rows, s) && s.c.id == d'.top;
    }
  }

  // ---- pruning -------------------------------------------------------------------

  ghost function Dominators(rows: set<Row>, r: Row): set<Row> {
    set s | s in rows && Contends(rows, s) && Dominates(s, r)
  }

  /** Every contender is kept or has a kept row that dominates it, and so at least its utility survives. */
  lemma {:induction false} PrunedHasKeptDominator(rows: set<Row>, cfg: Config, r: Row) returns (k: Row)
    requires Scored(rows, cfg) && Contends(rows, r)
    ensures Kept(rows, k) && (k == r || Dominates(k, r)) && r.utility <= k.utility
    decreases |Dominators(rows, r)|
  {
    if Kept(rows, r) {
      k := r;
    } else {
      var s :| Contends(rows, s) && Dominates(s, r);
      ClimbShrinks(rows, r, s);
      k := PrunedHasKeptDominator(rows, cfg, s);
      if k != s { DominanceIsTransitive(k, s, r); }
    }
  }

  lemma ClimbShrinks(rows: set<Row>, r: Row, s: Row)
    requires Contends(rows, s) && Dominates(s, r)
    ensures |Dominators(rows, s)| < |Dominators(rows, r)|
  {
    forall x | x in Dominators(rows, s) ensures x in Dominators(rows, r) && x != s {
      DominanceIsTransitive(x, s, r);
      DominanceIsStrict(s, s);
    }
    assert s in Dominators(rows, r);
    assert Dominators(rows, s) <= Dominators(rows, r) - {s};
    Ordering.SubsetIsSmaller(Dominators(rows, s), Dominators(rows, r) - {s});
  }

  /** The selected row is undominated and within epsilon of every row of the class it was chosen from. */
  lemma SelectedIsNearBest(rows: set<Row>, cfg: Config, w: Row, r: Row)
    requires Scored(rows, cfg) && Wins(rows, cfg, w) && Contends(rows, r)
    ensures !Dominates(r, w)
    ensures r.utility - w.utility <= cfg.epsilon
  {
    var k := PrunedHasKeptDominator(rows, cfg, r);
  }

  // ---- independence of irrelevant candidates -----------------------------------------

  lemma ScoredSubset(rows: set<Row>, x: Row, cfg: Config)
    requires Scored(rows, cfg)
    ensures Scored(rows - {x}, cfg)
  {
  }

  /** With a contender left behind, removing another row admits and expels nobody. */
  lemma ContendsWithout(rows: set<Row>, x: Row, w: Row, r: Row)
    requires Contends(rows, w) && w != x && r != x
    ensures Contends(rows - {x}, r) <==> Contends(rows, r)
  {
    if Contends(rows - {x}, r) {
      assert w in rows - {x};
      forall s | s in rows && s.activated && s.userPath ensures r.userPath && r.c.priority <= s.c.priority {
        assert w.userPath && w.c.priority <= s.c.priority;
      }
    }
  }

  lemma KeptWithout(rows: set<Row>, x: Row, w: Row, r: Row)
    requires Contends(rows, w) && w != x && Kept(rows, r) && r != x
    ensures Kept(rows - {x}, r)
  {
    ContendsWithout(rows, x, w, r);
    forall s | Contends(rows - {x}, s) ensures !Dominates(s, r) { ContendsWithout(rows, x, w, s); }
  }

  /** A row kept only because x left was dominated by x itself. */
  lemma RisenIsBelow(rows: set<Row>, cfg: Config, x: Row, w: Row, r: Row)
    requires Scored(rows, cfg) && Contends(rows, w) && w != x
    requires Kept(rows - {x}, r) && !Kept(rows, r)
    ensures Kept(rows, x) && r.utility <= x.utility
  {
    ContendsWithout(rows, x, w, r);
    var s :| Contends(rows, s) && Dominates(s, r);
    if s != x { ContendsWithout(rows, x, w, s); }
    assert s == x;
    var k := PrunedHasKeptDominator(rows, cfg, x);
    if k != x {
      DominanceIsTransitive(k, x, r);
      ContendsWithout(rows, x, w, k);
    }
  }

  /** A kept row that is not tied is strictly worse than some other kept row. */
  lemma UntiedIsBeaten(rows: set<Row>, cfg: Config, x: Row) returns (s: Row)
    requires 0.0 <= cfg.epsilon && Kept(rows, x) && !Tied(rows, cfg, x)
    ensures Kept(rows, s) && s != x && s.utility - x.utility > cfg.epsilon
  {
    s :| Kept(rows, s) && s.utility - x.utility > cfg.epsilon;
  }

  lemma TiedStays(rows: set<Row>, cfg: Config, x: Row, r: Row)
    requires Scored(rows, cfg) && !Tied(rows, cfg, x) && Tied(rows, cfg, r)
    ensures Tied(rows - {x}, cfg, r)
  {
    KeptWithout(rows, x, r, r);
    forall s | Kept(rows - {x}, s) ensures s.utility - r.utility <= cfg.epsilon {
      if !Kept(rows, s) { RisenIsBelow(rows, cfg, x, r, s); }
    }
  }

  lemma TiedWas(rows: set<Row>, cfg: Config, x: Row, w: Row, r: Row)
    requires Scored(rows, cfg) && !Tied(rows, cfg, x) && Tied(rows, cfg, w) && Tied(rows - {x}, cfg, r)
    ensures Tied(rows, cfg, r)
  {
    if !Kept(rows, r) {
      RisenIsBelow(rows, cfg, x, w, r);
      var s := UntiedIsBeaten(rows, cfg, x);
      KeptWithout(rows, x, w, s);
    }
    forall s | Kept(rows, s) ensures s.utility - r.utility <= cfg.epsilon {
      if s == x {
        var t := UntiedIsBeaten(rows, cfg, x);
        KeptWithout(rows, x, w, t);
      } else {
        KeptWithout(rows, x, w, s);
      }
    }
  }

  /** Removing any one row outside the tie set leaves the winner, and so the decision, unchanged. */
  lemma WinnerIgnoresOutsiders(rows: set<Row>, cfg: Config, x: Row, w: Row)
    requires Scored(rows, cfg) && Wins(rows, cfg, w) && !Tied(rows, cfg, x)
    ensures Scored(rows - {x}, cfg) && Wins(rows - {x}, cfg, w)
  {
    ScoredSubset(rows, x, cfg);
    TiedStays(rows, cfg, x, w);
    forall s | Tied(rows - {x}, cfg, s) ensures Beats(w, s, cfg) {
      TiedWas(rows, cfg, x, w, s);
    }
  }
}
