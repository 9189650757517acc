/** `estimate`: group rows, ability dimensions, transfer and support dependency, put together. */
module EstimatorEstimate {
  import opened EstimatorClaims
  import opened EstimatorMass
  import opened EstimatorFiles
  import opened EstimatorTheorems
  import opened EstimatorGrouping
  import opened EstimatorEvaluate
  import opened Ordering

  // ---- group rows ------------------------------------------------------------------------------

  datatype Row = Row(exemplar: Claim, claims: seq<Claim>, p: Profile, n: Profile)

  function GroupFn(): Claim -> Word { (c: Claim) => c.group }

  ghost predicate GoodRow(s: set<Claim>, cfg: Config, g: Word, row: Row) {
    && Elements(row.claims) == GroupOf(s, g)
    && Covers(GroupOf(s, g), PosSide(cfg), row.p) && Covers(GroupOf(s, g), NegSide(cfg), row.n)
    && row.exemplar.group == g && Earliest(s, row.exemplar)
  }

  ghost predicate GoodRows(s: set<Claim>, cfg: Config, rows: map<Word, Row>) {
    forall g | g in rows :: GoodRow(s, cfg, g, rows[g])
  }

  ghost predicate SpokenFor(rows: map<Word, Row>, reps: seq<Claim>) {
    && Apart(reps)
    && (forall g | g in rows :: rows[g].exemplar in reps)
    && (forall c | c in reps :: c.group in rows && rows[c.group].exemplar == c)
  }

  lemma ApartGrows<T(!new)>(l: seq<T>, x: T)
    requires Apart(l) && x !in l
    ensures Apart(l + [x])
  {
  }

  lemma RowAdded(s: set<Claim>, cfg: Config, rows: map<Word, Row>, reps: seq<Claim>, g: Word, row: Row)
    requires GoodRows(s, cfg, rows) && SpokenFor(rows, reps) && g !in rows && GoodRow(s, cfg, g, row)
    ensures GoodRows(s, cfg, rows[g := row]) && SpokenFor(rows[g := row], reps + [row.exemplar])
  {
    SpeakerAdded(rows, reps, g, row);
    var more := rows[g := row];
    forall j | j in more ensures GoodRow(s, cfg, j, more[j]) {
      if j != g { assert GoodRow(s, cfg, j, rows[j]); }
    }
  }

  lemma SpeakerAdded(rows: map<Word, Row>, reps: seq<Claim>, g: Word, row: Row)
    requires SpokenFor(rows, reps) && g !in rows && row.exemplar.group == g
    ensures SpokenFor(rows[g := row], reps + [row.exemplar])
  {
    ApartGrows(reps, row.exemplar);
  }

  lemma BinIsGroup(active: seq<Claim>, bins: map<Word, seq<Claim>>, g: Word)
    requires Arranged(active, GroupFn(), bins) && g in bins
    ensures bins[g] != [] && Elements(bins[g]) == GroupOf(Elements(active), g)
  {
    assert forall c :: c in bins[g] <==> c in active && GroupFn()(c) == g;
  }

  method GroupRow(cs: seq<Claim>, cfg: Config, ghost s: set<Claim>, ghost g: Word) returns (row: Row)
    requires cs != [] && Elements(cs) == GroupOf(s, g)
    ensures GoodRow(s, cfg, g, row)
  {
    var p, n := AggregateGroup(cs, PosSide(cfg), NegSide(cfg));
    var e := Exemplar(cs);
    assert e in Elements(cs);
    assert forall x | x in s && x.group == g :: x in Elements(cs);
    row := Row(e, cs, p, n);
  }

  method GroupRows(active: seq<Claim>, cfg: Config) returns (rows: map<Word, Row>, reps: seq<Claim>)
    ensures GoodRows(Elements(active), cfg, rows) && SpokenFor(rows, reps)
    ensures rows.Keys == GroupsOf(Elements(active))
  {
    var bins := Arrange(active, GroupFn());
    rows, reps := map[], [];
    var todo := bins.Keys;
    while todo != {}
      invariant todo <= bins.Keys && rows.Keys == bins.Keys - todo
      invariant GoodRows(Elements(active), cfg, rows) && SpokenFor(rows, reps)
      decreases todo
    {
      ghost var any := Pick(todo);
      var g :| g in todo;
      todo := todo - {g};
      BinIsGroup(active, bins, g);
      var row := GroupRow(bins[g], cfg, Elements(active), g);
      RowAdded(Elements(active), cfg, rows, reps, g, row);
      rows, reps := rows[g := row], reps + [row.exemplar];
    }
    AllGroups(active, bins);
  }

  lemma AllGroups(active: seq<Claim>, bins: map<Word, seq<Claim>>)
    requires Arranged(active, GroupFn(), bins)
    ensures bins.Keys == GroupsOf(Elements(active))
  {
    forall g | g in bins ensures g in GroupsOf(Elements(active)) {
      assert bins[g][0] in bins[g];
      assert bins[g][0] in Elements(active);
    }
    forall c | c in Elements(active) ensures c.group in bins {
      assert GroupFn()(c) in bins;
    }
  }

  lemma RowsChooseExemplars(s: set<Claim>, cfg: Config, rows: map<Word, Row>, reps: seq<Claim>)
    requires GoodRows(s, cfg, rows) && SpokenFor(rows, reps) && rows.Keys == GroupsOf(s)
    ensures Exemplars(s, Elements(reps))
  {
    forall r | r in Elements(reps) ensures Earliest(s, r) {
      assert GoodRow(s, cfg, r.group, rows[r.group]);
    }
    forall c | c in s ensures c.group in GroupsOf(Elements(reps)) {
      assert GoodRow(s, cfg, c.group, rows[c.group]);
      assert rows[c.group].exemplar in Elements(reps);
    }
  }

  // ---- ability dimensions ------------------------------------------------------------------------

  lemma SumOneMore(m: map<ClusterKey, real>, todo: set<ClusterKey>, k: ClusterKey)
    requires k in todo && k in m
    ensures Sum(m - (todo - {k})) == Sum(m - todo) + m[k]
  {
    assert m - (todo - {k}) == (m - todo)[k := m[k]];
    SumAdds(m - todo, k, m[k]);
  }

  lemma SumEnds(m: map<ClusterKey, real>)
    ensures Sum(m - m.Keys) == 0.0 && Sum(m - {}) == Sum(m)
  {
    assert m - m.Keys == map[];
    assert m - {} == m;
  }

  lemma RowValue(s: set<Claim>, cfg: Config, rows: map<Word, Row>, c: Claim, d: Dim)
    requires GoodRows(s, cfg, rows) && c.group in rows && d in DIMS
    ensures d in rows[c.group].p && rows[c.group].p[d] == GroupValue(s, c, PosAt(cfg, d))
    ensures d in rows[c.group].n && rows[c.group].n[d] == GroupValue(s, c, NegAt(cfg, d))
  {
    var row, grp := rows[c.group], GroupOf(s, c.group);
    assert GoodRow(s, cfg, c.group, row);
    assert IsStrongest(grp, PosSide(cfg)(d), row.p[d]) && IsStrongest(grp, NegSide(cfg)(d), row.n[d]);
    StrongestUnique(grp, PosAt(cfg, d), row.p[d], GroupValue(s, c, PosAt(cfg, d)));
    StrongestUnique(grp, NegAt(cfg, d), row.n[d], GroupValue(s, c, NegAt(cfg, d)));
  }

  ghost predicate RowsFor(s: set<Claim>, cfg: Config, rows: map<Word, Row>, file: File) {
    GoodRows(s, cfg, rows) && forall k | k in file :: forall c | c in file[k] :: c.group in rows
  }

  function ClaimsIn(rows: map<Word, Row>, l: seq<Claim>): set<Claim> {
    set r, c | r in l && r.group in rows && c in rows[r.group].claims :: c
  }

  lemma ClaimsInAreOf(s: set<Claim>, cfg: Config, rows: map<Word, Row>, l: seq<Claim>)
    requires GoodRows(s, cfg, rows) && forall c | c in l :: c.group in rows
    ensures ClaimsIn(rows, l) == ClaimsOf(s, l)
  {
    forall c | c in ClaimsIn(rows, l) ensures c in ClaimsOf(s, l) {
      var r :| r in l && r.group in rows && c in rows[r.group].claims;
      RowHoldsGroup(s, cfg, rows, r, c);
      assert r in set r | r in l;
    }
    forall c | c in ClaimsOf(s, l) ensures c in ClaimsIn(rows, l) {
      var r :| r in l && r.group == c.group;
      RowHoldsGroup(s, cfg, rows, r, c);
    }
  }

  lemma RowHoldsGroup(s: set<Claim>, cfg: Config, rows: map<Word, Row>, r: Claim, c: Claim)
    requires GoodRows(s, cfg, rows) && r.group in rows
    ensures c in s && c.group == r.group <==> c in rows[r.group].claims
  {
    assert GoodRow(s, cfg, r.group, rows[r.group]);
    assert c in Elements(rows[r.group].claims) <==> c in GroupOf(s, r.group);
  }

  lemma OneMoreKey(s: set<Claim>, file: File, k: ClusterKey, keys: set<ClusterKey>)
    requires k in file
    ensures ClaimsUnder(s, file, keys + {k}) == ClaimsUnder(s, file, keys) + ClaimsOf(s, file[k])
  {
    forall c | c in s ensures Under(c, s, file, keys + {k}) <==> Under(c, s, file, keys) || c in ClaimsOf(s, file[k]) {
      if Under(c, s, file, keys + {k}) {
        var j :| j in keys + {k} && j in file && c in ClaimsOf(s, file[j]);
      }
      assert k in keys + {k};
    }
  }

  /** One cluster's mass on both sides of one dimension. */
  method ClusterSides(l: seq<Claim>, rows: map<Word, Row>, ghost s: set<Claim>, cfg: Config, d: Dim) returns (cp: real, cn: real)
    requires cfg.repeatWeights != [] && GoodRows(s, cfg, rows) && d in DIMS && forall c | c in l :: c.group in rows
    ensures cp == MassIn(s, l, PosAt(cfg, d), cfg) && cn == MassIn(s, l, NegAt(cfg, d), cfg)
  {
    forall c | c in l
      ensures d in rows[c.group].p && rows[c.group].p[d] == GroupValue(s, c, PosAt(cfg, d))
      ensures d in rows[c.group].n && rows[c.group].n[d] == GroupValue(s, c, NegAt(cfg, d))
    {
      RowValue(s, cfg, rows, c, d);
    }
    cp := AggregateCluster(l, map g | g in rows && d in rows[g].p :: rows[g].p[d], s, PosAt(cfg, d), cfg);
    cn := AggregateCluster(l, map g | g in rows && d in rows[g].n :: rows[g].n[d], s, NegAt(cfg, d), cfg);
  }

  /** The running totals of one dimension over all clusters. */
  method AddUp(m: map<ClusterKey, real>) returns (total: real)
    ensures total == Sum(m)
  {
    total := 0.0;
    var todo := m.Keys;
    SumEnds(m);
    while todo != {}
      invariant todo <= m.Keys && total == Sum(m - todo)
      decreases todo
    {
      var k :| k in todo;
      SumOneMore(m, todo, k);
      total, todo := total + m[k], todo - {k};
    }
  }

  method ClusterMasses(file: File, rows: map<Word, Row>, ghost s: set<Claim>, cfg: Config, d: Dim)
      returns (good: map<ClusterKey, real>, bad: map<ClusterKey, real>)
    requires cfg.repeatWeights != [] && RowsFor(s, cfg, rows, file) && d in DIMS
    ensures good == Masses(s, file, PosAt(cfg, d), cfg) && bad == Masses(s, file, NegAt(cfg, d), cfg)
  {
    good, bad := map[], map[];
    var todo := file.Keys;
    ghost var good', bad' := Masses(s, file, PosAt(cfg, d), cfg), Masses(s, file, NegAt(cfg, d), cfg);
    NoneLeft(good');
    NoneLeft(bad');
    while todo != {}
      invariant todo <= file.Keys && good == good' - todo && bad == bad' - todo
      decreases todo
    {
      var k :| k in todo;
      var cp, cn := SidesUnder(file, k, rows, s, cfg, d);
      Widen(good', todo, k);
      Widen(bad', todo, k);
      good, bad, todo := good[k := cp], bad[k := cn], todo - {k};
    }
  }

  lemma Widen(m: map<ClusterKey, real>, todo: set<ClusterKey>, k: ClusterKey)
    requires k in todo && k in m
    ensures (m - todo)[k := m[k]] == m - (todo - {k})
  {
  }

  lemma NoneLeft(m: map<ClusterKey, real>)
    ensures m - {} == m && m - m.Keys == map[]
  {
  }

  method SidesUnder(file: File, k: ClusterKey, rows: map<Word, Row>, ghost s: set<Claim>, cfg: Config, d: Dim)
      returns (cp: real, cn: real)
    requires cfg.repeatWeights != [] && RowsFor(s, cfg, rows, file) && d in DIMS && k in file
    ensures cp == Masses(s, file, PosAt(cfg, d), cfg)[k] && cn == Masses(s, file, NegAt(cfg, d), cfg)[k]
  {
    cp, cn := ClusterSides(file[k], rows, s, cfg, d);
  }

  /** The claims behind the clusters that say anything of the dimension. */
  method ClaimsSeen(file: File, rows: map<Word, Row>, keys: set<ClusterKey>, ghost s: set<Claim>, ghost cfg: Config)
      returns (seen: set<Claim>)
    requires RowsFor(s, cfg, rows, file) && keys <= file.Keys
    ensures seen == ClaimsUnder(s, file, keys)
  {
    seen := {};
    var todo := keys;
    while todo != {}
      invariant todo <= keys && seen == ClaimsUnder(s, file, keys - todo)
      decreases todo
    {
      var k :| k in todo;
      ClaimsInAreOf(s, cfg, rows, file[k]);
      OneMoreKey(s, file, k, keys - todo);
      assert keys - (todo - {k}) == keys - todo + {k};
      seen, todo := seen + ClaimsIn(rows, file[k]), todo - {k};
    }
    assert keys - todo == keys;
  }

  /** One ability dimension: totals, telling clusters, and the variety of the claims behind them. */
  method MeasureAbility(file: File, rows: map<Word, Row>, ghost s: set<Claim>, cfg: Config, d: Dim) returns (a: Ability)
    requires cfg.repeatWeights != [] && RowsFor(s, cfg, rows, file) && d in DIMS
    ensures a == AbilityOf(s, file, cfg, d)
  {
    var good, bad := ClusterMasses(file, rows, s, cfg, d);
    var p := AddUp(good);
    var n := AddUp(bad);
    var clusters := set k | k in good && (good[k] > 0.0 || bad[k] > 0.0);
    var seen := ClaimsSeen(file, rows, clusters, s, cfg);
    a := Ability(p, n, clusters, VarietyOf(seen));
  }
}
