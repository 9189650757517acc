/** Transfer and support dependency, and `estimate` as a whole. */
module EstimatorRun {
  import opened EstimatorClaims
  import opened EstimatorMass
  import opened EstimatorFiles
  import opened EstimatorTheorems
  import opened EstimatorGrouping
  import opened EstimatorEvaluate
  import opened EstimatorEstimate
  import opened Ordering

  method Select(l: seq<Claim>, keep: Claim -> bool) returns (r: seq<Claim>)
    ensures forall c :: c in r <==> c in l && keep(c)
  {
    r := [];
    for i := 0 to |l|
      invariant forall c :: c in r <==> c in l[..i] && keep(c)
    {
      assert l[..i + 1] == l[..i] + [l[i]];
      if keep(l[i]) { r := r + [l[i]]; }
    }
    assert l[..|l|] == l;
  }

  lemma BinsAreKeyed(l: seq<Claim>, bins: File)
    requires Arranged(l, KeyFn(), bins)
    ensures bins.Keys == KeysOf(Elements(l))
    ensures forall k | k in bins :: bins[k] != [] && Elements(bins[k]) == KeyedBy(Elements(l), k)
  {
    forall k | k in bins ensures bins[k] != [] && Elements(bins[k]) == KeyedBy(Elements(l), k) && k in KeysOf(Elements(l)) {
      assert forall c :: c in bins[k] <==> c in l && KeyFn()(c) == k;
      assert bins[k][0] in bins[k];
      assert bins[k][0] in Elements(l) && KeyOf(bins[k][0]) == k;
    }
    forall c | c in Elements(l) ensures KeyOf(c) in bins { assert KeyFn()(c) in bins; }
  }

  // ---- transfer ----------------------------------------------------------------------------------

  method StrongReps(active: seq<Claim>, cfg: Config) returns (reps: map<ClusterKey, Claim>)
    ensures Represented(StrongClaims(Elements(active), cfg), StrengthAt(cfg), reps)
  {
    var strong := Select(active, c => StrongRetrieval(c, cfg));
    assert Elements(strong) == StrongClaims(Elements(active), cfg);
    var bins := Arrange(strong, KeyFn());
    BinsAreKeyed(strong, bins);
    reps := map k | k in bins :: Champion(bins[k], StrengthAt(cfg));
    forall k | k in reps ensures Represents(Elements(strong), StrengthAt(cfg), k, reps[k]) {
      assert reps[k] in Elements(bins[k]);
      assert forall x | x in KeyedBy(Elements(strong), k) :: x in Elements(bins[k]);
    }
  }

  method EarliestRep(reps: map<ClusterKey, Claim>) returns (base: Option<ClusterKey>)
    ensures IsBase(reps, base)
  {
    base := None;
    var todo := reps.Keys;
    while todo != {}
      invariant todo <= reps.Keys && (base.None? <==> todo == reps.Keys)
      invariant base.Some? ==> base.value in reps && forall k | k in reps && k !in todo :: reps[base.value].timestamp <= reps[k].timestamp
      decreases todo
    {
      var k :| k in todo;
      if base.None? || reps[k].timestamp < reps[base.value].timestamp { base := Some(k); }
      todo := todo - {k};
    }
    assert base.None? ==> reps.Keys == {};
  }

  function Worst(cs: seq<Claim>, cfg: Config): (v: real)
    requires cs != []
    ensures IsMost(Elements(cs), cfg, v)
  {
    if |cs| == 1 then
      assert cs[0] in Elements(cs);
      FailureStrength(cs[0], cfg)
    else
      var front, last := cs[..|cs| - 1], cs[|cs| - 1];
      var v := Worst(front, cfg);
      assert Elements(cs) == Elements(front) + {last} by { assert cs == front + [last]; }
      Max(v, FailureStrength(last, cfg))
  }

  method WorstByCluster(active: seq<Claim>, cfg: Config) returns (worst: map<ClusterKey, real>)
    ensures WorstFailures(FailedTransfers(Elements(active)), cfg, worst)
  {
    var failed := Select(active, c => FailedTransfer(c));
    assert Elements(failed) == FailedTransfers(Elements(active));
    var bins := Arrange(failed, KeyFn());
    BinsAreKeyed(failed, bins);
    worst := map k | k in bins :: Worst(bins[k], cfg);
  }

  method MeasureTransfer(active: seq<Claim>, cfg: Config)
      returns (t: Transfer, strong: map<ClusterKey, Claim>, base: Option<ClusterKey>, worst: map<ClusterKey, real>)
    ensures TransferChosen(Elements(active), cfg, strong, base, worst) && t == TransferOf(strong, base, worst, cfg)
  {
    strong := StrongReps(active, cfg);
    base := EarliestRep(strong);
    worst := WorstByCluster(active, cfg);
    var pos := AddUp(Transferred(strong, base, cfg));
    var neg := AddUp(worst);
    t := Transfer(pos, neg, strong.Keys, set k | k in strong :: strong[k].context, set k | k in strong :: strong[k].persona,
                  set k | k in strong :: strong[k].realization, set k | k in strong :: strong[k].timestamp / DAY);
  }

  // ---- support dependency --------------------------------------------------------------------------

  ghost predicate SpeakersAmong(s: set<Claim>, cfg: Config, groups: set<Word>, speakers: seq<Claim>) {
    && (forall r | r in speakers :: MostConfident(s, cfg, r) && r.group in groups)
    && (forall i, j | 0 <= i < j < |speakers| :: speakers[i].group != speakers[j].group)
    && (forall c | c in s && Diagnostic(c, cfg) && c.group in groups :: c.group in GroupsOf(Elements(speakers)))
  }

  lemma SpeakerJoins(s: set<Claim>, cfg: Config, groups: set<Word>, speakers: seq<Claim>, r: Claim)
    requires SpeakersAmong(s, cfg, groups, speakers) && MostConfident(s, cfg, r) && r.group !in groups
    ensures SpeakersAmong(s, cfg, groups + {r.group}, speakers + [r])
  {
    var more := speakers + [r];
    assert Elements(more) == Elements(speakers) + {r};
    assert forall i | 0 <= i < |speakers| :: speakers[i] in speakers;
    forall c | c in s && Diagnostic(c, cfg) && c.group in groups + {r.group} ensures c.group in GroupsOf(Elements(more)) {
      if c.group == r.group { assert r in Elements(more); }
      else {
        var q :| q in Elements(speakers) && q.group == c.group;
        assert q in Elements(more);
      }
    }
  }

  lemma GroupIsSilent(s: set<Claim>, cfg: Config, groups: set<Word>, speakers: seq<Claim>, g: Word)
    requires SpeakersAmong(s, cfg, groups, speakers) && forall c | c in GroupOf(s, g) :: !Diagnostic(c, cfg)
    ensures SpeakersAmong(s, cfg, groups + {g}, speakers)
  {
    forall c | c in s && Diagnostic(c, cfg) && c.group in groups + {g} ensures c.group in GroupsOf(Elements(speakers)) {
      assert c.group == g ==> c in GroupOf(s, g);
    }
  }

  /** The most confident diagnostic claim of a group, if it has one. */
  method SpeakerOf(row: Row, cfg: Config, ghost s: set<Claim>, ghost g: Word) returns (c: Option<Claim>)
    requires GoodRow(s, cfg, g, row)
    ensures c.None? ==> forall x | x in GroupOf(s, g) :: !Diagnostic(x, cfg)
    ensures c.Some? ==> MostConfident(s, cfg, c.value) && c.value.group == g
  {
    var cands := Select(row.claims, x => Diagnostic(x, cfg));
    Candidates(s, cfg, g, row, cands);
    c := if cands == [] then None else Some(Surest(cands));
  }

  lemma OneFewer<T>(all: set<T>, todo: set<T>, g: T)
    requires g in todo && todo <= all
    ensures all - (todo - {g}) == all - todo + {g}
  {
  }

  method HearGroup(row: Row, cfg: Config, speakers: seq<Claim>, ghost s: set<Claim>, ghost g: Word, ghost done: set<Word>)
      returns (more: seq<Claim>)
    requires GoodRow(s, cfg, g, row) && SpeakersAmong(s, cfg, done, speakers) && g !in done
    ensures SpeakersAmong(s, cfg, done + {g}, more)
  {
    var c := SpeakerOf(row, cfg, s, g);
    if c.None? {
      GroupIsSilent(s, cfg, done, speakers, g);
      more := speakers;
    } else {
      SpeakerJoins(s, cfg, done, speakers, c.value);
      more := speakers + [c.value];
    }
  }

  method FindSpeakers(rows: map<Word, Row>, cfg: Config, ghost s: set<Claim>) returns (speakers: seq<Claim>)
    requires GoodRows(s, cfg, rows)
    ensures SpeakersAmong(s, cfg, rows.Keys, speakers)
  {
    speakers := [];
    var todo := rows.Keys;
    ghost var done := {};
    while todo != {}
      invariant todo <= rows.Keys && done == rows.Keys - todo && SpeakersAmong(s, cfg, done, speakers)
      decreases todo
    {
      ghost var any := Pick(todo);
      var g :| g in todo;
      speakers := HearGroup(rows[g], cfg, speakers, s, g, done);
      OneFewer(rows.Keys, todo, g);
      done, todo := done + {g}, todo - {g};
    }
    assert done == rows.Keys;
  }

  lemma Candidates(s: set<Claim>, cfg: Config, g: Word, row: Row, cands: seq<Claim>)
    requires GoodRow(s, cfg, g, row) && forall c :: c in cands <==> c in row.claims && Diagnostic(c, cfg)
    ensures cands == [] ==> forall c | c in GroupOf(s, g) :: !Diagnostic(c, cfg)
    ensures cands != [] ==> MostConfident(s, cfg, Surest(cands)) && Surest(cands).group == g
  {
    forall c ensures c in cands <==> c in s && c.group == g && Diagnostic(c, cfg) {
      assert c in Elements(row.claims) <==> c in GroupOf(s, g);
    }
  }

  method Observe(speakers: seq<Claim>) returns (obs: seq<Claim>)
    requires forall i, j | 0 <= i < j < |speakers| :: speakers[i].group != speakers[j].group
    ensures Apart(obs) && Elements(obs) == Observations(Elements(speakers))
  {
    obs := [];
    for i := 0 to |speakers|
      invariant Apart(obs) && forall c :: c in obs <==> c in speakers[..i] && Observed(c)
    {
      assert speakers[..i + 1] == speakers[..i] + [speakers[i]];
      if Observed(speakers[i]) {
        assert speakers[i] !in speakers[..i];
        ApartGrows(obs, speakers[i]);
        obs := obs + [speakers[i]];
      }
    }
    assert speakers[..|speakers|] == speakers;
  }

  method RepeatTotal(file: File, f: Claim -> real, cfg: Config) returns (total: real)
    requires cfg.repeatWeights != []
    ensures total == Repeats(file, f, cfg)
  {
    var m: map<ClusterKey, real>, todo := map[], file.Keys;
    ghost var m' := RepeatMasses(file, f, cfg);
    NoneLeft(m');
    while todo != {}
      invariant todo <= file.Keys && m == m' - todo
      decreases todo
    {
      var k :| k in todo;
      var v := Diminish(Each(file[k], f), cfg);
      Widen(m', todo, k);
      m, todo := m[k := v], todo - {k};
    }
    total := AddUp(m);
  }

  method KindTotals(file: File, cfg: Config) returns (kinds: map<Kind, real>)
    requires cfg.repeatWeights != []
    ensures kinds.Keys == KINDS && forall kind | kind in KINDS :: kinds[kind] == Repeats(file, KindAt(cfg, kind), cfg)
  {
    kinds := map[];
    var todo := KINDS;
    while todo != {}
      invariant todo <= KINDS && kinds.Keys == KINDS - todo
      invariant forall kind | kind in kinds :: kinds[kind] == Repeats(file, KindAt(cfg, kind), cfg)
      decreases todo
    {
      var kind :| kind in todo;
      var total := RepeatTotal(file, KindAt(cfg, kind), cfg);
      kinds, todo := kinds[kind := total], todo - {kind};
    }
  }

  method MeasureDependency(file: File, cfg: Config) returns (dep: Dependency)
    requires cfg.repeatWeights != []
    ensures dep == DependencyOf(file, cfg)
  {
    var num := RepeatTotal(file, BurdenAt(cfg), cfg);
    var den := RepeatTotal(file, EvidenceAt(cfg), cfg);
    var kinds := KindTotals(file, cfg);
    dep := Dependency(num, den, kinds, file.Keys);
  }

  lemma SpeakersChosen(s: set<Claim>, cfg: Config, speakers: seq<Claim>)
    requires SpeakersAmong(s, cfg, GroupsOf(s), speakers)
    ensures Speakers(s, cfg, Elements(speakers))
  {
    forall r, q | r in Elements(speakers) && q in Elements(speakers) && r.group == q.group ensures r == q {
      var i :| 0 <= i < |speakers| && speakers[i] == r;
      var j :| 0 <= j < |speakers| && speakers[j] == q;
    }
  }

  method MeasureSupport(rows: map<Word, Row>, cfg: Config, ghost s: set<Claim>)
      returns (dep: Dependency, ghost speakers: set<Claim>, file: File)
    requires cfg.repeatWeights != [] && GoodRows(s, cfg, rows) && rows.Keys == GroupsOf(s)
    ensures SupportChosen(s, cfg, speakers, file) && dep == DependencyOf(file, cfg)
  {
    var found := FindSpeakers(rows, cfg, s);
    SpeakersChosen(s, cfg, found);
    var obs := Observe(found);
    file := FileByCluster(obs);
    dep := MeasureDependency(file, cfg);
    speakers := Elements(found);
  }

  // ---- estimate ----------------------------------------------------------------------------------------

  method MeasureAbilities(rows: map<Word, Row>, reps: seq<Claim>, cfg: Config, ghost s: set<Claim>)
      returns (abilities: map<Dim, Ability>, file: File)
    requires cfg.repeatWeights != [] && GoodRows(s, cfg, rows) && rows.Keys == GroupsOf(s) && SpokenFor(rows, reps)
    ensures AbilityChosen(s, Elements(reps), file)
    ensures abilities.Keys == DIMS && forall d | d in DIMS :: abilities[d] == AbilityOf(s, file, cfg, d)
  {
    RowsChooseExemplars(s, cfg, rows, reps);
    file := FileByCluster(reps);
    FiledHaveRows(s, cfg, rows, reps, file);
    abilities := map[];
    var todo := DIMS;
    while todo != {}
      invariant todo <= DIMS && abilities.Keys == DIMS - todo
      invariant forall d | d in abilities :: abilities[d] == AbilityOf(s, file, cfg, d)
      decreases todo
    {
      var d :| d in todo;
      var a := MeasureAbility(file, rows, s, cfg, d);
      abilities, todo := abilities[d := a], todo - {d};
    }
  }

  lemma FiledHaveRows(s: set<Claim>, cfg: Config, rows: map<Word, Row>, reps: seq<Claim>, file: File)
    requires GoodRows(s, cfg, rows) && SpokenFor(rows, reps) && Filed(Elements(reps), file)
    ensures RowsFor(s, cfg, rows, file)
  {
    forall k, c | k in file && c in file[k] ensures c.group in rows {
      assert c in KeyedBy(Elements(reps), k);
    }
  }

  method EstimateActive(active: seq<Claim>, cfg: Config) returns (e: Estimation, ghost ch: Choices)
    requires cfg.repeatWeights != []
    ensures Chosen(Elements(active), cfg, ch) && e == EstimationOf(Elements(active), cfg, ch)
  {
    var rows, reps := GroupRows(active, cfg);
    var abilities, file := MeasureAbilities(rows, reps, cfg, Elements(active));
    var transfer, strong, base, worst := MeasureTransfer(active, cfg);
    var dep, speakers, supportFile := MeasureSupport(rows, cfg, Elements(active));
    e := Estimation(abilities, transfer, dep);
    ch := Choices(Elements(reps), file, strong, base, worst, speakers, supportFile);
    PutTogether(Elements(active), cfg, ch, e);
  }

  /** Every list of claims gets an estimation, or is refused when the contract is enforced and broken. */
  method Estimate(cs: seq<Claim>, t: Target, cfg: Config, strict: bool) returns (r: Option<Estimation>)
    requires cfg.repeatWeights != []
    ensures Estimated(cs, t, cfg, strict, r)
  {
    var errors := ValidateClaims(cs);
    if errors != [] && strict { return None; }
    var active := Select(cs, (c: Claim) => c.active && c.target == t);
    assert Elements(active) == Active(cs, t);
    var e, ch := EstimateActive(active, cfg);
    r := Some(e);
  }

  lemma PutTogether(s: set<Claim>, cfg: Config, ch: Choices, e: Estimation)
    requires cfg.repeatWeights != [] && AbilityChosen(s, ch.reps, ch.file)
    requires TransferChosen(s, cfg, ch.strong, ch.base, ch.worst) && SupportChosen(s, cfg, ch.speakers, ch.supportFile)
    requires e.abilities.Keys == DIMS && forall d | d in DIMS :: e.abilities[d] == AbilityOf(s, ch.file, cfg, d)
    requires e.transfer == TransferOf(ch.strong, ch.base, ch.worst, cfg) && e.dependency == DependencyOf(ch.supportFile, cfg)
    ensures Chosen(s, cfg, ch) && e == EstimationOf(s, cfg, ch)
  {
    assert Chosen(s, cfg, ch);
    assert e.abilities == map d | d in DIMS :: AbilityOf(s, ch.file, cfg, d);
  }
}
