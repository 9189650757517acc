/** The deletion planner: a worklist that repeats whole passes until one changes nothing. */
module DeletionPlan {
  import opened DeletionClosure

  // ---- the node table ----------------------------------------------------------------

  function IndexOf(nodes: seq<Node>, id: Id): (k: nat)
    ensures k <= |nodes|
    ensures k < |nodes| ==> nodes[k].id == id
    ensures k == |nodes| <==> id !in IdsOf(nodes)
    ensures forall i | 0 <= i < k :: nodes[i].id != id
  {
    if nodes == [] then 0
    else if nodes[0].id == id then 0
    else
      var k := IndexOf(nodes[1..], id);
      assert forall i | 1 <= i < |nodes| :: nodes[i] == nodes[1..][i - 1];
      k + 1
  }

  /** A dict keyed by id: a repeated id keeps its place and takes the later row. */
  function Put(nodes: seq<Node>, n: Node): seq<Node> {
    var k := IndexOf(nodes, n.id);
    if k < |nodes| then nodes[k := n] else nodes + [n]
  }

  function Table(graph: seq<Node>): seq<Node> {
    if graph == [] then [] else Put(Table(graph[..|graph| - 1]), graph[|graph| - 1])
  }

  lemma {:induction false} TableHasKeys(graph: seq<Node>)
    ensures IdsAreKeys(Table(graph))
  {
    if graph != [] {
      TableHasKeys(graph[..|graph| - 1]);
      var nodes := Table(graph[..|graph| - 1]);
      var k := IndexOf(nodes, graph[|graph| - 1].id);
      assert forall i | 0 <= i < |nodes| :: nodes[i].id in IdsOf(nodes);
    }
  }

  /** A graph without repeated ids is its own table. */
  lemma {:induction false} TableOfKeys(graph: seq<Node>)
    requires IdsAreKeys(graph)
    ensures Table(graph) == graph
  {
    if graph != [] {
      var front, last := graph[..|graph| - 1], graph[|graph| - 1];
      TableOfKeys(front);
      assert last.id !in IdsOf(front);
      assert graph == front + [last];
    }
  }

  function Selected(request: Request, nodes: seq<Node>): set<Id> {
    set i | 0 <= i < |nodes| && nodes[i].owned && Names(request, nodes[i]) :: nodes[i].id
  }

  function NonPublic(nodes: seq<Node>, ids: set<Id>): set<Id> {
    set i | 0 <= i < |nodes| && nodes[i].id in ids && !nodes[i].globalPublic :: nodes[i].id
  }

  // ---- progress ----------------------------------------------------------------------

  function Left(nodes: seq<Node>, p: Plan): nat {
    |IdsOf(nodes) - p.delete| + |IdsOf(nodes) - p.rebuild|
  }

  lemma {:induction false} ChangeIsGrowth(nodes: seq<Node>, p: Plan, j: nat)
    requires j <= |nodes| && !p.changed && Pass(nodes[..j], p).changed
    ensures var p' := Pass(nodes[..j], p);
            exists k :: 0 <= k < |nodes| &&
              ((nodes[k].id !in p.delete && nodes[k].id in p'.delete)
               || (nodes[k].id !in p.rebuild && nodes[k].id in p'.rebuild))
  {
    assert j > 0;
    assert nodes[..j][..j - 1] == nodes[..j - 1];
    PassGrows(nodes, p, 0, j - 1);
    var before := Pass(nodes[..j - 1], p);
    var p' := Visit(before, nodes[j - 1]);
    if before.changed {
      ChangeIsGrowth(nodes, p, j - 1);
      var k :| 0 <= k < |nodes| &&
        ((nodes[k].id !in p.delete && nodes[k].id in before.delete)
         || (nodes[k].id !in p.rebuild && nodes[k].id in before.rebuild));
      assert nodes[k].id in before.delete ==> nodes[k].id in p'.delete;
    } else {
      assert nodes[..0] == [];
      assert (nodes[j - 1].id !in before.delete && nodes[j - 1].id in p'.delete)
             || (nodes[j - 1].id !in before.rebuild && nodes[j - 1].id in p'.rebuild);
    }
  }

  lemma SmallerRest(all: set<Id>, a: set<Id>, b: set<Id>)
    requires a <= b
    ensures |all - b| <= |all - a|
    ensures (exists x :: x in all && x in b && x !in a) ==> |all - b| < |all - a|
  {
    assert all - b <= all - a;
    assert all - a == (all - b) + ((all - a) - (all - b));
    if x :| x in all && x in b && x !in a { assert x in (all - a) - (all - b); }
  }

  /** Each pass that changed something grew the deletions or the rebuilds. */
  lemma PassesShrinkTheRest(nodes: seq<Node>, p: Plan)
    requires !p.changed
    ensures Left(nodes, Pass(nodes, p)) <= Left(nodes, p)
    ensures Pass(nodes, p).changed ==> Left(nodes, Pass(nodes, p)) < Left(nodes, p)
  {
    var p' := Pass(nodes, p);
    assert nodes[..|nodes|] == nodes && nodes[..0] == [];
    PassGrows(nodes, p, 0, |nodes|);
    SmallerRest(IdsOf(nodes), p.delete, p'.delete);
    SmallerRest(IdsOf(nodes), p.rebuild, p'.rebuild);
    if p'.changed {
      ChangeIsGrowth(nodes, p, |nodes|);
      var k :| 0 <= k < |nodes| &&
        ((nodes[k].id !in p.delete && nodes[k].id in p'.delete)
         || (nodes[k].id !in p.rebuild && nodes[k].id in p'.rebuild));
      assert nodes[k].id in IdsOf(nodes);
    }
  }

  /** Passes until one changes nothing. */
  function Worklist(nodes: seq<Node>, p: Plan): Plan
    requires !p.changed
    decreases Left(nodes, p)
  {
    var p' := Pass(nodes, p);
    PassesShrinkTheRest(nodes, p);
    if p'.changed then Worklist(nodes, p'.(changed := false)) else p'
  }

  function Start(selected: set<Id>): Plan {
    Plan(selected, {}, {}, false)
  }

  lemma {:induction false} WorklistKeeps(nodes: seq<Node>, selected: set<Id>, p: Plan)
    requires IdsAreKeys(nodes) && !p.changed && Sound(nodes, selected, p)
    ensures Sound(nodes, selected, Worklist(nodes, p))
    ensures RebuildablesFirst(nodes) ==>
              Worklist(nodes, p).delete == Closure(nodes, selected) && Flagged(nodes, Worklist(nodes, p))
    decreases Left(nodes, p)
  {
    var p' := Pass(nodes, p);
    PassKeeps(nodes, selected, p, |nodes|);
    assert nodes[..|nodes|] == nodes;
    PassesShrinkTheRest(nodes, p);
    if p'.changed {
      WorklistKeeps(nodes, selected, p'.(changed := false));
    } else if RebuildablesFirst(nodes) {
      QuietEnd(nodes, selected, p);
    }
  }

  // ---- the loops -----------------------------------------------------------------------

  method BuildTable(graph: seq<Node>) returns (nodes: seq<Node>)
    ensures nodes == Table(graph) && IdsAreKeys(nodes)
  {
    nodes := [];
    for i := 0 to |graph|
      invariant nodes == Table(graph[..i])
    {
      assert graph[..i + 1][..i] == graph[..i];
      nodes := Put(nodes, graph[i]);
    }
    assert graph[..|graph|] == graph;
    TableHasKeys(graph);
  }

  method SelectNodes(request: Request, nodes: seq<Node>) returns (selected: set<Id>)
    ensures selected == Selected(request, nodes)
  {
    selected := {};
    for i := 0 to |nodes|
      invariant selected == set k | 0 <= k < i && nodes[k].owned && Names(request, nodes[k]) :: nodes[k].id
    {
      if nodes[i].owned && Names(request, nodes[i]) { selected := selected + {nodes[i].id}; }
    }
  }

  method RunPass(nodes: seq<Node>, p: Plan) returns (p': Plan)
    ensures p' == Pass(nodes, p)
  {
    var delete, rebuild, cancel, changed := p.delete, p.rebuild, p.cancel, p.changed;
    for i := 0 to |nodes|
      invariant Plan(delete, rebuild, cancel, changed) == Pass(nodes[..i], p)
    {
      assert nodes[..i + 1][..i] == nodes[..i];
      var n := nodes[i];
      if !n.owned || n.id in delete { continue; }
      if n.sources * delete == {} { continue; }
      if Pending(n) {
        cancel, delete, changed := cancel + {n.id}, delete + {n.id}, true;
        continue;
      }
      if n.rebuildable {
        if n.sources != {} && n.sources <= delete {
          delete := delete + {n.id};
        } else if n.id !in rebuild {
          rebuild, changed := rebuild + {n.id}, true;
        }
        continue;
      }
      if n.derived && n.sources != {} && n.sources <= delete {
        delete, changed := delete + {n.id}, true;
      }
    }
    assert nodes[..|nodes|] == nodes;
    p' := Plan(delete, rebuild, cancel, changed);
  }

  /** The worklist terminates. */
  method Propagate(nodes: seq<Node>, selected: set<Id>) returns (p: Plan)
    ensures p == Worklist(nodes, Start(selected))
  {
    p := Plan(selected, {}, {}, true);
    while p.changed
      invariant Worklist(nodes, Start(selected)) == if p.changed then Worklist(nodes, p.(changed := false)) else p
      decreases Left(nodes, p), p.changed
    {
      PassesShrinkTheRest(nodes, p.(changed := false));
      p := RunPass(nodes, p.(changed := false));
    }
  }

  /** Every surviving rebuildable node that lost a source is due for rebuilding. */
  ghost predicate Flagged(nodes: seq<Node>, p: Plan) {
    forall i | 0 <= i < |nodes| && nodes[i].owned && nodes[i].rebuildable && !Pending(nodes[i]) ::
      nodes[i].id !in p.delete && Hit(nodes[i], p.delete) ==> nodes[i].id in p.rebuild
  }

  lemma StartIsSound(nodes: seq<Node>, selected: set<Id>)
    requires IdsAreKeys(nodes) && selected <= OwnedIds(nodes)
    ensures Sound(nodes, selected, Start(selected))
  {
    ClosureIsLeast(nodes, selected);
    forall i | 0 <= i < |nodes| && nodes[i].id in selected ensures nodes[i].owned {
      assert nodes[i].id in OwnedIds(nodes);
    }
  }

  lemma SoundDeletesOwned(nodes: seq<Node>, selected: set<Id>, p: Plan)
    requires Sound(nodes, selected, p)
    ensures p.delete <= OwnedIds(nodes)
  {
    forall x | x in p.delete ensures x in OwnedIds(nodes) { assert x in IdsOf(nodes); }
  }

  lemma QuietEnd(nodes: seq<Node>, selected: set<Id>, last: Plan)
    requires RebuildablesFirst(nodes) && !Pass(nodes, last).changed && Sound(nodes, selected, last)
    requires Pass(nodes, last).delete <= Closure(nodes, selected)
    ensures Pass(nodes, last).delete == Closure(nodes, selected) && Flagged(nodes, Pass(nodes, last))
  {
    SoundDeletesOwned(nodes, selected, last);
    QuietPassIsClosed(nodes, selected, last);
    ClosureIsLeast(nodes, selected);
    forall i | 0 <= i < |nodes| && nodes[i].owned && nodes[i].rebuildable && !Pending(nodes[i])
               && nodes[i].id !in Pass(nodes, last).delete && Hit(nodes[i], Pass(nodes, last).delete)
      ensures nodes[i].id in Pass(nodes, last).rebuild
    {
      QuietPassFlagsSurvivors(nodes, last, i);
    }
  }

  /** What the finished plan promises about the table it was made for. */
  ghost predicate Promises(nodes: seq<Node>, selected: set<Id>, p: Plan) {
    && NonPublic(nodes, selected) <= p.delete <= NonPublic(nodes, Closure(nodes, selected))
    && p.delete * p.rebuild == {}
    && (forall i | 0 <= i < |nodes| :: nodes[i].id in p.cancel <==>
          nodes[i].id in p.delete && nodes[i].id !in selected && Pending(nodes[i]))
    && (forall i | 0 <= i < |nodes| && nodes[i].id in p.rebuild ::
          nodes[i].owned && nodes[i].rebuildable && !Pending(nodes[i]) && Hit(nodes[i], Closure(nodes, selected)))
    && p.rebuild <= IdsOf(nodes) && p.cancel <= p.delete
  }

  /** The exact plan: the whole closure, and a rebuild for every survivor that lost a source. */
  ghost predicate Exact(nodes: seq<Node>, selected: set<Id>, p: Plan) {
    var closure := Closure(nodes, selected);
    && p.delete == NonPublic(nodes, closure)
    && forall i | 0 <= i < |nodes| && !nodes[i].globalPublic :: nodes[i].id in p.rebuild <==>
         && nodes[i].owned && nodes[i].rebuildable && !Pending(nodes[i])
         && nodes[i].id !in closure && Hit(nodes[i], closure)
  }

  /** The worklist's result without public nodes, over the rows the graph amounts to. */
  function Planned(request: Request, graph: seq<Node>): Plan {
    var nodes := Table(graph);
    var raw := Worklist(nodes, Start(Selected(request, nodes)));
    var delete := NonPublic(nodes, raw.delete);
    Plan(delete, raw.rebuild - delete, raw.cancel * delete, false)
  }

  method PlanDeletion(request: Request, graph: seq<Node>) returns (p: Plan, tombstones: set<Id>)
    ensures tombstones == Selected(request, Table(graph)) && p == Planned(request, graph)
    ensures Promises(Table(graph), tombstones, p)
    ensures RebuildablesFirst(Table(graph)) ==> Exact(Table(graph), tombstones, p)
  {
    var nodes := BuildTable(graph);
    var selected := SelectNodes(request, nodes);
    var raw := Propagate(nodes, selected);
    StartIsSound(nodes, selected);
    WorklistKeeps(nodes, selected, Start(selected));
    var delete := NonPublic(nodes, raw.delete);
    p := Plan(delete, raw.rebuild - delete, raw.cancel * delete, false);
    FinalFilter(nodes, selected, raw, p);
    return p, selected;
  }

  lemma FinalFilter(nodes: seq<Node>, selected: set<Id>, raw: Plan, p: Plan)
    requires IdsAreKeys(nodes) && Sound(nodes, selected, raw)
    requires p.delete == NonPublic(nodes, raw.delete)
    requires p.rebuild == raw.rebuild - p.delete && p.cancel == raw.cancel * p.delete
    ensures Promises(nodes, selected, p)
    ensures raw.delete == Closure(nodes, selected) && Flagged(nodes, raw) ==> Exact(nodes, selected, p)
  {
    var closure := Closure(nodes, selected);
    forall i | 0 <= i < |nodes| && Hit(nodes[i], raw.delete) ensures Hit(nodes[i], closure) {
      HitIsMonotone(nodes[i], raw.delete, closure);
    }
  }

  /** Listing every source before its dependents is enough for an exact plan. */
  lemma SourcesFirstIsEnough(nodes: seq<Node>)
    requires forall j, i | 0 <= j < i < |nodes| :: nodes[i].id !in nodes[j].sources
    ensures RebuildablesFirst(nodes)
  {
  }

  // ---- when the worklist is exact -----------------------------------------------------------

  /** For every table: the worklist found the whole closure exactly when one more pass deletes nothing. */
  lemma ExactIffStable(nodes: seq<Node>, selected: set<Id>, p: Plan)
    requires selected <= p.delete <= Closure(nodes, selected)
    ensures p.delete == Closure(nodes, selected) <==> Pass(nodes, p).delete == p.delete
  {
    ClosureIsLeast(nodes, selected);
    assert nodes[..|nodes|] == nodes && nodes[..0] == [];
    if p.delete == Closure(nodes, selected) {
      PassStaysInClosure(nodes, selected, p, |nodes|);
      PassGrows(nodes, p, 0, |nodes|);
    } else if Pass(nodes, p).delete == p.delete {
      StableIsClosed(nodes, selected, p);
    }
  }

  lemma {:induction false} PassStaysInClosure(nodes: seq<Node>, selected: set<Id>, p: Plan, i: nat)
    requires i <= |nodes| && p.delete <= Closure(nodes, selected)
    ensures Pass(nodes[..i], p).delete <= Closure(nodes, selected)
  {
    if i > 0 {
      PassStaysInClosure(nodes, selected, p, i - 1);
      assert nodes[..i][..i - 1] == nodes[..i - 1];
      VisitStaysInClosure(nodes, selected, Pass(nodes[..i - 1], p), i - 1);
    }
  }

  lemma StableIsClosed(nodes: seq<Node>, selected: set<Id>, p: Plan)
    requires selected <= p.delete && Pass(nodes, p).delete == p.delete
    ensures Closed(nodes, selected, p.delete)
  {
    assert nodes[..|nodes|] == nodes && nodes[..0] == [];
    forall j | 0 <= j < |nodes| && Falls(nodes[j], p.delete) ensures nodes[j].id in p.delete {
      PassGrows(nodes, p, 0, j);
      PassGrows(nodes, p, j, |nodes|);
      VisitDeletes(Pass(nodes[..j], p), nodes[j]);
      VisitWithin(nodes, p, j);
    }
  }

  /** The worklist deletes the whole closure and flags every survivor that lost a source. */
  ghost predicate ExactFor(nodes: seq<Node>, selected: set<Id>) {
    var p := Worklist(nodes, Start(selected));
    p.delete == Closure(nodes, selected) && Flagged(nodes, p)
  }

  // Everything the user owns but i and j, and but what else j depends on when a single loss
  // already shows on j.
  function AllBut(nodes: seq<Node>, j: nat, i: nat): set<Id>
    requires j < |nodes| && i < |nodes|
  {
    OwnedIds(nodes) - {nodes[i].id, nodes[j].id} - (if DerivedOnly(nodes[j]) then {} else nodes[j].sources)
  }

  /** What else j depends on are records that never fall, and nothing that i depends on. */
  ghost predicate Apart(nodes: seq<Node>, j: nat, i: nat)
    requires j < |nodes| && i < |nodes|
  {
    && nodes[j].sources !! nodes[i].sources
    && forall k | 0 <= k < |nodes| && k != i && nodes[k].id in nodes[j].sources :: !CanFall(nodes[k])
  }

  // No demand is made of derived nodes, nor of a pending or rebuildable node whose rebuildable
  // sources all come before it.
  ghost predicate PlainDependents(nodes: seq<Node>) {
    forall j, i | 0 <= j < i < |nodes| && Treacherous(nodes, j, i) && !DerivedOnly(nodes[j]) :: Apart(nodes, j, i)
  }

  ghost predicate Snare(nodes: seq<Node>, j: nat, i: nat) {
    IdsAreKeys(nodes) && j < i < |nodes| && Treacherous(nodes, j, i) && (!DerivedOnly(nodes[j]) ==> Apart(nodes, j, i))
  }

  lemma SilentVisit(nodes: seq<Node>, j: nat, i: nat, k: nat)
    requires Snare(nodes, j, i) && k < |nodes|
    ensures var s := AllBut(nodes, j, i);
            && (k < i ==> Visit(Start(s), nodes[k]) == Start(s))
            && (k == i ==> Visit(Start(s), nodes[k]) == Start(s + {nodes[i].id}))
            && (k > i ==> Visit(Start(s + {nodes[i].id}), nodes[k]) == Start(s + {nodes[i].id}))
  {
    var s := AllBut(nodes, j, i);
    if k == i {
      assert nodes[i].sources * s == nodes[i].sources;
    } else if k == j {
      assert nodes[i].id !in s && nodes[i].id in nodes[j].sources;
      if !DerivedOnly(nodes[j]) { assert nodes[j].sources * s == {}; }
    } else if nodes[k].owned && nodes[k].id !in s {
      assert nodes[k].id in OwnedIds(nodes) && nodes[k].id in nodes[j].sources;
    }
  }

  /** Selecting all of that, the only pass visits j, then deletes i without a word. */
  lemma {:induction false} SilentPass(nodes: seq<Node>, j: nat, i: nat, n: nat)
    requires Snare(nodes, j, i) && n <= |nodes|
    ensures var s := AllBut(nodes, j, i);
            Pass(nodes[..n], Start(s)) == if n <= i then Start(s) else Start(s + {nodes[i].id})
  {
    if n > 0 {
      SilentPass(nodes, j, i, n - 1);
      assert nodes[..n][..n - 1] == nodes[..n - 1];
      SilentVisit(nodes, j, i, n - 1);
    }
  }

  /** A late rebuildable node breaks every table it sits in: its dependent is neither deleted nor flagged. */
  lemma TreacherousPairIsMissed(nodes: seq<Node>, j: nat, i: nat)
    requires Snare(nodes, j, i)
    ensures AllBut(nodes, j, i) <= OwnedIds(nodes) && !ExactFor(nodes, AllBut(nodes, j, i))
  {
    var s := AllBut(nodes, j, i);
    SilentPass(nodes, j, i, |nodes|);
    assert nodes[..|nodes|] == nodes;
    var p := Start(s + {nodes[i].id});
    assert Worklist(nodes, Start(s)) == p;
    assert nodes[i].id in nodes[j].sources * p.delete;
    if DerivedOnly(nodes[j]) || Pending(nodes[j]) {
      ClosureIsLeast(nodes, s);
      if p.delete == Closure(nodes, s) { FallenIsMissed(nodes, j, i); }
    }
  }

  lemma FallenIsMissed(nodes: seq<Node>, j: nat, i: nat)
    requires Snare(nodes, j, i) && (DerivedOnly(nodes[j]) || Pending(nodes[j]))
    ensures Falls(nodes[j], AllBut(nodes, j, i) + {nodes[i].id})
  {
    var d := AllBut(nodes, j, i) + {nodes[i].id};
    assert nodes[i].id in nodes[j].sources * d;
  }

  // The order decides alone: over these tables the worklist is exact for every selection of owned
  // nodes if and only if no rebuildable node is listed after one it could take down.
  lemma ExactExactlyInThisOrder(nodes: seq<Node>)
    requires IdsAreKeys(nodes) && PlainDependents(nodes)
    ensures RebuildablesFirst(nodes) <==> forall s | s <= OwnedIds(nodes) :: ExactFor(nodes, s)
  {
    if RebuildablesFirst(nodes) {
      forall s | s <= OwnedIds(nodes) ensures ExactFor(nodes, s) {
        StartIsSound(nodes, s);
        WorklistKeeps(nodes, s, Start(s));
      }
    } else {
      var j, i :| 0 <= j < i < |nodes| && Treacherous(nodes, j, i);
      TreacherousPairIsMissed(nodes, j, i);
    }
  }

  // ---- a request that is answered short -------------------------------------------------------

  const MEMORY := Node(1, true, false, EpisodeMemory, {}, false, false, None, None, None, None)
  const PROJECTION := Node(2, true, false, RelationshipProjection, {1}, true, false, None, None, None, None)
  const DIGEST := Node(3, true, false, OtherKind, {2}, false, true, None, None, None, None)

  const FORGET_MEMORY := Request(MemoryItem, None, Some(1), None, None, None)

  /** Forgetting the memory deletes the projection made from it, and leaves what was made from the projection. */
  lemma ForgottenMemoryLeavesADigest()
    ensures var graph := [DIGEST, PROJECTION, MEMORY];
            && Selected(FORGET_MEMORY, Table(graph)) == {1}
            && Planned(FORGET_MEMORY, graph).delete == {1, 2}
            && 3 in Closure(Table(graph), {1})
            && !Exact(Table(graph), {1}, Planned(FORGET_MEMORY, graph))
            && Planned(FORGET_MEMORY, [MEMORY, PROJECTION, DIGEST]).delete == {1, 2, 3}
  {
    var graph := [DIGEST, PROJECTION, MEMORY];
    TableOfKeys(graph);
    assert Selected(FORGET_MEMORY, graph) == {1} by { assert graph[2] == MEMORY; }
    assert Worklist(graph, Start({1})) == Start({1, 2}) by { ShortRun(); }
    assert NonPublic(graph, {1, 2}) == {1, 2} by { assert graph[1] == PROJECTION && graph[2] == MEMORY; }
    DigestFalls();
    assert 3 in NonPublic(graph, Closure(graph, {1})) by { assert graph[0] == DIGEST; }
    InOrder();
  }

  lemma ShortRun()
    ensures Pass([DIGEST, PROJECTION, MEMORY], Start({1})) == Start({1, 2})
  {
    var graph := [DIGEST, PROJECTION, MEMORY];
    assert graph[..2] == [DIGEST, PROJECTION] && graph[..2][..1] == [DIGEST] && graph[..2][..1][..0] == [];
    assert Pass([DIGEST], Start({1})) == Start({1}) by { assert {2} * {1} == {}; }
    assert Pass([DIGEST, PROJECTION], Start({1})) == Start({1, 2}) by { assert 1 in {1} * {1}; }
  }

  lemma DigestFalls()
    ensures 3 in Closure([DIGEST, PROJECTION, MEMORY], {1})
  {
    var graph := [DIGEST, PROJECTION, MEMORY];
    var c := Closure(graph, {1});
    ClosureIsLeast(graph, {1});
    assert Falls(graph[1], c) by { assert 1 in {1} * c; }
    assert Falls(graph[0], c) by { assert 2 in {2} * c; }
  }

  /** Listed sources first, the same records are all found. */
  lemma InOrder()
    ensures Planned(FORGET_MEMORY, [MEMORY, PROJECTION, DIGEST]).delete == {1, 2, 3}
  {
    var graph := [MEMORY, PROJECTION, DIGEST];
    TableOfKeys(graph);
    var s := Selected(FORGET_MEMORY, graph);
    assert s == {1} by { assert graph[0] == MEMORY; }
    assert Worklist(graph, Start({1})).delete == {1, 2, 3} by { AllThreeFall(); }
    assert NonPublic(graph, {1, 2, 3}) == {1, 2, 3} by { assert graph[0].id == 1 && graph[1].id == 2 && graph[2].id == 3; }
  }

  lemma AllThreeFall()
    ensures Worklist([MEMORY, PROJECTION, DIGEST], Start({1})).delete == {1, 2, 3}
  {
    var graph := [MEMORY, PROJECTION, DIGEST];
    assert {1} <= OwnedIds(graph) by { assert graph[0] == MEMORY; }
    StartIsSound(graph, {1});
    WorklistKeeps(graph, {1}, Start({1}));
    SourcesFirstIsEnough(graph);
    var c := Closure(graph, {1});
    ClosureIsLeast(graph, {1});
    assert Falls(graph[1], c) by { assert 1 in {1} * c; }
    assert Falls(graph[2], c) by { assert 2 in {2} * c; }
    assert IdsOf(graph) == {1, 2, 3} by { assert graph[0].id == 1 && graph[1].id == 2 && graph[2].id == 3; }
  }
}
