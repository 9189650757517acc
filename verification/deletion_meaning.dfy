/** What requests name, what falls with it, and what a whole deletion leaves behind. */
module DeletionMeaning {
  import opened DeletionClosure
  import opened DeletionPlan

  // ---- what requests name ------------------------------------------------------------------

  /** Whatever a narrower request names, public records aside, a request for everything names too. */
  lemma EverythingIsWidest(request: Request, n: Node)
    ensures Names(request, n) && !n.globalPublic ==> Names(request.(scope := AllUserData), n)
    ensures Names(request.(scope := AllUserData), n) <==> !n.globalPublic
  {
  }

  /** The learning history is the projections and every target's own history. */
  lemma HistoryIsEveryTarget(request: Request, n: Node)
    ensures Names(request.(scope := AllLearningHistory), n) <==>
              n.kind == LearningProjection || exists t :: Names(request.(scope := LearningTarget, target := t), n)
  {
    assert Names(request.(scope := LearningTarget, target := n.target), n) <==> n.kind in {Evidence, LearnerState, ReviewEvent, PlanningLedgerEntry};
  }

  predicate Talk(kind: Kind) {
    kind == UserTurnKind || kind == AssistantTurnKind || kind == ConversationKind || kind == EpisodeMemory
  }

  predicate Learning(kind: Kind) {
    kind == Evidence || kind == LearnerState || kind == ReviewEvent || kind == PlanningLedgerEntry || kind == LearningProjection
  }

  predicate Bond(kind: Kind) {
    kind == RelationshipMemory || kind == RelationshipProjection
  }

  /** Talk is forgotten by its conversation, learning by the learning scopes, and a bond by its persona. */
  lemma ScopesKeepApart(request: Request, n: Node)
    requires Names(request, n)
    requires request.scope != AllUserData && request.scope != MemoryItem
    ensures Talk(n.kind) <==> request.scope == ConversationScope
    ensures Learning(n.kind) <==> request.scope == LearningTarget || request.scope == AllLearningHistory
    ensures Bond(n.kind) <==> request.scope == RelationshipPair
    ensures n.kind == ProfileField <==> request.scope == ProfileFieldScope
    ensures n.kind == CharacterPackage <==> request.scope == PersonaPackage
    ensures request.scope != UnknownScope && !Pending(n) && n.kind != OtherKind
  {
  }

  /** And within its sort a record is named exactly by the request that carries its own key. */
  lemma KeysDecide(request: Request, n: Node)
    ensures Talk(n.kind) ==> (Names(request.(scope := ConversationScope), n) <==> n.conversation == request.conversation)
    ensures Bond(n.kind) ==> (Names(request.(scope := RelationshipPair), n) <==> n.persona == request.persona)
    ensures n.kind == ProfileField ==> (Names(request.(scope := ProfileFieldScope), n) <==> n.fieldKey == request.fieldKey)
    ensures n.kind == CharacterPackage ==> (Names(request.(scope := PersonaPackage), n) <==> n.persona == request.persona)
    ensures Learning(n.kind) && n.kind != LearningProjection ==>
              (Names(request.(scope := LearningTarget), n) <==> n.target == request.target)
    ensures Names(request.(scope := MemoryItem), n) <==> request.entity == Some(n.id)
  {
  }

  // ---- what falls with them ------------------------------------------------------------------

  predicate Queued(n: Node) {
    n.kind == PendingProjectionJob || n.kind == PendingProviderAction
  }

  ghost predicate Shared<T(!new)>(a: set<T>, b: set<T>) {
    exists x :: x in a && x in b
  }

  ghost predicate LostOne(n: Node, gone: set<Id>) {
    Shared(n.sources, gone)
  }

  ghost predicate LostAll(n: Node, gone: set<Id>) {
    LostOne(n, gone) && n.sources <= gone
  }

  lemma FallsInWords(n: Node, gone: set<Id>)
    ensures Falls(n, gone) <==>
              n.owned && ((Queued(n) && LostOne(n, gone)) || (!Queued(n) && (n.rebuildable || n.derived) && LostAll(n, gone)))
    ensures Hit(n, gone) <==> LostOne(n, gone)
  {
    Meets(n.sources, gone);
    assert n.sources <= gone ==> n.sources * gone == n.sources;
  }

  lemma Meets<T(!new)>(a: set<T>, b: set<T>)
    ensures a * b != {} <==> Shared(a, b)
  {
    if a * b != {} {
      var x :| x in a * b;
      assert x in a && x in b;
    }
    if Shared(a, b) {
      var x :| x in a && x in b;
      assert x in a * b;
    }
  }

  // A record of the closure was selected, or is queued work that lost a source, or a rebuildable or
  // derived record that lost all it had; and every such record of the user is in the closure.
  lemma ClosureExactly(nodes: seq<Node>, selected: set<Id>, i: nat)
    requires IdsAreKeys(nodes) && i < |nodes|
    ensures var n, gone := nodes[i], Closure(nodes, selected);
            n.id in gone <==>
              || n.id in selected
              || (n.owned && Queued(n) && LostOne(n, gone))
              || (n.owned && !Queued(n) && (n.rebuildable || n.derived) && LostAll(n, gone))
  {
    var n, gone := nodes[i], Closure(nodes, selected);
    ClosureIsLeast(nodes, selected);
    FallsInWords(n, gone);
    if n.id in gone && n.id !in selected && !Falls(n, gone) { OneStandsAlone(nodes, selected, i); }
  }

  lemma OneStandsAlone(nodes: seq<Node>, selected: set<Id>, i: nat)
    requires IdsAreKeys(nodes) && i < |nodes| && nodes[i].id !in selected && !Falls(nodes[i], Closure(nodes, selected))
    ensures nodes[i].id !in Closure(nodes, selected)
  {
    var gone := Closure(nodes, selected);
    var rest := gone - {nodes[i].id};
    ClosureIsLeast(nodes, selected);
    forall j | 0 <= j < |nodes| && Falls(nodes[j], rest) ensures nodes[j].id in rest {
      FallsIsMonotone(nodes[j], rest, gone);
    }
    assert Closed(nodes, selected, rest);
  }

  /** Records that only rest on one another do not pull one another down. */
  lemma UnreachedStand(nodes: seq<Node>, selected: set<Id>, stand: set<Id>)
    requires stand * selected == {}
    requires forall i | 0 <= i < |nodes| && nodes[i].id in stand && nodes[i].owned ::
               if Queued(nodes[i]) then nodes[i].sources <= stand
               else (!nodes[i].rebuildable && !nodes[i].derived) || nodes[i].sources == {} || LostOne(nodes[i], stand)
    ensures Closure(nodes, selected) * stand == {}
  {
    var gone := Closure(nodes, selected);
    ClosureIsLeast(nodes, selected);
    forall i | 0 <= i < |nodes| && Falls(nodes[i], gone - stand) ensures nodes[i].id in gone - stand {
      FallsIsMonotone(nodes[i], gone - stand, gone);
      FallsInWords(nodes[i], gone - stand);
    }
    forall x | x in selected ensures x in gone - stand { assert x in stand ==> x in stand * selected; }
    assert Closed(nodes, selected, gone - stand);
  }

  // ---- whole plans -------------------------------------------------------------------------------

  /** What a plan decides of one record that is not public. */
  ghost predicate Decided(n: Node, named: bool, gone: set<Id>, p: Plan) {
    && (n.id in p.delete <==> named || (n.owned && ((Queued(n) && LostOne(n, gone))
                                                    || (!Queued(n) && (n.rebuildable || n.derived) && LostAll(n, gone)))))
    && (n.id in p.rebuild <==> n.owned && !named && n.rebuildable && !Queued(n) && LostOne(n, gone) && !LostAll(n, gone))
    && (n.id in p.cancel <==> n.owned && !named && Queued(n) && LostOne(n, gone))
  }

  // In the exact order a plan deletes what was named and what fell with it, has rebuilt what lost some
  // sources but not all, and cancels the queued work that lost one.
  lemma PlanDecides(request: Request, graph: seq<Node>, i: nat)
    requires i < |Table(graph)| && !Table(graph)[i].globalPublic && RebuildablesFirst(Table(graph))
    ensures var nodes := Table(graph); var n := nodes[i];
            Decided(n, n.owned && Names(request, n), Closure(nodes, Selected(request, nodes)), Planned(request, graph))
  {
    var nodes := Table(graph);
    var selected := Selected(request, nodes);
    TableHasKeys(graph);
    PlannedIsExact(request, graph);
    NamedExactly(request, nodes, i);
    ClosureExactly(nodes, selected, i);
    FallsInWords(nodes[i], Closure(nodes, selected));
    OneRow(nodes, Closure(nodes, selected), i);
  }

  lemma OneRow(nodes: seq<Node>, ids: set<Id>, i: nat)
    requires i < |nodes| && !nodes[i].globalPublic
    ensures nodes[i].id in ids ==> nodes[i].id in NonPublic(nodes, ids)
    ensures nodes[i].id in NonPublic(nodes, ids) ==> nodes[i].id in ids
  {
  }

  lemma NamedExactly(request: Request, nodes: seq<Node>, i: nat)
    requires IdsAreKeys(nodes) && i < |nodes|
    ensures nodes[i].id in Selected(request, nodes) <==> nodes[i].owned && Names(request, nodes[i])
  {
    if nodes[i].id in Selected(request, nodes) {
      var j :| 0 <= j < |nodes| && nodes[j].owned && Names(request, nodes[j]) && nodes[j].id == nodes[i].id;
      assert j == i;
    }
  }

  lemma SelectedAreOwned(request: Request, nodes: seq<Node>)
    ensures Selected(request, nodes) <= OwnedIds(nodes)
  {
  }

  lemma PlannedIsExact(request: Request, graph: seq<Node>)
    ensures var nodes := Table(graph);
            && Promises(nodes, Selected(request, nodes), Planned(request, graph))
            && (RebuildablesFirst(nodes) ==> Exact(nodes, Selected(request, nodes), Planned(request, graph)))
  {
    var nodes := Table(graph);
    var selected := Selected(request, nodes);
    TableHasKeys(graph);
    SelectedAreOwned(request, nodes);
    StartIsSound(nodes, selected);
    WorklistKeeps(nodes, selected, Start(selected));
    FinalFilter(nodes, selected, Worklist(nodes, Start(selected)), Planned(request, graph));
  }

  /** In any order: forgetting everything deletes every private record of the user and keeps all others. */
  lemma NothingPrivateIsLeft(request: Request, graph: seq<Node>, i: nat)
    requires request.scope == AllUserData && i < |Table(graph)|
    ensures var n := Table(graph)[i]; n.id in Planned(request, graph).delete <==> n.owned && !n.globalPublic
  {
    var nodes := Table(graph);
    var selected := Selected(request, nodes);
    TableHasKeys(graph);
    PlannedIsExact(request, graph);
    NamedExactly(request, nodes, i);
    ClosureExactly(nodes, selected, i);
    if nodes[i].id in NonPublic(nodes, Closure(nodes, selected)) {
      var j :| 0 <= j < |nodes| && nodes[j].id in Closure(nodes, selected) && !nodes[j].globalPublic && nodes[j].id == nodes[i].id;
      assert j == i;
    }
    assert nodes[i].id in NonPublic(nodes, selected) <==> nodes[i].owned && !nodes[i].globalPublic;
  }

  /** A scope the planner does not know, or a key no record has, deletes nothing. */
  lemma NothingNamedNothingFalls(request: Request, graph: seq<Node>)
    requires forall i | 0 <= i < |Table(graph)| && Table(graph)[i].owned :: !Names(request, Table(graph)[i])
    ensures Planned(request, graph) == Plan({}, {}, {}, false)
  {
    var nodes := Table(graph);
    TableHasKeys(graph);
    PlannedIsExact(request, graph);
    assert Selected(request, nodes) == {};
    assert Closed(nodes, {}, {});
    ClosureIsLeast(nodes, {});
    var p := Planned(request, graph);
    assert p.delete == {};
    assert forall i | 0 <= i < |nodes| :: nodes[i].id !in p.rebuild;
    assert p.rebuild == {};
  }
}
