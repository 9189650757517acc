/** The dependency rules of provenance-aware deletion, and the least closure they define. */
module DeletionClosure {

  type Id = int

  datatype Kind =
    | ProfileField | UserTurnKind | AssistantTurnKind | ConversationKind | EpisodeMemory
    | RelationshipMemory | RelationshipProjection | Evidence | LearnerState | ReviewEvent | PlanningLedgerEntry
    | LearningProjection | CharacterPackage | PendingProjectionJob | PendingProviderAction | OtherKind

  datatype Option<+T> = None | Some(value: T)

  datatype Node = Node(
    id: Id, owned: bool, globalPublic: bool, kind: Kind, sources: set<Id>, rebuildable: bool, derived: bool,
    fieldKey: Option<Id>, conversation: Option<Id>, persona: Option<Id>, target: Option<Id>)

  datatype Scope =
    | AllUserData | ProfileFieldScope | MemoryItem | ConversationScope | RelationshipPair | LearningTarget
    | AllLearningHistory | PersonaPackage | UnknownScope

  datatype Request = Request(
    scope: Scope, fieldKey: Option<Id>, entity: Option<Id>, conversation: Option<Id>, persona: Option<Id>,
    target: Option<Id>)

  predicate Pending(n: Node) {
    n.kind.PendingProjectionJob? || n.kind.PendingProviderAction?
  }

  /** Which user-owned nodes the request names outright. */
  predicate Names(request: Request, n: Node) {
    match request.scope
    case AllUserData => !n.globalPublic
    case ProfileFieldScope => n.kind.ProfileField? && n.fieldKey == request.fieldKey
    case MemoryItem => Some(n.id) == request.entity
    case ConversationScope =>
      n.conversation == request.conversation
      && n.kind in {UserTurnKind, AssistantTurnKind, ConversationKind, EpisodeMemory}
    case RelationshipPair =>
      n.kind in {RelationshipMemory, RelationshipProjection} && n.persona == request.persona
    case LearningTarget =>
      n.target == request.target && n.kind in {Evidence, LearnerState, ReviewEvent, PlanningLedgerEntry}
    case AllLearningHistory =>
      n.kind in {Evidence, LearnerState, ReviewEvent, PlanningLedgerEntry, LearningProjection}
    case PersonaPackage => n.kind.CharacterPackage? && n.persona == request.persona
    case UnknownScope => false
  }

  predicate Hit(n: Node, deleted: set<Id>) {
    n.sources * deleted != {}
  }

  predicate AllSourcesGone(n: Node, deleted: set<Id>) {
    n.sources != {} && n.sources <= deleted
  }

  /** Pending work falls with any source; a rebuildable or derived node falls with its last one. */
  predicate Falls(n: Node, deleted: set<Id>) {
    n.owned && (if Pending(n) then Hit(n, deleted) else (n.rebuildable || n.derived) && AllSourcesGone(n, deleted))
  }

  ghost predicate Closed(nodes: seq<Node>, selected: set<Id>, closed: set<Id>) {
    selected <= closed && forall i | 0 <= i < |nodes| :: Falls(nodes[i], closed) ==> nodes[i].id in closed
  }

  function IdsOf(nodes: seq<Node>): set<Id> {
    set i | 0 <= i < |nodes| :: nodes[i].id
  }

  /** The ids that every closed set contains. */
  ghost function Closure(nodes: seq<Node>, selected: set<Id>): set<Id> {
    set x | x in IdsOf(nodes) + selected && forall c :: Closed(nodes, selected, c) ==> x in c
  }

  lemma FallsIsMonotone(n: Node, deleted: set<Id>, more: set<Id>)
    requires deleted <= more && Falls(n, deleted)
    ensures Falls(n, more)
  {
  }

  /** The closure is itself closed, so it is the least closed set. */
  lemma ClosureIsLeast(nodes: seq<Node>, selected: set<Id>)
    ensures Closed(nodes, selected, Closure(nodes, selected))
    ensures forall c :: Closed(nodes, selected, c) ==> Closure(nodes, selected) <= c
  {
    var least := Closure(nodes, selected);
    assert forall x :: x in selected ==> x in least;
    forall i | 0 <= i < |nodes| && Falls(nodes[i], least) ensures nodes[i].id in least {
      forall c | Closed(nodes, selected, c) ensures nodes[i].id in c {
        FallsIsMonotone(nodes[i], least, c);
      }
      assert nodes[i].id in IdsOf(nodes);
    }
  }

  // ---- one visit ---------------------------------------------------------------------

  datatype Plan = Plan(delete: set<Id>, rebuild: set<Id>, cancel: set<Id>, changed: bool)

  /** The body of the worklist's inner loop. Deleting a rebuildable node does not set `changed`. */
  function Visit(p: Plan, n: Node): Plan {
    if !n.owned || n.id in p.delete || !Hit(n, p.delete) then p
    else if Pending(n) then p.(cancel := p.cancel + {n.id}, delete := p.delete + {n.id}, changed := true)
    else if n.rebuildable then
      if AllSourcesGone(n, p.delete) then p.(delete := p.delete + {n.id})
      else if n.id !in p.rebuild then p.(rebuild := p.rebuild + {n.id}, changed := true)
      else p
    else if n.derived && AllSourcesGone(n, p.delete) then p.(delete := p.delete + {n.id}, changed := true)
    else p
  }

  function Pass(nodes: seq<Node>, p: Plan): Plan {
    if nodes == [] then p else Visit(Pass(nodes[..|nodes| - 1], p), nodes[|nodes| - 1])
  }

  /** A visit deletes exactly the node that falls. */
  lemma VisitDeletes(p: Plan, n: Node)
    ensures Visit(p, n).delete == if Falls(n, p.delete) then p.delete + {n.id} else p.delete
  {
  }

  ghost predicate Grows(p: Plan, p': Plan) {
    p.delete <= p'.delete && p.rebuild <= p'.rebuild && p.cancel <= p'.cancel && (p.changed ==> p'.changed)
  }

  lemma {:induction false} PassGrows(nodes: seq<Node>, p: Plan, i: nat, j: nat)
    requires i <= j <= |nodes|
    ensures Grows(Pass(nodes[..i], p), Pass(nodes[..j], p))
    decreases j
  {
    if i < j {
      PassGrows(nodes, p, i, j - 1);
      assert nodes[..j][..j - 1] == nodes[..j - 1];
    }
  }

  // ---- what every visit keeps ------------------------------------------------------------

  ghost predicate IdsAreKeys(nodes: seq<Node>) {
    forall i, j | 0 <= i < j < |nodes| :: nodes[i].id != nodes[j].id
  }

  /** Plan entries are node ids of the right sort. */
  ghost predicate Sound(nodes: seq<Node>, selected: set<Id>, p: Plan) {
    && selected <= p.delete <= Closure(nodes, selected)
    && p.cancel <= p.delete
    && (forall i | 0 <= i < |nodes| && nodes[i].id in p.delete :: nodes[i].owned)
    && (forall i | 0 <= i < |nodes| :: nodes[i].id in p.cancel <==>
          nodes[i].id in p.delete && nodes[i].id !in selected && Pending(nodes[i]))
    && (forall i | 0 <= i < |nodes| && nodes[i].id in p.rebuild ::
          nodes[i].owned && nodes[i].rebuildable && !Pending(nodes[i]) && Hit(nodes[i], p.delete))
    && p.delete <= IdsOf(nodes) && p.rebuild <= IdsOf(nodes) && p.cancel <= IdsOf(nodes)
  }

  lemma VisitStaysInClosure(nodes: seq<Node>, selected: set<Id>, p: Plan, i: nat)
    requires i < |nodes| && p.delete <= Closure(nodes, selected)
    ensures Visit(p, nodes[i]).delete <= Closure(nodes, selected)
  {
    ClosureIsLeast(nodes, selected);
    VisitDeletes(p, nodes[i]);
    if Falls(nodes[i], p.delete) { FallsIsMonotone(nodes[i], p.delete, Closure(nodes, selected)); }
  }

  lemma VisitKeepsRebuilds(nodes: seq<Node>, p: Plan, i: nat, j: nat)
    requires IdsAreKeys(nodes) && i < |nodes| && j < |nodes|
    requires nodes[j].id in p.rebuild ==>
               nodes[j].owned && nodes[j].rebuildable && !Pending(nodes[j]) && Hit(nodes[j], p.delete)
    requires nodes[j].id in Visit(p, nodes[i]).rebuild
    ensures nodes[j].owned && nodes[j].rebuildable && !Pending(nodes[j]) && Hit(nodes[j], Visit(p, nodes[i]).delete)
  {
    if nodes[j].id in p.rebuild {
      HitIsMonotone(nodes[j], p.delete, Visit(p, nodes[i]).delete);
    } else {
      assert nodes[j].id == nodes[i].id && i == j;
    }
  }

  lemma VisitKeeps(nodes: seq<Node>, selected: set<Id>, p: Plan, i: nat)
    requires IdsAreKeys(nodes) && i < |nodes| && Sound(nodes, selected, p)
    ensures Sound(nodes, selected, Visit(p, nodes[i]))
  {
    VisitStaysInClosure(nodes, selected, p, i);
    assert nodes[i].id in IdsOf(nodes);
    forall j | 0 <= j < |nodes| && nodes[j].id == nodes[i].id ensures j == i {}
    forall j | 0 <= j < |nodes| && nodes[j].id in Visit(p, nodes[i]).rebuild
      ensures nodes[j].owned && nodes[j].rebuildable && !Pending(nodes[j])
      ensures Hit(nodes[j], Visit(p, nodes[i]).delete)
    {
      VisitKeepsRebuilds(nodes, p, i, j);
    }
  }

  lemma HitIsMonotone(n: Node, deleted: set<Id>, more: set<Id>)
    requires deleted <= more && Hit(n, deleted)
    ensures Hit(n, more)
  {
    assert n.sources * deleted <= n.sources * more;
  }

  lemma {:induction false} PassKeeps(nodes: seq<Node>, selected: set<Id>, p: Plan, i: nat)
    requires IdsAreKeys(nodes) && i <= |nodes| && Sound(nodes, selected, p)
    ensures Sound(nodes, selected, Pass(nodes[..i], p))
  {
    if i > 0 {
      PassKeeps(nodes, selected, p, i - 1);
      assert nodes[..i][..i - 1] == nodes[..i - 1];
      VisitKeeps(nodes, selected, Pass(nodes[..i - 1], p), i - 1);
    }
  }

  // ---- the pass that changed nothing ------------------------------------------------------

  function OwnedIds(nodes: seq<Node>): set<Id> {
    set i | 0 <= i < |nodes| && nodes[i].owned :: nodes[i].id
  }

  /** A quiet pass may still delete: each id it added belongs to a rebuildable node whose sources were all gone. */
  lemma {:induction false} AddedByAPass(nodes: seq<Node>, p: Plan, i: nat, j: nat, x: Id) returns (k: nat)
    requires i <= j <= |nodes| && !Pass(nodes[..j], p).changed
    requires x in Pass(nodes[..j], p).delete && x !in Pass(nodes[..i], p).delete
    ensures i <= k < j && nodes[k].id == x
    ensures nodes[k].owned && nodes[k].rebuildable && !Pending(nodes[k])
    ensures x !in Pass(nodes[..k], p).delete && AllSourcesGone(nodes[k], Pass(nodes[..k], p).delete)
    decreases j
  {
    assert i < j;
    assert nodes[..j][..j - 1] == nodes[..j - 1];
    var before := Pass(nodes[..j - 1], p);
    assert Pass(nodes[..j], p) == Visit(before, nodes[j - 1]);
    if x in before.delete {
      k := AddedByAPass(nodes, p, i, j - 1, x);
    } else {
      k := j - 1;
    }
  }

  predicate CanFall(n: Node) {
    n.owned && (Pending(n) || n.rebuildable || n.derived)
  }

  /** It falls with its last source and is never flagged while some are left. */
  predicate DerivedOnly(n: Node) {
    n.derived && !n.rebuildable && !Pending(n)
  }

  // Node j may be missed because of i: it comes earlier, depends on i, and i is rebuildable and can
  // lose all its sources while j is still there. A derived node must also be able to lose its others.
  predicate Treacherous(nodes: seq<Node>, j: nat, i: nat)
    requires j < i < |nodes|
  {
    && CanFall(nodes[j]) && nodes[i].id in nodes[j].sources
    && nodes[i].owned && nodes[i].rebuildable && !Pending(nodes[i])
    && nodes[i].sources != {} && nodes[i].sources <= OwnedIds(nodes) - {nodes[i].id, nodes[j].id}
    && (DerivedOnly(nodes[j]) ==> nodes[j].sources <= OwnedIds(nodes) - {nodes[j].id})
  }

  /** No rebuildable node is listed after one it could take down. */
  ghost predicate RebuildablesFirst(nodes: seq<Node>) {
    forall j, i | 0 <= j < i < |nodes| :: !Treacherous(nodes, j, i)
  }

  lemma {:induction false} PassDeletesOwned(nodes: seq<Node>, p: Plan, i: nat)
    requires i <= |nodes| && p.delete <= OwnedIds(nodes)
    ensures Pass(nodes[..i], p).delete <= OwnedIds(nodes)
  {
    if i > 0 {
      PassDeletesOwned(nodes, p, i - 1);
      assert nodes[..i][..i - 1] == nodes[..i - 1];
      VisitDeletes(Pass(nodes[..i - 1], p), nodes[i - 1]);
    }
  }

  lemma LateSourceIsTreacherous(nodes: seq<Node>, p: Plan, j: nat, x: Id) returns (k: nat)
    requires j < |nodes| && CanFall(nodes[j]) && !Pass(nodes, p).changed
    requires p.delete <= OwnedIds(nodes) && nodes[j].id !in Pass(nodes, p).delete
    requires DerivedOnly(nodes[j]) ==> nodes[j].sources <= Pass(nodes, p).delete
    requires x in nodes[j].sources && x in Pass(nodes, p).delete && x !in Pass(nodes[..j], p).delete
    ensures j < k < |nodes| && Treacherous(nodes, j, k)
  {
    assert nodes[..|nodes|] == nodes;
    k := AddedByAPass(nodes, p, j, |nodes|, x);
    PassDeletesOwned(nodes, p, k);
    PassDeletesOwned(nodes, p, |nodes|);
    PassGrows(nodes, p, k, |nodes|);
  }

  /** Sources of a node that a quiet pass leaves alone were already in place when it was visited. */
  lemma VisitSawAllSources(nodes: seq<Node>, p: Plan, j: nat)
    requires RebuildablesFirst(nodes) && j < |nodes| && CanFall(nodes[j]) && !Pass(nodes, p).changed
    requires p.delete <= OwnedIds(nodes) && nodes[j].id !in Pass(nodes, p).delete
    requires DerivedOnly(nodes[j]) ==> nodes[j].sources <= Pass(nodes, p).delete
    ensures nodes[j].sources * Pass(nodes, p).delete == nodes[j].sources * Pass(nodes[..j], p).delete
  {
    assert nodes[..|nodes|] == nodes;
    PassGrows(nodes, p, j, |nodes|);
    forall x | x in nodes[j].sources && x in Pass(nodes, p).delete ensures x in Pass(nodes[..j], p).delete {
      if x !in Pass(nodes[..j], p).delete {
        var k := LateSourceIsTreacherous(nodes, p, j, x);
      }
    }
  }

  lemma VisitWithin(nodes: seq<Node>, p: Plan, j: nat)
    requires j < |nodes|
    ensures Grows(Visit(Pass(nodes[..j], p), nodes[j]), Pass(nodes, p))
  {
    assert nodes[..j + 1][..j] == nodes[..j] && nodes[..|nodes|] == nodes;
    PassGrows(nodes, p, j + 1, |nodes|);
  }

  lemma QuietPassIsClosed(nodes: seq<Node>, selected: set<Id>, p: Plan)
    requires RebuildablesFirst(nodes) && selected <= p.delete <= OwnedIds(nodes) && !Pass(nodes, p).changed
    ensures Closed(nodes, selected, Pass(nodes, p).delete)
  {
    var end := Pass(nodes, p);
    PassGrows(nodes, p, 0, |nodes|);
    assert nodes[..|nodes|] == nodes && nodes[..0] == [];
    forall j | 0 <= j < |nodes| && Falls(nodes[j], end.delete) ensures nodes[j].id in end.delete {
      if nodes[j].id !in end.delete {
        VisitSawAllSources(nodes, p, j);
        SameSourcesSameFall(nodes[j], Pass(nodes[..j], p).delete, end.delete);
        VisitDeletes(Pass(nodes[..j], p), nodes[j]);
        VisitWithin(nodes, p, j);
      }
    }
  }

  lemma SameSourcesSameFall(n: Node, deleted: set<Id>, more: set<Id>)
    requires n.sources * deleted == n.sources * more
    ensures Falls(n, deleted) == Falls(n, more) && Hit(n, deleted) == Hit(n, more)
  {
    assert n.sources <= deleted <==> n.sources * deleted == n.sources;
    assert n.sources <= more <==> n.sources * more == n.sources;
  }

  /** After a quiet pass every surviving rebuildable node with a deleted source is due for rebuilding. */
  lemma QuietPassFlagsSurvivors(nodes: seq<Node>, p: Plan, j: nat)
    requires RebuildablesFirst(nodes) && p.delete <= OwnedIds(nodes) && !Pass(nodes, p).changed && j < |nodes|
    requires nodes[j].owned && nodes[j].rebuildable && !Pending(nodes[j])
    requires nodes[j].id !in Pass(nodes, p).delete && Hit(nodes[j], Pass(nodes, p).delete)
    ensures nodes[j].id in Pass(nodes, p).rebuild
  {
    var mid, end := Pass(nodes[..j], p), Pass(nodes, p);
    VisitSawAllSources(nodes, p, j);
    SameSourcesSameFall(nodes[j], mid.delete, end.delete);
    VisitWithin(nodes, p, j);
    VisitDeletes(mid, nodes[j]);
  }
}
