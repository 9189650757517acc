/** The recovery plan: what an earlier process left, listed once each in the order of kind and id. */
module RuntimeRecovery {
  import opened RuntimeTables
  import opened RuntimeTheorems
  import opened Ordering
  import opened Permutations

  datatype Resume = ResumeAnalysis | ResumeDecision | ResumeAction | ReconcileDelivery | RevalidateTurn

  datatype Kind = LockItem | ProjectionItem | TeachingItem | TurnItem(action: Resume)

  datatype Item = Item(kind: Kind, id: Id)

  /** The alphabetical order of LOCK, PROJECTION, TEACHING and TURN. */
  function Rank(kind: Kind): nat {
    match kind
    case LockItem => 0
    case ProjectionItem => 1
    case TeachingItem => 2
    case TurnItem(_) => 3
  }

  predicate TurnTerminal(t: Turn) {
    t.state.TurnCompleted? || t.state.TurnFailed? || t.state.TurnCancelled?
  }

  function ResumeAt(checkpoint: Checkpoint): Resume {
    match checkpoint
    case Cp0 => ResumeAnalysis
    case Cp1 => ResumeDecision
    case Cp2 => ResumeAction
    case Cp3Uncertain => ReconcileDelivery
    case _ => RevalidateTurn
  }

  /** Left live by an older process. */
  predicate LeftLive(s: State, t: Id) {
    t in s.turns && !TurnTerminal(s.turns[t]) && s.turns[t].ownerEpoch < s.epoch
  }

  function TurnEntry(s: State, t: Id): Item
    requires t in s.turns
  {
    Item(TurnItem(ResumeAt(s.turns[t].checkpoint)), t)
  }

  predicate Waiting(s: State, p: Id) {
    p in s.queues.projections && s.queues.projections[p].pending
  }

  /** The join of a lock with its moment. */
  predicate Joined(s: State, c: Id) {
    c in s.locks && s.locks[c] in s.moments
  }

  function LockEntry(s: State, c: Id): Item
    requires Joined(s, c)
  {
    Item(if s.moments[s.locks[c]].terminal then LockItem else TeachingItem, s.locks[c])
  }

  /** The entries due to some of the turns, jobs and locks. */
  function TurnItems(s: State, ids: set<Id>): set<Item> {
    set t | t in ids && LeftLive(s, t) :: TurnEntry(s, t)
  }

  function ProjectionItems(s: State, ids: set<Id>): set<Item> {
    set p | p in ids && Waiting(s, p) :: Item(ProjectionItem, p)
  }

  function LockItems(s: State, ids: set<Id>): set<Item> {
    set c | c in ids && Joined(s, c) :: LockEntry(s, c)
  }

  function Due(s: State): set<Item> {
    TurnItems(s, s.turns.Keys) + ProjectionItems(s, s.queues.projections.Keys) + LockItems(s, s.locks.Keys)
  }

  // ---- sorting ---------------------------------------------------------------------------

  predicate NotAfter(a: Item, b: Item) {
    Rank(a.kind) < Rank(b.kind) || (Rank(a.kind) == Rank(b.kind) && a.id <= b.id)
  }

  predicate Sorted(l: seq<Item>) {
    forall i, j | 0 <= i < j < |l| :: NotAfter(l[i], l[j])
  }

  function Inserted(l: seq<Item>, x: Item): (r: seq<Item>)
    requires Sorted(l)
    ensures Sorted(r) && multiset(r) == multiset(l) + multiset{x}
  {
    if l == [] || NotAfter(l[|l| - 1], x) then
      assert multiset(l + [x]) == multiset(l) + multiset{x};
      l + [x]
    else
      var front, last := l[..|l| - 1], l[|l| - 1];
      assert l == front + [last];
      var r := Inserted(front, x);
      PutBefore(front, last, x, r);
      r + [last]
  }

  lemma PutBefore(front: seq<Item>, last: Item, x: Item, r: seq<Item>)
    requires Sorted(front + [last]) && !NotAfter(last, x) && Sorted(r) && multiset(r) == multiset(front) + multiset{x}
    ensures Sorted(r + [last]) && multiset(r + [last]) == multiset(front + [last]) + multiset{x}
  {
    AllBefore(front, last, x, r);
  }

  lemma AllBefore(front: seq<Item>, last: Item, x: Item, r: seq<Item>)
    requires Sorted(front + [last]) && !NotAfter(last, x) && multiset(r) == multiset(front) + multiset{x}
    ensures forall i | 0 <= i < |r| :: NotAfter(r[i], last)
  {
    forall i | 0 <= i < |r| ensures NotAfter(r[i], last) {
      assert r[i] in multiset(r);
      if r[i] != x {
        var k :| 0 <= k < |front| && front[k] == r[i];
        assert NotAfter((front + [last])[k], (front + [last])[|front|]);
      }
    }
  }

  /** sorted(plan, key = (kind, id)) */
  function InOrder(l: seq<Item>): (r: seq<Item>)
    ensures Sorted(r) && multiset(r) == multiset(l)
  {
    if l == [] then [] else
      assert l == l[..|l| - 1] + [l[|l| - 1]];
      Inserted(InOrder(l[..|l| - 1]), l[|l| - 1])
  }

  lemma AppendListing<T(!new)>(l: seq<T>, s: set<T>, x: T)
    requires Lists(l, s) && x !in s
    ensures Lists(l + [x], s + {x})
  {
    forall y ensures y in s + {x} <==> y in l + [x] { assert y in s <==> y in l; }
    forall i, j | 0 <= i < j < |l| + 1 ensures (l + [x])[i] != (l + [x])[j] { assert l[i] in s; }
  }

  lemma ConcatListings<T(!new)>(a: seq<T>, s: set<T>, b: seq<T>, t: set<T>)
    requires Lists(a, s) && Lists(b, t) && s !! t
    ensures Lists(a + b, s + t)
  {
    forall y ensures y in s + t <==> y in a + b { assert y in s <==> y in a; }
    forall i, j | 0 <= i < j < |a + b| ensures (a + b)[i] != (a + b)[j] {
      assert i < |a| ==> a[i] in s;
      assert j >= |a| ==> b[j - |a|] in t;
    }
  }

  // ---- what the plan lists -----------------------------------------------------------------

  ghost predicate Entry(plan: seq<Item>, i: nat, rank: nat, id: Id) {
    i < |plan| && Rank(plan[i].kind) == rank && plan[i].id == id
  }

  ghost predicate OneEntry(plan: seq<Item>, rank: nat, id: Id) {
    exists i :: Entry(plan, i, rank, id) && forall j | Entry(plan, j, rank, id) :: j == i
  }

  ghost predicate NoEntry(plan: seq<Item>, rank: nat, id: Id) {
    forall i :: !Entry(plan, i, rank, id)
  }

  ghost predicate Listed(plan: seq<Item>, rank: nat, id: Id, due: bool) {
    if due then OneEntry(plan, rank, id) else NoEntry(plan, rank, id)
  }

  /** Each id appears once or never, as its entry among the due ones says. */
  lemma EntryOf(s: set<Item>, plan: seq<Item>, x: Item)
    requires Lists(plan, s) && x in s && forall y | y in s && Rank(y.kind) == Rank(x.kind) && y.id == x.id :: y == x
    ensures OneEntry(plan, Rank(x.kind), x.id)
  {
    var i :| 0 <= i < |plan| && plan[i] == x;
    forall j: nat | Entry(plan, j, Rank(x.kind), x.id) ensures j == i {
      assert plan[j] in plan && plan[j] == x;
    }
    assert Entry(plan, i, Rank(x.kind), x.id);
  }

  lemma NoEntryOf(s: set<Item>, plan: seq<Item>, rank: nat, id: Id)
    requires Lists(plan, s) && forall y | y in s :: !(Rank(y.kind) == rank && y.id == id)
    ensures NoEntry(plan, rank, id)
  {
    forall i: nat | i < |plan| ensures !Entry(plan, i, rank, id) { assert plan[i] in plan; }
  }

  lemma TurnsListedOnce(s: State, plan: seq<Item>, t: Id)
    requires Lists(plan, Due(s))
    ensures Listed(plan, 3, t, LeftLive(s, t))
    ensures LeftLive(s, t) ==> TurnEntry(s, t) in plan
  {
    if LeftLive(s, t) {
      assert TurnEntry(s, t) in TurnItems(s, s.turns.Keys);
      EntryOf(Due(s), plan, TurnEntry(s, t));
    } else {
      NoEntryOf(Due(s), plan, 3, t);
    }
  }

  lemma MomentsListedOnce(s: State, plan: seq<Item>, m: Id)
    requires LocksMatch(s) && Lists(plan, Due(s))
    ensures Listed(plan, 2, m, m in s.moments && !s.moments[m].terminal) && NoEntry(plan, 0, m)
  {
    forall c | Joined(s, c) ensures !s.moments[s.locks[c]].terminal {}
    NoEntryOf(Due(s), plan, 0, m);
    if m in s.moments && !s.moments[m].terminal {
      var c := s.moments[m].conversation;
      assert LockEntry(s, c) in LockItems(s, s.locks.Keys) && LockEntry(s, c) == Item(TeachingItem, m);
      EntryOf(Due(s), plan, Item(TeachingItem, m));
    } else {
      NoEntryOf(Due(s), plan, 2, m);
    }
  }

  lemma JobsListedOnce(s: State, plan: seq<Item>, p: Id)
    requires Lists(plan, Due(s))
    ensures Listed(plan, 1, p, Waiting(s, p))
  {
    if Waiting(s, p) {
      assert Item(ProjectionItem, p) in ProjectionItems(s, s.queues.projections.Keys);
      EntryOf(Due(s), plan, Item(ProjectionItem, p));
    } else {
      NoEntryOf(Due(s), plan, 1, p);
    }
  }

  // After any run the plan lists each turn an older process left live exactly once, with the
  // resumption its checkpoint calls for; each live moment exactly once; each waiting job exactly
  // once; never an orphan lock; and nothing else.
  lemma PlanListsEachOnce(calls: seq<Call>, plan: seq<Item>, id: Id)
    requires Lists(plan, Due(Run(FRESH, calls)))
    ensures var s := Run(FRESH, calls);
            && Listed(plan, 3, id, LeftLive(s, id)) && (LeftLive(s, id) ==> TurnEntry(s, id) in plan)
            && Listed(plan, 2, id, id in s.moments && !s.moments[id].terminal)
            && Listed(plan, 1, id, Waiting(s, id))
            && NoEntry(plan, 0, id)
  {
    var s := Run(FRESH, calls);
    ReachableLocks(calls);
    TurnsListedOnce(s, plan, id);
    MomentsListedOnce(s, plan, id);
    JobsListedOnce(s, plan, id);
  }
}
