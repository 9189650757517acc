/** Merging generator proposals by canonical key: a join, whatever the order they arrive in. */
module PlannerProposals {
  import opened PlannerCandidates
  import opened Permutations
  import Ordering

  datatype Option<+T> = None | Some(value: T)

  /** target_mode, learning_intent, modality, focus_target, opportunity_binding_class */
  datatype Identity = Identity(mode: Word, intent: Word, modality: Word, focus: Word, binding: Word)

  /** `rest` stands for the fields merging never looks at. */
  datatype Proposal = Proposal(
    key: Word, identity: Identity, origins: set<Word>, initiative: Option<Initiative>,
    userInitiated: Option<bool>, requestAligned: Option<bool>, priority: Option<int>, rest: Word)

  function Get<T>(field: Option<T>, default: T): T {
    if field.Some? then field.value else default
  }

  /** Rank of a known initiative word; the source's table has no entry for any other. */
  function Rank(i: Initiative): int {
    match i case Proactive => 1 case Opportunistic => 2 case Reactive => 3 case UnknownInitiative => 0
  }

  predicate Known(p: Proposal) {
    !Get(p.initiative, Proactive).UnknownInitiative?
  }

  /** What merging is about, defaults filled in. */
  datatype View = View(
    identity: Identity, origins: set<Word>, initiative: Initiative, userInitiated: bool, requestAligned: bool,
    priority: int)

  function ViewOf(p: Proposal): View {
    View(p.identity, p.origins, Get(p.initiative, Proactive), Get(p.userInitiated, false),
         Get(p.requestAligned, false), Get(p.priority, 0))
  }

  predicate Below(a: View, b: View) {
    && a.identity == b.identity && a.origins <= b.origins && Rank(a.initiative) <= Rank(b.initiative)
    && (a.userInitiated ==> b.userInitiated) && (a.requestAligned ==> b.requestAligned)
    && b.priority <= a.priority
  }

  /** The least view above every proposal of the list that has this key. */
  ghost predicate IsJoin(v: View, ps: seq<Proposal>, key: Word) {
    && (forall i | 0 <= i < |ps| && ps[i].key == key :: Below(ViewOf(ps[i]), v))
    && (forall w | (forall i | 0 <= i < |ps| && ps[i].key == key :: Below(ViewOf(ps[i]), w)) :: Below(v, w))
  }

  predicate Compatible(p: Proposal, q: Proposal) {
    p.identity == q.identity && Known(p) && Known(q)
  }

  /** The lists the merge accepts. */
  ghost predicate Mergeable(ps: seq<Proposal>) {
    && (forall i | 0 <= i < |ps| :: ps[i].key != 0)
    && (forall i, j | 0 <= i < j < |ps| && ps[i].key == ps[j].key :: Compatible(ps[i], ps[j]))
  }

  ghost predicate Lone(ps: seq<Proposal>, i: nat)
    requires i < |ps|
  {
    forall j | 0 <= j < |ps| && j != i :: ps[j].key != ps[i].key
  }

  predicate HasKey(ps: seq<Proposal>, key: Word) {
    exists i :: 0 <= i < |ps| && ps[i].key == key
  }

  function KeysOf(ps: seq<Proposal>): seq<Word> {
    seq(|ps|, i requires 0 <= i < |ps| => ps[i].key)
  }

  predicate Rising(keys: seq<Word>) {
    forall i, j | 0 <= i < j < |keys| :: keys[i] < keys[j]
  }

  /** What is stored under one key: the join of its proposals, and a lone proposal unchanged. */
  ghost predicate Stored(ps: seq<Proposal>, key: Word, q: Proposal) {
    && q.key == key && IsJoin(ViewOf(q), ps, key)
    && (forall i | 0 <= i < |ps| && ps[i].key == key && Lone(ps, i) :: q == ps[i])
    && HasKey(ps, key)
  }

  ghost predicate Canonicalizes(ps: seq<Proposal>, result: Option<seq<Proposal>>) {
    if !Mergeable(ps) then result == None
    else
      && result.Some?
      && Rising(KeysOf(result.value))
      && (forall i | 0 <= i < |result.value| :: Stored(ps, result.value[i].key, result.value[i]))
      && (forall k :: HasKey(ps, k) <==> HasKey(result.value, k))
  }

  function Merge(q: Proposal, p: Proposal): Proposal {
    q.(origins := q.origins + p.origins,
       userInitiated := Some(Get(q.userInitiated, false) || Get(p.userInitiated, false)),
       requestAligned := Some(Get(q.requestAligned, false) || Get(p.requestAligned, false)),
       priority := Some(if Get(p.priority, 0) < Get(q.priority, 0) then Get(p.priority, 0) else Get(q.priority, 0)),
       initiative := if Rank(Get(p.initiative, Proactive)) > Rank(Get(q.initiative, Proactive)) then p.initiative
                     else q.initiative)
  }

  // ---- one more proposal --------------------------------------------------------------

  lemma MergeJoins(ps: seq<Proposal>, q: Proposal, p: Proposal)
    requires IsJoin(ViewOf(q), ps, p.key) && p.identity == q.identity
    ensures IsJoin(ViewOf(Merge(q, p)), ps + [p], p.key)
  {
    var ps', v := ps + [p], ViewOf(Merge(q, p));
    assert Below(ViewOf(q), v) && Below(ViewOf(p), v);
    forall i | 0 <= i < |ps'| && ps'[i].key == p.key ensures Below(ViewOf(ps'[i]), v) {
      if i < |ps| { assert Below(ViewOf(ps[i]), ViewOf(q)); }
    }
    forall w | (forall i | 0 <= i < |ps'| && ps'[i].key == p.key :: Below(ViewOf(ps'[i]), w)) ensures Below(v, w) {
      assert Below(ViewOf(ps'[|ps|]), w);
      forall i | 0 <= i < |ps| && ps[i].key == p.key ensures Below(ViewOf(ps[i]), w) { assert ps'[i] == ps[i]; }
      assert Below(ViewOf(q), w);
    }
  }

  lemma OtherKeysKeepJoin(ps: seq<Proposal>, p: Proposal, v: View, key: Word)
    requires key != p.key && IsJoin(v, ps, key)
    ensures IsJoin(v, ps + [p], key)
  {
    var ps' := ps + [p];
    forall w | (forall i | 0 <= i < |ps'| && ps'[i].key == key :: Below(ViewOf(ps'[i]), w)) ensures Below(v, w) {
      forall i | 0 <= i < |ps| && ps[i].key == key ensures Below(ViewOf(ps[i]), w) { assert ps'[i] == ps[i]; }
    }
  }

  lemma FirstIsJoin(ps: seq<Proposal>, p: Proposal)
    requires forall i | 0 <= i < |ps| :: ps[i].key != p.key
    ensures IsJoin(ViewOf(p), ps + [p], p.key)
  {
    var ps' := ps + [p];
    forall w | (forall i | 0 <= i < |ps'| && ps'[i].key == p.key :: Below(ViewOf(ps'[i]), w)) ensures Below(ViewOf(p), w) {
      assert ps'[|ps|] == p;
    }
  }

  ghost predicate Table(ps: seq<Proposal>, table: map<Word, Proposal>) {
    && Mergeable(ps)
    && (forall k | k in table :: Stored(ps, k, table[k]))
    && (forall i | 0 <= i < |ps| :: ps[i].key in table)
  }

  lemma StoredKnowsItsGroup(ps: seq<Proposal>, q: Proposal, i: nat)
    requires Mergeable(ps) && i < |ps| && Stored(ps, ps[i].key, q)
    ensures q.identity == ps[i].identity
    ensures Known(q) <==> Known(ps[i])
  {
    assert Below(ViewOf(ps[i]), ViewOf(q));
    if !Lone(ps, i) {
      var j :| 0 <= j < |ps| && j != i && ps[j].key == ps[i].key;
      if i < j { assert Compatible(ps[i], ps[j]); } else { assert Compatible(ps[j], ps[i]); }
    }
  }

  /** The stored row answers for its whole group: it is compatible with a newcomer exactly when all of it is. */
  lemma StoredSpeaksForGroup(ps: seq<Proposal>, q: Proposal, p: Proposal)
    requires Mergeable(ps) && p.key != 0 && Stored(ps, p.key, q)
    ensures Mergeable(ps + [p]) <==> Compatible(q, p)
  {
    var ps' := ps + [p];
    forall i | 0 <= i < |ps| && ps[i].key == p.key ensures Compatible(ps[i], p) <==> Compatible(q, p) {
      StoredKnowsItsGroup(ps, q, i);
    }
    var i :| 0 <= i < |ps| && ps[i].key == p.key;
    assert ps'[i] == ps[i] && ps'[|ps|] == p;
  }

  lemma StoreMerged(ps: seq<Proposal>, q: Proposal, p: Proposal)
    requires Stored(ps, p.key, q) && q.identity == p.identity
    ensures Stored(ps + [p], p.key, Merge(q, p))
  {
    MergeJoins(ps, q, p);
    var ps' := ps + [p];
    var i :| 0 <= i < |ps| && ps[i].key == p.key;
    assert ps'[i].key == p.key && ps'[|ps|].key == p.key;
    forall k | 0 <= k < |ps'| && ps'[k].key == p.key ensures !Lone(ps', k) {
      assert ps'[if k == i then |ps| else i].key == ps'[k].key;
    }
  }

  lemma StoreFirst(ps: seq<Proposal>, p: Proposal)
    requires forall i | 0 <= i < |ps| :: ps[i].key != p.key
    ensures Stored(ps + [p], p.key, p)
  {
    FirstIsJoin(ps, p);
    assert (ps + [p])[|ps|].key == p.key;
  }

  lemma StoreKept(ps: seq<Proposal>, p: Proposal, key: Word, q: Proposal)
    requires Stored(ps, key, q) && key != p.key
    ensures Stored(ps + [p], key, q)
  {
    var ps' := ps + [p];
    OtherKeysKeepJoin(ps, p, ViewOf(q), key);
    var i :| 0 <= i < |ps| && ps[i].key == key;
    assert ps'[i].key == key;
    forall k | 0 <= k < |ps'| && ps'[k].key == key && Lone(ps', k) ensures q == ps'[k] {
      forall j | 0 <= j < |ps| && j != k ensures ps[j].key != ps[k].key { assert ps'[j] == ps[j]; }
      assert Lone(ps, k);
    }
  }

  method AddProposal(ghost ps: seq<Proposal>, table: map<Word, Proposal>, p: Proposal)
    returns (ok: bool, table': map<Word, Proposal>)
    requires Table(ps, table)
    ensures ok <==> Mergeable(ps + [p])
    ensures ok ==> Table(ps + [p], table')
  {
    table' := table;
    ghost var ps' := ps + [p];
    if p.key == 0 {
      assert ps'[|ps|].key == 0;
      return false, table;
    }
    if p.key !in table {
      StoreFirst(ps, p);
      table' := table[p.key := p];
      ok := true;
    } else {
      var q := table[p.key];
      StoredSpeaksForGroup(ps, q, p);
      if p.identity != q.identity { return false, table; }
      if !Known(p) || !Known(q) { return false, table; }
      StoreMerged(ps, q, p);
      table' := table[p.key := Merge(q, p)];
      ok := true;
    }
    forall k | k in table' ensures Stored(ps', k, table'[k]) {
      if k != p.key { StoreKept(ps, p, k, table[k]); }
    }
  }

  lemma MergeablePrefix(ps: seq<Proposal>, n: nat)
    requires n <= |ps| && Mergeable(ps)
    ensures Mergeable(ps[..n])
  {
  }

  /** The outcome of merging a list, or a prefix of one. */
  ghost predicate Grouped(ps: seq<Proposal>, ok: bool, table: map<Word, Proposal>) {
    if ok then Table(ps, table) else !Mergeable(ps)
  }

  method Step(ps: seq<Proposal>, i: nat, table: map<Word, Proposal>) returns (ok: bool, table': map<Word, Proposal>)
    requires i < |ps| && Table(ps[..i], table)
    ensures Grouped(ps[..i + 1], ok, table')
  {
    ghost var front := ps[..i];
    assert ps[..i + 1] == front + [ps[i]];
    ok, table' := AddProposal(front, table, ps[i]);
  }

  lemma GroupedPrefix(ps: seq<Proposal>, i: nat, ok: bool, table: map<Word, Proposal>)
    requires i <= |ps| && Grouped(ps[..i], ok, table) && (ok ==> i == |ps|)
    ensures Grouped(ps, ok, table)
  {
    if ok {
      assert ps[..|ps|] == ps;
    } else if Mergeable(ps) {
      MergeablePrefix(ps, i);
    }
  }

  method GroupByKey(ps: seq<Proposal>) returns (ok: bool, table: map<Word, Proposal>)
    ensures Grouped(ps, ok, table)
  {
    ok, table := true, map[];
    var i := 0;
    while ok && i < |ps|
      invariant i <= |ps| && Grouped(ps[..i], ok, table)
      decreases |ps| - i
    {
      ok, table := Step(ps, i, table);
      i := i + 1;
    }
    GroupedPrefix(ps, i, ok, table);
  }

  method CanonicalizeProposals(ps: seq<Proposal>) returns (result: Option<seq<Proposal>>)
    ensures Canonicalizes(ps, result)
  {
    var ok, table := GroupByKey(ps);
    if !ok { return None; }
    var keys := SortedKeys(table.Keys);
    var rows := seq(|keys|, i requires 0 <= i < |keys| && keys[i] in table => table[keys[i]]);
    RowsHaveKeys(ps, table, keys, rows);
    return Some(rows);
  }

  lemma RowsHaveKeys(ps: seq<Proposal>, table: map<Word, Proposal>, keys: seq<Word>, rows: seq<Proposal>)
    requires Table(ps, table) && Rising(keys) && (forall k :: k in keys <==> k in table)
    requires |rows| == |keys| && forall i | 0 <= i < |keys| :: rows[i] == table[keys[i]]
    ensures Canonicalizes(ps, Some(rows))
  {
    assert forall i | 0 <= i < |rows| :: Stored(ps, keys[i], rows[i]);
    forall k ensures HasKey(ps, k) <==> HasKey(rows, k) {
      if HasKey(ps, k) {
        assert k in keys;
        var i :| 0 <= i < |keys| && keys[i] == k;
        assert rows[i].key == k;
      }
      if HasKey(rows, k) {
        var i :| 0 <= i < |rows| && rows[i].key == k;
        assert Stored(ps, keys[i], rows[i]);
      }
    }
  }

  method SortedKeys(s: set<Word>) returns (keys: seq<Word>)
    ensures Rising(keys) && forall k :: k in keys <==> k in s
  {
    keys := [];
    var left := s;
    while left != {}
      invariant left <= s && Rising(keys)
      invariant forall k :: k in keys <==> k in s - left
      invariant forall i, y | 0 <= i < |keys| && y in left :: keys[i] < y
      decreases |left|
    {
      var k := Least(left);
      keys := keys + [k];
      left := left - {k};
    }
  }

  method Least(s: set<Word>) returns (k: Word)
    requires s != {}
    ensures k in s && forall x | x in s :: k <= x
  {
    var left := s;
    k :| k in left;
    left := left - {k};
    while left != {}
      invariant left <= s && k in s
      invariant forall x | x in s :: k <= x || x in left
      decreases |left|
    {
      var x :| x in left;
      left := left - {x};
      if x < k { k := x; }
    }
  }

  // ---- theorems --------------------------------------------------------------------------

  lemma MergeablePermutes(ps: seq<Proposal>, ps': seq<Proposal>)
    requires multiset(ps) == multiset(ps') && Mergeable(ps)
    ensures Mergeable(ps')
  {
    forall i | 0 <= i < |ps'| ensures ps'[i].key != 0 { SameMembers(ps, ps', ps'[i]); }
    forall i, j | 0 <= i < j < |ps'| && ps'[i].key == ps'[j].key ensures Compatible(ps'[i], ps'[j]) {
      if ps'[i] == ps'[j] {
        TwiceInMultiset(ps', i, j);
        var a, b := MultisetHasTwo(ps, ps'[i]);
      } else {
        SameMembers(ps, ps', ps'[i]);
        SameMembers(ps, ps', ps'[j]);
        var a :| 0 <= a < |ps| && ps[a] == ps'[i];
        var b :| 0 <= b < |ps| && ps[b] == ps'[j];
        assert Compatible(ps[if a < b then a else b], ps[if a < b then b else a]);
      }
    }
  }

  lemma JoinPermutes(ps: seq<Proposal>, ps': seq<Proposal>, key: Word, v: View, v': View)
    requires multiset(ps) == multiset(ps') && IsJoin(v, ps, key) && IsJoin(v', ps', key)
    ensures v == v'
  {
    JoinBelow(ps, ps', key, v, v');
    JoinBelow(ps', ps, key, v', v);
  }

  lemma JoinBelow(ps: seq<Proposal>, ps': seq<Proposal>, key: Word, v: View, v': View)
    requires multiset(ps) == multiset(ps') && IsJoin(v, ps, key) && IsJoin(v', ps', key)
    ensures Below(v, v')
  {
    forall i | 0 <= i < |ps| && ps[i].key == key ensures Below(ViewOf(ps[i]), v') {
      SameMembers(ps, ps', ps[i]);
      var j :| 0 <= j < |ps'| && ps'[j] == ps[i];
    }
  }

  lemma SameKeysSameOrder(r: seq<Proposal>, r': seq<Proposal>)
    requires Rising(KeysOf(r)) && Rising(KeysOf(r')) && forall k :: HasKey(r, k) <==> HasKey(r', k)
    ensures |r| == |r'| && forall i | 0 <= i < |r| :: r[i].key == r'[i].key
  {
    var keys := set k | k in KeysOf(r);
    forall k ensures k in KeysOf(r) <==> HasKey(r, k) { KeyMembers(r, k); }
    forall k ensures k in KeysOf(r') <==> HasKey(r', k) { KeyMembers(r', k); }
    Ordering.ListingUnique(KeysOf(r), KeysOf(r'), keys, (x: Word, y: Word) => x < y);
    assert |KeysOf(r)| == |r| && |KeysOf(r')| == |r'|;
    forall i | 0 <= i < |r| ensures r[i].key == r'[i].key {
      assert KeysOf(r)[i] == KeysOf(r')[i];
    }
  }

  lemma KeyMembers(r: seq<Proposal>, k: Word)
    ensures k in KeysOf(r) <==> HasKey(r, k)
  {
    if HasKey(r, k) {
      var i :| 0 <= i < |r| && r[i].key == k;
      assert KeysOf(r)[i] == k;
    }
  }

  /** One order raises exactly when every order does; and the merged rows agree field by field. */
  lemma MergeIgnoresOrder(ps: seq<Proposal>, ps': seq<Proposal>, r: Option<seq<Proposal>>, r': Option<seq<Proposal>>)
    requires multiset(ps) == multiset(ps') && Canonicalizes(ps, r) && Canonicalizes(ps', r')
    ensures r.None? <==> r'.None?
    ensures r.Some? ==>
              && |r.value| == |r'.value|
              && forall i | 0 <= i < |r.value| ::
                   r.value[i].key == r'.value[i].key && ViewOf(r.value[i]) == ViewOf(r'.value[i])
  {
    if Mergeable(ps) {
      MergeablePermutes(ps, ps');
      forall k ensures HasKey(r.value, k) <==> HasKey(r'.value, k) {
        if HasKey(ps, k) { KeysPermute(ps, ps', k); }
        if HasKey(ps', k) { KeysPermute(ps', ps, k); }
      }
      SameKeysSameOrder(r.value, r'.value);
      forall i | 0 <= i < |r.value| ensures ViewOf(r.value[i]) == ViewOf(r'.value[i]) {
        JoinPermutes(ps, ps', r.value[i].key, ViewOf(r.value[i]), ViewOf(r'.value[i]));
      }
    } else if Mergeable(ps') {
      MergeablePermutes(ps', ps);
    }
  }

  lemma KeysPermute(ps: seq<Proposal>, ps': seq<Proposal>, k: Word)
    requires multiset(ps) == multiset(ps') && HasKey(ps, k)
    ensures HasKey(ps', k)
  {
    var i :| 0 <= i < |ps| && ps[i].key == k;
    SameMembers(ps, ps', ps[i]);
    var j :| 0 <= j < |ps'| && ps'[j] == ps[i];
    assert ps'[j].key == k;
  }

  /** A result has one proposal per key, so nothing is left to merge. */
  lemma ResultIsMergeable(ps: seq<Proposal>, r: seq<Proposal>)
    requires Canonicalizes(ps, Some(r))
    ensures Mergeable(r) && forall i | 0 <= i < |r| :: Lone(r, i)
  {
    forall i | 0 <= i < |r| ensures r[i].key != 0 {
      assert Stored(ps, r[i].key, r[i]);
      var j :| 0 <= j < |ps| && ps[j].key == r[i].key;
    }
    forall i, j | 0 <= i < j < |r| ensures r[i].key != r[j].key {
      assert KeysOf(r)[i] < KeysOf(r)[j];
    }
  }

  lemma LoneIsUntouched(r: seq<Proposal>, i: nat, q: Proposal)
    requires i < |r| && Lone(r, i) && Stored(r, r[i].key, q)
    ensures q == r[i]
  {
  }

  /** Merging what was already merged changes nothing at all. */
  lemma MergeIsIdempotent(ps: seq<Proposal>, r: seq<Proposal>, again: Option<seq<Proposal>>)
    requires Canonicalizes(ps, Some(r)) && Canonicalizes(r, again)
    ensures again == Some(r)
  {
    ResultIsMergeable(ps, r);
    SameKeysSameOrder(r, again.value);
    forall i | 0 <= i < |r| ensures again.value[i] == r[i] {
      LoneIsUntouched(r, i, again.value[i]);
    }
    assert again.value == r;
  }

  // ---- the merged row in words --------------------------------------------------------------

  ghost predicate Among(ps: seq<Proposal>, key: Word, p: Proposal) {
    p in ps && p.key == key
  }

  ghost predicate Above(ps: seq<Proposal>, key: Word, w: View) {
    forall i | 0 <= i < |ps| && ps[i].key == key :: Below(ViewOf(ps[i]), w)
  }

  lemma LeastView(ps: seq<Proposal>, key: Word, v: View, w: View)
    requires IsJoin(v, ps, key) && Above(ps, key, w)
    ensures Below(v, w)
  {
  }

  lemma AboveAll(ps: seq<Proposal>, key: Word, v: View, p: Proposal)
    requires IsJoin(v, ps, key) && Among(ps, key, p)
    ensures Below(ViewOf(p), v)
  {
    var i :| 0 <= i < |ps| && ps[i] == p;
  }

  /** A flag is set exactly when some proposal of the key sets it. */
  lemma MergedFlags(ps: seq<Proposal>, key: Word, v: View)
    requires IsJoin(v, ps, key)
    ensures v.userInitiated <==> exists p :: Among(ps, key, p) && p.userInitiated == Some(true)
    ensures v.requestAligned <==> exists p :: Among(ps, key, p) && p.requestAligned == Some(true)
  {
    if p :| Among(ps, key, p) && p.userInitiated == Some(true) { AboveAll(ps, key, v, p); }
    if p :| Among(ps, key, p) && p.requestAligned == Some(true) { AboveAll(ps, key, v, p); }
    if forall p | Among(ps, key, p) :: p.userInitiated != Some(true) {
      LowerFlags(ps, key, v, v.(userInitiated := false));
    }
    if forall p | Among(ps, key, p) :: p.requestAligned != Some(true) {
      LowerFlags(ps, key, v, v.(requestAligned := false));
    }
  }

  lemma LowerFlags(ps: seq<Proposal>, key: Word, v: View, w: View)
    requires IsJoin(v, ps, key)
    requires w == v.(userInitiated := w.userInitiated, requestAligned := w.requestAligned)
    requires forall p | Among(ps, key, p) :: (p.userInitiated == Some(true) ==> w.userInitiated) && (p.requestAligned == Some(true) ==> w.requestAligned)
    ensures Below(v, w)
  {
    forall i | 0 <= i < |ps| && ps[i].key == key ensures Below(ViewOf(ps[i]), w) {
      assert Among(ps, key, ps[i]);
      assert Below(ViewOf(ps[i]), v);
    }
    LeastView(ps, key, v, w);
  }

  /** An origin is listed exactly when some proposal of the key lists it. */
  lemma MergedOrigins(ps: seq<Proposal>, key: Word, v: View, x: Word)
    requires IsJoin(v, ps, key)
    ensures x in v.origins <==> exists p :: Among(ps, key, p) && x in p.origins
  {
    if p :| Among(ps, key, p) && x in p.origins {
      AboveAll(ps, key, v, p);
    } else {
      var w := v.(origins := v.origins - {x});
      forall i | 0 <= i < |ps| && ps[i].key == key ensures Below(ViewOf(ps[i]), w) {
        assert Among(ps, key, ps[i]);
        assert Below(ViewOf(ps[i]), v);
      }
      LeastView(ps, key, v, w);
    }
  }

  /** The priority number is the smallest of the key's, a missing one counting as zero. */
  lemma MergedPriority(ps: seq<Proposal>, key: Word, v: View)
    requires IsJoin(v, ps, key) && HasKey(ps, key)
    ensures forall p | Among(ps, key, p) :: v.priority <= (if p.priority.Some? then p.priority.value else 0)
    ensures exists p :: Among(ps, key, p) && v.priority == (if p.priority.Some? then p.priority.value else 0)
  {
    forall p | Among(ps, key, p) ensures v.priority <= (if p.priority.Some? then p.priority.value else 0) { AboveAll(ps, key, v, p); }
    if forall p | Among(ps, key, p) :: v.priority != (if p.priority.Some? then p.priority.value else 0) {
      var w := v.(priority := v.priority + 1);
      forall i | 0 <= i < |ps| && ps[i].key == key ensures Below(ViewOf(ps[i]), w) {
        assert Among(ps, key, ps[i]);
        assert Below(ViewOf(ps[i]), v);
      }
      LeastView(ps, key, v, w);
    }
  }

  /** Reacting wins over an opportunity, and an opportunity over a plan; a missing word is a plan. */
  lemma MergedInitiative(ps: seq<Proposal>, key: Word, v: View)
    requires IsJoin(v, ps, key) && HasKey(ps, key)
    requires forall p | Among(ps, key, p) :: p.initiative in {None, Some(Proactive), Some(Opportunistic), Some(Reactive)}
    ensures v.initiative == Reactive <==> exists p :: Among(ps, key, p) && p.initiative == Some(Reactive)
    ensures v.initiative == Proactive <==> forall p | Among(ps, key, p) :: p.initiative in {None, Some(Proactive)}
  {
    var k :| 0 <= k < |ps| && ps[k].key == key;
    assert Among(ps, key, ps[k]) && Below(ViewOf(ps[k]), v);
    if p :| Among(ps, key, p) && p.initiative == Some(Reactive) { AboveAll(ps, key, v, p); }
    if p :| Among(ps, key, p) && p.initiative == Some(Opportunistic) { AboveAll(ps, key, v, p); }
    if forall p | Among(ps, key, p) :: p.initiative != Some(Reactive) { LowerInitiative(ps, key, v, Opportunistic); }
    if forall p | Among(ps, key, p) :: p.initiative in {None, Some(Proactive)} { LowerInitiative(ps, key, v, Proactive); }
  }

  lemma LowerInitiative(ps: seq<Proposal>, key: Word, v: View, i: Initiative)
    requires IsJoin(v, ps, key) && forall p | Among(ps, key, p) :: Rank(Get(p.initiative, Proactive)) <= Rank(i)
    ensures Rank(v.initiative) <= Rank(i)
  {
    var w := v.(initiative := i);
    forall k | 0 <= k < |ps| && ps[k].key == key ensures Below(ViewOf(ps[k]), w) {
      assert Among(ps, key, ps[k]);
      assert Below(ViewOf(ps[k]), v);
    }
    LeastView(ps, key, v, w);
  }

  /** Every row of a merge is that join of its proposals, so the laws above are about the merge. */
  lemma MergedRowsAreJoins(ps: seq<Proposal>, rows: seq<Proposal>, i: nat)
    requires Canonicalizes(ps, Some(rows)) && i < |rows|
    ensures IsJoin(ViewOf(rows[i]), ps, rows[i].key) && HasKey(ps, rows[i].key)
    ensures forall p | Among(ps, rows[i].key, p) :: p.identity == rows[i].identity
  {
    assert Stored(ps, rows[i].key, rows[i]);
    forall p | Among(ps, rows[i].key, p) ensures p.identity == rows[i].identity { AboveAll(ps, rows[i].key, ViewOf(rows[i]), p); }
  }
}
