/** The runtime object: statements on its tables, committed together or rolled back. */
module RuntimeLocal {
  import opened RuntimeTables
  import opened RuntimeTheorems
  import opened RuntimeRecovery
  import opened Ordering
  import opened Permutations

  class LocalRuntime {
    var epoch: nat
    var inputs: set<Id>
    var turns: map<Id, Turn>
    var userTurns: map<Id, (Id, Id)>
    var gates: set<Id>
    var moments: map<Id, Moment>
    var locks: map<Id, Id>
    var actions: map<Id, Action>
    var attempts: map<AttemptId, bool>
    var deliveries: map<Id, Delivery>
    var assistants: map<Id, AssistantRow>
    var queues: Queues

    function Value(): State
      reads this
    {
      State(epoch, inputs, turns, userTurns, gates, moments, locks, actions, attempts, deliveries, assistants, queues)
    }

    ghost predicate Valid()
      reads this
    {
      LocksMatch(Value())
    }

    constructor ()
      ensures Value() == FRESH && Valid()
    {
      epoch, inputs, turns, userTurns, gates := 1, {}, map[], map[], {};
      moments, locks, actions, attempts := map[], map[], map[], map[];
      deliveries, assistants, queues := map[], map[], Queues(map[], map[]);
    }

    method Rollback(saved: State)
      modifies this
      ensures Value() == saved
    {
      epoch, inputs, turns, userTurns, gates := saved.epoch, saved.inputs, saved.turns, saved.userTurns, saved.gates;
      moments, locks, actions, attempts := saved.moments, saved.locks, saved.actions, saved.attempts;
      deliveries, assistants, queues := saved.deliveries, saved.assistants, saved.queues;
    }

    /** Does not wait for the conversation's guard. */
    method IngestInput(input: Id, activeTurn: Option<Id>) returns (answer: Answer)
      modifies this
      ensures Out(Value(), answer) == RuntimeTables.IngestInput(old(Value()), input, activeTurn)
    {
      var inserted := input !in inputs;
      inputs := inputs + {input};
      if activeTurn.Some? && input !in queues.interrupts {
        queues := queues.(interrupts := queues.interrupts[input := Interrupt(activeTurn.value, false)]);
      }
      return Committed(inserted);
    }

    method CommitCp0(turn: Id, conversation: Id, input: Id, userTurn: Id) returns (answer: Answer)
      modifies this
      ensures Out(Value(), answer) == RuntimeTables.CommitCp0(old(Value()), turn, conversation, input, userTurn)
    {
      var saved := Value();
      if turn in turns { return Raised; }
      turns := turns[turn := Turn(conversation, UserCommitted, None, epoch, None, Cp0)];
      if turn in userTurns || input !in inputs
         || exists t :: t in userTurns && (userTurns[t].0 == input || userTurns[t].1 == userTurn) {
        Rollback(saved);
        return Raised;
      }
      userTurns := userTurns[turn := (input, userTurn)];
      return Done;
    }

    /** The four inserts and the update of CP2, each under its constraints, with the injected failure points. */
    method WriteCp2(o: Opening, fail: Option<FailPoint>) returns (ok: bool)
      modifies this
      ensures ok <==> CanOpen(old(Value()), o) && fail.None?
      ensures ok ==> Value() == Opened(old(Value()), o)
    {
      assert fail == None || fail == Some(AfterGate) || fail == Some(AfterMoment) || fail == Some(AfterLock)
             || fail == Some(AfterAction) by {
        if fail.Some? { match fail.value case AfterGate => case AfterMoment => case AfterLock => case AfterAction => }
      }
      if o.gate in gates || o.turn !in turns { return false; }
      gates := gates + {o.gate};
      if fail == Some(AfterGate) { return false; }
      if o.moment in moments { return false; }
      moments := moments[o.moment := Moment(o.conversation, o.turn, false, o.focus)];
      if fail == Some(AfterMoment) { return false; }
      if o.conversation in locks || exists c :: c in locks && locks[c] == o.moment { return false; }
      locks := locks[o.conversation := o.moment];
      if fail == Some(AfterLock) { return false; }
      if o.action in actions { return false; }
      actions := actions[o.action := Action(o.turn, Some(o.moment), Planned, None, epoch)];
      turns := turns[o.turn :=
        turns[o.turn].(state := DecisionCommitted, checkpoint := Cp2, currentAction := Some(o.action))];
      if fail == Some(AfterAction) { return false; }
      return true;
    }

    method CommitCp2Open(o: Opening, fail: Option<FailPoint>) returns (answer: Answer)
      requires Valid()
      modifies this
      ensures Valid()
      ensures Out(Value(), answer) == RuntimeTables.CommitCp2Open(old(Value()), o, fail)
    {
      var saved := Value();
      OpeningKeepsLocks(saved, o);
      var ok := WriteCp2(o, fail);
      if !ok {
        Rollback(saved);
        return Raised;
      }
      return Done;
    }

    method ReleaseTeachingLockTerminal(moment: Id) returns (answer: Answer)
      requires Valid()
      modifies this
      ensures Valid()
      ensures Out(Value(), answer) == ReleaseLock(old(Value()), moment)
    {
      ReleaseKeepsLocks(Value(), moment);
      if moment !in moments { return Raised; }
      moments := moments[moment := moments[moment].(terminal := true)];
      locks := map c | c in locks && locks[c] != moment :: locks[c];
      return Done;
    }

    /** SELECT COALESCE(MAX(ordinal), 0) over the attempts of one action. */
    method LargestOrdinal(action: Id) returns (n: int)
      ensures n == MaxOrdinal(Value(), action)
    {
      var left := set a | a in attempts && a.action == action;
      ghost var all := left;
      n := 0;
      var seen := false;
      while left != {}
        invariant left <= all
        invariant forall a | a in all && a !in left :: seen && a.ordinal <= n
        invariant seen ==> exists a :: a in all && a.ordinal == n
        invariant !seen ==> n == 0
        decreases |left|
      {
        var a :| a in left;
        if !seen || n < a.ordinal { n := a.ordinal; }
        seen := true;
        left := left - {a};
      }
      MaxIsUnique(Value(), action, n, all);
    }

    method CreateProviderAttempt(action: Id) returns (answer: Answer)
      modifies this
      ensures Out(Value(), answer) == Apply(old(Value()), DoAttempt(action))
    {
      var n := LargestOrdinal(action);
      var id := AttemptId(action, n + 1);
      if action !in actions || id in attempts { return Raised; }
      attempts := attempts[id := false];
      return Attempted(id);
    }

    method AcceptProviderResult(action: Id, attempt: Option<AttemptId>) returns (answer: Answer)
      modifies this
      ensures Out(Value(), answer) == AcceptResult(old(Value()), action, attempt)
    {
      if action !in actions { return Raised; }
      var a := actions[action];
      if ClosedState(a.state) { return IgnoredLate; }
      if a.accepted.Some? { return DuplicateIgnored; }
      actions := actions[action := a.(accepted := attempt, state := Accepted)];
      if attempt.Some? && attempt.value in attempts { attempts := attempts[attempt.value := true]; }
      return AcceptedResult;
    }

    method CancelAction(action: Id, state: ActionState)
      modifies this`actions
      ensures actions == WithState(old(actions), action, state)
    {
      if action in actions { actions := actions[action := actions[action].(state := state)]; }
    }

    method EndTurn(turn: Id, state: TurnState, outcome: Id)
      modifies this`turns
      ensures turns == Ended(old(turns), turn, state, outcome)
    {
      if turn in turns {
        turns := turns[turn := turns[turn].(state := state, outcome := Some(outcome), checkpoint := Cp3)];
      }
    }

    /** INSERT OR IGNORE INTO server_delivery; false is a missing action. */
    method InsertDelivery(delivery: Id, row: Delivery) returns (ok: bool)
      modifies this`deliveries
      ensures ok <==> DeliveryFree(old(deliveries), delivery, row.action) ==> row.action in actions
      ensures deliveries == if ok then WithDelivery(old(deliveries), delivery, row) else old(deliveries)
    {
      ok := true;
      if delivery !in deliveries && !exists d :: d in deliveries && deliveries[d].action == row.action {
        if row.action !in actions { return false; }
        deliveries := deliveries[delivery := row];
      }
    }

    /** INSERT OR IGNORE INTO assistant_turn; not ok is a missing parent row. */
    method InsertAnswer(turn: Id, row: AssistantRow) returns (ok: bool, inserted: bool)
      modifies this`assistants
      ensures ok <==> AnswerFree(old(assistants), turn, row.action) ==> row.action in actions && turn in turns
      ensures ok ==> inserted == AnswerFree(old(assistants), turn, row.action)
      ensures assistants == if ok then WithAnswer(old(assistants), turn, row) else old(assistants)
    {
      ok, inserted := true, false;
      if turn !in assistants && !exists t :: t in assistants && assistants[t].action == row.action {
        if row.action !in actions || turn !in turns { return false, false; }
        assistants, inserted := assistants[turn := row], true;
      }
    }

    method CanonicalizeDelivery(turn: Id, action: Id, delivery: Id, prefix: Id, outcome: Id) returns (answer: Answer)
      modifies this
      ensures Out(Value(), answer) == Canonicalize(old(Value()), turn, action, delivery, prefix, outcome)
    {
      var saved := Value();
      var ok := InsertDelivery(delivery, Delivery(action, prefix));
      if !ok { return Raised; }
      var committed;
      ok, committed := InsertAnswer(turn, AssistantRow(action, prefix, outcome));
      if !ok {
        Rollback(saved);
        return Raised;
      }
      EndTurn(turn, TurnCompleted, outcome);
      CancelAction(action, Terminal);
      return Committed(committed);
    }

    method TerminalizeOldTurnForInterrupt(turn: Id, action: Id, outcome: Id)
      modifies this
      ensures Value() == TerminalizeForInterrupt(old(Value()), turn, action, outcome)
    {
      CancelAction(action, Superseded);
      EndTurn(turn, TurnCancelled, outcome);
      HandOff(turn);
    }

    /** Turns that are not terminal and belong to an older process. */
    method RecoverTurns() returns (plan: seq<Item>)
      ensures Lists(plan, TurnItems(Value(), turns.Keys))
    {
      plan := [];
      var todo := turns.Keys;
      ghost var done := {};
      while todo != {}
        invariant todo <= turns.Keys && done == turns.Keys - todo && Lists(plan, TurnItems(Value(), done))
        decreases todo
      {
        ghost var any := Pick(todo);
        var t :| t in todo;
        OneMoreTurn(Value(), done, t);
        OneMoreId(turns.Keys, todo, t);
        if !TurnTerminal(turns[t]) && turns[t].ownerEpoch < epoch {
          AppendListing(plan, TurnItems(Value(), done), TurnEntry(Value(), t));
          plan := plan + [Item(TurnItem(ResumeAt(turns[t].checkpoint)), t)];
        }
        done, todo := done + {t}, todo - {t};
      }
      assert done == turns.Keys;
    }

    method RecoverProjections() returns (plan: seq<Item>)
      ensures Lists(plan, ProjectionItems(Value(), queues.projections.Keys))
    {
      plan := [];
      var todo := queues.projections.Keys;
      ghost var done := {};
      while todo != {}
        invariant todo <= queues.projections.Keys && done == queues.projections.Keys - todo
        invariant Lists(plan, ProjectionItems(Value(), done))
        decreases todo
      {
        ghost var any := Pick(todo);
        var p :| p in todo;
        OneMoreJob(Value(), done, p);
        OneMoreId(queues.projections.Keys, todo, p);
        if queues.projections[p].pending {
          AppendListing(plan, ProjectionItems(Value(), done), Item(ProjectionItem, p));
          plan := plan + [Item(ProjectionItem, p)];
        }
        done, todo := done + {p}, todo - {p};
      }
      assert done == queues.projections.Keys;
    }

    /** Locks joined with their moments. */
    method RecoverLocks() returns (plan: seq<Item>)
      requires Valid()
      ensures Lists(plan, LockItems(Value(), locks.Keys))
    {
      plan := [];
      var todo := locks.Keys;
      ghost var done := {};
      while todo != {}
        invariant todo <= locks.Keys && done == locks.Keys - todo && Lists(plan, LockItems(Value(), done))
        decreases todo
      {
        ghost var any := Pick(todo);
        var c :| c in todo;
        OneMoreLock(Value(), done, c);
        OneMoreId(locks.Keys, todo, c);
        AppendListing(plan, LockItems(Value(), done), LockEntry(Value(), c));
        plan := plan + [Item(if moments[locks[c]].terminal then LockItem else TeachingItem, locks[c])];
        done, todo := done + {c}, todo - {c};
      }
      assert done == locks.Keys;
    }

    /** Every entry that is due, once each, sorted by kind and id. */
    method RecoveryPlan() returns (plan: seq<Item>)
      requires Valid()
      ensures Lists(plan, Due(Value())) && Sorted(plan)
    {
      var a := RecoverTurns();
      var b := RecoverProjections();
      var c := RecoverLocks();
      ConcatListings(a, TurnItems(Value(), turns.Keys), b, ProjectionItems(Value(), queues.projections.Keys));
      ConcatListings(a + b, TurnItems(Value(), turns.Keys) + ProjectionItems(Value(), queues.projections.Keys),
        c, LockItems(Value(), locks.Keys));
      plan := InOrder(a + b + c);
      ListsPermute(a + b + c, plan, Due(Value()));
    }

    /** UPDATE interrupt_request over every request against the turn. */
    method HandOff(turn: Id)
      modifies this`queues
      ensures queues == HandedOff(old(queues), turn)
    {
      queues := queues.(interrupts := map i | i in queues.interrupts ::
        queues.interrupts[i].(ready := queues.interrupts[i].ready || queues.interrupts[i].turn == turn));
    }

    method EnqueueProjection(projection: Id, conversation: Id, turn: Id, kind: Id)
      modifies this`queues
      ensures Value() == RuntimeTables.EnqueueProjection(old(Value()), projection, conversation, turn, kind)
    {
      if projection !in queues.projections
         && !exists p :: p in queues.projections && queues.projections[p].turn == turn && queues.projections[p].kind == kind {
        queues := queues.(projections := queues.projections[projection := Projection(conversation, turn, kind, true)]);
      }
    }

    method RunProjection(projection: Id, guarded: bool) returns (answer: Answer)
      modifies this`queues
      ensures Out(Value(), answer) == RuntimeTables.RunProjection(old(Value()), projection, guarded)
    {
      if projection !in queues.projections { return Raised; }
      if guarded { return Raised; }
      queues := queues.(projections := queues.projections[projection := queues.projections[projection].(pending := false)]);
      return Done;
    }
  }

  lemma OneMoreId(all: set<Id>, todo: set<Id>, x: Id)
    requires todo <= all && x in todo
    ensures all - (todo - {x}) == all - todo + {x}
  {
  }

  lemma OneMoreTurn(s: State, done: set<Id>, t: Id)
    requires t !in done && t in s.turns
    ensures TurnItems(s, done + {t}) == TurnItems(s, done) + (if LeftLive(s, t) then {TurnEntry(s, t)} else {})
    ensures TurnEntry(s, t) !in TurnItems(s, done)
  {
  }

  lemma OneMoreJob(s: State, done: set<Id>, p: Id)
    requires p !in done
    ensures ProjectionItems(s, done + {p}) == ProjectionItems(s, done) + (if Waiting(s, p) then {Item(ProjectionItem, p)} else {})
    ensures Item(ProjectionItem, p) !in ProjectionItems(s, done)
  {
  }

  lemma OneMoreLock(s: State, done: set<Id>, c: Id)
    requires LocksMatch(s) && c !in done && c in s.locks
    ensures Joined(s, c) && LockItems(s, done + {c}) == LockItems(s, done) + {LockEntry(s, c)}
    ensures LockEntry(s, c) !in LockItems(s, done)
  {
  }

  lemma MaxIsUnique(s: State, action: Id, n: int, all: set<AttemptId>)
    requires all == set a | a in s.attempts && a.action == action
    requires forall a | a in all :: a.ordinal <= n
    requires if all == {} then n == 0 else exists a :: a in all && a.ordinal == n
    ensures n == MaxOrdinal(s, action)
  {
    var m := MaxOrdinal(s, action);
    assert IsMaxOrdinal(s, action, m);
    if all == {} {
      assert forall o :: o !in Ordinals(s, action);
    } else {
      var a :| a in all && a.ordinal == n;
      assert a.ordinal in Ordinals(s, action);
    }
  }
}
