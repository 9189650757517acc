/** What every run of the local runtime keeps, injected CP2 failures included. */
module RuntimeTheorems {
  import opened RuntimeTables

  // ---- teaching locks ------------------------------------------------------------------

  /** A moment is live exactly when it holds the lock of its own conversation. */
  ghost predicate LocksMatch(s: State) {
    && (forall m | m in s.moments :: !s.moments[m].terminal <==>
          s.moments[m].conversation in s.locks && s.locks[s.moments[m].conversation] == m)
    && (forall c | c in s.locks :: s.locks[c] in s.moments && s.moments[s.locks[c]].conversation == c)
  }

  lemma StepKeepsLocks(s: State, call: Call)
    requires LocksMatch(s)
    ensures LocksMatch(Apply(s, call).s)
  {
    match call
    case DoCp2(o, fail) => OpeningKeepsLocks(s, o);
    case DoRelease(moment) => ReleaseKeepsLocks(s, moment);
    case _ => OtherCallsKeepLocks(s, call);
  }

  lemma OtherCallsKeepLocks(s: State, call: Call)
    requires !call.DoCp2? && !call.DoRelease?
    ensures Apply(s, call).s.moments == s.moments && Apply(s, call).s.locks == s.locks
  {
  }

  lemma OpeningKeepsLocks(s: State, o: Opening)
    requires LocksMatch(s)
    ensures CanOpen(s, o) ==> LocksMatch(Opened(s, o))
  {
  }

  lemma ReleaseKeepsLocks(s: State, moment: Id)
    requires LocksMatch(s)
    ensures LocksMatch(ReleaseLock(s, moment).s)
  {
  }

  lemma {:induction false} ReachableLocks(calls: seq<Call>)
    ensures LocksMatch(Run(FRESH, calls))
  {
    if calls != [] {
      ReachableLocks(calls[..|calls| - 1]);
      StepKeepsLocks(Run(FRESH, calls[..|calls| - 1]), calls[|calls| - 1]);
    }
  }

  /** In every reachable state a conversation has at most one live moment, and only live moments hold locks. */
  lemma OneLiveMomentPerConversation(calls: seq<Call>, m: Id, m': Id)
    requires var s := Run(FRESH, calls);
             && m in s.moments && m' in s.moments && !s.moments[m].terminal && !s.moments[m'].terminal
             && s.moments[m].conversation == s.moments[m'].conversation
    ensures m == m'
  {
    ReachableLocks(calls);
  }

  // ---- actions, attempts and answers --------------------------------------------------------

  /** cancel_action is given a closing word. */
  predicate CancelsClose(call: Call) {
    call.DoCancel? ==> ClosedState(call.state)
  }

  ghost predicate ActionLater(a: Action, a': Action) {
    && a'.turn == a.turn && a'.moment == a.moment
    && (a.accepted.Some? ==> a'.accepted == a.accepted)
    && (ClosedState(a.state) ==> ClosedState(a'.state) && a'.accepted == a.accepted)
  }

  ghost predicate Later(s: State, s': State) {
    && s.epoch <= s'.epoch
    && (forall a | a in s.actions :: a in s'.actions && ActionLater(s.actions[a], s'.actions[a]))
    && (forall t | t in s.assistants :: t in s'.assistants && s'.assistants[t] == s.assistants[t])
    && (forall x | x in s.attempts :: x in s'.attempts)
  }

  lemma CanonicalizeIsLater(s: State, turn: Id, action: Id, delivery: Id, prefix: Id, outcome: Id)
    ensures Later(s, Canonicalize(s, turn, action, delivery, prefix, outcome).s)
  {
  }

  lemma AcceptIsLater(s: State, action: Id, attempt: Option<AttemptId>)
    ensures Later(s, AcceptResult(s, action, attempt).s)
  {
  }

  lemma ActionStepIsLater(s: State, action: Id, state: ActionState)
    requires ClosedState(state)
    ensures Later(s, CancelAction(s, action, state))
  {
  }

  lemma OpeningIsLater(s: State, o: Opening)
    requires CanOpen(s, o)
    ensures Later(s, Opened(s, o))
  {
  }

  lemma SameActionsIsLater(s: State, s': State)
    requires s'.actions == s.actions && s'.assistants == s.assistants && s'.epoch >= s.epoch
    requires s.attempts.Keys <= s'.attempts.Keys
    ensures Later(s, s')
  {
  }

  lemma Cp0IsLater(s: State, turn: Id, conversation: Id, input: Id, userTurn: Id)
    ensures Later(s, CommitCp0(s, turn, conversation, input, userTurn).s)
  {
    SameActionsIsLater(s, CommitCp0(s, turn, conversation, input, userTurn).s);
  }

  lemma ReleaseIsLater(s: State, moment: Id)
    ensures Later(s, ReleaseLock(s, moment).s)
  {
    SameActionsIsLater(s, ReleaseLock(s, moment).s);
  }

  lemma IngestIsLater(s: State, input: Id, turn: Option<Id>)
    ensures Later(s, IngestInput(s, input, turn).s)
  {
    SameActionsIsLater(s, IngestInput(s, input, turn).s);
  }

  lemma QueuesIsLater(s: State, queues: Queues)
    ensures Later(s, s.(queues := queues))
  {
    SameActionsIsLater(s, s.(queues := queues));
  }

  lemma AttemptIsLater(s: State, action: Id)
    ensures Later(s, Apply(s, DoAttempt(action)).s)
  {
    SameActionsIsLater(s, Apply(s, DoAttempt(action)).s);
  }

  lemma TerminalizeIsLater(s: State, turn: Id, action: Id, outcome: Id)
    ensures Later(s, TerminalizeForInterrupt(s, turn, action, outcome))
  {
  }

  lemma StepIsLater(s: State, call: Call)
    requires CancelsClose(call)
    ensures Later(s, Apply(s, call).s)
  {
    match call
    case DoCanonicalize(turn, action, delivery, prefix, outcome) =>
      CanonicalizeIsLater(s, turn, action, delivery, prefix, outcome);
    case DoAccept(action, attempt) => AcceptIsLater(s, action, attempt);
    case DoCancel(action, state) => ActionStepIsLater(s, action, state);
    case DoTerminalize(turn, action, outcome) => TerminalizeIsLater(s, turn, action, outcome);
    case DoCp2(o, fail) => if CanOpen(s, o) { OpeningIsLater(s, o); } else { SameActionsIsLater(s, s); }
    case DoAttempt(action) => AttemptIsLater(s, action);
    case DoCp0(turn, conversation, input, userTurn) => Cp0IsLater(s, turn, conversation, input, userTurn);
    case DoRelease(moment) => ReleaseIsLater(s, moment);
    case DoRestart => SameActionsIsLater(s, Restart(s));
    case DoIngest(input, turn) => IngestIsLater(s, input, turn);
    case _ => QueuesIsLater(s, Apply(s, call).s.queues);
  }

  lemma {:induction false} RunIsLater(calls: seq<Call>, i: nat, j: nat)
    requires i <= j <= |calls| && forall k | 0 <= k < |calls| :: CancelsClose(calls[k])
    ensures Later(At(calls, i), At(calls, j))
    decreases j
  {
    if i < j {
      RunIsLater(calls, i, j - 1);
      AtNext(calls, j - 1);
      StepIsLater(At(calls, j - 1), calls[j - 1]);
      LaterTransitive(At(calls, i), At(calls, j - 1), At(calls, j));
    }
  }

  lemma LaterTransitive(a: State, b: State, c: State)
    requires Later(a, b) && Later(b, c)
    ensures Later(a, c)
  {
    forall x | x in a.actions ensures x in c.actions && ActionLater(a.actions[x], c.actions[x]) {
      assert ActionLater(a.actions[x], b.actions[x]) && ActionLater(b.actions[x], c.actions[x]);
    }
  }

  // While cancellations use closing words: an accepted attempt is never replaced, and a closed
  // action never again accepts a result.
  lemma AcceptanceIsFinal(calls: seq<Call>, i: nat, j: nat, action: Id, attempt: Option<AttemptId>)
    requires i <= j <= |calls| && forall k | 0 <= k < |calls| :: CancelsClose(calls[k])
    requires action in At(calls, i).actions
    ensures action in At(calls, j).actions
    ensures var a, a' := At(calls, i).actions[action], At(calls, j).actions[action];
            && (a.accepted.Some? ==> a'.accepted == a.accepted)
            && (ClosedState(a.state) ==> ClosedState(a'.state) && !a'.state.Accepted?)
            && (ClosedState(a.state) ==> AcceptResult(At(calls, j), action, attempt) == Out(At(calls, j), IgnoredLate))
            && (a.accepted.Some? ==> AcceptResult(At(calls, j), action, attempt).s == At(calls, j))
  {
    RunIsLater(calls, i, j);
  }

  /** The closing word is needed: any other word given to cancel_action re-opens a closed action. */
  lemma OtherWordsReopen(s: State, action: Id, state: ActionState, attempt: Option<AttemptId>)
    requires action in s.actions && ClosedState(s.actions[action].state) && s.actions[action].accepted.None?
    ensures ClosedState(state) <==>
            AcceptResult(CancelAction(s, action, state), action, attempt).answer == IgnoredLate
    ensures !ClosedState(state) ==>
              AcceptResult(CancelAction(s, action, state), action, attempt).s.actions[action].state == Accepted
  {
  }

  // ---- attempt ordinals ----------------------------------------------------------------------

  ghost predicate OrdinalsDense(s: State) {
    forall a :: AllUpTo(Ordinals(s, a), MaxOrdinal(s, a))
  }

  ghost predicate AllUpTo(numbers: set<int>, n: int) {
    forall o :: o in numbers <==> 1 <= o <= n
  }

  lemma OrdinalMember(s: State, action: Id, o: int)
    ensures o in Ordinals(s, action) <==> AttemptId(action, o) in s.attempts
  {
    if AttemptId(action, o) in s.attempts {
      assert AttemptId(action, o).ordinal in Ordinals(s, action);
    }
  }

  lemma DenseMax(s: State, action: Id, n: int)
    requires 0 <= n && AllUpTo(Ordinals(s, action), n)
    ensures MaxOrdinal(s, action) == n
  {
    var m := MaxOrdinal(s, action);
    assert IsMaxOrdinal(s, action, m);
    if n > 0 { assert n in Ordinals(s, action); } else { assert forall o :: o !in Ordinals(s, action); }
  }

  lemma AttemptKeepsDense(s: State, action: Id)
    requires OrdinalsDense(s)
    ensures OrdinalsDense(Apply(s, DoAttempt(action)).s)
  {
    var n := MaxOrdinal(s, action);
    var s' := Apply(s, DoAttempt(action)).s;
    if s' != s {
      forall a ensures AllUpTo(Ordinals(s', a), MaxOrdinal(s', a)) {
        assert AllUpTo(Ordinals(s, a), MaxOrdinal(s, a));
        assert IsMaxOrdinal(s, a, MaxOrdinal(s, a));
        var m := if a == action then n + 1 else MaxOrdinal(s, a);
        forall o ensures o in Ordinals(s', a) <==> 1 <= o <= m {
          OrdinalMember(s, a, o);
          OrdinalMember(s', a, o);
        }
        NonNegativeMax(s, a);
        DenseMax(s', a, m);
      }
    }
  }

  lemma NonNegativeMax(s: State, a: Id)
    requires AllUpTo(Ordinals(s, a), MaxOrdinal(s, a))
    ensures 0 <= MaxOrdinal(s, a)
  {
    var m := MaxOrdinal(s, a);
    assert IsMaxOrdinal(s, a, m);
  }

  lemma SameAttemptsSameOrdinals(s: State, s': State)
    requires s'.attempts.Keys == s.attempts.Keys && OrdinalsDense(s)
    ensures OrdinalsDense(s')
  {
    forall a ensures AllUpTo(Ordinals(s', a), MaxOrdinal(s', a)) {
      assert AllUpTo(Ordinals(s, a), MaxOrdinal(s, a));
      forall o ensures o in Ordinals(s', a) <==> o in Ordinals(s, a) {
        OrdinalMember(s, a, o);
        OrdinalMember(s', a, o);
      }
      NonNegativeMax(s, a);
      DenseMax(s', a, MaxOrdinal(s, a));
    }
  }

  lemma FreshIsDense()
    ensures OrdinalsDense(FRESH)
  {
    forall a ensures AllUpTo(Ordinals(FRESH, a), MaxOrdinal(FRESH, a)) {
      assert forall o :: o !in Ordinals(FRESH, a);
      DenseMax(FRESH, a, 0);
    }
  }

  lemma OtherCallsAddNoAttempt(s: State, call: Call)
    requires !call.DoAttempt?
    ensures Apply(s, call).s.attempts.Keys == s.attempts.Keys
  {
  }

  /** In every reachable state the ordinals of an action's attempts are exactly 1..n. */
  lemma {:induction false} OrdinalsAreDense(calls: seq<Call>)
    ensures OrdinalsDense(Run(FRESH, calls))
  {
    if calls == [] {
      FreshIsDense();
    } else {
      OrdinalsAreDense(calls[..|calls| - 1]);
      StepKeepsDense(Run(FRESH, calls[..|calls| - 1]), calls[|calls| - 1]);
    }
  }

  lemma StepKeepsDense(s: State, call: Call)
    requires OrdinalsDense(s)
    ensures OrdinalsDense(Apply(s, call).s)
  {
    if call.DoAttempt? {
      AttemptKeepsDense(s, call.action);
    } else {
      OtherCallsAddNoAttempt(s, call);
      SameAttemptsSameOrdinals(s, Apply(s, call).s);
    }
  }

  // ---- canonical answers -----------------------------------------------------------------------

  ghost predicate Commits(calls: seq<Call>, i: nat, turn: Id, action: Id)
    requires i < |calls|
  {
    && calls[i].DoCanonicalize? && calls[i].turn == turn && calls[i].action == action
    && Apply(At(calls, i), calls[i]).answer == Committed(true)
  }

  ghost predicate AnswersStay(s: State, s': State) {
    forall t | t in s.assistants :: t in s'.assistants && s'.assistants[t] == s.assistants[t]
  }

  lemma {:induction false} RunKeepsAnswers(calls: seq<Call>, i: nat, j: nat)
    requires i <= j <= |calls|
    ensures AnswersStay(At(calls, i), At(calls, j))
    decreases j
  {
    if i < j {
      RunKeepsAnswers(calls, i, j - 1);
      AtNext(calls, j - 1);
      StepKeepsAnswers(At(calls, j - 1), calls[j - 1]);
    }
  }

  lemma StepKeepsAnswers(s: State, call: Call)
    ensures AnswersStay(s, Apply(s, call).s)
  {
  }

  /** The answer a commit writes, and that nothing later rewrites it. */
  lemma CommittedAnswerStays(calls: seq<Call>, i: nat, j: nat, turn: Id, action: Id)
    requires i < j <= |calls| && Commits(calls, i, turn, action)
    ensures turn in At(calls, j).assistants
    ensures At(calls, j).assistants[turn] == AssistantRow(action, calls[i].prefix, calls[i].outcome)
  {
    AtNext(calls, i);
    RunKeepsAnswers(calls, i + 1, j);
  }

  /** Of all canonicalizations in a run, at most one per turn and at most one per action commits. */
  lemma OneCommitPerTurnAndAction(calls: seq<Call>, i: nat, j: nat, turn: Id, action: Id, turn': Id, action': Id)
    requires i < j < |calls| && Commits(calls, i, turn, action) && Commits(calls, j, turn', action')
    ensures turn != turn' && action != action'
  {
    CommittedAnswerStays(calls, i, j, turn, action);
    assert AnswerFree(At(calls, j).assistants, turn', action');
  }
}
