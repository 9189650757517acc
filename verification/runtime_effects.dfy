/** What each call of the local runtime promises, in the fields it leaves, and what follows over runs. */
module RuntimeEffects {
  import opened RuntimeTables
  import opened RuntimeTheorems
  import opened RuntimeRecovery
  import opened Ordering

  // ---- acceptance --------------------------------------------------------------------------

  // A result is accepted exactly by a known action that is not cancelled, superseded or terminal and
  // has accepted nothing; that action then holds the attempt's id, and the attempt is marked.
  lemma AcceptanceRecords(s: State, action: Id, attempt: AttemptId)
    ensures var out := AcceptResult(s, action, Some(attempt));
            && (out.answer == AcceptedResult <==>
                  action in s.actions && s.actions[action].state !in {Cancelled, Superseded, Terminal} && s.actions[action].accepted.None?)
            && (out.answer != AcceptedResult ==> out.s == s)
            && (out.answer == IgnoredLate <==> action in s.actions && s.actions[action].state in {Cancelled, Superseded, Terminal})
            && (out.answer == AcceptedResult ==>
                  && out.s.actions.Keys == s.actions.Keys && out.s.attempts.Keys == s.attempts.Keys
                  && out.s.actions[action].accepted == Some(attempt) && out.s.actions[action].state == Accepted
                  && (forall a | a in s.actions && a != action :: out.s.actions[a] == s.actions[a])
                  && (forall x | x in s.attempts :: out.s.attempts[x] == (s.attempts[x] || x == attempt)))
  {
  }

  ghost predicate AcceptedKept(s: State, s': State) {
    forall a | a in s.actions && s.actions[a].accepted.Some? :: a in s'.actions && s'.actions[a].accepted == s.actions[a].accepted
  }

  lemma StepKeepsAccepted(s: State, call: Call)
    ensures AcceptedKept(s, Apply(s, call).s)
  {
    match call
    case DoAccept(action, attempt) => AcceptKeepsAccepted(s, action, attempt);
    case DoCanonicalize(turn, action, delivery, prefix, outcome) => CanonicalizeKeepsAccepted(s, turn, action, delivery, prefix, outcome);
    case DoCp2(o, fail) => assert CanOpen(s, o) ==> o.action !in s.actions;
    case DoCancel(action, state) =>
    case DoTerminalize(turn, action, outcome) =>
    case _ => OtherCallsKeepActions(s, call);
  }

  lemma AcceptKeepsAccepted(s: State, action: Id, attempt: Option<AttemptId>)
    ensures AcceptedKept(s, AcceptResult(s, action, attempt).s)
  {
  }

  lemma CanonicalizeKeepsAccepted(s: State, turn: Id, action: Id, delivery: Id, prefix: Id, outcome: Id)
    ensures AcceptedKept(s, Canonicalize(s, turn, action, delivery, prefix, outcome).s)
  {
  }

  lemma OtherCallsKeepActions(s: State, call: Call)
    requires !call.DoAccept? && !call.DoCanonicalize? && !call.DoCp2? && !call.DoCancel? && !call.DoTerminalize?
    ensures Apply(s, call).s.actions == s.actions
  {
  }

  lemma {:induction false} RunKeepsAccepted(calls: seq<Call>, i: nat, j: nat)
    requires i <= j <= |calls|
    ensures AcceptedKept(At(calls, i), At(calls, j))
    decreases j
  {
    if i < j {
      RunKeepsAccepted(calls, i, j - 1);
      AtNext(calls, j - 1);
      StepKeepsAccepted(At(calls, j - 1), calls[j - 1]);
    }
  }

  /** Call i hands an action the result of an attempt, and the result is accepted. */
  ghost predicate Accepts(calls: seq<Call>, i: nat, action: Id, attempt: AttemptId)
    requires i < |calls|
  {
    calls[i] == DoAccept(action, Some(attempt)) && Apply(At(calls, i), calls[i]).answer == AcceptedResult
  }

  /** From the accepting call on, over any run whatever, the action's accepted attempt is that one. */
  lemma AcceptedForEver(calls: seq<Call>, i: nat, j: nat, action: Id, attempt: AttemptId)
    requires i < j <= |calls| && Accepts(calls, i, action, attempt)
    ensures action in At(calls, j).actions && At(calls, j).actions[action].accepted == Some(attempt)
  {
    AtNext(calls, i);
    AcceptanceRecords(At(calls, i), action, attempt);
    RunKeepsAccepted(calls, i + 1, j);
  }

  /** Of all results handed to an action, at most one is ever accepted. */
  lemma OneAcceptancePerAction(calls: seq<Call>, i: nat, j: nat, action: Id, attempt: AttemptId, attempt': AttemptId)
    requires i < |calls| && j < |calls| && Accepts(calls, i, action, attempt) && Accepts(calls, j, action, attempt')
    ensures i == j && attempt == attempt'
  {
    if i < j {
      AcceptedForEver(calls, i, j, action, attempt);
      AcceptanceRecords(At(calls, j), action, attempt');
    } else if j < i {
      AcceptedForEver(calls, j, i, action, attempt');
      AcceptanceRecords(At(calls, i), action, attempt);
    }
  }

  // ---- marked attempts ---------------------------------------------------------------------------

  /** Results are handed to the action they were made for. */
  predicate OwnAttempt(call: Call) {
    call.DoAccept? && call.attempt.Some? ==> call.attempt.value.action == call.action
  }

  ghost predicate Holder(s: State, x: AttemptId) {
    x.action in s.actions && s.actions[x.action].accepted == Some(x)
  }

  ghost predicate MarkedAreHeld(s: State) {
    forall x | x in s.attempts && s.attempts[x] :: Holder(s, x)
  }

  lemma StepKeepsMarks(s: State, call: Call)
    requires MarkedAreHeld(s) && OwnAttempt(call)
    ensures MarkedAreHeld(Apply(s, call).s)
  {
    StepKeepsAccepted(s, call);
    var s' := Apply(s, call).s;
    if call.DoAccept? {
      if call.attempt.Some? { AcceptanceRecords(s, call.action, call.attempt.value); }
      forall x | x in s'.attempts && s'.attempts[x] ensures Holder(s', x) {
        if x in s.attempts && s.attempts[x] { assert Holder(s, x); }
      }
    } else {
      NoOtherCallMarks(s, call);
      forall x | x in s'.attempts && s'.attempts[x] ensures Holder(s', x) { assert Holder(s, x); }
    }
  }

  lemma NoOtherCallMarks(s: State, call: Call)
    requires !call.DoAccept?
    ensures forall x | x in Apply(s, call).s.attempts && Apply(s, call).s.attempts[x] :: x in s.attempts && s.attempts[x]
  {
    if !call.DoAttempt? { AttemptsStay(s, call); }
  }

  lemma AttemptsStay(s: State, call: Call)
    requires !call.DoAccept? && !call.DoAttempt?
    ensures Apply(s, call).s.attempts == s.attempts
  {
  }

  lemma {:induction false} RunKeepsMarks(calls: seq<Call>)
    requires forall k | 0 <= k < |calls| :: OwnAttempt(calls[k])
    ensures MarkedAreHeld(Run(FRESH, calls))
  {
    if calls != [] {
      RunKeepsMarks(calls[..|calls| - 1]);
      StepKeepsMarks(Run(FRESH, calls[..|calls| - 1]), calls[|calls| - 1]);
    }
  }

  /** While results go to their own actions, an action has at most one attempt marked accepted: the one it holds. */
  lemma OneMarkPerAction(calls: seq<Call>, x: AttemptId, y: AttemptId)
    requires forall k | 0 <= k < |calls| :: OwnAttempt(calls[k])
    requires var s := Run(FRESH, calls);
             x in s.attempts && y in s.attempts && s.attempts[x] && s.attempts[y] && x.action == y.action
    ensures x == y && x.action in Run(FRESH, calls).actions && Run(FRESH, calls).actions[x.action].accepted == Some(x)
  {
    RunKeepsMarks(calls);
    assert Holder(Run(FRESH, calls), x) && Holder(Run(FRESH, calls), y);
  }

  /** A result handed to another action marks a second attempt of its own. */
  lemma ForeignResultMarksASecond(s: State, other: Id, x: AttemptId, y: AttemptId)
    requires x.action == y.action && x != y && other != x.action && x in s.attempts && y in s.attempts
    requires forall a | a in {other, x.action} ::
               a in s.actions && s.actions[a].state !in {Cancelled, Superseded, Terminal} && s.actions[a].accepted.None?
    ensures var s' := AcceptResult(AcceptResult(s, other, Some(x)).s, y.action, Some(y)).s; s'.attempts[x] && s'.attempts[y]
  {
    AcceptanceRecords(s, other, x);
    AcceptanceRecords(AcceptResult(s, other, Some(x)).s, y.action, y);
  }

  // ---- stages and resumptions -----------------------------------------------------------------------

  /** A checkpoint says how far its turn got. */
  ghost predicate StagesMatch(s: State) {
    forall t | t in s.turns :: StageMatches(s.turns[t])
  }

  predicate StageMatches(t: Turn) {
    && (t.state == UserCommitted <==> t.checkpoint == Cp0)
    && (t.state == DecisionCommitted <==> t.checkpoint == Cp2)
    && (t.state in {TurnCompleted, TurnCancelled} <==> t.checkpoint == Cp3)
    && t.state != TurnFailed
  }

  lemma StepKeepsStages(s: State, call: Call)
    requires StagesMatch(s)
    ensures StagesMatch(Apply(s, call).s)
  {
    match call
    case DoCp0(turn, conversation, input, userTurn) =>
    case DoCp2(o, fail) =>
    case DoCanonicalize(turn, action, delivery, prefix, outcome) => CanonicalizeEndsTheTurn(s, turn, action, delivery, prefix, outcome);
    case DoTerminalize(turn, action, outcome) => InterruptEndsTheTurn(s, turn, action, outcome);
    case _ => OtherCallsKeepTurns(s, call);
  }

  lemma OtherCallsKeepTurns(s: State, call: Call)
    requires !call.DoCp0? && !call.DoCp2? && !call.DoCanonicalize? && !call.DoTerminalize?
    ensures Apply(s, call).s.turns == s.turns
  {
  }

  lemma {:induction false} ReachableStages(calls: seq<Call>)
    ensures StagesMatch(Run(FRESH, calls))
  {
    if calls != [] {
      ReachableStages(calls[..|calls| - 1]);
      StepKeepsStages(Run(FRESH, calls[..|calls| - 1]), calls[|calls| - 1]);
    }
  }

  // After any run, a turn an older process left live is resumed by analysis while only the user's
  // words are committed, and by its action once the decision is; no other resumption is ever planned.
  lemma ResumeFitsTheStage(calls: seq<Call>, plan: seq<Item>, t: Id)
    requires Lists(plan, Due(Run(FRESH, calls)))
    ensures var s := Run(FRESH, calls);
            && (Item(TurnItem(ResumeAnalysis), t) in plan <==>
                  t in s.turns && s.turns[t].state == UserCommitted && s.turns[t].ownerEpoch < s.epoch)
            && (Item(TurnItem(ResumeAction), t) in plan <==>
                  t in s.turns && s.turns[t].state == DecisionCommitted && s.turns[t].ownerEpoch < s.epoch)
            && (forall r | Item(TurnItem(r), t) in plan :: r in {ResumeAnalysis, ResumeAction})
  {
    var s := Run(FRESH, calls);
    ReachableStages(calls);
    assert t in s.turns ==> StageMatches(s.turns[t]);
    forall r: Resume ensures Item(TurnItem(r), t) in plan <==> LeftLive(s, t) && r == ResumeAt(s.turns[t].checkpoint) {
      assert Item(TurnItem(r), t) in plan <==> Item(TurnItem(r), t) in Due(s);
      assert Item(TurnItem(r), t) in TurnItems(s, s.turns.Keys) <==> LeftLive(s, t) && Item(TurnItem(r), t) == TurnEntry(s, t);
    }
  }

  // ---- one call at a time --------------------------------------------------------------------------------

  /** CP0 succeeds exactly for a new turn of an ingested input, with ids that are free; the turn is the current process's. */
  lemma Cp0CommitsTheTurn(s: State, turn: Id, conversation: Id, input: Id, userTurn: Id)
    ensures var out := CommitCp0(s, turn, conversation, input, userTurn);
            && (out.answer == Done <==>
                  && turn !in s.turns && turn !in s.userTurns && input in s.inputs
                  && forall t | t in s.userTurns :: s.userTurns[t] != (input, s.userTurns[t].1) && s.userTurns[t] != (s.userTurns[t].0, userTurn))
            && (out.answer != Done ==> out.s == s)
            && (out.answer == Done ==>
                  && turn in out.s.turns && out.s.turns[turn].conversation == conversation
                  && out.s.turns[turn].state == UserCommitted && out.s.turns[turn].checkpoint == Cp0
                  && out.s.turns[turn].ownerEpoch == s.epoch && out.s.turns[turn].outcome.None?
                  && turn in out.s.userTurns && out.s.userTurns[turn] == (input, userTurn)
                  && (forall t | t in s.turns :: out.s.turns[t] == s.turns[t]))
  {
  }

  /** CP2 leaves a live moment that holds the conversation's lock, and a planned action with nothing accepted. */
  lemma Cp2OpensTheMoment(s: State, o: Opening)
    requires CommitCp2Open(s, o, None).answer == Done
    ensures var s' := CommitCp2Open(s, o, None).s;
            && o.moment !in s.moments && o.moment in s'.moments && s'.moments[o.moment] == Moment(o.conversation, o.turn, false, o.focus)
            && o.conversation !in s.locks && o.conversation in s'.locks && s'.locks[o.conversation] == o.moment
            && o.action !in s.actions && o.action in s'.actions && s'.actions[o.action].turn == o.turn
            && s'.actions[o.action].moment == Some(o.moment) && s'.actions[o.action].state == Planned
            && s'.actions[o.action].accepted.None? && s'.actions[o.action].ownerEpoch == s.epoch
            && o.turn in s'.turns && s'.turns[o.turn].state == DecisionCommitted && s'.turns[o.turn].currentAction == Some(o.action)
            && o.gate !in s.gates && s'.gates == s.gates + {o.gate}
  {
  }

  /** Releasing a known moment ends it and frees its conversation for the next one, whatever held it. */
  lemma ReleaseFreesTheConversation(s: State, moment: Id, o: Opening)
    requires LocksMatch(s) && moment in s.moments && o.conversation == s.moments[moment].conversation
    requires o.conversation in s.locks ==> s.locks[o.conversation] == moment
    requires o.turn in s.turns && o.gate !in s.gates && o.moment !in s.moments && o.action !in s.actions
    ensures var out := ReleaseLock(s, moment);
            && out.answer == Done && out.s.moments[moment].terminal && (forall c | c in out.s.locks :: out.s.locks[c] != moment)
            && (forall m | m in s.moments && m != moment :: out.s.moments[m] == s.moments[m])
            && CommitCp2Open(out.s, o, None).answer == Done
  {
    var s' := ReleaseLock(s, moment).s;
    forall c | c in s'.locks ensures s'.locks[c] != o.moment { assert s.locks[c] in s.moments; }
  }

  /** A canonicalized turn is completed with its outcome, and its action takes no result any more. */
  lemma CanonicalizeEndsTheTurn(s: State, turn: Id, action: Id, delivery: Id, prefix: Id, outcome: Id)
    ensures var out := Canonicalize(s, turn, action, delivery, prefix, outcome);
            && (out.answer == Raised ==> out.s == s)
            && (out.answer != Raised && turn in s.turns ==>
                  out.s.turns == s.turns[turn := s.turns[turn].(state := TurnCompleted, outcome := Some(outcome), checkpoint := Cp3)])
            && (turn !in s.turns ==> out.s.turns == s.turns)
            && (out.answer != Raised && action in s.actions ==>
                  forall attempt :: AcceptResult(out.s, action, attempt).answer == IgnoredLate)
  {
  }

  /** An interrupted turn is cancelled with its outcome, its action takes no result any more, and the requests against it are ready. */
  lemma InterruptEndsTheTurn(s: State, turn: Id, action: Id, outcome: Id)
    ensures var s' := TerminalizeForInterrupt(s, turn, action, outcome);
            && (turn in s.turns ==>
                  s'.turns == s.turns[turn := s.turns[turn].(state := TurnCancelled, outcome := Some(outcome), checkpoint := Cp3)])
            && (turn !in s.turns ==> s'.turns == s.turns)
            && (action in s.actions ==> forall attempt :: AcceptResult(s', action, attempt).answer == IgnoredLate)
            && (forall i | i in s.queues.interrupts && s.queues.interrupts[i].turn == turn :: s'.queues.interrupts[i].ready)
            && (forall i | i in s.queues.interrupts && s.queues.interrupts[i].turn != turn :: s'.queues.interrupts[i] == s.queues.interrupts[i])
  {
  }

  /** A known turn and action commit the text once: the first time, for a turn and an action that have none yet. */
  lemma CanonicalizeCommitsOnce(s: State, turn: Id, action: Id, delivery: Id, prefix: Id, outcome: Id)
    requires turn in s.turns && action in s.actions
    ensures var out := Canonicalize(s, turn, action, delivery, prefix, outcome);
            var first := turn !in s.assistants && forall t | t in s.assistants :: s.assistants[t].action != action;
            && out.answer == Committed(first)
            && (first ==> out.s.assistants == s.assistants[turn := AssistantRow(action, prefix, outcome)])
            && (!first ==> out.s.assistants == s.assistants)
            && (delivery !in s.deliveries && (forall d | d in s.deliveries :: s.deliveries[d].action != action) ==>
                  out.s.deliveries == s.deliveries[delivery := Delivery(action, prefix)])
  {
  }

  // ---- queues --------------------------------------------------------------------------------------------

  ghost predicate JobsAreSingle(s: State) {
    forall p, q | p in s.queues.projections && q in s.queues.projections
                  && s.queues.projections[p].turn == s.queues.projections[q].turn
                  && s.queues.projections[p].kind == s.queues.projections[q].kind :: p == q
  }

  lemma StepKeepsJobs(s: State, call: Call)
    requires JobsAreSingle(s)
    ensures JobsAreSingle(Apply(s, call).s)
  {
    if !call.DoEnqueue? && !call.DoProject? { OtherCallsKeepJobs(s, call); }
  }

  lemma OtherCallsKeepJobs(s: State, call: Call)
    requires !call.DoEnqueue? && !call.DoProject?
    ensures Apply(s, call).s.queues.projections == s.queues.projections
  {
  }

  /** In every reachable state a turn has at most one job of a type, done or waiting. */
  lemma {:induction false} ReachableJobs(calls: seq<Call>)
    ensures JobsAreSingle(Run(FRESH, calls))
  {
    if calls != [] {
      ReachableJobs(calls[..|calls| - 1]);
      StepKeepsJobs(Run(FRESH, calls[..|calls| - 1]), calls[|calls| - 1]);
    }
  }

  /** A job asked for under a free id waits from then on, unless its turn has one of that type already, which is left as it is. */
  lemma EnqueuedJobWaits(s: State, projection: Id, conversation: Id, turn: Id, kind: Id)
    requires projection !in s.queues.projections
    ensures var s' := EnqueueProjection(s, projection, conversation, turn, kind);
            if exists p :: p in s.queues.projections && s.queues.projections[p].turn == turn && s.queues.projections[p].kind == kind
            then s' == s
            else
              && s'.queues.projections == s.queues.projections[projection := Projection(conversation, turn, kind, true)]
              && forall guarded :: RunProjection(s', projection, guarded).answer == Done <==> !guarded
  {
  }

  /** A job runs exactly when it is known and the guard is free; then it waits no more, and no other job is touched. */
  lemma JobRunsOut(s: State, projection: Id, guarded: bool)
    ensures var out := RunProjection(s, projection, guarded);
            && (out.answer == Done <==> projection in s.queues.projections && !guarded)
            && (out.answer != Done ==> out.s == s)
            && (out.answer == Done ==>
                  && out.s == s.(queues := s.queues.(projections := out.s.queues.projections))
                  && out.s.queues.projections.Keys == s.queues.projections.Keys
                  && out.s.queues.projections[projection] == s.queues.projections[projection].(pending := false)
                  && forall p | p in s.queues.projections && p != projection ::
                       out.s.queues.projections[p] == s.queues.projections[p])
  {
  }

  /** An input is filed once, and the first turn it interrupts is the one it stays with. */
  lemma IngestFilesTheInput(s: State, input: Id, activeTurn: Option<Id>)
    ensures var out := IngestInput(s, input, activeTurn);
            && out.answer == Committed(input !in s.inputs) && out.s.inputs == s.inputs + {input}
            && (activeTurn.Some? ==>
                  && input in out.s.queues.interrupts
                  && out.s.queues.interrupts[input] ==
                       if input in s.queues.interrupts then s.queues.interrupts[input] else Interrupt(activeTurn.value, false))
            && (activeTurn.None? ==> out.s.queues == s.queues)
  {
  }

  ghost predicate InterruptsKept(s: State, s': State) {
    forall i | i in s.queues.interrupts ::
      && i in s'.queues.interrupts && s'.queues.interrupts[i].turn == s.queues.interrupts[i].turn
      && (s.queues.interrupts[i].ready ==> s'.queues.interrupts[i].ready)
  }

  lemma StepKeepsInterrupts(s: State, call: Call)
    ensures InterruptsKept(s, Apply(s, call).s)
  {
    match call
    case DoTerminalize(turn, action, outcome) => InterruptEndsTheTurn(s, turn, action, outcome);
    case DoIngest(input, activeTurn) => IngestFilesTheInput(s, input, activeTurn);
    case _ => OtherCallsKeepInterrupts(s, call);
  }

  lemma OtherCallsKeepInterrupts(s: State, call: Call)
    requires !call.DoIngest? && !call.DoTerminalize?
    ensures Apply(s, call).s.queues.interrupts == s.queues.interrupts
  {
  }

  /** Over any run an interrupt request keeps its turn, and once ready stays ready. */
  lemma {:induction false} InterruptsStay(calls: seq<Call>, i: nat, j: nat)
    requires i <= j <= |calls|
    ensures InterruptsKept(At(calls, i), At(calls, j))
    decreases j
  {
    if i < j {
      InterruptsStay(calls, i, j - 1);
      AtNext(calls, j - 1);
      StepKeepsInterrupts(At(calls, j - 1), calls[j - 1]);
    }
  }
}
