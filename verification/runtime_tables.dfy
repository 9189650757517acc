/** The local runtime's durable tables and each API call as one step that commits or rolls back. */
module RuntimeTables {
  import opened Ordering

  type Id = int

  datatype Option<+T> = None | Some(value: T)

  datatype TurnState = UserCommitted | DecisionCommitted | TurnCompleted | TurnFailed | TurnCancelled
  datatype Checkpoint = Cp0 | Cp1 | Cp2 | Cp3 | Cp3Uncertain | NoCheckpoint

  datatype Turn = Turn(
    conversation: Id, state: TurnState, outcome: Option<Id>, ownerEpoch: nat, currentAction: Option<Id>,
    checkpoint: Checkpoint)

  datatype Moment = Moment(conversation: Id, turn: Id, terminal: bool, focus: Id)

  /** `Word(w)` is any other state word a caller passes to cancel_action. */
  datatype ActionState = Planned | Accepted | Cancelled | Superseded | Terminal | Word(w: Id)

  /** Attempt ids are "action:p<ordinal>". */
  datatype AttemptId = AttemptId(action: Id, ordinal: int)

  datatype Action = Action(
    turn: Id, moment: Option<Id>, state: ActionState, accepted: Option<AttemptId>, ownerEpoch: nat)

  datatype Delivery = Delivery(action: Id, prefix: Id)
  datatype AssistantRow = AssistantRow(action: Id, content: Id, outcome: Id)

  /** Keyed by the input that asks for the interruption. */
  datatype Interrupt = Interrupt(turn: Id, ready: bool)

  datatype Projection = Projection(conversation: Id, turn: Id, kind: Id, pending: bool)

  datatype Queues = Queues(interrupts: map<Id, Interrupt>, projections: map<Id, Projection>)

  /** Locks map a conversation to its moment; assistant rows and user turns are keyed by their UNIQUE turn. */
  datatype State = State(
    epoch: nat, inputs: set<Id>, turns: map<Id, Turn>, userTurns: map<Id, (Id, Id)>, gates: set<Id>,
    moments: map<Id, Moment>, locks: map<Id, Id>, actions: map<Id, Action>, attempts: map<AttemptId, bool>,
    deliveries: map<Id, Delivery>, assistants: map<Id, AssistantRow>, queues: Queues)

  const FRESH := State(1, {}, map[], map[], {}, map[], map[], map[], map[], map[], map[], Queues(map[], map[]))

  datatype Answer = Done | Committed(inserted: bool) | AcceptedResult | IgnoredLate | DuplicateIgnored | Attempted(id: AttemptId) | Raised

  datatype Out = Out(s: State, answer: Answer)

  predicate ClosedState(state: ActionState) {
    state.Cancelled? || state.Superseded? || state.Terminal?
  }

  /** Where an injected failure strikes inside CP2. */
  datatype FailPoint = AfterGate | AfterMoment | AfterLock | AfterAction

  function Restart(s: State): State {
    s.(epoch := s.epoch + 1)
  }

  /** INSERT OR IGNORE of the envelope and, against an active turn, of an interrupt request. */
  function IngestInput(s: State, input: Id, activeTurn: Option<Id>): Out {
    Out(s.(inputs := s.inputs + {input}, queues := WithInterrupt(s.queues, input, activeTurn)),
        Committed(input !in s.inputs))
  }

  function WithInterrupt(q: Queues, input: Id, activeTurn: Option<Id>): Queues {
    if activeTurn.None? || input in q.interrupts then q
    else q.(interrupts := q.interrupts[input := Interrupt(activeTurn.value, false)])
  }

  predicate UserTurnFree(s: State, turn: Id, input: Id, userTurn: Id) {
    turn !in s.userTurns && forall t | t in s.userTurns :: s.userTurns[t].0 != input && s.userTurns[t].1 != userTurn
  }

  function CommitCp0(s: State, turn: Id, conversation: Id, input: Id, userTurn: Id): Out {
    if turn in s.turns || !UserTurnFree(s, turn, input, userTurn) || input !in s.inputs then Out(s, Raised)
    else
      Out(s.(turns := s.turns[turn := Turn(conversation, UserCommitted, None, s.epoch, None, Cp0)],
             userTurns := s.userTurns[turn := (input, userTurn)]), Done)
  }

  datatype Opening = Opening(turn: Id, conversation: Id, gate: Id, moment: Id, focus: Id, action: Id)

  /** Every constraint the CP2 inserts run into. */
  predicate CanOpen(s: State, o: Opening) {
    && o.turn in s.turns && o.gate !in s.gates && o.moment !in s.moments
    && o.conversation !in s.locks && (forall c | c in s.locks :: s.locks[c] != o.moment)
    && o.action !in s.actions
  }

  function Opened(s: State, o: Opening): State
    requires o.turn in s.turns
  {
    s.(gates := s.gates + {o.gate},
       moments := s.moments[o.moment := Moment(o.conversation, o.turn, false, o.focus)],
       locks := s.locks[o.conversation := o.moment],
       actions := s.actions[o.action := Action(o.turn, Some(o.moment), Planned, None, s.epoch)],
       turns := s.turns[o.turn :=
         s.turns[o.turn].(state := DecisionCommitted, checkpoint := Cp2, currentAction := Some(o.action))])
  }

  /** Gate, moment, lock and first action together, or nothing: also when a failure is injected. */
  function CommitCp2Open(s: State, o: Opening, fail: Option<FailPoint>): Out {
    if CanOpen(s, o) && fail.None? then Out(Opened(s, o), Done) else Out(s, Raised)
  }

  function ReleaseLock(s: State, moment: Id): Out {
    if moment !in s.moments then Out(s, Raised)
    else
      Out(s.(moments := s.moments[moment := s.moments[moment].(terminal := true)],
             locks := map c | c in s.locks && s.locks[c] != moment :: s.locks[c]), Done)
  }

  function Ordinals(s: State, action: Id): set<int> {
    set a | a in s.attempts && a.action == action :: a.ordinal
  }

  /** COALESCE(MAX(ordinal), 0) */
  ghost predicate IsMaxOrdinal(s: State, action: Id, n: int) {
    && (forall o | o in Ordinals(s, action) :: o <= n)
    && (if Ordinals(s, action) == {} then n == 0 else n in Ordinals(s, action))
  }

  /** `n` is the largest ordinal the query found. */
  function CreateAttempt(s: State, action: Id, n: int): Out {
    if action !in s.actions || AttemptId(action, n + 1) in s.attempts then Out(s, Raised)
    else Out(s.(attempts := s.attempts[AttemptId(action, n + 1) := false]), Attempted(AttemptId(action, n + 1)))
  }

  function Marked(attempts: map<AttemptId, bool>, attempt: Option<AttemptId>): map<AttemptId, bool> {
    if attempt.Some? && attempt.value in attempts then attempts[attempt.value := true] else attempts
  }

  /** A caller may pass any attempt id; None is the empty word, which marks nothing as accepted. */
  function AcceptResult(s: State, action: Id, attempt: Option<AttemptId>): Out {
    if action !in s.actions then Out(s, Raised)
    else if ClosedState(s.actions[action].state) then Out(s, IgnoredLate)
    else if s.actions[action].accepted.Some? then Out(s, DuplicateIgnored)
    else
      Out(s.(actions := s.actions[action := s.actions[action].(accepted := attempt, state := Accepted)],
             attempts := Marked(s.attempts, attempt)), AcceptedResult)
  }

  /** UPDATE generation_action SET state = ? */
  function WithState(actions: map<Id, Action>, action: Id, state: ActionState): map<Id, Action> {
    if action in actions then actions[action := actions[action].(state := state)] else actions
  }

  /** UPDATE turn_record SET state = ?, outcome = ?, checkpoint = 'CP3' */
  function Ended(turns: map<Id, Turn>, turn: Id, state: TurnState, outcome: Id): map<Id, Turn> {
    if turn in turns then turns[turn := turns[turn].(state := state, outcome := Some(outcome), checkpoint := Cp3)]
    else turns
  }

  function CancelAction(s: State, action: Id, state: ActionState): State {
    s.(actions := WithState(s.actions, action, state))
  }

  predicate DeliveryFree(deliveries: map<Id, Delivery>, delivery: Id, action: Id) {
    delivery !in deliveries && forall d | d in deliveries :: deliveries[d].action != action
  }

  predicate AnswerFree(assistants: map<Id, AssistantRow>, turn: Id, action: Id) {
    turn !in assistants && forall t | t in assistants :: assistants[t].action != action
  }

  /** INSERT OR IGNORE: a duplicate delivery or answer is skipped silently. */
  function WithDelivery(deliveries: map<Id, Delivery>, delivery: Id, row: Delivery): map<Id, Delivery> {
    if DeliveryFree(deliveries, delivery, row.action) then deliveries[delivery := row] else deliveries
  }

  function WithAnswer(assistants: map<Id, AssistantRow>, turn: Id, row: AssistantRow): map<Id, AssistantRow> {
    if AnswerFree(assistants, turn, row.action) then assistants[turn := row] else assistants
  }

  /** OR IGNORE does not forgive a missing parent row. */
  predicate MissesParent(s: State, turn: Id, action: Id, delivery: Id) {
    || (DeliveryFree(s.deliveries, delivery, action) && action !in s.actions)
    || (AnswerFree(s.assistants, turn, action) && (action !in s.actions || turn !in s.turns))
  }

  function Canonicalize(s: State, turn: Id, action: Id, delivery: Id, prefix: Id, outcome: Id): Out {
    if MissesParent(s, turn, action, delivery) then Out(s, Raised)
    else
      Out(s.(deliveries := WithDelivery(s.deliveries, delivery, Delivery(action, prefix)),
             assistants := WithAnswer(s.assistants, turn, AssistantRow(action, prefix, outcome)),
             turns := Ended(s.turns, turn, TurnCompleted, outcome),
             actions := WithState(s.actions, action, Terminal)),
          Committed(AnswerFree(s.assistants, turn, action)))
  }

  /** UPDATE interrupt_request SET status = 'HANDOFF_READY' WHERE active_turn_id = ? */
  function HandedOff(q: Queues, turn: Id): Queues {
    q.(interrupts := map i | i in q.interrupts :: q.interrupts[i].(ready := q.interrupts[i].ready || q.interrupts[i].turn == turn))
  }

  function TerminalizeForInterrupt(s: State, turn: Id, action: Id, outcome: Id): State {
    s.(actions := WithState(s.actions, action, Superseded), turns := Ended(s.turns, turn, TurnCancelled, outcome),
       queues := HandedOff(s.queues, turn))
  }

  /** INSERT OR IGNORE, one job per turn and type. */
  function WithProjection(q: Queues, projection: Id, row: Projection): Queues {
    if projection in q.projections
       || exists p | p in q.projections :: q.projections[p].turn == row.turn && q.projections[p].kind == row.kind
    then q
    else q.(projections := q.projections[projection := row])
  }

  function EnqueueProjection(s: State, projection: Id, conversation: Id, turn: Id, kind: Id): State {
    s.(queues := WithProjection(s.queues, projection, Projection(conversation, turn, kind, true)))
  }

  function Projected(q: Queues, projection: Id): Queues
    requires projection in q.projections
  {
    q.(projections := q.projections[projection := q.projections[projection].(pending := false)])
  }

  /** `guarded`: the conversation's guard is held. */
  function RunProjection(s: State, projection: Id, guarded: bool): Out {
    if projection !in s.queues.projections || guarded then Out(s, Raised)
    else Out(s.(queues := Projected(s.queues, projection)), Done)
  }

  // ---- runs --------------------------------------------------------------------------

  datatype Call =
    | DoRestart
    | DoIngest(input: Id, activeTurn: Option<Id>)
    | DoCp0(turn: Id, conversation: Id, input: Id, userTurn: Id)
    | DoCp2(o: Opening, fail: Option<FailPoint>)
    | DoRelease(moment: Id)
    | DoAttempt(action: Id)
    | DoAccept(action: Id, attempt: Option<AttemptId>)
    | DoCancel(action: Id, state: ActionState)
    | DoCanonicalize(turn: Id, action: Id, delivery: Id, prefix: Id, outcome: Id)
    | DoTerminalize(turn: Id, action: Id, outcome: Id)
    | DoEnqueue(projection: Id, conversation: Id, turn: Id, kind: Id)
    | DoProject(projection: Id, guarded: bool)

  lemma MaxOrdinalExists(s: State, action: Id)
    ensures exists n :: IsMaxOrdinal(s, action, n)
  {
    if Ordinals(s, action) == {} {
      assert IsMaxOrdinal(s, action, 0);
    } else {
      var n := MaxOf(Ordinals(s, action));
      assert IsMaxOrdinal(s, action, n);
    }
  }

  lemma MaxOf(s: set<int>) returns (n: int)
    requires s != {}
    ensures n in s && forall o | o in s :: o <= n
  {
    n := Pick(s);
    var rest := s - {n};
    assert forall o | o in s :: o == n || o in rest;
    if rest != {} {
      var m := MaxOf(rest);
      if m > n { n := m; }
    }
  }

  ghost function MaxOrdinal(s: State, action: Id): (n: int)
    ensures IsMaxOrdinal(s, action, n)
  {
    MaxOrdinalExists(s, action);
    var n :| IsMaxOrdinal(s, action, n); n
  }

  ghost function Apply(s: State, call: Call): Out {
    match call
    case DoRestart => Out(Restart(s), Done)
    case DoIngest(input, activeTurn) => IngestInput(s, input, activeTurn)
    case DoCp0(turn, conversation, input, userTurn) => CommitCp0(s, turn, conversation, input, userTurn)
    case DoCp2(o, fail) => CommitCp2Open(s, o, fail)
    case DoRelease(moment) => ReleaseLock(s, moment)
    case DoAttempt(action) => CreateAttempt(s, action, MaxOrdinal(s, action))
    case DoAccept(action, attempt) => AcceptResult(s, action, attempt)
    case DoCancel(action, state) => Out(CancelAction(s, action, state), Done)
    case DoCanonicalize(turn, action, delivery, prefix, outcome) => Canonicalize(s, turn, action, delivery, prefix, outcome)
    case DoTerminalize(turn, action, outcome) => Out(TerminalizeForInterrupt(s, turn, action, outcome), Done)
    case DoEnqueue(projection, conversation, turn, kind) => Out(EnqueueProjection(s, projection, conversation, turn, kind), Done)
    case DoProject(projection, guarded) => RunProjection(s, projection, guarded)
  }

  ghost function Run(s: State, calls: seq<Call>): State {
    if calls == [] then s else Apply(Run(s, calls[..|calls| - 1]), calls[|calls| - 1]).s
  }

  ghost function At(calls: seq<Call>, i: nat): State
    requires i <= |calls|
  {
    Run(FRESH, calls[..i])
  }

  lemma AtNext(calls: seq<Call>, i: nat)
    requires i < |calls|
    ensures At(calls, i + 1) == Apply(At(calls, i), calls[i]).s
  {
    assert calls[..i + 1][..i] == calls[..i];
  }
}
