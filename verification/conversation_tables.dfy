// The durable conversation core as tables, and every write unit of the store as one
// atomic step on those tables.
//
// Rows are keyed by the column the store looks them up by: `user_turn`, `turn_record`
// and `assistant_turn` all carry a UNIQUE turn_id, so each is a map from turn ids.
// Ids and instants are integers: opaque, but ordered, because two reads sort by them.
module ConversationTables {

  type Id = int
  type Instant = int

  datatype Option<+T> = None | Some(value: T)

  datatype TurnStatus =
    | Received | UserCommitted | Analyzing | Deciding | Generating | Delivering
    | DeliveryTerminal | Postprocessing | Completed | CancelledByUser
    | FailedRecoverable | FailedFinal

  predicate Terminal(status: TurnStatus) {
    status.Completed? || status.CancelledByUser? || status.FailedFinal?
  }

  datatype TurnOutcome =
    | RepliedFull | RepliedPartial | NoAssistantOutput | CancelledOutcome | FailedUserVisible

  /** The coordination status each outcome ends in. */
  function TerminalStatus(outcome: TurnOutcome): TurnStatus {
    match outcome
    case CancelledOutcome => CancelledByUser
    case FailedUserVisible => FailedFinal
    case _ => Completed
  }

  datatype DeliveryState = NotSent | Sending | SentPartial | SentComplete | Failed | Cancelled

  predicate Canonical(state: DeliveryState) {
    state.SentPartial? || state.SentComplete?
  }

  datatype ConversationStatus = Active | Closed

  datatype Conversation = Conversation(
    persona: Option<Id>, scene: Option<Id>, status: ConversationStatus,
    nextTurn: int, nextMessage: int)

  datatype Envelope = Envelope(
    clientMessage: Option<Id>, conversation: Id, persona: Option<Id>, scene: Option<Id>,
    rawPayload: string, receivedAt: Instant)

  datatype UserTurn = UserTurn(
    userTurnId: Id, conversation: Id, turnSequence: int, messageSequence: int, input: Id,
    clientMessage: Option<Id>, rawContent: string, normalizedContent: Option<string>)

  datatype AssistantTurn = AssistantTurn(
    assistantTurnId: Id, conversation: Id, turnSequence: int, messageSequence: int,
    action: Id, content: string, deliveryState: DeliveryState)

  datatype TurnRecord = TurnRecord(
    conversation: Id, turnSequence: int, input: Id, status: TurnStatus, runtimeVersion: string,
    startedAt: Instant, updatedAt: Instant, terminalAt: Option<Instant>,
    outcome: Option<TurnOutcome>, ownerEpoch: nat, stateVersion: int)

  /** One snapshot of app.db. `newestEpoch` is MAX(epoch), and 0 while runtime_epoch is empty. */
  datatype Tables = Tables(
    newestEpoch: nat,
    conversations: map<Id, Conversation>,
    envelopes: map<Id, Envelope>,
    userTurns: map<Id, UserTurn>,
    turnRecords: map<Id, TurnRecord>,
    assistantTurns: map<Id, AssistantTurn>)

  const EMPTY := Tables(0, map[], map[], map[], map[], map[])

  datatype ErrorCode = NotFound | ValidationFailed | Conflict | AuthorityViolation

  /** `Stale` is the raised StaleStoreEpochError; every other answer is a returned value. */
  datatype Reply<+T> = Ok(value: T) | Err(code: ErrorCode) | Stale

  datatype Out<+T> = Out(db: Tables, reply: Reply<T>)

  datatype Cp0Commit = Cp0Commit(
    turn: Id, input: Id, userTurnId: Id, turnSequence: int, messageSequence: int,
    ownerEpoch: nat, stateVersion: int)

  /** A CP0 command with its turn ids already settled (supplied by the caller, or minted). */
  datatype CommitCommand = CommitCommand(
    conversation: Id, input: Id, envelope: Envelope, rawContent: string,
    normalizedContent: Option<string>, runtimeVersion: string, turn: Id, userTurnId: Id)

  datatype Draft = Draft(
    assistantTurnId: Id, action: Id, content: string, deliveryState: DeliveryState)

  // ---- lookups -------------------------------------------------------------

  predicate Current(db: Tables, fence: nat) {
    db.newestEpoch != 0 && db.newestEpoch == fence
  }

  predicate HasClientMessage(db: Tables, message: Id) {
    exists i :: i in db.envelopes && db.envelopes[i].clientMessage == Some(message)
  }

  ghost function InputOfClientMessage(db: Tables, message: Id): (input: Id)
    requires HasClientMessage(db, message)
    ensures input in db.envelopes && db.envelopes[input].clientMessage == Some(message)
  {
    var i :| i in db.envelopes && db.envelopes[i].clientMessage == Some(message); i
  }

  predicate HasTurnForInput(db: Tables, input: Id) {
    exists t :: t in db.userTurns && t in db.turnRecords && db.userTurns[t].input == input
  }

  ghost function TurnForInput(db: Tables, input: Id): (t: Id)
    requires HasTurnForInput(db, input)
    ensures t in db.userTurns && t in db.turnRecords && db.userTurns[t].input == input
  {
    var t :| t in db.userTurns && t in db.turnRecords && db.userTurns[t].input == input; t
  }

  predicate UserTurnIdUsed(db: Tables, userTurnId: Id) {
    exists t :: t in db.userTurns && db.userTurns[t].userTurnId == userTurnId
  }

  predicate AssistantTurnIdUsed(db: Tables, assistantTurnId: Id) {
    exists t :: t in db.assistantTurns && db.assistantTurns[t].assistantTurnId == assistantTurnId
  }

  // ---- write units ---------------------------------------------------------

  function OpenEpoch(db: Tables): Tables {
    db.(newestEpoch := db.newestEpoch + 1)
  }

  function OpenConversation(db: Tables, c: Id, persona: Option<Id>, scene: Option<Id>): Tables {
    if c in db.conversations then db
    else db.(conversations := db.conversations[c := Conversation(persona, scene, Active, 1, 1)])
  }

  function BindPersona(db: Tables, fence: nat, c: Id, persona: Id): Out<bool> {
    if !Current(db, fence) then Out(db, Stale)
    else if c !in db.conversations then Out(db, Err(NotFound))
    else if db.conversations[c].persona.Some? then Out(db, Ok(false))
    else
      Out(db.(conversations := db.conversations[c := db.conversations[c].(persona := Some(persona))]), Ok(true))
  }

  /** The insert half of ingest: one transaction under the table's constraints. */
  function InsertEnvelope(db: Tables, input: Id, envelope: Envelope): Out<Id> {
    if || input in db.envelopes
       || (envelope.clientMessage.Some? && HasClientMessage(db, envelope.clientMessage.value))
       || envelope.conversation !in db.conversations
    then Out(db, Err(Conflict))
    else Out(db.(envelopes := db.envelopes[input := envelope]), Ok(input))
  }

  ghost function Ingest(db: Tables, input: Id, envelope: Envelope): Out<Id> {
    if envelope.clientMessage.Some? && HasClientMessage(db, envelope.clientMessage.value)
    then Out(db, Ok(InputOfClientMessage(db, envelope.clientMessage.value)))
    else InsertEnvelope(db, input, envelope)
  }

  /** The durable input a command speaks for: the first envelope with its client message, if any. */
  ghost function WinningInput(db: Tables, cmd: CommitCommand): Id {
    if cmd.envelope.clientMessage.Some? && HasClientMessage(db, cmd.envelope.clientMessage.value)
    then InputOfClientMessage(db, cmd.envelope.clientMessage.value)
    else cmd.input
  }

  ghost function CommitOf(db: Tables, input: Id): Cp0Commit
    requires HasTurnForInput(db, input)
  {
    var t := TurnForInput(db, input);
    var u, r := db.userTurns[t], db.turnRecords[t];
    Cp0Commit(t, input, u.userTurnId, u.turnSequence, u.messageSequence, r.ownerEpoch, r.stateVersion)
  }

  /** A first CP0 for `input`: every row of the unit at once. */
  function Cp0Write(db: Tables, fence: nat, cmd: CommitCommand, input: Id, now: Instant): Tables
    requires cmd.conversation in db.conversations
  {
    var conv := db.conversations[cmd.conversation];
    db.(envelopes :=
          if input in db.envelopes then db.envelopes
          else db.envelopes[input := cmd.envelope.(conversation := cmd.conversation)],
        userTurns := db.userTurns[cmd.turn :=
          UserTurn(cmd.userTurnId, cmd.conversation, conv.nextTurn, conv.nextMessage, input,
                   cmd.envelope.clientMessage, cmd.rawContent, cmd.normalizedContent)],
        turnRecords := db.turnRecords[cmd.turn :=
          TurnRecord(cmd.conversation, conv.nextTurn, input, UserCommitted, cmd.runtimeVersion,
                     now, now, None, None, fence, 1)],
        conversations := db.conversations[cmd.conversation :=
          conv.(nextTurn := conv.nextTurn + 1, nextMessage := conv.nextMessage + 1)])
  }

  ghost function CommitUserTurn(db: Tables, fence: nat, cmd: CommitCommand, now: Instant): Out<Cp0Commit> {
    if !Current(db, fence) then Out(db, Stale)
    else if cmd.conversation !in db.conversations then Out(db, Err(NotFound))
    else if db.conversations[cmd.conversation].status.Closed? then Out(db, Err(ValidationFailed))
    else
      var input := WinningInput(db, cmd);
      if HasTurnForInput(db, input) then Out(db, Ok(CommitOf(db, input)))
      else if || cmd.turn in db.userTurns || cmd.turn in db.turnRecords
              || UserTurnIdUsed(db, cmd.userTurnId)
      then Out(db, Err(Conflict))
      else
        var conv := db.conversations[cmd.conversation];
        Out(Cp0Write(db, fence, cmd, input, now),
            Ok(Cp0Commit(cmd.turn, input, cmd.userTurnId, conv.nextTurn, conv.nextMessage, fence, 1)))
  }

  /** Replace one turn record under its own version. */
  function PutRecord(db: Tables, turn: Id, record: TurnRecord): Out<TurnRecord> {
    Out(db.(turnRecords := db.turnRecords[turn := record]), Ok(record))
  }

  function TransitionTurn(db: Tables, fence: nat, turn: Id, expected: int, status: TurnStatus, now: Instant)
    : Out<TurnRecord>
  {
    if Terminal(status) then Out(db, Err(ValidationFailed))
    else if !Current(db, fence) then Out(db, Stale)
    else if turn !in db.turnRecords then Out(db, Err(NotFound))
    else
      var r := db.turnRecords[turn];
      if r.ownerEpoch != fence then Out(db, Err(AuthorityViolation))
      else if Terminal(r.status) then Out(db, Err(ValidationFailed))
      else if r.stateVersion != expected then Out(db, Err(Conflict))
      else PutRecord(db, turn, r.(status := status, stateVersion := r.stateVersion + 1, updatedAt := now))
  }

  function TerminalizeTurn(db: Tables, fence: nat, turn: Id, outcome: TurnOutcome, now: Instant)
    : Out<TurnRecord>
  {
    if !Current(db, fence) then Out(db, Stale)
    else if turn !in db.turnRecords then Out(db, Err(NotFound))
    else
      var r := db.turnRecords[turn];
      if r.ownerEpoch != fence then Out(db, Err(AuthorityViolation))
      else if Terminal(r.status) then Out(db, Err(ValidationFailed))
      else PutRecord(db, turn,
                     r.(status := TerminalStatus(outcome), outcome := Some(outcome), terminalAt := Some(now),
                        updatedAt := now, stateVersion := r.stateVersion + 1))
  }

  function ClaimTurn(db: Tables, fence: nat, turn: Id, now: Instant): Out<TurnRecord> {
    if turn !in db.turnRecords then Out(db, Err(NotFound))
    else
      var r := db.turnRecords[turn];
      if Terminal(r.status) || r.ownerEpoch == fence then Out(db, Ok(r))
      else if !Current(db, fence) then Out(db, Stale)
      else PutRecord(db, turn, r.(ownerEpoch := fence, stateVersion := r.stateVersion + 1, updatedAt := now))
  }

  /** A first canonicalization: the assistant row and the counter bump at once. */
  function AnswerWrite(db: Tables, turn: Id, draft: Draft): Tables
    requires turn in db.userTurns && db.userTurns[turn].conversation in db.conversations
  {
    var u := db.userTurns[turn];
    var conv := db.conversations[u.conversation];
    db.(assistantTurns := db.assistantTurns[turn :=
          AssistantTurn(draft.assistantTurnId, u.conversation, u.turnSequence, conv.nextMessage,
                        draft.action, draft.content, draft.deliveryState)],
        conversations := db.conversations[u.conversation := conv.(nextMessage := conv.nextMessage + 1)])
  }

  function CanonicalizeTurn(db: Tables, fence: nat, turn: Id, draft: Draft): Out<Id> {
    if !Canonical(draft.deliveryState) then Out(db, Err(ValidationFailed))
    else if !Current(db, fence) then Out(db, Stale)
    else if turn !in db.turnRecords then Out(db, Err(NotFound))
    else if db.turnRecords[turn].ownerEpoch != fence then Out(db, Err(AuthorityViolation))
    else if turn in db.assistantTurns then Out(db, Ok(db.assistantTurns[turn].assistantTurnId))
    else if turn !in db.userTurns || db.userTurns[turn].conversation !in db.conversations
      then Out(db, Err(NotFound))
    else if AssistantTurnIdUsed(db, draft.assistantTurnId) then Out(db, Err(Conflict))
    else Out(AnswerWrite(db, turn, draft), Ok(draft.assistantTurnId))
  }

  // ---- runs ----------------------------------------------------------------

  datatype Op =
    | OpOpenConversation(c: Id, persona: Option<Id>, scene: Option<Id>)
    | OpBindPersona(c: Id, p: Id)
    | OpIngest(input: Id, envelope: Envelope)
    | OpInsertEnvelope(input: Id, envelope: Envelope)  // an ingest whose lookup ran before other steps
    | OpCommit(cmd: CommitCommand, now: Instant)
    | OpTransition(turn: Id, expected: int, status: TurnStatus, now: Instant)
    | OpTerminalize(turn: Id, outcome: TurnOutcome, now: Instant)
    | OpClaim(turn: Id, now: Instant)
    | OpCanonicalize(turn: Id, draft: Draft)

  /** Either a process starts (a new epoch), or some store, of whatever epoch, makes one call. */
  datatype Event = EpochOpened | Call(fence: nat, op: Op)

  ghost function Apply(db: Tables, event: Event): Tables {
    match event
    case EpochOpened => OpenEpoch(db)
    case Call(fence, op) =>
      match op
      case OpOpenConversation(c, persona, scene) => OpenConversation(db, c, persona, scene)
      case OpBindPersona(c, p) => BindPersona(db, fence, c, p).db
      case OpIngest(input, envelope) => Ingest(db, input, envelope).db
      case OpInsertEnvelope(input, envelope) => InsertEnvelope(db, input, envelope).db
      case OpCommit(cmd, now) => CommitUserTurn(db, fence, cmd, now).db
      case OpTransition(turn, expected, status, now) => TransitionTurn(db, fence, turn, expected, status, now).db
      case OpTerminalize(turn, outcome, now) => TerminalizeTurn(db, fence, turn, outcome, now).db
      case OpClaim(turn, now) => ClaimTurn(db, fence, turn, now).db
      case OpCanonicalize(turn, draft) => CanonicalizeTurn(db, fence, turn, draft).db
  }

  ghost function Run(db: Tables, events: seq<Event>): Tables {
    if events == [] then db else Apply(Run(db, events[..|events| - 1]), events[|events| - 1])
  }

  lemma RunExtends(db: Tables, events: seq<Event>, i: nat)
    requires i < |events|
    ensures Run(db, events[..i + 1]) == Apply(Run(db, events[..i]), events[i])
  {
    assert events[..i + 1][..i] == events[..i];
  }

  lemma {:induction false} RunSplits(db: Tables, front: seq<Event>, back: seq<Event>)
    ensures Run(db, front + back) == Run(Run(db, front), back)
  {
    if back == [] {
      assert front + back == front;
    } else {
      var init := back[..|back| - 1];
      assert (front + back)[..|front + back| - 1] == front + init;
      RunSplits(db, front, init);
    }
  }
}
