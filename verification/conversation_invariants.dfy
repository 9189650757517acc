// What every write unit keeps: the two interleaved counters hand out each number once, turns
// and their transcript rows stay linked, an input owns at most one turn, and ownership never
// runs ahead of the newest epoch.
module ConversationInvariants {
  import opened ConversationTables

  /** Turn ids of a conversation's user and assistant rows. */
  function UsersOf(db: Tables, c: Id): set<Id> {
    set t | t in db.userTurns && db.userTurns[t].conversation == c
  }

  function AssistantsOf(db: Tables, c: Id): set<Id> {
    set t | t in db.assistantTurns && db.assistantTurns[t].conversation == c
  }

  function TurnNumbers(db: Tables, c: Id): set<int> {
    set t | t in UsersOf(db, c) :: db.userTurns[t].turnSequence
  }

  function MessageNumbers(db: Tables, c: Id): set<int> {
    (set t | t in UsersOf(db, c) :: db.userTurns[t].messageSequence) +
    (set t | t in AssistantsOf(db, c) :: db.assistantTurns[t].messageSequence)
  }

  /** The foreign keys, and the one user row per turn record. */
  ghost predicate Linked(db: Tables) {
    && db.userTurns.Keys == db.turnRecords.Keys
    && (forall t :: t in db.userTurns ==>
          && db.userTurns[t].conversation in db.conversations
          && db.userTurns[t].input in db.envelopes
          && db.turnRecords[t].conversation == db.userTurns[t].conversation
          && db.turnRecords[t].turnSequence == db.userTurns[t].turnSequence
          && db.turnRecords[t].input == db.userTurns[t].input)
    && (forall t :: t in db.assistantTurns ==>
          && t in db.userTurns
          && db.assistantTurns[t].conversation == db.userTurns[t].conversation
          && db.assistantTurns[t].turnSequence == db.userTurns[t].turnSequence
          && db.userTurns[t].messageSequence < db.assistantTurns[t].messageSequence)
    && (forall i :: i in db.envelopes ==> db.envelopes[i].conversation in db.conversations)
  }

  /** No number is used twice. */
  ghost predicate Distinct(db: Tables) {
    && (forall t, t' | t in db.userTurns && t' in db.userTurns && t != t' ::
          SameTalk(db.userTurns[t], db.userTurns[t']) ==>
            && db.userTurns[t].turnSequence != db.userTurns[t'].turnSequence
            && db.userTurns[t].messageSequence != db.userTurns[t'].messageSequence)
    && (forall t, t' | t in db.assistantTurns && t' in db.assistantTurns && t != t' ::
          db.assistantTurns[t].conversation == db.assistantTurns[t'].conversation ==>
            && db.assistantTurns[t].turnSequence != db.assistantTurns[t'].turnSequence
            && db.assistantTurns[t].messageSequence != db.assistantTurns[t'].messageSequence)
    && (forall t, t' | t in db.userTurns && t' in db.assistantTurns ::
          db.userTurns[t].conversation == db.assistantTurns[t'].conversation ==>
            db.userTurns[t].messageSequence != db.assistantTurns[t'].messageSequence)
  }

  predicate SameTalk(u: UserTurn, u': UserTurn) {
    u.conversation == u'.conversation
  }

  /** No number is skipped, and the counters count the rows. */
  ghost predicate Dense(db: Tables) {
    forall c :: c in db.conversations ==> DenseAt(db, c)
  }

  ghost predicate DenseAt(db: Tables, c: Id)
    requires c in db.conversations
  {
    && AllUpTo(TurnNumbers(db, c), db.conversations[c].nextTurn)
    && AllUpTo(MessageNumbers(db, c), db.conversations[c].nextMessage)
    && |UsersOf(db, c)| == db.conversations[c].nextTurn - 1
    && |AssistantsOf(db, c)| == db.conversations[c].nextMessage - db.conversations[c].nextTurn
  }

  /** The numbers handed out while the counter rose from 1 to `next`. */
  ghost predicate AllUpTo(numbers: set<int>, next: int) {
    1 <= next && forall s :: s in numbers <==> 1 <= s < next
  }

  lemma AllUpToGrows(numbers: set<int>, next: int)
    requires AllUpTo(numbers, next)
    ensures AllUpTo(numbers + {next}, next + 1)
  {
  }

  ghost predicate OneTurnPerInput(db: Tables) {
    forall t, t' | t in db.userTurns && t' in db.userTurns ::
      db.userTurns[t].input == db.userTurns[t'].input ==> t == t'
  }

  ghost predicate OneRowPerUserTurnId(db: Tables) {
    forall t, t' | t in db.userTurns && t' in db.userTurns ::
      db.userTurns[t].userTurnId == db.userTurns[t'].userTurnId ==> t == t'
  }

  ghost predicate OneRowPerAssistantTurnId(db: Tables) {
    forall t, t' | t in db.assistantTurns && t' in db.assistantTurns ::
      db.assistantTurns[t].assistantTurnId == db.assistantTurns[t'].assistantTurnId ==> t == t'
  }

  ghost predicate OneEnvelopePerClientMessage(db: Tables) {
    forall i, i' | i in db.envelopes && i' in db.envelopes && db.envelopes[i].clientMessage.Some? ::
      db.envelopes[i].clientMessage == db.envelopes[i'].clientMessage ==> i == i'
  }

  ghost predicate Deduped(db: Tables) {
    && OneTurnPerInput(db)
    && OneRowPerUserTurnId(db)
    && OneRowPerAssistantTurnId(db)
    && OneEnvelopePerClientMessage(db)
  }

  ghost predicate RecordOk(r: TurnRecord, newestEpoch: nat) {
    && 1 <= r.ownerEpoch <= newestEpoch
    && 1 <= r.stateVersion
    && (Terminal(r.status) <==> r.outcome.Some?)
    && (Terminal(r.status) <==> r.terminalAt.Some?)
    && (r.outcome.Some? ==> r.status == TerminalStatus(r.outcome.value))
  }

  ghost predicate Owned(db: Tables) {
    forall t :: t in db.turnRecords ==> RecordOk(db.turnRecords[t], db.newestEpoch)
  }

  ghost predicate Inv(db: Tables) {
    Linked(db) && Distinct(db) && Dense(db) && Deduped(db) && Owned(db)
  }

  // ---- one step keeps everything --------------------------------------------

  lemma EmptyIsConsistent()
    ensures Inv(EMPTY)
  {
  }

  /** Rows whose transcript tables and counters are untouched keep the sequence facts. */
  lemma SameRowsSameNumbers(db: Tables, db': Tables, c: Id)
    requires db'.userTurns == db.userTurns && db'.assistantTurns == db.assistantTurns
    ensures UsersOf(db', c) == UsersOf(db, c) && AssistantsOf(db', c) == AssistantsOf(db, c)
    ensures TurnNumbers(db', c) == TurnNumbers(db, c) && MessageNumbers(db', c) == MessageNumbers(db, c)
  {
  }

  lemma Cp0Numbers(db: Tables, fence: nat, cmd: CommitCommand, input: Id, now: Instant, c: Id)
    requires Linked(db)
    requires cmd.conversation in db.conversations && cmd.turn !in db.userTurns
    ensures var db', conv := Cp0Write(db, fence, cmd, input, now), db.conversations[cmd.conversation];
            && AssistantsOf(db', c) == AssistantsOf(db, c)
            && (c != cmd.conversation ==>
                  && UsersOf(db', c) == UsersOf(db, c)
                  && TurnNumbers(db', c) == TurnNumbers(db, c)
                  && MessageNumbers(db', c) == MessageNumbers(db, c))
            && (c == cmd.conversation ==>
                  && UsersOf(db', c) == UsersOf(db, c) + {cmd.turn}
                  && TurnNumbers(db', c) == TurnNumbers(db, c) + {conv.nextTurn}
                  && MessageNumbers(db', c) == MessageNumbers(db, c) + {conv.nextMessage})
  {
    var db' := Cp0Write(db, fence, cmd, input, now);
    assert forall t :: t in UsersOf(db, c) ==> db'.userTurns[t] == db.userTurns[t];
    if c == cmd.conversation {
      assert UsersOf(db', c) == UsersOf(db, c) + {cmd.turn};
      assert cmd.turn in UsersOf(db', c);
    } else {
      assert UsersOf(db', c) == UsersOf(db, c);
    }
  }

  lemma AnswerNumbers(db: Tables, turn: Id, draft: Draft, c: Id)
    requires turn in db.userTurns && db.userTurns[turn].conversation in db.conversations
    requires turn !in db.assistantTurns
    ensures var db', u := AnswerWrite(db, turn, draft), db.userTurns[turn];
            && UsersOf(db', c) == UsersOf(db, c)
            && TurnNumbers(db', c) == TurnNumbers(db, c)
            && (c != u.conversation ==>
                  && AssistantsOf(db', c) == AssistantsOf(db, c)
                  && MessageNumbers(db', c) == MessageNumbers(db, c))
            && (c == u.conversation ==>
                  && AssistantsOf(db', c) == AssistantsOf(db, c) + {turn}
                  && MessageNumbers(db', c) == MessageNumbers(db, c) + {db.conversations[c].nextMessage})
  {
    var db', u := AnswerWrite(db, turn, draft), db.userTurns[turn];
    assert forall t :: t in AssistantsOf(db, c) ==> db'.assistantTurns[t] == db.assistantTurns[t];
    if c == u.conversation {
      assert AssistantsOf(db', c) == AssistantsOf(db, c) + {turn};
      assert turn in AssistantsOf(db', c);
    } else {
      assert AssistantsOf(db', c) == AssistantsOf(db, c);
    }
  }

  /** A number at or past the counter is held by no row yet. */
  lemma NextIsFresh(db: Tables, c: Id)
    requires Linked(db) && Dense(db) && c in db.conversations
    ensures forall t :: t in db.userTurns && db.userTurns[t].conversation == c ==>
              && db.userTurns[t].turnSequence < db.conversations[c].nextTurn
              && db.userTurns[t].messageSequence < db.conversations[c].nextMessage
    ensures forall t :: t in db.assistantTurns && db.assistantTurns[t].conversation == c ==>
              db.assistantTurns[t].messageSequence < db.conversations[c].nextMessage
  {
    assert DenseAt(db, c);
    forall t | t in db.userTurns && db.userTurns[t].conversation == c
      ensures db.userTurns[t].turnSequence < db.conversations[c].nextTurn
      ensures db.userTurns[t].messageSequence < db.conversations[c].nextMessage
    {
      assert t in UsersOf(db, c);
      assert db.userTurns[t].turnSequence in TurnNumbers(db, c);
      assert db.userTurns[t].messageSequence in MessageNumbers(db, c);
    }
    forall t | t in db.assistantTurns && db.assistantTurns[t].conversation == c
      ensures db.assistantTurns[t].messageSequence < db.conversations[c].nextMessage
    {
      assert t in AssistantsOf(db, c);
      assert db.assistantTurns[t].messageSequence in MessageNumbers(db, c);
    }
  }

  ghost predicate FirstCp0(db: Tables, fence: nat, cmd: CommitCommand) {
    && Current(db, fence) && cmd.conversation in db.conversations
    && !HasTurnForInput(db, WinningInput(db, cmd))
    && cmd.turn !in db.userTurns && !UserTurnIdUsed(db, cmd.userTurnId)
  }

  lemma Cp0KeepsLinked(db: Tables, fence: nat, cmd: CommitCommand, input: Id, now: Instant)
    requires Linked(db) && cmd.conversation in db.conversations && cmd.turn !in db.userTurns
    ensures Linked(Cp0Write(db, fence, cmd, input, now))
  {
  }

  lemma Cp0KeepsDistinct(db: Tables, fence: nat, cmd: CommitCommand, input: Id, now: Instant)
    requires Linked(db) && Distinct(db) && Dense(db)
    requires cmd.conversation in db.conversations && cmd.turn !in db.userTurns
    ensures Distinct(Cp0Write(db, fence, cmd, input, now))
  {
    NextIsFresh(db, cmd.conversation);
  }

  lemma Cp0KeepsDense(db: Tables, fence: nat, cmd: CommitCommand, input: Id, now: Instant, c: Id)
    requires Linked(db) && cmd.conversation in db.conversations && cmd.turn !in db.userTurns
    requires c in db.conversations && DenseAt(db, c)
    ensures DenseAt(Cp0Write(db, fence, cmd, input, now), c)
  {
    var db' := Cp0Write(db, fence, cmd, input, now);
    Cp0Numbers(db, fence, cmd, input, now, c);
    if c == cmd.conversation { UserKeepsDense(db, db', c, cmd.turn); } else { SameKeepsDense(db, db', c); }
  }

  lemma SameKeepsDense(db: Tables, db': Tables, c: Id)
    requires c in db.conversations && c in db'.conversations && DenseAt(db, c)
    requires UsersOf(db', c) == UsersOf(db, c) && AssistantsOf(db', c) == AssistantsOf(db, c)
    requires TurnNumbers(db', c) == TurnNumbers(db, c) && MessageNumbers(db', c) == MessageNumbers(db, c)
    requires db'.conversations[c].nextTurn == db.conversations[c].nextTurn
    requires db'.conversations[c].nextMessage == db.conversations[c].nextMessage
    ensures DenseAt(db', c)
  {
  }

  /** A user row takes one number of each kind. */
  lemma UserKeepsDense(db: Tables, db': Tables, c: Id, turn: Id)
    requires c in db.conversations && c in db'.conversations && DenseAt(db, c)
    requires turn !in UsersOf(db, c) && UsersOf(db', c) == UsersOf(db, c) + {turn} && AssistantsOf(db', c) == AssistantsOf(db, c)
    requires TurnNumbers(db', c) == TurnNumbers(db, c) + {db.conversations[c].nextTurn}
    requires MessageNumbers(db', c) == MessageNumbers(db, c) + {db.conversations[c].nextMessage}
    requires db'.conversations[c].nextTurn == db.conversations[c].nextTurn + 1
    requires db'.conversations[c].nextMessage == db.conversations[c].nextMessage + 1
    ensures DenseAt(db', c)
  {
    AllUpToGrows(TurnNumbers(db, c), db.conversations[c].nextTurn);
    AllUpToGrows(MessageNumbers(db, c), db.conversations[c].nextMessage);
  }

  /** An answer takes a message number only. */
  lemma AssistantKeepsDense(db: Tables, db': Tables, c: Id, turn: Id)
    requires c in db.conversations && c in db'.conversations && DenseAt(db, c)
    requires turn !in AssistantsOf(db, c) && AssistantsOf(db', c) == AssistantsOf(db, c) + {turn} && UsersOf(db', c) == UsersOf(db, c)
    requires TurnNumbers(db', c) == TurnNumbers(db, c)
    requires MessageNumbers(db', c) == MessageNumbers(db, c) + {db.conversations[c].nextMessage}
    requires db'.conversations[c].nextTurn == db.conversations[c].nextTurn
    requires db'.conversations[c].nextMessage == db.conversations[c].nextMessage + 1
    ensures DenseAt(db', c)
  {
    AllUpToGrows(MessageNumbers(db, c), db.conversations[c].nextMessage);
  }

  lemma Cp0KeepsDeduped(db: Tables, fence: nat, cmd: CommitCommand, now: Instant)
    requires Linked(db) && Deduped(db) && FirstCp0(db, fence, cmd)
    ensures Deduped(Cp0Write(db, fence, cmd, WinningInput(db, cmd), now))
  {
    var input := WinningInput(db, cmd);
    var db' := Cp0Write(db, fence, cmd, input, now);
    assert OneTurnPerInput(db') by {
      assert forall t :: t in db.userTurns ==> t in db.turnRecords;
    }
    assert OneEnvelopePerClientMessage(db') by {
      assert OneEnvelopePerClientMessage(db);
      if input !in db.envelopes && cmd.envelope.clientMessage.Some? {
        assert !HasClientMessage(db, cmd.envelope.clientMessage.value);
      }
    }
  }

  lemma Cp0Keeps(db: Tables, fence: nat, cmd: CommitCommand, now: Instant)
    requires Inv(db) && FirstCp0(db, fence, cmd)
    ensures Inv(Cp0Write(db, fence, cmd, WinningInput(db, cmd), now))
  {
    var input := WinningInput(db, cmd);
    Cp0KeepsLinked(db, fence, cmd, input, now);
    Cp0KeepsDistinct(db, fence, cmd, input, now);
    Cp0KeepsDeduped(db, fence, cmd, now);
    forall c | c in db.conversations ensures DenseAt(Cp0Write(db, fence, cmd, input, now), c) {
      assert DenseAt(db, c);
      Cp0KeepsDense(db, fence, cmd, input, now, c);
    }
  }

  lemma AnswerKeepsLinked(db: Tables, turn: Id, draft: Draft)
    requires Linked(db) && Dense(db) && turn in db.userTurns && turn !in db.assistantTurns
    ensures Linked(AnswerWrite(db, turn, draft))
  {
    var u := db.userTurns[turn];
    assert u.messageSequence < db.conversations[u.conversation].nextMessage by { NextIsFresh(db, u.conversation); }
    LinkedWithAnswer(db, turn, draft);
  }

  lemma LinkedWithAnswer(db: Tables, turn: Id, draft: Draft)
    requires Linked(db) && turn in db.userTurns && turn !in db.assistantTurns
    requires db.userTurns[turn].messageSequence < db.conversations[db.userTurns[turn].conversation].nextMessage
    ensures Linked(AnswerWrite(db, turn, draft))
  {
  }

  lemma AnswerKeepsDistinct(db: Tables, turn: Id, draft: Draft)
    requires Linked(db) && Distinct(db) && Dense(db) && turn in db.userTurns && turn !in db.assistantTurns
    ensures Distinct(AnswerWrite(db, turn, draft))
  {
    NextIsFresh(db, db.userTurns[turn].conversation);
  }

  lemma AnswerKeepsDense(db: Tables, turn: Id, draft: Draft, c: Id)
    requires turn in db.userTurns && turn !in db.assistantTurns && db.userTurns[turn].conversation in db.conversations
    requires c in db.conversations && DenseAt(db, c)
    ensures DenseAt(AnswerWrite(db, turn, draft), c)
  {
    var db' := AnswerWrite(db, turn, draft);
    AnswerNumbers(db, turn, draft, c);
    if c == db.userTurns[turn].conversation { AssistantKeepsDense(db, db', c, turn); } else { SameKeepsDense(db, db', c); }
  }

  lemma AnswerKeepsDeduped(db: Tables, turn: Id, draft: Draft)
    requires turn in db.userTurns && db.userTurns[turn].conversation in db.conversations
    requires Deduped(db) && !AssistantTurnIdUsed(db, draft.assistantTurnId)
    ensures Deduped(AnswerWrite(db, turn, draft))
  {
  }

  lemma AnswerKeeps(db: Tables, turn: Id, draft: Draft)
    requires Inv(db) && turn in db.userTurns && turn !in db.assistantTurns
    requires !AssistantTurnIdUsed(db, draft.assistantTurnId)
    ensures Inv(AnswerWrite(db, turn, draft))
  {
    AnswerKeepsLinked(db, turn, draft);
    AnswerKeepsDistinct(db, turn, draft);
    AnswerKeepsDeduped(db, turn, draft);
    forall c | c in db.conversations { AnswerKeepsDense(db, turn, draft, c); }
  }

  lemma PutRecordKeeps(db: Tables, turn: Id, r': TurnRecord)
    requires Inv(db) && turn in db.turnRecords && RecordOk(r', db.newestEpoch)
    requires var r := db.turnRecords[turn];
             r'.conversation == r.conversation && r'.turnSequence == r.turnSequence && r'.input == r.input
    ensures Inv(PutRecord(db, turn, r').db)
  {
    var db' := PutRecord(db, turn, r').db;
    forall c | c in db'.conversations ensures DenseAt(db', c) {
      assert DenseAt(db, c);
      SameRowsSameNumbers(db, db', c);
    }
  }

  /** Opening a conversation, binding its persona or storing an envelope touches no transcript row. */
  ghost predicate Quiet(db: Tables, db': Tables) {
    && db'.userTurns == db.userTurns && db'.assistantTurns == db.assistantTurns
    && db'.turnRecords == db.turnRecords && db.newestEpoch <= db'.newestEpoch
    && (forall c :: c in db.conversations ==>
          && c in db'.conversations
          && db'.conversations[c].status == db.conversations[c].status
          && db'.conversations[c].nextTurn == db.conversations[c].nextTurn
          && db'.conversations[c].nextMessage == db.conversations[c].nextMessage)
    && (forall c | c in db'.conversations && c !in db.conversations ::
          db'.conversations[c].nextTurn == 1 && db'.conversations[c].nextMessage == 1)
    && (forall i :: i in db.envelopes ==> i in db'.envelopes && db'.envelopes[i] == db.envelopes[i])
    && (forall i | i in db'.envelopes :: db'.envelopes[i].conversation in db'.conversations)
    && OneEnvelopePerClientMessage(db')
  }

  lemma QuietKeeps(db: Tables, db': Tables)
    requires Inv(db) && Quiet(db, db')
    ensures Inv(db')
  {
    forall c | c in db'.conversations ensures DenseAt(db', c) {
      SameRowsSameNumbers(db, db', c);
      if c in db.conversations {
        assert DenseAt(db, c);
      } else {
        NoRowsOf(db, c);
      }
    }
  }

  lemma NoRowsOf(db: Tables, c: Id)
    requires Linked(db) && c !in db.conversations
    ensures UsersOf(db, c) == {} && AssistantsOf(db, c) == {}
  {
    assert forall t :: t !in UsersOf(db, c);
    assert forall t :: t !in AssistantsOf(db, c);
  }

  lemma EnvelopeIsQuiet(db: Tables, input: Id, envelope: Envelope)
    requires Linked(db) && OneEnvelopePerClientMessage(db)
    ensures Quiet(db, InsertEnvelope(db, input, envelope).db)
  {
  }

  lemma TransitionKeeps(db: Tables, fence: nat, turn: Id, expected: int, status: TurnStatus, now: Instant)
    requires Inv(db)
    ensures Inv(TransitionTurn(db, fence, turn, expected, status, now).db)
  {
    var out := TransitionTurn(db, fence, turn, expected, status, now);
    if out.db != db { PutRecordKeeps(db, turn, out.reply.value); }
  }

  lemma TerminalizeKeeps(db: Tables, fence: nat, turn: Id, outcome: TurnOutcome, now: Instant)
    requires Inv(db)
    ensures Inv(TerminalizeTurn(db, fence, turn, outcome, now).db)
  {
    var out := TerminalizeTurn(db, fence, turn, outcome, now);
    if out.db != db { PutRecordKeeps(db, turn, out.reply.value); }
  }

  lemma ClaimKeeps(db: Tables, fence: nat, turn: Id, now: Instant)
    requires Inv(db)
    ensures Inv(ClaimTurn(db, fence, turn, now).db)
  {
    var out := ClaimTurn(db, fence, turn, now);
    if out.db != db { PutRecordKeeps(db, turn, out.reply.value); }
  }

  lemma RecordStepKeeps(db: Tables, fence: nat, op: Op)
    requires Inv(db) && (op.OpTransition? || op.OpTerminalize? || op.OpClaim?)
    ensures Inv(Apply(db, Call(fence, op)))
  {
    match op {
      case OpTransition(turn, expected, status, now) => TransitionKeeps(db, fence, turn, expected, status, now);
      case OpTerminalize(turn, outcome, now) => TerminalizeKeeps(db, fence, turn, outcome, now);
      case OpClaim(turn, now) => ClaimKeeps(db, fence, turn, now);
    }
  }

  lemma EpochKeeps(db: Tables)
    requires Inv(db)
    ensures Inv(OpenEpoch(db))
  {
    QuietKeeps(db, OpenEpoch(db));
  }

  predicate Quietly(event: Event) {
    event.EpochOpened? || event.op.OpOpenConversation? || event.op.OpBindPersona?
    || event.op.OpIngest? || event.op.OpInsertEnvelope?
  }

  lemma ConversationIsQuiet(db: Tables, c: Id, persona: Option<Id>, scene: Option<Id>)
    requires Linked(db) && OneEnvelopePerClientMessage(db)
    ensures Quiet(db, OpenConversation(db, c, persona, scene))
  {
  }

  lemma PersonaIsQuiet(db: Tables, fence: nat, c: Id, persona: Id)
    requires Linked(db) && OneEnvelopePerClientMessage(db)
    ensures Quiet(db, BindPersona(db, fence, c, persona).db)
  {
  }

  lemma QuietStep(db: Tables, event: Event)
    requires Inv(db) && Quietly(event)
    ensures Quiet(db, Apply(db, event))
  {
    if event.EpochOpened? {
    } else if event.op.OpOpenConversation? {
      ConversationIsQuiet(db, event.op.c, event.op.persona, event.op.scene);
    } else if event.op.OpBindPersona? {
      PersonaIsQuiet(db, event.fence, event.op.c, event.op.p);
    } else {
      EnvelopeIsQuiet(db, event.op.input, event.op.envelope);
    }
  }

  lemma CommitKeeps(db: Tables, fence: nat, cmd: CommitCommand, now: Instant)
    requires Inv(db)
    ensures Inv(CommitUserTurn(db, fence, cmd, now).db)
  {
    if CommitUserTurn(db, fence, cmd, now).db != db { Cp0Keeps(db, fence, cmd, now); }
  }

  lemma TranscriptStepKeeps(db: Tables, fence: nat, op: Op)
    requires Inv(db) && (op.OpCommit? || op.OpCanonicalize?)
    ensures Inv(Apply(db, Call(fence, op)))
  {
    match op {
      case OpCommit(cmd, now) => CommitKeeps(db, fence, cmd, now);
      case OpCanonicalize(turn, draft) => CanonicalizeKeeps(db, fence, turn, draft);
    }
  }

  lemma CanonicalizeKeeps(db: Tables, fence: nat, turn: Id, draft: Draft)
    requires Inv(db)
    ensures Inv(CanonicalizeTurn(db, fence, turn, draft).db)
  {
    if CanonicalizeTurn(db, fence, turn, draft).db != db { AnswerKeeps(db, turn, draft); }
  }

  lemma StepKeeps(db: Tables, event: Event)
    requires Inv(db)
    ensures Inv(Apply(db, event))
  {
    if Quietly(event) {
      QuietStep(db, event);
      QuietKeeps(db, Apply(db, event));
    } else if event.op.OpCommit? || event.op.OpCanonicalize? {
      TranscriptStepKeeps(db, event.fence, event.op);
    } else {
      RecordStepKeeps(db, event.fence, event.op);
    }
  }

  /** Every state any interleaving of stores can reach is consistent. */
  lemma {:induction false} ReachableIsConsistent(events: seq<Event>)
    ensures Inv(Run(EMPTY, events))
  {
    if events == [] {
      EmptyIsConsistent();
    } else {
      ReachableIsConsistent(events[..|events| - 1]);
      StepKeeps(Run(EMPTY, events[..|events| - 1]), events[|events| - 1]);
    }
  }
}
