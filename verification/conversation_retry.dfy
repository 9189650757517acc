/** Retrying a CP0 unit: when the retry finds the original turn, and when it does not. */
module ConversationRetry {
  import opened ConversationTables
  import opened ConversationInvariants
  import opened ConversationHistory
  import opened Ordering

  // A command is stamped when the envelope that will carry its turn also carries its client
  // message (or the command has none). The one unstamped shape: the command names a client
  // message that no envelope has, over an input whose envelope is already durable without it.
  ghost predicate Stamped(db: Tables, cmd: CommitCommand) {
    || cmd.envelope.clientMessage.None?
    || HasClientMessage(db, cmd.envelope.clientMessage.value)
    || cmd.input !in db.envelopes
  }

  /** A retry repeats the client message, under any input id; without a client message it repeats the input id. */
  predicate SameInput(cmd: CommitCommand, retry: CommitCommand) {
    && retry.envelope.clientMessage == cmd.envelope.clientMessage
    && (cmd.envelope.clientMessage.None? ==> retry.input == cmd.input)
  }

  predicate SameTurn(k: Cp0Commit, k': Cp0Commit) {
    && k'.turn == k.turn && k'.input == k.input && k'.userTurnId == k.userTurnId
    && k'.turnSequence == k.turnSequence && k'.messageSequence == k.messageSequence
  }

  /** What an acknowledged CP0 leaves in the tables. */
  ghost predicate Acknowledged(db: Tables, k: Cp0Commit) {
    && k.turn in db.userTurns && k.turn in db.turnRecords
    && db.userTurns[k.turn].input == k.input
    && db.userTurns[k.turn].userTurnId == k.userTurnId
    && db.userTurns[k.turn].turnSequence == k.turnSequence
    && db.userTurns[k.turn].messageSequence == k.messageSequence
  }

  lemma OkIsAcknowledged(db: Tables, fence: nat, cmd: CommitCommand, now: Instant)
    requires CommitUserTurn(db, fence, cmd, now).reply.Ok?
    ensures var out := CommitUserTurn(db, fence, cmd, now);
            Acknowledged(out.db, out.reply.value) && out.reply.value.input == WinningInput(db, cmd)
  {
  }

  lemma AcknowledgedLasts(db: Tables, db': Tables, k: Cp0Commit)
    requires Later(db, db') && Acknowledged(db, k)
    ensures Acknowledged(db', k)
  {
  }

  lemma WinnerOfStamped(db: Tables, fence: nat, cmd: CommitCommand, now: Instant)
    requires Inv(db) && Stamped(db, cmd) && CommitUserTurn(db, fence, cmd, now).reply.Ok?
    ensures var db' := CommitUserTurn(db, fence, cmd, now).db;
            cmd.envelope.clientMessage.Some? ==>
              && WinningInput(db, cmd) in db'.envelopes
              && db'.envelopes[WinningInput(db, cmd)].clientMessage == cmd.envelope.clientMessage
  {
    var input := WinningInput(db, cmd);
    if cmd.envelope.clientMessage.Some? && HasTurnForInput(db, input) {
      assert db.userTurns[TurnForInput(db, input)].input in db.envelopes;
    }
  }

  lemma WinnerLasts(db: Tables, cmd: CommitCommand, retry: CommitCommand, db': Tables, input: Id)
    requires OneEnvelopePerClientMessage(db') && SameInput(cmd, retry)
    requires cmd.envelope.clientMessage.None? ==> input == cmd.input
    requires cmd.envelope.clientMessage.Some? ==>
               input in db'.envelopes && db'.envelopes[input].clientMessage == cmd.envelope.clientMessage
    ensures WinningInput(db', retry) == input
  {
    if cmd.envelope.clientMessage.Some? {
      var m := cmd.envelope.clientMessage.value;
      assert HasClientMessage(db', m);
      assert InputOfClientMessage(db', m) == input;
    }
  }

  lemma ReplayAnswers(db: Tables, fence: nat, retry: CommitCommand, now: Instant, k: Cp0Commit)
    requires OneTurnPerInput(db) && Acknowledged(db, k) && WinningInput(db, retry) == k.input
    requires Current(db, fence) && retry.conversation in db.conversations
    requires !db.conversations[retry.conversation].status.Closed?
    ensures var out := CommitUserTurn(db, fence, retry, now);
            out.db == db && out.reply.Ok? && SameTurn(k, out.reply.value)
  {
    assert HasTurnForInput(db, k.input);
    assert TurnForInput(db, k.input) == k.turn;
  }

  // An acknowledged, stamped CP0 can be retried after any further run, by any current store and
  // with any fresh ids, the input id included when there is a client message: it returns the original turn and numbers, and writes nothing.
  lemma RetryReturnsTheOriginal(
    db: Tables, fence: nat, cmd: CommitCommand, now: Instant,
    events: seq<Event>, fence': nat, retry: CommitCommand, now': Instant)
    requires Inv(db) && Stamped(db, cmd) && CommitUserTurn(db, fence, cmd, now).reply.Ok?
    requires SameInput(cmd, retry)
    requires var db' := Run(CommitUserTurn(db, fence, cmd, now).db, events);
             && Current(db', fence') && retry.conversation in db'.conversations
             && !db'.conversations[retry.conversation].status.Closed?
    ensures var out := CommitUserTurn(db, fence, cmd, now);
            var db' := Run(out.db, events);
            var again := CommitUserTurn(db', fence', retry, now');
            again.db == db' && again.reply.Ok? && SameTurn(out.reply.value, again.reply.value)
  {
    var out := CommitUserTurn(db, fence, cmd, now);
    var db' := Run(out.db, events);
    CommitKeeps(db, fence, cmd, now);
    RunIsLater(out.db, events);
    OkIsAcknowledged(db, fence, cmd, now);
    AcknowledgedLasts(out.db, db', out.reply.value);
    WinnerOfStamped(db, fence, cmd, now);
    WinnerLasts(out.db, cmd, retry, db', WinningInput(db, cmd));
    ReplayAnswers(db', fence', retry, now', out.reply.value);
  }

  lemma FreshId(used: set<Id>) returns (id: Id)
    ensures id !in used
  {
    var bound := UpperBound(used);
    id := bound + 1;
  }

  lemma UpperBound(used: set<Id>) returns (bound: Id)
    ensures forall x :: x in used ==> x <= bound
  {
    if used == {} {
      bound := 0;
    } else {
      var x := Pick(used);
      var rest := UpperBound(used - {x});
      bound := if rest < x then x else rest;
      forall y | y in used ensures y <= bound {
        if y != x { assert y in used - {x}; }
      }
    }
  }

  // Stamping is exactly what retries need: from an unstamped command that was acknowledged, one
  // later ingest of the same client message under another input makes a retry open a second turn.
  lemma UnstampedRetryOpensASecondTurn(db: Tables, fence: nat, cmd: CommitCommand, now: Instant)
    returns (event: Event, retry: CommitCommand)
    requires Inv(db) && !Stamped(db, cmd) && CommitUserTurn(db, fence, cmd, now).reply.Ok?
    ensures SameInput(cmd, retry) && retry.conversation == cmd.conversation
    ensures var out := CommitUserTurn(db, fence, cmd, now);
            var again := CommitUserTurn(Apply(out.db, event), fence, retry, now);
            again.reply.Ok? && again.reply.value.turn != out.reply.value.turn
  {
    var out := CommitUserTurn(db, fence, cmd, now);
    CommitKeeps(db, fence, cmd, now);
    var input := FreshId(out.db.envelopes.Keys + (set t | t in out.db.userTurns :: out.db.userTurns[t].input));
    var envelope := cmd.envelope.(conversation := cmd.conversation);
    event := Call(fence, OpInsertEnvelope(input, envelope));
    var turn := FreshId(out.db.userTurns.Keys + out.db.turnRecords.Keys);
    var userTurnId := FreshId(set t | t in out.db.userTurns :: out.db.userTurns[t].userTurnId);
    retry := cmd.(turn := turn, userTurnId := userTurnId);
    UnstampedLeavesTheMessageFree(db, fence, cmd, now);
    var db' := Apply(out.db, event);
    assert db' == out.db.(envelopes := out.db.envelopes[input := envelope]);
    SecondTurn(out.db, db', fence, retry, now, input, envelope);
    OkIsAcknowledged(db, fence, cmd, now);
  }

  lemma UnstampedLeavesTheMessageFree(db: Tables, fence: nat, cmd: CommitCommand, now: Instant)
    requires !Stamped(db, cmd) && CommitUserTurn(db, fence, cmd, now).reply.Ok?
    ensures var db' := CommitUserTurn(db, fence, cmd, now).db;
            && !HasClientMessage(db', cmd.envelope.clientMessage.value)
            && cmd.conversation in db'.conversations && db'.conversations[cmd.conversation].status.Active?
            && Current(db', fence)
  {
  }

  lemma SecondTurn(
    db: Tables, db': Tables, fence: nat, retry: CommitCommand, now: Instant, input: Id, envelope: Envelope)
    requires db' == db.(envelopes := db.envelopes[input := envelope]) && input !in db.envelopes
    requires forall t :: t in db.userTurns ==> db.userTurns[t].input != input
    requires envelope.clientMessage.Some? && retry.envelope.clientMessage == envelope.clientMessage
    requires !HasClientMessage(db, envelope.clientMessage.value)
    requires Current(db, fence) && retry.conversation in db.conversations
    requires db.conversations[retry.conversation].status.Active?
    requires retry.turn !in db.userTurns && retry.turn !in db.turnRecords
    requires !UserTurnIdUsed(db, retry.userTurnId)
    ensures var again := CommitUserTurn(db', fence, retry, now);
            again.reply.Ok? && again.reply.value.turn == retry.turn
  {
    var m := envelope.clientMessage.value;
    assert db'.envelopes[input].clientMessage == Some(m);
    assert HasClientMessage(db', m);
    assert WinningInput(db', retry) == input by {
      assert forall i :: i in db.envelopes ==> db.envelopes[i].clientMessage != Some(m);
    }
    assert !HasTurnForInput(db', input);
    assert !UserTurnIdUsed(db', retry.userTurnId);
  }

  // ---- the unstamped shape arises ------------------------------------------------

  const PLAIN := Envelope(None, 1, None, None, "hello", 0)

  /** A process starts, opens a conversation and ingests an input that carries no client message. */
  const PRELUDE: seq<Event> := [
    EpochOpened, Call(1, OpOpenConversation(1, None, None)), Call(1, OpIngest(10, PLAIN))]

  /** The CP0 of that input, now naming a client message. */
  const LATE_MESSAGE :=
    CommitCommand(1, 10, PLAIN.(clientMessage := Some(77)), "hello", None, "v1", 100, 200)

  lemma PreludeState()
    ensures Run(EMPTY, PRELUDE) ==
            Tables(1, map[1 := Conversation(None, None, Active, 1, 1)], map[10 := PLAIN], map[], map[], map[])
  {
    assert PRELUDE[..2][..1] == PRELUDE[..1] && PRELUDE[..1][..0] == [];
    assert Run(EMPTY, PRELUDE[..1]) == EMPTY.(newestEpoch := 1);
    assert Run(EMPTY, PRELUDE[..2]) ==
           Tables(1, map[1 := Conversation(None, None, Active, 1, 1)], map[], map[], map[], map[]);
  }

  /** So a reachable state acknowledges an unstamped command. */
  lemma UnstampedIsReachable()
    ensures var db := Run(EMPTY, PRELUDE);
            Inv(db) && !Stamped(db, LATE_MESSAGE) && CommitUserTurn(db, 1, LATE_MESSAGE, 0).reply.Ok?
  {
    ReachableIsConsistent(PRELUDE);
    PreludeState();
  }
}
