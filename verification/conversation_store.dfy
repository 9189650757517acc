// The store itself: several stores share one database, each with the epoch it adopted. Its
// methods read and write rows one statement at a time under the tables' constraints, and roll
// back on a violation; each is proved to be one atomic step of ConversationTables.
module ConversationStore {
  import opened ConversationTables
  import opened ConversationInvariants
  import opened Ordering

  class AppDatabase {
    var newestEpoch: nat
    var conversations: map<Id, Conversation>
    var envelopes: map<Id, Envelope>
    var userTurns: map<Id, UserTurn>
    var turnRecords: map<Id, TurnRecord>
    var assistantTurns: map<Id, AssistantTurn>

    function Snapshot(): Tables
      reads this
    {
      Tables(newestEpoch, conversations, envelopes, userTurns, turnRecords, assistantTurns)
    }

    ghost predicate Valid()
      reads this
    {
      Inv(Snapshot())
    }

    constructor ()
      ensures Valid() && Snapshot() == EMPTY
    {
      newestEpoch, conversations, envelopes := 0, map[], map[];
      userTurns, turnRecords, assistantTurns := map[], map[], map[];
      new;
      EmptyIsConsistent();
    }

    method OpenEpoch()
      requires Valid()
      modifies this`newestEpoch
      ensures Valid() && Snapshot() == ConversationTables.OpenEpoch(old(Snapshot()))
    {
      ghost var next := ConversationTables.OpenEpoch(Snapshot());
      EpochKeeps(Snapshot());
      newestEpoch := newestEpoch + 1;
      assert Snapshot() == next;
    }

    method Rollback(saved: Tables)
      modifies this
      ensures Snapshot() == saved
    {
      newestEpoch, conversations, envelopes := saved.newestEpoch, saved.conversations, saved.envelopes;
      userTurns, turnRecords, assistantTurns := saved.userTurns, saved.turnRecords, saved.assistantTurns;
    }

    /** INSERT INTO input_envelope; false is an integrity error. */
    method InsertEnvelope(input: Id, row: Envelope) returns (ok: bool)
      modifies this`envelopes
      ensures ok <==> && input !in old(envelopes)
                      && (row.clientMessage.Some? ==> !HasClientMessage(old(Snapshot()), row.clientMessage.value))
                      && row.conversation in conversations
      ensures envelopes == if ok then old(envelopes)[input := row] else old(envelopes)
    {
      ok := && input !in envelopes && row.conversation in conversations
            && (row.clientMessage.Some? ==>
                  !exists i :: i in envelopes && envelopes[i].clientMessage == row.clientMessage);
      if ok { envelopes := envelopes[input := row]; }
    }

    /** INSERT INTO user_turn, under its primary key, three UNIQUE columns and two foreign keys. */
    method InsertUserTurn(turn: Id, row: UserTurn) returns (ok: bool)
      modifies this`userTurns
      ensures ok <==> && turn !in old(userTurns) && !UserTurnIdUsed(old(Snapshot()), row.userTurnId)
                      && row.conversation in conversations && row.input in envelopes
                      && forall t :: t in old(userTurns) && old(userTurns)[t].conversation == row.conversation ==>
                           && old(userTurns)[t].turnSequence != row.turnSequence
                           && old(userTurns)[t].messageSequence != row.messageSequence
      ensures userTurns == if ok then old(userTurns)[turn := row] else old(userTurns)
    {
      ok := && turn !in userTurns
            && !(exists t :: t in userTurns && userTurns[t].userTurnId == row.userTurnId)
            && row.conversation in conversations && row.input in envelopes
            && forall t :: t in userTurns && userTurns[t].conversation == row.conversation ==>
                 && userTurns[t].turnSequence != row.turnSequence
                 && userTurns[t].messageSequence != row.messageSequence;
      if ok { userTurns := userTurns[turn := row]; }
    }

    method InsertTurnRecord(turn: Id, row: TurnRecord) returns (ok: bool)
      modifies this`turnRecords
      ensures ok <==> && turn !in old(turnRecords) && row.conversation in conversations && row.input in envelopes
      ensures turnRecords == if ok then old(turnRecords)[turn := row] else old(turnRecords)
    {
      ok := turn !in turnRecords && row.conversation in conversations && row.input in envelopes;
      if ok { turnRecords := turnRecords[turn := row]; }
    }

    method InsertAssistantTurn(turn: Id, row: AssistantTurn) returns (ok: bool)
      modifies this`assistantTurns
      ensures ok <==> && turn !in old(assistantTurns)
                      && !AssistantTurnIdUsed(old(Snapshot()), row.assistantTurnId)
                      && row.conversation in conversations
                      && forall t :: t in old(assistantTurns)
                                     && old(assistantTurns)[t].conversation == row.conversation ==>
                           && old(assistantTurns)[t].turnSequence != row.turnSequence
                           && old(assistantTurns)[t].messageSequence != row.messageSequence
      ensures assistantTurns == if ok then old(assistantTurns)[turn := row] else old(assistantTurns)
    {
      ok := && turn !in assistantTurns
            && !(exists t :: t in assistantTurns && assistantTurns[t].assistantTurnId == row.assistantTurnId)
            && row.conversation in conversations
            && forall t :: t in assistantTurns && assistantTurns[t].conversation == row.conversation ==>
                 && assistantTurns[t].turnSequence != row.turnSequence
                 && assistantTurns[t].messageSequence != row.messageSequence;
      if ok { assistantTurns := assistantTurns[turn := row]; }
    }
  }

  method PickRow(rows: set<Id>) returns (row: Id)
    requires rows != {}
    ensures row in rows
  {
    ghost var some := Pick(rows);
    row :| row in rows;
  }

  class SqliteConversationStore {
    const db: AppDatabase
    const fence: nat

    /** A process start: open the next epoch and adopt it. */
    constructor (db: AppDatabase)
      requires db.Valid()
      modifies db
      ensures this.db == db && fence == db.newestEpoch
      ensures db.Valid() && db.Snapshot() == ConversationTables.OpenEpoch(old(db.Snapshot())) && Current(db.Snapshot(), fence)
    {
      this.db := db;
      fence := db.newestEpoch + 1;
      new;
      db.OpenEpoch();
    }

    method OpenConversation(c: Id, persona: Option<Id>, scene: Option<Id>)
      requires db.Valid()
      modifies db
      ensures db.Valid()
      ensures db.Snapshot() == ConversationTables.OpenConversation(old(db.Snapshot()), c, persona, scene)
    {
      StepKeeps(db.Snapshot(), Call(fence, OpOpenConversation(c, persona, scene)));
      if c !in db.conversations {
        db.conversations := db.conversations[c := Conversation(persona, scene, Active, 1, 1)];
      }
    }

    method BindPersonaIfUnbound(c: Id, persona: Id) returns (reply: Reply<bool>)
      requires db.Valid()
      modifies db
      ensures db.Valid()
      ensures Out(db.Snapshot(), reply) == BindPersona(old(db.Snapshot()), fence, c, persona)
    {
      StepKeeps(db.Snapshot(), Call(fence, OpBindPersona(c, persona)));
      if db.newestEpoch == 0 || db.newestEpoch != fence { return Stale; }
      if c !in db.conversations { return Err(NotFound); }
      var row := db.conversations[c];
      if row.persona.Some? { return Ok(false); }
      db.conversations := db.conversations[c := row.(persona := Some(persona))];
      return Ok(true);
    }

    method IngestInput(input: Id, envelope: Envelope) returns (reply: Reply<Id>)
      requires db.Valid()
      modifies db
      ensures db.Valid()
      ensures Out(db.Snapshot(), reply) == Ingest(old(db.Snapshot()), input, envelope)
    {
      ghost var before := db.Snapshot();
      StepKeeps(before, Call(fence, OpIngest(input, envelope)));
      if envelope.clientMessage.Some? {
        var prior := set i | i in db.envelopes && db.envelopes[i].clientMessage == envelope.clientMessage;
        if prior != {} {
          var row := PickRow(prior);
          assert row == InputOfClientMessage(before, envelope.clientMessage.value);
          return Ok(row);
        }
        assert forall i :: i in db.envelopes ==> i !in prior;
      }
      var ok := db.InsertEnvelope(input, envelope);
      return if ok then Ok(input) else Err(Conflict);
    }

    /** The durable input of a command: the envelope that already carries its client message, or its own. */
    method DurableInput(cmd: CommitCommand) returns (input: Id)
      requires db.Valid()
      ensures input == WinningInput(db.Snapshot(), cmd)
    {
      input := cmd.input;
      if cmd.envelope.clientMessage.Some? {
        var prior := set i | i in db.envelopes && db.envelopes[i].clientMessage == cmd.envelope.clientMessage;
        if prior != {} {
          input := PickRow(prior);
          assert HasClientMessage(db.Snapshot(), cmd.envelope.clientMessage.value);
        } else {
          assert forall i :: i in db.envelopes ==> i !in prior;
        }
      }
    }

    method ReplayOf(input: Id) returns (replay: Option<Cp0Commit>)
      requires db.Valid()
      ensures replay.Some? <==> HasTurnForInput(db.Snapshot(), input)
      ensures replay.Some? ==> replay.value == CommitOf(db.Snapshot(), input)
    {
      var hits := set t | t in db.userTurns && t in db.turnRecords && db.userTurns[t].input == input;
      if hits == {} {
        assert forall t :: t in db.userTurns ==> t !in hits;
        return None;
      }
      var t := PickRow(hits);
      var u, r := db.userTurns[t], db.turnRecords[t];
      assert HasTurnForInput(db.Snapshot(), input) && t == TurnForInput(db.Snapshot(), input);
      return Some(Cp0Commit(t, input, u.userTurnId, u.turnSequence, u.messageSequence, r.ownerEpoch, r.stateVersion));
    }

    /** The winning input's envelope, inserted if it is the command's own and not there yet. */
    method EnsureInputEnvelope(cmd: CommitCommand, input: Id)
      requires db.Valid() && cmd.conversation in db.conversations && input == WinningInput(db.Snapshot(), cmd)
      modifies db`envelopes
      ensures db.envelopes == if input in old(db.envelopes) then old(db.envelopes)
                              else old(db.envelopes)[input := cmd.envelope.(conversation := cmd.conversation)]
    {
      if input !in db.envelopes {
        var ok := db.InsertEnvelope(input, cmd.envelope.(conversation := cmd.conversation));
        assert ok;
      }
    }

    /** The inserts of one CP0 unit, statement by statement; false when a constraint rolled it back. */
    method WriteCp0(cmd: CommitCommand, input: Id, now: Instant) returns (ok: bool)
      requires db.Valid() && cmd.conversation in db.conversations
      requires input == WinningInput(db.Snapshot(), cmd)
      modifies db
      ensures ok <==> && cmd.turn !in old(db.userTurns) && cmd.turn !in old(db.turnRecords)
                      && !UserTurnIdUsed(old(db.Snapshot()), cmd.userTurnId)
      ensures db.Snapshot() == if ok then Cp0Write(old(db.Snapshot()), fence, cmd, input, now) else old(db.Snapshot())
    {
      var saved := db.Snapshot();
      NextIsFresh(saved, cmd.conversation);
      var conv := db.conversations[cmd.conversation];
      EnsureInputEnvelope(cmd, input);
      ok := db.InsertUserTurn(cmd.turn,
        UserTurn(cmd.userTurnId, cmd.conversation, conv.nextTurn, conv.nextMessage, input,
                 cmd.envelope.clientMessage, cmd.rawContent, cmd.normalizedContent));
      if !ok {
        db.Rollback(saved);
        return;
      }
      ok := db.InsertTurnRecord(cmd.turn,
        TurnRecord(cmd.conversation, conv.nextTurn, input, UserCommitted, cmd.runtimeVersion,
                   now, now, None, None, fence, 1));
      assert ok;
      db.conversations := db.conversations[cmd.conversation :=
        conv.(nextTurn := conv.nextTurn + 1, nextMessage := conv.nextMessage + 1)];
    }

    method RunCommit(cmd: CommitCommand, now: Instant) returns (reply: Reply<Cp0Commit>)
      requires db.Valid()
      modifies db
      ensures Out(db.Snapshot(), reply) == ConversationTables.CommitUserTurn(old(db.Snapshot()), fence, cmd, now)
    {
      if db.newestEpoch == 0 || db.newestEpoch != fence { return Stale; }
      if cmd.conversation !in db.conversations { return Err(NotFound); }
      var conv := db.conversations[cmd.conversation];
      if conv.status.Closed? { return Err(ValidationFailed); }
      var input := DurableInput(cmd);
      var replay := ReplayOf(input);
      if replay.Some? { return Ok(replay.value); }
      var ok := WriteCp0(cmd, input, now);
      if !ok { return Err(Conflict); }
      return Ok(Cp0Commit(cmd.turn, input, cmd.userTurnId, conv.nextTurn, conv.nextMessage, fence, 1));
    }

    method CommitUserTurn(cmd: CommitCommand, now: Instant) returns (reply: Reply<Cp0Commit>)
      requires db.Valid()
      modifies db
      ensures db.Valid()
      ensures Out(db.Snapshot(), reply) == ConversationTables.CommitUserTurn(old(db.Snapshot()), fence, cmd, now)
    {
      ghost var before := db.Snapshot();
      reply := RunCommit(cmd, now);
      CommitKeeps(before, fence, cmd, now);
    }

    /** UPDATE turn_record ... WHERE turn_id = ? AND state_version = ? */
    method UpdateRecord(turn: Id, version: int, row: TurnRecord) returns (updated: TurnRecord)
      requires turn in db.turnRecords
      modifies db`turnRecords
      ensures var r := old(db.turnRecords)[turn];
              && updated == (if r.stateVersion == version then row else r)
              && db.turnRecords == old(db.turnRecords)[turn := updated]
    {
      if db.turnRecords[turn].stateVersion == version {
        db.turnRecords := db.turnRecords[turn := row];
      }
      updated := db.turnRecords[turn];
      assert db.turnRecords == old(db.turnRecords)[turn := updated];
    }

    method RunTransition(turn: Id, expected: int, status: TurnStatus, now: Instant) returns (reply: Reply<TurnRecord>)
      modifies db
      ensures Out(db.Snapshot(), reply)
           == ConversationTables.TransitionTurn(old(db.Snapshot()), fence, turn, expected, status, now)
    {
      if Terminal(status) { return Err(ValidationFailed); }
      if db.newestEpoch == 0 || db.newestEpoch != fence { return Stale; }
      if turn !in db.turnRecords { return Err(NotFound); }
      var r := db.turnRecords[turn];
      if r.ownerEpoch != fence { return Err(AuthorityViolation); }
      if Terminal(r.status) { return Err(ValidationFailed); }
      if r.stateVersion != expected { return Err(Conflict); }
      var updated := UpdateRecord(turn, expected,
        r.(status := status, stateVersion := r.stateVersion + 1, updatedAt := now));
      return Ok(updated);
    }

    method TransitionTurn(turn: Id, expected: int, status: TurnStatus, now: Instant) returns (reply: Reply<TurnRecord>)
      requires db.Valid()
      modifies db
      ensures db.Valid()
      ensures Out(db.Snapshot(), reply)
           == ConversationTables.TransitionTurn(old(db.Snapshot()), fence, turn, expected, status, now)
    {
      ghost var before := db.Snapshot();
      reply := RunTransition(turn, expected, status, now);
      TransitionKeeps(before, fence, turn, expected, status, now);
    }

    method RunTerminalize(turn: Id, outcome: TurnOutcome, now: Instant) returns (reply: Reply<TurnRecord>)
      modifies db
      ensures Out(db.Snapshot(), reply)
           == ConversationTables.TerminalizeTurn(old(db.Snapshot()), fence, turn, outcome, now)
    {
      var status := Completed;
      if outcome.CancelledOutcome? {
        status := CancelledByUser;
      } else if outcome.FailedUserVisible? {
        status := FailedFinal;
      }
      if db.newestEpoch == 0 || db.newestEpoch != fence { return Stale; }
      if turn !in db.turnRecords { return Err(NotFound); }
      var r := db.turnRecords[turn];
      if r.ownerEpoch != fence { return Err(AuthorityViolation); }
      if Terminal(r.status) { return Err(ValidationFailed); }
      var updated := UpdateRecord(turn, r.stateVersion,
        r.(status := status, outcome := Some(outcome), terminalAt := Some(now), updatedAt := now,
           stateVersion := r.stateVersion + 1));
      return Ok(updated);
    }

    method TerminalizeTurn(turn: Id, outcome: TurnOutcome, now: Instant) returns (reply: Reply<TurnRecord>)
      requires db.Valid()
      modifies db
      ensures db.Valid()
      ensures Out(db.Snapshot(), reply)
           == ConversationTables.TerminalizeTurn(old(db.Snapshot()), fence, turn, outcome, now)
    {
      ghost var before := db.Snapshot();
      reply := RunTerminalize(turn, outcome, now);
      TerminalizeKeeps(before, fence, turn, outcome, now);
    }

    method RunClaim(turn: Id, now: Instant) returns (reply: Reply<TurnRecord>)
      modifies db
      ensures Out(db.Snapshot(), reply) == ClaimTurn(old(db.Snapshot()), fence, turn, now)
    {
      if turn !in db.turnRecords { return Err(NotFound); }
      var r := db.turnRecords[turn];
      if Terminal(r.status) { return Ok(r); }
      if r.ownerEpoch == fence { return Ok(r); }
      if db.newestEpoch == 0 || db.newestEpoch != fence { return Stale; }
      var updated := UpdateRecord(turn, r.stateVersion,
        r.(ownerEpoch := fence, stateVersion := r.stateVersion + 1, updatedAt := now));
      return Ok(updated);
    }

    method ClaimTurnForRecovery(turn: Id, now: Instant) returns (reply: Reply<TurnRecord>)
      requires db.Valid()
      modifies db
      ensures db.Valid()
      ensures Out(db.Snapshot(), reply) == ClaimTurn(old(db.Snapshot()), fence, turn, now)
    {
      ghost var before := db.Snapshot();
      reply := RunClaim(turn, now);
      ClaimKeeps(before, fence, turn, now);
    }

    method WriteAnswer(turn: Id, draft: Draft) returns (ok: bool)
      requires db.Valid() && turn in db.userTurns && turn !in db.assistantTurns
      modifies db
      ensures ok <==> !AssistantTurnIdUsed(old(db.Snapshot()), draft.assistantTurnId)
      ensures db.Snapshot() == if ok then AnswerWrite(old(db.Snapshot()), turn, draft) else old(db.Snapshot())
    {
      var u := db.userTurns[turn];
      var conv := db.conversations[u.conversation];
      AnswerRowIsFree(db.Snapshot(), turn);
      ok := db.InsertAssistantTurn(turn,
        AssistantTurn(draft.assistantTurnId, u.conversation, u.turnSequence, conv.nextMessage,
                      draft.action, draft.content, draft.deliveryState));
      if ok {
        db.conversations := db.conversations[u.conversation := conv.(nextMessage := conv.nextMessage + 1)];
      }
    }

    method RunCanonicalize(turn: Id, draft: Draft) returns (reply: Reply<Id>)
      requires db.Valid()
      modifies db
      ensures Out(db.Snapshot(), reply) == CanonicalizeTurn(old(db.Snapshot()), fence, turn, draft)
    {
      if !Canonical(draft.deliveryState) { return Err(ValidationFailed); }
      if db.newestEpoch == 0 || db.newestEpoch != fence { return Stale; }
      if turn !in db.turnRecords { return Err(NotFound); }
      if db.turnRecords[turn].ownerEpoch != fence { return Err(AuthorityViolation); }
      if turn in db.assistantTurns { return Ok(db.assistantTurns[turn].assistantTurnId); }
      if turn !in db.userTurns { return Err(NotFound); }
      var ok := WriteAnswer(turn, draft);
      return if ok then Ok(draft.assistantTurnId) else Err(Conflict);
    }

    method CanonicalizeAssistantTurn(turn: Id, draft: Draft) returns (reply: Reply<Id>)
      requires db.Valid()
      modifies db
      ensures db.Valid()
      ensures Out(db.Snapshot(), reply) == CanonicalizeTurn(old(db.Snapshot()), fence, turn, draft)
    {
      ghost var before := db.Snapshot();
      reply := RunCanonicalize(turn, draft);
      CanonicalizeKeeps(before, fence, turn, draft);
    }
  }

  /** No other answer shares the turn number of an unanswered question, nor the next message number. */
  lemma AnswerRowIsFree(db: Tables, turn: Id)
    requires Inv(db) && turn in db.userTurns && turn !in db.assistantTurns
    ensures forall t | t in db.assistantTurns && db.assistantTurns[t].conversation == db.userTurns[turn].conversation ::
              && db.assistantTurns[t].turnSequence != db.userTurns[turn].turnSequence
              && db.assistantTurns[t].messageSequence != db.conversations[db.userTurns[turn].conversation].nextMessage
  {
    NextIsFresh(db, db.userTurns[turn].conversation);
    forall t | t in db.assistantTurns && db.assistantTurns[t].conversation == db.userTurns[turn].conversation
      ensures db.assistantTurns[t].turnSequence != db.userTurns[turn].turnSequence
    {
      assert t in db.userTurns && t != turn && SameTalk(db.userTurns[t], db.userTurns[turn]);
    }
  }
}
