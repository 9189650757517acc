/** What each call of the store promises its caller, in the fields of the rows it leaves. */
module ConversationEffects {
  import opened ConversationTables
  import opened ConversationInvariants
  import opened ConversationHistory

  /** Everything but one turn record is as it was. */
  ghost predicate OnlyRecordMoved(db: Tables, db': Tables, turn: Id) {
    && db' == db.(turnRecords := db'.turnRecords)
    && db'.turnRecords.Keys == db.turnRecords.Keys
    && forall t | t in db.turnRecords && t != turn :: db'.turnRecords[t] == db.turnRecords[t]
  }

  /** What no step of a record touches. */
  ghost predicate SameTurn(r: TurnRecord, r': TurnRecord) {
    && r'.conversation == r.conversation && r'.turnSequence == r.turnSequence && r'.input == r.input
    && r'.runtimeVersion == r.runtimeVersion && r'.startedAt == r.startedAt
  }

  // ---- terminal statuses ---------------------------------------------------------------

  /** In every reachable state the status tells the outcome and the outcome tells the status. */
  lemma StatusTellsOutcome(events: seq<Event>, turn: Id)
    requires turn in Run(EMPTY, events).turnRecords
    ensures var r := Run(EMPTY, events).turnRecords[turn];
            && (r.status == CancelledByUser <==> r.outcome == Some(CancelledOutcome))
            && (r.status == FailedFinal <==> r.outcome == Some(FailedUserVisible))
            && (r.status == Completed <==> r.outcome in {Some(RepliedFull), Some(RepliedPartial), Some(NoAssistantOutput)})
            && (r.outcome.Some? <==> r.terminalAt.Some?)
  {
    ReachableIsConsistent(events);
    var db := Run(EMPTY, events);
    assert RecordOk(db.turnRecords[turn], db.newestEpoch) by { assert Owned(db); }
    RecordTells(db.turnRecords[turn], db.newestEpoch);
  }

  lemma RecordTells(r: TurnRecord, newestEpoch: nat)
    requires RecordOk(r, newestEpoch)
    ensures r.status == CancelledByUser <==> r.outcome == Some(CancelledOutcome)
    ensures r.status == FailedFinal <==> r.outcome == Some(FailedUserVisible)
    ensures r.status == Completed <==> r.outcome in {Some(RepliedFull), Some(RepliedPartial), Some(NoAssistantOutput)}
    ensures r.outcome.Some? <==> r.terminalAt.Some?
  {
  }

  // Terminalizing succeeds exactly for the current store, on a turn it owns that has no outcome yet;
  // it stores the requested outcome and the time, and otherwise nothing changes.
  lemma TerminalizeEndsTheTurn(db: Tables, fence: nat, turn: Id, outcome: TurnOutcome, now: Instant)
    requires Inv(db)
    ensures var out := TerminalizeTurn(db, fence, turn, outcome, now);
            && (out.reply.Ok? <==> db.newestEpoch == fence && turn in db.turnRecords
                                   && db.turnRecords[turn].ownerEpoch == fence && db.turnRecords[turn].outcome.None?)
            && (!out.reply.Ok? ==> out.db == db)
            && (out.reply.Ok? ==>
                  var r, r' := db.turnRecords[turn], out.db.turnRecords[turn];
                  && OnlyRecordMoved(db, out.db, turn) && SameTurn(r, r') && out.reply.value == r'
                  && r'.outcome == Some(outcome) && r'.terminalAt == Some(now) && r'.updatedAt == now
                  && r'.ownerEpoch == fence && r'.stateVersion == r.stateVersion + 1
                  && r'.status == (if outcome == CancelledOutcome then CancelledByUser
                                   else if outcome == FailedUserVisible then FailedFinal else Completed))
  {
    if turn in db.turnRecords { assert RecordOk(db.turnRecords[turn], db.newestEpoch); }
  }

  // ---- transitions -------------------------------------------------------------------------

  // A transition succeeds exactly for the current store, on a turn it owns that has no outcome yet and
  // still carries the expected version, towards a status that is no ending; the turn then has that
  // status and the next version.
  lemma TransitionSetsTheStatus(db: Tables, fence: nat, turn: Id, expected: int, status: TurnStatus, now: Instant)
    requires Inv(db)
    ensures var out := TransitionTurn(db, fence, turn, expected, status, now);
            && (out.reply.Ok? <==> status !in {Completed, CancelledByUser, FailedFinal}
                                   && db.newestEpoch == fence && turn in db.turnRecords
                                   && db.turnRecords[turn].ownerEpoch == fence && db.turnRecords[turn].outcome.None?
                                   && db.turnRecords[turn].stateVersion == expected)
            && (!out.reply.Ok? ==> out.db == db)
            && (out.reply.Ok? ==>
                  var r, r' := db.turnRecords[turn], out.db.turnRecords[turn];
                  && OnlyRecordMoved(db, out.db, turn) && SameTurn(r, r') && out.reply.value == r'
                  && r'.status == status && r'.stateVersion == expected + 1 && r'.updatedAt == now
                  && r'.outcome.None? && r'.terminalAt.None? && r'.ownerEpoch == fence)
  {
    if turn in db.turnRecords { assert RecordOk(db.turnRecords[turn], db.newestEpoch); }
  }

  /** Over a run: whoever was told Ok finds its status stored, until the next version. */
  lemma GrantedStatusStays(events: seq<Event>, i: nat, j: nat, turn: Id, expected: int)
    requires i < j <= |events| && WinsTransition(events, i, turn, expected)
    ensures turn in StateAt(events, j).turnRecords
    ensures var r := StateAt(events, j).turnRecords[turn];
            r.stateVersion > expected && (r.stateVersion == expected + 1 ==> r.status == events[i].op.status)
  {
    RunExtends(EMPTY, events, i);
    ReachableIsConsistent(events[..i]);
    var e := events[i];
    TransitionSetsTheStatus(StateAt(events, i), e.fence, turn, expected, e.op.status, e.op.now);
    VersionIdentifiesRecord(events, i + 1, j, turn);
  }

  // ---- what enters the transcript --------------------------------------------------------------

  /** Only text that reached the user, whole or in part. */
  ghost predicate Delivered(db: Tables) {
    forall t | t in db.assistantTurns :: db.assistantTurns[t].deliveryState in {SentPartial, SentComplete}
  }

  lemma StepKeepsDelivered(db: Tables, event: Event)
    requires Inv(db) && Delivered(db)
    ensures Delivered(Apply(db, event))
  {
    if !event.EpochOpened? && event.op.OpCanonicalize? {
      AnswerKeepsDelivered(db, event.fence, event.op.turn, event.op.draft);
    } else {
      OtherStepsKeepAnswers(db, event);
    }
  }

  lemma OtherStepsKeepAnswers(db: Tables, event: Event)
    requires Inv(db) && (event.EpochOpened? || !event.op.OpCanonicalize?)
    ensures Apply(db, event).assistantTurns == db.assistantTurns
  {
    if Quietly(event) {
      QuietStep(db, event);
    } else if event.op.OpCommit? {
      CommitKeepsAnswers(db, event.fence, event.op.cmd, event.op.now);
    } else {
      RecordStepsKeepAnswers(db, event);
    }
  }

  lemma CommitKeepsAnswers(db: Tables, fence: nat, cmd: CommitCommand, now: Instant)
    ensures CommitUserTurn(db, fence, cmd, now).db.assistantTurns == db.assistantTurns
  {
  }

  lemma RecordStepsKeepAnswers(db: Tables, event: Event)
    requires !event.EpochOpened? && (event.op.OpTransition? || event.op.OpTerminalize? || event.op.OpClaim?)
    ensures Apply(db, event).assistantTurns == db.assistantTurns
  {
  }

  lemma AnswerKeepsDelivered(db: Tables, fence: nat, turn: Id, draft: Draft)
    requires Delivered(db)
    ensures Delivered(CanonicalizeTurn(db, fence, turn, draft).db)
  {
  }

  /** Output that was never delivered is in no reachable transcript. */
  lemma {:induction false} TranscriptIsDelivered(events: seq<Event>)
    ensures Delivered(Run(EMPTY, events))
  {
    if events != [] {
      var init := events[..|events| - 1];
      TranscriptIsDelivered(init);
      ReachableIsConsistent(init);
      StepKeepsDelivered(Run(EMPTY, init), events[|events| - 1]);
    }
  }

  // Canonicalizing succeeds exactly for the current store, with delivered text, on a turn it owns that
  // is answered already or whose answer id is free; an unanswered turn then has that text as its answer.
  lemma CanonicalizeStoresTheText(db: Tables, fence: nat, turn: Id, draft: Draft)
    requires Inv(db)
    ensures var out := CanonicalizeTurn(db, fence, turn, draft);
            && (out.reply.Ok? <==> draft.deliveryState in {SentPartial, SentComplete}
                                   && db.newestEpoch == fence && turn in db.turnRecords && db.turnRecords[turn].ownerEpoch == fence
                                   && (turn in db.assistantTurns || !AssistantTurnIdUsed(db, draft.assistantTurnId)))
            && (!out.reply.Ok? || turn in db.assistantTurns ==> out.db == db)
            && (out.reply.Ok? ==>
                  && turn in out.db.assistantTurns && out.reply.value == out.db.assistantTurns[turn].assistantTurnId
                  && (turn !in db.assistantTurns ==>
                        var a := out.db.assistantTurns[turn];
                        a.assistantTurnId == draft.assistantTurnId && a.action == draft.action && a.content == draft.content
                        && a.deliveryState == draft.deliveryState && a.conversation == db.userTurns[turn].conversation))
  {
    if turn in db.turnRecords { assert RecordOk(db.turnRecords[turn], db.newestEpoch); }
  }

  /** A first CP0 stores what the user sent, under the input that won, and opens the turn's record. */
  lemma CommitStoresTheUtterance(db: Tables, fence: nat, cmd: CommitCommand, now: Instant)
    requires Inv(db) && CommitUserTurn(db, fence, cmd, now).db != db
    ensures var out := CommitUserTurn(db, fence, cmd, now);
            && out.reply.Ok? && cmd.turn in out.db.userTurns && cmd.turn in out.db.turnRecords && cmd.turn !in db.turnRecords
            && var u, r := out.db.userTurns[cmd.turn], out.db.turnRecords[cmd.turn];
               && u.conversation == cmd.conversation && u.rawContent == cmd.rawContent
               && u.normalizedContent == cmd.normalizedContent && u.clientMessage == cmd.envelope.clientMessage
               && u.userTurnId == cmd.userTurnId && u.input == r.input == out.reply.value.input && u.input in out.db.envelopes
               && r.status == UserCommitted && r.outcome.None? && r.stateVersion == 1 && r.ownerEpoch == fence
               && r.runtimeVersion == cmd.runtimeVersion && r.startedAt == now && r.conversation == cmd.conversation
  {
    var input := WinningInput(db, cmd);
    assert CommitUserTurn(db, fence, cmd, now).db == Cp0Write(db, fence, cmd, input, now);
  }

  // ---- conversations and inputs ----------------------------------------------------------------------

  /** A conversation just begun takes the current store's first turn, numbered one and one. */
  lemma NewConversationTakesATurn(db: Tables, fence: nat, c: Id, persona: Option<Id>, scene: Option<Id>, cmd: CommitCommand, now: Instant)
    requires Inv(db) && c !in db.conversations && db.newestEpoch == fence && cmd.conversation == c
    requires cmd.turn !in db.turnRecords && !UserTurnIdUsed(db, cmd.userTurnId)
    requires !HasTurnForInput(db, WinningInput(db, cmd))
    ensures var begun := OpenConversation(db, c, persona, scene);
            var out := CommitUserTurn(begun, fence, cmd, now);
            && (fence != 0 ==> out.reply.Ok? && out.reply.value.turnSequence == 1 && out.reply.value.messageSequence == 1)
            && begun.conversations[c].persona == persona && begun.conversations[c].scene == scene
  {
    var begun := OpenConversation(db, c, persona, scene);
    assert WinningInput(begun, cmd) == WinningInput(db, cmd) by {
      if cmd.envelope.clientMessage.Some? && HasClientMessage(db, cmd.envelope.clientMessage.value) {
        assert HasClientMessage(begun, cmd.envelope.clientMessage.value);
      }
    }
    assert !HasTurnForInput(begun, WinningInput(db, cmd)) && !UserTurnIdUsed(begun, cmd.userTurnId);
  }

  /** An unbound conversation takes the first persona offered by a current store, and keeps it over any run. */
  lemma PersonaIsBoundOnce(db: Tables, fence: nat, c: Id, persona: Id, fence': nat, other: Id)
    requires Current(db, fence) && c in db.conversations
    ensures var out := BindPersona(db, fence, c, persona);
            var again := BindPersona(out.db, fence', c, other);
            && out.reply == Ok(db.conversations[c].persona.None?)
            && out.db.conversations[c].persona == (if db.conversations[c].persona.None? then Some(persona) else db.conversations[c].persona)
            && again.db == out.db
  {
  }

  /** Ingesting answers with the envelope that holds the client message from then on: the first one, or the new one as sent. */
  lemma IngestHoldsTheMessage(db: Tables, input: Id, envelope: Envelope)
    requires Inv(db) && Ingest(db, input, envelope).reply.Ok?
    ensures var out := Ingest(db, input, envelope);
            && out.reply.value in out.db.envelopes
            && out.db.envelopes[out.reply.value].clientMessage == envelope.clientMessage
            && (out.reply.value !in db.envelopes ==> out.db.envelopes[out.reply.value] == envelope)
            && (out.reply.value in db.envelopes ==> out.db == db)
  {
  }

  // ---- why a call is refused -------------------------------------------------------------------

  /** The store's epoch is the newest there is. */
  predicate Newest(db: Tables, fence: nat) {
    fence != 0 && db.newestEpoch == fence
  }

  predicate Ended(db: Tables, turn: Id) {
    turn in db.turnRecords && db.turnRecords[turn].outcome.Some?
  }

  predicate OwnedBy(db: Tables, turn: Id, fence: nat) {
    turn in db.turnRecords && db.turnRecords[turn].ownerEpoch == fence
  }

  /** Each refusal of a transition has one cause: an ending asked for, a newer store, no such turn, a foreign one, an ended one, a lost race. */
  lemma TransitionRefusals(db: Tables, fence: nat, turn: Id, expected: int, status: TurnStatus, now: Instant)
    requires Inv(db)
    ensures var reply := TransitionTurn(db, fence, turn, expected, status, now).reply;
            var ending := status in {Completed, CancelledByUser, FailedFinal};
            && (reply == Stale <==> !ending && !Newest(db, fence))
            && (reply == Err(NotFound) <==> !ending && Newest(db, fence) && turn !in db.turnRecords)
            && (reply == Err(AuthorityViolation) <==>
                  !ending && Newest(db, fence) && turn in db.turnRecords && !OwnedBy(db, turn, fence))
            && (reply == Err(ValidationFailed) <==> ending || (Newest(db, fence) && OwnedBy(db, turn, fence) && Ended(db, turn)))
            && (reply == Err(Conflict) <==>
                  && !ending && Newest(db, fence) && OwnedBy(db, turn, fence) && !Ended(db, turn)
                  && db.turnRecords[turn].stateVersion != expected)
  {
    if turn in db.turnRecords { assert RecordOk(db.turnRecords[turn], db.newestEpoch); }
  }

  lemma TerminalizeRefusals(db: Tables, fence: nat, turn: Id, outcome: TurnOutcome, now: Instant)
    requires Inv(db)
    ensures var reply := TerminalizeTurn(db, fence, turn, outcome, now).reply;
            && (reply == Stale <==> !Newest(db, fence))
            && (reply == Err(NotFound) <==> Newest(db, fence) && turn !in db.turnRecords)
            && (reply == Err(AuthorityViolation) <==> Newest(db, fence) && turn in db.turnRecords && !OwnedBy(db, turn, fence))
            && (reply == Err(ValidationFailed) <==> Newest(db, fence) && OwnedBy(db, turn, fence) && Ended(db, turn))
            && reply != Err(Conflict)
  {
    if turn in db.turnRecords { assert RecordOk(db.turnRecords[turn], db.newestEpoch); }
  }

  /** Claiming fails for an unknown turn, or when a stale store claims a live turn of another; an ended or own turn is handed back as it is. */
  lemma ClaimAnswers(db: Tables, fence: nat, turn: Id, now: Instant)
    requires Inv(db)
    ensures var out := ClaimTurn(db, fence, turn, now);
            && (out.reply == Err(NotFound) <==> turn !in db.turnRecords)
            && (out.reply == Stale <==> turn in db.turnRecords && !Ended(db, turn) && !OwnedBy(db, turn, fence) && !Newest(db, fence))
            && (out.reply.Err? ==> out.reply == Err(NotFound))
            && (out.reply.Ok? && (Ended(db, turn) || OwnedBy(db, turn, fence)) ==>
                  out.db == db && out.reply.value == db.turnRecords[turn])
            && (out.reply.Ok? && !Ended(db, turn) && !OwnedBy(db, turn, fence) ==>
                  && OnlyRecordMoved(db, out.db, turn) && out.reply.value == out.db.turnRecords[turn]
                  && OwnedBy(out.db, turn, fence) && out.db.turnRecords[turn].stateVersion == db.turnRecords[turn].stateVersion + 1
                  && out.db.turnRecords[turn].status == db.turnRecords[turn].status
                  && SameTurn(db.turnRecords[turn], out.db.turnRecords[turn]) && out.db.turnRecords[turn].updatedAt == now)
  {
    if turn in db.turnRecords { assert RecordOk(db.turnRecords[turn], db.newestEpoch); }
  }

  lemma CanonicalizeRefusals(db: Tables, fence: nat, turn: Id, draft: Draft)
    requires Inv(db)
    ensures var reply := CanonicalizeTurn(db, fence, turn, draft).reply;
            var delivered := draft.deliveryState in {SentPartial, SentComplete};
            && (reply == Err(ValidationFailed) <==> !delivered)
            && (reply == Stale <==> delivered && !Newest(db, fence))
            && (reply == Err(NotFound) <==> delivered && Newest(db, fence) && turn !in db.turnRecords)
            && (reply == Err(AuthorityViolation) <==>
                  delivered && Newest(db, fence) && turn in db.turnRecords && !OwnedBy(db, turn, fence))
            && (reply == Err(Conflict) <==>
                  && delivered && Newest(db, fence) && OwnedBy(db, turn, fence) && turn !in db.assistantTurns
                  && AssistantTurnIdUsed(db, draft.assistantTurnId))
  {
    if turn in db.turnRecords { assert RecordOk(db.turnRecords[turn], db.newestEpoch); }
  }

  /** A commit is refused by a newer store, for an unknown or closed conversation, or when a first commit's ids are taken. */
  lemma CommitRefusals(db: Tables, fence: nat, cmd: CommitCommand, now: Instant)
    requires Inv(db)
    ensures var out := CommitUserTurn(db, fence, cmd, now);
            var open := cmd.conversation in db.conversations && db.conversations[cmd.conversation].status == Active;
            && (out.reply == Stale <==> !Newest(db, fence))
            && (out.reply == Err(NotFound) <==> Newest(db, fence) && cmd.conversation !in db.conversations)
            && (out.reply == Err(ValidationFailed) <==> Newest(db, fence) && cmd.conversation in db.conversations && !open)
            && (out.reply == Err(Conflict) <==>
                  && Newest(db, fence) && open
                  && !(exists t :: t in db.userTurns && db.userTurns[t].input == WinningInput(db, cmd))
                  && (cmd.turn in db.turnRecords || UserTurnIdUsed(db, cmd.userTurnId)))
            && (!out.reply.Ok? ==> out.db == db)
  {
    forall t | t in db.userTurns ensures t in db.turnRecords {}
    forall t | t in db.turnRecords ensures t in db.userTurns {}
  }
}
