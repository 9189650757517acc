// What holds across whole runs: any interleaving of process starts and of calls by any number
// of stores, each with the epoch it adopted.
module ConversationHistory {
  import opened ConversationTables
  import opened ConversationInvariants

  /** How one turn record may look later. */
  ghost predicate RecordLater(r: TurnRecord, r': TurnRecord) {
    && r.stateVersion <= r'.stateVersion
    && (r.stateVersion == r'.stateVersion ==> r == r')
    && (Terminal(r.status) ==> r == r')
    && r.ownerEpoch <= r'.ownerEpoch
    && r.conversation == r'.conversation && r.turnSequence == r'.turnSequence && r.input == r'.input
  }

  ghost predicate Later(db: Tables, db': Tables) {
    && db.newestEpoch <= db'.newestEpoch
    && (forall t :: t in db.turnRecords ==>
          t in db'.turnRecords && RecordLater(db.turnRecords[t], db'.turnRecords[t]))
    && (forall t :: t in db.userTurns ==> t in db'.userTurns && db.userTurns[t] == db'.userTurns[t])
    && (forall t :: t in db.assistantTurns ==>
          t in db'.assistantTurns && db.assistantTurns[t] == db'.assistantTurns[t])
    && (forall i :: i in db.envelopes ==> i in db'.envelopes && db.envelopes[i] == db'.envelopes[i])
    && (forall c :: c in db.conversations ==>
          && c in db'.conversations
          && db.conversations[c].status == db'.conversations[c].status
          && db.conversations[c].nextTurn <= db'.conversations[c].nextTurn
          && db.conversations[c].nextMessage <= db'.conversations[c].nextMessage)
  }

  lemma PutRecordIsLater(db: Tables, turn: Id, r': TurnRecord)
    requires turn in db.turnRecords && RecordLater(db.turnRecords[turn], r')
    ensures Later(db, PutRecord(db, turn, r').db)
  {
  }

  lemma TransitionIsLater(db: Tables, fence: nat, turn: Id, expected: int, status: TurnStatus, now: Instant)
    ensures Later(db, TransitionTurn(db, fence, turn, expected, status, now).db)
  {
    var out := TransitionTurn(db, fence, turn, expected, status, now);
    if out.reply.Ok? { PutRecordIsLater(db, turn, out.reply.value); }
  }

  lemma TerminalizeIsLater(db: Tables, fence: nat, turn: Id, outcome: TurnOutcome, now: Instant)
    ensures Later(db, TerminalizeTurn(db, fence, turn, outcome, now).db)
  {
    var out := TerminalizeTurn(db, fence, turn, outcome, now);
    if out.reply.Ok? { PutRecordIsLater(db, turn, out.reply.value); }
  }

  lemma ClaimIsLater(db: Tables, fence: nat, turn: Id, now: Instant)
    requires Owned(db)
    ensures Later(db, ClaimTurn(db, fence, turn, now).db)
  {
    var out := ClaimTurn(db, fence, turn, now);
    if out.db != db {
      assert RecordOk(db.turnRecords[turn], db.newestEpoch);
      PutRecordIsLater(db, turn, out.reply.value);
    }
  }

  lemma RecordStepIsLater(db: Tables, fence: nat, op: Op)
    requires Owned(db) && (op.OpTransition? || op.OpTerminalize? || op.OpClaim?)
    ensures Later(db, Apply(db, Call(fence, op)))
  {
    match op
    case OpTransition(turn, expected, status, now) => TransitionIsLater(db, fence, turn, expected, status, now);
    case OpTerminalize(turn, outcome, now) => TerminalizeIsLater(db, fence, turn, outcome, now);
    case OpClaim(turn, now) => ClaimIsLater(db, fence, turn, now);
  }

  lemma Cp0IsLater(db: Tables, fence: nat, cmd: CommitCommand, input: Id, now: Instant)
    requires cmd.conversation in db.conversations && cmd.turn !in db.userTurns && cmd.turn !in db.turnRecords
    ensures Later(db, Cp0Write(db, fence, cmd, input, now))
  {
  }

  lemma QuietIsLater(db: Tables, event: Event)
    requires Inv(db) && Quietly(event)
    ensures Later(db, Apply(db, event))
  {
    QuietStep(db, event);
  }

  lemma AnswerIsLater(db: Tables, fence: nat, turn: Id, draft: Draft)
    ensures Later(db, CanonicalizeTurn(db, fence, turn, draft).db)
  {
  }

  lemma CommitIsLater(db: Tables, fence: nat, cmd: CommitCommand, now: Instant)
    requires Inv(db)
    ensures Later(db, CommitUserTurn(db, fence, cmd, now).db)
  {
    if CommitUserTurn(db, fence, cmd, now).db != db {
      Cp0IsLater(db, fence, cmd, WinningInput(db, cmd), now);
    }
  }

  lemma StepIsLater(db: Tables, event: Event)
    requires Inv(db)
    ensures Later(db, Apply(db, event))
  {
    if Quietly(event) {
      QuietIsLater(db, event);
    } else if event.op.OpCommit? {
      CommitIsLater(db, event.fence, event.op.cmd, event.op.now);
    } else if event.op.OpCanonicalize? {
      AnswerIsLater(db, event.fence, event.op.turn, event.op.draft);
    } else {
      RecordStepIsLater(db, event.fence, event.op);
    }
  }

  lemma LaterTransitive(a: Tables, b: Tables, c: Tables)
    requires Later(a, b) && Later(b, c)
    ensures Later(a, c)
  {
    forall t | t in a.turnRecords
      ensures t in c.turnRecords && RecordLater(a.turnRecords[t], c.turnRecords[t])
    {
      assert RecordLater(a.turnRecords[t], b.turnRecords[t]);
      assert RecordLater(b.turnRecords[t], c.turnRecords[t]);
    }
  }

  lemma {:induction false} RunIsLater(db: Tables, events: seq<Event>)
    requires Inv(db)
    ensures Inv(Run(db, events)) && Later(db, Run(db, events))
  {
    if events != [] {
      var init, last := events[..|events| - 1], events[|events| - 1];
      RunIsLater(db, init);
      StepKeeps(Run(db, init), last);
      StepIsLater(Run(db, init), last);
      LaterTransitive(db, Run(db, init), Run(db, events));
    }
  }

  // ---- versions, terminal states --------------------------------------------

  ghost function StateAt(events: seq<Event>, i: nat): Tables
    requires i <= |events|
  {
    Run(EMPTY, events[..i])
  }

  lemma SnapshotsSplit(events: seq<Event>, i: nat, j: nat)
    requires i <= j <= |events|
    ensures StateAt(events, j) == Run(StateAt(events, i), events[i..j])
  {
    RunSplits(EMPTY, events[..i], events[i..j]);
    assert events[..i] + events[i..j] == events[..j];
  }

  lemma SnapshotsAreOrdered(events: seq<Event>, i: nat, j: nat)
    requires i <= j <= |events|
    ensures Inv(StateAt(events, i)) && Later(StateAt(events, i), StateAt(events, j))
  {
    ReachableIsConsistent(events[..i]);
    SnapshotsSplit(events, i, j);
    RunIsLater(StateAt(events, i), events[i..j]);
  }

  /** Any two snapshots of a turn: versions only grow, and one version is one record. */
  lemma VersionIdentifiesRecord(events: seq<Event>, i: nat, j: nat, turn: Id)
    requires i <= j <= |events| && turn in StateAt(events, i).turnRecords
    ensures turn in StateAt(events, j).turnRecords
    ensures var r, r' := StateAt(events, i).turnRecords[turn], StateAt(events, j).turnRecords[turn];
            && r.stateVersion <= r'.stateVersion
            && (r.stateVersion == r'.stateVersion ==> r == r')
            && r.ownerEpoch <= r'.ownerEpoch <= StateAt(events, j).newestEpoch
  {
    SnapshotsAreOrdered(events, i, j);
    ReachableIsConsistent(events[..j]);
    assert RecordOk(StateAt(events, j).turnRecords[turn], StateAt(events, j).newestEpoch);
  }

  /** A terminal record never changes again, and it is terminal exactly when an outcome is stored. */
  lemma TerminalIsForEver(events: seq<Event>, i: nat, j: nat, turn: Id)
    requires i <= j <= |events| && turn in StateAt(events, i).turnRecords
    ensures var r := StateAt(events, i).turnRecords[turn];
            && (Terminal(r.status) <==> r.outcome.Some?)
            && (r.outcome.Some? ==> r.status == TerminalStatus(r.outcome.value))
            && (Terminal(r.status) ==>
                  turn in StateAt(events, j).turnRecords && StateAt(events, j).turnRecords[turn] == r)
  {
    SnapshotsAreOrdered(events, i, j);
    assert RecordOk(StateAt(events, i).turnRecords[turn], StateAt(events, i).newestEpoch);
  }

  /** Step i rewrites the record that carried version v of `turn`. */
  ghost predicate Consumes(events: seq<Event>, i: nat, turn: Id, v: int)
    requires i < |events|
  {
    && turn in StateAt(events, i).turnRecords
    && StateAt(events, i).turnRecords[turn].stateVersion == v
    && turn in StateAt(events, i + 1).turnRecords
    && StateAt(events, i + 1).turnRecords[turn] != StateAt(events, i).turnRecords[turn]
  }

  /** Each version of a turn is consumed by at most one step of any run. */
  lemma OneStepPerVersion(events: seq<Event>, i: nat, j: nat, turn: Id, v: int)
    requires i < |events| && j < |events|
    requires Consumes(events, i, turn, v) && Consumes(events, j, turn, v)
    ensures i == j
  {
    if i < j {
      VersionIdentifiesRecord(events, i, i + 1, turn);
      VersionIdentifiesRecord(events, i + 1, j, turn);
    } else if j < i {
      VersionIdentifiesRecord(events, j, j + 1, turn);
      VersionIdentifiesRecord(events, j + 1, i, turn);
    }
  }

  ghost predicate WinsTransition(events: seq<Event>, i: nat, turn: Id, expected: int)
    requires i < |events|
  {
    var e := events[i];
    && e.Call? && e.op.OpTransition? && e.op.turn == turn && e.op.expected == expected
    && TransitionTurn(StateAt(events, i), e.fence, turn, expected, e.op.status, e.op.now).reply.Ok?
  }

  /** Of all the callers that race with one expected version, at most one is told Ok. */
  lemma OneWinnerPerExpectedVersion(events: seq<Event>, i: nat, j: nat, turn: Id, expected: int)
    requires i < |events| && j < |events|
    requires WinsTransition(events, i, turn, expected) && WinsTransition(events, j, turn, expected)
    ensures i == j
  {
    RunExtends(EMPTY, events, i);
    RunExtends(EMPTY, events, j);
    OneStepPerVersion(events, i, j, turn, expected);
  }

  // ---- fencing ---------------------------------------------------------------

  ghost predicate SameTranscript(db: Tables, db': Tables) {
    && db'.turnRecords == db.turnRecords && db'.userTurns == db.userTurns
    && db'.assistantTurns == db.assistantTurns && db'.newestEpoch == db.newestEpoch
    && forall c :: c in db.conversations ==>
         && c in db'.conversations
         && db'.conversations[c] == db.conversations[c]
  }

  /** A store that adopted an epoch other than the newest writes no turn and no transcript row. */
  lemma StaleStoreIsInert(db: Tables, fence: nat, op: Op)
    requires fence != db.newestEpoch
    ensures SameTranscript(db, Apply(db, Call(fence, op)))
  {
  }

  /** Once a newer epoch exists, nothing an older store does later reaches a turn. */
  lemma FencedForEver(events: seq<Event>, i: nat, j: nat)
    requires i <= j < |events| && events[j].Call? && events[j].fence < StateAt(events, i).newestEpoch
    ensures SameTranscript(StateAt(events, j), StateAt(events, j + 1))
  {
    SnapshotsAreOrdered(events, i, j);
    RunExtends(EMPTY, events, j);
    StaleStoreIsInert(StateAt(events, j), events[j].fence, events[j].op);
  }
}
