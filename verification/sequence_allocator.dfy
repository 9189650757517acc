// The in-memory reference allocator, and the refinement: replaying only the units that really
// wrote a row, it hands out exactly the numbers the durable counters hand out.
module SequenceAllocation {
  import opened ConversationTables
  import opened ConversationInvariants

  /** Last number handed out per conversation; absent means none yet. */
  datatype Counters = Counters(turns: map<Id, int>, messages: map<Id, int>)

  function Last(counter: map<Id, int>, c: Id): int {
    if c in counter then counter[c] else 0
  }

  function PeekTurn(a: Counters, c: Id): int { Last(a.turns, c) + 1 }

  function PeekMessage(a: Counters, c: Id): int { Last(a.messages, c) + 1 }

  function TakeTurn(a: Counters, c: Id): Counters {
    a.(turns := a.turns[c := PeekTurn(a, c)])
  }

  function TakeMessage(a: Counters, c: Id): Counters {
    a.(messages := a.messages[c := PeekMessage(a, c)])
  }

  class SequenceAllocator {
    var nextTurn: map<Id, int>
    var nextMessage: map<Id, int>

    function Value(): Counters
      reads this
    {
      Counters(nextTurn, nextMessage)
    }

    constructor ()
      ensures Value() == Counters(map[], map[])
    {
      nextTurn, nextMessage := map[], map[];
    }

    method AllocateTurn(c: Id) returns (value: int)
      modifies this
      ensures value == PeekTurn(old(Value()), c) && Value() == TakeTurn(old(Value()), c)
      ensures PeekTurn(Value(), c) == value + 1
    {
      value := (if c in nextTurn then nextTurn[c] else 0) + 1;
      nextTurn := nextTurn[c := value];
    }

    method AllocateMessage(c: Id) returns (value: int)
      modifies this
      ensures value == PeekMessage(old(Value()), c) && Value() == TakeMessage(old(Value()), c)
      ensures PeekMessage(Value(), c) == value + 1
    {
      value := (if c in nextMessage then nextMessage[c] else 0) + 1;
      nextMessage := nextMessage[c := value];
    }
  }

  /** What the reference allocator is asked for while the tables take one step. */
  ghost function AllocStep(db: Tables, a: Counters, event: Event): Counters {
    if Apply(db, event) == db || event.EpochOpened? then a
    else if event.op.OpCommit? then
      TakeMessage(TakeTurn(a, event.op.cmd.conversation), event.op.cmd.conversation)
    else if event.op.OpCanonicalize? && event.op.turn in db.userTurns then
      TakeMessage(a, db.userTurns[event.op.turn].conversation)
    else a
  }

  ghost function Replay(events: seq<Event>): Counters {
    if events == [] then Counters(map[], map[])
    else
      var init := events[..|events| - 1];
      AllocStep(Run(EMPTY, init), Replay(init), events[|events| - 1])
  }

  ghost predicate Agrees(db: Tables, a: Counters) {
    forall c ::
      && PeekTurn(a, c) == (if c in db.conversations then db.conversations[c].nextTurn else 1)
      && PeekMessage(a, c) == (if c in db.conversations then db.conversations[c].nextMessage else 1)
  }

  /** A first CP0 numbers its row with what the allocator would have returned. */
  lemma Cp0TakesTheNextNumbers(db: Tables, a: Counters, fence: nat, cmd: CommitCommand, now: Instant)
    requires Agrees(db, a) && CommitUserTurn(db, fence, cmd, now).db != db
    ensures var out, c := CommitUserTurn(db, fence, cmd, now), cmd.conversation;
            && out.reply.Ok? && cmd.turn in out.db.userTurns
            && out.db.userTurns[cmd.turn].turnSequence == out.reply.value.turnSequence == PeekTurn(a, c)
            && out.db.userTurns[cmd.turn].messageSequence == out.reply.value.messageSequence == PeekMessage(a, c)
            && Agrees(out.db, TakeMessage(TakeTurn(a, c), c))
  {
    var input, conv := WinningInput(db, cmd), db.conversations[cmd.conversation];
    assert CommitUserTurn(db, fence, cmd, now).db == Cp0Write(db, fence, cmd, input, now);
    assert PeekTurn(a, cmd.conversation) == conv.nextTurn;
  }

  lemma AnswerTakesTheNextNumber(db: Tables, a: Counters, fence: nat, turn: Id, draft: Draft)
    requires Agrees(db, a) && CanonicalizeTurn(db, fence, turn, draft).db != db
    ensures var out := CanonicalizeTurn(db, fence, turn, draft);
            && turn in db.userTurns && turn in out.db.assistantTurns
            && out.db.assistantTurns[turn].messageSequence == PeekMessage(a, db.userTurns[turn].conversation)
            && out.db.assistantTurns[turn].turnSequence == db.userTurns[turn].turnSequence
            && Agrees(out.db, TakeMessage(a, db.userTurns[turn].conversation))
  {
    assert CanonicalizeTurn(db, fence, turn, draft).db == AnswerWrite(db, turn, draft);
    assert PeekMessage(a, db.userTurns[turn].conversation) ==
           db.conversations[db.userTurns[turn].conversation].nextMessage;
  }

  lemma RecordStepAgrees(db: Tables, a: Counters, fence: nat, op: Op)
    requires Agrees(db, a) && (op.OpTransition? || op.OpTerminalize? || op.OpClaim?)
    ensures Agrees(Apply(db, Call(fence, op)), a)
  {
    assert Apply(db, Call(fence, op)).conversations == db.conversations;
  }

  lemma QuietStepAgrees(db: Tables, a: Counters, event: Event)
    requires Inv(db) && Agrees(db, a) && Quietly(event)
    ensures Agrees(Apply(db, event), a)
  {
    QuietStep(db, event);
  }

  lemma StepAgrees(db: Tables, a: Counters, event: Event)
    requires Inv(db) && Agrees(db, a)
    ensures Agrees(Apply(db, event), AllocStep(db, a, event))
  {
    if Apply(db, event) == db {
    } else if Quietly(event) {
      QuietStepAgrees(db, a, event);
    } else if event.op.OpCommit? {
      Cp0TakesTheNextNumbers(db, a, event.fence, event.op.cmd, event.op.now);
    } else if event.op.OpCanonicalize? {
      AnswerTakesTheNextNumber(db, a, event.fence, event.op.turn, event.op.draft);
    } else {
      RecordStepAgrees(db, a, event.fence, event.op);
    }
  }

  /** In every reachable state the durable counters stand where the reference allocator stands. */
  lemma {:induction false} DurableCountersRefineTheAllocator(events: seq<Event>)
    ensures Agrees(Run(EMPTY, events), Replay(events))
  {
    if events != [] {
      var init := events[..|events| - 1];
      DurableCountersRefineTheAllocator(init);
      ReachableIsConsistent(init);
      StepAgrees(Run(EMPTY, init), Replay(init), events[|events| - 1]);
    }
  }

  // The numbers of one conversation, in every reachable state: turn numbers 1..next-1 and message
  // numbers 1..next-1 are each held by exactly one row, and an answer is numbered after its question.
  lemma EveryNumberHasOneRow(events: seq<Event>, c: Id, s: int)
    requires c in Run(EMPTY, events).conversations
    ensures var db := Run(EMPTY, events);
            var conv := db.conversations[c];
            && (1 <= s < conv.nextTurn <==> |set t | t in UsersOf(db, c) && db.userTurns[t].turnSequence == s| == 1)
            && (1 <= s < conv.nextMessage <==>
                  |UsersAt(db, c, s)| + |AssistantsAt(db, c, s)| == 1)
            && |UsersOf(db, c)| == conv.nextTurn - 1
            && |AssistantsOf(db, c)| == conv.nextMessage - conv.nextTurn
            && (forall t :: t in AssistantsOf(db, c) ==>
                  && t in UsersOf(db, c)
                  && db.assistantTurns[t].turnSequence == db.userTurns[t].turnSequence
                  && db.userTurns[t].messageSequence < db.assistantTurns[t].messageSequence)
  {
    var db := Run(EMPTY, events);
    ReachableIsConsistent(events);
    assert DenseAt(db, c);
    TurnNumberHasOneRow(db, c, s);
    MessageNumberHasOneRow(db, c, s);
  }

  function UsersAt(db: Tables, c: Id, s: int): set<Id> {
    set t | t in UsersOf(db, c) && db.userTurns[t].messageSequence == s
  }

  function AssistantsAt(db: Tables, c: Id, s: int): set<Id> {
    set t | t in AssistantsOf(db, c) && db.assistantTurns[t].messageSequence == s
  }

  lemma TurnNumberHasOneRow(db: Tables, c: Id, s: int)
    requires Distinct(db) && c in db.conversations && DenseAt(db, c)
    ensures 1 <= s < db.conversations[c].nextTurn <==>
            |set t | t in UsersOf(db, c) && db.userTurns[t].turnSequence == s| == 1
  {
    var rows := set t | t in UsersOf(db, c) && db.userTurns[t].turnSequence == s;
    assert s in TurnNumbers(db, c) <==> 1 <= s < db.conversations[c].nextTurn;
    if s in TurnNumbers(db, c) {
      var t :| t in UsersOf(db, c) && db.userTurns[t].turnSequence == s;
      assert forall x :: x in rows <==> x == t;
      assert rows == {t};
    } else {
      assert forall x :: x !in rows;
    }
  }

  lemma MessageNumberHasOneRow(db: Tables, c: Id, s: int)
    requires Distinct(db) && c in db.conversations && DenseAt(db, c)
    ensures 1 <= s < db.conversations[c].nextMessage <==> |UsersAt(db, c, s)| + |AssistantsAt(db, c, s)| == 1
  {
    assert s in MessageNumbers(db, c) <==> 1 <= s < db.conversations[c].nextMessage;
    if exists t :: t in UsersOf(db, c) && db.userTurns[t].messageSequence == s {
      var t :| t in UsersOf(db, c) && db.userTurns[t].messageSequence == s;
      assert forall x :: x in UsersAt(db, c, s) <==> x == t;
      assert UsersAt(db, c, s) == {t};
      assert forall x :: x !in AssistantsAt(db, c, s);
    } else if exists t :: t in AssistantsOf(db, c) && db.assistantTurns[t].messageSequence == s {
      var t :| t in AssistantsOf(db, c) && db.assistantTurns[t].messageSequence == s;
      assert forall x :: x in AssistantsAt(db, c, s) <==> x == t;
      assert AssistantsAt(db, c, s) == {t};
      assert forall x :: x !in UsersAt(db, c, s);
    } else {
      assert forall x :: x !in UsersAt(db, c, s) && x !in AssistantsAt(db, c, s);
    }
  }
}
