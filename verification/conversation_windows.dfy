/** The three transcript reads: the persona's window, its full history, and the user's window. */
module ConversationWindows {
  import opened ConversationTables
  import opened ConversationInvariants
  import opened Ordering

  datatype ActionType =
    | NormalPersonaReply | TeachingOpen | TeachingHint | TeachingReveal | TeachingExplanation | PersonaResume

  const TEACHING_REQUEST_MARKER := "\"type\":\"TEACHING_REQUEST\""
  const TEACHING_RESPONSE_MARKER := "\"type\":\"TEACHING_RESPONSE\""

  function Lower(c: char): char {
    if 'A' <= c <= 'Z' then c + ' ' else c
  }

  /** SQLite `LIKE '%marker%'`: ASCII case is folded, and `_` stands for any one character. */
  predicate LikeContains(text: string, marker: string) {
    exists i :: 0 <= i <= |text| - |marker| && LikeAt(text, marker, i)
  }

  predicate LikeAt(text: string, marker: string, at: nat)
    requires at + |marker| <= |text|
  {
    forall k | 0 <= k < |marker| :: marker[k] == '_' || Lower(text[at + k]) == Lower(marker[k])
  }

  predicate CommandTurn(u: UserTurn, e: Envelope) {
    && u.rawContent == ""
    && (LikeContains(e.rawPayload, TEACHING_REQUEST_MARKER) || LikeContains(e.rawPayload, TEACHING_RESPONSE_MARKER))
  }

  /** The rows every window reads: the conversation's turns that join an envelope and are no command. */
  function VisibleTurns(db: Tables, c: Id): set<Id> {
    set t | t in UsersOf(db, c) && db.userTurns[t].input in db.envelopes
            && !CommandTurn(db.userTurns[t], db.envelopes[db.userTurns[t].input])
  }

  function Earlier(db: Tables): (Id, Id) -> bool {
    (t: Id, u: Id) =>
      t in db.userTurns && u in db.userTurns && db.userTurns[t].turnSequence < db.userTurns[u].turnSequence
  }

  datatype Slice = Slice(turn: Id, user: UserTurn, assistant: Option<AssistantTurn>, outcome: Option<TurnOutcome>)

  function OutcomeOf(db: Tables, t: Id): Option<TurnOutcome> {
    if t in db.turnRecords then db.turnRecords[t].outcome else None
  }

  /** Whatever was canonically delivered. */
  function UserSlice(db: Tables, t: Id): Slice
    requires t in db.userTurns
  {
    Slice(t, db.userTurns[t], if t in db.assistantTurns then Some(db.assistantTurns[t]) else None, OutcomeOf(db, t))
  }

  /** Only an answer whose action row exists and is the ordinary reply. */
  function PersonaSlice(db: Tables, actions: map<Id, ActionType>, t: Id): Slice
    requires t in db.userTurns
  {
    var whole := UserSlice(db, t);
    if whole.assistant.Some? && whole.assistant.value.action in actions
       && actions[whole.assistant.value.action].NormalPersonaReply?
    then whole
    else whole.(assistant := None)
  }

  function PersonaSlices(db: Tables, actions: map<Id, ActionType>, turns: seq<Id>): seq<Slice>
    requires forall t :: t in turns ==> t in db.userTurns
  {
    seq(|turns|, i requires 0 <= i < |turns| => PersonaSlice(db, actions, turns[i]))
  }

  function UserSlices(db: Tables, turns: seq<Id>): seq<Slice>
    requires forall t :: t in turns ==> t in db.userTurns
  {
    seq(|turns|, i requires 0 <= i < |turns| => UserSlice(db, turns[i]))
  }

  /** LIMIT n; SQLite reads a negative limit as no limit. */
  function Limit<T>(rows: seq<T>, n: int): (cut: seq<T>)
    ensures forall x :: x in cut ==> x in rows
  {
    if 0 <= n < |rows| then rows[..n] else rows
  }

  /** ORDER BY turn_sequence determines one listing of the visible turns. */
  ghost predicate Orderly(db: Tables, c: Id) {
    StrictTotal(VisibleTurns(db, c), Earlier(db))
  }

  /** The reads rest on the uniqueness of turn numbers, which every reachable state has. */
  lemma ReachableIsOrderly(events: seq<Event>, c: Id)
    ensures Orderly(Run(EMPTY, events), c)
  {
    var db := Run(EMPTY, events);
    ReachableIsConsistent(events);
    forall t, u | t in VisibleTurns(db, c) && u in VisibleTurns(db, c) && t != u
      ensures Earlier(db)(t, u) || Earlier(db)(u, t)
    {
      assert SameTalk(db.userTurns[t], db.userTurns[u]);
    }
  }

  /** ORDER BY turn_sequence */
  ghost function OldestFirst(db: Tables, c: Id): (turns: seq<Id>)
    requires Orderly(db, c)
    ensures forall t :: t in turns <==> t in VisibleTurns(db, c)
  {
    OrderByLists(VisibleTurns(db, c), Earlier(db));
    OrderBy(VisibleTurns(db, c), Earlier(db))
  }

  /** ORDER BY turn_sequence DESC */
  ghost function NewestFirst(db: Tables, c: Id): (turns: seq<Id>)
    requires Orderly(db, c)
    ensures forall t :: t in turns <==> t in VisibleTurns(db, c)
  {
    OppositeOrder(VisibleTurns(db, c), Earlier(db));
    OrderByLists(VisibleTurns(db, c), Opposite(Earlier(db)));
    OrderBy(VisibleTurns(db, c), Opposite(Earlier(db)))
  }

  lemma NewestFirstIsReversed(db: Tables, c: Id)
    requires Orderly(db, c)
    ensures NewestFirst(db, c) == Reversed(OldestFirst(db, c))
  {
    OppositeOrder(VisibleTurns(db, c), Earlier(db));
  }

  ghost function PersonaHistory(db: Tables, actions: map<Id, ActionType>, c: Id): seq<Slice>
    requires Orderly(db, c)
  {
    PersonaSlices(db, actions, OldestFirst(db, c))
  }

  ghost function PersonaWindow(db: Tables, actions: map<Id, ActionType>, c: Id, n: int): seq<Slice>
    requires Orderly(db, c)
  {
    Reversed(PersonaSlices(db, actions, Limit(NewestFirst(db, c), n)))
  }

  ghost function UserWindow(db: Tables, c: Id, n: int): seq<Slice>
    requires Orderly(db, c)
  {
    Reversed(UserSlices(db, Limit(NewestFirst(db, c), n)))
  }

  function LastOf<T>(l: seq<T>, n: nat): seq<T> {
    if n < |l| then l[|l| - n..] else l
  }

  /** Mapped newest first, cut, then turned round: the last n of the oldest-first mapping. */
  lemma CutIsSuffix(db: Tables, actions: map<Id, ActionType>, turns: seq<Id>, n: nat)
    requires forall t :: t in turns ==> t in db.userTurns
    requires forall t :: t in Reversed(turns) ==> t in db.userTurns
    ensures Reversed(PersonaSlices(db, actions, Limit(Reversed(turns), n)))
         == LastOf(PersonaSlices(db, actions, turns), n)
  {
  }

  /** In every reachable state the persona's window of n is exactly the last n slices of its full history. */
  lemma WindowIsHistorySuffix(events: seq<Event>, actions: map<Id, ActionType>, c: Id, n: nat)
    ensures var db := Run(EMPTY, events);
            && Orderly(db, c)
            && PersonaWindow(db, actions, c, n) == LastOf(PersonaHistory(db, actions, c), n)
  {
    ReachableIsOrderly(events, c);
    WindowIsSuffix(Run(EMPTY, events), actions, c, n);
  }

  lemma WindowIsSuffix(db: Tables, actions: map<Id, ActionType>, c: Id, n: nat)
    requires Orderly(db, c)
    ensures PersonaWindow(db, actions, c, n) == LastOf(PersonaHistory(db, actions, c), n)
  {
    NewestFirstIsReversed(db, c);
    CutIsSuffix(db, actions, OldestFirst(db, c), n);
  }

  // The user's window shows the same turns in the same order; each answer is the persona's, or
  // one the persona may not read.
  lemma UserWindowMirrorsPersona(db: Tables, actions: map<Id, ActionType>, c: Id, n: int)
    requires Orderly(db, c)
    ensures |UserWindow(db, c, n)| == |PersonaWindow(db, actions, c, n)|
    ensures forall i | 0 <= i < |UserWindow(db, c, n)| ::
              Mirrors(actions, UserWindow(db, c, n)[i], PersonaWindow(db, actions, c, n)[i])
  {
    SlicesMirror(db, actions, Limit(NewestFirst(db, c), n));
  }

  lemma SlicesMirror(db: Tables, actions: map<Id, ActionType>, turns: seq<Id>)
    requires forall t :: t in turns ==> t in db.userTurns
    ensures forall i | 0 <= i < |turns| ::
              Mirrors(actions, UserSlices(db, turns)[i], PersonaSlices(db, actions, turns)[i])
  {
  }

  predicate Mirrors(actions: map<Id, ActionType>, u: Slice, p: Slice) {
    && u.turn == p.turn && u.user == p.user && u.outcome == p.outcome
    && (p.assistant == u.assistant || p.assistant.None?)
    && (p.assistant.Some? <==>
          && u.assistant.Some? && u.assistant.value.action in actions
          && actions[u.assistant.value.action].NormalPersonaReply?)
  }

  predicate Utterance(db: Tables, c: Id, t: Id) {
    t in UsersOf(db, c) && db.userTurns[t].input in db.envelopes
    && !CommandTurn(db.userTurns[t], db.envelopes[db.userTurns[t].input])
  }

  /** The full history holds utterances only: no command turn reaches the persona. */
  lemma HistoryHoldsUtterances(db: Tables, actions: map<Id, ActionType>, c: Id, i: nat)
    requires Orderly(db, c) && i < |PersonaHistory(db, actions, c)|
    ensures var slice := PersonaHistory(db, actions, c)[i];
            Utterance(db, c, slice.turn) && slice.user == db.userTurns[slice.turn]
  {
    assert OldestFirst(db, c)[i] in VisibleTurns(db, c);
  }

  /** It is oldest first, so no turn appears twice. */
  lemma HistoryIsOldestFirst(db: Tables, actions: map<Id, ActionType>, c: Id, i: nat, j: nat)
    requires Orderly(db, c) && i < j < |PersonaHistory(db, actions, c)|
    ensures var h := PersonaHistory(db, actions, c); h[i].user.turnSequence < h[j].user.turnSequence
  {
    var turns := OldestFirst(db, c);
    OrderByLists(VisibleTurns(db, c), Earlier(db));
    assert Earlier(db)(turns[i], turns[j]);
  }

  /** ... and it holds every one of them. */
  lemma HistoryHoldsEveryUtterance(db: Tables, actions: map<Id, ActionType>, c: Id, t: Id)
    requires Orderly(db, c) && Utterance(db, c, t)
    ensures exists i :: 0 <= i < |PersonaHistory(db, actions, c)| && PersonaHistory(db, actions, c)[i].turn == t
  {
    var turns := OldestFirst(db, c);
    assert t in VisibleTurns(db, c);
    var i :| 0 <= i < |turns| && turns[i] == t;
    assert PersonaHistory(db, actions, c)[i].turn == t;
  }

  // ---- which turns are commands ----------------------------------------------------------------

  ghost predicate Shown(db: Tables, actions: map<Id, ActionType>, c: Id, t: Id)
    requires Orderly(db, c)
  {
    exists i :: 0 <= i < |PersonaHistory(db, actions, c)| && PersonaHistory(db, actions, c)[i].turn == t
  }

  predicate SaysAt(text: string, words: string, i: nat) {
    i + |words| <= |text| && text[i..i + |words|] == words
  }

  lemma SaidIsFound(text: string, marker: string, i: nat)
    requires SaysAt(text, marker, i)
    ensures LikeContains(text, marker)
  {
    forall k | 0 <= k < |marker| ensures marker[k] == text[i + k] { assert text[i..i + |marker|][k] == text[i + k]; }
    assert LikeAt(text, marker, i);
  }

  /** Whatever its payload, a turn in which the user said something is in the history. */
  lemma SpokenTurnIsShown(db: Tables, actions: map<Id, ActionType>, c: Id, t: Id)
    requires Orderly(db, c) && t in db.userTurns && db.userTurns[t].conversation == c && db.userTurns[t].input in db.envelopes
    requires db.userTurns[t].rawContent != ""
    ensures Shown(db, actions, c, t)
  {
    HistoryHoldsEveryUtterance(db, actions, c, t);
  }

  /** A silent turn that carries a teaching request or response in so many words is not. */
  lemma TeachingCommandIsHidden(db: Tables, actions: map<Id, ActionType>, c: Id, t: Id, i: nat)
    requires Orderly(db, c) && t in db.userTurns && db.userTurns[t].input in db.envelopes && db.userTurns[t].rawContent == ""
    requires var payload := db.envelopes[db.userTurns[t].input].rawPayload;
             SaysAt(payload, "\"type\":\"TEACHING_REQUEST\"", i) || SaysAt(payload, "\"type\":\"TEACHING_RESPONSE\"", i)
    ensures !Shown(db, actions, c, t)
  {
    var payload := db.envelopes[db.userTurns[t].input].rawPayload;
    if SaysAt(payload, TEACHING_REQUEST_MARKER, i) { SaidIsFound(payload, TEACHING_REQUEST_MARKER, i); }
    else { SaidIsFound(payload, TEACHING_RESPONSE_MARKER, i); }
    if Shown(db, actions, c, t) {
      var k :| 0 <= k < |PersonaHistory(db, actions, c)| && PersonaHistory(db, actions, c)[k].turn == t;
      HistoryHoldsUtterances(db, actions, c, k);
    }
  }

  /** A silent turn whose payload has no quotation mark, or is too short for a marker, is a turn like any other. */
  lemma PlainSilenceIsShown(db: Tables, actions: map<Id, ActionType>, c: Id, t: Id)
    requires Orderly(db, c) && t in db.userTurns && db.userTurns[t].conversation == c && db.userTurns[t].input in db.envelopes
    requires var payload := db.envelopes[db.userTurns[t].input].rawPayload; '\"' !in payload || |payload| < 25
    ensures Shown(db, actions, c, t)
  {
    var payload := db.envelopes[db.userTurns[t].input].rawPayload;
    assert TEACHING_REQUEST_MARKER[0] == '\"' && TEACHING_RESPONSE_MARKER[0] == '\"';
    assert |TEACHING_REQUEST_MARKER| == 25 && |TEACHING_RESPONSE_MARKER| == 26;
    forall i | 0 <= i <= |payload| - 25 && LikeAt(payload, TEACHING_REQUEST_MARKER, i) ensures false { QuoteIsThere(payload, TEACHING_REQUEST_MARKER, i); }
    forall i | 0 <= i <= |payload| - 26 && LikeAt(payload, TEACHING_RESPONSE_MARKER, i) ensures false { QuoteIsThere(payload, TEACHING_RESPONSE_MARKER, i); }
    HistoryHoldsEveryUtterance(db, actions, c, t);
  }

  lemma QuoteIsThere(text: string, marker: string, i: nat)
    requires |marker| > 0 && marker[0] == '\"' && i + |marker| <= |text| && LikeAt(text, marker, i)
    ensures text[i] == '\"'
  {
    assert Lower(text[i]) == '\"';
  }
}
