/** The startup scan over old-epoch work, and what adopting all of it does. */
module ConversationRecovery {
  import opened ConversationTables
  import opened ConversationInvariants
  import opened Ordering

  predicate NeedsRecovery(r: TurnRecord, epoch: nat) {
    r.ownerEpoch != epoch && !Terminal(r.status)
  }

  function Recoverable(db: Tables, epoch: nat): set<Id> {
    set t | t in db.turnRecords && NeedsRecovery(db.turnRecords[t], epoch)
  }

  /** ORDER BY started_at, turn_id */
  function StartedBefore(db: Tables): (Id, Id) -> bool {
    (t: Id, u: Id) =>
      && t in db.turnRecords && u in db.turnRecords
      && (|| db.turnRecords[t].startedAt < db.turnRecords[u].startedAt
          || (db.turnRecords[t].startedAt == db.turnRecords[u].startedAt && t < u))
  }

  lemma ScanOrderIsStrict(db: Tables, epoch: nat)
    ensures StrictTotal(Recoverable(db, epoch), StartedBefore(db))
  {
  }

  ghost function Scan(db: Tables, epoch: nat): seq<Id> {
    ScanOrderIsStrict(db, epoch);
    OrderBy(Recoverable(db, epoch), StartedBefore(db))
  }

  ghost predicate ListedOnce(l: seq<Id>, t: Id) {
    exists i :: 0 <= i < |l| && l[i] == t && forall j | 0 <= j < |l| && j != i :: l[j] != t
  }

  // In every reachable state each live turn has exactly one keeper: either the newest epoch
  // already owns it, or the scan of that epoch lists it, once; and the scan lists nothing else.
  lemma LiveTurnsHaveOneKeeper(events: seq<Event>, turn: Id)
    requires turn in Run(EMPTY, events).turnRecords
    requires !Terminal(Run(EMPTY, events).turnRecords[turn].status)
    ensures var db := Run(EMPTY, events);
            var owner := db.turnRecords[turn].ownerEpoch;
            && owner <= db.newestEpoch
            && (owner < db.newestEpoch <==> ListedOnce(Scan(db, db.newestEpoch), turn))
            && (owner == db.newestEpoch <==> turn !in Scan(db, db.newestEpoch))
  {
    var db := Run(EMPTY, events);
    ReachableIsConsistent(events);
    assert RecordOk(db.turnRecords[turn], db.newestEpoch);
    ScanListsExactly(db, db.newestEpoch, turn);
  }

  lemma ScanListsExactly(db: Tables, epoch: nat, turn: Id)
    ensures turn in Scan(db, epoch) <==> turn in Recoverable(db, epoch)
    ensures turn in Scan(db, epoch) <==> ListedOnce(Scan(db, epoch), turn)
  {
    ScanOrderIsStrict(db, epoch);
    OrderByLists(Recoverable(db, epoch), StartedBefore(db));
    var l := Scan(db, epoch);
    if turn in l {
      var i :| 0 <= i < |l| && l[i] == turn;
      assert forall j | 0 <= j < |l| && j != i :: l[j] != turn;
    }
  }

  // ---- adopting the whole scan -----------------------------------------------

  function ClaimAll(db: Tables, fence: nat, turns: seq<Id>, now: Instant): Tables
    decreases |turns|
  {
    if turns == [] then db
    else ClaimAll(ClaimTurn(db, fence, turns[0], now).db, fence, turns[1..], now)
  }

  function Claimed(r: TurnRecord, fence: nat, now: Instant): TurnRecord {
    r.(ownerEpoch := fence, stateVersion := r.stateVersion + 1, updatedAt := now)
  }

  ghost predicate ClaimsExactly(db: Tables, db': Tables, fence: nat, turns: seq<Id>, now: Instant) {
    && db' == db.(turnRecords := db'.turnRecords)
    && db'.turnRecords.Keys == db.turnRecords.Keys
    && forall t | t in db.turnRecords ::
         db'.turnRecords[t] ==
           if t in turns && NeedsRecovery(db.turnRecords[t], fence) then Claimed(db.turnRecords[t], fence, now)
           else db.turnRecords[t]
  }

  lemma ClaimOne(db: Tables, fence: nat, turn: Id, now: Instant)
    requires Current(db, fence)
    ensures ClaimsExactly(db, ClaimTurn(db, fence, turn, now).db, fence, [turn], now)
  {
  }

  lemma {:induction false} ClaimMany(db: Tables, fence: nat, turns: seq<Id>, now: Instant)
    requires Current(db, fence)
    ensures ClaimsExactly(db, ClaimAll(db, fence, turns, now), fence, turns, now)
    decreases |turns|
  {
    if turns != [] {
      var db1 := ClaimTurn(db, fence, turns[0], now).db;
      ClaimOne(db, fence, turns[0], now);
      ClaimMany(db1, fence, turns[1..], now);
      assert forall t :: t in turns <==> t == turns[0] || t in turns[1..];
    }
  }

  // The newest epoch adopting its whole scan leaves nothing to recover, moves every listed turn
  // to that epoch by exactly one version, and touches no status, outcome, counter or transcript row.
  lemma ClaimingTheScanEmptiesIt(db: Tables, fence: nat, now: Instant)
    requires Current(db, fence)
    ensures var db' := ClaimAll(db, fence, Scan(db, fence), now);
            && Scan(db', fence) == []
            && db' == db.(turnRecords := db'.turnRecords)
            && db'.turnRecords.Keys == db.turnRecords.Keys
            && forall t | t in db.turnRecords ::
                 db'.turnRecords[t] ==
                   if t in Recoverable(db, fence) then Claimed(db.turnRecords[t], fence, now)
                   else db.turnRecords[t]
  {
    var db' := ClaimAll(db, fence, Scan(db, fence), now);
    ClaimMany(db, fence, Scan(db, fence), now);
    forall t | t in db.turnRecords ensures t in Scan(db, fence) <==> t in Recoverable(db, fence) {
      ScanListsExactly(db, fence, t);
    }
    NothingToScan(db', fence);
  }

  lemma NothingToScan(db: Tables, epoch: nat)
    requires forall t | t in db.turnRecords :: !NeedsRecovery(db.turnRecords[t], epoch)
    ensures Scan(db, epoch) == []
  {
    assert forall t :: t !in Recoverable(db, epoch);
    assert Recoverable(db, epoch) == {};
  }
}
