// The reading face's position in a scene: re-derived from the committed rows on every call,
// and shown to be where a simple in-memory program counter would be.
module NarrativeWalk {

  type Word = int

  datatype Option<+T> = None | Some(value: T)

  datatype Beat =
    | SegmentBeat(language: Word, ticks: int, last: bool)
    | GateBeat(gateSeq: nat, options: seq<Word>)

  datatype Submission = Submission(id: Word, intent: Word, option: Option<Word>)

  /** OPEN, then ANSWERED/RESOLVING (the submission is stored), then COMMITTED (ruled), then CLOSED. */
  datatype GateStatus = Open | Answered | Ruled | Closed

  datatype GateRow = GateRow(status: GateStatus, options: seq<Word>, action: Option<Submission>)

  datatype Passage = Passage(body: Word, language: Word, ticks: int, last: bool)

  /** One scene's durable rows: segment_commit in segment_seq order, and user_gate by gate_seq. */
  datatype Rows = Rows(segments: seq<Passage>, gates: map<nat, GateRow>)

  /** A beat the orchestrator is handed again. */
  datatype Replay = ReplaySegment(p: Passage) | ReplayGate(gateSeq: nat, options: seq<Word>, submission: Submission)

  datatype Kind =
    | AtSegment(beat: Beat) | AtGateOpen(beat: Beat) | AtGateSubmit(beat: Beat, row: GateRow) | SceneDone

  datatype Walk = Walk(prefix: seq<Replay>, kind: Kind)

  // ---- the position ------------------------------------------------------------------

  function SegmentsIn(beats: seq<Beat>): nat {
    if beats == [] then 0
    else SegmentsIn(beats[..|beats| - 1]) + (if beats[|beats| - 1].SegmentBeat? then 1 else 0)
  }

  lemma SegmentsInStep(beats: seq<Beat>, i: nat)
    requires i < |beats|
    ensures SegmentsIn(beats[..i + 1]) == SegmentsIn(beats[..i]) + (if beats[i].SegmentBeat? then 1 else 0)
  {
    assert beats[..i + 1][..i] == beats[..i];
  }

  lemma {:induction false} SegmentsInGrows(beats: seq<Beat>, i: nat, j: nat)
    requires i <= j <= |beats|
    ensures SegmentsIn(beats[..i]) <= SegmentsIn(beats[..j])
    decreases j
  {
    if i < j {
      SegmentsInGrows(beats, i, j - 1);
      SegmentsInStep(beats, j - 1);
    }
  }

  predicate Passed(row: GateRow) {
    row.status.Closed? && row.action.Some?
  }

  /** Beat i is behind the reader. */
  predicate Settled(script: seq<Beat>, rows: Rows, i: nat)
    requires i < |script|
  {
    match script[i]
    case SegmentBeat(_, _, _) => SegmentsIn(script[..i]) < |rows.segments|
    case GateBeat(g, _) => g in rows.gates && Passed(rows.gates[g])
  }

  function ReplayOf(script: seq<Beat>, rows: Rows, i: nat): Replay
    requires i < |script| && Settled(script, rows, i)
  {
    match script[i]
    case SegmentBeat(_, _, _) => ReplaySegment(rows.segments[SegmentsIn(script[..i])])
    case GateBeat(g, _) => ReplayGate(g, rows.gates[g].options, rows.gates[g].action.value)
  }

  ghost predicate IsPosition(script: seq<Beat>, rows: Rows, at: nat) {
    && at <= |script|
    && (forall i | 0 <= i < at :: Settled(script, rows, i))
    && (at < |script| ==> !Settled(script, rows, at))
  }

  /** The walk's answer, given where it stops. */
  ghost predicate WalksTo(script: seq<Beat>, rows: Rows, at: nat, w: Walk)
    requires IsPosition(script, rows, at)
  {
    && |w.prefix| == at
    && (forall i | 0 <= i < at :: w.prefix[i] == ReplayOf(script, rows, i))
    && w.kind ==
       if at == |script| then SceneDone
       else match script[at]
            case SegmentBeat(_, _, _) => AtSegment(script[at])
            case GateBeat(g, _) =>
              if g in rows.gates then AtGateSubmit(script[at], rows.gates[g]) else AtGateOpen(script[at])
  }

  method WalkScene(script: seq<Beat>, rows: Rows) returns (w: Walk)
    ensures IsPosition(script, rows, |w.prefix|) && WalksTo(script, rows, |w.prefix|, w)
  {
    var prefix: seq<Replay> := [];
    var segmentPosition := 0;
    for i := 0 to |script|
      invariant segmentPosition == SegmentsIn(script[..i])
      invariant |prefix| == i
      invariant forall k | 0 <= k < i :: Settled(script, rows, k) && prefix[k] == ReplayOf(script, rows, k)
    {
      SegmentsInStep(script, i);
      var beat := script[i];
      if beat.SegmentBeat? {
        segmentPosition := segmentPosition + 1;
        if segmentPosition <= |rows.segments| {
          prefix := prefix + [ReplaySegment(rows.segments[segmentPosition - 1])];
          continue;
        }
        return Walk(prefix, AtSegment(beat));
      }
      if beat.gateSeq !in rows.gates { return Walk(prefix, AtGateOpen(beat)); }
      var gate := rows.gates[beat.gateSeq];
      if gate.status.Closed? && gate.action.Some? {
        prefix := prefix + [ReplayGate(beat.gateSeq, gate.options, gate.action.value)];
        continue;
      }
      return Walk(prefix, AtGateSubmit(beat, gate));
    }
    return Walk(prefix, SceneDone);
  }

  lemma PositionUnique(script: seq<Beat>, rows: Rows, a: nat, b: nat)
    requires IsPosition(script, rows, a) && IsPosition(script, rows, b)
    ensures a == b
  {
  }

  // ---- the continuation of a gate ------------------------------------------------------

  ghost predicate GatesNumbered(script: seq<Beat>) {
    forall i, j | 0 <= i < j < |script| && script[i].GateBeat? && script[j].GateBeat? ::
      script[i].gateSeq != script[j].gateSeq
  }

  /** The segment that will carry a ruling: the first one after the gate, gates skipped. */
  method ContinuationAfter(script: seq<Beat>, gateSeq: nat) returns (k: Option<nat>)
    ensures k == FirstSegmentAfter(script, gateSeq)
  {
    var seen := false;
    for i := 0 to |script|
      invariant seen <==> exists g :: 0 <= g < i && script[g].GateBeat? && script[g].gateSeq == gateSeq
      invariant forall g, j | 0 <= g < j < i && script[g].GateBeat? && script[g].gateSeq == gateSeq :: script[j].GateBeat?
    {
      var beat := script[i];
      if beat.GateBeat? {
        seen := seen || beat.gateSeq == gateSeq;
        continue;
      }
      if seen {
        FirstSegmentIs(script, gateSeq, i);
        return Some(i);
      }
    }
    NoSegmentAfter(script, gateSeq);
    return None;
  }

  ghost predicate Continues(script: seq<Beat>, gateSeq: nat, k: nat) {
    && k < |script| && script[k].SegmentBeat?
    && exists g :: 0 <= g < k && script[g].GateBeat? && script[g].gateSeq == gateSeq
                   && forall j | g < j < k :: script[j].GateBeat?
  }

  ghost predicate FirstContinues(script: seq<Beat>, gateSeq: nat, k: nat) {
    Continues(script, gateSeq, k) && forall j | 0 <= j < k :: !Continues(script, gateSeq, j)
  }

  ghost function FirstSegmentAfter(script: seq<Beat>, gateSeq: nat): Option<nat> {
    if exists k :: FirstContinues(script, gateSeq, k)
    then var k :| FirstContinues(script, gateSeq, k); Some(k)
    else None
  }

  lemma FirstSegmentIs(script: seq<Beat>, gateSeq: nat, k: nat)
    requires k < |script| && script[k].SegmentBeat?
    requires exists g :: 0 <= g < k && script[g].GateBeat? && script[g].gateSeq == gateSeq
    requires forall g, j | 0 <= g < j < k && script[g].GateBeat? && script[g].gateSeq == gateSeq :: script[j].GateBeat?
    ensures FirstSegmentAfter(script, gateSeq) == Some(k)
  {
    var g :| 0 <= g < k && script[g].GateBeat? && script[g].gateSeq == gateSeq;
    assert Continues(script, gateSeq, k);
    assert FirstContinues(script, gateSeq, k);
  }

  lemma NoSegmentAfter(script: seq<Beat>, gateSeq: nat)
    requires forall g, j | 0 <= g < j < |script| && script[g].GateBeat? && script[g].gateSeq == gateSeq :: script[j].GateBeat?
    ensures FirstSegmentAfter(script, gateSeq) == None
  {
  }

  /** The continuation is the very next beat exactly when the next beat is a segment. */
  lemma ContinuationIsNext(script: seq<Beat>, i: nat)
    requires GatesNumbered(script) && i < |script| && script[i].GateBeat?
    ensures FirstSegmentAfter(script, script[i].gateSeq) == Some(i + 1) <==>
            i + 1 < |script| && script[i + 1].SegmentBeat?
  {
    if i + 1 < |script| && script[i + 1].SegmentBeat? {
      FirstSegmentIs(script, script[i].gateSeq, i + 1);
    }
  }
}
