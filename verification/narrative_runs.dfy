/** Runs of the reading face over one scripted scene: each press makes the next durable write, restarts lose memory. */
module NarrativeRuns {
  import opened NarrativeWalk

  lemma PositionExists(script: seq<Beat>, rows: Rows, from: nat)
    requires from <= |script| && forall i | 0 <= i < from :: Settled(script, rows, i)
    ensures exists at :: IsPosition(script, rows, at)
    decreases |script| - from
  {
    if from < |script| && Settled(script, rows, from) {
      PositionExists(script, rows, from + 1);
    } else {
      assert IsPosition(script, rows, from);
    }
  }

  ghost function Position(script: seq<Beat>, rows: Rows): (at: nat)
    ensures IsPosition(script, rows, at)
  {
    PositionExists(script, rows, 0);
    var at :| IsPosition(script, rows, at); at
  }

  /** What the world supplies to a press: fresh prose in the live language, and the reader's words. */
  datatype Press = Press(prose: Word, language: Word, submission: Submission)

  function PassageOf(press: Press, beat: Beat): Passage
    requires beat.SegmentBeat?
  {
    Passage(press.prose, press.language, beat.ticks, beat.last)
  }

  function Append(rows: Rows, p: Passage): Rows {
    rows.(segments := rows.segments + [p])
  }

  // A ruled gate's continuation: the passage lands and the gate closes in one commit. A
  // continuation that is already committed is replayed and writes nothing.
  ghost function Resume(script: seq<Beat>, rows: Rows, at: nat, g: nat, press: Press): Rows
    requires at < |script| && g in rows.gates
  {
    var k := FirstSegmentAfter(script, g);
    if k.None? || |rows.segments| != SegmentsIn(script[..at]) then rows
    else
      ContinuationIsSegment(script, g);
      Append(rows.(gates := rows.gates[g := rows.gates[g].(status := Closed)]), PassageOf(press, script[k.value]))
  }

  lemma ContinuationIsSegment(script: seq<Beat>, g: nat)
    ensures var k := FirstSegmentAfter(script, g); k.Some? ==> k.value < |script| && script[k.value].SegmentBeat?
  {
  }

  /** The next durable write, decided from the rows alone. */
  ghost function NextRows(script: seq<Beat>, rows: Rows, press: Press): Rows {
    var at := Position(script, rows);
    if at == |script| then rows
    else match script[at]
      case SegmentBeat(_, _, _) => Append(rows, PassageOf(press, script[at]))
      case GateBeat(g, options) =>
        if g !in rows.gates then rows.(gates := rows.gates[g := GateRow(Open, options, None)])
        else match rows.gates[g].status
          case Open => rows.(gates := rows.gates[g := rows.gates[g].(status := Answered, action := Some(press.submission))])
          case Answered => rows.(gates := rows.gates[g := rows.gates[g].(status := Ruled)])
          case Ruled => Resume(script, rows, at, g, press)
          case Closed => rows
  }

  // ---- the program counter -----------------------------------------------------------

  datatype Phase = Fresh | Opened | Submitted(s: Submission) | Judged(s: Submission)

  datatype Pc = Pc(at: nat, phase: Phase)

  /** The same story told from memory: one beat at a time, a gate together with the segment after it. */
  function NextPc(script: seq<Beat>, pc: Pc, press: Press): Pc {
    if pc.at >= |script| then pc
    else if script[pc.at].SegmentBeat? then Pc(pc.at + 1, Fresh)
    else match pc.phase
      case Fresh => pc.(phase := Opened)
      case Opened => pc.(phase := Submitted(press.submission))
      case Submitted(s) => pc.(phase := Judged(s))
      case Judged(_) => Pc(pc.at + 2, Fresh)
  }

  /** A gate is directly followed by the segment that carries its ruling. */
  predicate Carried(script: seq<Beat>, i: nat)
    requires i < |script|
  {
    script[i].GateBeat? ==> i + 1 < |script| && script[i + 1].SegmentBeat?
  }

  ghost predicate GateThenSegment(script: seq<Beat>) {
    GatesNumbered(script) && forall i | 0 <= i < |script| :: Carried(script, i)
  }

  ghost predicate PhaseMatches(rows: Rows, beat: Beat, phase: Phase)
    requires beat.GateBeat?
  {
    var g := beat.gateSeq;
    match phase
    case Fresh => g !in rows.gates
    case Opened => g in rows.gates && rows.gates[g] == GateRow(Open, beat.options, None)
    case Submitted(s) => g in rows.gates && rows.gates[g] == GateRow(Answered, beat.options, Some(s))
    case Judged(s) => g in rows.gates && rows.gates[g] == GateRow(Ruled, beat.options, Some(s))
  }

  ghost predicate Agree(script: seq<Beat>, rows: Rows, pc: Pc) {
    && pc.at <= |script|
    && |rows.segments| == SegmentsIn(script[..pc.at])
    && (forall i | 0 <= i < pc.at && script[i].GateBeat? ::
          script[i].gateSeq in rows.gates && Passed(rows.gates[script[i].gateSeq]))
    && (forall i | pc.at < i < |script| && script[i].GateBeat? :: script[i].gateSeq !in rows.gates)
    && (if pc.at < |script| && script[pc.at].GateBeat? then PhaseMatches(rows, script[pc.at], pc.phase)
        else pc.phase.Fresh?)
  }

  /** The rows put the reader where the counter says. */
  lemma RowsFindTheCounter(script: seq<Beat>, rows: Rows, pc: Pc)
    requires Agree(script, rows, pc)
    ensures Position(script, rows) == pc.at
  {
    forall i | 0 <= i < pc.at ensures Settled(script, rows, i) {
      SegmentsInStep(script, i);
      SegmentsInGrows(script, i + 1, pc.at);
    }
    assert IsPosition(script, rows, pc.at);
    PositionUnique(script, rows, Position(script, rows), pc.at);
  }

  lemma SegmentAgrees(script: seq<Beat>, rows: Rows, pc: Pc, press: Press)
    requires Agree(script, rows, pc) && pc.at < |script| && script[pc.at].SegmentBeat?
    ensures Agree(script, NextRows(script, rows, press), NextPc(script, pc, press))
  {
    RowsFindTheCounter(script, rows, pc);
    SegmentsInStep(script, pc.at);
  }

  lemma GateAgrees(script: seq<Beat>, rows: Rows, pc: Pc, press: Press)
    requires GatesNumbered(script) && Agree(script, rows, pc) && pc.at < |script| && script[pc.at].GateBeat?
    requires !pc.phase.Judged?
    ensures Agree(script, NextRows(script, rows, press), NextPc(script, pc, press))
  {
    RowsFindTheCounter(script, rows, pc);
  }

  lemma ResumeAgrees(script: seq<Beat>, rows: Rows, pc: Pc, press: Press)
    requires GatesNumbered(script) && Agree(script, rows, pc) && pc.at < |script| && script[pc.at].GateBeat?
    requires pc.phase.Judged? && Carried(script, pc.at)
    ensures Agree(script, NextRows(script, rows, press), NextPc(script, pc, press))
  {
    RowsFindTheCounter(script, rows, pc);
    ContinuationIsNext(script, pc.at);
    SegmentsInStep(script, pc.at);
    SegmentsInStep(script, pc.at + 1);
  }

  lemma StepAgrees(script: seq<Beat>, rows: Rows, pc: Pc, press: Press)
    requires GatesNumbered(script) && Agree(script, rows, pc)
    requires pc.at < |script| && pc.phase.Judged? ==> Carried(script, pc.at)
    ensures Agree(script, NextRows(script, rows, press), NextPc(script, pc, press))
  {
    if pc.at == |script| {
      RowsFindTheCounter(script, rows, pc);
    } else if script[pc.at].SegmentBeat? {
      SegmentAgrees(script, rows, pc, press);
    } else if pc.phase.Judged? {
      ResumeAgrees(script, rows, pc, press);
    } else {
      GateAgrees(script, rows, pc, press);
    }
  }

  // ---- whole runs ----------------------------------------------------------------------

  /** A restart forgets everything but the rows. */
  datatype Event = Pressed(press: Press) | Restarted

  ghost function RowsAfter(script: seq<Beat>, events: seq<Event>): Rows {
    if events == [] then Rows([], map[])
    else
      var rows := RowsAfter(script, events[..|events| - 1]);
      match events[|events| - 1]
      case Pressed(press) => NextRows(script, rows, press)
      case Restarted => rows
  }

  function PcAfter(script: seq<Beat>, events: seq<Event>): Pc {
    if events == [] then Pc(0, Fresh)
    else
      var pc := PcAfter(script, events[..|events| - 1]);
      match events[|events| - 1]
      case Pressed(press) => NextPc(script, pc, press)
      case Restarted => pc
  }

  lemma {:induction false} RunsAgree(script: seq<Beat>, events: seq<Event>)
    requires GateThenSegment(script)
    ensures Agree(script, RowsAfter(script, events), PcAfter(script, events))
  {
    if events != [] {
      RunsAgree(script, events[..|events| - 1]);
      var last := events[|events| - 1];
      if last.Pressed? {
        StepAgrees(script, RowsAfter(script, events[..|events| - 1]), PcAfter(script, events[..|events| - 1]), last.press);
      }
    }
  }

  // After any run of presses and restarts, whatever the walk answers it answers about the beat
  // the counter is at; every gate before it is closed with its submission stored, and the
  // committed segments are exactly the ones before it.
  lemma WalkIsTheCounter(script: seq<Beat>, events: seq<Event>, at: nat, w: Walk)
    requires GateThenSegment(script)
    requires var rows := RowsAfter(script, events); IsPosition(script, rows, at) && WalksTo(script, rows, at, w)
    ensures var rows, pc := RowsAfter(script, events), PcAfter(script, events);
            && at == pc.at && |w.prefix| == pc.at && |rows.segments| == SegmentsIn(script[..pc.at])
            && (w.kind == SceneDone <==> pc.at == |script|)
            && (pc.at < |script| ==> w.kind.beat == script[pc.at])
            && (forall i | 0 <= i < pc.at && script[i].GateBeat? ::
                  script[i].gateSeq in rows.gates && Passed(rows.gates[script[i].gateSeq]))
  {
    var rows, pc := RowsAfter(script, events), PcAfter(script, events);
    RunsAgree(script, events);
    RowsFindTheCounter(script, rows, pc);
    PositionUnique(script, rows, Position(script, rows), at);
  }

  lemma StepKeepsPassages(script: seq<Beat>, rows: Rows, press: Press)
    ensures rows.segments <= NextRows(script, rows, press).segments
    ensures |NextRows(script, rows, press).segments| <= |rows.segments| + 1
  {
  }

  lemma {:induction false} PassagesStay(script: seq<Beat>, events: seq<Event>, i: nat, j: nat)
    requires i <= j <= |events|
    ensures RowsAfter(script, events[..i]).segments <= RowsAfter(script, events[..j]).segments
    decreases j
  {
    if i < j {
      PassagesStay(script, events, i, j - 1);
      assert events[..j][..j - 1] == events[..j - 1];
      if events[j - 1].Pressed? {
        StepKeepsPassages(script, RowsAfter(script, events[..j - 1]), events[j - 1].press);
      }
    }
  }

  // ---- steps from anywhere -----------------------------------------------------------------

  ghost function RowsFrom(script: seq<Beat>, rows: Rows, presses: seq<Press>): Rows {
    if presses == [] then rows
    else NextRows(script, RowsFrom(script, rows, presses[..|presses| - 1]), presses[|presses| - 1])
  }

  /** Some presses take the scene from the one to the other. */
  ghost predicate Leads(script: seq<Beat>, rows: Rows, rows': Rows) {
    exists presses :: RowsFrom(script, rows, presses) == rows'
  }

  lemma LeadsNowhere(script: seq<Beat>, rows: Rows)
    ensures Leads(script, rows, rows)
  {
    assert RowsFrom(script, rows, []) == rows;
  }

  lemma LeadsOn(script: seq<Beat>, rows: Rows, rows': Rows, press: Press)
    requires Leads(script, rows, rows')
    ensures Leads(script, rows, NextRows(script, rows', press))
  {
    var presses :| RowsFrom(script, rows, presses) == rows';
    var more := presses + [press];
    assert more[..|presses|] == presses;
    assert RowsFrom(script, rows, more) == NextRows(script, rows', press);
  }

  lemma {:induction false} LeadsThrough(script: seq<Beat>, rows: Rows, rows': Rows, presses: seq<Press>)
    requires Leads(script, rows, rows')
    ensures Leads(script, rows, RowsFrom(script, rows', presses))
  {
    if presses != [] {
      LeadsThrough(script, rows, rows', presses[..|presses| - 1]);
      LeadsOn(script, rows, RowsFrom(script, rows', presses[..|presses| - 1]), presses[|presses| - 1]);
    }
  }

  lemma LeadsTransitive(script: seq<Beat>, a: Rows, b: Rows, c: Rows)
    requires Leads(script, a, b) && Leads(script, b, c)
    ensures Leads(script, a, c)
  {
    var presses :| RowsFrom(script, b, presses) == c;
    LeadsThrough(script, a, b, presses);
  }

  /** The rows of some run. */
  ghost predicate Reachable(script: seq<Beat>, rows: Rows) {
    exists events :: RowsAfter(script, events) == rows
  }

  lemma {:induction false} RunReaches(script: seq<Beat>, rows: Rows, presses: seq<Press>)
    requires Reachable(script, rows)
    ensures Reachable(script, RowsFrom(script, rows, presses))
  {
    if presses != [] {
      var n := |presses| - 1;
      RunReaches(script, rows, presses[..n]);
      var events :| RowsAfter(script, events) == RowsFrom(script, rows, presses[..n]);
      var more := events + [Pressed(presses[n])];
      assert more[..|events|] == events;
      assert RowsAfter(script, more) == RowsFrom(script, rows, presses);
    }
  }

  lemma LeadsKeepsReachable(script: seq<Beat>, rows: Rows, rows': Rows)
    requires Reachable(script, rows) && Leads(script, rows, rows')
    ensures Reachable(script, rows')
  {
    var presses :| RowsFrom(script, rows, presses) == rows';
    RunReaches(script, rows, presses);
  }

  /** Wherever a run got to, a counter agrees with it. */
  lemma ReachableAgrees(script: seq<Beat>, rows: Rows)
    requires GateThenSegment(script) && Reachable(script, rows)
    ensures exists pc :: Agree(script, rows, pc) && Position(script, rows) == pc.at
  {
    var events :| RowsAfter(script, events) == rows;
    RunsAgree(script, events);
    RowsFindTheCounter(script, rows, PcAfter(script, events));
  }

  /** A step rewrites no passage and no row of a passed gate. */
  ghost predicate Kept(rows: Rows, rows': Rows) {
    && rows.segments <= rows'.segments
    && forall g | g in rows.gates && Passed(rows.gates[g]) :: g in rows'.gates && rows'.gates[g] == rows.gates[g]
  }

  lemma StepKeepsRows(script: seq<Beat>, rows: Rows, press: Press)
    ensures Kept(rows, NextRows(script, rows, press))
  {
  }

  lemma {:induction false} PressesKeepRows(script: seq<Beat>, rows: Rows, presses: seq<Press>)
    ensures Kept(rows, RowsFrom(script, rows, presses))
  {
    if presses != [] {
      var n := |presses| - 1;
      PressesKeepRows(script, rows, presses[..n]);
      StepKeepsRows(script, RowsFrom(script, rows, presses[..n]), presses[n]);
    }
  }

  lemma LeadsKeepsRows(script: seq<Beat>, rows: Rows, rows': Rows)
    requires Leads(script, rows, rows')
    ensures Kept(rows, rows')
  {
    var presses :| RowsFrom(script, rows, presses) == rows';
    PressesKeepRows(script, rows, presses);
  }

  // ---- adjacent gates --------------------------------------------------------------------

  // Why a gate needs a segment right after it. With two gates in a row and a segment later, the
  // first gate's continuation is that later segment: its press commits a passage from beyond a
  // gate that was never opened.
  lemma AdjacentGatesLeak(script: seq<Beat>, rows: Rows, pc: Pc, press: Press, k: nat)
    requires GatesNumbered(script) && Agree(script, rows, pc) && pc.phase.Judged?
    requires pc.at + 1 < |script| && script[pc.at].GateBeat? && script[pc.at + 1].GateBeat?
    requires FirstSegmentAfter(script, script[pc.at].gateSeq) == Some(k)
    ensures var rows' := NextRows(script, rows, press);
            && k > pc.at + 1
            && Position(script, rows') == pc.at + 1
            && script[pc.at + 1].gateSeq !in rows'.gates
            && |rows'.segments| > SegmentsIn(script[..pc.at + 1])
  {
    var rows' := NextRows(script, rows, press);
    RowsFindTheCounter(script, rows, pc);
    ContinuationIsNext(script, pc.at);
    SegmentsInStep(script, pc.at);
    assert k > pc.at + 1 by { LaterThanGate(script, pc.at, k); }
    LeakedPosition(script, rows', pc.at + 1);
    PositionUnique(script, rows', Position(script, rows'), pc.at + 1);
  }

  lemma LeakedPosition(script: seq<Beat>, rows: Rows, at: nat)
    requires at < |script| && script[at].GateBeat? && script[at].gateSeq !in rows.gates && SegmentsIn(script[..at]) <= |rows.segments|
    requires forall i | 0 <= i < at && script[i].GateBeat? :: script[i].gateSeq in rows.gates && Passed(rows.gates[script[i].gateSeq])
    ensures IsPosition(script, rows, at)
  {
    forall i | 0 <= i < at ensures Settled(script, rows, i) {
      SegmentsInStep(script, i);
      SegmentsInGrows(script, i + 1, at);
    }
  }

  lemma LaterThanGate(script: seq<Beat>, i: nat, k: nat)
    requires GatesNumbered(script) && i + 1 < |script| && script[i].GateBeat? && script[i + 1].GateBeat?
    requires FirstSegmentAfter(script, script[i].gateSeq) == Some(k)
    ensures k > i + 1
  {
    assert Continues(script, script[i].gateSeq, k);
    var g :| 0 <= g < k && script[g].GateBeat? && script[g].gateSeq == script[i].gateSeq
             && forall j | g < j < k :: script[j].GateBeat?;
    assert g == i;
  }

  // ---- the condition is exact --------------------------------------------------------------

  ghost predicate InStep(script: seq<Beat>, events: seq<Event>) {
    Position(script, RowsAfter(script, events)) == PcAfter(script, events).at
  }

  /** One more press. */
  lemma PressOnce(script: seq<Beat>, events: seq<Event>, press: Press) returns (longer: seq<Event>)
    requires GatesNumbered(script) && Agree(script, RowsAfter(script, events), PcAfter(script, events))
    requires var pc := PcAfter(script, events);
             pc.at < |script| && (pc.phase.Judged? ==> Carried(script, pc.at))
    ensures PcAfter(script, longer) == NextPc(script, PcAfter(script, events), press)
    ensures Agree(script, RowsAfter(script, longer), PcAfter(script, longer))
  {
    longer := events + [Pressed(press)];
    assert longer[..|events|] == events;
    StepAgrees(script, RowsAfter(script, events), PcAfter(script, events), press);
  }

  /** At a gate: open it, submit, rule. */
  lemma PressToRuling(script: seq<Beat>, events: seq<Event>, press: Press) returns (longer: seq<Event>)
    requires GatesNumbered(script) && Agree(script, RowsAfter(script, events), PcAfter(script, events))
    requires var pc := PcAfter(script, events);
             pc.at < |script| && script[pc.at].GateBeat? && pc.phase.Fresh?
    ensures PcAfter(script, longer) == Pc(PcAfter(script, events).at, Judged(press.submission))
    ensures Agree(script, RowsAfter(script, longer), PcAfter(script, longer))
  {
    longer := PressOnce(script, events, press);
    longer := PressOnce(script, longer, press);
    longer := PressOnce(script, longer, press);
  }

  /** Every beat that follows a segment, with all gates before it carried, is reached. */
  lemma {:induction false} Reach(script: seq<Beat>, k: nat, press: Press) returns (events: seq<Event>)
    requires GatesNumbered(script) && k <= |script| && (k == 0 || script[k - 1].SegmentBeat?)
    requires forall i | 0 <= i < k :: Carried(script, i)
    ensures PcAfter(script, events) == Pc(k, Fresh)
    ensures Agree(script, RowsAfter(script, events), PcAfter(script, events))
    decreases k
  {
    if k == 0 {
      events := [];
    } else if k == 1 || script[k - 2].SegmentBeat? {
      events := Reach(script, k - 1, press);
      events := PressOnce(script, events, press);
    } else {
      assert k > 2 ==> Carried(script, k - 3);
      events := Reach(script, k - 2, press);
      events := PressToRuling(script, events, press);
      events := PressOnce(script, events, press);
    }
  }

  /** Past a gate that no segment follows, the counter and the rows part. */
  lemma UncarriedGateParts(script: seq<Beat>, rows: Rows, pc: Pc, press: Press)
    requires GatesNumbered(script) && Agree(script, rows, pc) && pc.phase.Judged?
    requires pc.at < |script| && script[pc.at].GateBeat? && !Carried(script, pc.at)
    ensures Position(script, NextRows(script, rows, press)) != NextPc(script, pc, press).at
  {
    var k := FirstSegmentAfter(script, script[pc.at].gateSeq);
    if k.Some? {
      SomeSegmentIsLater(script, pc.at, k.value);
      AdjacentGatesLeak(script, rows, pc, press, k.value);
    } else {
      RowsFindTheCounter(script, rows, pc);
    }
  }

  lemma SomeSegmentIsLater(script: seq<Beat>, i: nat, k: nat)
    requires GatesNumbered(script) && i < |script| && script[i].GateBeat? && !Carried(script, i)
    requires FirstSegmentAfter(script, script[i].gateSeq) == Some(k)
    ensures i + 1 < |script| && script[i + 1].GateBeat?
  {
    assert Continues(script, script[i].gateSeq, k);
  }

  // The walk keeps step with the counter over all runs exactly when every gate of the script is
  // directly followed by a segment.
  lemma InStepExactlyWhenCarried(script: seq<Beat>, press: Press)
    requires GatesNumbered(script)
    ensures GateThenSegment(script) <==> forall events :: InStep(script, events)
  {
    if GateThenSegment(script) {
      forall events ensures InStep(script, events) {
        RunsAgree(script, events);
        RowsFindTheCounter(script, RowsAfter(script, events), PcAfter(script, events));
      }
    } else {
      var i := FirstUncarried(script, 0);
      var events := Reach(script, i, press);
      events := PressToRuling(script, events, press);
      var longer := events + [Pressed(press)];
      assert longer[..|events|] == events;
      UncarriedGateParts(script, RowsAfter(script, events), PcAfter(script, events), press);
      assert !InStep(script, longer);
    }
  }

  lemma FirstUncarried(script: seq<Beat>, from: nat) returns (i: nat)
    requires from <= |script| && forall k | 0 <= k < from :: Carried(script, k)
    requires exists k :: 0 <= k < |script| && !Carried(script, k)
    ensures i < |script| && !Carried(script, i) && forall k | 0 <= k < i :: Carried(script, k)
    ensures i == 0 || script[i - 1].SegmentBeat?
    decreases |script| - from
  {
    if Carried(script, from) {
      i := FirstUncarried(script, from + 1);
    } else {
      i := from;
      assert i > 0 ==> Carried(script, i - 1);
    }
  }
}
