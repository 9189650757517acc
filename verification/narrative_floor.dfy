// The gateless floor after an answered gate: the loop starts its count anew, so the passage of the
// answer is not counted towards the floor of its scene.
module NarrativeFloor {
  import opened NarrativeWalk
  import opened NarrativeRuns
  import opened NarrativeScript
  import opened NarrativeScenes

  // ---- passages follow the script -----------------------------------------------------------

  /** The passages are those of the script's first segments, ticks and last flags included. */
  ghost predicate Faithful(script: seq<Beat>, rows: Rows) {
    forall i | 0 <= i < |script| && script[i].SegmentBeat? && SegmentsIn(script[..i]) < |rows.segments| ::
      FaithfulAt(script, rows, i)
  }

  predicate FaithfulAt(script: seq<Beat>, rows: Rows, i: nat)
    requires i < |script| && script[i].SegmentBeat? && SegmentsIn(script[..i]) < |rows.segments|
  {
    var p := rows.segments[SegmentsIn(script[..i])];
    p.ticks == script[i].ticks && p.last == script[i].last
  }

  lemma OneSegmentPerNumber(script: seq<Beat>, i: nat, j: nat)
    requires i < |script| && j < |script| && script[i].SegmentBeat? && script[j].SegmentBeat?
    requires SegmentsIn(script[..i]) == SegmentsIn(script[..j])
    ensures i == j
  {
    var low, high := if i < j then i else j, if i < j then j else i;
    if low < high {
      SegmentsInStep(script, low);
      SegmentsInGrows(script, low + 1, high);
    }
  }

  lemma AppendIsFaithful(script: seq<Beat>, rows: Rows, k: nat, p: Passage, gates: map<nat, GateRow>)
    requires Faithful(script, rows) && k < |script| && script[k].SegmentBeat? && |rows.segments| == SegmentsIn(script[..k])
    requires p.ticks == script[k].ticks && p.last == script[k].last
    ensures Faithful(script, Rows(rows.segments + [p], gates))
  {
    var rows' := Rows(rows.segments + [p], gates);
    forall i | 0 <= i < |script| && script[i].SegmentBeat? && SegmentsIn(script[..i]) < |rows'.segments|
      ensures FaithfulAt(script, rows', i)
    {
      if SegmentsIn(script[..i]) < |rows.segments| {
        assert FaithfulAt(script, rows, i);
      } else {
        OneSegmentPerNumber(script, i, k);
      }
    }
  }

  lemma StepIsFaithful(script: seq<Beat>, rows: Rows, pc: Pc, press: Press)
    requires GateThenSegment(script) && Agree(script, rows, pc) && Faithful(script, rows)
    ensures Faithful(script, NextRows(script, rows, press))
  {
    RowsFindTheCounter(script, rows, pc);
    var rows' := NextRows(script, rows, press);
    if pc.at < |script| && script[pc.at].SegmentBeat? {
      AppendIsFaithful(script, rows, pc.at, PassageOf(press, script[pc.at]), rows.gates);
    } else if pc.at < |script| && pc.phase.Judged? {
      ResumeIsFaithful(script, rows, pc, press);
    } else {
      SamePassages(script, rows, rows');
    }
  }

  lemma SamePassages(script: seq<Beat>, rows: Rows, rows': Rows)
    requires Faithful(script, rows) && rows'.segments == rows.segments
    ensures Faithful(script, rows')
  {
    forall i | 0 <= i < |script| && script[i].SegmentBeat? && SegmentsIn(script[..i]) < |rows'.segments|
      ensures FaithfulAt(script, rows', i)
    {
      assert FaithfulAt(script, rows, i);
    }
  }

  lemma ResumeIsFaithful(script: seq<Beat>, rows: Rows, pc: Pc, press: Press)
    requires GateThenSegment(script) && Agree(script, rows, pc) && Faithful(script, rows)
    requires pc.at < |script| && script[pc.at].GateBeat? && pc.phase.Judged?
    ensures Faithful(script, NextRows(script, rows, press))
  {
    RowsFindTheCounter(script, rows, pc);
    assert Carried(script, pc.at);
    ContinuationIsNext(script, pc.at);
    SegmentsInStep(script, pc.at);
    AppendIsFaithful(script, rows, pc.at + 1, PassageOf(press, script[pc.at + 1]), NextRows(script, rows, press).gates);
  }

  lemma {:induction false} RunIsFaithful(script: seq<Beat>, events: seq<Event>)
    requires GateThenSegment(script)
    ensures Faithful(script, RowsAfter(script, events))
  {
    if events != [] {
      var init, last := events[..|events| - 1], events[|events| - 1];
      RunIsFaithful(script, init);
      if last.Pressed? {
        RunsAgree(script, init);
        StepIsFaithful(script, RowsAfter(script, init), PcAfter(script, init), last.press);
      }
    }
  }

  /** Whatever the presses and restarts, the j-th passage carries the ticks and the last flag of the j-th segment. */
  lemma PassagesFollowTheScript(script: seq<Beat>, rows: Rows, i: nat)
    requires GateThenSegment(script) && Reachable(script, rows)
    requires i < |script| && script[i].SegmentBeat? && SegmentsIn(script[..i]) < |rows.segments|
    ensures var p := rows.segments[SegmentsIn(script[..i])]; p.ticks == script[i].ticks && p.last == script[i].last
  {
    var events :| RowsAfter(script, events) == rows;
    RunIsFaithful(script, events);
    assert FaithfulAt(script, rows, i);
  }

  lemma {:induction false} NumberedSegment(script: seq<Beat>, n: nat, j: nat) returns (i: nat)
    requires n <= |script| && j < SegmentsIn(script[..n])
    ensures i < n && script[i].SegmentBeat? && SegmentsIn(script[..i]) == j
  {
    SegmentsInStep(script, n - 1);
    if script[n - 1].SegmentBeat? && SegmentsIn(script[..n - 1]) == j {
      i := n - 1;
    } else {
      i := NumberedSegment(script, n - 1, j);
    }
  }

  lemma WithinTheScript(script: seq<Beat>, rows: Rows)
    requires GateThenSegment(script) && Reachable(script, rows)
    ensures |rows.segments| <= SegmentsIn(script[..|script|])
  {
    ReachableAgrees(script, rows);
    var pc :| Agree(script, rows, pc) && Position(script, rows) == pc.at;
    SegmentsInGrows(script, pc.at, |script|);
  }

  lemma LastByNumber(script: seq<Beat>, i: nat)
    requires ClosesOnce(script) && i < |script| && script[i].SegmentBeat?
    ensures script[i].last <==> SegmentsIn(script[..i]) + 1 == SegmentsIn(script[..|script|])
  {
    SegmentsInStep(script, |script| - 1);
    if i < |script| - 1 {
      SegmentsInStep(script, i);
      SegmentsInGrows(script, i + 1, |script| - 1);
    }
  }

  /** A scene's last passage ends it exactly when the script has no segment left. */
  lemma EndsWithTheScript(script: seq<Beat>, rows: Rows)
    requires GateThenSegment(script) && ClosesOnce(script) && Reachable(script, rows)
    ensures |rows.segments| <= SegmentsIn(script)
    ensures rows.segments != [] ==> (rows.segments[|rows.segments| - 1].last <==> |rows.segments| == SegmentsIn(script))
  {
    assert script[..|script|] == script;
    WithinTheScript(script, rows);
    if rows.segments != [] {
      var i := NumberedSegment(script, |script|, |rows.segments| - 1);
      PassagesFollowTheScript(script, rows, i);
      LastByNumber(script, i);
    }
  }

  // ---- the floor ----------------------------------------------------------------------------

  function Left(scene: Scene): int
    requires scene.script.Some?
  {
    SegmentsIn(scene.script.value) - |scene.rows.segments|
  }

  /** A scripted scene on course, past its last gate. */
  ghost predicate PastItsGates(scene: Scene) {
    && scene.script.Some? && GateThenSegment(scene.script.value) && ClosesOnce(scene.script.value)
    && Reachable(scene.script.value, scene.rows) && !GateAhead(scene)
  }

  lemma GoesOn(scene: Scene)
    requires PastItsGates(scene) && 0 < Left(scene)
    ensures StandingOf(scene).NextSegment?
  {
    var script := scene.script.value;
    assert script[..|script|] == script;
    ReachableAgrees(script, scene.rows);
    var pc :| Agree(script, scene.rows, pc) && Position(script, scene.rows) == pc.at;
    if pc.at < |script| && script[pc.at].GateBeat? { assert UnpassedGate(script, scene.rows, pc.at); }
  }

  /** A drive entered from an answered gate, in a world that does not fail. */
  ghost predicate EnteredFromAGate(d: Drive) {
    && !d.first && !d.endScene && d.entered + GATELESS_FLOOR < CEILING && (forall k :: !d.fails(k))
    && Current(d.start) < |d.start| && PastItsGates(d.start[Current(d.start)])
  }

  lemma SceneGained(d: Drive, stop: Stop, language: Word, prose: Word)
    requires EnteredFromAGate(d) && Over(d, stop, language, prose)
    ensures var c := Current(d.start);
            && PastItsGates(d.scenes[c]) && d.scenes[c].script == d.start[c].script
            && 0 <= |d.scenes[c].rows.segments| - |d.start[c].rows.segments| <= GATELESS_FLOOR
            && 0 <= Left(d.scenes[c]) && 0 <= Left(d.start[c])
            && (0 < Left(d.scenes[c]) ==> Live(d.scenes[c]))
  {
    var c := Current(d.start);
    assert Advanced(d.start[c], d.scenes[c]) && SceneLeads(d.start[c], d.scenes[c]);
    LeadsKeepsReachable(d.start[c].script.value, d.start[c].rows, d.scenes[c].rows);
    EndsWithTheScript(d.start[c].script.value, d.start[c].rows);
    EndsWithTheScript(d.scenes[c].script.value, d.scenes[c].rows);
    assert SceneStatusFollows(d.start[c], d.scenes[c]);
  }

  /** In the gate's scene the drive writes what the script has left, up to a whole floor. */
  lemma FloorStartsAnew(d: Drive, stop: Stop, language: Word, prose: Word)
    requires EnteredFromAGate(d) && Over(d, stop, language, prose)
    ensures var c := Current(d.start);
            |d.scenes[c].rows.segments| - |d.start[c].rows.segments| ==
              if Left(d.start[c]) < GATELESS_FLOOR then Left(d.start[c]) else GATELESS_FLOOR
  {
    var c := Current(d.start);
    SceneGained(d, stop, language, prose);
    var gained := |d.scenes[c].rows.segments| - |d.start[c].rows.segments|;
    if gained < Left(d.start[c]) && gained < GATELESS_FLOOR {
      GoesOn(d.scenes[c]);
      OnlyThisScene(d, c);
      StillWriting(d, stop, c);
    }
  }

  lemma OnlyThisScene(d: Drive, c: nat)
    requires Stays(d.start, d.scenes) && c == Current(d.start) < |d.start| && Live(d.scenes[c])
    requires Total(d.scenes) == Total(d.start) + d.written - d.entered
    ensures Current(d.scenes) == c && d.written - d.entered == |d.scenes[c].rows.segments| - |d.start[c].rows.segments|
    ensures forall i | 0 <= i < |d.scenes| && i != c :: d.scenes[i] == d.start[i]
  {
    assert d.scenes == d.start[c := d.scenes[c]];
    TotalChanges(d.start, c, d.scenes[c]);
  }

  /** Short of the floor and of the script's end no stop is meant. */
  lemma StillWriting(d: Drive, stop: Stop, c: nat)
    requires EnteredFromAGate(d) && c == Current(d.scenes) < |d.scenes| == |d.start| && StandingOf(d.scenes[c]).NextSegment?
    requires forall i | 0 <= i < |d.scenes| && i != c :: d.scenes[i] == d.start[i]
    requires d.written - d.entered == |d.scenes[c].rows.segments| - |d.start[c].rows.segments| < GATELESS_FLOOR
    ensures !Means(d, stop)
  {
    forall i ensures !RanFree(d.start, d.scenes, i) {}
  }

  // The passage that carried the ruling was the scene's first new one. With it the scene gains more
  // passages than the floor allows exactly when the script still had a floor's worth of segments.
  lemma FloorIgnoresTheAnswer(before: Scene, d: Drive, stop: Stop, language: Word, prose: Word)
    requires EnteredFromAGate(d) && Over(d, stop, language, prose)
    requires |d.start[Current(d.start)].rows.segments| == |before.rows.segments| + 1
    ensures var c := Current(d.start);
            GATELESS_FLOOR < |d.scenes[c].rows.segments| - |before.rows.segments| <==> GATELESS_FLOOR <= Left(d.start[c])
  {
    FloorStartsAnew(d, stop, language, prose);
  }

  const LONG_ROAD: seq<Beat> :=
    [GateBeat(1, [7]), SegmentBeat(0, 1, false), SegmentBeat(0, 1, false), SegmentBeat(0, 1, false),
     SegmentBeat(0, 1, false), SegmentBeat(0, 1, false), SegmentBeat(0, 1, true)]

  lemma LongRoad()
    ensures GateThenSegment(LONG_ROAD) && ClosesOnce(LONG_ROAD) && SegmentsIn(LONG_ROAD) == 6
    ensures SegmentsIn(LONG_ROAD[..0]) == 0 && SegmentsIn(LONG_ROAD[..2]) == 1
  {
    assert LONG_ROAD[..7] == LONG_ROAD;
    SegmentsInStep(LONG_ROAD, 0);
    SegmentsInStep(LONG_ROAD, 1);
    SegmentsInStep(LONG_ROAD, 2);
    SegmentsInStep(LONG_ROAD, 3);
    SegmentsInStep(LONG_ROAD, 4);
    SegmentsInStep(LONG_ROAD, 5);
    SegmentsInStep(LONG_ROAD, 6);
  }

  /** A scene of one gate and six segments: answering the gate leaves five new passages in it, not four. */
  lemma FivePassagesAfterAGate(press: Press) returns (rows: Rows)
    ensures Reachable(LONG_ROAD, rows) && |rows.segments| == 1 && 1 in rows.gates && Passed(rows.gates[1])
    ensures forall d: Drive, stop, language, prose
              | Over(d, stop, language, prose) && d.start == [Scene(Some(LONG_ROAD), rows, Active)] && d.entered == 1
                && !d.first && !d.endScene && (forall k :: !d.fails(k)) ::
              |d.scenes[0].rows.segments| == 5
  {
    LongRoad();
    var events := Reach(LONG_ROAD, 2, press);
    rows := RowsAfter(LONG_ROAD, events);
    assert LONG_ROAD[0].GateBeat?;
    forall d: Drive, stop, language, prose
      | Over(d, stop, language, prose) && d.start == [Scene(Some(LONG_ROAD), rows, Active)] && d.entered == 1
        && !d.first && !d.endScene && (forall k :: !d.fails(k))
      ensures |d.scenes[0].rows.segments| == 5
    {
      assert forall g | 0 <= g < |LONG_ROAD| :: !UnpassedGate(LONG_ROAD, rows, g);
      assert Current(d.start) == 0;
      FloorStartsAnew(d, stop, language, prose);
    }
  }
}
