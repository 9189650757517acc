/** The scenes of a chapter, the prefix a drive re-presents, and what a drive may do to a scene. */
module NarrativeScenes {
  import opened NarrativeWalk
  import opened NarrativeRuns
  import opened NarrativeScript

  const CEILING := 12
  const GATELESS_FLOOR := 4

  datatype SceneStatus = Planned | Active | Committed

  /** No script means an open scene: one segment per step, closed by the reader. */
  datatype Scene = Scene(script: Option<seq<Beat>>, rows: Rows, status: SceneStatus)

  datatype Stop = Refused | PlanExhausted | AtGate | AtSceneDone | AtCeiling | AtGatelessFloor | Failed

  predicate UnpassedGate(script: seq<Beat>, rows: Rows, g: nat)
    requires g < |script|
  {
    script[g].GateBeat? && !(script[g].gateSeq in rows.gates && Passed(rows.gates[script[g].gateSeq]))
  }

  predicate GateAhead(scene: Scene) {
    scene.script.Some? && exists g | 0 <= g < |scene.script.value| :: UnpassedGate(scene.script.value, scene.rows, g)
  }

  predicate Live(scene: Scene) {
    !scene.status.Committed?
  }

  /** The first ACTIVE scene of the roster, else its first; |scenes| when the plan is exhausted. */
  function FirstLive(scenes: seq<Scene>): (k: nat)
    ensures k <= |scenes| && (k < |scenes| ==> Live(scenes[k])) && forall i | 0 <= i < k :: !Live(scenes[i])
  {
    if scenes == [] then 0
    else if Live(scenes[0]) then 0
    else
      var k := FirstLive(scenes[1..]);
      assert forall i | 1 <= i < |scenes| :: scenes[i] == scenes[1..][i - 1];
      k + 1
  }

  function FirstActive(scenes: seq<Scene>): (k: nat)
    ensures k <= |scenes| && (k < |scenes| ==> scenes[k].status.Active?)
    ensures forall i | 0 <= i < k :: !scenes[i].status.Active?
  {
    if scenes == [] then 0
    else if scenes[0].status.Active? then 0
    else
      var k := FirstActive(scenes[1..]);
      assert forall i | 1 <= i < |scenes| :: scenes[i] == scenes[1..][i - 1];
      k + 1
  }

  function Current(scenes: seq<Scene>): (k: nat)
    ensures k <= |scenes| && (k < |scenes| ==> Live(scenes[k]))
  {
    if FirstActive(scenes) < |scenes| then FirstActive(scenes) else FirstLive(scenes)
  }

  /** The scene to drive is the first active one, and without one the first that is not committed. */
  lemma ActiveSceneIsCurrent(scenes: seq<Scene>, i: nat)
    requires i < |scenes| && scenes[i].status != Committed
    ensures var c := Current(scenes);
            && c < |scenes| && scenes[c].status != Committed
            && (scenes[i].status == Active || scenes[c].status != Active ==> c <= i)
            && (scenes[i].status == Active ==> scenes[c].status == Active)
  {
  }

  function Total(scenes: seq<Scene>): nat {
    if scenes == [] then 0 else Total(scenes[..|scenes| - 1]) + |scenes[|scenes| - 1].rows.segments|
  }

  lemma {:induction false} TotalChanges(scenes: seq<Scene>, c: nat, scene: Scene)
    requires c < |scenes|
    ensures Total(scenes[c := scene]) == Total(scenes) - |scenes[c].rows.segments| + |scene.rows.segments|
  {
    var n := |scenes| - 1;
    if c < n {
      assert scenes[c := scene][..n] == scenes[..n][c := scene];
      TotalChanges(scenes[..n], c, scene);
    } else {
      assert scenes[c := scene][..n] == scenes[..n];
    }
  }

  /** What one drive may do to one scene: add passages, few when no gate lies ahead, none past a gate. */
  ghost predicate Advanced(before: Scene, after: Scene) {
    && after.script == before.script
    && before.rows.segments <= after.rows.segments
    && (GateAhead(before) <==> GateAhead(after))
    && (GateAhead(after) || |after.rows.segments| <= |before.rows.segments| + GATELESS_FLOOR)
    && (before.script.Some? ==>
          forall g | 0 <= g < |before.script.value| && UnpassedGate(before.script.value, before.rows, g) ::
            && UnpassedGate(before.script.value, after.rows, g)
            && (|before.rows.segments| <= SegmentsIn(before.script.value[..g]) ==>
                  |after.rows.segments| <= SegmentsIn(before.script.value[..g])))
  }

  // ---- where a scene stands ---------------------------------------------------------------------

  /** At the beat that position and rows single out; an open scene has no beats. */
  datatype Standing = OpenScene | NextSegment(beat: Beat) | NewGate(gate: Beat) | Awaiting(gate: Beat) | Finished

  ghost function StandingOf(scene: Scene): (st: Standing)
    ensures st.NextSegment? ==> st.beat.SegmentBeat?
    ensures st.NewGate? || st.Awaiting? ==> st.gate.GateBeat?
    ensures st.NewGate? ==> st.gate.gateSeq !in scene.rows.gates
    ensures st.Awaiting? ==> st.gate.gateSeq in scene.rows.gates
  {
    if scene.script.None? then OpenScene else
      var script, at := scene.script.value, Position(scene.script.value, scene.rows);
      if at == |script| then Finished
      else if script[at].SegmentBeat? then NextSegment(script[at])
      else if script[at].gateSeq in scene.rows.gates then Awaiting(script[at])
      else NewGate(script[at])
  }

  lemma StandsAt(scene: Scene, at: nat)
    requires scene.script.Some? && IsPosition(scene.script.value, scene.rows, at)
    ensures Position(scene.script.value, scene.rows) == at
  {
    PositionUnique(scene.script.value, scene.rows, Position(scene.script.value, scene.rows), at);
  }

  /** There is something to write here. */
  predicate Writable(st: Standing) {
    st.OpenScene? || st.NextSegment?
  }

  /** What gets written: an open scene's length is the face's own, and it closes when the reader says so. */
  function PassageAt(st: Standing, closing: bool, language: Word, prose: Word): Passage
    requires Writable(st) && (st.NextSegment? ==> st.beat.SegmentBeat?)
  {
    if st.NextSegment? then Passage(prose, language, st.beat.ticks, st.beat.last)
    else Passage(prose, language, SEGMENT_TICKS, closing)
  }

  /** A scripted scene ends itself, and what the reader cannot reach is not driven. */
  ghost predicate Denied(scene: Scene, first: bool, ending: bool, refuses: bool) {
    var st := StandingOf(scene);
    (first && ending && scene.script.Some?) || (first && refuses && !st.Awaiting? && !st.Finished?)
  }

  /** Why one iteration halted. `bare`: the drive's first, with nothing written before it. */
  ghost predicate HaltMeans(scene: Scene, first: bool, bare: bool, ending: bool, refuses: bool, failing: bool, stop: Stop) {
    var st := StandingOf(scene);
    match stop
    case Refused =>
      first && ((ending && scene.script.Some?) || (bare && (st.Awaiting? || st.Finished?))
                || (refuses && !st.Awaiting? && !st.Finished?))
    case AtGate =>
      !(first && ending) && ((st.Awaiting? && !bare) || (st.NewGate? && !failing && !(first && refuses)))
    case AtSceneDone => st.Finished? && !(first && ending) && !bare
    case Failed => failing && !st.Awaiting? && !st.Finished? && !Denied(scene, first, ending, refuses)
    case _ => false
  }

  /** What the next iteration does with the current scene. */
  datatype Step = Halt(stop: Stop) | Unlock(gate: Beat) | Write(beat: Beat, prefix: seq<Replay>)

  ghost predicate StepFits(scene: Scene, step: Step, at: nat) {
    match step
    case Halt(stop) => !stop.AtCeiling? && !stop.PlanExhausted?
    case Unlock(gate) =>
      && gate.GateBeat? && scene.script.Some? && IsPosition(scene.script.value, scene.rows, at)
      && at < |scene.script.value| && scene.script.value[at] == gate && gate.gateSeq !in scene.rows.gates
    case Write(beat, prefix) =>
      && beat.SegmentBeat? && Replays(scene.rows.segments, prefix) && SegmentsOf(prefix) == |scene.rows.segments|
      && (scene.script.Some? ==>
            && IsPosition(scene.script.value, scene.rows, at)
            && at < |scene.script.value| && scene.script.value[at].SegmentBeat?
            && beat.last == scene.script.value[at].last && beat.ticks == scene.script.value[at].ticks)
  }

  /** The books of one drive: what it did to each scene, and the running counts of the current one. */
  ghost predicate Books(start: seq<Scene>, scenes: seq<Scene>, counted: nat, sceneFresh: int) {
    && AllAdvanced(start, scenes)
    && (forall i | 0 <= i < |scenes| && i != counted && Live(scenes[i]) :: scenes[i] == start[i])
    && (counted < |scenes| && Live(scenes[counted]) ==>
          && Current(scenes) == counted
          && sceneFresh == |scenes[counted].rows.segments| - |start[counted].rows.segments|
          && (GateAhead(scenes[counted]) || sceneFresh < GATELESS_FLOOR))
  }

  ghost predicate AllAdvanced(start: seq<Scene>, scenes: seq<Scene>) {
    |scenes| == |start| && forall i | 0 <= i < |scenes| :: Advanced(start[i], scenes[i])
  }

  lemma BooksOpen(scenes: seq<Scene>)
    ensures Books(scenes, scenes, |scenes|, 0)
  {
  }

  /** Moving on to a scene this drive has not touched starts its count at zero. */
  lemma BooksTurn(start: seq<Scene>, scenes: seq<Scene>, counted: nat, sceneFresh: int, c: nat)
    requires Books(start, scenes, counted, sceneFresh) && c == Current(scenes) < |scenes| && c != counted
    ensures Books(start, scenes, c, 0)
  {
  }

  /** A script's segment, at the position; an open scene needs none. */
  ghost predicate SegmentSpot(scene: Scene, at: nat) {
    scene.script.Some? ==>
      IsPosition(scene.script.value, scene.rows, at) && at < |scene.script.value| && scene.script.value[at].SegmentBeat?
  }

  lemma BooksSegment(start: seq<Scene>, scenes: seq<Scene>, c: nat, sceneFresh: int, p: Passage, at: nat)
    requires Books(start, scenes, c, sceneFresh) && c == Current(scenes) < |scenes| && SegmentSpot(scenes[c], at)
    ensures var after := scenes[c := WithPassage(scenes[c], p)];
            && Total(after) == Total(scenes) + 1
            && AllAdvanced(start, after)
            && (GateAhead(after[c]) || sceneFresh + 1 < GATELESS_FLOOR ==> Books(start, after, c, sceneFresh + 1))
  {
    SegmentAdvances(start[c], scenes[c], p, at);
    TotalChanges(scenes, c, WithPassage(scenes[c], p));
    CurrentStays(scenes, c, p);
  }

  lemma BooksGate(start: seq<Scene>, scenes: seq<Scene>, c: nat, sceneFresh: int, at: nat)
    requires Books(start, scenes, c, sceneFresh) && c < |scenes|
    requires AtGateBeat(scenes[c], at) && scenes[c].script.value[at].gateSeq !in scenes[c].rows.gates
    ensures var after := scenes[c := WithOpenGate(scenes[c], scenes[c].script.value[at])];
            Total(after) == Total(scenes) && AllAdvanced(start, after)
  {
    OpeningAdvances(start[c], scenes[c], scenes[c].script.value[at], at);
    TotalChanges(scenes, c, WithOpenGate(scenes[c], scenes[c].script.value[at]));
  }

  function WithPassage(scene: Scene, p: Passage): Scene {
    scene.(rows := scene.rows.(segments := scene.rows.segments + [p]), status := if p.last then Committed else Active)
  }

  function WithOpenGate(scene: Scene, beat: Beat): Scene
    requires beat.GateBeat?
  {
    scene.(rows := scene.rows.(gates := scene.rows.gates[beat.gateSeq := GateRow(Open, beat.options, None)]), status := Active)
  }

  lemma SegmentAdvances(start: Scene, scene: Scene, p: Passage, at: nat)
    requires Advanced(start, scene)
    requires GateAhead(scene) || |scene.rows.segments| < |start.rows.segments| + GATELESS_FLOOR
    requires scene.script.Some? ==>
               && IsPosition(scene.script.value, scene.rows, at)
               && at < |scene.script.value| && scene.script.value[at].SegmentBeat?
    ensures Advanced(start, WithPassage(scene, p))
  {
    var after := WithPassage(scene, p);
    assert GateAhead(after) <==> GateAhead(scene) by {
      if scene.script.Some? {
        assert forall g | 0 <= g < |scene.script.value| ::
          UnpassedGate(scene.script.value, after.rows, g) <==> UnpassedGate(scene.script.value, scene.rows, g);
      }
    }
    if scene.script.Some? {
      var script := scene.script.value;
      forall g | 0 <= g < |script| && UnpassedGate(script, start.rows, g)
        ensures UnpassedGate(script, after.rows, g) && |after.rows.segments| <= SegmentsIn(script[..g])
      {
        assert UnpassedGate(script, scene.rows, g);
        BeforeTheGate(script, scene.rows, at, g);
      }
    }
  }

  /** A segment the walk may write lies before every gate the reader has not passed. */
  lemma BeforeTheGate(script: seq<Beat>, rows: Rows, at: nat, g: nat)
    requires IsPosition(script, rows, at) && at < |script| && script[at].SegmentBeat?
    requires g < |script| && UnpassedGate(script, rows, g)
    ensures at < g && |rows.segments| + 1 <= SegmentsIn(script[..g])
  {
    assert !Settled(script, rows, g);
    SegmentsInStep(script, at);
    SegmentsInGrows(script, at + 1, g);
  }

  lemma OpeningAdvances(start: Scene, scene: Scene, gate: Beat, at: nat)
    requires Advanced(start, scene) && scene.script.Some? && gate.GateBeat?
    requires IsPosition(scene.script.value, scene.rows, at)
    requires at < |scene.script.value| && scene.script.value[at] == gate && gate.gateSeq !in scene.rows.gates
    ensures Advanced(start, WithOpenGate(scene, gate))
  {
    var script, after := scene.script.value, WithOpenGate(scene, gate);
    assert forall g | 0 <= g < |script| ::
      UnpassedGate(script, after.rows, g) <==> UnpassedGate(script, scene.rows, g);
    assert UnpassedGate(script, scene.rows, at);
  }

  lemma CurrentStays(scenes: seq<Scene>, c: nat, p: Passage)
    requires c == Current(scenes) < |scenes|
    ensures var after := scenes[c := WithPassage(scenes[c], p)];
            Live(after[c]) ==> Current(after) == c
  {
    var after := scenes[c := WithPassage(scenes[c], p)];
    if Live(after[c]) {
      assert after[c].status.Active?;
      assert forall i | 0 <= i < c :: after[i] == scenes[i];
      if FirstActive(scenes) == |scenes| { assert forall i | 0 <= i < c :: !scenes[i].status.Active?; }
    }
  }

  // ---- the re-presented prefix ----------------------------------------------------------------

  function SegmentsOf(prefix: seq<Replay>): nat {
    if prefix == [] then 0
    else SegmentsOf(prefix[..|prefix| - 1]) + (if prefix[|prefix| - 1].ReplaySegment? then 1 else 0)
  }

  lemma SegmentsOfStep(prefix: seq<Replay>, i: nat)
    requires i < |prefix|
    ensures SegmentsOf(prefix[..i + 1]) == SegmentsOf(prefix[..i]) + (if prefix[i].ReplaySegment? then 1 else 0)
  {
    assert prefix[..i + 1][..i] == prefix[..i];
  }

  /** Segment by segment the committed passages. */
  ghost predicate Replays(segments: seq<Passage>, prefix: seq<Replay>) {
    forall i | 0 <= i < |prefix| && prefix[i].ReplaySegment? ::
      SegmentsOf(prefix[..i]) < |segments| && prefix[i].p == segments[SegmentsOf(prefix[..i])]
  }

  lemma {:induction false} ReplaysAtMost(segments: seq<Passage>, prefix: seq<Replay>, i: nat)
    requires Replays(segments, prefix) && i <= |prefix|
    ensures SegmentsOf(prefix[..i]) <= |segments|
  {
    if i > 0 {
      ReplaysAtMost(segments, prefix, i - 1);
      SegmentsOfStep(prefix, i - 1);
    }
  }

  /** An open scene re-presents everything it has. */
  function PrefixFromSegments(committed: seq<Passage>): seq<Replay> {
    seq(|committed|, i requires 0 <= i < |committed| => ReplaySegment(committed[i]))
  }

  lemma {:induction false} OpenPrefix(committed: seq<Passage>, i: nat)
    requires i <= |committed|
    ensures SegmentsOf(PrefixFromSegments(committed)[..i]) == i
  {
    if i > 0 {
      OpenPrefix(committed, i - 1);
      SegmentsOfStep(PrefixFromSegments(committed), i - 1);
    }
  }

  lemma OpenPrefixReplays(committed: seq<Passage>)
    ensures Replays(committed, PrefixFromSegments(committed)) && SegmentsOf(PrefixFromSegments(committed)) == |committed|
  {
    var prefix := PrefixFromSegments(committed);
    forall i | 0 <= i < |prefix| ensures SegmentsOf(prefix[..i]) == i { OpenPrefix(committed, i); }
    OpenPrefix(committed, |committed|);
    assert prefix[..|committed|] == prefix;
  }

  lemma {:induction false} WalkedSegments(script: seq<Beat>, rows: Rows, at: nat, w: Walk, i: nat)
    requires IsPosition(script, rows, at) && WalksTo(script, rows, at, w) && i <= at
    ensures SegmentsOf(w.prefix[..i]) == SegmentsIn(script[..i])
  {
    if i > 0 {
      WalkedSegments(script, rows, at, w, i - 1);
      SegmentsOfStep(w.prefix, i - 1);
      SegmentsInStep(script, i - 1);
    }
  }

  /** What the walk hands over replays the rows it was made from. */
  lemma WalkReplays(script: seq<Beat>, rows: Rows, w: Walk)
    requires IsPosition(script, rows, |w.prefix|) && WalksTo(script, rows, |w.prefix|, w)
    ensures Replays(rows.segments, w.prefix) && SegmentsOf(w.prefix) == SegmentsIn(script[..|w.prefix|])
    ensures SegmentsOf(w.prefix) <= |rows.segments|
  {
    var at := |w.prefix|;
    forall i | 0 <= i < at && w.prefix[i].ReplaySegment?
      ensures SegmentsOf(w.prefix[..i]) < |rows.segments| && w.prefix[i].p == rows.segments[SegmentsOf(w.prefix[..i])]
    {
      WalkedSegments(script, rows, at, w, i);
      assert Settled(script, rows, i) && w.prefix[i] == ReplayOf(script, rows, i);
    }
    WalkedSegments(script, rows, at, w, at);
    assert w.prefix[..at] == w.prefix;
    ReplaysAtMost(rows.segments, w.prefix, at);
  }

  /** A segment the walk stands at is a fresh one. */
  lemma SegmentIsFresh(script: seq<Beat>, rows: Rows, w: Walk)
    requires IsPosition(script, rows, |w.prefix|) && WalksTo(script, rows, |w.prefix|, w)
    requires |w.prefix| < |script| && script[|w.prefix|].SegmentBeat?
    ensures SegmentsOf(w.prefix) == |rows.segments|
  {
    WalkReplays(script, rows, w);
  }

  // ---- drives follow the steps of the scene -------------------------------------------------------

  /** One commit: the passage, and with it the gate it answers, if any. */
  function Landed(scene: Scene, p: Passage, closes: Option<nat>): Scene {
    WithPassage(if closes.Some? && closes.value in scene.rows.gates then WithGate(scene, closes.value, Closed) else scene, p)
  }

  function WithGate(scene: Scene, g: nat, status: GateStatus): Scene
    requires g in scene.rows.gates
  {
    scene.(rows := scene.rows.(gates := scene.rows.gates[g := scene.rows.gates[g].(status := status)]))
  }

  function WithSubmission(scene: Scene, g: nat, s: Submission): Scene
    requires g in scene.rows.gates
  {
    scene.(rows := scene.rows.(gates := scene.rows.gates[g := scene.rows.gates[g].(status := Answered, action := Some(s))]))
  }

  /** The scene's rows moved along its own steps, and only those of a scripted scene are told to. */
  ghost predicate SceneLeads(before: Scene, after: Scene) {
    after.script == before.script && (before.script.Some? ==> Leads(before.script.value, before.rows, after.rows))
  }

  ghost predicate AllLead(before: seq<Scene>, after: seq<Scene>) {
    |after| == |before| && forall i | 0 <= i < |before| :: SceneLeads(before[i], after[i])
  }

  lemma AllLeadNowhere(scenes: seq<Scene>)
    ensures AllLead(scenes, scenes)
  {
    forall i | 0 <= i < |scenes| ensures SceneLeads(scenes[i], scenes[i]) {
      if scenes[i].script.Some? { LeadsNowhere(scenes[i].script.value, scenes[i].rows); }
    }
  }

  lemma AllLeadTransitive(a: seq<Scene>, b: seq<Scene>, c: seq<Scene>)
    requires AllLead(a, b) && AllLead(b, c)
    ensures AllLead(a, c)
  {
    forall i | 0 <= i < |a| ensures SceneLeads(a[i], c[i]) {
      assert SceneLeads(a[i], b[i]) && SceneLeads(b[i], c[i]);
      if a[i].script.Some? { LeadsTransitive(a[i].script.value, a[i].rows, b[i].rows, c[i].rows); }
    }
  }

  lemma OneSceneLeads(scenes: seq<Scene>, c: nat, after: Scene)
    requires c < |scenes| && SceneLeads(scenes[c], after)
    ensures AllLead(scenes, scenes[c := after])
  {
    AllLeadNowhere(scenes);
  }

  /** One step of the scene. */
  lemma StepLeads(scene: Scene, after: Scene, press: Press)
    requires after.script == scene.script
    requires scene.script.Some? ==> after.rows == NextRows(scene.script.value, scene.rows, press)
    ensures SceneLeads(scene, after)
  {
    if scene.script.Some? {
      LeadsNowhere(scene.script.value, scene.rows);
      LeadsOn(scene.script.value, scene.rows, scene.rows, press);
    }
  }

  const ANY := Submission(0, 0, None)

  lemma SegmentStepLeads(scene: Scene, at: nat, p: Passage)
    requires scene.script.Some? ==>
               && IsPosition(scene.script.value, scene.rows, at) && at < |scene.script.value|
               && scene.script.value[at].SegmentBeat?
               && p.ticks == scene.script.value[at].ticks && p.last == scene.script.value[at].last
    ensures SceneLeads(scene, Landed(scene, p, None))
  {
    if scene.script.Some? { PositionUnique(scene.script.value, scene.rows, Position(scene.script.value, scene.rows), at); }
    StepLeads(scene, Landed(scene, p, None), Press(p.body, p.language, ANY));
  }

  /** The scene stands at this gate. */
  ghost predicate AtGateBeat(scene: Scene, at: nat) {
    && scene.script.Some? && IsPosition(scene.script.value, scene.rows, at)
    && at < |scene.script.value| && scene.script.value[at].GateBeat?
  }

  lemma OpenStepLeads(scene: Scene, at: nat)
    requires AtGateBeat(scene, at) && scene.script.value[at].gateSeq !in scene.rows.gates
    ensures var after := WithOpenGate(scene, scene.script.value[at]);
            SceneLeads(scene, after) && AtGateBeat(after, at)
  {
    var script := scene.script.value;
    var after := WithOpenGate(scene, script[at]);
    PositionUnique(script, scene.rows, Position(script, scene.rows), at);
    StepLeads(scene, after, Press(0, 0, ANY));
    GateRowMoves(script, scene.rows, after.rows, at);
  }

  /** Rewriting the row of the gate the scene stands at does not move it, short of passing it. */
  lemma GateRowMoves(script: seq<Beat>, rows: Rows, rows': Rows, at: nat)
    requires IsPosition(script, rows, at) && at < |script| && script[at].GateBeat?
    requires rows'.segments == rows.segments
    requires forall g | g != script[at].gateSeq :: g in rows.gates <==> g in rows'.gates
    requires forall g | g != script[at].gateSeq && g in rows.gates :: rows'.gates[g] == rows.gates[g]
    requires !Settled(script, rows', at)
    ensures IsPosition(script, rows', at)
  {
    forall i | 0 <= i < at ensures Settled(script, rows', i) { assert Settled(script, rows, i); }
  }

  lemma StoreStepLeads(scene: Scene, at: nat, s: Submission)
    requires AtGateBeat(scene, at)
    requires var g := scene.script.value[at].gateSeq; g in scene.rows.gates && scene.rows.gates[g].status.Open?
    ensures var after := WithSubmission(scene, scene.script.value[at].gateSeq, s);
            SceneLeads(scene, after) && AtGateBeat(after, at)
  {
    var script := scene.script.value;
    var after := WithSubmission(scene, script[at].gateSeq, s);
    PositionUnique(script, scene.rows, Position(script, scene.rows), at);
    StepLeads(scene, after, Press(0, 0, s));
    GateRowMoves(script, scene.rows, after.rows, at);
  }

  lemma RuleStepLeads(scene: Scene, at: nat)
    requires AtGateBeat(scene, at)
    requires var g := scene.script.value[at].gateSeq; g in scene.rows.gates && scene.rows.gates[g].status.Answered?
    ensures var after := WithGate(scene, scene.script.value[at].gateSeq, Ruled);
            SceneLeads(scene, after) && AtGateBeat(after, at)
  {
    var script := scene.script.value;
    var after := WithGate(scene, script[at].gateSeq, Ruled);
    PositionUnique(script, scene.rows, Position(script, scene.rows), at);
    StepLeads(scene, after, Press(0, 0, ANY));
    GateRowMoves(script, scene.rows, after.rows, at);
  }

  lemma ResumeStepLeads(scene: Scene, at: nat, k: nat, p: Passage)
    requires AtGateBeat(scene, at) && |scene.rows.segments| == SegmentsIn(scene.script.value[..at])
    requires var g := scene.script.value[at].gateSeq; g in scene.rows.gates && scene.rows.gates[g].status.Ruled?
    requires FirstSegmentAfter(scene.script.value, scene.script.value[at].gateSeq) == Some(k)
    requires k < |scene.script.value| && scene.script.value[k].SegmentBeat?
    requires p.ticks == scene.script.value[k].ticks && p.last == scene.script.value[k].last
    ensures SceneLeads(scene, Landed(scene, p, Some(scene.script.value[at].gateSeq)))
  {
    var script := scene.script.value;
    PositionUnique(script, scene.rows, Position(script, scene.rows), at);
    StepLeads(scene, Landed(scene, p, Some(script[at].gateSeq)), Press(p.body, p.language, ANY));
  }

  /** Every scripted scene holds the rows of some run of it. */
  ghost predicate OnCourse(scenes: seq<Scene>) {
    forall i | 0 <= i < |scenes| && scenes[i].script.Some? :: Reachable(scenes[i].script.value, scenes[i].rows)
  }

  lemma StaysOnCourse(before: seq<Scene>, after: seq<Scene>)
    requires OnCourse(before) && AllLead(before, after)
    ensures OnCourse(after)
  {
    forall i | 0 <= i < |after| && after[i].script.Some? ensures Reachable(after[i].script.value, after[i].rows) {
      assert SceneLeads(before[i], after[i]);
      LeadsKeepsReachable(before[i].script.value, before[i].rows, after[i].rows);
    }
  }

  // ---- what a submission comes to ----------------------------------------------------------------

  /** The scene stands at a gate that can take the request: the reader's words, or the stored ones again. */
  ghost predicate Waits(scene: Scene, at: nat, request: Option<Submission>) {
    && AtGateBeat(scene, at)
    && var g := scene.script.value[at].gateSeq;
       if g !in scene.rows.gates || scene.rows.gates[g].action.None? then request.Some? && (g in scene.rows.gates ==> scene.rows.gates[g].status.Open?)
       else !scene.rows.gates[g].status.Closed? && (request.Some? ==> request == scene.rows.gates[g].action)
  }

  /** The words the gate was passed with. */
  ghost function Words(scene: Scene, g: nat, request: Option<Submission>): Option<Submission> {
    if g in scene.rows.gates && scene.rows.gates[g].action.Some? then scene.rows.gates[g].action else request
  }

  /** The gate is closed on those words, and the passage after it is the one new passage. */
  ghost predicate Taken(before: Scene, after: Scene, at: nat, request: Option<Submission>, prose: Word)
    requires AtGateBeat(before, at)
  {
    var g := before.script.value[at].gateSeq;
    && g in after.rows.gates && Passed(after.rows.gates[g]) && after.rows.gates[g].action == Words(before, g, request)
    && |after.rows.segments| == |before.rows.segments| + 1 && before.rows.segments <= after.rows.segments
    && after.rows.segments[|before.rows.segments|].body == prose
  }

  /** The same from the moment the gate has its row. */
  ghost predicate CarriedOver(before: Scene, after: Scene, g: nat, submission: Submission, prose: Word) {
    && g in before.rows.gates && g in after.rows.gates && after.rows.gates[g].status.Closed?
    && after.rows.gates[g].action ==
         (if before.rows.gates[g].status.Open? then Some(submission) else before.rows.gates[g].action)
    && |after.rows.segments| == |before.rows.segments| + 1 && before.rows.segments <= after.rows.segments
    && after.rows.segments[|before.rows.segments|].body == prose
  }

  /** What later steps leave of that. */
  ghost predicate Held(before: Scene, after: Scene, at: nat, request: Option<Submission>, prose: Word)
    requires AtGateBeat(before, at)
  {
    var g := before.script.value[at].gateSeq;
    && g in after.rows.gates && Passed(after.rows.gates[g]) && after.rows.gates[g].action == Words(before, g, request)
    && |after.rows.segments| > |before.rows.segments| && before.rows.segments <= after.rows.segments
    && after.rows.segments[|before.rows.segments|].body == prose
  }

  lemma TakenIsHeld(before: Scene, mid: Scene, after: Scene, at: nat, request: Option<Submission>, prose: Word)
    requires AtGateBeat(before, at) && Taken(before, mid, at, request, prose) && mid.script == before.script
    requires SceneLeads(mid, after)
    ensures Held(before, after, at, request, prose)
  {
    LeadsKeepsRows(mid.script.value, mid.rows, after.rows);
  }

  /** The segment that will carry the ruling exists and is still to come. */
  ghost predicate Continuing(scene: Scene, at: nat) {
    && AtGateBeat(scene, at) && |scene.rows.segments| == SegmentsIn(scene.script.value[..at])
    && FirstSegmentAfter(scene.script.value, scene.script.value[at].gateSeq).Some?
  }

  lemma ContinuationIsFresh(scene: Scene, at: nat)
    requires AtGateBeat(scene, at) && GateThenSegment(scene.script.value) && Reachable(scene.script.value, scene.rows)
    ensures Continuing(scene, at)
  {
    var script := scene.script.value;
    ReachableAgrees(script, scene.rows);
    PositionUnique(script, scene.rows, Position(script, scene.rows), at);
    assert Carried(script, at);
    ContinuationIsNext(script, at);
  }

  /** The gate can take this request: the reader's words, or a retry of the words it has. */
  ghost predicate Admits(scene: Scene, request: Option<Submission>) {
    var st := StandingOf(scene);
    || (st.NewGate? && request.Some?)
    || (st.Awaiting? && var stored := scene.rows.gates[st.gate.gateSeq].action;
                        if stored.None? then request.Some? else request.None? || request == stored)
  }

  /** Nothing is even begun: no scene, the preflight, no gate here, or words the waiting gate does not take. */
  ghost predicate Rejects(scenes: seq<Scene>, refuses: bool, request: Option<Submission>) {
    var c := Current(scenes);
    || c == |scenes| || refuses || !(StandingOf(scenes[c]).NewGate? || StandingOf(scenes[c]).Awaiting?)
    || (StandingOf(scenes[c]).Awaiting? && !Admits(scenes[c], request))
  }

  lemma WaitingAdmits(scene: Scene, at: nat, request: Option<Submission>)
    requires Waits(scene, at, request)
    ensures Admits(scene, request)
  {
    StandsAt(scene, at);
  }

  lemma WalkStands(scene: Scene, walk: Walk)
    requires scene.script.Some? && IsPosition(scene.script.value, scene.rows, |walk.prefix|)
    requires WalksTo(scene.script.value, scene.rows, |walk.prefix|, walk)
    ensures StandingOf(scene) == match walk.kind
                                 case AtSegment(b) => NextSegment(b)
                                 case AtGateOpen(b) => NewGate(b)
                                 case AtGateSubmit(b, _) => Awaiting(b)
                                 case SceneDone => Finished
  {
    StandsAt(scene, |walk.prefix|);
  }

  // ---- what a drive comes to ------------------------------------------------------------------------

  datatype Drive = Drive(
    start: seq<Scene>, scenes: seq<Scene>, entered: nat, written: nat, first: bool, endScene: bool, refuses: bool,
    fails: nat -> bool)

  /** A scene that got as many passages as a scene without a gate ahead may get. */
  ghost predicate RanFree(start: seq<Scene>, scenes: seq<Scene>, i: nat) {
    && i < |start| && i < |scenes| && !GateAhead(scenes[i])
    && |start[i].rows.segments| + GATELESS_FLOOR <= |scenes[i].rows.segments|
  }

  ghost predicate NoneRanFree(start: seq<Scene>, scenes: seq<Scene>) {
    forall i :: !RanFree(start, scenes, i)
  }

  /** The two stops of a drive that was still writing. */
  ghost predicate Spent(d: Drive) {
    d.entered < d.written && (CEILING <= d.written || !NoneRanFree(d.start, d.scenes))
  }

  /** The gate had its row before the drive. */
  ghost predicate AwaitedAlready(d: Drive, c: nat) {
    c < |d.scenes| && c < |d.start| && StandingOf(d.scenes[c]).Awaiting? && StandingOf(d.scenes[c]).gate.gateSeq in d.start[c].rows.gates
  }

  /** The refusals: nobody left to drive, a waiting gate or a finished script pressed bare, an ending the script owns, the preflight. */
  ghost predicate Refusal(d: Drive, c: nat) {
    if c >= |d.scenes| then d.written == 0
    else
      var st := StandingOf(d.scenes[c]);
      || (d.endScene && d.scenes[c].script.Some?)
      || (d.written == 0 && (AwaitedAlready(d, c) || st.Finished?))
      || (d.refuses && !st.Awaiting? && !st.Finished?)
  }

  /** Each stop, in terms of the scenes before and after the drive. */
  ghost predicate Means(d: Drive, stop: Stop) {
    var c, bare := Current(d.scenes), d.first && d.written == d.entered;
    match stop
    case AtCeiling => d.entered < d.written && CEILING <= d.written
    case AtGatelessFloor => d.entered < d.written < CEILING && !NoneRanFree(d.start, d.scenes)
    case Refused => !Spent(d) && bare && Refusal(d, c)
    case PlanExhausted => !Spent(d) && !(bare && Refusal(d, c)) && c == |d.scenes|
    case AtGate => !Spent(d) && !(bare && Refusal(d, c)) && c < |d.scenes| && StandingOf(d.scenes[c]).Awaiting?
    case AtSceneDone => !Spent(d) && !(bare && Refusal(d, c)) && c < |d.scenes| && StandingOf(d.scenes[c]).Finished?
    case Failed =>
      && !Spent(d) && !(bare && Refusal(d, c)) && c < |d.scenes| && d.fails(d.written)
      && !StandingOf(d.scenes[c]).Awaiting? && !StandingOf(d.scenes[c]).Finished?
  }

  /** No two stops mean the same: each is given if and only if what it means holds. */
  lemma StopsAreExact(d: Drive, stop: Stop)
    requires Means(d, stop)
    ensures forall other :: Means(d, other) <==> other == stop
  {
  }

  lemma OpenedStands(scene: Scene, at: nat)
    requires AtGateBeat(scene, at) && scene.script.value[at].gateSeq !in scene.rows.gates
    ensures StandingOf(scene) == NewGate(scene.script.value[at])
    ensures StandingOf(WithOpenGate(scene, scene.script.value[at])) == Awaiting(scene.script.value[at])
  {
    StandsAt(scene, at);
    OpenStepLeads(scene, at);
    StandsAt(WithOpenGate(scene, scene.script.value[at]), at);
  }

  lemma OpenedIsCurrent(scenes: seq<Scene>, c: nat, gate: Beat)
    requires c == Current(scenes) < |scenes| && gate.GateBeat?
    ensures Current(scenes[c := WithOpenGate(scenes[c], gate)]) == c
  {
    var after := scenes[c := WithOpenGate(scenes[c], gate)];
    assert after[c].status.Active?;
    assert forall i | 0 <= i < c :: after[i] == scenes[i];
    if FirstActive(scenes) == |scenes| { assert forall i | 0 <= i < c :: !scenes[i].status.Active?; }
  }

  /** The first passage of a drive, if it lands any. */
  ghost predicate FirstLands(d: Drive, p: Passage) {
    var c := Current(d.start);
    && c < |d.start| && c < |d.scenes|
    && |d.start[c].rows.segments| < |d.scenes[c].rows.segments|
    && d.scenes[c].rows.segments[|d.start[c].rows.segments|] == p
  }

  /** Whether the drive gets to write at all. */
  ghost predicate Begins(d: Drive) {
    var c := Current(d.start);
    c < |d.start| && Writable(StandingOf(d.start[c])) && !d.fails(d.entered) && !Denied(d.start[c], d.first, d.endScene, d.refuses)
  }

  ghost function FirstPassage(d: Drive, language: Word, prose: Word): Passage
    requires Begins(d)
  {
    PassageAt(StandingOf(d.start[Current(d.start)]), d.first && d.endScene, language, prose)
  }

  /** A drive that wrote had begun, and its first passage stays. */
  ghost predicate WentOn(d: Drive, language: Word, prose: Word) {
    Begins(d) && FirstLands(d, FirstPassage(d, language, prose))
  }

  /** The gate where a drive stopped: its row is the old one, or was opened with the script's options. */
  ghost predicate GateIsOpen(d: Drive) {
    var c := Current(d.scenes);
    && c < |d.scenes| && c < |d.start| && StandingOf(d.scenes[c]).Awaiting?
    && var gate := StandingOf(d.scenes[c]).gate;
       d.scenes[c].rows.gates[gate.gateSeq] ==
         if gate.gateSeq in d.start[c].rows.gates then d.start[c].rows.gates[gate.gateSeq]
         else GateRow(Open, gate.options, None)
  }

  /** All that a finished drive tells. */
  ghost predicate Told(d: Drive, stop: Stop, language: Word, prose: Word) {
    && (forall other :: Means(d, other) <==> other == stop)
    && (d.entered < d.written <==> Begins(d))
    && (Begins(d) ==> FirstLands(d, FirstPassage(d, language, prose)))
    && (stop.Refused? ==> d.scenes == d.start)
    && (stop.AtGate? ==> GateIsOpen(d))
  }

  ghost predicate SameGates(start: seq<Scene>, scenes: seq<Scene>) {
    |start| == |scenes| && forall i | 0 <= i < |scenes| :: scenes[i].rows.gates == start[i].rows.gates
  }

  /** A drive still under way. */
  ghost predicate Going(d: Drive, first: bool, ending: bool, language: Word, prose: Word) {
    && SameGates(d.start, d.scenes) && NoneRanFree(d.start, d.scenes)
    && (d.written == d.entered || d.entered < d.written < CEILING)
    && (d.written == d.entered ==> d.scenes == d.start && first == d.first && ending == d.endScene)
    && (d.entered < d.written ==> !first && !ending && WentOn(d, language, prose))
  }

  lemma DriveBegins(d: Drive, language: Word, prose: Word)
    requires d.written == d.entered && d.scenes == d.start
    ensures Going(d, d.first, d.endScene, language, prose)
  {
  }

  /** One more passage in the current scene. */
  ghost predicate Grew(was: Drive, d: Drive, first: bool, ending: bool, language: Word, prose: Word) {
    var c := Current(was.scenes);
    && c < |was.scenes| && Writable(StandingOf(was.scenes[c])) && d == was.(scenes := d.scenes, written := was.written + 1)
    && d.scenes == was.scenes[c := WithPassage(was.scenes[c], PassageAt(StandingOf(was.scenes[c]), first && ending, language, prose))]
    && !was.fails(was.written) && !Denied(was.scenes[c], first, ending, was.refuses)
  }

  lemma GrewWentOn(was: Drive, d: Drive, first: bool, ending: bool, language: Word, prose: Word, firstProse: Word)
    requires Going(was, first, ending, language, firstProse) && Grew(was, d, first, ending, language, prose)
    requires was.written == was.entered ==> prose == firstProse
    ensures WentOn(d, language, firstProse) && SameGates(d.start, d.scenes)
  {
  }

  lemma GrewGoing(was: Drive, d: Drive, first: bool, ending: bool, language: Word, prose: Word, firstProse: Word)
    requires Going(was, first, ending, language, firstProse) && Grew(was, d, first, ending, language, prose)
    requires was.written == was.entered ==> prose == firstProse
    requires d.written < CEILING && !RanFree(d.start, d.scenes, Current(was.scenes))
    ensures Going(d, false, false, language, firstProse)
  {
    GrewWentOn(was, d, first, ending, language, prose, firstProse);
    FloorNotReached(was.start, was.scenes, d.scenes, Current(was.scenes));
  }

  lemma SpentIsTold(was: Drive, d: Drive, first: bool, ending: bool, language: Word, prose: Word, firstProse: Word, stop: Stop)
    requires Going(was, first, ending, language, firstProse) && Grew(was, d, first, ending, language, prose)
    requires was.written == was.entered ==> prose == firstProse
    requires if CEILING <= d.written then stop == AtCeiling
             else stop == AtGatelessFloor && RanFree(d.start, d.scenes, Current(was.scenes))
    ensures Told(d, stop, language, firstProse)
  {
    GrewWentOn(was, d, first, ending, language, prose, firstProse);
    StopsAreExact(d, stop);
  }

  /** What one iteration did to the current scene, and whether it wrote. */
  ghost predicate Stepped(was: Drive, after: seq<Scene>, first: bool, ending: bool, language: Word, prose: Word, wrote: bool, stop: Stop) {
    var c := Current(was.scenes);
    && c < |was.scenes|
    && var scene := was.scenes[c];
       var st := StandingOf(scene);
       && (wrote <==> Writable(st) && !was.fails(was.written) && !Denied(scene, first, ending, was.refuses))
       && (wrote ==> after == was.scenes[c := WithPassage(scene, PassageAt(st, first && ending, language, prose))])
       && (!wrote ==>
             && HaltMeans(scene, first, first && was.written == 0, ending, was.refuses, was.fails(was.written), stop)
             && after == if st.NewGate? && stop.AtGate? then was.scenes[c := WithOpenGate(scene, st.gate)] else was.scenes)
  }

  lemma WrittenIsTold(was: Drive, d: Drive, first: bool, ending: bool, language: Word, prose: Word, firstProse: Word,
                      halt: Stop, sceneFresh: int, stop: Option<Stop>)
    requires Going(was, first, ending, language, firstProse)
    requires Stepped(was, d.scenes, first, ending, language, prose, true, halt)
    requires d == was.(scenes := d.scenes, written := was.written + 1)
    requires was.written == was.entered ==> prose == firstProse
    requires sceneFresh == |d.scenes[Current(was.scenes)].rows.segments| - |d.start[Current(was.scenes)].rows.segments|
    requires stop == if CEILING <= d.written then Some(AtCeiling)
                     else if GATELESS_FLOOR <= sceneFresh && !GateAhead(d.scenes[Current(was.scenes)]) then Some(AtGatelessFloor)
                     else None
    ensures if stop.Some? then Told(d, stop.value, language, firstProse) else Going(d, false, false, language, firstProse)
  {
    if stop.Some? {
      SpentIsTold(was, d, first, ending, language, prose, firstProse, stop.value);
    } else {
      GrewGoing(was, d, first, ending, language, prose, firstProse);
    }
  }

  lemma ExhaustedIsTold(d: Drive, first: bool, ending: bool, language: Word, prose: Word, stop: Stop)
    requires Going(d, first, ending, language, prose) && Current(d.scenes) == |d.scenes|
    requires stop == if first && d.written == 0 then Refused else PlanExhausted
    ensures Told(d, stop, language, prose)
  {
    StopsAreExact(d, stop);
  }

  lemma FloorNotReached(start: seq<Scene>, before: seq<Scene>, after: seq<Scene>, c: nat)
    requires NoneRanFree(start, before) && c < |before| == |after| == |start|
    requires forall i | 0 <= i < |before| && i != c :: after[i] == before[i]
    requires !RanFree(start, after, c)
    ensures NoneRanFree(start, after)
  {
    forall i ensures !RanFree(start, after, i) { assert !RanFree(start, before, i); }
  }

  /** An iteration that halts halts the drive for the same reason. */
  lemma HaltIsMeant(was: Drive, d: Drive, first: bool, ending: bool, language: Word, prose: Word, stop: Stop)
    requires Going(was, first, ending, language, prose) && d == was.(scenes := d.scenes)
    requires AllAdvanced(was.start, was.scenes) && AllAdvanced(was.start, d.scenes)
    requires var c := Current(was.scenes);
             && c < |was.scenes|
             && HaltMeans(was.scenes[c], first, first && was.written == 0, ending, was.refuses, was.fails(was.written), stop)
             && var st := StandingOf(was.scenes[c]);
                d.scenes == if st.NewGate? && stop.AtGate? then was.scenes[c := WithOpenGate(was.scenes[c], st.gate)] else was.scenes
    ensures Means(d, stop) && (stop.Refused? ==> d.scenes == d.start) && (stop.AtGate? ==> GateIsOpen(d))
  {
    var c := Current(was.scenes);
    var st := StandingOf(was.scenes[c]);
    if st.NewGate? && stop.AtGate? {
      var scene := was.scenes[c];
      OpenedStands(scene, Position(scene.script.value, scene.rows));
      OpenedIsCurrent(was.scenes, c, st.gate);
      assert !RanFree(d.start, d.scenes, c) by { assert !RanFree(was.start, was.scenes, c); }
      FloorNotReached(was.start, was.scenes, d.scenes, c);
    }
  }

  lemma HaltIsTold(was: Drive, d: Drive, first: bool, ending: bool, language: Word, prose: Word, firstProse: Word, stop: Stop)
    requires Going(was, first, ending, language, firstProse) && d == was.(scenes := d.scenes)
    requires AllAdvanced(was.start, was.scenes) && AllAdvanced(was.start, d.scenes)
    requires Stepped(was, d.scenes, first, ending, language, prose, false, stop)
    ensures Told(d, stop, language, firstProse)
  {
    HaltIsMeant(was, d, first, ending, language, firstProse, stop);
    StopsAreExact(d, stop);
  }

  lemma FreshCount(was: Drive, after: seq<Scene>, sceneFresh: int, first: bool, ending: bool, language: Word, prose: Word, halt: Stop)
    requires Books(was.start, was.scenes, Current(was.scenes), sceneFresh)
    requires Stepped(was, after, first, ending, language, prose, true, halt)
    ensures var c := Current(was.scenes);
            |after| == |was.scenes| && sceneFresh + 1 == |after[c].rows.segments| - |was.start[c].rows.segments|
  {
  }

  lemma SteppedLeads(was: Drive, after: seq<Scene>, first: bool, ending: bool, language: Word, prose: Word, wrote: bool, halt: Stop)
    requires Stepped(was, after, first, ending, language, prose, wrote, halt)
    ensures AllLead(was.scenes, after)
  {
    AllLeadNowhere(was.scenes);
    var c := Current(was.scenes);
    var scene := was.scenes[c];
    var st := StandingOf(scene);
    if wrote {
      var at := if scene.script.Some? then Position(scene.script.value, scene.rows) else 0;
      SegmentStepLeads(scene, at, PassageAt(st, first && ending, language, prose));
      OneSceneLeads(was.scenes, c, after[c]);
    } else if st.NewGate? && halt.AtGate? {
      OpenStepLeads(scene, Position(scene.script.value, scene.rows));
      OneSceneLeads(was.scenes, c, after[c]);
    }
  }

  lemma SteppedBooks(was: Drive, after: seq<Scene>, sceneFresh: int, first: bool, ending: bool, language: Word, prose: Word, wrote: bool, halt: Stop)
    requires Stepped(was, after, first, ending, language, prose, wrote, halt)
    requires Books(was.start, was.scenes, Current(was.scenes), sceneFresh)
    ensures AllAdvanced(was.start, after) && Total(after) == Total(was.scenes) + if wrote then 1 else 0
    ensures var c := Current(was.scenes);
            wrote && (GateAhead(after[c]) || sceneFresh + 1 < GATELESS_FLOOR) ==> Books(was.start, after, c, sceneFresh + 1)
  {
    var c := Current(was.scenes);
    var scene := was.scenes[c];
    var st := StandingOf(scene);
    if wrote {
      var at := if scene.script.Some? then Position(scene.script.value, scene.rows) else 0;
      BooksSegment(was.start, was.scenes, c, sceneFresh, PassageAt(st, first && ending, language, prose), at);
    } else if st.NewGate? && halt.AtGate? {
      BooksGate(was.start, was.scenes, c, sceneFresh, Position(scene.script.value, scene.rows));
    }
  }

  // ---- the loop of a drive, as values -----------------------------------------------------------------

  /** A live scene is left when its last passage says so, and not before. */
  ghost predicate StatusFollows(start: seq<Scene>, scenes: seq<Scene>) {
    |start| == |scenes| && forall i | 0 <= i < |scenes| :: SceneStatusFollows(start[i], scenes[i])
  }

  ghost predicate SceneStatusFollows(before: Scene, after: Scene) {
    var earlier, now := before.rows.segments, after.rows.segments;
    |earlier| <= |now| && (Live(after) <==> Live(before) && (|now| == |earlier| || !now[|now| - 1].last))
  }

  lemma SteppedStatus(was: Drive, after: seq<Scene>, first: bool, ending: bool, language: Word, prose: Word, wrote: bool, halt: Stop)
    requires Stepped(was, after, first, ending, language, prose, wrote, halt) && StatusFollows(was.start, was.scenes)
    ensures StatusFollows(was.start, after)
  {
  }

  /** A drive stays with its first scene while that is live. */
  ghost predicate Stays(start: seq<Scene>, scenes: seq<Scene>) {
    && |start| == |scenes|
    && var c := Current(start);
       c < |start| && Live(scenes[c]) ==> Current(scenes) == c && forall i | 0 <= i < |scenes| && i != c :: scenes[i] == start[i]
  }

  lemma SteppedStays(was: Drive, after: seq<Scene>, first: bool, ending: bool, language: Word, prose: Word, wrote: bool, halt: Stop)
    requires Stepped(was, after, first, ending, language, prose, wrote, halt) && Stays(was.start, was.scenes)
    ensures Stays(was.start, after)
  {
    var c := Current(was.scenes);
    var st := StandingOf(was.scenes[c]);
    if wrote {
      CurrentStays(was.scenes, c, PassageAt(st, first && ending, language, prose));
    } else if st.NewGate? && halt.AtGate? {
      OpenedIsCurrent(was.scenes, c, st.gate);
    }
  }

  /** Between two turns. */
  ghost predicate Running(d: Drive, counted: nat, sceneFresh: int, first: bool, ending: bool, language: Word, prose: Word) {
    && Books(d.start, d.scenes, counted, sceneFresh) && AllLead(d.start, d.scenes) && StatusFollows(d.start, d.scenes)
    && Stays(d.start, d.scenes) && Total(d.scenes) == Total(d.start) + d.written - d.entered
    && Going(d, first, ending, language, prose)
  }

  /** At the end. */
  ghost predicate Over(d: Drive, stop: Stop, language: Word, prose: Word) {
    && AllAdvanced(d.start, d.scenes) && AllLead(d.start, d.scenes) && StatusFollows(d.start, d.scenes)
    && Stays(d.start, d.scenes) && Total(d.scenes) == Total(d.start) + d.written - d.entered
    && d.entered <= d.written <= d.entered + (if d.entered < CEILING then CEILING - d.entered else 1)
    && Told(d, stop, language, prose)
  }

  lemma StartsRunning(d: Drive, language: Word, prose: Word)
    requires d.written == d.entered && d.scenes == d.start
    ensures Running(d, |d.scenes|, 0, d.first, d.endScene, language, prose)
  {
    BooksOpen(d.scenes);
    AllLeadNowhere(d.scenes);
    DriveBegins(d, language, prose);
  }

  lemma ExhaustedIsOver(d: Drive, counted: nat, sceneFresh: int, first: bool, ending: bool, language: Word, prose: Word, stop: Stop)
    requires Running(d, counted, sceneFresh, first, ending, language, prose) && Current(d.scenes) == |d.scenes|
    requires stop == if first && d.written == 0 then Refused else PlanExhausted
    ensures Over(d, stop, language, prose)
  {
    ExhaustedIsTold(d, first, ending, language, prose, stop);
  }

  /** A scene's count starts when it becomes the current one. */
  lemma CountingCurrent(d: Drive, counted: nat, sceneFresh: int, first: bool, ending: bool, language: Word, prose: Word)
    requires Running(d, counted, sceneFresh, first, ending, language, prose) && Current(d.scenes) < |d.scenes|
    ensures Running(d, Current(d.scenes), if Current(d.scenes) == counted then sceneFresh else 0, first, ending, language, prose)
  {
    if Current(d.scenes) != counted { BooksTurn(d.start, d.scenes, counted, sceneFresh, Current(d.scenes)); }
  }

  lemma TurnIsTold(was: Drive, after: seq<Scene>, sceneFresh: int, first: bool, ending: bool, language: Word, prose: Word,
                   firstProse: Word, wrote: bool, halt: Stop, stop: Option<Stop>)
    requires Running(was, Current(was.scenes), sceneFresh, first, ending, language, firstProse)
    requires Stepped(was, after, first, ending, language, prose, wrote, halt)
    requires was.written == was.entered ==> prose == firstProse
    requires stop == StopAfter(was, after, sceneFresh, wrote, halt)
    ensures var d := was.(scenes := after, written := if wrote then was.written + 1 else was.written);
            if stop.Some? then Told(d, stop.value, language, firstProse) else Going(d, false, false, language, firstProse)
  {
    SteppedBooks(was, after, sceneFresh, first, ending, language, prose, wrote, halt);
    if wrote {
      FreshCount(was, after, sceneFresh, first, ending, language, prose, halt);
      WrittenIsTold(was, was.(scenes := after, written := was.written + 1), first, ending, language, prose, firstProse,
        halt, sceneFresh + 1, stop);
    } else {
      HaltIsTold(was, was.(scenes := after), first, ending, language, prose, firstProse, halt);
    }
  }

  /** Whether the drive stops after a turn. */
  ghost function StopAfter(was: Drive, after: seq<Scene>, sceneFresh: int, wrote: bool, halt: Stop): Option<Stop> {
    if !wrote then Some(halt)
    else if CEILING <= was.written + 1 then Some(AtCeiling)
    else if GATELESS_FLOOR <= sceneFresh + 1 && Current(was.scenes) < |after| && !GateAhead(after[Current(was.scenes)]) then Some(AtGatelessFloor)
    else None
  }

  lemma TurnIsOver(was: Drive, after: seq<Scene>, sceneFresh: int, first: bool, ending: bool, language: Word, prose: Word,
                   firstProse: Word, wrote: bool, halt: Stop, stop: Option<Stop>)
    requires Running(was, Current(was.scenes), sceneFresh, first, ending, language, firstProse)
    requires Stepped(was, after, first, ending, language, prose, wrote, halt)
    requires was.written == was.entered ==> prose == firstProse
    requires stop == StopAfter(was, after, sceneFresh, wrote, halt)
    ensures var d := was.(scenes := after, written := if wrote then was.written + 1 else was.written);
            if stop.Some? then Over(d, stop.value, language, firstProse)
            else Running(d, Current(was.scenes), sceneFresh + 1, false, false, language, firstProse)
  {
    TurnIsTold(was, after, sceneFresh, first, ending, language, prose, firstProse, wrote, halt, stop);
    SteppedBooks(was, after, sceneFresh, first, ending, language, prose, wrote, halt);
    SteppedStatus(was, after, first, ending, language, prose, wrote, halt);
    SteppedStays(was, after, first, ending, language, prose, wrote, halt);
    SteppedLeads(was, after, first, ending, language, prose, wrote, halt);
    AllLeadTransitive(was.start, was.scenes, after);
  }

  /** One turn of the loop: nobody to drive, or a step of the current scene and what it leads to. */
  ghost predicate Turned(was: Drive, after: seq<Scene>, counted: nat, sceneFresh: int, first: bool, ending: bool, language: Word,
                         prose: Word, wrote: bool, halt: Stop, stop: Option<Stop>)
  {
    var c := Current(was.scenes);
    if c == |was.scenes| then
      after == was.scenes && !wrote && stop == Some(if first && was.written == 0 then Refused else PlanExhausted)
    else
      && Stepped(was, after, first, ending, language, prose, wrote, halt)
      && stop == StopAfter(was, after, if c == counted then sceneFresh else 0, wrote, halt)
  }

  lemma TurnEnds(was: Drive, d: Drive, counted: nat, sceneFresh: int, first: bool, ending: bool, language: Word,
                 prose: Word, firstProse: Word, wrote: bool, halt: Stop, stop: Option<Stop>, counted': nat, sceneFresh': int)
    requires Running(was, counted, sceneFresh, first, ending, language, firstProse)
    requires Turned(was, d.scenes, counted, sceneFresh, first, ending, language, prose, wrote, halt, stop)
    requires d == was.(scenes := d.scenes, written := if wrote then was.written + 1 else was.written)
    requires was.written == was.entered ==> prose == firstProse
    requires stop.None? ==> wrote && counted' == Current(was.scenes) && sceneFresh' == (if counted' == counted then sceneFresh else 0) + 1
    ensures stop.Some? ==> Over(d, stop.value, language, firstProse)
    ensures stop.None? ==> Running(d, counted', sceneFresh', false, false, language, firstProse) && d.entered < d.written < CEILING
  {
    if Current(was.scenes) == |was.scenes| {
      ExhaustedIsOver(was, counted, sceneFresh, first, ending, language, firstProse, stop.value);
      assert d == was;
    } else {
      CountingCurrent(was, counted, sceneFresh, first, ending, language, firstProse);
      TurnIsOver(was, d.scenes, if Current(was.scenes) == counted then sceneFresh else 0, first, ending, language, prose,
        firstProse, wrote, halt, stop);
    }
  }

  // ---- a first press, in full ---------------------------------------------------------------------------

  const QUESTION := GateBeat(1, [7])
  const OPENING: seq<Beat> := [SegmentBeat(DEFAULT_LANGUAGE, 1, false), QUESTION, SegmentBeat(DEFAULT_LANGUAGE, 1, true)]
  const UNTOUCHED := Scene(Some(OPENING), Rows([], map[]), Planned)

  /** A drive of an untouched scene writes up to the first gate, opens it with the script's options and stops there. */
  lemma FirstPressStopsAtTheGate(d: Drive, stop: Stop, language: Word, prose: Word)
    requires Over(d, stop, language, prose) && d.start == [UNTOUCHED]
    requires d.entered == 0 && d.first && !d.endScene && !d.refuses && forall k :: !d.fails(k)
    ensures stop == AtGate && d.written == 1
    ensures d.scenes[0].rows.segments == [Passage(prose, language, 1, false)]
    ensures 1 in d.scenes[0].rows.gates && d.scenes[0].rows.gates[1] == GateRow(Open, [7], None)
  {
    OpeningPositions();
    assert StandingOf(UNTOUCHED) == NextSegment(OPENING[0]) by { StandsAt(UNTOUCHED, 0); }
    assert Current(d.start) == 0;
    assert Begins(d);
    var rows := d.scenes[0].rows;
    assert Advanced(d.start[0], d.scenes[0]) && SceneStatusFollows(d.start[0], d.scenes[0]);
    assert UnpassedGate(OPENING, UNTOUCHED.rows, 1);
    assert |rows.segments| == 1;
    assert IsPosition(OPENING, rows, 1);
    StandsAt(d.scenes[0], 1);
    assert Live(d.scenes[0]) && Current(d.scenes) == 0;
    assert d.scenes == [d.scenes[0]] && d.scenes[..0] == [] && d.start[..0] == [];
    assert forall i :: !RanFree(d.start, d.scenes, i);
    assert Means(d, stop);
  }

  lemma OpeningPositions()
    ensures SegmentsIn(OPENING[..0]) == 0 && SegmentsIn(OPENING[..1]) == 1
    ensures IsPosition(OPENING, Rows([], map[]), 0)
  {
    SegmentsInStep(OPENING, 0);
  }
}
