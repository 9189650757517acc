/** The reading face: the replay-first writer, the loop that drives a chapter to its next stop, and the submission. */
module NarrativeDrive {
  import opened NarrativeWalk
  import opened NarrativeRuns
  import opened NarrativeScript
  import opened NarrativeScenes

  method DecideStep(scene: Scene, first: bool, written: nat, endScene: bool, refuses: bool, language: Word)
    returns (step: Step, ghost at: nat)
    ensures StepFits(scene, step, at)
    ensures var st := StandingOf(scene);
            match step
            case Halt(stop) => HaltMeans(scene, first, first && written == 0, endScene, refuses, false, stop) && !stop.Failed?
                               && (st.NewGate? ==> stop.Refused?)
            case Unlock(gate) => st == NewGate(gate) && !Denied(scene, first, endScene, refuses)
            case Write(beat, _) =>
              && Writable(st) && !Denied(scene, first, endScene, refuses)
              && forall prose :: Passage(prose, beat.language, beat.ticks, beat.last)
                                 == PassageAt(st, first && endScene, language, prose)
  {
    at := 0;
    if first && endScene && scene.script.Some? { return Halt(Refused), 0; }
    var bare := first && written == 0;
    OpenPrefixReplays(scene.rows.segments);
    step := Write(SegmentBeat(language, SEGMENT_TICKS, first && endScene), PrefixFromSegments(scene.rows.segments));
    if scene.script.Some? {
      var walk := WalkScene(scene.script.value, scene.rows);
      at := |walk.prefix|;
      WalkReplays(scene.script.value, scene.rows, walk);
      StandsAt(scene, at);
      match walk.kind {
        case AtGateSubmit(_, _) => return Halt(if bare then Refused else AtGate), at;
        case SceneDone => return Halt(if bare then Refused else AtSceneDone), at;
        case AtGateOpen(gate) => step := Unlock(gate);
        case AtSegment(b) =>
          SegmentIsFresh(scene.script.value, scene.rows, walk);
          step := Write(b.(language := language), walk.prefix);
      }
    }
    if first && refuses { return Halt(Refused), at; }
  }

  /** Where the world lets a submission down: opening the gate, storing it, ruling, or writing on. */
  datatype Fault = NoFault | AtOpening | AtStoring | AtRuling | AtWriting

  class ReadingFace {
    var scenes: seq<Scene>
    var innerCalls: nat

    constructor (scenes: seq<Scene>)
      ensures this.scenes == scenes && innerCalls == 0
    {
      this.scenes, innerCalls := scenes, 0;
    }

    // ---- the writer and one drive of a scene ------------------------------------------------

    /** A committed key is answered with its stored prose; any other is asked of the inner writer. */
    method WriteSegment(c: nat, k: nat, freshProse: Word) returns (body: Word)
      requires c < |scenes|
      modifies this`innerCalls
      ensures body == if k < |scenes[c].rows.segments| then scenes[c].rows.segments[k].body else freshProse
      ensures innerCalls == old(innerCalls) + if k < |scenes[c].rows.segments| then 0 else 1
    {
      if k < |scenes[c].rows.segments| { return scenes[c].rows.segments[k].body; }
      innerCalls := innerCalls + 1;
      return freshProse;
    }

    /** A committed key must replay byte-equal and writes nothing; the next key lands its passage. */
    method CommitSegment(c: nat, k: nat, p: Passage, closes: Option<nat>) returns (conflict: bool)
      requires c < |scenes| && k <= |scenes[c].rows.segments|
      modifies this`scenes
      ensures var segments := old(scenes)[c].rows.segments;
              if k < |segments| then scenes == old(scenes) && conflict == (segments[k].body != p.body)
              else !conflict && scenes == old(scenes)[c := Landed(old(scenes)[c], p, closes)]
    {
      if k < |scenes[c].rows.segments| { return scenes[c].rows.segments[k].body != p.body; }
      scenes := scenes[c := Landed(scenes[c], p, closes)];
      return false;
    }

    // Drive a scene through a re-presented prefix and one more segment. The prefix replays without
    // conflict and writes nothing; the segment lands, and the inner writer is asked for it, exactly
    // when the prefix was everything committed.
    method RunScene(c: nat, prefix: seq<Replay>, beat: Beat, prose: Word, closes: Option<nat>) returns (conflict: bool)
      requires c < |scenes| && beat.SegmentBeat?
      requires Replays(scenes[c].rows.segments, prefix) && SegmentsOf(prefix) <= |scenes[c].rows.segments|
      modifies this
      ensures var segments := old(scenes)[c].rows.segments;
              if SegmentsOf(prefix) == |segments| then
                && !conflict && innerCalls == old(innerCalls) + 1
                && scenes == old(scenes)[c := Landed(old(scenes)[c], Passage(prose, beat.language, beat.ticks, beat.last), closes)]
              else
                !conflict && innerCalls == old(innerCalls) && scenes == old(scenes)
    {
      var k := 0;
      for i := 0 to |prefix|
        invariant k == SegmentsOf(prefix[..i]) && scenes == old(scenes) && innerCalls == old(innerCalls)
      {
        SegmentsOfStep(prefix, i);
        if prefix[i].ReplaySegment? {
          var body := WriteSegment(c, k, prose);
          conflict := CommitSegment(c, k, prefix[i].p.(body := body), None);
          assert !conflict;
          k := k + 1;
        }
      }
      assert prefix[..|prefix|] == prefix;
      var body := WriteSegment(c, k, prose);
      conflict := CommitSegment(c, k, Passage(body, beat.language, beat.ticks, beat.last), closes);
    }

    method OpenGate(c: nat, beat: Beat)
      requires c < |scenes| && beat.GateBeat? && beat.gateSeq !in scenes[c].rows.gates
      modifies this`scenes
      ensures scenes == old(scenes)[c := WithOpenGate(old(scenes)[c], beat)]
    {
      scenes := scenes[c := WithOpenGate(scenes[c], beat)];
    }

    // ---- the drive loop ----------------------------------------------------------------------

    /** The current scene's step: stop there, open its gate, or land one more segment. */
    method TakeStep(c: nat, first: bool, ending: bool, refuses: bool, written: nat, language: Word,
                    failing: bool, prose: Word, ghost was: Drive)
      returns (wrote: bool, stop: Stop)
      requires c == Current(scenes) < |scenes|
      requires was.scenes == scenes && was.written == written && was.refuses == refuses && was.fails(written) == failing
      modifies this
      ensures innerCalls == old(innerCalls) + if wrote then 1 else 0
      ensures Stepped(was, scenes, first, ending, language, prose, wrote, stop)
    {
      var step, at := DecideStep(scenes[c], first, written, ending, refuses, language);
      if step.Halt? { return false, step.stop; }
      if failing { return false, Failed; }
      if step.Unlock? {
        OpenGate(c, step.gate);
        return false, AtGate;
      }
      var conflict := RunScene(c, step.prefix, step.beat, prose, None);
      return true, Failed;
    }

    /** One turn of the loop: nobody to drive, or the current scene's step, counted from when the scene became current. */
    method Turn(first: bool, ending: bool, refuses: bool, language: Word, counted: nat, sceneFresh: int, written: nat,
                failing: bool, prose: Word, ghost was: Drive)
      returns (wrote: bool, halt: Stop, stop: Option<Stop>, counted': nat, sceneFresh': int)
      requires was.scenes == scenes && was.written == written && was.refuses == refuses && was.fails(written) == failing
      modifies this
      ensures innerCalls == old(innerCalls) + if wrote then 1 else 0
      ensures Turned(was, scenes, counted, sceneFresh, first, ending, language, prose, wrote, halt, stop)
      ensures stop.None? ==> wrote && counted' == Current(was.scenes)
                             && sceneFresh' == (if counted' == counted then sceneFresh else 0) + 1
    {
      counted', sceneFresh', wrote, halt := counted, sceneFresh, false, Failed;
      var c := Current(scenes);
      if c == |scenes| {
        stop := Some(if first && written == 0 then Refused else PlanExhausted);
        return;
      }
      if c != counted { counted', sceneFresh' := c, 0; }
      wrote, halt := TakeStep(c, first, ending, refuses, written, language, failing, prose, was);
      sceneFresh' := sceneFresh' + 1;
      stop := if !wrote then Some(halt)
              else if written + 1 >= CEILING then Some(AtCeiling)
              else if sceneFresh' >= GATELESS_FLOOR && !GateAhead(scenes[c]) then Some(AtGatelessFloor) else None;
    }

    // The stop law in one loop. `refuses`, `fails` and `prose` are the world's answers: the
    // endpoint preflight, whether the drive or the gate opening of a step fails, and what the
    // writer writes. Each stop is given if and only if what it means holds; the drive writes if
    // and only if it may begin, and then first what its scene calls for.
    method PressOn(entered: nat, first: bool, endScene: bool, refuses: bool, language: Word,
                   fails: nat -> bool, prose: nat -> Word)
      returns (written: nat, stop: Stop)
      modifies this
      ensures innerCalls == old(innerCalls) + written - entered
      ensures Over(Drive(old(scenes), scenes, entered, written, first, endScene, refuses, fails), stop, language, prose(entered))
    {
      written := entered;
      var isFirst, ending := first, endScene;
      var counted: nat := |scenes|;
      var sceneFresh := 0;
      ghost var was := Drive(scenes, scenes, entered, entered, first, endScene, refuses, fails);
      StartsRunning(was, language, prose(entered));
      while true
        invariant was == Drive(old(scenes), scenes, entered, written, first, endScene, refuses, fails)
        invariant Running(was, counted, sceneFresh, isFirst, ending, language, prose(entered))
        invariant innerCalls == old(innerCalls) + written - entered
        decreases CEILING - written, if written == entered then 1 else 0
      {
        ghost var counted0, fresh0 := counted, sceneFresh;
        var wrote, halt, ends;
        wrote, halt, ends, counted, sceneFresh :=
          Turn(isFirst, ending, refuses, language, counted, sceneFresh, written, fails(written), prose(written), was);
        ghost var p := prose(written);
        if wrote { written := written + 1; }
        ghost var d := Drive(old(scenes), scenes, entered, written, first, endScene, refuses, fails);
        TurnEnds(was, d, counted0, fresh0, isFirst, ending, language, p, prose(entered), wrote, halt, ends, counted, sceneFresh);
        if ends.Some? { return written, ends.value; }
        isFirst, ending, was := false, false, d;
      }
    }

    // ---- the submission ------------------------------------------------------------------------

    /** The gate's row, opened if the script has only now come to it. */
    method FindGate(c: nat, walk: Walk, fault: Fault) returns (ok: bool)
      requires c < |scenes| && !walk.kind.SceneDone? && AtGateBeat(scenes[c], |walk.prefix|)
      requires walk.kind.beat == scenes[c].script.value[|walk.prefix|]
      requires WalksTo(scenes[c].script.value, scenes[c].rows, |walk.prefix|, walk)
      modifies this`scenes
      ensures |scenes| == |old(scenes)| && AllLead(old(scenes), scenes) && Total(scenes) == Total(old(scenes))
      ensures AtGateBeat(scenes[c], |walk.prefix|) && scenes[c].script == old(scenes)[c].script
      ensures scenes[c].rows.segments == old(scenes)[c].rows.segments
      ensures ok <==> walk.kind.AtGateSubmit? || !fault.AtOpening?
      ensures scenes == if walk.kind.AtGateOpen? && ok then old(scenes)[c := WithOpenGate(old(scenes)[c], walk.kind.beat)]
                        else old(scenes)
      ensures ok ==> var g := walk.kind.beat.gateSeq;
                     && g in scenes[c].rows.gates
                     && scenes[c].rows.gates[g] == if g in old(scenes)[c].rows.gates then old(scenes)[c].rows.gates[g]
                                                   else GateRow(Open, walk.kind.beat.options, None)
    {
      AllLeadNowhere(scenes);
      if walk.kind.AtGateOpen? {
        if fault.AtOpening? { return false; }
        OpenStepLeads(scenes[c], |walk.prefix|);
        OneSceneLeads(scenes, c, WithOpenGate(scenes[c], walk.kind.beat));
        TotalChanges(scenes, c, WithOpenGate(scenes[c], walk.kind.beat));
        OpenGate(c, walk.kind.beat);
      }
      return true;
    }

    /** NCP-1 and the ruling: the submission is stored, unless one is, and ruled, unless it is. */
    method Judge(c: nat, g: nat, submission: Submission, fault: Fault, ghost at: nat) returns (ok: bool)
      requires c < |scenes| && AtGateBeat(scenes[c], at) && scenes[c].script.value[at].gateSeq == g && g in scenes[c].rows.gates
      modifies this`scenes
      ensures |scenes| == |old(scenes)| && AllLead(old(scenes), scenes) && Total(scenes) == Total(old(scenes))
      ensures AtGateBeat(scenes[c], at) && scenes[c].script == old(scenes)[c].script
      ensures scenes[c].rows.segments == old(scenes)[c].rows.segments && g in scenes[c].rows.gates
      ensures var row := old(scenes)[c].rows.gates[g];
              && (ok ==> scenes[c].rows.gates[g].status.Ruled?)
              && (ok ==> scenes[c].rows.gates[g].action == if row.status.Open? then Some(submission) else row.action)
              && (fault.NoFault? && !row.status.Closed? ==> ok)
    {
      ghost var start := scenes;
      AllLeadNowhere(scenes);
      if scenes[c].rows.gates[g].status.Open? {
        if fault.AtStoring? { return false; }
        StoreStepLeads(scenes[c], at, submission);
        OneSceneLeads(scenes, c, WithSubmission(scenes[c], g, submission));
        TotalChanges(scenes, c, WithSubmission(scenes[c], g, submission));
        scenes := scenes[c := WithSubmission(scenes[c], g, submission)];
      }
      ghost var stored := scenes;
      if scenes[c].rows.gates[g].status.Answered? {
        if fault.AtRuling? { return false; }
        RuleStepLeads(scenes[c], at);
        OneSceneLeads(scenes, c, WithGate(scenes[c], g, Ruled));
        TotalChanges(scenes, c, WithGate(scenes[c], g, Ruled));
        scenes := scenes[c := WithGate(scenes[c], g, Ruled)];
        AllLeadTransitive(start, stored, scenes);
      }
      return scenes[c].rows.gates[g].status.Ruled?;
    }

    /** The continuation: one passage that closes the gate, or the replay of one already there. */
    method Continue(c: nat, g: nat, prefix: seq<Replay>, language: Word, prose: Word, fault: Fault)
      returns (ok: bool, harvested: nat)
      requires c < |scenes| && AtGateBeat(scenes[c], |prefix|) && scenes[c].script.value[|prefix|].gateSeq == g
      requires g in scenes[c].rows.gates && scenes[c].rows.gates[g].status.Ruled?
      requires Replays(scenes[c].rows.segments, prefix) && SegmentsOf(prefix) == SegmentsIn(scenes[c].script.value[..|prefix|])
      requires SegmentsOf(prefix) <= |scenes[c].rows.segments|
      modifies this
      ensures |scenes| == |old(scenes)| && AllLead(old(scenes), scenes) && harvested <= 1
      ensures Total(scenes) - Total(old(scenes)) == innerCalls - old(innerCalls) <= 1
      ensures fault.NoFault? ==> ok
      ensures ok && FirstSegmentAfter(old(scenes)[c].script.value, g).Some? ==> harvested == 1
      ensures ok && SegmentsOf(prefix) == |old(scenes)[c].rows.segments| && FirstSegmentAfter(old(scenes)[c].script.value, g).Some? ==>
                var before, after := old(scenes)[c].rows, scenes[c].rows;
                && scenes[c].script == old(scenes)[c].script
                && g in after.gates && after.gates[g] == before.gates[g].(status := Closed)
                && |after.segments| == |before.segments| + 1 && before.segments <= after.segments
                && after.segments[|before.segments|].body == prose
    {
      AllLeadNowhere(scenes);
      var k := ContinuationAfter(scenes[c].script.value, g);
      if k.None? { return true, 0; }
      if fault.AtWriting? { return false, 0; }
      ContinuationIsSegment(scenes[c].script.value, g);
      var beat := scenes[c].script.value[k.value].(language := language);
      if SegmentsOf(prefix) == |scenes[c].rows.segments| {
        ghost var p := Passage(prose, beat.language, beat.ticks, beat.last);
        ResumeStepLeads(scenes[c], |prefix|, k.value, p);
        OneSceneLeads(scenes, c, Landed(scenes[c], p, Some(g)));
        TotalChanges(scenes, c, Landed(scenes[c], p, Some(g)));
      }
      var conflict := RunScene(c, prefix, beat, prose, Some(g));
      return true, 1;
    }

    /** The gate and the words it is to be passed with: the stored ones, or else the reader's. */
    method Receive(c: nat, walk: Walk, request: Option<Submission>, fault: Fault) returns (submission: Option<Submission>)
      requires c < |scenes| && AtGateBeat(scenes[c], |walk.prefix|) && !walk.kind.SceneDone?
      requires walk.kind.beat == scenes[c].script.value[|walk.prefix|]
      requires WalksTo(scenes[c].script.value, scenes[c].rows, |walk.prefix|, walk)
      modifies this`scenes
      ensures |scenes| == |old(scenes)| && AllLead(old(scenes), scenes) && Total(scenes) == Total(old(scenes))
      ensures AtGateBeat(scenes[c], |walk.prefix|) && scenes[c].script == old(scenes)[c].script
      ensures scenes[c].rows.segments == old(scenes)[c].rows.segments
      ensures submission.Some? <==> Admits(old(scenes)[c], request) && (walk.kind.AtGateSubmit? || !fault.AtOpening?)
      ensures submission.Some? ==> var g := walk.kind.beat.gateSeq;
                                   && g in scenes[c].rows.gates && submission == Words(old(scenes)[c], g, request)
                                   && scenes[c].rows.gates[g] == if g in old(scenes)[c].rows.gates then old(scenes)[c].rows.gates[g]
                                                                 else GateRow(Open, walk.kind.beat.options, None)
      ensures scenes == if walk.kind.AtGateSubmit? || fault.AtOpening? then old(scenes)
                        else old(scenes)[c := WithOpenGate(old(scenes)[c], walk.kind.beat)]
    {
      WalkStands(scenes[c], walk);
      var ok := FindGate(c, walk, fault);
      if !ok { return None; }
      var stored := scenes[c].rows.gates[walk.kind.beat.gateSeq].action;
      if stored.None? { return request; }
      if request.Some? && request != stored { return None; }
      return stored;
    }

    /** From the words to the passage after the gate. */
    method Carry(c: nat, g: nat, prefix: seq<Replay>, submission: Submission, language: Word, prose: Word, fault: Fault)
      returns (ok: bool, harvested: nat)
      requires c < |scenes| && AtGateBeat(scenes[c], |prefix|) && scenes[c].script.value[|prefix|].gateSeq == g
      requires g in scenes[c].rows.gates && Replays(scenes[c].rows.segments, prefix)
      requires SegmentsOf(prefix) == SegmentsIn(scenes[c].script.value[..|prefix|]) <= |scenes[c].rows.segments|
      modifies this
      ensures |scenes| == |old(scenes)| && AllLead(old(scenes), scenes) && harvested <= 1
      ensures Total(scenes) - Total(old(scenes)) == innerCalls - old(innerCalls)
      ensures fault.NoFault? && !old(scenes)[c].rows.gates[g].status.Closed? ==> ok
      ensures ok && SegmentsOf(prefix) == |old(scenes)[c].rows.segments| && FirstSegmentAfter(old(scenes)[c].script.value, g).Some? ==>
                harvested == 1 && CarriedOver(old(scenes)[c], scenes[c], g, submission, prose)
    {
      ghost var start := scenes;
      ok := Judge(c, g, submission, fault, |prefix|);
      if !ok { return false, 0; }
      ghost var judged := scenes;
      ok, harvested := Continue(c, g, prefix, language, prose, fault);
      AllLeadTransitive(start, judged, scenes);
    }

    /** The gate chain at the gate where the walk stands. */
    method AnswerAt(c: nat, walk: Walk, request: Option<Submission>, fault: Fault, language: Word, freshProse: Word)
      returns (ok: bool, harvested: nat)
      requires c < |scenes| && AtGateBeat(scenes[c], |walk.prefix|) && !walk.kind.SceneDone?
      requires walk.kind.beat == scenes[c].script.value[|walk.prefix|]
      requires WalksTo(scenes[c].script.value, scenes[c].rows, |walk.prefix|, walk)
      modifies this
      ensures AllLead(old(scenes), scenes) && harvested <= 1
      ensures Total(scenes) - Total(old(scenes)) == innerCalls - old(innerCalls)
      ensures fault.NoFault? && Waits(old(scenes)[c], |walk.prefix|, request) ==> ok
      ensures ok && Waits(old(scenes)[c], |walk.prefix|, request) && Continuing(old(scenes)[c], |walk.prefix|) ==>
                Taken(old(scenes)[c], scenes[c], |walk.prefix|, request, freshProse) && harvested == 1
      ensures !Admits(old(scenes)[c], request) ==>
                && !ok && innerCalls == old(innerCalls)
                && scenes == if walk.kind.AtGateSubmit? || fault.AtOpening? then old(scenes)
                             else old(scenes)[c := WithOpenGate(old(scenes)[c], walk.kind.beat)]
    {
      ghost var start := scenes;
      WalkReplays(scenes[c].script.value, scenes[c].rows, walk);
      if Waits(scenes[c], |walk.prefix|, request) { WaitingAdmits(scenes[c], |walk.prefix|, request); }
      var submission := Receive(c, walk, request, fault);
      if submission.None? { return false, 0; }
      var g := walk.kind.beat.gateSeq;
      ghost var found := scenes;
      ok, harvested := Carry(c, g, walk.prefix, submission.value, language, freshProse, fault);
      AllLeadTransitive(start, found, scenes);
    }

    // The gate chain of a submission. It is rejected, or fails, only where the source refuses or the
    // world faults, and what is rejected moves nothing; when it succeeds on a course whose gates are
    // carried, the gate is closed on the reader's words.
    method Answer(request: Option<Submission>, refuses: bool, fault: Fault, language: Word, freshProse: Word, ghost at: nat)
      returns (ok: bool, harvested: nat)
      modifies this
      ensures AllLead(old(scenes), scenes) && harvested <= 1
      ensures Total(scenes) - Total(old(scenes)) == innerCalls - old(innerCalls)
      ensures Rejects(old(scenes), refuses, request) ==> !ok && scenes == old(scenes)
      ensures ok ==> Admits(old(scenes)[Current(old(scenes))], request)
      ensures var c := Current(old(scenes));
              c < |scenes| && Waits(old(scenes)[c], at, request) ==>
                && (!refuses && fault.NoFault? ==> ok)
                && (ok && Continuing(old(scenes)[c], at) ==> Taken(old(scenes)[c], scenes[c], at, request, freshProse) && harvested == 1)
    {
      AllLeadNowhere(scenes);
      var c := Current(scenes);
      if c == |scenes| || scenes[c].script.None? { return false, 0; }
      var walk := WalkScene(scenes[c].script.value, scenes[c].rows);
      WalkStands(scenes[c], walk);
      if Waits(scenes[c], at, request) { PositionUnique(scenes[c].script.value, scenes[c].rows, at, |walk.prefix|); }
      if !walk.kind.AtGateOpen? && !walk.kind.AtGateSubmit? { return false, 0; }
      if refuses { return false, 0; }
      ok, harvested := AnswerAt(c, walk, request, fault, language, freshProse);
    }

    // The reader's submission, end to end, and then the drive presses on. Whatever the world does,
    // the scenes move along their own steps and the inner writer is asked once per passage that
    // lands; a gate that can take the request, on a course whose gates are carried, ends closed on
    // the reader's words with its passage written. An answered gate is no stop: from the scenes as
    // the answer left them the drive goes on, with the passage of the answer already counted.
    method Submit(request: Option<Submission>, refuses: bool, fault: Fault, language: Word, freshProse: Word,
                  fails: nat -> bool, prose: nat -> Word, ghost at: nat)
      returns (written: nat, stop: Stop, ghost answered: bool, ghost landed: seq<Scene>, ghost harvested: nat)
      modifies this
      ensures AllLead(old(scenes), scenes)
      ensures Total(scenes) - Total(old(scenes)) == innerCalls - old(innerCalls)
      ensures old(OnCourse(scenes)) ==> OnCourse(scenes)
      ensures Rejects(old(scenes), refuses, request) ==> !answered && scenes == old(scenes)
      ensures answered ==> Admits(old(scenes)[Current(old(scenes))], request)
      ensures !answered ==> written == 0 && stop == Refused
      ensures answered ==> Over(Drive(landed, scenes, harvested, written, false, false, false, fails), stop, language, prose(harvested))
      ensures var c := Current(old(scenes));
              c < |scenes| && Waits(old(scenes)[c], at, request) && !refuses && fault.NoFault? ==> answered
      ensures var c := Current(old(scenes));
              answered && Waits(old(scenes)[c], at, request) && old(OnCourse(scenes)) && GateThenSegment(old(scenes)[c].script.value) ==>
                && |landed| == |old(scenes)| && Taken(old(scenes)[c], landed[c], at, request, freshProse) && harvested == 1
                && Held(old(scenes)[c], scenes[c], at, request, freshProse)
    {
      ghost var start := scenes;
      var ok, more := Answer(request, refuses, fault, language, freshProse, at);
      answered, landed, harvested := ok, scenes, more;
      if OnCourse(start) { StaysOnCourse(start, scenes); }
      if !ok { return 0, Refused, answered, landed, harvested; }
      ghost var c := Current(start);
      written, stop := PressOn(more, false, false, false, language, fails, prose);
      AllLeadTransitive(start, landed, scenes);
      if OnCourse(start) { StaysOnCourse(start, scenes); }
      if Waits(start[c], at, request) && OnCourse(start) && GateThenSegment(start[c].script.value) {
        ContinuationIsFresh(start[c], at);
        assert SceneLeads(start[c], landed[c]) && SceneLeads(landed[c], scenes[c]);
        TakenIsHeld(start[c], landed[c], scenes[c], at, request, freshProse);
      }
    }

    /** The reader presses on, or closes an open scene. */
    method Advance(endScene: bool, refuses: bool, language: Word, fails: nat -> bool, prose: nat -> Word)
      returns (written: nat, stop: Stop)
      modifies this
      ensures AllLead(old(scenes), scenes)
      ensures Total(scenes) - Total(old(scenes)) == innerCalls - old(innerCalls) == written <= CEILING
      ensures Over(Drive(old(scenes), scenes, 0, written, true, endScene, refuses, fails), stop, language, prose(0))
      ensures old(OnCourse(scenes)) ==> OnCourse(scenes)
    {
      ghost var start := scenes;
      written, stop := PressOn(0, true, endScene, refuses, language, fails, prose);
      if OnCourse(start) { StaysOnCourse(start, scenes); }
    }
  }

  /** A chapter of scenes nobody has driven is on course. */
  lemma UntouchedIsOnCourse(scenes: seq<Scene>)
    requires forall i | 0 <= i < |scenes| :: scenes[i].rows == Rows([], map[])
    ensures OnCourse(scenes)
  {
    forall i | 0 <= i < |scenes| && scenes[i].script.Some? ensures Reachable(scenes[i].script.value, scenes[i].rows) {
      assert RowsAfter(scenes[i].script.value, []) == scenes[i].rows;
    }
  }

  /** So in every scripted scene whose gates are carried the walk stands where a program counter does. */
  lemma OnCourseIsInStep(scenes: seq<Scene>, i: nat, w: Walk)
    requires OnCourse(scenes) && i < |scenes| && scenes[i].script.Some? && GateThenSegment(scenes[i].script.value)
    requires IsPosition(scenes[i].script.value, scenes[i].rows, |w.prefix|)
    requires WalksTo(scenes[i].script.value, scenes[i].rows, |w.prefix|, w)
    ensures exists pc :: Agree(scenes[i].script.value, scenes[i].rows, pc) && pc.at == |w.prefix|
  {
    var script, rows := scenes[i].script.value, scenes[i].rows;
    ReachableAgrees(script, rows);
    PositionUnique(script, rows, Position(script, rows), |w.prefix|);
  }
}
