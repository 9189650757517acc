/** Scripts derived from an adopted plan, and when the walk can be trusted with them. */
module NarrativeScript {
  import opened NarrativeWalk
  import opened NarrativeRuns

  const SEGMENT_TICKS := 1
  const DEFAULT_LANGUAGE: Word := 0

  // ---- scripts from a plan -----------------------------------------------------------

  /** One required_beats entry; option 0 is a blank word, and anything unreadable is Malformed. */
  datatype PlanBeat = PlanSegment | PlanGate(options: seq<Word>) | Malformed

  predicate Usable(b: PlanBeat) {
    b.PlanSegment? || (b.PlanGate? && b.options != [] && 0 !in b.options)
  }

  function UsableBeats(beats: seq<PlanBeat>): seq<PlanBeat> {
    if beats == [] then []
    else UsableBeats(beats[..|beats| - 1]) + (if Usable(beats[|beats| - 1]) then [beats[|beats| - 1]] else [])
  }

  function GatesIn(script: seq<Beat>): nat {
    if script == [] then 0
    else GatesIn(script[..|script| - 1]) + (if script[|script| - 1].GateBeat? then 1 else 0)
  }

  predicate Realizes(b: PlanBeat, beat: Beat) {
    match b
    case PlanSegment => beat.SegmentBeat? && beat.ticks == SEGMENT_TICKS && beat.language == DEFAULT_LANGUAGE
    case PlanGate(options) => beat.GateBeat? && beat.options == options
    case Malformed => false
  }

  /** Beat for beat the usable plan, gates numbered 1..k in order. */
  ghost predicate Follows(plan: seq<PlanBeat>, script: seq<Beat>) {
    && |script| == |plan|
    && (forall i | 0 <= i < |plan| :: Realizes(plan[i], script[i]))
    && (forall i | 0 <= i < |script| && script[i].GateBeat? :: script[i].gateSeq == GatesIn(script[..i + 1]))
  }

  /** The scene commits with its last beat and with no other. */
  ghost predicate ClosesOnce(script: seq<Beat>) {
    && script != [] && script[|script| - 1].SegmentBeat? && script[|script| - 1].last
    && forall i | 0 <= i < |script| - 1 && script[i].SegmentBeat? :: !script[i].last
  }

  ghost predicate HasGate(plan: seq<PlanBeat>) {
    exists i :: 0 <= i < |plan| && plan[i].PlanGate?
  }

  /** The list being built: the usable plan so far, the gate counter, and no terminal beat yet. */
  ghost predicate Draft(plan: seq<PlanBeat>, s: seq<Beat>, gateSeq: nat) {
    && Follows(plan, s)
    && gateSeq == GatesIn(s) && (gateSeq == 0 <==> !HasGate(plan))
    && forall k | 0 <= k < |s| && s[k].SegmentBeat? :: !s[k].last
  }

  method PlanScript(beats: seq<PlanBeat>) returns (script: Option<seq<Beat>>)
    ensures script.Some? <==> HasGate(UsableBeats(beats))
    ensures script.Some? ==>
              ClosesOnce(script.value) && Ends(UsableBeats(beats), script.value) && GatesNumbered(script.value)
  {
    var s: seq<Beat> := [];
    var gateSeq := 0;
    for i := 0 to |beats|
      invariant Draft(UsableBeats(beats[..i]), s, gateSeq)
    {
      UsableStep(beats, i);
      s, gateSeq := AppendBeat(s, gateSeq, beats[i], UsableBeats(beats[..i]));
    }
    assert beats[..|beats|] == beats;
    if gateSeq == 0 { return None; }
    var whole := CloseScript(s, UsableBeats(beats), gateSeq);
    DerivedGatesNumbered(UsableBeats(beats), whole);
    return Some(whole);
  }

  function OnlyUsable(b: PlanBeat): seq<PlanBeat> {
    if Usable(b) then [b] else []
  }

  lemma UsableStep(beats: seq<PlanBeat>, i: nat)
    requires i < |beats|
    ensures UsableBeats(beats[..i + 1]) == UsableBeats(beats[..i]) + OnlyUsable(beats[i])
  {
    assert beats[..i + 1][..i] == beats[..i];
  }

  /** One entry of the plan: a usable gate takes the next number, a malformed entry is no beat. */
  method AppendBeat(s: seq<Beat>, gateSeq: nat, b: PlanBeat, ghost plan: seq<PlanBeat>)
    returns (s': seq<Beat>, gateSeq': nat)
    requires Draft(plan, s, gateSeq)
    ensures Draft(plan + OnlyUsable(b), s', gateSeq')
  {
    s', gateSeq' := s, gateSeq;
    if b.PlanGate? && b.options != [] && 0 !in b.options {
      gateSeq' := gateSeq + 1;
      AddBeat(plan, s, gateSeq, b, GateBeat(gateSeq', b.options));
      s' := s + [GateBeat(gateSeq', b.options)];
    } else if b.PlanSegment? {
      AddBeat(plan, s, gateSeq, b, SegmentBeat(DEFAULT_LANGUAGE, SEGMENT_TICKS, false));
      s' := s + [SegmentBeat(DEFAULT_LANGUAGE, SEGMENT_TICKS, false)];
    } else {
      assert plan + OnlyUsable(b) == plan;
    }
  }

  /** The plan beat for beat, then at most one closing segment when the plan ends on a gate. */
  ghost predicate Ends(plan: seq<PlanBeat>, script: seq<Beat>) {
    && plan != [] && |plan| <= |script|
    && |script| == |plan| + (if plan[|plan| - 1].PlanGate? then 1 else 0)
    && Follows(plan, script[..|plan|])
  }

  method CloseScript(s: seq<Beat>, ghost plan: seq<PlanBeat>, ghost gateSeq: nat) returns (whole: seq<Beat>)
    requires Draft(plan, s, gateSeq) && gateSeq > 0
    ensures ClosesOnce(whole) && Ends(plan, whole)
  {
    var n := |s|;
    assert s != [];
    assert Realizes(plan[n - 1], s[n - 1]);
    if s[n - 1].GateBeat? {
      whole := s + [SegmentBeat(DEFAULT_LANGUAGE, SEGMENT_TICKS, true)];
      assert whole[..n] == s;
    } else {
      whole := s[n - 1 := s[n - 1].(last := true)];
      MarkLast(plan, s, whole);
      assert whole[..n] == whole;
    }
  }

  lemma AddBeat(plan: seq<PlanBeat>, script: seq<Beat>, gateSeq: nat, b: PlanBeat, beat: Beat)
    requires Draft(plan, script, gateSeq) && Realizes(b, beat)
    requires beat.GateBeat? ==> beat.gateSeq == gateSeq + 1
    requires beat.SegmentBeat? ==> !beat.last
    ensures Draft(plan + [b], script + [beat], gateSeq + if beat.GateBeat? then 1 else 0)
  {
    var longer, plan' := script + [beat], plan + [b];
    assert longer[..|script|] == script && longer[..|script| + 1] == longer;
    assert GatesIn(longer) == GatesIn(script) + (if beat.GateBeat? then 1 else 0);
    forall i | 0 <= i < |longer| && longer[i].GateBeat? ensures longer[i].gateSeq == GatesIn(longer[..i + 1]) {
      if i < |script| { assert longer[..i + 1] == script[..i + 1]; }
    }
    assert plan'[|plan|] == b;
    assert HasGate(plan') <==> HasGate(plan) || b.PlanGate? by {
      if HasGate(plan) { var i :| 0 <= i < |plan| && plan[i].PlanGate?; assert plan'[i].PlanGate?; }
    }
  }

  lemma {:induction false} SameGates(a: seq<Beat>, b: seq<Beat>)
    requires |a| == |b| && forall i | 0 <= i < |a| :: a[i].GateBeat? <==> b[i].GateBeat?
    ensures GatesIn(a) == GatesIn(b)
  {
    if a != [] { SameGates(a[..|a| - 1], b[..|b| - 1]); }
  }

  lemma MarkLast(plan: seq<PlanBeat>, s: seq<Beat>, whole: seq<Beat>)
    requires s != [] && s[|s| - 1].SegmentBeat? && Follows(plan, s)
    requires whole == s[|s| - 1 := s[|s| - 1].(last := true)]
    ensures Follows(plan, whole)
  {
    forall i | 0 <= i < |whole| && whole[i].GateBeat? ensures whole[i].gateSeq == GatesIn(whole[..i + 1]) {
      SameGates(whole[..i + 1], s[..i + 1]);
    }
  }

  // ---- gates of a derived script ------------------------------------------------------------

  lemma {:induction false} GatesInGrows(script: seq<Beat>, i: nat, j: nat)
    requires i <= j <= |script|
    ensures GatesIn(script[..i]) <= GatesIn(script[..j])
    decreases j
  {
    if i < j {
      GatesInGrows(script, i, j - 1);
      assert script[..j][..j - 1] == script[..j - 1];
    }
  }

  /** A derived script tells its gates apart. */
  lemma DerivedGatesNumbered(plan: seq<PlanBeat>, script: seq<Beat>)
    requires Ends(plan, script) && ClosesOnce(script)
    ensures GatesNumbered(script)
  {
    var n := |plan|;
    forall i, j | 0 <= i < j < |script| && script[i].GateBeat? && script[j].GateBeat?
      ensures script[i].gateSeq != script[j].gateSeq
    {
      var front := script[..n];
      assert front[i] == script[i] && front[j] == script[j];
      assert front[..j + 1][..j] == front[..j];
      GatesInGrows(front, i + 1, j);
    }
  }

  /** No gate of the plan is directly followed by another. */
  ghost predicate GatesApart(plan: seq<PlanBeat>) {
    forall i | 0 <= i < |plan| - 1 && plan[i].PlanGate? :: plan[i + 1].PlanSegment?
  }

  lemma BeatsFollow(plan: seq<PlanBeat>, script: seq<Beat>, i: nat)
    requires Ends(plan, script) && i < |plan|
    ensures script[i].GateBeat? <==> plan[i].PlanGate?
    ensures script[i].SegmentBeat? <==> plan[i].PlanSegment?
  {
    assert Realizes(plan[i], script[..|plan|][i]);
  }

  /** The walk can be trusted with a derived script exactly when its plan keeps gates apart. */
  lemma DerivedIsCarriedExactly(plan: seq<PlanBeat>, script: seq<Beat>)
    requires Ends(plan, script) && ClosesOnce(script)
    ensures GateThenSegment(script) <==> GatesApart(plan)
  {
    DerivedGatesNumbered(plan, script);
    forall i | 0 <= i < |plan| - 1 && plan[i].PlanGate? ensures Carried(script, i) <==> plan[i + 1].PlanSegment? {
      BeatsFollow(plan, script, i);
      BeatsFollow(plan, script, i + 1);
    }
    forall i | 0 <= i < |script| && (i + 1 >= |plan| || !plan[i].PlanGate?) ensures Carried(script, i) {
      if i < |plan| { BeatsFollow(plan, script, i); }
    }
  }

  const TWO_QUESTIONS: seq<PlanBeat> := [PlanSegment, PlanGate([1]), PlanGate([2])]

  /** A plan with two gates in a row is scripted, and its walk falls out of step. */
  lemma TwoQuestionsFallOutOfStep(script: seq<Beat>, press: Press)
    requires Ends(UsableBeats(TWO_QUESTIONS), script) && ClosesOnce(script)
    ensures HasGate(UsableBeats(TWO_QUESTIONS)) && !GateThenSegment(script) && exists events :: !InStep(script, events)
  {
    assert UsableBeats(TWO_QUESTIONS) == TWO_QUESTIONS by { AllUsable(); }
    assert TWO_QUESTIONS[1].PlanGate? && TWO_QUESTIONS[2].PlanGate?;
    DerivedIsCarriedExactly(TWO_QUESTIONS, script);
    DerivedGatesNumbered(TWO_QUESTIONS, script);
    InStepExactlyWhenCarried(script, press);
  }

  lemma AllUsable()
    ensures UsableBeats(TWO_QUESTIONS) == TWO_QUESTIONS
  {
    assert TWO_QUESTIONS[..2] == [PlanSegment, PlanGate([1])] && TWO_QUESTIONS[..2][..1] == [PlanSegment];
    assert TWO_QUESTIONS[..2][..1][..0] == [];
    assert UsableBeats([PlanSegment]) == [PlanSegment];
    assert UsableBeats([PlanSegment, PlanGate([1])]) == [PlanSegment, PlanGate([1])];
  }
}
