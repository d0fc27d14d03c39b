/** The step lists the game attaches to cards and to its ambient sequences
    (flashCards, memylon.js:118-132; onMouseClick, memylon.js:243-280;
    playFinalScene, memylon.js:201-234), and how they play out against the
    frame clock of FrameTime milliseconds per tick. */
module Schedules {
  import opened Animation
  import opened Constants
  import opened AnimFunctions

  function Abs(n: int): nat {
    if n < 0 then -n else n
  }

  // ---------------------------------------------------------------------------
  // The step lists

  /** A card's opening flash: wait a delay that grows with the column, flip
      face up, stay up for FlashTime per column, flip face down. */
  function FlashSteps(col: nat, cardID: int): seq<Step> {
    [Step(Pose, Ms((col + 1) * 80), CardParam(cardID)),
     Step(Flip, Ms(FlipTime), CardParam(cardID)),
     Step(Pose, Ms(FlashTime * GridWidth), CardParam(-cardID)),
     Step(Flip, Ms(FlipTime), CardParam(-cardID))]
  }

  /** The duration of the flash's `exec` step. */
  const FlashExecTime: nat := GridWidth * 80 + FlipTime * 2 + FlashTime * GridWidth

  /** The ambient sequence of flashCards: one `exec` that turns interaction
      on. With no cards the loop never assigns `flashTime`, the sum is NaN and
      the step behaves like one without a duration. */
  function FlashExecSteps(hasCards: bool): seq<Step> {
    [Step(Exec, if hasCards then Ms(FlashExecTime) else Undefined, CallbackParam(EnableInteraction))]
  }

  /** First pick: flip the clicked card face up. */
  function FirstPickSteps(cardID: int): seq<Step> {
    [Step(Flip, Ms(FlipTime), CardParam(cardID))]
  }

  /** Match, for the card picked first: stay up while the other flips, then
      dissolve. */
  function MatchPrevSteps(prevID: int): seq<Step> {
    [Step(Pose, Ms(FlipTime), CardParam(prevID)), Step(Hide, Ms(HideTime), CardParam(prevID))]
  }

  /** Match, for the clicked card: flip face up, then dissolve. */
  function MatchCardSteps(cardID: int): seq<Step> {
    [Step(Flip, Ms(FlipTime), CardParam(cardID)), Step(Hide, Ms(HideTime), CardParam(-cardID))]
  }

  /** The flying caption's parameter object: the matched card's name. */
  function CaptionFields(cardID: int): map<Field, Value> {
    map[TextField := CardName(Abs(cardID) - 1), AlphaFrom := Num(1.0), AlphaTo := Num(0.01),
        SizeFrom := Num(10.0), SizeTo := Num(300.0)]
  }

  /** Match: the caption grows and fades, then the sequence waits forever. */
  function CaptionSteps(cardID: int): seq<Step> {
    [Step(Text, Ms(2000), CaptionParam(CaptionFields(cardID))), Step(Wait, Undefined, NoParam)]
  }

  /** Mismatch, for the card picked first: stay up while the other flips and
      shows, flip back, then stay face down. */
  function MismatchPrevSteps(prevID: int): seq<Step> {
    [Step(Pose, Ms(FlipTime + ShowTime), CardParam(prevID)),
     Step(Flip, Ms(FlipTime), CardParam(prevID)),
     Step(Pose, Undefined, CardParam(-prevID))]
  }

  /** Mismatch, for the clicked card: flip up, show, flip back, stay down. */
  function MismatchCardSteps(cardID: int): seq<Step> {
    [Step(Flip, Ms(FlipTime), CardParam(cardID)),
     Step(Pose, Ms(ShowTime), CardParam(-cardID)),
     Step(Flip, Ms(FlipTime), CardParam(-cardID)),
     Step(Pose, Undefined, CardParam(cardID))]
  }

  /** Where every line of the final scene comes to rest. */
  const CenterX: real := 190.0

  /** One line of the final scene: wait, then fly the caption in. */
  function SceneLine(delay: nat, flight: nat, fields: map<Field, Value>): seq<Step> {
    [Step(Wait, Ms(delay), NoParam), Step(Text, Ms(flight), CaptionParam(fields))]
  }

  /** playFinalScene: five lines, the last one naming the winning card. */
  function FinalScene(cardID: int): (r: seq<seq<Step>>)
    ensures |r| == 5 && forall j :: 0 <= j < 5 ==> |r[j]| == 2
  {
    [SceneLine(1000, 500, map[TextField := Str("This is it."), Color := Str("#5F5B60"), AlphaTo := Num(0.8),
                              YFrom := Num(30.0), XFrom := Num(400.0), XTo := Num(CenterX),
                              SizeFrom := Num(50.0)]),
     SceneLine(2000, 700, map[TextField := Str("the language wars"), Color := Str("#735551"),
                              YFrom := Num(75.0), XFrom := Num(-200.0), XTo := Num(CenterX),
                              SizeFrom := Num(30.0)]),
     SceneLine(2700, 1000, map[TextField := Str("ARE OVER."), Color := Str("#81878C"),
                               XFrom := Num(CenterX), YTo := Num(120.0),
                               SizeFrom := Num(0.0), SizeTo := Num(40.0)]),
     SceneLine(5000, 1500, map[TextField := Str("and the winner is..."), Color := Str("#B2A89B"),
                               XFrom := Num(500.0), XTo := Num(CenterX), YFrom := Num(160.0),
                               SizeFrom := Num(30.0)]),
     SceneLine(6500, 5000, map[TextField := CardName(Abs(cardID) - 1), Color := Str("#D91122"),
                               XFrom := Num(-100.0), XTo := Num(CenterX), YFrom := Num(210.0),
                               SizeFrom := Num(0.0), SizeTo := Num(55.0)])]
  }

  // ---------------------------------------------------------------------------
  // Captions

  /** The match caption once filled: its own size and opacity, the default
      position, which it keeps. */
  lemma MatchCaptionFilled(cardID: int)
    ensures var f := FillCaption(CaptionFields(cardID));
      TextField in f && f[TextField] == CardName(Abs(cardID) - 1)
      && NumField(f, SizeFrom) == 10.0 && NumField(f, SizeTo) == 300.0
      && NumField(f, XFrom) == 182.0 && NumField(f, XTo) == 182.0
      && NumField(f, YFrom) == 150.0 && NumField(f, YTo) == 150.0
      && NumField(f, AlphaFrom) == 1.0 && NumField(f, AlphaTo) == 0.01
  {
    FillCaptionKeeps(CaptionFields(cardID));
  }

  /** The match caption starts small and opaque at the default position and
      ends 300 px tall and almost transparent, in the same place. */
  lemma MatchCaptionFlies(cardID: int)
    ensures CaptionAt(CaptionFields(cardID), 0.0) == Caption(CardName(Abs(cardID) - 1), 10.0, 182.0, 150.0, 1.0)
    ensures CaptionAt(CaptionFields(cardID), 1.0) == Caption(CardName(Abs(cardID) - 1), 300.0, 182.0, 150.0, 0.01)
  {
    MatchCaptionFilled(cardID);
    CaptionEndpoints(CaptionFields(cardID));
  }

  /** Every line of the final scene comes to rest at x = CenterX, the last one
      names the winning card, and the lines start one after another. */
  lemma FinalSceneLinesLand(cardID: int, j: nat)
    requires j < 5
    ensures |FinalScene(cardID)[j]| == 2 && FinalScene(cardID)[j][1].param.CaptionParam?
    ensures CaptionAt(FinalScene(cardID)[j][1].param.fields, 1.0).x == CenterX
    ensures j == 4 ==> CaptionAt(FinalScene(cardID)[j][1].param.fields, 1.0).text == CardName(Abs(cardID) - 1)
    ensures j > 0 ==> FinalScene(cardID)[j - 1][0].duration.ms < FinalScene(cardID)[j][0].duration.ms
  {
    CaptionRestsAt(FinalScene(cardID)[j][1].param.fields, CenterX);
  }

  // ---------------------------------------------------------------------------
  // Frame timing

  /** The ticks a step of `ms` > 0 milliseconds lasts: its time runs out on
      tick number ceil(ms / FrameTime). */
  function Frames(ms: nat): nat {
    (ms + FrameTime - 1) / FrameTime
  }

  lemma FramesBound(ms: nat)
    requires ms > 0
    ensures Frames(ms) >= 1
    ensures (Frames(ms) - 1) * FrameTime < ms <= Frames(ms) * FrameTime
  {
  }

  /** The steps before index `k` all have a positive duration. */
  predicate PositiveUntil(steps: seq<Step>, k: nat) {
    k <= |steps| && forall j :: 0 <= j < k ==> steps[j].duration.Ms? && steps[j].duration.ms > 0
  }

  /** The ticks after which a fresh sequence reaches step `k`. */
  function FramesUntil(steps: seq<Step>, k: nat): nat
    requires PositiveUntil(steps, k)
  {
    if k == 0 then 0 else FramesUntil(steps, k - 1) + Frames(steps[k - 1].duration.ms)
  }

  /** Ticks that do not exhaust the current step only add to its clock. */
  lemma {:induction false} WithinStep(s: SeqState, j: nat)
    requires Ready(s) && Current(s).duration.Ms? && Current(s).duration.ms > 0
    requires s.curTime + j * FrameTime < Current(s).duration.ms
    ensures Run(s, FrameTime, j) == s.(curTime := s.curTime + j * FrameTime)
  {
    if j > 0 {
      WithinStep(s, j - 1);
      RunSplit(s, FrameTime, j - 1, 1);
    }
  }

  /** A step entered at time 0 whose time runs out on tick `k` is called at
      progress 1 on that tick, after which the next step starts at time 0. */
  lemma StepEndsOnTick(s: SeqState, k: nat)
    requires Ready(s) && s.curTime == 0 && Current(s).duration.Ms?
    requires k >= 1 && (k - 1) * FrameTime < Current(s).duration.ms <= k * FrameTime
    ensures Run(s, FrameTime, k - 1) == s.(curTime := (k - 1) * FrameTime)
    ensures Elapsed(Run(s, FrameTime, k - 1), FrameTime)
    ensures s.curAnim < |s.anims| - 1 ==> Run(s, FrameTime, k) == SeqState(s.anims, s.curAnim + 1, 0)
  {
    WithinStep(s, k - 1);
    RunSplit(s, FrameTime, k - 1, 1);
  }

  /** A positive step entered at time 0 is called at progress 1 on its
      Frames-th tick, after which the next step starts at time 0. */
  lemma FinishStep(s: SeqState)
    requires Ready(s) && s.curTime == 0 && Current(s).duration.Ms? && Current(s).duration.ms > 0
    ensures var k := Frames(Current(s).duration.ms);
      k >= 1 && Run(s, FrameTime, k - 1) == s.(curTime := (k - 1) * FrameTime)
      && Elapsed(Run(s, FrameTime, k - 1), FrameTime)
    ensures s.curAnim < |s.anims| - 1 ==>
      Run(s, FrameTime, Frames(Current(s).duration.ms)) == SeqState(s.anims, s.curAnim + 1, 0)
  {
    FramesBound(Current(s).duration.ms);
    StepEndsOnTick(s, Frames(Current(s).duration.ms));
  }

  /** A fresh sequence enters step `k` at time 0 after FramesUntil(k) ticks. */
  lemma {:induction false} ReachStep(steps: seq<Step>, k: nat)
    requires k < |steps| && PositiveUntil(steps, k)
    ensures Run(Start(steps), FrameTime, FramesUntil(steps, k)) == SeqState(steps, k, 0)
  {
    if k > 0 {
      ReachStep(steps, k - 1);
      FinishStep(SeqState(steps, k - 1, 0));
      RunSplit(Start(steps), FrameTime, FramesUntil(steps, k - 1), Frames(steps[k - 1].duration.ms));
    }
  }

  /** From FramesUntil(k) ticks up to FramesUntil(k + 1) ticks, step `k` is
      the current one. */
  lemma IndexDuring(steps: seq<Step>, k: nat, n: nat)
    requires k < |steps| && PositiveUntil(steps, k + 1)
    requires FramesUntil(steps, k) <= n < FramesUntil(steps, k + 1)
    ensures Run(Start(steps), FrameTime, n) == SeqState(steps, k, (n - FramesUntil(steps, k)) * FrameTime)
  {
    var d := n - FramesUntil(steps, k);
    ReachStep(steps, k);
    RunSplit(Start(steps), FrameTime, FramesUntil(steps, k), d);
    FramesBound(steps[k].duration.ms);
    WithinStep(SeqState(steps, k, 0), d);
  }

  /** Once a fresh sequence reaches a step without a truthy duration, it
      stays there. */
  lemma StopsAtUntimed(steps: seq<Step>, k: nat, n: nat)
    requires k < |steps| && PositiveUntil(steps, k) && !Timed(steps[k].duration)
    requires FramesUntil(steps, k) <= n
    ensures Run(Start(steps), FrameTime, n).curAnim == k
    ensures CallAfter(Start(steps), FrameTime, n).kind == steps[k].kind
    ensures CallAfter(Start(steps), FrameTime, n).param == steps[k].param
  {
    ReachStep(steps, k);
    RunSplit(Start(steps), FrameTime, FramesUntil(steps, k), n - FramesUntil(steps, k));
    UntimedStepHolds(SeqState(steps, k, 0), FrameTime, n - FramesUntil(steps, k));
  }

  /** Before its time runs out, the last step is current and not yet
      called at progress 1. */
  lemma LastStepPending(steps: seq<Step>, n: nat)
    requires |steps| >= 1 && PositiveUntil(steps, |steps|)
    requires FramesUntil(steps, |steps| - 1) <= n && n + 1 < FramesUntil(steps, |steps|)
    ensures Run(Start(steps), FrameTime, n).curAnim == |steps| - 1
    ensures CallAfter(Start(steps), FrameTime, n).progress != At(1.0)
  {
    FramesBound(steps[|steps| - 1].duration.ms);
    IndexDuring(steps, |steps| - 1, n);
  }

  /** Entered at time 0, a positive last step is called at progress 1 on
      its Frames-th tick and on every tick after. */
  lemma LastStepFromEntry(s: SeqState, j: nat)
    requires Ready(s) && s.curTime == 0 && s.curAnim == |s.anims| - 1
    requires Current(s).duration.Ms? && Current(s).duration.ms > 0
    requires j + 1 >= Frames(Current(s).duration.ms)
    ensures Run(s, FrameTime, j).curAnim == s.curAnim
    ensures CallAfter(s, FrameTime, j) == Invocation(Current(s).kind, At(1.0), Current(s).param)
  {
    var k := Frames(Current(s).duration.ms);
    FinishStep(s);
    var parked := Run(s, FrameTime, k - 1);
    RunSplit(s, FrameTime, k - 1, j - (k - 1));
    ParkedStepRefires(parked, FrameTime, j - (k - 1));
  }

  /** From the tick its time runs out on, the last step is called at
      progress 1 on every tick. */
  lemma LastStepDone(steps: seq<Step>, n: nat)
    requires |steps| >= 1 && PositiveUntil(steps, |steps|)
    requires n + 1 >= FramesUntil(steps, |steps|)
    ensures Run(Start(steps), FrameTime, n).curAnim == |steps| - 1
    ensures CallAfter(Start(steps), FrameTime, n) == Invocation(steps[|steps| - 1].kind, At(1.0), steps[|steps| - 1].param)
  {
    var last := |steps| - 1;
    var f0 := FramesUntil(steps, last);
    ReachStep(steps, last);
    RunSplit(Start(steps), FrameTime, f0, n - f0);
    LastStepFromEntry(SeqState(steps, last, 0), n - f0);
  }

  /** The last step of a sequence of positive steps is called at progress 1
      exactly from tick FramesUntil(|steps|) on, and again on every tick
      after that. */
  lemma LastStepCompletes(steps: seq<Step>, n: nat)
    requires |steps| >= 1 && PositiveUntil(steps, |steps|)
    requires FramesUntil(steps, |steps| - 1) <= n
    ensures Run(Start(steps), FrameTime, n).curAnim == |steps| - 1
    ensures CallAfter(Start(steps), FrameTime, n).progress == At(1.0) <==> n + 1 >= FramesUntil(steps, |steps|)
    ensures n + 1 >= FramesUntil(steps, |steps|) ==>
      CallAfter(Start(steps), FrameTime, n) == Invocation(steps[|steps| - 1].kind, At(1.0), steps[|steps| - 1].param)
  {
    if n + 1 < FramesUntil(steps, |steps|) {
      LastStepPending(steps, n);
    } else {
      LastStepDone(steps, n);
    }
  }

  // ---------------------------------------------------------------------------
  // The schedules' timing

  /** On a mismatch both cards take 2 * FlipTime + ShowTime milliseconds,
      26 ticks, to reach their last step: the first-picked card in two steps,
      the clicked one in three. */
  lemma MismatchFrames(prevID: int, cardID: int)
    ensures FramesUntil(MismatchPrevSteps(prevID), 1) == 16 && FramesUntil(MismatchPrevSteps(prevID), 2) == 26
    ensures FramesUntil(MismatchCardSteps(cardID), 1) == 10 && FramesUntil(MismatchCardSteps(cardID), 2) == 16
    ensures FramesUntil(MismatchCardSteps(cardID), 3) == 26
    ensures 26 * FrameTime == 2 * FlipTime + ShowTime
  {
    var ps := MismatchPrevSteps(prevID);
    var cs := MismatchCardSteps(cardID);
    assert Frames(FlipTime + ShowTime) == 16 && Frames(FlipTime) == 10 && Frames(ShowTime) == 6;
    assert FramesUntil(ps, 1) == FramesUntil(ps, 0) + Frames(FlipTime + ShowTime);
    assert FramesUntil(ps, 2) == FramesUntil(ps, 1) + Frames(FlipTime);
    assert FramesUntil(cs, 1) == FramesUntil(cs, 0) + Frames(FlipTime);
    assert FramesUntil(cs, 2) == FramesUntil(cs, 1) + Frames(ShowTime);
    assert FramesUntil(cs, 3) == FramesUntil(cs, 2) + Frames(FlipTime);
  }

  /** On a mismatch both cards settle on the same tick: the first-picked card
      reaches its last step exactly when the clicked one does. */
  lemma MismatchSettlesTogether(prevID: int, cardID: int, n: nat)
    ensures Run(Start(MismatchPrevSteps(prevID)), FrameTime, n).curAnim == 2 <==> n * FrameTime >= 2 * FlipTime + ShowTime
    ensures Run(Start(MismatchCardSteps(cardID)), FrameTime, n).curAnim == 3 <==> n * FrameTime >= 2 * FlipTime + ShowTime
  {
    var ps := MismatchPrevSteps(prevID);
    var cs := MismatchCardSteps(cardID);
    MismatchFrames(prevID, cardID);
    if n < 26 {
      if n < 16 { IndexDuring(ps, 0, n); } else { IndexDuring(ps, 1, n); }
      if n < 10 { IndexDuring(cs, 0, n); } else if n < 16 { IndexDuring(cs, 1, n); } else { IndexDuring(cs, 2, n); }
    } else {
      StopsAtUntimed(ps, 2, n);
      StopsAtUntimed(cs, 3, n);
    }
  }

  /** Once settled after a mismatch, both cards are drawn face down (when the
      first pick's id was face up and the clicked card's face down). */
  lemma MismatchShowsBacks(prevID: int, cardID: int, n: nat)
    requires prevID > 0 && cardID < 0 && n * FrameTime >= 2 * FlipTime + ShowTime
    ensures Draw(CallAfter(Start(MismatchPrevSteps(prevID)), FrameTime, n)) == Sprite(0, 1.0)
    ensures Draw(CallAfter(Start(MismatchCardSteps(cardID)), FrameTime, n)) == Sprite(0, 1.0)
  {
    MismatchFrames(prevID, cardID);
    StopsAtUntimed(MismatchPrevSteps(prevID), 2, n);
    StopsAtUntimed(MismatchCardSteps(cardID), 3, n);
  }

  /** Each card's flash ends (the flip back completes) no later than the
      flash's `exec` fires, and the last column's ends on that very tick;
      in milliseconds the exec lasts exactly as long as the last column's
      flash. From then on the card is redrawn face down. */
  lemma FlashCardFinishes(col: nat, cardID: int, n: nat)
    requires col < GridWidth
    ensures (col + 1) * 80 + FlipTime + FlashTime * GridWidth + FlipTime <= FlashExecTime
    ensures col == GridWidth - 1 ==> (col + 1) * 80 + FlipTime + FlashTime * GridWidth + FlipTime == FlashExecTime
    ensures FramesUntil(FlashSteps(col, cardID), 4) <= Frames(FlashExecTime)
    ensures col == GridWidth - 1 ==> FramesUntil(FlashSteps(col, cardID), 4) == Frames(FlashExecTime)
    ensures n + 1 >= FramesUntil(FlashSteps(col, cardID), 4) ==>
      CallAfter(Start(FlashSteps(col, cardID)), FrameTime, n) == Invocation(Flip, At(1.0), CardParam(-cardID))
    ensures n + 1 >= FramesUntil(FlashSteps(col, cardID), 4) && cardID < 0 ==>
      Draw(CallAfter(Start(FlashSteps(col, cardID)), FrameTime, n)) == Sprite(0, 1.0)
  {
    var steps := FlashSteps(col, cardID);
    assert Frames((col + 1) * 80) <= 10 by {
      if col == 0 {} else if col == 1 {} else if col == 2 {} else if col == 3 {} else if col == 4 {} else {}
    }
    assert FramesUntil(steps, 1) == Frames((col + 1) * 80);
    assert FramesUntil(steps, 2) == FramesUntil(steps, 1) + 10;
    assert FramesUntil(steps, 3) == FramesUntil(steps, 2) + 120;
    if n + 1 >= FramesUntil(steps, 4) {
      LastStepCompletes(steps, n);
    }
  }

  /** The flash's `exec` fires on the Frames(FlashExecTime)-th tick and on
      every tick after it, and never before; without cards it never fires. */
  lemma FlashExecFires(n: nat)
    ensures Fires(CallAfter(Start(FlashExecSteps(true)), FrameTime, n)) <==> n + 1 >= Frames(FlashExecTime)
    ensures !Fires(CallAfter(Start(FlashExecSteps(false)), FrameTime, n))
  {
    var steps := FlashExecSteps(true);
    LastStepCompletes(steps, n);
    UntimedStepHolds(Start(FlashExecSteps(false)), FrameTime, n);
  }
}
