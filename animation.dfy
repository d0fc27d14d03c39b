/** AnimSequence (memylon.js:1-24): a list of timed steps played one after
    the other against the frame clock, and the `anim` builder
    (memylon.js:187-198). A step names one of the game's step functions by a
    tag; `update` returns the call it would make instead of making it. */
module Animation {

  /** A value in the parameter object of a `text` step. */
  datatype Value = Num(n: real) | Str(s: string) | Flag(b: bool) | CardName(index: int)

  /** The keys of a caption's parameter object that the game reads or
      writes. */
  datatype Field =
    | TextField | Color | Font | Bold
    | SizeFrom | SizeTo | XFrom | XTo | YFrom | YTo | AlphaFrom | AlphaTo

  /** The step functions of AnimFunctions, by name. */
  datatype Kind = Pose | Flip | Hide | Text | Exec | Wait

  /** What an `exec` step calls. The game's only callback turns interaction on. */
  datatype Action = EnableInteraction

  /** The startParam of a step: nothing, a signed card id, a caption's
      parameter object, or a callback. */
  datatype Param =
    | NoParam
    | CardParam(id: int)
    | CaptionParam(fields: map<Field, Value>)
    | CallbackParam(action: Action)

  /** A step duration in milliseconds, or undefined when the step was added
      without one. */
  datatype Duration = Undefined | Ms(ms: int)

  /** JavaScript truthiness of a duration: defined and different from 0. */
  predicate Timed(d: Duration) {
    d.Ms? && d.ms != 0
  }

  /** One entry of `anims`: {updateFn, duration, startParam}. */
  datatype Step = Step(kind: Kind, duration: Duration, param: Param)

  /** The first argument a step function receives: undefined or a number. */
  datatype Progress = NoProgress | At(t: real)

  /** One call of a step function: which one, at what progress, with which
      startParam. */
  datatype Invocation = Invocation(kind: Kind, progress: Progress, param: Param)

  /** The three fields of an AnimSequence, as a value. */
  datatype SeqState = SeqState(anims: seq<Step>, curAnim: nat, curTime: nat)

  /** `update` can run: the current index names a step. */
  predicate Ready(s: SeqState) {
    s.curAnim < |s.anims|
  }

  /** A sequence just built from `steps`. */
  function Start(steps: seq<Step>): SeqState {
    SeqState(steps, 0, 0)
  }

  /** The step being played. */
  function Current(s: SeqState): Step
    requires Ready(s)
  {
    s.anims[s.curAnim]
  }

  /** On a tick of `dt`, the current step has a truthy duration and its time
      has run out. */
  predicate Elapsed(s: SeqState, dt: nat)
    requires Ready(s)
  {
    Timed(Current(s).duration) && s.curTime + dt >= Current(s).duration.ms
  }

  /** `anim.duration && curTime / anim.duration`: undefined stays undefined,
      0 stays 0, any other duration divides. */
  function ProgressOf(d: Duration, time: nat): Progress {
    match d
    case Undefined => NoProgress
    case Ms(ms) => if ms == 0 then At(0.0) else At(time as real / ms as real)
  }

  /** The new fields after one `update`, and the call it made. */
  datatype Tick = Tick(next: SeqState, call: Invocation)

  /** `update(dt)`: exactly one call of the current step; the step is left
      (with the excess time discarded) only on the tick its time runs out,
      and the last step is never left. */
  function Advance(s: SeqState, dt: nat): (r: Tick)
    requires Ready(s)
    ensures Ready(r.next) && r.next.anims == s.anims
    ensures r.next.curAnim == s.curAnim || r.next.curAnim == s.curAnim + 1
    ensures r.next.curAnim == s.curAnim + 1 <==> Elapsed(s, dt) && s.curAnim < |s.anims| - 1
    ensures r.call.kind == Current(s).kind && r.call.param == Current(s).param
    ensures r.call.progress == At(1.0) <==> Elapsed(s, dt)
    ensures r.call.progress.At? ==> 0.0 <= r.call.progress.t <= 1.0
    ensures r.call.progress == NoProgress <==> Current(s).duration == Undefined
    ensures Current(s).duration == Ms(0) ==> r.call.progress == At(0.0)
    ensures !Elapsed(s, dt) ==> r.next == s.(curTime := s.curTime + dt)
    ensures Elapsed(s, dt) && s.curAnim == |s.anims| - 1 ==> r.next == s.(curTime := s.curTime + dt)
  {
    var step := Current(s);
    var time := s.curTime + dt;
    if Timed(step.duration) && time >= step.duration.ms then
      var call := Invocation(step.kind, At(1.0), step.param);
      if s.curAnim < |s.anims| - 1 then Tick(SeqState(s.anims, s.curAnim + 1, 0), call)
      else Tick(s.(curTime := time), call)
    else
      Tick(s.(curTime := time), Invocation(step.kind, ProgressOf(step.duration, time), step.param))
  }

  /** While the current step's time has not run out, a tick calls it at
      progress (curTime + dt) / duration, which is below 1, and only adds
      `dt` to the clock. */
  lemma MidStepProgress(s: SeqState, dt: nat)
    requires Ready(s) && Timed(Current(s).duration) && !Elapsed(s, dt)
    ensures Current(s).duration.ms > 0
    ensures Advance(s, dt).call.progress == At((s.curTime + dt) as real / Current(s).duration.ms as real)
    ensures 0.0 <= Advance(s, dt).call.progress.t < 1.0
    ensures Advance(s, dt).next == s.(curTime := s.curTime + dt)
  {
  }

  /** A sequence object: `anims`, `curAnim` and `curTime` are updated in place. */
  class AnimSequence {
    var anims: seq<Step>
    var curAnim: nat
    var curTime: nat

    /** The fields as a value. */
    function State(): SeqState
      reads this
    {
      SeqState(anims, curAnim, curTime)
    }

    constructor ()
      ensures State() == Start([])
    {
      anims := [];
      curAnim := 0;
      curTime := 0;
    }

    /** add: appends one step. */
    method Add(kind: Kind, duration: Duration, param: Param)
      modifies this
      ensures State() == old(State()).(anims := old(anims) + [Step(kind, duration, param)])
    {
      anims := anims + [Step(kind, duration, param)];
    }

    /** update: advances the clock by `dt` and returns the one call made. */
    method Update(dt: nat) returns (call: Invocation)
      requires Ready(State())
      modifies this
      ensures Tick(State(), call) == Advance(old(State()), dt)
    {
      var anim := anims[curAnim];
      curTime := curTime + dt;
      if Timed(anim.duration) && curTime >= anim.duration.ms {
        call := Invocation(anim.kind, At(1.0), anim.param);
        if curAnim < |anims| - 1 {
          curTime := 0;
          curAnim := curAnim + 1;
        }
      } else {
        call := Invocation(anim.kind, ProgressOf(anim.duration, curTime), anim.param);
      }
    }
  }

  /** anim(...): a new sequence holding `steps` in order, at the first step. */
  method Anim(steps: seq<Step>) returns (a: AnimSequence)
    ensures fresh(a) && a.State() == Start(steps)
  {
    a := new AnimSequence();
    var i := 0;
    while i < |steps|
      invariant 0 <= i <= |steps|
      invariant a.State() == Start(steps[..i])
    {
      a.Add(steps[i].kind, steps[i].duration, steps[i].param);
      i := i + 1;
    }
    assert steps[..|steps|] == steps;
  }

  // ---------------------------------------------------------------------------
  // Several ticks

  /** The sequence after `n` ticks of `dt` each. */
  function Run(s: SeqState, dt: nat, n: nat): (r: SeqState)
    requires Ready(s)
    ensures Ready(r) && r.anims == s.anims
    ensures s.curAnim <= r.curAnim <= s.curAnim + n
    decreases n
  {
    if n == 0 then s else Run(Advance(s, dt).next, dt, n - 1)
  }

  /** The call made by the tick that follows `n` ticks. */
  function CallAfter(s: SeqState, dt: nat, n: nat): Invocation
    requires Ready(s)
  {
    Advance(Run(s, dt, n), dt).call
  }

  /** Ticks compose: `a + b` ticks are `a` ticks followed by `b` ticks. */
  lemma {:induction false} RunSplit(s: SeqState, dt: nat, a: nat, b: nat)
    requires Ready(s)
    ensures Run(s, dt, a + b) == Run(Run(s, dt, a), dt, b)
    decreases a
  {
    if a > 0 {
      RunSplit(Advance(s, dt).next, dt, a - 1, b);
    }
  }

  /** A step whose duration is undefined or 0 is never left, however many
      ticks pass; each of its calls gets progress undefined (or 0). */
  lemma {:induction false} UntimedStepHolds(s: SeqState, dt: nat, n: nat)
    requires Ready(s) && !Timed(Current(s).duration)
    ensures Run(s, dt, n).curAnim == s.curAnim
    ensures CallAfter(s, dt, n) ==
      Invocation(Current(s).kind,
                 if Current(s).duration == Undefined then NoProgress else At(0.0),
                 Current(s).param)
    decreases n
  {
    if n > 0 {
      UntimedStepHolds(Advance(s, dt).next, dt, n - 1);
    }
  }

  /** Once the last step's time has run out it stays current, and every later
      tick calls it again at progress 1. */
  lemma {:induction false} ParkedStepRefires(s: SeqState, dt: nat, n: nat)
    requires Ready(s) && s.curAnim == |s.anims| - 1 && Elapsed(s, dt)
    ensures Run(s, dt, n).curAnim == s.curAnim
    ensures CallAfter(s, dt, n) == Invocation(Current(s).kind, At(1.0), Current(s).param)
    decreases n
  {
    if n > 0 {
      ParkedStepRefires(Advance(s, dt).next, dt, n - 1);
    }
  }

  /** However large `dt` is, one tick leaves at most one step behind: a tick
      that outlasts several steps still stops at the next one, at time 0. */
  lemma NoCatchUp(s: SeqState, dt: nat)
    requires Ready(s) && s.curAnim < |s.anims| - 1 && Elapsed(s, dt)
    ensures Advance(s, dt).next == SeqState(s.anims, s.curAnim + 1, 0)
  {
  }
}
