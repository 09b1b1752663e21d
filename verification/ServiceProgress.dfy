/** The service makes headway. While no start or stop is under way the units cannot run for long without
    a frame being handled, whatever the schedule: no fairness is needed, because every step of any unit
    brings the next frame nearer. */
module ServiceProgress {
  import opened BufSpec
  import opened ServiceModel
  import opened ServiceInv
  import opened ServiceSteps
  import opened ServiceFlow
  import opened ServiceStop
  import opened ServiceTheorems

  /** A step of one of the four threads, or a spurious wakeup. */
  predicate OfUnit(act: Act) {
    !act.ControlAct? && !act.BeginStart? && !act.BeginStop?
  }

  predicate OfUnits<A>(steps: seq<Step<A>>) {
    forall i | 0 <= i < |steps| :: OfUnit(steps[i].act)
  }

  /** File-out has a frame in hand and writes it. */
  predicate Handles(s: Sys, act: Act) {
    act.FileAct? && s.fo.FoWrite?
  }

  /** File-out on its way to the next write. */
  function WriteRank(pc: FoPc): nat {
    match pc
    case FoGone => 0
    case FoExited => 0
    case FoWrite(_) => 0
    case FoAsleep => 1
    case FoPop => 2
    case FoLoop => 3
    case FoRelease(_) => 24
  }

  /** What is left to do until file-out writes. */
  function Work(s: Sys): nat {
    Load(s) + WriteRank(s.fo)
  }

  lemma FileNearsWrite(s: Sys)
    requires Ready(s, FILE_OUT)
    ensures if s.fo.FoWrite? then Work(FileDo(s)) <= Work(s) + 24 else Work(FileDo(s)) < Work(s)
  {
    hide Load;
    FileFreesOne(s);
  }

  /** Every step of a unit brings the next write nearer; only the write itself and a wakeup do not. */
  lemma StepLowersWork(n: nat, m: nat, s: Sys, act: Act)
    requires SysInv(n, m, s) && Enabled(s, act) && OfUnit(act)
    ensures Work(SysDo(s, act)) + 1
            <= Work(s) + (if Handles(s, act) then 25 else 0) + if act.SpuriousWake? then 2 else 0
    ensures SysDo(s, act).ctl == s.ctl && SysDo(s, act).starts == s.starts
  {
    hide Load, Owned, Counted, SleepersWaitForNews, Lifecycle, Tallied, LossBounded, RefCount;
    PushFindsRoom(n, m, s);
    HeldOnce(n, m, s);
    UnitsSameLives(s, act);
    match act
    case CamAct => CamWorks(s);
    case SpAct => SpWorks(s);
    case ConvAct => ConvWorks(s);
    case FileAct => FileNearsWrite(s);
    case SpuriousWake(unit) => WakeCostsOne(s, unit);
  }

  function Acts<A>(steps: seq<Step<A>>): seq<Act> {
    if steps == [] then [] else [steps[0].act] + Acts(steps[1..])
  }

  /** Under every schedule of the units: frames handled are at least the steps made, less the work there was
      and two for each spurious wakeup, divided by 25. */
  lemma {:induction false} FramesKeepComing<A, B>(cfg: Config<A, B>, s: State<A, B>, steps: seq<Step<A>>)
    requires SysInv(cfg.slotsIn, cfg.slotsOut, s.sys) && FeasibleSteps(cfg, s, steps) && OfUnits(steps)
    ensures var t := RunSteps(cfg, s, steps);
            |steps| + Work(t.sys) <= Work(s.sys) + 25 * (|t.data.taken| - |s.data.taken|) + 2 * Wakeups(Acts(steps))
    decreases |steps|
  {
    hide SysDo, Enabled, Work, SysInv;
    if steps != [] {
      var act := steps[0].act;
      StepLowersWork(cfg.slotsIn, cfg.slotsOut, s.sys, act);
      SysInvKept(cfg.slotsIn, cfg.slotsOut, s.sys, act);
      FramesKeepComing(cfg, Do(cfg, s, steps[0]), steps[1..]);
      assert Acts(steps)[1..] == Acts(steps[1..]);
    }
  }

  /** The work there is never exceeds a constant. */
  lemma WorkBounded(n: nat, m: nat, s: Sys)
    requires SysInv(n, m, s)
    ensures Work(s) <= 808
  {
    hide Owned, Counted, SleepersWaitForNews, Lifecycle, Tallied, LossBounded;
    LoadBounded(n, m, s);
  }

  // --- While the service is up, and was started at most as often as there are input slots

  /** A thread that can move. */
  function Mover(s: Sys): Act {
    if Ready(s, CAMERA) then CamAct
    else if Ready(s, PROVIDER) then SpAct
    else if Ready(s, CONVERSION) then ConvAct
    else FileAct
  }

  lemma UpCanMove(n: nat, m: nat, s: Sys)
    requires SysInv(n, m, s) && s.ctl.Up? && s.starts <= n
    ensures Enabled(s, Mover(s)) && OfUnit(Mover(s)) && !Mover(s).SpuriousWake?
  {
    SomeAwake(n, m, s);
  }

  /** The units can go on for any number of steps. */
  lemma {:induction false} UpGoesOn<A, B>(cfg: Config<A, B>, s: State<A, B>, k: nat) returns (steps: seq<Step<A>>)
    requires SysInv(cfg.slotsIn, cfg.slotsOut, s.sys) && s.sys.ctl.Up? && s.sys.starts <= cfg.slotsIn
    ensures |steps| == k && FeasibleSteps(cfg, s, steps) && OfUnits(steps) && Wakeups(Acts(steps)) == 0
    decreases k
  {
    hide SysDo, Enabled, SysInv, Mover, DataDo;
    steps := [];
    if k > 0 {
      var step := Step(Mover(s.sys), cfg.blankIn);
      UpCanMove(cfg.slotsIn, cfg.slotsOut, s.sys);
      StepLowersWork(cfg.slotsIn, cfg.slotsOut, s.sys, step.act);
      SysInvKept(cfg.slotsIn, cfg.slotsOut, s.sys, step.act);
      var rest := UpGoesOn(cfg, Do(cfg, s, step), k - 1);
      steps := [step] + rest;
      assert steps[1..] == rest;
      assert Acts(steps)[1..] == Acts(rest);
    }
  }

  /** From every reachable running state with at most as many starts as input slots, and for every k, the
      units alone can handle k more frames; FramesKeepComing says that no schedule of theirs takes longer. */
  lemma MoreFrames<A, B>(cfg: Config<A, B>, past: seq<Step<A>>, k: nat) returns (steps: seq<Step<A>>)
    requires ValidSizes(cfg.slotsIn, cfg.slotsOut) && FeasibleSteps(cfg, Init(cfg), past)
    requires var s := RunSteps(cfg, Init(cfg), past).sys; s.ctl.Up? && s.starts <= cfg.slotsIn
    ensures var s := RunSteps(cfg, Init(cfg), past);
            && FeasibleSteps(cfg, s, steps) && OfUnits(steps)
            && |RunSteps(cfg, s, steps).data.taken| >= |s.data.taken| + k
            && |steps| <= 808 + 25 * k
  {
    hide SysInv, Work;
    var s := RunSteps(cfg, Init(cfg), past);
    ReachableFlow(cfg, past);
    WorkBounded(cfg.slotsIn, cfg.slotsOut, s.sys);
    steps := UpGoesOn(cfg, s, Work(s.sys) + 25 * k);
    FramesKeepComing(cfg, s, steps);
  }

  // --- Every frame under way is handled

  /** Conversion is about to lose the slot it was left with. */
  predicate LossDue(s: Sys) {
    s.cv.CvLoop? && s.cv.left.Some?
  }

  lemma NoLossComes(n: nat, m: nat, s: Sys, act: Act)
    requires SysInv(n, m, s) && Enabled(s, act) && OfUnit(act) && !LossDue(s)
    ensures !LossDue(SysDo(s, act))
  {
    hide Owned, Counted, SleepersWaitForNews, Lifecycle, Tallied, LossBounded, RefCount, Lowest;
    PushFindsRoom(n, m, s);
  }

  lemma StepKeepsFrames<A, B>(cfg: Config<A, B>, s: State<A, B>, step: Step<A>)
    requires Inv(cfg, s) && Enabled(s.sys, step.act) && OfUnit(step.act) && !LossDue(s.sys)
    ensures var t := Do(cfg, s, step); Path(cfg, s.sys, s.data) <= Path(cfg, t.sys, t.data)
  {
    hide Path, Faithful, SysDo, DataDo;
    if step.act.CamAct? && s.sys.cam.CamCapture? {
      CaptureKeepsFrames(cfg, s, step);
    } else {
      PathKept(cfg, s, step);
    }
  }

  lemma CaptureKeepsFrames<A, B>(cfg: Config<A, B>, s: State<A, B>, step: Step<A>)
    requires Inv(cfg, s) && step.act.CamAct? && s.sys.cam.CamCapture?
    ensures var t := Do(cfg, s, step); Path(cfg, s.sys, s.data) <= Path(cfg, t.sys, t.data)
  {
    hide Path, Faithful, DataDo;
    CaptureExtendsPath(cfg, s, step);
  }

  lemma {:induction false} FramesStay<A, B>(cfg: Config<A, B>, s: State<A, B>, steps: seq<Step<A>>)
    requires Inv(cfg, s) && FeasibleSteps(cfg, s, steps) && OfUnits(steps) && !LossDue(s.sys)
    ensures var t := RunSteps(cfg, s, steps);
            t.data.taken <= Path(cfg, t.sys, t.data) && Path(cfg, s.sys, s.data) <= Path(cfg, t.sys, t.data)
    decreases |steps|
  {
    hide Path, Faithful, SysInv, SysDo, DataDo, Enabled, LossDue;
    if steps == [] {
      HandledFirst(cfg, s);
    } else {
      var t := Do(cfg, s, steps[0]);
      StepKeepsFrames(cfg, s, steps[0]);
      NoLossComes(cfg.slotsIn, cfg.slotsOut, s.sys, steps[0].act);
      InvKept(cfg, s, steps[0]);
      FramesStay(cfg, t, steps[1..]);
    }
  }

  lemma HandledFirst<A, B>(cfg: Config<A, B>, s: State<A, B>)
    ensures s.data.taken <= Path(cfg, s.sys, s.data)
  {
    TakenFirst(s.data.taken, AtFile(cfg, s.sys, s.data), Outgoing(cfg, s.data, s.sys.q2.items),
               AtConversion(cfg, s.sys, s.data), Upstream(cfg, s.sys, s.data));
  }

  /** A frame under way, p places behind the first one ever handled, is handled, in its turn and unaltered,
      by every schedule of the units that is long enough; no wait is longer than that. */
  lemma EveryFrameHandled<A, B>(cfg: Config<A, B>, past: seq<Step<A>>, steps: seq<Step<A>>, p: nat)
    requires ValidSizes(cfg.slotsIn, cfg.slotsOut) && FeasibleSteps(cfg, Init(cfg), past)
    requires var s := RunSteps(cfg, Init(cfg), past);
             && FeasibleSteps(cfg, s, steps) && OfUnits(steps) && !LossDue(s.sys)
             && p < |Path(cfg, s.sys, s.data)|
             && |steps| >= Work(s.sys) + 25 * (p + 1 - |s.data.taken|) + 2 * Wakeups(Acts(steps))
    ensures var s := RunSteps(cfg, Init(cfg), past);
            var taken := RunSteps(cfg, s, steps).data.taken;
            p < |taken| && taken[p] == Path(cfg, s.sys, s.data)[p]
  {
    hide Path, Faithful, SysInv, SysDo, DataDo, Enabled, LossDue, Work;
    var s := RunSteps(cfg, Init(cfg), past);
    ReachableFlow(cfg, past);
    FramesKeepComing(cfg, s, steps);
    FramesStay(cfg, s, steps);
  }
}
