/** The units obey the stop: once its running flag is clear, a thread takes nothing more from its input than what it
    was already about to take when it last tested the flag. */
module ServiceOrders {
  import opened Options
  import opened BufSpec
  import opened ServiceModel
  import opened ServiceInv
  import opened ServiceStop

  /** How much there is for a unit to take: free slots for the camera, queued frames for the others. */
  function Waiting(s: Sys, unit: nat): nat {
    match unit
    case 0 => |s.poolIn.free|
    case 1 => |s.q0.items|
    case 2 => |s.q1.items|
    case _ => |s.q2.items|
  }

  /** The unit's own thread takes one in this step. */
  predicate Takes(s: Sys, act: Act, unit: nat) {
    act == ActOf(unit) && Waiting(SysDo(s, act), unit) < Waiting(s, unit)
  }

  /** The unit is past its loop test and has not taken anything since. */
  predicate AboutToTake(s: Sys, unit: nat) {
    match unit
    case 0 => s.cam.CamAcquire? || s.cam.CamAsleep?
    case 1 => s.sp.SpPop? || s.sp.SpAsleep?
    case 2 => s.cv.CvPop? || s.cv.CvAsleepPop?
    case _ => s.fo.FoPop? || s.fo.FoAsleep?
  }

  predicate Told(s: Sys, unit: nat) {
    !LifeOf(s, unit).running
  }

  lemma CamObeys(s: Sys)
    requires Told(s, CAMERA) && Ready(s, CAMERA)
    ensures Count(Takes(s, CamAct, CAMERA)) + Count(AboutToTake(CamDo(s), CAMERA)) <= Count(AboutToTake(s, CAMERA))
  {
  }

  lemma SpObeys(s: Sys)
    requires Told(s, PROVIDER) && Ready(s, PROVIDER)
    ensures Count(Takes(s, SpAct, PROVIDER)) + Count(AboutToTake(SpDo(s), PROVIDER)) <= Count(AboutToTake(s, PROVIDER))
  {
    hide RefCount;
  }

  lemma ConvObeys(s: Sys)
    requires Told(s, CONVERSION) && Ready(s, CONVERSION)
    ensures Count(Takes(s, ConvAct, CONVERSION)) + Count(AboutToTake(ConvDo(s), CONVERSION))
            <= Count(AboutToTake(s, CONVERSION))
  {
    hide RefCount, Lowest;
  }

  lemma FileObeys(s: Sys)
    requires Told(s, FILE_OUT) && Ready(s, FILE_OUT)
    ensures Count(Takes(s, FileAct, FILE_OUT)) + Count(AboutToTake(FileDo(s), FILE_OUT))
            <= Count(AboutToTake(s, FILE_OUT))
  {
  }

  lemma OthersLeaveAlone(s: Sys, act: Act, unit: nat)
    requires Enabled(s, act) && unit <= FILE_OUT && act != ActOf(unit) && Told(SysDo(s, act), unit)
    ensures AboutToTake(SysDo(s, act), unit) ==> AboutToTake(s, unit)
  {
    hide RefCount, Lowest;
    match act
    case ControlAct =>
      match s.ctl {
        case Launching(i) => LaunchLeavesAlone(s, unit);
        case _ => ControlLeavesAlone(s, unit);
      }
    case _ =>
  }

  lemma LaunchLeavesAlone(s: Sys, unit: nat)
    requires s.ctl.Launching? && unit <= FILE_OUT && Told(ControlDo(s), unit)
    ensures AboutToTake(ControlDo(s), unit) ==> AboutToTake(s, unit)
  {
  }

  lemma ControlLeavesAlone(s: Sys, unit: nat)
    requires !s.ctl.Launching? && unit <= FILE_OUT
    ensures AboutToTake(ControlDo(s), unit) ==> AboutToTake(s, unit)
  {
  }

  lemma StepObeys(s: Sys, act: Act, unit: nat)
    requires Enabled(s, act) && unit <= FILE_OUT && Told(s, unit) && Told(SysDo(s, act), unit)
    ensures Count(Takes(s, act, unit)) + Count(AboutToTake(SysDo(s, act), unit)) <= Count(AboutToTake(s, unit))
  {
    if act != ActOf(unit) {
      OthersLeaveAlone(s, act, unit);
    } else {
      match unit
      case 0 => CamObeys(s);
      case 1 => SpObeys(s);
      case 2 => ConvObeys(s);
      case _ => FileObeys(s);
    }
  }

  /** The running flag stays clear all along the schedule. */
  predicate StaysTold(s: Sys, acts: seq<Act>, unit: nat)
    decreases |acts|
  {
    Told(s, unit) && (acts == [] || StaysTold(SysDo(s, acts[0]), acts[1..], unit))
  }

  /** How often the unit takes something. */
  function Taken(s: Sys, acts: seq<Act>, unit: nat): nat
    decreases |acts|
  {
    if acts == [] then 0 else Count(Takes(s, acts[0], unit)) + Taken(SysDo(s, acts[0]), acts[1..], unit)
  }

  /** Whatever the schedule, with its flag clear a unit takes at most one slot or frame more, and none if it stands
      anywhere but between its loop test and the take. */
  lemma {:induction false} ToldUnitsTakeNoMore(s: Sys, acts: seq<Act>, unit: nat)
    requires Feasible(s, acts) && StaysTold(s, acts, unit) && unit <= FILE_OUT
    ensures Taken(s, acts, unit) <= Count(AboutToTake(s, unit))
    decreases |acts|
  {
    hide SysDo, Enabled, Takes, AboutToTake, Told;
    if acts != [] {
      ToldUnitsTakeNoMore(SysDo(s, acts[0]), acts[1..], unit);
      TestObeys(s, acts, unit);
    }
  }

  lemma TestObeys(s: Sys, acts: seq<Act>, unit: nat)
    requires acts != [] && Feasible(s, acts) && StaysTold(s, acts, unit) && unit <= FILE_OUT
    ensures Count(Takes(s, acts[0], unit)) + Count(AboutToTake(SysDo(s, acts[0]), unit)) <= Count(AboutToTake(s, unit))
  {
    hide SysDo, Enabled, Takes, AboutToTake, Told;
    assert StaysTold(SysDo(s, acts[0]), acts[1..], unit);
    StepObeys(s, acts[0], unit);
  }

  // --- The loop of a unit's thread

  predicate AtLoopTest(s: Sys, unit: nat) {
    match unit
    case 0 => s.cam.CamLoop?
    case 1 => s.sp.SpLoop?
    case 2 => s.cv.CvLoop?
    case _ => s.fo.FoLoop?
  }

  /** The flag that ends the unit's wait. */
  predicate WaitShut(s: Sys, unit: nat) {
    match unit
    case 0 => s.poolIn.shutdown
    case 1 => s.q0.shutdown
    case 2 => s.q1.shutdown
    case _ => s.q2.shutdown
  }

  /** At its loop test a thread goes on exactly if the running flag is set, whatever else holds, and else returns;
      the test takes nothing. */
  lemma LoopTest(s: Sys, unit: nat)
    requires unit <= FILE_OUT && AtLoopTest(s, unit)
    ensures var t := SysDo(s, ActOf(unit));
            && (LifeOf(s, unit).running ==> AboutToTake(t, unit) && !Asleep(t, unit))
            && (!LifeOf(s, unit).running ==> Exited(t, unit))
            && Waiting(t, unit) == Waiting(s, unit)
  {
  }

  /** Next it takes one if there is one, shut down or not; with nothing there it returns if its wait was shut down,
      and sleeps otherwise. */
  lemma TakeOrWait(s: Sys, unit: nat)
    requires unit <= FILE_OUT && AboutToTake(s, unit) && !Asleep(s, unit)
    ensures var t := SysDo(s, ActOf(unit));
            if Waiting(s, unit) > 0 then
              && Waiting(t, unit) == Waiting(s, unit) - 1
              && !AboutToTake(t, unit) && !Exited(t, unit) && !Asleep(t, unit) && !AtLoopTest(t, unit)
            else
              && Waiting(t, unit) == 0
              && if WaitShut(s, unit) then Exited(t, unit) else Asleep(t, unit)
  {
    match unit
    case 0 => CameraTakes(s);
    case _ =>
  }

  lemma CameraTakes(s: Sys)
    requires s.cam.CamAcquire?
    ensures s.poolIn.free != {} ==> |CamDo(s).poolIn.free| == |s.poolIn.free| - 1
  {
  }

  /** Conversion's second wait, for an output slot, goes the same way, and then it still holds its input frame. */
  lemma OutputOrWait(s: Sys)
    requires s.cv.CvAcquire?
    ensures var t := ConvDo(s);
            if s.poolOut.free != {} then
              t.cv.CvConvert? && t.cv.inFb == s.cv.inFb && |t.poolOut.free| == |s.poolOut.free| - 1
            else if s.poolOut.shutdown then t.cv == CvExited(Some(s.cv.inFb))
            else t.cv == CvAsleepAcquire(s.cv.inFb)
  {
  }

  // --- Where a service begins, and pushes that are refused

  /** After vf_service_init every slot is free and counts no reference, nothing is queued, no flag is set and no
      thread exists. */
  lemma StartsAtRest(n: nat, m: nat)
    ensures var s := InitSys(n, m);
            && (forall x: nat :: (x in s.poolIn.free <==> x < n) && (x in s.poolOut.free <==> x < m))
            && (forall x: nat :: RefCount(s.refs, x) == 0)
            && s.q0.items == s.q1.items == s.q2.items == []
            && s.q0.capacity == s.q1.capacity == s.q2.capacity == 16
            && s.ctl.Idle? && FlagsClear(s) && AllDown(s)
  {
  }

  /** In whatever state: a unit whose push finds the queue full gives its slot back and goes on with its loop. The
      provider first takes back its reference; conversion keeps the input frame. */
  lemma RefusedPushGivesBack(s: Sys, x: nat)
    ensures s.cam == CamPush(x) && s.q0.Full() && x < s.poolIn.slots ==>
      CamDo(s).cam == CamLoop && x in CamDo(s).poolIn.free && CamDo(s).q0 == s.q0
    ensures s.sp == SpPush(x) && s.q1.Full() && x < s.poolIn.slots && RefCount(s.refs, x) == 1 ==>
      && SpDo(s).sp == SpLoop && x in SpDo(s).poolIn.free && SpDo(s).q1 == s.q1
      && RefCount(SpDo(s).refs, x) == 0
    ensures s.sp == SpPush(x) && s.q1.Full() && RefCount(s.refs, x) > 1 ==>
      && SpDo(s).sp == SpLoop && SpDo(s).poolIn == s.poolIn && SpDo(s).q1 == s.q1
      && RefCount(SpDo(s).refs, x) == RefCount(s.refs, x) - 1
    ensures s.cv.CvPush? && s.cv.outFb == x && s.q2.Full() && x < s.poolOut.slots ==>
      ConvDo(s).cv == CvLoop(Some(s.cv.inFb)) && x in ConvDo(s).poolOut.free && ConvDo(s).q2 == s.q2
  {
    hide Lowest;
  }

  /** The schedule is free: a thread that exists, has not returned and does not sleep may always take its next step,
      a sleeper may always wake, and a start or a stop may be called whenever none is under way. */
  lemma FreeToChoose(s: Sys, unit: nat)
    requires unit <= FILE_OUT
    ensures Gone(s, unit) || Exited(s, unit) || Enabled(s, SpuriousWake(unit)) || Enabled(s, ActOf(unit))
    ensures Asleep(s, unit) ==> Enabled(s, SpuriousWake(unit))
    ensures s.ctl.Idle? ==> Enabled(s, BeginStart)
    ensures s.ctl.Idle? || s.ctl.Up? ==> Enabled(s, BeginStop)
    ensures !s.ctl.Idle? && !s.ctl.Up? && !s.ctl.Joining? ==> Enabled(s, ControlAct)
    ensures s.ctl.Joining? && Exited(s, s.ctl.unit) ==> Enabled(s, ControlAct)
  {
  }
}
