/** vf_service_stop returns. From the moment file-out's running flag is cleared, every step of
    every thread lowers one number, a spurious wakeup raises it by one, and until the last
    join some step other than a wakeup is possible. */
module ServiceStop {
  import opened BufSpec
  import opened ServiceModel
  import opened ServiceInv
  import opened ServiceSteps

  /** The control thread is past clearing file-out's running flag and has not returned. */
  predicate WindingDown(s: Sys) {
    s.ctl.ShuttingQueue? || s.ctl.Joining? || (s.ctl.Clearing? && s.ctl.unit < FILE_OUT)
  }

  // The work left, as one number. Slots count less the nearer they are to conversion's acquire,
  // which uses up one of finitely many free output slots; a thread's rank falls along its loop,
  // and the way back to the loop test is paid for by the slot that has moved on.

  const FREE_IN: nat := 14
  const IN_QUEUE_0: nat := 9
  const IN_QUEUE_1: nat := 4
  const FREE_OUT: nat := 19

  function CamRank(pc: CamPc): nat {
    match pc
    case CamGone => 0
    case CamExited => 0
    case CamAsleep => 1
    case CamAcquire => 2
    case CamLoop => 3
    case CamPush(_) => 14
    case CamCapture(_) => 15
  }

  function SpRank(pc: SpPc): nat {
    match pc
    case SpGone => 0
    case SpExited => 0
    case SpAsleep => 1
    case SpPop => 2
    case SpLoop => 3
    case SpPush(_) => 9
    case SpRef(_) => 10
  }

  function CvRank(pc: CvPc): nat {
    match pc
    case CvGone(_) => 0
    case CvExited(_) => 0
    case CvAsleepPop => 1
    case CvPop => 2
    case CvLoop(_) => 3
    case CvAsleepAcquire(_) => 4
    case CvAcquire(_) => 5
    case CvRelease(_) => 19
    case CvUnref(_) => 20
    case CvPush(_, _) => 22
    case CvConvert(_, _) => 23
  }

  /** Told to stop, file-out can still free one output slot. */
  function FoRank(pc: FoPc): nat {
    match pc
    case FoGone => 0
    case FoExited => 0
    case FoLoop => 1
    case FoRelease(_) => 22
    case FoWrite(_) => 23
    case FoAsleep => 24
    case FoPop => 25
  }

  function CtlRank(ctl: Ctl): nat {
    match ctl
    case Joining(i) => 4 * i + 1
    case ShuttingQueue(i) => 4 * i + 3
    case Clearing(i) => 4 * i + 4
    case _ => 0
  }

  /** What is left for the units in front of file-out. */
  function Load(s: Sys): nat {
    FREE_IN * |s.poolIn.free| + IN_QUEUE_0 * |s.q0.items| + IN_QUEUE_1 * |s.q1.items|
    + FREE_OUT * |s.poolOut.free|
    + CamRank(s.cam) + SpRank(s.sp) + CvRank(s.cv)
  }

  function Effort(s: Sys): nat {
    Load(s) + FoRank(s.fo) + CtlRank(s.ctl)
  }

  lemma CamWorks(s: Sys)
    requires Ready(s, CAMERA) && (s.cam.CamPush? ==> !s.q0.Full())
    ensures Load(CamDo(s)) < Load(s) && CamDo(s).fo == s.fo && CamDo(s).ctl == s.ctl
  {
  }

  lemma SpWorks(s: Sys)
    requires Ready(s, PROVIDER) && (s.sp.SpPush? ==> !s.q1.Full())
    ensures Load(SpDo(s)) < Load(s) && SpDo(s).fo == s.fo && SpDo(s).ctl == s.ctl
  {
    hide RefCount;
  }

  /** Conversion may wake file-out, and pays for that. */
  predicate Advances(s: Sys, t: Sys) {
    && t.ctl == s.ctl
    && if t.fo == s.fo then Load(t) < Load(s) else s.fo.FoAsleep? && t.fo.FoPop? && Load(t) + 1 < Load(s)
  }

  lemma ConvGivesBack(s: Sys)
    requires s.cv.CvRelease?
    ensures Advances(s, ConvDo(s))
  {
    assert |s.poolIn.Release(s.cv.inFb).free| <= |s.poolIn.free| + 1;
  }

  lemma ConvTakes(s: Sys)
    requires s.cv.CvPop? || s.cv.CvAcquire?
    ensures Advances(s, ConvDo(s))
  {
    hide Lowest, AcquireTest, PopTest;
  }

  lemma ConvGoesOn(s: Sys)
    requires s.cv.CvLoop? || s.cv.CvConvert? || s.cv.CvPush? || s.cv.CvUnref?
    requires s.cv.CvPush? ==> !s.q2.Full()
    requires s.cv.CvUnref? ==> RefCount(s.refs, s.cv.inFb) == 1
    ensures Advances(s, ConvDo(s))
  {
  }

  lemma ConvWorks(s: Sys)
    requires Ready(s, CONVERSION) && (s.cv.CvPush? ==> !s.q2.Full())
    requires s.cv.CvUnref? ==> RefCount(s.refs, s.cv.inFb) == 1
    ensures Advances(s, ConvDo(s))
  {
    hide Advances;
    match s.cv
    case CvRelease(_) => ConvGivesBack(s);
    case CvPop => ConvTakes(s);
    case CvAcquire(_) => ConvTakes(s);
    case _ => ConvGoesOn(s);
  }

  /** File-out gives back an output slot, for which conversion may be waiting. */
  lemma FileFreesOne(s: Sys)
    requires Ready(s, FILE_OUT)
    ensures Load(FileDo(s)) <= Load(s) + if s.fo.FoRelease? then FREE_OUT + 1 else 0
    ensures FileDo(s).ctl == s.ctl
  {
    if s.fo.FoRelease? {
      assert |s.poolOut.Release(s.fo.fb).free| <= |s.poolOut.free| + 1;
      assert CvRank(WakeConversionAcquire(s.cv)) <= CvRank(s.cv) + 1;
    }
  }

  lemma FileWorks(s: Sys)
    requires Ready(s, FILE_OUT) && !s.foLife.running
    ensures Effort(FileDo(s)) < Effort(s) && FileDo(s).ctl == s.ctl
  {
    hide Load;
    FileFreesOne(s);
  }

  lemma ControlWorks(s: Sys)
    requires Lifecycle(s) && WindingDown(s) && Enabled(s, ControlAct)
    ensures Effort(ControlDo(s)) < Effort(s)
    ensures WindingDown(ControlDo(s)) || ControlDo(s).ctl.Idle?
  {
  }

  lemma WakeCostsOne(s: Sys, unit: nat)
    requires unit <= FILE_OUT && Asleep(s, unit)
    ensures var t := WakeUp(s, unit);
            && t.ctl == s.ctl
            && if unit == FILE_OUT then Load(t) == Load(s) && s.fo.FoAsleep? && t.fo.FoPop?
               else Load(t) == Load(s) + 1 && t.fo == s.fo
  {
  }

  /** The termination measure of a stop. */
  lemma StepLowersEffort(n: nat, m: nat, s: Sys, act: Act)
    requires SysInv(n, m, s) && WindingDown(s) && Enabled(s, act)
    ensures act.SpuriousWake? ==> Effort(SysDo(s, act)) == Effort(s) + 1
    ensures !act.SpuriousWake? ==> Effort(SysDo(s, act)) < Effort(s)
    ensures WindingDown(SysDo(s, act)) || SysDo(s, act).ctl.Idle?
  {
    hide Load, Owned, Counted, SleepersWaitForNews, Tallied, LossBounded;
    PushFindsRoom(n, m, s);
    HeldOnce(n, m, s);
    match act
    case CamAct => CamWorks(s);
    case SpAct => SpWorks(s);
    case ConvAct => ConvWorks(s);
    case FileAct => FileWorks(s);
    case SpuriousWake(unit) => WakeCostsOne(s, unit);
    case ControlAct => ControlWorks(s);
  }

  function ActOf(unit: nat): Act {
    match unit
    case 0 => CamAct
    case 1 => SpAct
    case 2 => ConvAct
    case _ => FileAct
  }

  /** While a stop is under way something other than a spurious wakeup can happen: the control
      thread itself, or the thread it waits to join, which cannot be asleep. */
  lemma StopNeverStuck(n: nat, m: nat, s: Sys)
    requires SysInv(n, m, s) && (WindingDown(s) || s.ctl.ShuttingPools? || s.ctl.Clearing?)
    ensures Enabled(s, ControlAct) || (s.ctl.Joining? && Enabled(s, ActOf(s.ctl.unit)))
  {
  }

  function Wakeups(acts: seq<Act>): nat {
    if acts == [] then 0 else (if acts[0].SpuriousWake? then 1 else 0) + Wakeups(acts[1..])
  }

  /** The control thread has not returned from the stop before the schedule's last step. */
  ghost predicate StopsOnlyAtEnd(s: Sys, acts: seq<Act>)
    decreases |acts|
  {
    acts == [] || (WindingDown(s) && StopsOnlyAtEnd(SysDo(s, acts[0]), acts[1..]))
  }

  /** However the threads are scheduled, the stop has returned after at most Effort(s) steps, and
      two more for each spurious wakeup. */
  lemma {:induction false} StopTakesBoundedSteps(n: nat, m: nat, s: Sys, acts: seq<Act>)
    requires SysInv(n, m, s) && Feasible(s, acts) && StopsOnlyAtEnd(s, acts)
    ensures |acts| <= Effort(s) + 2 * Wakeups(acts)
    decreases |acts|
  {
    if acts != [] {
      StepLowersEffort(n, m, s, acts[0]);
      SysInvKept(n, m, s, acts[0]);
      StopTakesBoundedSteps(n, m, SysDo(s, acts[0]), acts[1..]);
    }
  }

  lemma FewInQueue(n: nat, items: seq<nat>)
    requires forall x: nat :: Times(items, x) <= Count(x < n)
    ensures |items| <= n
  {
    Pigeonhole(items, Range(n));
  }

  lemma RanksBounded(s: Sys)
    requires Lifecycle(s) && WindingDown(s)
    ensures CamRank(s.cam) + SpRank(s.sp) + CvRank(s.cv) + FoRank(s.fo) + CtlRank(s.ctl) <= 88
  {
  }

  lemma EffortBounded(n: nat, m: nat, s: Sys)
    requires SysInv(n, m, s) && WindingDown(s)
    ensures Effort(s) <= 824
  {
    RanksBounded(s);
    LoadBounded(n, m, s);
  }

  lemma LoadBounded(n: nat, m: nat, s: Sys)
    requires SysInv(n, m, s)
    ensures |s.poolIn.free| <= MAX_SLOTS && |s.q0.items| <= MAX_SLOTS && |s.q1.items| <= MAX_SLOTS
    ensures |s.poolOut.free| <= MAX_SLOTS
  {
    forall x: nat
      ensures Times(s.q0.items, x) <= Count(x < n) && Times(s.q1.items, x) <= Count(x < n)
      ensures x in s.poolIn.free ==> x in Range(n)
      ensures x in s.poolOut.free ==> x in Range(m)
    {
      assert InPlaces(s, x) == Count(x < n) && OutPlaces(s, x) == Count(x < m);
    }
    FewInQueue(n, s.q0.items);
    FewInQueue(n, s.q1.items);
    FewFree(s.poolIn.free, n);
    FewFree(s.poolOut.free, m);
  }

  lemma {:induction false} FewFree(free: set<nat>, n: nat)
    requires free <= Range(n)
    ensures |free| <= n
  {
    if n == 0 {
      assert free == {};
    } else {
      assert free - {n - 1} <= Range(n - 1);
      FewFree(free - {n - 1}, n - 1);
    }
  }
}
