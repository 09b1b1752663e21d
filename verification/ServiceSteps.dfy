/** Every step of the service keeps every part of the invariant. */
module ServiceSteps {
  import opened Options
  import opened BufSpec
  import opened ServiceModel
  import opened ServiceInv

  // --- Queues never fill

  lemma PopItem(items: seq<nat>, x: nat)
    requires items != []
    ensures Times(items, x) == Times(items[1..], x) + Count(x == items[0])
  {
    assert items == [items[0]] + items[1..];
  }

  /** A queue that holds distinct slots, none of them missing, has at most |missing| fewer than n entries. */
  lemma {:induction false} Pigeonhole(items: seq<nat>, room: set<nat>)
    requires forall x: nat :: Times(items, x) <= Count(x in room)
    ensures |items| <= |room|
  {
    if items != [] {
      var first := items[0];
      PopItem(items, first);
      assert Times(items, first) <= Count(first in room);
      forall x: nat ensures Times(items[1..], x) <= Count(x in room - {first}) {
        PopItem(items, x);
        assert Times(items, x) <= Count(x in room);
      }
      Pigeonhole(items[1..], room - {first});
    }
  }

  lemma RoomBesides(n: nat, items: seq<nat>, held: nat)
    requires held < n <= MAX_CAPACITY
    requires forall x: nat :: Times(items, x) <= Count(x < n && x != held)
    ensures |items| < MAX_CAPACITY
  {
    Pigeonhole(items, Range(n) - {held});
  }

  /** Whoever is about to push finds room: the queue and the pusher hold distinct slots of one
      pool of at most 16, and the queue has capacity 16. */
  lemma PushFindsRoom(n: nat, m: nat, s: Sys)
    requires ValidSizes(n, m) && Sized(n, m, s) && Owned(s)
    ensures s.cam.CamPush? ==> !s.q0.Full()
    ensures s.sp.SpPush? ==> !s.q1.Full()
    ensures s.cv.CvPush? ==> !s.q2.Full()
  {
    assert forall x: nat :: InPlaces(s, x) == Count(x < n);
    assert forall x: nat :: OutPlaces(s, x) == Count(x < m);
    if s.cam.CamPush? {
      assert InPlaces(s, s.cam.fb) == 1;
      forall x: nat ensures Times(s.q0.items, x) <= Count(x < n && x != s.cam.fb) {
        assert InPlaces(s, x) == Count(x < n);
      }
      RoomBesides(n, s.q0.items, s.cam.fb);
    }
    if s.sp.SpPush? {
      assert InPlaces(s, s.sp.fb) == 1;
      forall x: nat ensures Times(s.q1.items, x) <= Count(x < n && x != s.sp.fb) {
        assert InPlaces(s, x) == Count(x < n);
      }
      RoomBesides(n, s.q1.items, s.sp.fb);
    }
    if s.cv.CvPush? {
      assert OutPlaces(s, s.cv.outFb) == 1;
      forall x: nat ensures Times(s.q2.items, x) <= Count(x < m && x != s.cv.outFb) {
        assert OutPlaces(s, x) == Count(x < m);
      }
      RoomBesides(m, s.q2.items, s.cv.outFb);
    }
  }

  // --- Ownership

  lemma AcquireMovesIn(s: Sys, x: nat)
    requires s.cam.CamAcquire?
    ensures InPlaces(CamDo(s), x) == InPlaces(s, x)
  {
  }

  lemma SendMovesIn(s: Sys, x: nat)
    requires s.cam.CamPush? && !s.q0.Full()
    ensures InPlaces(CamDo(s), x) == InPlaces(s, x)
  {
  }

  lemma CamMoves(s: Sys, x: nat)
    requires s.cam.CamPush? ==> !s.q0.Full()
    ensures InPlaces(CamDo(s), x) == InPlaces(s, x)
  {
    if s.cam.CamAcquire? {
      AcquireMovesIn(s, x);
    } else if s.cam.CamPush? {
      SendMovesIn(s, x);
    }
  }

  lemma SpMoves(s: Sys, x: nat)
    requires s.sp.SpPush? ==> !s.q1.Full()
    ensures InPlaces(SpDo(s), x) == InPlaces(s, x)
  {
    hide RefCount, InPlaces, OutPlaces;
    if s.sp.SpPop? && s.q0.items != [] {
      SpPopMoves(s, x);
    } else if s.sp.SpPush? {
      SpPushMoves(s, x);
    } else {
      SamePlaces(s, SpDo(s), x);
    }
  }

  lemma SpPopMoves(s: Sys, x: nat)
    requires s.sp.SpPop? && s.q0.items != []
    ensures InPlaces(SpDo(s), x) == InPlaces(s, x)
  {
    PopItem(s.q0.items, x);
  }

  lemma SpPushMoves(s: Sys, x: nat)
    requires s.sp.SpPush? && !s.q1.Full()
    ensures InPlaces(SpDo(s), x) == InPlaces(s, x)
  {
    hide RefCount;
  }

  lemma ReleaseMovesIn(s: Sys, r: nat, x: nat)
    requires r < s.poolIn.slots && r !in s.poolIn.free
    ensures InPlaces(ReleaseIn(s, r), x) == InPlaces(s, x) + Count(x == r)
  {
  }

  lemma LoopMovesIn(s: Sys, x: nat)
    requires s.cv.CvLoop?
    requires s.cv.left.Some? ==> s.cv.left.value !in s.abandoned
    ensures InPlaces(ConvDo(s), x) == InPlaces(s, x)
  {
    hide Times, Lowest, RefCount;
  }

  lemma PopMovesIn(s: Sys, x: nat)
    requires s.cv.CvPop?
    ensures InPlaces(ConvDo(s), x) == InPlaces(s, x)
  {
    if s.q1.items != [] { PopItem(s.q1.items, x); }
  }

  lemma DropMovesIn(s: Sys, x: nat)
    requires s.cv.CvRelease?
    requires s.cv.inFb < s.poolIn.slots && s.cv.inFb !in s.poolIn.free
    ensures InPlaces(ConvDo(s), x) == InPlaces(s, x)
  {
    ReleaseMovesIn(s.(cv := CvLoop(None)), s.cv.inFb, x);
  }

  lemma KeepMovesIn(s: Sys, x: nat)
    requires !s.cv.CvLoop? && !s.cv.CvPop? && !s.cv.CvRelease?
    requires s.cv.CvPush? ==> !s.q2.Full()
    requires s.cv.CvUnref? ==> RefCount(s.refs, s.cv.inFb) == 1
    ensures InPlaces(ConvDo(s), x) == InPlaces(s, x)
  {
    hide Times, Lowest, RefCount;
  }

  lemma ConvMovesIn(s: Sys, x: nat)
    requires s.cv.CvPush? ==> !s.q2.Full()
    requires s.cv.CvUnref? ==> RefCount(s.refs, s.cv.inFb) == 1
    requires CvIn(s.cv).Some? ==> InPlaces(s, CvIn(s.cv).value) == Count(CvIn(s.cv).value < s.poolIn.slots)
    ensures InPlaces(ConvDo(s), x) == InPlaces(s, x)
  {
    if s.cv.CvLoop? {
      LoopMovesIn(s, x);
    } else if s.cv.CvPop? {
      PopMovesIn(s, x);
    } else if s.cv.CvRelease? {
      DropMovesIn(s, x);
    } else {
      KeepMovesIn(s, x);
    }
  }

  lemma ConvMovesOut(s: Sys, x: nat)
    requires s.cv.CvPush? ==> !s.q2.Full()
    ensures OutPlaces(ConvDo(s), x) == OutPlaces(s, x)
  {
  }

  lemma ReleaseMovesOut(s: Sys, r: nat, x: nat)
    requires r < s.poolOut.slots && r !in s.poolOut.free
    ensures OutPlaces(ReleaseOut(s, r), x) == OutPlaces(s, x) + Count(x == r)
  {
  }

  lemma FileMoves(s: Sys, x: nat)
    requires s.fo.FoRelease? ==> OutPlaces(s, s.fo.fb) == Count(s.fo.fb < s.poolOut.slots)
    ensures OutPlaces(FileDo(s), x) == OutPlaces(s, x)
  {
    if s.fo.FoPop? && s.q2.items != [] {
      PopItem(s.q2.items, x);
    } else if s.fo.FoRelease? {
      ReleaseMovesOut(s.(fo := FoLoop), s.fo.fb, x);
    }
  }

  lemma CamMovesOut(s: Sys, x: nat)
    ensures OutPlaces(CamDo(s), x) == OutPlaces(s, x)
  {
  }

  lemma SpMovesOut(s: Sys, x: nat)
    ensures OutPlaces(SpDo(s), x) == OutPlaces(s, x)
  {
  }

  lemma FileMovesIn(s: Sys, x: nat)
    ensures InPlaces(FileDo(s), x) == InPlaces(s, x)
  {
    hide Times, Lowest, RefCount;
  }

  lemma WakeMoves(s: Sys, unit: nat, x: nat)
    ensures InPlaces(WakeUp(s, unit), x) == InPlaces(s, x)
    ensures OutPlaces(WakeUp(s, unit), x) == OutPlaces(s, x)
  {
    hide Times, Lowest, RefCount;
  }

  lemma SamePlaces(s: Sys, t: Sys, x: nat)
    requires t.poolIn.free == s.poolIn.free && t.poolOut.free == s.poolOut.free && t.abandoned == s.abandoned
    requires t.q0.items == s.q0.items && t.q1.items == s.q1.items && t.q2.items == s.q2.items
    requires CamHas(t.cam, x) == CamHas(s.cam, x)
    requires SpHas(t.sp, x) == SpHas(s.sp, x) && FoHas(t.fo, x) == FoHas(s.fo, x)
    requires CvIn(t.cv) == CvIn(s.cv) && CvHasOut(t.cv, x) == CvHasOut(s.cv, x)
    ensures InPlaces(t, x) == InPlaces(s, x) && OutPlaces(t, x) == OutPlaces(s, x)
  {
  }

  lemma LaunchMoves(s: Sys, unit: nat, x: nat)
    requires Gone(s, unit)
    ensures InPlaces(Launch(s, unit), x) == InPlaces(s, x)
    ensures OutPlaces(Launch(s, unit), x) == OutPlaces(s, x)
  {
    hide Times, Lowest, RefCount;
  }

  lemma JoinMoves(s: Sys, unit: nat, x: nat)
    requires Exited(s, unit)
    ensures InPlaces(Join(s, unit), x) == InPlaces(s, x)
    ensures OutPlaces(Join(s, unit), x) == OutPlaces(s, x)
  {
    hide Times, Lowest, RefCount;
  }

  lemma ControlMoves(s: Sys, x: nat)
    requires Lifecycle(s) && Enabled(s, ControlAct)
    ensures InPlaces(ControlDo(s), x) == InPlaces(s, x)
    ensures OutPlaces(ControlDo(s), x) == OutPlaces(s, x)
  {
    hide InPlaces, OutPlaces;
    match s.ctl
    case Launching(i) =>
      LaunchMoves(s, i, x);
      SamePlaces(Launch(s, i), ControlDo(s), x);
    case Joining(i) =>
      JoinMoves(s, i, x);
      SamePlaces(Join(s, i), ControlDo(s), x);
    case _ => SamePlaces(s, ControlDo(s), x);
  }

  /** Every step moves slots between places and neither creates nor loses one. */
  lemma OwnedKept(n: nat, m: nat, s: Sys, act: Act)
    requires SysInv(n, m, s) && Enabled(s, act)
    ensures Owned(SysDo(s, act))
  {
    PushFindsRoom(n, m, s);
    HeldOnce(n, m, s);
    forall x: nat
      ensures InPlaces(SysDo(s, act), x) == Count(x < n)
      ensures OutPlaces(SysDo(s, act), x) == Count(x < m)
    {
      assert InPlaces(s, x) == Count(x < n) && OutPlaces(s, x) == Count(x < m);
      match act
      case CamAct => CamMoves(s, x); CamMovesOut(s, x);
      case SpAct => SpMoves(s, x); SpMovesOut(s, x);
      case ConvAct => ConvMovesIn(s, x); ConvMovesOut(s, x);
      case FileAct => FileMovesIn(s, x); FileMoves(s, x);
      case SpuriousWake(unit) => WakeMoves(s, unit, x);
      case ControlAct => ControlMoves(s, x);
      case BeginStart =>
      case BeginStop =>
    }
    SizedKept(n, m, s, act);
  }

  /** What a unit holds is a slot of the pool, free nowhere, and conversion's input has its one reference. */
  lemma HeldOnce(n: nat, m: nat, s: Sys)
    requires SysInv(n, m, s)
    ensures CvIn(s.cv).Some? ==> InPlaces(s, CvIn(s.cv).value) == Count(CvIn(s.cv).value < n)
    ensures s.fo.FoRelease? ==> OutPlaces(s, s.fo.fb) == Count(s.fo.fb < m)
    ensures s.cv.CvUnref? ==> RefCount(s.refs, s.cv.inFb) == 1
  {
    if CvIn(s.cv).Some? { assert InPlaces(s, CvIn(s.cv).value) == Count(CvIn(s.cv).value < n); }
    if s.fo.FoRelease? { assert OutPlaces(s, s.fo.fb) == Count(s.fo.fb < m); }
    if s.cv.CvUnref? { assert Referenced(s, s.cv.inFb); }
  }

  lemma SizedKept(n: nat, m: nat, s: Sys, act: Act)
    requires Sized(n, m, s)
    ensures Sized(n, m, SysDo(s, act))
  {
    hide CamDo, SpDo, ConvDo, FileDo, ControlDo, WakeUp;
    match act
    case ControlAct => ControlKeepsSizes(n, m, s);
    case BeginStart =>
    case BeginStop =>
    case SpuriousWake(_) => UnitsKeepSizes(n, m, s, act);
    case CamAct => UnitsKeepSizes(n, m, s, act);
    case FileAct => UnitsKeepSizes(n, m, s, act);
    case SpAct => SpKeepsSizes(n, m, s);
    case ConvAct => ConvKeepsSizes(n, m, s);
  }

  lemma UnitsKeepSizes(n: nat, m: nat, s: Sys, act: Act)
    requires Sized(n, m, s) && (act.CamAct? || act.FileAct? || act.SpuriousWake?)
    ensures Sized(n, m, SysDo(s, act))
  {
    hide Lowest, AcquireTest, PopTest;
  }

  lemma SpKeepsSizes(n: nat, m: nat, s: Sys)
    requires Sized(n, m, s)
    ensures Sized(n, m, SpDo(s))
  {
    hide RefCount, PopTest;
  }

  lemma ConvKeepsSizes(n: nat, m: nat, s: Sys)
    requires Sized(n, m, s)
    ensures Sized(n, m, ConvDo(s))
  {
    hide Lowest, RefCount, AcquireTest, PopTest;
  }

  lemma ControlKeepsSizes(n: nat, m: nat, s: Sys)
    requires Sized(n, m, s)
    ensures Sized(n, m, ControlDo(s))
  {
  }

  // --- Sleepers

  lemma CamKeepsSleepers(s: Sys)
    requires SleepersWaitForNews(s) && Ready(s, CAMERA)
    ensures SleepersWaitForNews(CamDo(s))
  {
  }

  lemma SpKeepsSleepers(s: Sys)
    requires SleepersWaitForNews(s) && Ready(s, PROVIDER)
    ensures SleepersWaitForNews(SpDo(s))
  {
  }

  lemma ConvKeepsSleepers(s: Sys)
    requires SleepersWaitForNews(s) && Ready(s, CONVERSION)
    ensures SleepersWaitForNews(ConvDo(s))
  {
  }

  lemma ControlKeepsSleepers(s: Sys)
    requires SleepersWaitForNews(s)
    ensures SleepersWaitForNews(ControlDo(s))
  {
    hide SleepersWaitForNews;
    match s.ctl
    case Launching(i) => LaunchKeepsSleepers(s);
    case Joining(i) => JoinKeepsSleepers(s);
    case _ => SignalsKeepSleepers(s);
  }

  lemma LaunchKeepsSleepers(s: Sys)
    requires SleepersWaitForNews(s) && s.ctl.Launching?
    ensures SleepersWaitForNews(ControlDo(s))
  {
  }

  lemma JoinKeepsSleepers(s: Sys)
    requires SleepersWaitForNews(s) && s.ctl.Joining?
    ensures SleepersWaitForNews(ControlDo(s))
  {
  }

  lemma SignalsKeepSleepers(s: Sys)
    requires SleepersWaitForNews(s) && !s.ctl.Launching? && !s.ctl.Joining?
    ensures SleepersWaitForNews(ControlDo(s))
  {
    hide SleepersWaitForNews;
    match s.ctl
    case ShuttingPools(k) => ShutPoolKeepsSleepers(s);
    case ShuttingQueue(i) => ShutQueueKeepsSleepers(s);
    case _ => ClearKeepsSleepers(s);
  }

  lemma ShutPoolKeepsSleepers(s: Sys)
    requires SleepersWaitForNews(s) && s.ctl.ShuttingPools?
    ensures SleepersWaitForNews(ControlDo(s))
  {
  }

  lemma ShutQueueKeepsSleepers(s: Sys)
    requires SleepersWaitForNews(s) && s.ctl.ShuttingQueue?
    ensures SleepersWaitForNews(ControlDo(s))
  {
  }

  lemma ClearKeepsSleepers(s: Sys)
    requires SleepersWaitForNews(s) && (s.ctl.Resetting? || s.ctl.Clearing? || s.ctl.Idle? || s.ctl.Up?)
    ensures SleepersWaitForNews(ControlDo(s))
  {
  }

  lemma SleepersKept(s: Sys, act: Act)
    requires SleepersWaitForNews(s) && Enabled(s, act)
    ensures SleepersWaitForNews(SysDo(s, act))
  {
    match act
    case CamAct => CamKeepsSleepers(s);
    case SpAct => SpKeepsSleepers(s);
    case ConvAct => ConvKeepsSleepers(s);
    case ControlAct => ControlKeepsSleepers(s);
    case _ =>
  }

  // --- Lifecycle

  /** What a unit's own step leaves alone: the control thread, flags, and which threads exist. A
      running unit's thread returns only once some shutdown flag is set. */
  predicate SameLives(s: Sys, t: Sys) {
    && t.ctl == s.ctl && t.starts == s.starts
    && t.camLife == s.camLife && t.spLife == s.spLife && t.cvLife == s.cvLife && t.foLife == s.foLife
    && t.poolIn.shutdown == s.poolIn.shutdown && t.poolOut.shutdown == s.poolOut.shutdown
    && t.q0.shutdown == s.q0.shutdown && t.q1.shutdown == s.q1.shutdown && t.q2.shutdown == s.q2.shutdown
    && t.cam.CamGone? == s.cam.CamGone? && t.sp.SpGone? == s.sp.SpGone?
    && t.cv.CvGone? == s.cv.CvGone? && t.fo.FoGone? == s.fo.FoGone?
    && (t.cam.CamExited? && s.camLife.running && !s.poolIn.shutdown ==> s.cam.CamExited?)
    && (t.sp.SpExited? && s.spLife.running && !s.q0.shutdown ==> s.sp.SpExited?)
    && (t.cv.CvExited? && s.cvLife.running && !s.q1.shutdown && !s.poolOut.shutdown ==> s.cv.CvExited?)
    && (t.fo.FoExited? && s.foLife.running && !s.q2.shutdown ==> s.fo.FoExited?)
  }

  lemma CamSameLives(s: Sys)
    requires Ready(s, CAMERA)
    ensures SameLives(s, CamDo(s))
  {
  }

  lemma SpSameLives(s: Sys)
    requires Ready(s, PROVIDER)
    ensures SameLives(s, SpDo(s))
  {
    hide RefCount, Lowest, AcquireTest, PopTest;
  }

  lemma ConvSameLives(s: Sys)
    requires Ready(s, CONVERSION)
    ensures SameLives(s, ConvDo(s))
  {
    hide RefCount, Lowest, AcquireTest, PopTest;
  }

  lemma FileSameLives(s: Sys)
    requires Ready(s, FILE_OUT)
    ensures SameLives(s, FileDo(s))
  {
  }

  lemma WakeSameLives(s: Sys, unit: nat)
    ensures SameLives(s, WakeUp(s, unit))
  {
  }

  lemma UnitsSameLives(s: Sys, act: Act)
    requires Enabled(s, act) && !act.ControlAct? && !act.BeginStart? && !act.BeginStop?
    ensures SameLives(s, SysDo(s, act))
  {
    match act
    case CamAct => CamSameLives(s);
    case SpAct => SpSameLives(s);
    case ConvAct => ConvSameLives(s);
    case FileAct => FileSameLives(s);
    case SpuriousWake(unit) => WakeSameLives(s, unit);
  }

  lemma LifecycleFrame(s: Sys, t: Sys)
    requires Lifecycle(s) && SameLives(s, t)
    ensures Lifecycle(t)
  {
    hide SameLives, Down, Live, Stopping, Busy;
    SameFlags(s, t);
    SameUnit(s, t, 0);
    SameUnit(s, t, 1);
    SameUnit(s, t, 2);
    SameUnit(s, t, 3);
  }

  lemma SameFlags(s: Sys, t: Sys)
    requires SameLives(s, t)
    ensures t.ctl == s.ctl && t.poolIn.shutdown == s.poolIn.shutdown && t.poolOut.shutdown == s.poolOut.shutdown
    ensures t.q0.shutdown == s.q0.shutdown && t.q1.shutdown == s.q1.shutdown && t.q2.shutdown == s.q2.shutdown
  {
  }

  lemma SameUnit(s: Sys, t: Sys, unit: nat)
    requires SameLives(s, t) && unit <= 3
    ensures Down(t, unit) == Down(s, unit) && Live(t, unit) == Live(s, unit) && Stopping(t, unit) == Stopping(s, unit)
    ensures FlagsClear(s) && Busy(s, unit) ==> Busy(t, unit)
  {
  }

  lemma LaunchKeepsLifecycle(s: Sys)
    requires Lifecycle(s) && s.ctl.Launching?
    ensures Lifecycle(ControlDo(s))
  {
  }

  lemma ControlKeepsLifecycle(s: Sys)
    requires Lifecycle(s) && Enabled(s, ControlAct)
    ensures Lifecycle(ControlDo(s))
  {
    match s.ctl
    case Resetting(k) =>
    case Launching(i) => LaunchKeepsLifecycle(s);
    case ShuttingPools(k) =>
    case Clearing(i) =>
    case ShuttingQueue(i) =>
    case Joining(i) =>
  }

  lemma LifecycleKept(s: Sys, act: Act)
    requires Lifecycle(s) && Enabled(s, act)
    ensures Lifecycle(SysDo(s, act))
  {
    if act.ControlAct? {
      ControlKeepsLifecycle(s);
    } else if !act.BeginStart? && !act.BeginStop? {
      UnitsSameLives(s, act);
      LifecycleFrame(s, SysDo(s, act));
    }
  }

  // --- Tallies

  lemma LaunchKeepsTally(s: Sys, unit: nat)
    requires Lifecycle(s) && Tallied(s, unit) && s.ctl.Launching? && unit <= 3
    ensures Tallied(ControlDo(s), unit)
  {
  }

  lemma JoinKeepsTally(s: Sys, unit: nat)
    requires Lifecycle(s) && Tallied(s, unit) && s.ctl.Joining? && Exited(s, s.ctl.unit) && unit <= 3
    ensures Tallied(ControlDo(s), unit)
  {
  }

  lemma ControlKeepsTally(s: Sys, unit: nat)
    requires Lifecycle(s) && Tallied(s, unit) && Enabled(s, ControlAct) && unit <= 3
    ensures Tallied(ControlDo(s), unit)
  {
    hide Lifecycle, Tallied;
    match s.ctl
    case Launching(i) => LaunchKeepsTally(s, unit);
    case Joining(i) => JoinKeepsTally(s, unit);
    case _ => SignalsKeepTally(s, unit);
  }

  lemma SignalsKeepTally(s: Sys, unit: nat)
    requires Tallied(s, unit) && !s.ctl.Launching? && !s.ctl.Joining? && unit <= 3
    ensures Tallied(ControlDo(s), unit)
  {
  }

  lemma TalliedKept(s: Sys, act: Act, unit: nat)
    requires Lifecycle(s) && Tallied(s, unit) && Enabled(s, act) && unit <= 3
    ensures Tallied(SysDo(s, act), unit)
  {
    if act.ControlAct? {
      ControlKeepsTally(s, unit);
    } else if !act.BeginStart? && !act.BeginStop? {
      UnitsSameLives(s, act);
    }
  }

  lemma ConvKeepsLoss(s: Sys)
    requires Tallied(s, CONVERSION) && LossBounded(s) && Ready(s, CONVERSION)
    requires s.cv.CvPush? ==> !s.q2.Full()
    ensures LossBounded(ConvDo(s))
  {
  }

  lemma ControlKeepsLoss(s: Sys)
    requires Lifecycle(s) && LossBounded(s) && Enabled(s, ControlAct)
    ensures LossBounded(ControlDo(s))
  {
    match s.ctl
    case Launching(i) =>
    case Joining(i) =>
    case _ => SignalsKeepLoss(s);
  }

  lemma SignalsKeepLoss(s: Sys)
    requires LossBounded(s) && !s.ctl.Launching? && !s.ctl.Joining?
    ensures LossBounded(ControlDo(s))
  {
  }

  lemma LossBoundedKept(s: Sys, act: Act)
    requires Lifecycle(s) && Tallied(s, CONVERSION) && LossBounded(s) && Enabled(s, act)
    requires s.cv.CvPush? ==> !s.q2.Full()
    ensures LossBounded(SysDo(s, act))
  {
    hide Lifecycle, Tallied, ConvDo, ControlDo, CamDo, SpDo, FileDo, WakeUp;
    if act.ConvAct? {
      ConvKeepsLoss(s);
    } else if act.ControlAct? {
      ControlKeepsLoss(s);
    } else {
      OthersKeepLeft(s, act);
    }
  }

  /** The slot conversion holds outside its loop: left when its last thread returned. */
  function LeftIn(cv: CvPc): Option<nat> {
    if cv.CvGone? || cv.CvLoop? || cv.CvExited? then cv.left else None
  }

  lemma OthersKeepLeft(s: Sys, act: Act)
    requires Enabled(s, act) && !act.ConvAct? && !act.ControlAct?
    ensures LeftIn(SysDo(s, act).cv) == LeftIn(s.cv) && SysDo(s, act).abandoned == s.abandoned
    ensures SysDo(s, act).cv.CvLoop? == s.cv.CvLoop? && SysDo(s, act).cvLife == s.cvLife
    ensures CvIn(SysDo(s, act).cv) == CvIn(s.cv)
  {
    hide RefCount, Lowest, AcquireTest, PopTest;
  }

  // --- Reference counts

  lemma ReferencedOnce(n: nat, m: nat, s: Sys, x: nat)
    requires SysInv(n, m, s)
    ensures x in s.poolIn.free || x in s.q0.items || CamHas(s.cam, x) || s.sp == SpRef(x) || s.cv == CvRelease(x)
            ==> !Referenced(s, x)
  {
    assert InPlaces(s, x) == Count(x < n);
  }

  lemma SpKeepsCount(n: nat, m: nat, s: Sys, x: nat)
    requires SysInv(n, m, s) && Ready(s, PROVIDER)
    ensures RefCount(SpDo(s).refs, x) == if Referenced(SpDo(s), x) then 1 else 0
  {
    PushFindsRoom(n, m, s);
    ReferencedOnce(n, m, s, x);
    assert RefCount(s.refs, x) == if Referenced(s, x) then 1 else 0;
  }

  lemma ConvKeepsCount(n: nat, m: nat, s: Sys, x: nat)
    requires SysInv(n, m, s) && Ready(s, CONVERSION)
    ensures RefCount(ConvDo(s).refs, x) == if Referenced(ConvDo(s), x) then 1 else 0
  {
    hide SleepersWaitForNews, Lifecycle, Tallied, LossBounded, InPlaces, OutPlaces, Referenced, RefCount;
    PushFindsRoom(n, m, s);
    assert RefCount(s.refs, x) == if Referenced(s, x) then 1 else 0;
    assert InPlaces(s, x) == Count(x < n);
    if s.cv.CvUnref? {
      UnrefCounts(s, x);
    } else {
      ConvKeepsReferences(s, x);
    }
  }

  /** Conversion's unref takes the only reference to its slot. */
  lemma UnrefCounts(s: Sys, x: nat)
    requires s.cv.CvUnref? && InPlaces(s, x) <= 1
    requires RefCount(s.refs, x) == if Referenced(s, x) then 1 else 0
    ensures RefCount(ConvDo(s).refs, x) == if Referenced(ConvDo(s), x) then 1 else 0
  {
    hide Lowest;
  }

  lemma ConvKeepsReferences(s: Sys, x: nat)
    requires Ready(s, CONVERSION) && !s.cv.CvUnref? && (s.cv.CvPush? ==> !s.q2.Full())
    ensures ConvDo(s).refs == s.refs && Referenced(ConvDo(s), x) == Referenced(s, x)
  {
    hide Lowest, RefCount;
    if s.cv.CvPop? && s.q1.items != [] {
      assert s.q1.items == [s.q1.items[0]] + s.q1.items[1..];
    }
  }

  lemma OthersKeepCount(s: Sys, act: Act, x: nat)
    requires Lifecycle(s) && Enabled(s, act) && !act.SpAct? && !act.ConvAct?
    requires s.cam.CamPush? ==> !s.q0.Full()
    ensures SysDo(s, act).refs == s.refs
    ensures Referenced(SysDo(s, act), x) == Referenced(s, x)
  {
    match act
    case CamAct =>
    case FileAct =>
    case SpuriousWake(unit) =>
    case ControlAct => ControlKeepsReferences(s, x);
    case BeginStart =>
    case BeginStop =>
  }

  lemma ControlKeepsReferences(s: Sys, x: nat)
    requires Lifecycle(s) && Enabled(s, ControlAct)
    ensures ControlDo(s).refs == s.refs
    ensures Referenced(ControlDo(s), x) == Referenced(s, x)
  {
    match s.ctl
    case Resetting(k) =>
    case Launching(i) =>
    case ShuttingPools(k) =>
    case Clearing(i) =>
    case ShuttingQueue(i) =>
    case Joining(i) =>
  }

  lemma CountedKept(n: nat, m: nat, s: Sys, act: Act)
    requires SysInv(n, m, s) && Enabled(s, act)
    ensures Counted(SysDo(s, act))
  {
    PushFindsRoom(n, m, s);
    forall x: nat
      ensures RefCount(SysDo(s, act).refs, x) == if Referenced(SysDo(s, act), x) then 1 else 0
    {
      match act
      case SpAct => SpKeepsCount(n, m, s, x);
      case ConvAct => ConvKeepsCount(n, m, s, x);
      case _ => OthersKeepCount(s, act, x);
    }
  }

  // --- All of it

  lemma SysInvKept(n: nat, m: nat, s: Sys, act: Act)
    requires SysInv(n, m, s) && Enabled(s, act)
    ensures SysInv(n, m, SysDo(s, act))
  {
    PushFindsRoom(n, m, s);
    SizedKept(n, m, s, act);
    OwnedKept(n, m, s, act);
    CountedKept(n, m, s, act);
    SleepersKept(s, act);
    LifecycleKept(s, act);
    TalliedKept(s, act, 0);
    TalliedKept(s, act, 1);
    TalliedKept(s, act, 2);
    TalliedKept(s, act, 3);
    LossBoundedKept(s, act);
  }

  lemma InitSysInv(n: nat, m: nat)
    requires ValidSizes(n, m)
    ensures SysInv(n, m, InitSys(n, m))
  {
    var s := InitSys(n, m);
    forall x: nat ensures InPlaces(s, x) == Count(x < n) && OutPlaces(s, x) == Count(x < m) {
    }
    forall x: nat ensures RefCount(s.refs, x) == if Referenced(s, x) then 1 else 0 {
    }
  }

  /** Safety over whole runs: whatever the schedule, starts, stops and wakeups included. */
  lemma {:induction false} RunKeepsInv(n: nat, m: nat, s: Sys, acts: seq<Act>)
    requires SysInv(n, m, s) && Feasible(s, acts)
    ensures SysInv(n, m, Run(s, acts))
    decreases |acts|
  {
    if acts != [] {
      SysInvKept(n, m, s, acts[0]);
      RunKeepsInv(n, m, SysDo(s, acts[0]), acts[1..]);
    }
  }
}
