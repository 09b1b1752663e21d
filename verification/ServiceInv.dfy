/** What every step of the service keeps. Each part of the invariant is a predicate of its own,
    so that the theorems can say which part they rest on. */
module ServiceInv {
  import opened Options
  import opened BufSpec
  import opened ServiceModel

  // --- Ownership: every slot is in exactly one place

  predicate CamHas(pc: CamPc, x: nat) {
    (pc.CamCapture? || pc.CamPush?) && pc.fb == x
  }

  predicate SpHas(pc: SpPc, x: nat) {
    (pc.SpRef? || pc.SpPush?) && pc.fb == x
  }

  /** The input slot conversion holds, if any. */
  function CvIn(pc: CvPc): Option<nat> {
    match pc
    case CvGone(left) => left
    case CvLoop(left) => left
    case CvExited(left) => left
    case CvPop => None
    case CvAsleepPop => None
    case CvAcquire(i) => Some(i)
    case CvAsleepAcquire(i) => Some(i)
    case CvConvert(i, o) => Some(i)
    case CvPush(i, o) => Some(i)
    case CvUnref(i) => Some(i)
    case CvRelease(i) => Some(i)
  }

  predicate CvHasOut(pc: CvPc, x: nat) {
    (pc.CvConvert? || pc.CvPush?) && pc.outFb == x
  }

  predicate FoHas(pc: FoPc, x: nat) {
    (pc.FoWrite? || pc.FoRelease?) && pc.fb == x
  }

  function Count(b: bool): nat {
    if b then 1 else 0
  }

  function Times(items: seq<nat>, x: nat): nat {
    multiset(items)[x]
  }

  /** In how many places pool_in's slot x is: free, queued, held by a unit, or lost. */
  function InPlaces(s: Sys, x: nat): nat {
    Count(x in s.poolIn.free) + Times(s.q0.items, x) + Times(s.q1.items, x)
    + Count(CamHas(s.cam, x)) + Count(SpHas(s.sp, x)) + Count(CvIn(s.cv) == Some(x)) + Count(x in s.abandoned)
  }

  /** The same for pool_out, which loses no slot. */
  function OutPlaces(s: Sys, x: nat): nat {
    Count(x in s.poolOut.free) + Times(s.q2.items, x) + Count(CvHasOut(s.cv, x)) + Count(FoHas(s.fo, x))
  }

  ghost predicate Owned(s: Sys) {
    && (forall x: nat :: InPlaces(s, x) == Count(x < s.poolIn.slots))
    && (forall x: nat :: OutPlaces(s, x) == Count(x < s.poolOut.slots))
  }

  ghost predicate Sized(n: nat, m: nat, s: Sys) {
    && s.poolIn.slots == n && s.poolOut.slots == m
    && s.q0.capacity == s.q1.capacity == s.q2.capacity == MAX_CAPACITY
  }

  // --- Reference counts tell the truth

  /** One reference from the stream provider's ref until conversion's unref, also for a slot that
      was lost in between; none anywhere else. */
  ghost predicate Referenced(s: Sys, x: nat) {
    || x in s.q1.items
    || x in s.abandoned
    || (s.sp.SpPush? && s.sp.fb == x)
    || (CvIn(s.cv) == Some(x) && !s.cv.CvRelease?)
  }

  ghost predicate Counted(s: Sys) {
    forall x: nat :: RefCount(s.refs, x) == if Referenced(s, x) then 1 else 0
  }

  // --- Sleepers: no wakeup is lost

  ghost predicate SleepersWaitForNews(s: Sys) {
    && (s.cam.CamAsleep? ==> s.poolIn.free == {} && !s.poolIn.shutdown)
    && (s.sp.SpAsleep? ==> s.q0.items == [] && !s.q0.shutdown)
    && (s.cv.CvAsleepPop? ==> s.q1.items == [] && !s.q1.shutdown)
    && (s.cv.CvAsleepAcquire? ==> s.poolOut.free == {} && !s.poolOut.shutdown)
    && (s.fo.FoAsleep? ==> s.q2.items == [] && !s.q2.shutdown)
  }

  // --- Lifecycle: what the control thread's position says about the units

  predicate Down(s: Sys, unit: nat) {
    Gone(s, unit) && !LifeOf(s, unit).running
  }

  predicate Live(s: Sys, unit: nat) {
    !Gone(s, unit) && LifeOf(s, unit).running
  }

  predicate Busy(s: Sys, unit: nat) {
    Live(s, unit) && !Exited(s, unit)
  }

  predicate Stopping(s: Sys, unit: nat) {
    !Gone(s, unit) && !LifeOf(s, unit).running
  }

  predicate FlagsClear(s: Sys) {
    !s.poolIn.shutdown && !s.poolOut.shutdown && !s.q0.shutdown && !s.q1.shutdown && !s.q2.shutdown
  }

  predicate AllDown(s: Sys) {
    Down(s, 0) && Down(s, 1) && Down(s, 2) && Down(s, 3)
  }

  predicate InputShut(s: Sys, unit: nat) {
    match unit
    case 0 => true
    case 1 => s.q0.shutdown
    case 2 => s.q1.shutdown
    case _ => s.q2.shutdown
  }

  /** The units behind the one being stopped are down, those before it still live. */
  predicate BeingStopped(s: Sys, i: nat) {
    && i <= 3
    && s.poolIn.shutdown && s.poolOut.shutdown
    && Stopping(s, i)
    && (i > 0 ==> Live(s, 0))
    && (if i > 1 then Live(s, 1) else i == 1 || Down(s, 1))
    && (if i > 2 then Live(s, 2) else i == 2 || Down(s, 2))
    && (i == 3 || Down(s, 3))
  }

  predicate Lifecycle(s: Sys) {
    match s.ctl
    case Idle => AllDown(s)
    case Resetting(k) =>
      && k <= 4
      && AllDown(s)
      && (k > 0 ==> !s.poolIn.shutdown)
      && (k > 1 ==> !s.poolOut.shutdown)
      && (k > 2 ==> !s.q0.shutdown)
      && (k > 3 ==> !s.q1.shutdown)
    case Launching(i) =>
      && i <= 3
      && FlagsClear(s)
      && (if i > 0 then Busy(s, 0) else Down(s, 0))
      && (if i > 1 then Busy(s, 1) else Down(s, 1))
      && (if i > 2 then Busy(s, 2) else Down(s, 2))
      && Down(s, 3)
    case Up =>
      FlagsClear(s) && Busy(s, 0) && Busy(s, 1) && Busy(s, 2) && Busy(s, 3)
    case ShuttingPools(k) =>
      && k <= 1
      && (k == 1 ==> s.poolIn.shutdown)
      && (AllDown(s) || (Live(s, 0) && Live(s, 1) && Live(s, 2) && Live(s, 3)))
    case Clearing(i) =>
      && i <= 3
      && s.poolIn.shutdown && s.poolOut.shutdown
      && (|| AllDown(s)
          || (&& Live(s, 0)
              && (if i >= 1 then Live(s, 1) else Down(s, 1))
              && (if i >= 2 then Live(s, 2) else Down(s, 2))
              && (if i >= 3 then Live(s, 3) else Down(s, 3))))
    case ShuttingQueue(i) => i >= 1 && BeingStopped(s, i)
    case Joining(i) => BeingStopped(s, i) && InputShut(s, i)
  }

  /** Threads are launched and joined in turn: at most one of a unit exists, and each service
      start so far that has come to the unit has launched one. */
  predicate Tallied(s: Sys, unit: nat) {
    var l := LifeOf(s, unit);
    && l.launches == l.joins + (if Gone(s, unit) then 0 else 1)
    && s.starts == l.launches + if s.ctl.Resetting? || (s.ctl.Launching? && s.ctl.unit <= unit) then 1 else 0
  }

  /** At most one slot is lost per relaunch of conversion, and only one it still held. */
  ghost predicate LossBounded(s: Sys) {
    if s.cvLife.launches == 0 then s.abandoned == {} && CvIn(s.cv).None?
    else |s.abandoned| + (if s.cv.CvLoop? && s.cv.left.Some? then 1 else 0) < s.cvLife.launches
  }

  ghost predicate SysInv(n: nat, m: nat, s: Sys) {
    && ValidSizes(n, m)
    && Sized(n, m, s)
    && Owned(s)
    && Counted(s)
    && SleepersWaitForNews(s)
    && Lifecycle(s)
    && Tallied(s, 0) && Tallied(s, 1) && Tallied(s, 2) && Tallied(s, 3)
    && LossBounded(s)
  }
}
