/** What the service promises, for every pool size, every schedule and every number of starts
    and stops. */
module ServiceTheorems {
  import opened Options
  import opened BufSpec
  import opened ServiceModel
  import opened ServiceInv
  import opened ServiceSteps
  import opened ServiceFlow
  import opened ServiceStop

  /** The schedule acts leads from s to t. */
  predicate Leads(s: Sys, acts: seq<Act>, t: Sys)
    decreases |acts|
  {
    if acts == [] then s == t else Enabled(s, acts[0]) && Leads(SysDo(s, acts[0]), acts[1..], t)
  }

  lemma {:induction false} LeadsIsRun(s: Sys, acts: seq<Act>, t: Sys)
    ensures Leads(s, acts, t) <==> Feasible(s, acts) && t == Run(s, acts)
    decreases |acts|
  {
    hide Enabled, SysDo;
    if acts != [] {
      LeadsIsRun(SysDo(s, acts[0]), acts[1..], t);
    }
  }

  /** s is what the service can be in after the schedule acts from initialisation. */
  ghost predicate Reaches(n: nat, m: nat, acts: seq<Act>, s: Sys) {
    ValidSizes(n, m) && Leads(InitSys(n, m), acts, s)
  }

  lemma ReachableInv(n: nat, m: nat, acts: seq<Act>, s: Sys)
    requires Reaches(n, m, acts, s)
    ensures SysInv(n, m, s)
  {
    LeadsIsRun(InitSys(n, m), acts, s);
    InitSysInv(n, m);
    RunKeepsInv(n, m, InitSys(n, m), acts);
  }

  // --- Slots

  /** A slot of pool_in is free, queued, held by one unit or lost: in exactly one place. Slots
      are lost at most once per start after the first. pool_out loses none. */
  lemma SlotsConserved(n: nat, m: nat, acts: seq<Act>, s: Sys)
    requires Reaches(n, m, acts, s)
    ensures forall x: nat | x < n :: InPlaces(s, x) == 1
    ensures forall x: nat | x < m :: OutPlaces(s, x) == 1
    ensures |s.abandoned| <= if s.starts == 0 then 0 else s.starts - 1
  {
    ReachableInv(n, m, acts, s);
    forall x: nat ensures InPlaces(s, x) == Count(x < n) && OutPlaces(s, x) == Count(x < m) {
    }
    assert Tallied(s, CONVERSION);
  }

  /** Conversion, holding input slot x, is refused an output slot by a pool that was shut down. */
  predicate Refused(s: Sys, act: Act, x: nat) {
    act == ConvAct && s.cv == CvAcquire(x) && s.poolOut.free == {} && s.poolOut.shutdown
  }

  /** Some step of the schedule was such a refusal. */
  predicate EverRefused(s: Sys, acts: seq<Act>, x: nat)
    decreases |acts|
  {
    acts != [] && (Refused(s, acts[0], x) || EverRefused(SysDo(s, acts[0]), acts[1..], x))
  }

  predicate Stranded(s: Sys, x: nat) {
    x in s.abandoned || LeftIn(s.cv) == Some(x)
  }

  /** One step strands a slot exactly by a refusal, and what is stranded stays so. */
  lemma StrandedByRefusal(s: Sys, act: Act, x: nat)
    requires Lifecycle(s) && Enabled(s, act) && (s.cv.CvPush? ==> !s.q2.Full())
    ensures Stranded(SysDo(s, act), x) <==> Stranded(s, x) || Refused(s, act, x)
  {
    match act
    case ConvAct => ConvStrands(s, x);
    case ControlAct => ControlKeepsLeft(s);
    case _ => OthersKeepLeft(s, act);
  }

  lemma ConvStrands(s: Sys, x: nat)
    requires Ready(s, CONVERSION) && (s.cv.CvPush? ==> !s.q2.Full())
    ensures Stranded(ConvDo(s), x) <==> Stranded(s, x) || Refused(s, ConvAct, x)
  {
    hide RefCount, Lowest;
  }

  lemma ControlKeepsLeft(s: Sys)
    requires Lifecycle(s) && Enabled(s, ControlAct)
    ensures LeftIn(ControlDo(s).cv) == LeftIn(s.cv) && ControlDo(s).abandoned == s.abandoned
  {
    match s.ctl
    case Launching(i) =>
    case Joining(i) =>
    case _ => SignalsKeepLeft(s);
  }

  lemma SignalsKeepLeft(s: Sys)
    requires !s.ctl.Launching? && !s.ctl.Joining?
    ensures LeftIn(ControlDo(s).cv) == LeftIn(s.cv) && ControlDo(s).abandoned == s.abandoned
  {
  }

  lemma {:induction false} StrandedExactlyByRefusal(n: nat, m: nat, s: Sys, acts: seq<Act>, t: Sys, x: nat)
    requires SysInv(n, m, s) && Leads(s, acts, t)
    ensures Stranded(t, x) <==> Stranded(s, x) || EverRefused(s, acts, x)
    decreases |acts|
  {
    hide SysDo, Enabled, Lifecycle, Owned, Counted, SleepersWaitForNews, Tallied, LossBounded, Stranded, Refused;
    if acts != [] {
      SysInvKept(n, m, s, acts[0]);
      StrandedExactlyByRefusal(n, m, SysDo(s, acts[0]), acts[1..], t, x);
      PushFindsRoom(n, m, s);
      StrandedByRefusal(s, acts[0], x);
    }
  }

  /** A slot is lost, or held by conversion outside its loop, if and only if at some earlier point of
      the schedule conversion held it and was refused an output slot by the shut-down pool. */
  lemma LostIffRefused(n: nat, m: nat, acts: seq<Act>, s: Sys, x: nat)
    requires Reaches(n, m, acts, s)
    ensures Stranded(s, x) <==> EverRefused(InitSys(n, m), acts, x)
  {
    InitSysInv(n, m);
    StrandedExactlyByRefusal(n, m, InitSys(n, m), acts, s, x);
  }

  /** Slots lost, and the one about to be lost. */
  function Losses(s: Sys): nat {
    |s.abandoned| + if s.cv.CvLoop? && s.cv.left.Some? then 1 else 0
  }

  /** One step adds no more to the losses than to the launches of conversion. */
  lemma LossPerLaunch(s: Sys, act: Act)
    requires Enabled(s, act) && (s.cv.CvPush? ==> !s.q2.Full())
    ensures Losses(SysDo(s, act)) + s.cvLife.launches <= Losses(s) + SysDo(s, act).cvLife.launches
  {
    match act
    case ConvAct => ConvLoses(s);
    case ControlAct =>
      if s.ctl.Launching? {
        LaunchRisksOne(s);
      } else {
        ControlLosesNothing(s);
      }
    case _ =>
  }

  lemma ConvLoses(s: Sys)
    requires s.cv.CvPush? ==> !s.q2.Full()
    ensures Losses(ConvDo(s)) <= Losses(s) && ConvDo(s).cvLife == s.cvLife
  {
    hide RefCount, Lowest;
  }

  lemma LaunchRisksOne(s: Sys)
    requires s.ctl.Launching?
    ensures Losses(ControlDo(s)) + s.cvLife.launches <= Losses(s) + ControlDo(s).cvLife.launches
  {
  }

  lemma ControlLosesNothing(s: Sys)
    requires !s.ctl.Launching?
    ensures Losses(ControlDo(s)) <= Losses(s) && ControlDo(s).cvLife.launches == s.cvLife.launches
  {
  }

  /** Between any two points of any schedule no more slots are lost than conversion was launched in
      between, one held at a launch and not yet lost included. */
  lemma {:induction false} OneLossPerRestart(n: nat, m: nat, s: Sys, acts: seq<Act>)
    requires SysInv(n, m, s) && Feasible(s, acts)
    ensures Losses(Run(s, acts)) - Losses(s) <= Run(s, acts).cvLife.launches - s.cvLife.launches
    decreases |acts|
  {
    hide SysDo, Enabled, Losses, Owned, Counted, SleepersWaitForNews, Lifecycle, Tallied, LossBounded;
    if acts != [] {
      PushFindsRoom(n, m, s);
      LossPerLaunch(s, acts[0]);
      SysInvKept(n, m, s, acts[0]);
      OneLossPerRestart(n, m, SysDo(s, acts[0]), acts[1..]);
    }
  }

  /** A loss takes the one slot conversion was left with, and needs a second start. */
  lemma LossTakesLeftSlot(n: nat, m: nat, acts: seq<Act>, s: Sys, act: Act)
    requires Reaches(n, m, acts, s) && Enabled(s, act) && SysDo(s, act).abandoned != s.abandoned
    ensures act == ConvAct && s.cv.CvLoop? && s.cv.left.Some?
    ensures SysDo(s, act).abandoned == s.abandoned + {s.cv.left.value}
    ensures s.starts >= 2
  {
    ReachableInv(n, m, acts, s);
    OnlyConversionLoses(n, m, s, act);
    assert Tallied(s, CONVERSION);
  }

  /** No push finds its queue full, so no frame is ever given back on that path. */
  lemma PushNeverFails(n: nat, m: nat, acts: seq<Act>, s: Sys)
    requires Reaches(n, m, acts, s)
    ensures s.cam.CamPush? ==> !s.q0.Full()
    ensures s.sp.SpPush? ==> !s.q1.Full()
    ensures s.cv.CvPush? ==> !s.q2.Full()
  {
    ReachableInv(n, m, acts, s);
    PushFindsRoom(n, m, s);
  }

  /** The reference count of an input slot is 1 from the stream provider's ref to conversion's
      unref and 0 elsewhere; the unref always finds 1 and so releases, never underflows. */
  lemma RefCountsTellTruth(n: nat, m: nat, acts: seq<Act>, s: Sys, x: nat)
    requires Reaches(n, m, acts, s)
    ensures x in s.poolIn.free || CamHas(s.cam, x) || x in s.q0.items || s.sp == SpRef(x) || s.cv == CvRelease(x)
            ==> RefCount(s.refs, x) == 0
    ensures s.sp == SpPush(x) || x in s.q1.items || (CvIn(s.cv) == Some(x) && s.cv != CvRelease(x))
            ==> RefCount(s.refs, x) == 1
  {
    ReachableInv(n, m, acts, s);
    ReferencedOnce(n, m, s, x);
    assert RefCount(s.refs, x) == if Referenced(s, x) then 1 else 0;
  }

  // --- Lifecycle

  /** While the service is up, all four threads exist and none has returned; when a stop has
      returned, every thread ever launched has been joined, once per start. */
  lemma ThreadsMatchService(n: nat, m: nat, acts: seq<Act>, s: Sys, unit: nat)
    requires Reaches(n, m, acts, s) && unit <= FILE_OUT
    ensures s.ctl.Up? ==> Busy(s, unit) && FlagsClear(s) && LifeOf(s, unit).launches == s.starts
    ensures s.ctl.Idle? ==> Gone(s, unit) && LifeOf(s, unit).launches == LifeOf(s, unit).joins == s.starts
    ensures s.ctl.Launching? && s.ctl.unit == unit ==> Gone(s, unit) && FlagsClear(s)
  {
    ReachableInv(n, m, acts, s);
    assert Tallied(s, unit);
  }

  /** A stop of a stopped service touches no thread and no slot: it returns after six control steps. */
  lemma StopWhenStopped(n: nat, m: nat, s: Sys)
    requires SysInv(n, m, s) && s.ctl.Idle?
    ensures var acts := [BeginStop, ControlAct, ControlAct, ControlAct, ControlAct, ControlAct, ControlAct];
            Feasible(s, acts) && Run(s, acts) == PoolsShut(s)
  {
    hide Feasible, Run, SysDo, Enabled, SysInv;
    var c := ControlAct;
    StoppedInv(n, m, s);
    SkipUnits(PoolsShut(s), FILE_OUT);
    assert Controls(4) == [c, c, c, c];
    ShutPoolsFirst(s, Controls(4));
    assert [BeginStop, c, c] + Controls(4) == [BeginStop, c, c, c, c, c, c];
  }

  lemma StoppedInv(n: nat, m: nat, s: Sys)
    requires SysInv(n, m, s) && s.ctl.Idle?
    ensures AllDown(s) && AllDown(PoolsShut(s))
  {
  }

  function Controls(k: nat): seq<Act> {
    if k == 0 then [] else [ControlAct] + Controls(k - 1)
  }

  /** A stop goes past units that do not run, from unit i to the first. */
  lemma {:induction false} SkipUnits(s: Sys, i: nat)
    requires AllDown(s) && i <= FILE_OUT
    ensures var t := s.(ctl := Clearing(i));
            Feasible(t, Controls(i + 1)) && Run(t, Controls(i + 1)) == s.(ctl := Idle)
  {
    hide Feasible, Run, SysDo, Enabled;
    var t := s.(ctl := Clearing(i));
    SkipUnit(t);
    Unfold(t, ControlAct, Controls(i));
    if i == 0 {
      NoSteps(s.(ctl := Idle));
    } else {
      SkipUnits(s, i - 1);
    }
  }

  lemma NoSteps(s: Sys)
    ensures Feasible(s, []) && Run(s, []) == s
  {
  }

  function PoolsShut(s: Sys): Sys {
    s.(poolIn := s.poolIn.(shutdown := true), poolOut := s.poolOut.(shutdown := true))
  }

  lemma SkipUnit(s: Sys)
    requires s.ctl.Clearing? && s.ctl.unit <= FILE_OUT && !LifeOf(s, s.ctl.unit).running
    ensures Enabled(s, ControlAct) && SysDo(s, ControlAct) == s.(ctl := AfterUnit(s.ctl.unit))
  {
  }

  lemma ShutPoolsFirst(s: Sys, rest: seq<Act>)
    requires s.ctl.Idle? && AllDown(s)
    requires Feasible(PoolsShut(s).(ctl := Clearing(FILE_OUT)), rest)
    ensures var acts := [BeginStop, ControlAct, ControlAct] + rest;
            Feasible(s, acts) && Run(s, acts) == Run(PoolsShut(s).(ctl := Clearing(FILE_OUT)), rest)
  {
    var s1 := SysDo(s, BeginStop);
    var s2 := SysDo(s1, ControlAct);
    var s3 := SysDo(s2, ControlAct);
    assert s3 == PoolsShut(s).(ctl := Clearing(FILE_OUT));
    Unfold(s2, ControlAct, rest);
    Unfold(s1, ControlAct, [ControlAct] + rest);
    Unfold(s, BeginStop, [ControlAct] + ([ControlAct] + rest));
    assert [BeginStop] + ([ControlAct] + ([ControlAct] + rest)) == [BeginStop, ControlAct, ControlAct] + rest;
  }

  lemma Unfold(s: Sys, act: Act, rest: seq<Act>)
    ensures Feasible(s, [act] + rest) <==> Enabled(s, act) && Feasible(SysDo(s, act), rest)
    ensures Run(s, [act] + rest) == Run(SysDo(s, act), rest)
  {
    assert ([act] + rest)[1..] == rest;
  }

  // --- A stop reaches its end

  predicate Stopping(ctl: Ctl) {
    ctl.ShuttingPools? || ctl.Clearing? || ctl.ShuttingQueue? || ctl.Joining?
  }

  /** Control steps to go until file-out's running flag has been looked at. */
  function Ahead(ctl: Ctl): nat {
    match ctl
    case ShuttingPools(k) => if k == 0 then 3 else 2
    case Clearing(i) => if i < FILE_OUT then 0 else 1
    case _ => 0
  }

  lemma ControlGetsAhead(s: Sys)
    requires Stopping(s.ctl) && Lifecycle(s) && Ahead(s.ctl) > 0
    ensures Enabled(s, ControlAct) && Stopping(ControlDo(s).ctl) && Ahead(ControlDo(s).ctl) < Ahead(s.ctl)
  {
  }

  /** The next step of a stop that does not wait for luck: the control thread's, or that of the thread it joins. */
  function NextAct(s: Sys): Act {
    if s.ctl.Joining? && !Exited(s, s.ctl.unit) then ActOf(s.ctl.unit) else ControlAct
  }

  lemma NextActGoesOn(n: nat, m: nat, s: Sys)
    requires SysInv(n, m, s) && Stopping(s.ctl)
    ensures var act := NextAct(s);
            && Enabled(s, act) && !act.SpuriousWake?
            && if Ahead(s.ctl) > 0 then Stopping(SysDo(s, act).ctl) && Ahead(SysDo(s, act).ctl) < Ahead(s.ctl)
               else && (SysDo(s, act).ctl.Idle? || (Stopping(SysDo(s, act).ctl) && Ahead(SysDo(s, act).ctl) == 0))
                    && Effort(SysDo(s, act)) < Effort(s)
  {
    StopNeverStuck(n, m, s);
    if Ahead(s.ctl) > 0 {
      ControlGetsAhead(s);
    } else {
      StepLowersEffort(n, m, s, NextAct(s));
    }
  }

  lemma {:induction false} StopEndsFrom(n: nat, m: nat, s: Sys) returns (acts: seq<Act>)
    requires SysInv(n, m, s) && Stopping(s.ctl)
    ensures Feasible(s, acts) && Wakeups(acts) == 0 && Run(s, acts).ctl.Idle? && SysInv(n, m, Run(s, acts))
    decreases Ahead(s.ctl), Effort(s)
  {
    hide SysInv, SysDo, Enabled, Effort;
    var act := NextAct(s);
    NextActGoesOn(n, m, s);
    SysInvKept(n, m, s, act);
    var rest := [];
    if !SysDo(s, act).ctl.Idle? {
      rest := StopEndsFrom(n, m, SysDo(s, act));
    }
    Unfold(s, act, rest);
    acts := [act] + rest;
    assert acts[1..] == rest;
  }

  /** From every reachable state inside a stop some schedule without any spurious wakeup lets the stop
      return, with every thread joined; StopTakesBoundedSteps says that no schedule goes on for longer. */
  lemma StopReturns(n: nat, m: nat, acts: seq<Act>, s: Sys) returns (rest: seq<Act>)
    requires Reaches(n, m, acts, s) && Stopping(s.ctl)
    ensures Feasible(s, rest) && Wakeups(rest) == 0
    ensures var t := Run(s, rest);
            && t.ctl.Idle?
            && forall unit: nat | unit <= FILE_OUT ::
                 Gone(t, unit) && LifeOf(t, unit).launches == LifeOf(t, unit).joins
  {
    ReachableInv(n, m, acts, s);
    rest := StopEndsFrom(n, m, s);
    forall unit: nat | unit <= FILE_OUT
      ensures Gone(Run(s, rest), unit) && LifeOf(Run(s, rest), unit).launches == LifeOf(Run(s, rest), unit).joins
    {
      assert Tallied(Run(s, rest), unit);
    }
  }

  // --- Deadlock

  predicate AllAsleep(s: Sys) {
    Asleep(s, CAMERA) && Asleep(s, PROVIDER) && Asleep(s, CONVERSION) && Asleep(s, FILE_OUT)
  }

  /** If all four threads sleep, every input slot has been lost. */
  lemma SleepMeansAllLost(n: nat, m: nat, s: Sys, x: nat)
    requires SysInv(n, m, s) && AllAsleep(s) && x < n
    ensures x in s.abandoned
  {
    assert InPlaces(s, x) == Count(x < n);
    assert OutPlaces(s, 0) == Count(0 < m);
  }

  /** No deadlock as long as the service has been started at most as often as pool_in has slots. */
  lemma NoDeadlock(n: nat, m: nat, acts: seq<Act>, s: Sys)
    requires Reaches(n, m, acts, s) && s.starts <= n
    ensures !AllAsleep(s)
  {
    ReachableInv(n, m, acts, s);
    SomeAwake(n, m, s);
  }

  lemma SomeAwake(n: nat, m: nat, s: Sys)
    requires SysInv(n, m, s) && s.starts <= n
    ensures !AllAsleep(s)
  {
    assert Tallied(s, CONVERSION);
    if AllAsleep(s) {
      forall x: nat | x < n ensures x in s.abandoned {
        SleepMeansAllLost(n, m, s, x);
      }
      assert Range(n) <= s.abandoned;
      SubsetSize(Range(n), s.abandoned);
    }
  }

  lemma SubsetSize(a: set<nat>, b: set<nat>)
    requires a <= b
    ensures |a| <= |b|
  {
    assert b == a + (b - a);
  }

  // --- Order and content

  /** Increasing numbers below count that leave none out are 0, 1, 2 and so on. */
  lemma {:induction false} PathIsNumbered<T>(path: seq<Tagged<T>>, count: nat, i: nat)
    requires Increasing(path) && Complete(count, {}, path) && i < |path|
    requires forall j :: 0 <= j < |path| ==> path[j].serial < count
    ensures path[i].serial == i
  {
    forall j: nat | j < i ensures path[j].serial == j {
      PathIsNumbered(path, count, j);
    }
    assert path[i].serial >= i by {
      if i > 0 { assert path[i - 1].serial == i - 1; }
    }
    assert On(path, i);
    var j: nat :| j < |path| && path[j].serial == i;
  }

  lemma PathIsWhole<T>(path: seq<Tagged<T>>, count: nat)
    requires Increasing(path) && Complete(count, {}, path)
    requires forall j :: 0 <= j < |path| ==> path[j].serial < count
    ensures |path| == count
    ensures forall i :: 0 <= i < |path| ==> path[i].serial == i
  {
    forall i | 0 <= i < |path| ensures path[i].serial == i {
      PathIsNumbered(path, count, i);
    }
    if count > 0 {
      assert On(path, count - 1);
      var j :| 0 <= j < |path| && path[j].serial == count - 1;
      assert path[j].serial == j;
    }
    if path != [] {
      assert path[|path| - 1].serial == |path| - 1;
    }
  }

  lemma ReachableFlow<A, B>(cfg: Config<A, B>, steps: seq<Step<A>>)
    requires ValidSizes(cfg.slotsIn, cfg.slotsOut) && FeasibleSteps(cfg, Init(cfg), steps)
    ensures Inv(cfg, RunSteps(cfg, Init(cfg), steps))
  {
    InitInv(cfg);
    StepsKeepInv(cfg, Init(cfg), steps);
  }

  lemma TakenFirst<T>(a: seq<T>, b: seq<T>, c: seq<T>, d: seq<T>, e: seq<T>)
    ensures a <= a + b + c + d + e
  {
  }

  /** Over any number of starts and stops: file-out handles frames in capture order, each the
      unaltered conversion of what was captured under its number; every captured frame is handled,
      still under way in the right place, or one of fewer than starts many that restarts lost. */
  lemma FramesInOrder<A, B>(cfg: Config<A, B>, steps: seq<Step<A>>)
    requires ValidSizes(cfg.slotsIn, cfg.slotsOut) && FeasibleSteps(cfg, Init(cfg), steps)
    ensures var s := RunSteps(cfg, Init(cfg), steps);
            && s.data.taken <= Path(cfg, s.sys, s.data)
            && Faithful(cfg, s.data.captured, s.data.dropped, Path(cfg, s.sys, s.data))
            && |s.data.dropped| <= if s.sys.starts == 0 then 0 else s.sys.starts - 1
  {
    var s := RunSteps(cfg, Init(cfg), steps);
    ReachableFlow(cfg, steps);
    assert Tallied(s.sys, CONVERSION);
    TakenFirst(s.data.taken, AtFile(cfg, s.sys, s.data), Outgoing(cfg, s.data, s.sys.q2.items),
               AtConversion(cfg, s.sys, s.data), Upstream(cfg, s.sys, s.data));
  }

  /** In the first run nothing is lost: what file-out has handled, followed by queue 2, conversion,
      queue 1, the stream provider, queue 0 and the camera, is exactly what was captured, converted. */
  lemma FirstRunExact<A, B>(cfg: Config<A, B>, steps: seq<Step<A>>)
    requires ValidSizes(cfg.slotsIn, cfg.slotsOut) && FeasibleSteps(cfg, Init(cfg), steps)
    requires RunSteps(cfg, Init(cfg), steps).sys.starts <= 1
    ensures var s := RunSteps(cfg, Init(cfg), steps);
            var path := Path(cfg, s.sys, s.data);
            && |path| == |s.data.captured|
            && (forall i :: 0 <= i < |path| ==> path[i] == Tagged(i, cfg.conv(s.data.captured[i])))
            && s.data.taken <= path
  {
    var s := RunSteps(cfg, Init(cfg), steps);
    var path := Path(cfg, s.sys, s.data);
    FramesInOrder(cfg, steps);
    assert s.data.dropped == {};
    PathIsWhole(path, |s.data.captured|);
  }
}
