/** The service can run dry: started once more often than pool_in has slots, it can come to
    rest with all four threads asleep for good. Together with NoDeadlock this says exactly how
    many starts are safe. */
module ServiceStarvation {
  import opened Options
  import opened BufSpec
  import opened ServiceModel
  import opened ServiceInv
  import opened ServiceSteps
  import opened ServiceFlow
  import opened ServiceTheorems

  // --- Reachability between states

  ghost predicate To(s: Sys, t: Sys) {
    exists acts: seq<Act> :: Feasible(s, acts) && Run(s, acts) == t
  }

  lemma {:induction false} RunAppend(s: Sys, a: seq<Act>, b: seq<Act>)
    requires Feasible(s, a) && Feasible(Run(s, a), b)
    ensures Feasible(s, a + b) && Run(s, a + b) == Run(Run(s, a), b)
    decreases |a|
  {
    hide SysDo, Enabled;
    if a == [] {
      assert a + b == b;
    } else {
      RunAppend(SysDo(s, a[0]), a[1..], b);
      assert (a + b)[1..] == a[1..] + b;
    }
  }

  lemma ToSelf(s: Sys)
    ensures To(s, s)
  {
    assert Feasible(s, []) && Run(s, []) == s;
  }

  lemma ToTrans(s: Sys, t: Sys, u: Sys)
    requires To(s, t) && To(t, u)
    ensures To(s, u)
  {
    var a :| Feasible(s, a) && Run(s, a) == t;
    var b :| Feasible(t, b) && Run(t, b) == u;
    RunAppend(s, a, b);
  }

  lemma Then(s: Sys, t: Sys, act: Act)
    requires To(s, t) && Enabled(t, act)
    ensures To(s, SysDo(t, act))
  {
    Unfold(t, act, []);
    assert Feasible(t, [act] + []) && Run(t, [act] + []) == SysDo(t, act);
    assert To(t, SysDo(t, act));
    ToTrans(s, t, SysDo(t, act));
  }

  lemma ToKeepsInv(n: nat, m: nat, s: Sys, t: Sys)
    requires SysInv(n, m, s) && To(s, t)
    ensures SysInv(n, m, t)
  {
    var a :| Feasible(s, a) && Run(s, a) == t;
    RunKeepsInv(n, m, s, a);
  }

  // --- One turn of each unit's loop

  /** The camera captures into the lowest free slot and queues it. */
  lemma CamTurn(s: Sys) returns (t: Sys)
    requires s.cam == CamLoop && s.camLife.running && s.poolIn.free != {} && !s.q0.Full() && s.sp == SpLoop
    ensures To(s, t)
    ensures t == s.(poolIn := s.poolIn.Take(Lowest(s.poolIn.free)), q0 := s.q0.Push(Lowest(s.poolIn.free)))
  {
    ToSelf(s);
    Then(s, s, CamAct);
    var s1 := CamDo(s);
    Then(s, s1, CamAct);
    var s2 := CamDo(s1);
    Then(s, s2, CamAct);
    var s3 := CamDo(s2);
    Then(s, s3, CamAct);
    t := CamDo(s3);
  }

  lemma SpTurn(s: Sys, x: nat) returns (t: Sys)
    requires s.sp == SpLoop && s.spLife.running && s.q0.items == [x] && !s.q1.Full() && Ready(s, CONVERSION)
    ensures To(s, t)
    ensures t == s.(q0 := s.q0.Pop(), q1 := s.q1.Push(x), refs := s.refs[x := RefCount(s.refs, x) + 1])
  {
    ToSelf(s);
    Then(s, s, SpAct);
    var s1 := SpDo(s);
    Then(s, s1, SpAct);
    var s2 := SpDo(s1);
    Then(s, s2, SpAct);
    var s3 := SpDo(s2);
    Then(s, s3, SpAct);
    t := SpDo(s3);
  }

  /** Conversion turns its one input into one more output. */
  lemma ConvTurn(s: Sys, x: nat) returns (t: Sys)
    requires s.cv == CvPop && s.q1.items == [x] && s.poolOut.free != {} && !s.q2.Full()
    requires RefCount(s.refs, x) == 1 && x !in s.poolIn.free && x < s.poolIn.slots && s.cam == CamLoop && s.fo == FoLoop
    ensures To(s, t)
    ensures t == s.(q1 := s.q1.Pop(), poolOut := s.poolOut.Take(Lowest(s.poolOut.free)),
                    q2 := s.q2.Push(Lowest(s.poolOut.free)), refs := s.refs[x := 0],
                    poolIn := s.poolIn.Release(x), cv := CvLoop(None))
  {
    hide Lowest, RefCount, Run, Feasible;
    var a := ConvTakes(s, x);
    t := ConvGives(a, x, Lowest(s.poolOut.free));
    ToTrans(s, a, t);
  }

  lemma ConvTakes(s: Sys, x: nat) returns (t: Sys)
    requires s.cv == CvPop && s.q1.items == [x] && s.poolOut.free != {}
    ensures To(s, t)
    ensures t == s.(q1 := s.q1.Pop(), poolOut := s.poolOut.Take(Lowest(s.poolOut.free)),
                    cv := CvPush(x, Lowest(s.poolOut.free)))
  {
    hide Lowest, RefCount, Run, Feasible;
    ToSelf(s);
    Then(s, s, ConvAct);
    var s1 := ConvDo(s);
    Then(s, s1, ConvAct);
    var s2 := ConvDo(s1);
    Then(s, s2, ConvAct);
    t := ConvDo(s2);
  }

  lemma ConvGives(s: Sys, x: nat, o: nat) returns (t: Sys)
    requires s.cv == CvPush(x, o) && !s.q2.Full()
    requires RefCount(s.refs, x) == 1 && x !in s.poolIn.free && x < s.poolIn.slots && s.cam == CamLoop && s.fo == FoLoop
    ensures To(s, t)
    ensures t == s.(q2 := s.q2.Push(o), refs := s.refs[x := 0], poolIn := s.poolIn.Release(x), cv := CvLoop(None))
  {
    hide RefCount, Run, Feasible;
    ToSelf(s);
    Then(s, s, ConvAct);
    var s1 := ConvDo(s);
    Then(s, s1, ConvAct);
    var s2 := ConvDo(s1);
    Then(s, s2, ConvAct);
    t := ConvDo(s2);
  }

  /** File-out handles the oldest output and frees its slot. */
  lemma FileTurn(s: Sys) returns (t: Sys)
    requires s.fo == FoLoop && s.foLife.running && s.q2.items != [] && s.cv == CvPop
    requires s.q2.items[0] !in s.poolOut.free && s.q2.items[0] < s.poolOut.slots
    ensures To(s, t)
    ensures t == s.(q2 := s.q2.Pop(), poolOut := s.poolOut.Release(s.q2.items[0]))
  {
    ToSelf(s);
    Then(s, s, FileAct);
    var s1 := FileDo(s);
    Then(s, s1, FileAct);
    var s2 := FileDo(s1);
    Then(s, s2, FileAct);
    var s3 := FileDo(s2);
    Then(s, s3, FileAct);
    t := FileDo(s3);
  }

  // --- Start and stop as a whole

  function Born(l: Life): Life {
    l.(running := true, launches := l.launches + 1)
  }

  function Buried(l: Life): Life {
    l.(running := false, joins := l.joins + 1)
  }

  function Reset(s: Sys): Sys {
    s.(poolIn := s.poolIn.(shutdown := false), poolOut := s.poolOut.(shutdown := false),
       q0 := s.q0.(shutdown := false), q1 := s.q1.(shutdown := false), q2 := s.q2.(shutdown := false),
       starts := s.starts + 1, ctl := Launching(CAMERA))
  }

  lemma ResetTurn(s: Sys) returns (t: Sys)
    requires s.ctl.Idle?
    ensures To(s, t) && t == Reset(s)
  {
    ToSelf(s);
    Then(s, s, BeginStart);
    var s1 := SysDo(s, BeginStart);
    Then(s, s1, ControlAct);
    var s2 := ControlDo(s1);
    Then(s, s2, ControlAct);
    var s3 := ControlDo(s2);
    Then(s, s3, ControlAct);
    var s4 := ControlDo(s3);
    Then(s, s4, ControlAct);
    var s5 := ControlDo(s4);
    Then(s, s5, ControlAct);
    t := ControlDo(s5);
  }

  lemma LaunchTurn(s: Sys, left: Option<nat>) returns (t: Sys)
    requires s.ctl == Launching(CAMERA) && s.cv == CvGone(left)
    ensures To(s, t)
    ensures t == s.(camLife := Born(s.camLife), spLife := Born(s.spLife), cvLife := Born(s.cvLife),
                    foLife := Born(s.foLife), cam := CamLoop, sp := SpLoop, cv := CvLoop(left), fo := FoLoop, ctl := Up)
  {
    ToSelf(s);
    Then(s, s, ControlAct);
    var s1 := ControlDo(s);
    Then(s, s1, ControlAct);
    var s2 := ControlDo(s1);
    Then(s, s2, ControlAct);
    var s3 := ControlDo(s2);
    Then(s, s3, ControlAct);
    t := ControlDo(s3);
  }

  lemma ShutPoolsTurn(s: Sys) returns (t: Sys)
    requires s.ctl.Up? && s.cam == CamLoop && s.cv.CvAcquire?
    ensures To(s, t)
    ensures t == s.(poolIn := s.poolIn.(shutdown := true), poolOut := s.poolOut.(shutdown := true),
                    ctl := Clearing(FILE_OUT))
  {
    ToSelf(s);
    Then(s, s, BeginStop);
    var s1 := SysDo(s, BeginStop);
    Then(s, s1, ControlAct);
    var s2 := ControlDo(s1);
    Then(s, s2, ControlAct);
    t := ControlDo(s2);
  }

  lemma StopFile(s: Sys) returns (t: Sys)
    requires s.ctl == Clearing(FILE_OUT) && s.fo == FoLoop && s.foLife.running
    ensures To(s, t)
    ensures t == s.(fo := FoGone, foLife := Buried(s.foLife), q2 := s.q2.(shutdown := true),
                    ctl := Clearing(CONVERSION))
  {
    ToSelf(s);
    Then(s, s, ControlAct);
    var s1 := ControlDo(s);
    Then(s, s1, FileAct);
    var s2 := FileDo(s1);
    Then(s, s2, ControlAct);
    var s3 := ControlDo(s2);
    Then(s, s3, ControlAct);
    t := ControlDo(s3);
  }

  /** Conversion is refused an output slot and leaves its loop with the input slot x. */
  lemma StopConversion(s: Sys, x: nat) returns (t: Sys)
    requires s.ctl == Clearing(CONVERSION) && s.cv == CvAcquire(x) && s.cvLife.running
    requires s.poolOut.free == {} && s.poolOut.shutdown
    ensures To(s, t)
    ensures t == s.(cv := CvGone(Some(x)), cvLife := Buried(s.cvLife), q1 := s.q1.(shutdown := true),
                    ctl := Clearing(PROVIDER))
  {
    ToSelf(s);
    Then(s, s, ControlAct);
    var s1 := ControlDo(s);
    Then(s, s1, ConvAct);
    var s2 := ConvDo(s1);
    Then(s, s2, ControlAct);
    var s3 := ControlDo(s2);
    Then(s, s3, ControlAct);
    t := ControlDo(s3);
  }

  lemma StopProvider(s: Sys) returns (t: Sys)
    requires s.ctl == Clearing(PROVIDER) && s.sp == SpLoop && s.spLife.running
    ensures To(s, t)
    ensures t == s.(sp := SpGone, spLife := Buried(s.spLife), q0 := s.q0.(shutdown := true), ctl := Clearing(CAMERA))
  {
    ToSelf(s);
    Then(s, s, ControlAct);
    var s1 := ControlDo(s);
    Then(s, s1, SpAct);
    var s2 := SpDo(s1);
    Then(s, s2, ControlAct);
    var s3 := ControlDo(s2);
    Then(s, s3, ControlAct);
    t := ControlDo(s3);
  }

  lemma StopCamera(s: Sys) returns (t: Sys)
    requires s.ctl == Clearing(CAMERA) && s.cam == CamLoop && s.camLife.running
    ensures To(s, t)
    ensures t == s.(cam := CamGone, camLife := Buried(s.camLife), ctl := Idle)
  {
    ToSelf(s);
    Then(s, s, ControlAct);
    var s1 := ControlDo(s);
    Then(s, s1, CamAct);
    var s2 := CamDo(s1);
    Then(s, s2, ControlAct);
    t := ControlDo(s2);
  }

  // --- The run that loses one slot per restart

  /** Stopped with every output slot in queue 2 and conversion still holding an input slot. */
  ghost predicate Parked(n: nat, m: nat, s: Sys, starts: nat) {
    && SysInv(n, m, s)
    && s.ctl.Idle? && s.starts == starts
    && s.poolOut.free == {} && s.q0.items == [] && s.q1.items == []
    && s.cv.CvGone? && s.cv.left.Some?
    && |s.abandoned| + 1 == starts
  }

  /** Up, every unit before its loop test or before its pop, no input frame under way, nothing asleep. */
  ghost predicate Fresh(n: nat, m: nat, s: Sys, starts: nat) {
    && SysInv(n, m, s)
    && s.ctl.Up? && s.starts == starts
    && s.q0.items == [] && s.q1.items == []
    && s.cam == CamLoop && s.sp == SpLoop && s.cv == CvPop && s.fo == FoLoop
    && |s.abandoned| + 1 == starts
  }

  lemma FreshFree(n: nat, m: nat, s: Sys, starts: nat)
    requires Fresh(n, m, s, starts)
    ensures s.poolIn.free == Range(n) - s.abandoned && s.abandoned <= Range(n)
    ensures |s.poolIn.free| == n - |s.abandoned|
    ensures forall x: nat :: Times(s.q2.items, x) == Count(x < m && x !in s.poolOut.free)
  {
    forall x: nat
      ensures x in s.poolIn.free <==> x in Range(n) && x !in s.abandoned
      ensures x in s.abandoned ==> x in Range(n)
    {
      assert InPlaces(s, x) == Count(x < n);
    }
    assert Range(n) == s.poolIn.free + s.abandoned;
    forall x: nat ensures Times(s.q2.items, x) == Count(x < m && x !in s.poolOut.free) {
      assert OutPlaces(s, x) == Count(x < m);
    }
  }

  /** Camera, stream provider and conversion bring one more input slot up to the acquire. */
  lemma BringUp(n: nat, m: nat, s: Sys, starts: nat) returns (t: Sys, x: nat)
    requires Fresh(n, m, s, starts) && s.poolIn.free != {}
    ensures To(s, t) && SysInv(n, m, t)
    ensures x in s.poolIn.free && t.poolIn.free == s.poolIn.free - {x}
    ensures t == s.(poolIn := t.poolIn, refs := t.refs, q1 := s.q1.Push(x))
    ensures RefCount(t.refs, x) == 1
  {
    var a := CamTurn(s);
    x := Lowest(s.poolIn.free);
    t := SpTurn(a, x);
    ToTrans(s, a, t);
    ToKeepsInv(n, m, s, t);
    assert Referenced(t, x);
    assert t.q0 == s.q0;
  }

  /** With file-out not yet scheduled, conversions pile up in queue 2 until pool_out is empty. */
  lemma {:induction false} FillOut(n: nat, m: nat, s: Sys, starts: nat) returns (t: Sys)
    requires Fresh(n, m, s, starts) && s.poolIn.free != {}
    ensures To(s, t) && Fresh(n, m, t, starts)
    ensures t.poolOut.free == {} && t.poolIn.free == s.poolIn.free
    decreases |s.poolOut.free|
  {
    if s.poolOut.free == {} {
      t := s;
      ToSelf(s);
    } else {
      var b := ConvertOne(n, m, s, starts);
      t := FillOut(n, m, b, starts);
      ToTrans(s, b, t);
    }
  }

  /** While an output slot is free, queue 2 has room. */
  lemma RoomInQueue2(n: nat, m: nat, s: Sys)
    requires SysInv(n, m, s) && s.poolOut.free != {}
    ensures !s.q2.Full()
  {
    var y := Lowest(s.poolOut.free);
    assert OutPlaces(s, y) == Count(y < m);
    forall x: nat ensures Times(s.q2.items, x) <= Count(x < m && x != y) {
      assert OutPlaces(s, x) == Count(x < m);
    }
    RoomBesides(m, s.q2.items, y);
  }

  lemma ConvertOne(n: nat, m: nat, s: Sys, starts: nat) returns (t: Sys)
    requires Fresh(n, m, s, starts) && s.poolIn.free != {} && s.poolOut.free != {}
    ensures To(s, t) && Fresh(n, m, t, starts)
    ensures |t.poolOut.free| < |s.poolOut.free| && t.poolIn.free == s.poolIn.free
  {
    RoomInQueue2(n, m, s);
    var a, x := BringUp(n, m, s, starts);
    assert InPlaces(s, x) == Count(x < n);
    assert a.q1.items == [x];
    var b := ConvTurn(a, x);
    ToTrans(s, a, b);
    Then(s, b, ConvAct);
    t := ConvDo(b);
    ToKeepsInv(n, m, s, t);
    assert t.poolIn.free == s.poolIn.free - {x} + {x};
    assert t.poolOut.free == s.poolOut.free - {Lowest(s.poolOut.free)};
  }

  /** Conversion takes one more input, is refused an output slot, and the service stops. */
  lemma Park(n: nat, m: nat, s: Sys, starts: nat) returns (t: Sys)
    requires Fresh(n, m, s, starts) && s.poolIn.free != {} && s.poolOut.free == {}
    ensures To(s, t) && Parked(n, m, t, starts)
  {
    hide Lowest, RefCount, Owned, Counted, SleepersWaitForNews, Tallied, LossBounded, Run, Feasible;
    var a, x := BringUp(n, m, s, starts);
    Then(s, a, ConvAct);
    var b := ConvDo(a);
    assert a.q1.items == [x];
    var c := ShutPoolsTurn(b);
    ToTrans(s, b, c);
    var d := StopFile(c);
    ToTrans(s, c, d);
    var e := StopConversion(d, x);
    ToTrans(s, d, e);
    var f := StopProvider(e);
    ToTrans(s, e, f);
    t := StopCamera(f);
    ToTrans(s, f, t);
    ToKeepsInv(n, m, s, t);
  }

  /** A restart loses the slot conversion was left with. */
  lemma Restart(n: nat, m: nat, s: Sys, starts: nat) returns (t: Sys)
    requires Parked(n, m, s, starts)
    ensures To(s, t) && Fresh(n, m, t, starts + 1) && t.poolOut.free == {}
  {
    var a := ResetTurn(s);
    var b := LaunchTurn(a, s.cv.left);
    ToTrans(s, a, b);
    ToKeepsInv(n, m, s, b);
    LossGrowsByOne(n, m, b);
    Then(s, b, ConvAct);
    t := ConvDo(b);
    ToKeepsInv(n, m, s, t);
  }

  lemma FirstStart(n: nat, m: nat) returns (t: Sys)
    requires ValidSizes(n, m)
    ensures To(InitSys(n, m), t) && Fresh(n, m, t, 1) && t.poolIn.free == Range(n)
  {
    var s := InitSys(n, m);
    InitSysInv(n, m);
    var a := ResetTurn(s);
    var b := LaunchTurn(a, None);
    ToTrans(s, a, b);
    Then(s, b, ConvAct);
    t := ConvDo(b);
    ToKeepsInv(n, m, s, t);
  }

  lemma {:induction false} LoseAll(n: nat, m: nat, s: Sys, starts: nat) returns (t: Sys)
    requires Fresh(n, m, s, starts) && s.poolOut.free == {} && 1 <= starts <= n + 1
    ensures To(s, t) && Fresh(n, m, t, n + 1)
    decreases n + 1 - starts
  {
    FreshFree(n, m, s, starts);
    if starts == n + 1 {
      t := s;
      ToSelf(s);
    } else {
      var a := Park(n, m, s, starts);
      var b := Restart(n, m, a, starts);
      ToTrans(s, a, b);
      t := LoseAll(n, m, b, starts + 1);
      ToTrans(s, b, t);
    }
  }

  lemma {:induction false} Drain(n: nat, m: nat, s: Sys, starts: nat) returns (t: Sys)
    requires Fresh(n, m, s, starts)
    ensures To(s, t) && Fresh(n, m, t, starts) && t.q2.items == []
    decreases |s.q2.items|
  {
    if s.q2.items == [] {
      t := s;
      ToSelf(s);
    } else {
      assert OutPlaces(s, s.q2.items[0]) == Count(s.q2.items[0] < m);
      var a := FileTurn(s);
      ToKeepsInv(n, m, s, a);
      t := Drain(n, m, a, starts);
      ToTrans(s, a, t);
    }
  }

  lemma FallAsleep(s: Sys) returns (t: Sys)
    requires s.cam == CamLoop && s.sp == SpLoop && s.cv == CvPop && s.fo == FoLoop && FlagsClear(s)
    requires s.camLife.running && s.spLife.running && s.cvLife.running && s.foLife.running
    requires s.poolIn.free == {} && s.q0.items == [] && s.q1.items == [] && s.q2.items == []
    ensures To(s, t) && AllAsleep(t) && t.starts == s.starts && t.ctl == s.ctl
  {
    ToSelf(s);
    Then(s, s, CamAct);
    var s1 := CamDo(s);
    Then(s, s1, CamAct);
    var s2 := CamDo(s1);
    Then(s, s2, SpAct);
    var s3 := SpDo(s2);
    Then(s, s3, SpAct);
    var s4 := SpDo(s3);
    Then(s, s4, ConvAct);
    var s5 := ConvDo(s4);
    Then(s, s5, FileAct);
    var s6 := FileDo(s5);
    Then(s, s6, FileAct);
    t := FileDo(s6);
  }

  /** For all pool sizes, one start more than pool_in has slots is enough: some schedule leaves
      the running service with all four threads asleep. */
  lemma OneStartTooMany(n: nat, m: nat) returns (acts: seq<Act>)
    requires ValidSizes(n, m)
    ensures var s := Run(InitSys(n, m), acts);
            Reaches(n, m, acts, s) && s.ctl.Up? && AllAsleep(s) && s.starts == n + 1
  {
    var s := InitSys(n, m);
    var a := FirstStart(n, m);
    assert 0 in Range(n);
    var b := FillOut(n, m, a, 1);
    ToTrans(s, a, b);
    var c := LoseAll(n, m, b, 1);
    ToTrans(s, b, c);
    var d := Drain(n, m, c, n + 1);
    ToTrans(s, c, d);
    FreshFree(n, m, d, n + 1);
    var e := FallAsleep(d);
    ToTrans(s, d, e);
    acts :| Feasible(s, acts) && Run(s, acts) == e;
    LeadsIsRun(s, acts, e);
  }

  /** Exactly which numbers of starts are safe: a running service can be all asleep after k starts
      for some k up to a limit, if and only if the limit exceeds the number of input slots. */
  lemma SafeStarts(n: nat, m: nat, limit: nat)
    requires ValidSizes(n, m)
    ensures (exists acts: seq<Act> ::
               Feasible(InitSys(n, m), acts) && Run(InitSys(n, m), acts).starts <= limit
               && AllAsleep(Run(InitSys(n, m), acts)))
            <==> limit > n
  {
    if limit > n {
      var acts := OneStartTooMany(n, m);
      LeadsIsRun(InitSys(n, m), acts, Run(InitSys(n, m), acts));
    } else {
      forall acts: seq<Act> | Feasible(InitSys(n, m), acts) && Run(InitSys(n, m), acts).starts <= limit
        ensures !AllAsleep(Run(InitSys(n, m), acts))
      {
        LeadsIsRun(InitSys(n, m), acts, Run(InitSys(n, m), acts));
        NoDeadlock(n, m, acts, Run(InitSys(n, m), acts));
      }
    }
  }

  /** Once every input slot is lost the camera never holds one again, so no schedule captures another frame. */
  lemma {:induction false} NeverRecovers(n: nat, m: nat, s: Sys, acts: seq<Act>)
    requires SysInv(n, m, s) && Feasible(s, acts)
    requires forall x: nat | x < n :: x in s.abandoned
    ensures forall x: nat | x < n :: x in Run(s, acts).abandoned
    ensures forall x: nat :: !CamHas(Run(s, acts).cam, x)
    decreases |acts|
  {
    if acts == [] {
      forall x: nat ensures !CamHas(s.cam, x) {
        assert InPlaces(s, x) == Count(x < n);
      }
    } else {
      SysInvKept(n, m, s, acts[0]);
      LossesStay(s, acts[0]);
      NeverRecovers(n, m, SysDo(s, acts[0]), acts[1..]);
    }
  }

  lemma LossesStay(s: Sys, act: Act)
    ensures s.abandoned <= SysDo(s, act).abandoned
  {
  }
}
