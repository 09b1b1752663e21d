/** Order and content: whatever the schedule, frames reach the output file in capture order,
    converted, and unaltered in between. */
module ServiceFlow {
  import opened Options
  import opened BufSpec
  import opened ServiceModel
  import opened ServiceInv
  import opened ServiceSteps

  /** The frames in a queue of captured slots, oldest first, as file-out will see them. */
  function Upcoming<A, B>(cfg: Config<A, B>, d: Data<A, B>, items: seq<nat>): seq<Tagged<B>> {
    seq(|items|, i requires 0 <= i < |items| => Converted(cfg, InFrame(cfg, d, items[i])))
  }

  /** The frames in a queue of converted slots. */
  function Outgoing<A, B>(cfg: Config<A, B>, d: Data<A, B>, items: seq<nat>): seq<Tagged<B>> {
    seq(|items|, i requires 0 <= i < |items| => OutFrame(cfg, d, items[i]))
  }

  function AtFile<A, B>(cfg: Config<A, B>, s: Sys, d: Data<A, B>): seq<Tagged<B>> {
    if s.fo.FoWrite? then [OutFrame(cfg, d, s.fo.fb)] else []
  }

  /** Conversion's frame counts once: as its output from the conversion to the push, and not at
      all afterwards, when the output is already in queue 2 and only the input must be dropped. */
  function AtConversion<A, B>(cfg: Config<A, B>, s: Sys, d: Data<A, B>): seq<Tagged<B>> {
    if s.cv.CvPush? then [OutFrame(cfg, d, s.cv.outFb)]
    else if s.cv.CvUnref? || s.cv.CvRelease? || CvIn(s.cv).None? then []
    else [Converted(cfg, InFrame(cfg, d, CvIn(s.cv).value))]
  }

  function AtProvider<A, B>(cfg: Config<A, B>, s: Sys, d: Data<A, B>): seq<Tagged<B>> {
    if s.sp.SpRef? || s.sp.SpPush? then [Converted(cfg, InFrame(cfg, d, s.sp.fb))] else []
  }

  function AtCamera<A, B>(cfg: Config<A, B>, s: Sys, d: Data<A, B>): seq<Tagged<B>> {
    if s.cam.CamPush? then [Converted(cfg, InFrame(cfg, d, s.cam.fb))] else []
  }

  /** Everything handled by file-out or past conversion. */
  function Downstream<A, B>(cfg: Config<A, B>, s: Sys, d: Data<A, B>): seq<Tagged<B>> {
    d.taken + AtFile(cfg, s, d) + Outgoing(cfg, d, s.q2.items)
  }

  /** Everything captured that conversion has not popped. */
  function Upstream<A, B>(cfg: Config<A, B>, s: Sys, d: Data<A, B>): seq<Tagged<B>> {
    Upcoming(cfg, d, s.q1.items) + AtProvider(cfg, s, d) + Upcoming(cfg, d, s.q0.items) + AtCamera(cfg, s, d)
  }

  /** Every frame from the oldest handled by file-out to the one just captured. */
  function Path<A, B>(cfg: Config<A, B>, s: Sys, d: Data<A, B>): seq<Tagged<B>> {
    Downstream(cfg, s, d) + AtConversion(cfg, s, d) + Upstream(cfg, s, d)
  }

  ghost predicate On<T>(path: seq<Tagged<T>>, serial: nat) {
    exists i :: 0 <= i < |path| && path[i].serial == serial
  }

  ghost predicate Increasing<T>(path: seq<Tagged<T>>) {
    forall i, j :: 0 <= i < j < |path| ==> path[i].serial < path[j].serial
  }

  /** Each frame is the conversion of the frame captured under its number. */
  ghost predicate Genuine<A, B>(cfg: Config<A, B>, captured: seq<A>, path: seq<Tagged<B>>) {
    forall i :: 0 <= i < |path| ==>
      path[i].serial < |captured| && path[i].frame == cfg.conv(captured[path[i].serial])
  }

  /** A captured frame is on the path or was dropped, and not both. */
  ghost predicate Complete<T>(count: nat, dropped: set<nat>, path: seq<Tagged<T>>) {
    && (forall k | k in dropped :: k < count && !On(path, k))
    && (forall k: nat | k < count :: k in dropped || On(path, k))
  }

  ghost predicate Faithful<A, B>(cfg: Config<A, B>, captured: seq<A>, dropped: set<nat>, path: seq<Tagged<B>>) {
    Increasing(path) && Genuine(cfg, captured, path) && Complete(|captured|, dropped, path)
  }

  ghost predicate Inv<A, B>(cfg: Config<A, B>, s: State<A, B>) {
    && SysInv(cfg.slotsIn, cfg.slotsOut, s.sys)
    && Faithful(cfg, s.data.captured, s.data.dropped, Path(cfg, s.sys, s.data))
    && |s.data.dropped| == |s.sys.abandoned|
  }

  // --- Bookkeeping on the path's parts

  lemma UpcomingPush<A, B>(cfg: Config<A, B>, d: Data<A, B>, items: seq<nat>, x: nat)
    ensures Upcoming(cfg, d, items + [x]) == Upcoming(cfg, d, items) + [Converted(cfg, InFrame(cfg, d, x))]
  {
  }

  lemma UpcomingPop<A, B>(cfg: Config<A, B>, d: Data<A, B>, items: seq<nat>)
    requires items != []
    ensures Upcoming(cfg, d, items) == [Converted(cfg, InFrame(cfg, d, items[0]))] + Upcoming(cfg, d, items[1..])
  {
  }

  lemma OutgoingPush<A, B>(cfg: Config<A, B>, d: Data<A, B>, items: seq<nat>, x: nat)
    ensures Outgoing(cfg, d, items + [x]) == Outgoing(cfg, d, items) + [OutFrame(cfg, d, x)]
  {
  }

  lemma OutgoingPop<A, B>(cfg: Config<A, B>, d: Data<A, B>, items: seq<nat>)
    requires items != []
    ensures Outgoing(cfg, d, items) == [OutFrame(cfg, d, items[0])] + Outgoing(cfg, d, items[1..])
  {
  }

  lemma Regroup<T>(before: seq<T>, a: seq<T>, b: seq<T>)
    ensures before + a + b == before + (a + b)
  {
  }

  // --- Every step but a capture and a loss leaves the path as it is

  /** A path depends on what the queues hold and the threads have in hand. */
  lemma SamePath<A, B>(cfg: Config<A, B>, s: Sys, t: Sys, d: Data<A, B>)
    requires t.q0.items == s.q0.items && t.q1.items == s.q1.items && t.q2.items == s.q2.items
    requires AtFile(cfg, t, d) == AtFile(cfg, s, d) && AtConversion(cfg, t, d) == AtConversion(cfg, s, d)
    requires AtProvider(cfg, t, d) == AtProvider(cfg, s, d) && AtCamera(cfg, t, d) == AtCamera(cfg, s, d)
    ensures Path(cfg, t, d) == Path(cfg, s, d)
  {
    hide Upcoming, Outgoing, AtFile, AtConversion, AtProvider, AtCamera;
  }

  lemma CamKeepsPath<A, B>(cfg: Config<A, B>, s: Sys, d: Data<A, B>)
    requires !s.cam.CamCapture?
    requires s.cam.CamPush? ==> !s.q0.Full()
    ensures Path(cfg, CamDo(s), d) == Path(cfg, s, d)
  {
    hide Path, Upcoming, Outgoing, Converted, InFrame, OutFrame, Lowest, AcquireTest;
    if s.cam.CamPush? {
      CamPushKeepsPath(cfg, s, d);
    } else {
      SamePath(cfg, s, CamDo(s), d);
    }
  }

  lemma CamPushKeepsPath<A, B>(cfg: Config<A, B>, s: Sys, d: Data<A, B>)
    requires s.cam.CamPush? && !s.q0.Full()
    ensures Path(cfg, CamDo(s), d) == Path(cfg, s, d)
  {
    hide Upcoming, Outgoing, Converted, InFrame, OutFrame, AtFile, AtConversion;
    var t := CamDo(s);
    UpcomingPush(cfg, d, s.q0.items, s.cam.fb);
    Regroup(Upcoming(cfg, d, s.q1.items) + AtProvider(cfg, s, d), Upcoming(cfg, d, s.q0.items), AtCamera(cfg, s, d));
    SameUnits(cfg, s, t, d);
    assert Upstream(cfg, t, d) == Upstream(cfg, s, d);
  }

  /** What a unit has in hand depends on nothing but its own position. */
  lemma SameUnits<A, B>(cfg: Config<A, B>, s: Sys, t: Sys, d: Data<A, B>)
    ensures t.fo == s.fo ==> AtFile(cfg, t, d) == AtFile(cfg, s, d)
    ensures t.cv == s.cv ==> AtConversion(cfg, t, d) == AtConversion(cfg, s, d)
    ensures t.sp == s.sp ==> AtProvider(cfg, t, d) == AtProvider(cfg, s, d)
    ensures t.cam == s.cam ==> AtCamera(cfg, t, d) == AtCamera(cfg, s, d)
  {
  }

  lemma SpKeepsPath<A, B>(cfg: Config<A, B>, s: Sys, d: Data<A, B>)
    requires s.sp.SpPush? ==> !s.q1.Full()
    ensures Path(cfg, SpDo(s), d) == Path(cfg, s, d)
  {
    hide Path, Upcoming, Outgoing, Converted, InFrame, OutFrame, RefCount;
    if s.sp.SpPop? && s.q0.items != [] {
      SpPopKeepsPath(cfg, s, d);
    } else if s.sp.SpPush? {
      SpPushKeepsPath(cfg, s, d);
    } else {
      SamePath(cfg, s, SpDo(s), d);
    }
  }

  lemma SpPopKeepsPath<A, B>(cfg: Config<A, B>, s: Sys, d: Data<A, B>)
    requires s.sp.SpPop? && s.q0.items != []
    ensures Path(cfg, SpDo(s), d) == Path(cfg, s, d)
  {
    hide Upcoming, Outgoing, Converted, InFrame, OutFrame, AtFile, AtConversion, AtCamera, RefCount;
    var t := SpDo(s);
    UpcomingPop(cfg, d, s.q0.items);
    Regroup(Upcoming(cfg, d, s.q1.items), AtProvider(cfg, t, d), Upcoming(cfg, d, t.q0.items));
    SameUnits(cfg, s, t, d);
    assert Upstream(cfg, t, d) == Upstream(cfg, s, d);
  }

  lemma SpPushKeepsPath<A, B>(cfg: Config<A, B>, s: Sys, d: Data<A, B>)
    requires s.sp.SpPush? && !s.q1.Full()
    ensures Path(cfg, SpDo(s), d) == Path(cfg, s, d)
  {
    hide Upcoming, Outgoing, Converted, InFrame, OutFrame, AtFile, AtCamera, RefCount;
    var t := SpDo(s);
    UpcomingPush(cfg, d, s.q1.items, s.sp.fb);
    SameUnits(cfg, s, t, d);
    assert Upstream(cfg, t, d) == Upstream(cfg, s, d);
  }

  lemma ConvPopKeepsPath<A, B>(cfg: Config<A, B>, s: Sys, d: Data<A, B>)
    requires s.cv.CvPop?
    ensures Path(cfg, ConvDo(s), d) == Path(cfg, s, d)
  {
    hide Upcoming, Outgoing, Converted, InFrame, OutFrame, AtFile, AtProvider, AtCamera;
    var t := ConvDo(s);
    SameUnits(cfg, s, t, d);
    if s.q1.items != [] {
      UpcomingPop(cfg, d, s.q1.items);
      var first := AtConversion(cfg, t, d);
      Prepend(first, Upcoming(cfg, d, t.q1.items), AtProvider(cfg, s, d), Upcoming(cfg, d, s.q0.items),
              AtCamera(cfg, s, d));
      assert Upstream(cfg, s, d) == first + Upstream(cfg, t, d);
      Regroup(Downstream(cfg, s, d), first, Upstream(cfg, t, d));
      assert Downstream(cfg, s, d) + [] == Downstream(cfg, s, d);
    }
  }

  lemma Prepend<T>(x: seq<T>, a: seq<T>, b: seq<T>, c: seq<T>, d: seq<T>)
    ensures x + a + b + c + d == x + (a + b + c + d)
  {
  }

  lemma ConvPushKeepsPath<A, B>(cfg: Config<A, B>, s: Sys, d: Data<A, B>)
    requires s.cv.CvPush? && !s.q2.Full()
    ensures Path(cfg, ConvDo(s), d) == Path(cfg, s, d)
  {
    hide Upcoming, Outgoing, Converted, InFrame, OutFrame, AtProvider, AtCamera;
    var t := ConvDo(s);
    SameUnits(cfg, s, t, d);
    OutgoingPush(cfg, d, s.q2.items, s.cv.outFb);
    assert Downstream(cfg, s, d) + AtConversion(cfg, s, d) == Downstream(cfg, t, d) + AtConversion(cfg, t, d);
  }

  /** Writing an output slot alters no frame on the path: nothing on the path is in that slot. */
  lemma ConvertKeepsPath<A, B>(cfg: Config<A, B>, s: State<A, B>, step: Step<A>)
    requires Owned(s.sys) && s.sys.cv.CvConvert? && step.act.ConvAct?
    ensures Path(cfg, ConvDo(s.sys), DataDo(cfg, s.sys, s.data, step)) == Path(cfg, s.sys, s.data)
  {
    hide Owned, Upcoming, Outgoing, Converted;
    var o := s.sys.cv.outFb;
    var e := DataDo(cfg, s.sys, s.data, step);
    ConvertedAlone(s.sys);
    OtherOutputs(cfg, s.data, e, o, s.sys.q2.items);
    SameInputs(cfg, s.data, e, s.sys.q1.items);
    SameInputs(cfg, s.data, e, s.sys.q0.items);
  }

  /** The slot a conversion fills is nowhere else. */
  lemma ConvertedAlone(s: Sys)
    requires Owned(s) && s.cv.CvConvert?
    ensures s.cv.outFb !in s.q2.items && !FoHas(s.fo, s.cv.outFb)
  {
    assert OutPlaces(s, s.cv.outFb) == Count(s.cv.outFb < s.poolOut.slots);
  }

  lemma OtherOutputs<A, B>(cfg: Config<A, B>, d: Data<A, B>, e: Data<A, B>, x: nat, items: seq<nat>)
    requires x !in items && forall y: nat | y != x :: OutFrame(cfg, e, y) == OutFrame(cfg, d, y)
    ensures Outgoing(cfg, e, items) == Outgoing(cfg, d, items)
  {
  }

  lemma SameInputs<A, B>(cfg: Config<A, B>, d: Data<A, B>, e: Data<A, B>, items: seq<nat>)
    requires e.ins == d.ins
    ensures Upcoming(cfg, e, items) == Upcoming(cfg, d, items)
  {
  }

  lemma ConvIdlesOnPath<A, B>(cfg: Config<A, B>, s: Sys, d: Data<A, B>)
    requires s.cv.CvLoop? || s.cv.CvAcquire? || s.cv.CvUnref? || s.cv.CvRelease?
    requires s.cv.CvUnref? ==> RefCount(s.refs, s.cv.inFb) == 1
    requires s.cv.CvLoop? && s.cvLife.running ==> s.cv.left.None?
    ensures Path(cfg, ConvDo(s), d) == Path(cfg, s, d)
  {
    hide Path, Upcoming, Outgoing, Converted, InFrame, OutFrame, AtFile, AtProvider, RefCount, Lowest, AcquireTest;
    SameUnits(cfg, s, ConvDo(s), d);
    SamePath(cfg, s, ConvDo(s), d);
  }

  lemma ConvKeepsPath<A, B>(cfg: Config<A, B>, s: State<A, B>, step: Step<A>)
    requires Owned(s.sys) && step.act.ConvAct? && Ready(s.sys, CONVERSION)
    requires s.sys.cv.CvPush? ==> !s.sys.q2.Full()
    requires s.sys.cv.CvUnref? ==> RefCount(s.sys.refs, s.sys.cv.inFb) == 1
    requires s.sys.cv.CvLoop? && s.sys.cvLife.running ==> s.sys.cv.left.None?
    ensures Path(cfg, ConvDo(s.sys), DataDo(cfg, s.sys, s.data, step)) == Path(cfg, s.sys, s.data)
  {
    if s.sys.cv.CvPop? {
      ConvPopKeepsPath(cfg, s.sys, s.data);
    } else if s.sys.cv.CvConvert? {
      ConvertKeepsPath(cfg, s, step);
    } else if s.sys.cv.CvPush? {
      ConvPushKeepsPath(cfg, s.sys, s.data);
    } else {
      ConvIdlesOnPath(cfg, s.sys, s.data);
    }
  }

  lemma FilePopKeepsPath<A, B>(cfg: Config<A, B>, s: Sys, d: Data<A, B>)
    requires s.fo.FoPop?
    ensures Path(cfg, FileDo(s), d) == Path(cfg, s, d)
  {
    hide Upcoming, Outgoing, Converted, InFrame, OutFrame, AtConversion, AtProvider, AtCamera;
    var t := FileDo(s);
    SameUnits(cfg, s, t, d);
    if s.q2.items != [] {
      OutgoingPop(cfg, d, s.q2.items);
      Regroup(d.taken, AtFile(cfg, t, d), Outgoing(cfg, d, t.q2.items));
      assert Downstream(cfg, s, d) == Downstream(cfg, t, d);
    }
  }

  /** A step that writes no slot leaves what the queues carry. */
  lemma SameFrames<A, B>(cfg: Config<A, B>, d: Data<A, B>, e: Data<A, B>)
    requires e.ins == d.ins && e.outs == d.outs
    ensures forall items: seq<nat> :: Upcoming(cfg, e, items) == Upcoming(cfg, d, items)
    ensures forall items: seq<nat> :: Outgoing(cfg, e, items) == Outgoing(cfg, d, items)
  {
  }

  lemma FileWriteKeepsPath<A, B>(cfg: Config<A, B>, s: State<A, B>, step: Step<A>)
    requires step.act.FileAct? && s.sys.fo.FoWrite?
    ensures Path(cfg, FileDo(s.sys), DataDo(cfg, s.sys, s.data, step)) == Path(cfg, s.sys, s.data)
  {
    hide Converted, RefCount, Lowest, Upcoming, Outgoing;
    var e := DataDo(cfg, s.sys, s.data, step);
    SameFrames(cfg, s.data, e);
    assert e.taken + [] == s.data.taken + AtFile(cfg, s.sys, s.data);
    assert Downstream(cfg, FileDo(s.sys), e) == Downstream(cfg, s.sys, s.data);
    assert Upstream(cfg, FileDo(s.sys), e) == Upstream(cfg, s.sys, s.data);
  }

  lemma FileKeepsPath<A, B>(cfg: Config<A, B>, s: State<A, B>, step: Step<A>)
    requires step.act.FileAct?
    ensures Path(cfg, FileDo(s.sys), DataDo(cfg, s.sys, s.data, step)) == Path(cfg, s.sys, s.data)
  {
    hide Path, Upcoming, Outgoing, Converted, InFrame, OutFrame, AtProvider, AtCamera;
    match s.sys.fo
    case FoPop => FilePopKeepsPath(cfg, s.sys, s.data);
    case FoWrite(_) => FileWriteKeepsPath(cfg, s, step);
    case _ =>
      SameUnits(cfg, s.sys, FileDo(s.sys), s.data);
      SamePath(cfg, s.sys, FileDo(s.sys), s.data);
  }

  lemma ControlKeepsPath<A, B>(cfg: Config<A, B>, s: Sys, d: Data<A, B>)
    requires Lifecycle(s) && Enabled(s, ControlAct)
    ensures Path(cfg, ControlDo(s), d) == Path(cfg, s, d)
  {
    hide Path;
    match s.ctl
    case Launching(i) => LaunchKeepsPath(cfg, s, d);
    case Joining(i) => JoinKeepsPath(cfg, s, d);
    case _ => SignalsKeepPath(cfg, s, d);
  }

  lemma LaunchKeepsPath<A, B>(cfg: Config<A, B>, s: Sys, d: Data<A, B>)
    requires s.ctl.Launching? && Gone(s, s.ctl.unit)
    ensures Path(cfg, ControlDo(s), d) == Path(cfg, s, d)
  {
    hide Path, Upcoming, Outgoing, Converted, InFrame, OutFrame;
    SamePath(cfg, s, ControlDo(s), d);
  }

  lemma JoinKeepsPath<A, B>(cfg: Config<A, B>, s: Sys, d: Data<A, B>)
    requires s.ctl.Joining? && Exited(s, s.ctl.unit)
    ensures Path(cfg, ControlDo(s), d) == Path(cfg, s, d)
  {
    hide Path, Upcoming, Outgoing, Converted, InFrame, OutFrame;
    SamePath(cfg, s, ControlDo(s), d);
  }

  lemma SignalsKeepPath<A, B>(cfg: Config<A, B>, s: Sys, d: Data<A, B>)
    requires !s.ctl.Launching? && !s.ctl.Joining?
    ensures Path(cfg, ControlDo(s), d) == Path(cfg, s, d)
  {
    hide Path, Upcoming, Outgoing, Converted, InFrame, OutFrame;
    SamePath(cfg, s, ControlDo(s), d);
  }

  lemma WakeKeepsPath<A, B>(cfg: Config<A, B>, s: Sys, d: Data<A, B>, unit: nat)
    ensures Path(cfg, WakeUp(s, unit), d) == Path(cfg, s, d)
  {
    hide Path, Upcoming, Outgoing, Converted, InFrame, OutFrame;
    SamePath(cfg, s, WakeUp(s, unit), d);
  }

  lemma CtlOffPath<A, B>(cfg: Config<A, B>, s: Sys, d: Data<A, B>, ctl: Ctl, starts: nat)
    ensures Path(cfg, s.(ctl := ctl, starts := starts), d) == Path(cfg, s, d)
  {
  }

  // --- A capture adds one frame at the young end, a loss removes one from the middle

  /** The slot a capture fills is nowhere else. */
  lemma CapturedAlone(s: Sys)
    requires Owned(s) && s.cam.CamCapture?
    ensures s.cam.fb !in s.q0.items && s.cam.fb !in s.q1.items && CvIn(s.cv) != Some(s.cam.fb)
    ensures s.sp.SpRef? || s.sp.SpPush? ==> s.sp.fb != s.cam.fb
  {
    assert InPlaces(s, s.cam.fb) == Count(s.cam.fb < s.poolIn.slots);
  }

  lemma OtherSlots<A, B>(cfg: Config<A, B>, d: Data<A, B>, e: Data<A, B>, x: nat, items: seq<nat>)
    requires x !in items && forall y: nat | y != x :: InFrame(cfg, e, y) == InFrame(cfg, d, y)
    ensures Upcoming(cfg, e, items) == Upcoming(cfg, d, items)
  {
  }

  lemma SameOutputs<A, B>(cfg: Config<A, B>, d: Data<A, B>, e: Data<A, B>, items: seq<nat>)
    requires e.outs == d.outs
    ensures Outgoing(cfg, e, items) == Outgoing(cfg, d, items)
  {
  }

  lemma CaptureExtendsPath<A, B>(cfg: Config<A, B>, s: State<A, B>, step: Step<A>)
    requires Owned(s.sys) && s.sys.cam.CamCapture? && step.act.CamAct?
    ensures Path(cfg, CamDo(s.sys), DataDo(cfg, s.sys, s.data, step))
            == Path(cfg, s.sys, s.data) + [Tagged(|s.data.captured|, cfg.conv(step.frame))]
  {
    hide RefCount, Lowest, Owned, Upcoming, Outgoing;
    CapturedAlone(s.sys);
    var x := s.sys.cam.fb;
    var t := CamDo(s.sys);
    var e := DataDo(cfg, s.sys, s.data, step);
    OtherSlots(cfg, s.data, e, x, s.sys.q0.items);
    OtherSlots(cfg, s.data, e, x, s.sys.q1.items);
    SameOutputs(cfg, s.data, e, s.sys.q2.items);
    assert AtCamera(cfg, t, e) == [Tagged(|s.data.captured|, cfg.conv(step.frame))];
    assert Upstream(cfg, t, e) == Upstream(cfg, s.sys, s.data) + AtCamera(cfg, t, e);
  }

  lemma LossShortensPath<A, B>(cfg: Config<A, B>, s: Sys, d: Data<A, B>)
    requires s.cv.CvLoop? && s.cvLife.running && s.cv.left.Some?
    ensures Path(cfg, s, d)
            == Downstream(cfg, s, d) + [Converted(cfg, InFrame(cfg, d, s.cv.left.value))] + Upstream(cfg, s, d)
    ensures Path(cfg, ConvDo(s), d) == Downstream(cfg, s, d) + Upstream(cfg, s, d)
  {
    hide Upcoming, Outgoing, InFrame, OutFrame, Converted;
  }

  lemma OnAppend<T>(a: seq<Tagged<T>>, b: seq<Tagged<T>>, k: nat)
    ensures On(a + b, k) <==> On(a, k) || On(b, k)
  {
    if On(a, k) {
      var i :| 0 <= i < |a| && a[i].serial == k;
      assert (a + b)[i].serial == k;
    }
    if On(b, k) {
      var i :| 0 <= i < |b| && b[i].serial == k;
      assert (a + b)[|a| + i].serial == k;
    }
  }

  lemma CaptureKeepsFaith<A, B>(cfg: Config<A, B>, captured: seq<A>, dropped: set<nat>, path: seq<Tagged<B>>, frame: A)
    requires Faithful(cfg, captured, dropped, path)
    ensures Faithful(cfg, captured + [frame], dropped, path + [Tagged(|captured|, cfg.conv(frame))])
  {
    var young := [Tagged(|captured|, cfg.conv(frame))];
    assert young[0].serial == |captured|;
    assert On(young, |captured|);
    forall k: nat ensures On(path + young, k) <==> On(path, k) || k == |captured| {
      OnAppend(path, young, k);
    }
  }

  lemma LossKeepsOrder<A, B>(cfg: Config<A, B>, captured: seq<A>, a: seq<Tagged<B>>, lost: Tagged<B>, b: seq<Tagged<B>>)
    requires Increasing(a + [lost] + b) && Genuine(cfg, captured, a + [lost] + b)
    ensures Increasing(a + b) && Genuine(cfg, captured, a + b)
    ensures lost.serial < |captured| && !On(a + b, lost.serial)
  {
    var path := a + [lost] + b;
    assert path[|a|] == lost;
    forall i | 0 <= i < |a + b|
      ensures (a + b)[i] == path[if i < |a| then i else i + 1]
    {
    }
  }

  lemma LossKeepsFaith<A, B>(cfg: Config<A, B>, captured: seq<A>, dropped: set<nat>, a: seq<Tagged<B>>,
                             lost: Tagged<B>, b: seq<Tagged<B>>)
    requires Faithful(cfg, captured, dropped, a + [lost] + b)
    ensures Faithful(cfg, captured, dropped + {lost.serial}, a + b)
    ensures |dropped + {lost.serial}| == |dropped| + 1
  {
    LossKeepsOrder(cfg, captured, a, lost, b);
    forall k: nat ensures On(a + [lost] + b, k) <==> On(a + b, k) || k == lost.serial {
      OnAppend(a + [lost], b, k);
      OnAppend(a, [lost], k);
      OnAppend(a, b, k);
      assert [lost][0] == lost;
      assert On([lost], k) <==> k == lost.serial;
    }
    assert lost.serial !in dropped;
  }

  // --- Every step of every schedule

  /** Only conversion's loop entry loses slots. */
  lemma OnlyConversionLoses(n: nat, m: nat, s: Sys, act: Act)
    requires SysInv(n, m, s)
    ensures !act.ConvAct? ==> SysDo(s, act).abandoned == s.abandoned
    ensures act.ConvAct? && !(s.cv.CvLoop? && s.cvLife.running && s.cv.left.Some?)
            ==> SysDo(s, act).abandoned == s.abandoned
  {
  }

  lemma LossGrowsByOne(n: nat, m: nat, s: Sys)
    requires SysInv(n, m, s) && s.cv.CvLoop? && s.cvLife.running && s.cv.left.Some?
    ensures |ConvDo(s).abandoned| == |s.abandoned| + 1
  {
    assert InPlaces(s, s.cv.left.value) == Count(s.cv.left.value < n);
  }

  lemma PathKept<A, B>(cfg: Config<A, B>, s: State<A, B>, step: Step<A>)
    requires SysInv(cfg.slotsIn, cfg.slotsOut, s.sys) && Enabled(s.sys, step.act)
    requires step.act.CamAct? ==> !s.sys.cam.CamCapture?
    requires step.act.ConvAct? ==> !(s.sys.cv.CvLoop? && s.sys.cvLife.running && s.sys.cv.left.Some?)
    ensures Path(cfg, SysDo(s.sys, step.act), DataDo(cfg, s.sys, s.data, step)) == Path(cfg, s.sys, s.data)
  {
    PushFindsRoom(cfg.slotsIn, cfg.slotsOut, s.sys);
    HeldOnce(cfg.slotsIn, cfg.slotsOut, s.sys);
    match step.act
    case CamAct => CamKeepsPath(cfg, s.sys, s.data);
    case SpAct => SpKeepsPath(cfg, s.sys, s.data);
    case ConvAct => ConvKeepsPath(cfg, s, step);
    case FileAct => FileKeepsPath(cfg, s, step);
    case SpuriousWake(unit) => WakeKeepsPath(cfg, s.sys, s.data, unit);
    case ControlAct => ControlKeepsPath(cfg, s.sys, s.data);
    case BeginStart => CtlOffPath(cfg, s.sys, s.data, Resetting(0), s.sys.starts + 1);
    case BeginStop => CtlOffPath(cfg, s.sys, s.data, ShuttingPools(0), s.sys.starts);
  }

  lemma HistoryKept<A, B>(cfg: Config<A, B>, s: State<A, B>, step: Step<A>)
    requires step.act.CamAct? ==> !s.sys.cam.CamCapture?
    requires step.act.ConvAct? ==> !(s.sys.cv.CvLoop? && s.sys.cvLife.running && s.sys.cv.left.Some?)
    ensures DataDo(cfg, s.sys, s.data, step).captured == s.data.captured
    ensures DataDo(cfg, s.sys, s.data, step).dropped == s.data.dropped
  {
  }

  lemma LossKeepsInv<A, B>(cfg: Config<A, B>, s: State<A, B>, step: Step<A>)
    requires Inv(cfg, s) && step.act.ConvAct?
    requires s.sys.cv.CvLoop? && s.sys.cvLife.running && s.sys.cv.left.Some?
    ensures var d := Do(cfg, s, step).data; Faithful(cfg, d.captured, d.dropped, Path(cfg, ConvDo(s.sys), d))
    ensures |Do(cfg, s, step).data.dropped| == |ConvDo(s.sys).abandoned|
  {
    var lost := Converted(cfg, InFrame(cfg, s.data, s.sys.cv.left.value));
    LossGrowsByOne(cfg.slotsIn, cfg.slotsOut, s.sys);
    LossShortensPath(cfg, s.sys, s.data);
    LossKeepsFaith(cfg, s.data.captured, s.data.dropped, Downstream(cfg, s.sys, s.data), lost,
                   Upstream(cfg, s.sys, s.data));
    var e := DataDo(cfg, s.sys, s.data, step);
    SameFramesSamePath(cfg, ConvDo(s.sys), s.data, e);
  }

  lemma SameFramesSamePath<A, B>(cfg: Config<A, B>, s: Sys, d: Data<A, B>, e: Data<A, B>)
    requires e.ins == d.ins && e.outs == d.outs && e.taken == d.taken
    ensures Path(cfg, s, e) == Path(cfg, s, d)
  {
    assert Outgoing(cfg, e, s.q2.items) == Outgoing(cfg, d, s.q2.items);
    assert Upcoming(cfg, e, s.q1.items) == Upcoming(cfg, d, s.q1.items);
    assert Upcoming(cfg, e, s.q0.items) == Upcoming(cfg, d, s.q0.items);
  }

  lemma InvKept<A, B>(cfg: Config<A, B>, s: State<A, B>, step: Step<A>)
    requires Inv(cfg, s) && Enabled(s.sys, step.act)
    ensures Inv(cfg, Do(cfg, s, step))
  {
    SysInvKept(cfg.slotsIn, cfg.slotsOut, s.sys, step.act);
    OnlyConversionLoses(cfg.slotsIn, cfg.slotsOut, s.sys, step.act);
    if step.act.CamAct? && s.sys.cam.CamCapture? {
      CaptureExtendsPath(cfg, s, step);
      CaptureKeepsFaith(cfg, s.data.captured, s.data.dropped, Path(cfg, s.sys, s.data), step.frame);
    } else if step.act.ConvAct? && s.sys.cv.CvLoop? && s.sys.cvLife.running && s.sys.cv.left.Some? {
      LossKeepsInv(cfg, s, step);
    } else {
      PathKept(cfg, s, step);
      HistoryKept(cfg, s, step);
    }
  }

  lemma InitInv<A, B>(cfg: Config<A, B>)
    requires ValidSizes(cfg.slotsIn, cfg.slotsOut)
    ensures Inv(cfg, Init(cfg))
  {
    InitSysInv(cfg.slotsIn, cfg.slotsOut);
    assert Path(cfg, Init(cfg).sys, Init(cfg).data) == [];
  }

  lemma {:induction false} StepsKeepInv<A, B>(cfg: Config<A, B>, s: State<A, B>, steps: seq<Step<A>>)
    requires Inv(cfg, s) && FeasibleSteps(cfg, s, steps)
    ensures Inv(cfg, RunSteps(cfg, s, steps))
    decreases |steps|
  {
    if steps != [] {
      InvKept(cfg, s, steps[0]);
      StepsKeepInv(cfg, Do(cfg, s, steps[0]), steps[1..]);
    }
  }
}
