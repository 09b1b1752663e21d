/** The camera service as a transition system: four unit threads and one control thread
    over two slot pools and three queues. Every locked section, every atomic access and
    every private piece of work between them is one step. A schedule is a sequence of
    steps; Do says what each step does, so a schedule determines the run.

    The state has two halves. Sys holds everything the threads decide by: pools, queues,
    reference counts, program counters, flags. Data holds the frames in the slots and what
    was captured and handled; no decision looks at it. */
module ServiceModel {
  import opened Options
  import opened BufSpec
  import opened WaitSpec

  // Units by their index in the pipeline.
  const CAMERA: nat := 0
  const PROVIDER: nat := 1
  const CONVERSION: nat := 2
  const FILE_OUT: nat := 3

  // Where each thread stands, with the slots its unit holds there. Gone: no thread exists.
  // Exited: the thread function has returned and waits to be joined. Asleep: waiting on a
  // condition variable.
  datatype CamPc = CamGone | CamLoop | CamAcquire | CamAsleep | CamCapture(fb: nat) | CamPush(fb: nat) | CamExited

  datatype SpPc = SpGone | SpLoop | SpPop | SpAsleep | SpRef(fb: nat) | SpPush(fb: nat) | SpExited

  /** Conversion may leave its loop holding an input slot, and then still holds it when its next
      thread starts: the left field. */
  datatype CvPc =
    | CvGone(left: Option<nat>) | CvLoop(left: Option<nat>) | CvPop | CvAsleepPop
    | CvAcquire(inFb: nat) | CvAsleepAcquire(inFb: nat)
    | CvConvert(inFb: nat, outFb: nat) | CvPush(inFb: nat, outFb: nat)
    | CvUnref(inFb: nat) | CvRelease(inFb: nat) | CvExited(left: Option<nat>)

  datatype FoPc = FoGone | FoLoop | FoPop | FoAsleep | FoWrite(fb: nat) | FoRelease(fb: nat) | FoExited

  /** A unit's running flag, and how many threads were created for it and joined. */
  datatype Life = Life(running: bool, launches: nat, joins: nat)

  /** What the control thread does next. Unit arguments are pipeline indices. */
  datatype Ctl =
    | Idle
    | Resetting(flag: nat)       // pool_in, pool_out, queue 0, queue 1, queue 2
    | Launching(unit: nat)
    | Up
    | ShuttingPools(pool: nat)   // pool_in, pool_out
    | Clearing(unit: nat)        // vf_unit_stop: test and clear the running flag
    | ShuttingQueue(unit: nat)   // vf_unit_stop: shut the unit's input queue
    | Joining(unit: nat)         // vf_unit_stop: pthread_join

  datatype Sys = Sys(
    poolIn: Pool,
    poolOut: Pool,
    q0: Queue<nat>,
    q1: Queue<nat>,
    q2: Queue<nat>,
    refs: map<nat, nat>,
    cam: CamPc,
    sp: SpPc,
    cv: CvPc,
    fo: FoPc,
    camLife: Life,
    spLife: Life,
    cvLife: Life,
    foLife: Life,
    ctl: Ctl,
    starts: nat,            // history: calls of vf_service_start
    abandoned: set<nat>)    // history: slots nothing refers to any more

  /** One scheduling choice. A sleeper may wake for no reason. */
  datatype Act =
    | CamAct
    | SpAct
    | ConvAct
    | FileAct
    | SpuriousWake(unit: nat)
    | ControlAct
    | BeginStart
    | BeginStop

  function RefCount(refs: map<nat, nat>, x: nat): nat {
    if x in refs then refs[x] else 0
  }

  /** After vf_service_init with n input and m output slots. */
  function InitSys(n: nat, m: nat): Sys {
    var empty := Queue([], MAX_CAPACITY, false);
    var unborn := Life(false, 0, 0);
    Sys(Pool(n, Range(n), false), Pool(m, Range(m), false), empty, empty, empty, map[],
        CamGone, SpGone, CvGone(None), FoGone, unborn, unborn, unborn, unborn, Idle, 0, {})
  }

  // --- Signals. Each condition variable has one waiting thread, so a signal wakes it if it sleeps.

  function WakeCamera(pc: CamPc): CamPc {
    if pc.CamAsleep? then CamAcquire else pc
  }

  function WakeProvider(pc: SpPc): SpPc {
    if pc.SpAsleep? then SpPop else pc
  }

  function WakeConversionPop(pc: CvPc): CvPc {
    if pc.CvAsleepPop? then CvPop else pc
  }

  function WakeConversionAcquire(pc: CvPc): CvPc {
    if pc.CvAsleepAcquire? then CvAcquire(pc.inFb) else pc
  }

  function WakeFile(pc: FoPc): FoPc {
    if pc.FoAsleep? then FoPop else pc
  }

  /** vf_buf_pool_release on pool_in: a slot already free stays free and nobody is signalled. */
  function ReleaseIn(s: Sys, x: nat): Sys {
    if x in s.poolIn.free || x >= s.poolIn.slots then s
    else s.(poolIn := s.poolIn.Release(x), cam := WakeCamera(s.cam))
  }

  function ReleaseOut(s: Sys, x: nat): Sys {
    if x in s.poolOut.free || x >= s.poolOut.slots then s
    else s.(poolOut := s.poolOut.Release(x), cv := WakeConversionAcquire(s.cv))
  }

  /** vf_framebuffer_unref's counter: an underflow is undone. */
  function Unref(s: Sys, x: nat): Sys {
    if RefCount(s.refs, x) == 0 then s else s.(refs := s.refs[x := RefCount(s.refs, x) - 1])
  }

  /** The test of a blocking acquire, the one the pool's methods are proved against. */
  function AcquireTest(p: Pool): (v: Verdict)
    ensures v == if p.free != {} then TakeOne else if p.shutdown then Refuse else Wait
  {
    Await(|p.free|, p.shutdown)
  }

  /** The test of a blocking pop. */
  function PopTest(q: Queue<nat>): (v: Verdict)
    ensures v == if q.items != [] then TakeOne else if q.shutdown then Refuse else Wait
  {
    Await(|q.items|, q.shutdown)
  }

  // --- Camera thread

  function CamDo(s: Sys): Sys {
    match s.cam
    case CamLoop => s.(cam := if s.camLife.running then CamAcquire else CamExited)
    case CamAcquire =>
      match AcquireTest(s.poolIn) {
        case TakeOne =>
          var x := Lowest(s.poolIn.free);
          s.(poolIn := s.poolIn.Take(x), cam := CamCapture(x))
        case Refuse => s.(cam := CamExited)
        case Wait => s.(cam := CamAsleep)
      }
    case CamCapture(x) => s.(cam := CamPush(x))
    case CamPush(x) =>
      if s.q0.Full() then ReleaseIn(s.(cam := CamLoop), x)
      else s.(q0 := s.q0.Push(x), sp := WakeProvider(s.sp), cam := CamLoop)
    case _ => s
  }

  // --- Stream provider thread, with its one consumer

  function SpDo(s: Sys): Sys {
    match s.sp
    case SpLoop => s.(sp := if s.spLife.running then SpPop else SpExited)
    case SpPop =>
      match PopTest(s.q0) {
        case TakeOne => s.(q0 := s.q0.Pop(), sp := SpRef(s.q0.items[0]))
        case Refuse => s.(sp := SpExited)
        case Wait => s.(sp := SpAsleep)
      }
    case SpRef(x) => s.(refs := s.refs[x := RefCount(s.refs, x) + 1], sp := SpPush(x))
    case SpPush(x) =>
      if s.q1.Full() then
        var idle := Unref(s, x).(sp := SpLoop);
        if RefCount(s.refs, x) <= 1 then ReleaseIn(idle, x) else idle
      else s.(q1 := s.q1.Push(x), cv := WakeConversionPop(s.cv), sp := SpLoop)
    case _ => s
  }

  // --- Conversion thread

  function ConvDo(s: Sys): Sys {
    match s.cv
    case CvLoop(left) =>
      if !s.cvLife.running then s.(cv := CvExited(left))
      // vf_buf_queue_pop_blocking overwrites in_fb on entry: a slot still held is lost.
      else if left.Some? then s.(cv := CvPop, abandoned := s.abandoned + {left.value})
      else s.(cv := CvPop)
    case CvPop =>
      match PopTest(s.q1) {
        case TakeOne => s.(q1 := s.q1.Pop(), cv := CvAcquire(s.q1.items[0]))
        case Refuse => s.(cv := CvExited(None))
        case Wait => s.(cv := CvAsleepPop)
      }
    case CvAcquire(i) =>
      match AcquireTest(s.poolOut) {
        case TakeOne =>
          var x := Lowest(s.poolOut.free);
          s.(poolOut := s.poolOut.Take(x), cv := CvConvert(i, x))
        case Refuse => s.(cv := CvExited(Some(i)))
        case Wait => s.(cv := CvAsleepAcquire(i))
      }
    case CvConvert(i, o) => s.(cv := CvPush(i, o))
    case CvPush(i, o) =>
      if s.q2.Full() then ReleaseOut(s.(cv := CvLoop(Some(i))), o)
      else s.(q2 := s.q2.Push(o), fo := WakeFile(s.fo), cv := CvUnref(i))
    case CvUnref(i) =>
      Unref(s, i).(cv := if RefCount(s.refs, i) <= 1 then CvRelease(i) else CvLoop(None))
    case CvRelease(i) => ReleaseIn(s.(cv := CvLoop(None)), i)
    case _ => s
  }

  // --- File-out thread. Whether or not the file could be written, the slot goes back.

  function FileDo(s: Sys): Sys {
    match s.fo
    case FoLoop => s.(fo := if s.foLife.running then FoPop else FoExited)
    case FoPop =>
      match PopTest(s.q2) {
        case TakeOne => s.(q2 := s.q2.Pop(), fo := FoWrite(s.q2.items[0]))
        case Refuse => s.(fo := FoExited)
        case Wait => s.(fo := FoAsleep)
      }
    case FoWrite(x) => s.(fo := FoRelease(x))
    case FoRelease(x) => ReleaseOut(s.(fo := FoLoop), x)
    case _ => s
  }

  // --- Control thread

  predicate Gone(s: Sys, unit: nat) {
    match unit
    case 0 => s.cam.CamGone?
    case 1 => s.sp.SpGone?
    case 2 => s.cv.CvGone?
    case _ => s.fo.FoGone?
  }

  predicate Exited(s: Sys, unit: nat) {
    match unit
    case 0 => s.cam.CamExited?
    case 1 => s.sp.SpExited?
    case 2 => s.cv.CvExited?
    case _ => s.fo.FoExited?
  }

  predicate Asleep(s: Sys, unit: nat) {
    match unit
    case 0 => s.cam.CamAsleep?
    case 1 => s.sp.SpAsleep?
    case 2 => s.cv.CvAsleepPop? || s.cv.CvAsleepAcquire?
    case _ => s.fo.FoAsleep?
  }

  function LifeOf(s: Sys, unit: nat): Life {
    match unit
    case 0 => s.camLife
    case 1 => s.spLife
    case 2 => s.cvLife
    case _ => s.foLife
  }

  /** vf_unit_start: the running flag is set and a new thread stands before its loop test. The
      unit's data is kept. */
  function Launch(s: Sys, unit: nat): Sys {
    var l := LifeOf(s, unit).(running := true, launches := LifeOf(s, unit).launches + 1);
    match unit
    case 0 => s.(camLife := l, cam := CamLoop)
    case 1 => s.(spLife := l, sp := SpLoop)
    case 2 => s.(cvLife := l, cv := CvLoop(if s.cv.CvGone? then s.cv.left else None))
    case _ => s.(foLife := l, fo := FoLoop)
  }

  function ClearRunning(s: Sys, unit: nat): Sys {
    var l := LifeOf(s, unit).(running := false);
    match unit
    case 0 => s.(camLife := l)
    case 1 => s.(spLife := l)
    case 2 => s.(cvLife := l)
    case _ => s.(foLife := l)
  }

  function Join(s: Sys, unit: nat): Sys {
    var l := LifeOf(s, unit).(joins := LifeOf(s, unit).joins + 1);
    match unit
    case 0 => s.(camLife := l, cam := CamGone)
    case 1 => s.(spLife := l, sp := SpGone)
    case 2 => s.(cvLife := l, cv := CvGone(if s.cv.CvExited? then s.cv.left else None))
    case _ => s.(foLife := l, fo := FoGone)
  }

  function ClearFlag(s: Sys, flag: nat): Sys {
    match flag
    case 0 => s.(poolIn := s.poolIn.(shutdown := false))
    case 1 => s.(poolOut := s.poolOut.(shutdown := false))
    case 2 => s.(q0 := s.q0.(shutdown := false))
    case 3 => s.(q1 := s.q1.(shutdown := false))
    case _ => s.(q2 := s.q2.(shutdown := false))
  }

  function ShutPool(s: Sys, pool: nat): Sys {
    if pool == 0 then s.(poolIn := s.poolIn.(shutdown := true), cam := WakeCamera(s.cam))
    else s.(poolOut := s.poolOut.(shutdown := true), cv := WakeConversionAcquire(s.cv))
  }

  /** vf_buf_queue_shutdown on the input queue of a unit other than the camera, which has none. */
  function ShutInput(s: Sys, unit: nat): Sys {
    match unit
    case 1 => s.(q0 := s.q0.(shutdown := true), sp := WakeProvider(s.sp))
    case 2 => s.(q1 := s.q1.(shutdown := true), cv := WakeConversionPop(s.cv))
    case _ => s.(q2 := s.q2.(shutdown := true), fo := WakeFile(s.fo))
  }

  /** vf_pipeline_stop goes from the last unit to the first. */
  function AfterUnit(unit: nat): Ctl {
    if unit == 0 then Idle else Clearing(unit - 1)
  }

  function ControlDo(s: Sys): Sys {
    match s.ctl
    case Idle => s
    case Up => s
    case Resetting(k) => ClearFlag(s, k).(ctl := if k < 4 then Resetting(k + 1) else Launching(CAMERA))
    case Launching(i) => Launch(s, i).(ctl := if i < FILE_OUT then Launching(i + 1) else Up)
    case ShuttingPools(k) => ShutPool(s, k).(ctl := if k == 0 then ShuttingPools(1) else Clearing(FILE_OUT))
    case Clearing(i) =>
      if !LifeOf(s, i).running then s.(ctl := AfterUnit(i))
      else ClearRunning(s, i).(ctl := if i == CAMERA then Joining(i) else ShuttingQueue(i))
    case ShuttingQueue(i) => ShutInput(s, i).(ctl := Joining(i))
    case Joining(i) => Join(s, i).(ctl := AfterUnit(i))
  }

  function WakeUp(s: Sys, unit: nat): Sys {
    match unit
    case 0 => s.(cam := WakeCamera(s.cam))
    case 1 => s.(sp := WakeProvider(s.sp))
    case 2 => s.(cv := WakeConversionPop(WakeConversionAcquire(s.cv)))
    case _ => s.(fo := WakeFile(s.fo))
  }

  /** A thread that exists, has not returned and does not sleep. Locked sections are atomic
      here, so such a thread can always take its next step. */
  predicate Ready(s: Sys, unit: nat) {
    !Gone(s, unit) && !Exited(s, unit) && !Asleep(s, unit)
  }

  predicate Enabled(s: Sys, act: Act) {
    match act
    case CamAct => Ready(s, CAMERA)
    case SpAct => Ready(s, PROVIDER)
    case ConvAct => Ready(s, CONVERSION)
    case FileAct => Ready(s, FILE_OUT)
    case SpuriousWake(unit) => unit <= FILE_OUT && Asleep(s, unit)
    case ControlAct => !s.ctl.Idle? && !s.ctl.Up? && (s.ctl.Joining? ==> Exited(s, s.ctl.unit))
    case BeginStart => s.ctl.Idle?
    case BeginStop => s.ctl.Idle? || s.ctl.Up?
  }

  function SysDo(s: Sys, act: Act): Sys {
    match act
    case CamAct => CamDo(s)
    case SpAct => SpDo(s)
    case ConvAct => ConvDo(s)
    case FileAct => FileDo(s)
    case SpuriousWake(unit) => WakeUp(s, unit)
    case ControlAct => ControlDo(s)
    case BeginStart => s.(ctl := Resetting(0), starts := s.starts + 1)
    case BeginStop => s.(ctl := ShuttingPools(0))
  }

  // --- Frames

  /** Pool sizes and the pixel conversion, all arbitrary. A is a captured frame, B a converted
      one; the blank ones are the zero bytes slots are allocated with. */
  datatype Config<!A, !B> = Config(slotsIn: nat, slotsOut: nat, conv: A -> B, blankIn: A, blankOut: B)

  predicate ValidSizes(n: nat, m: nat) {
    1 <= n <= MAX_SLOTS && 1 <= m <= MAX_SLOTS
  }

  /** A frame with the number of the capture it stems from. The number is a history
      variable: no step looks at it. */
  datatype Tagged<T> = Tagged(serial: nat, frame: T)

  /** What the slots hold; a slot without an entry has not been written yet. */
  datatype Data<A, B> = Data(
    ins: map<nat, Tagged<A>>,
    outs: map<nat, Tagged<B>>,
    captured: seq<A>,         // history: contents as the captures left them
    taken: seq<Tagged<B>>,    // history: contents as file-out found them
    dropped: set<nat>)        // history: capture numbers of lost frames

  datatype State<A, B> = State(sys: Sys, data: Data<A, B>)

  /** A scheduling choice, and the arbitrary bytes a capture leaves if this is one. */
  datatype Step<A> = Step(act: Act, frame: A)

  function Init<A, B>(cfg: Config<A, B>): State<A, B> {
    State(InitSys(cfg.slotsIn, cfg.slotsOut), Data(map[], map[], [], [], {}))
  }

  function InFrame<A, B>(cfg: Config<A, B>, d: Data<A, B>, x: nat): Tagged<A> {
    if x in d.ins then d.ins[x] else Tagged(0, cfg.blankIn)
  }

  function OutFrame<A, B>(cfg: Config<A, B>, d: Data<A, B>, x: nat): Tagged<B> {
    if x in d.outs then d.outs[x] else Tagged(0, cfg.blankOut)
  }

  function Converted<A, B>(cfg: Config<A, B>, t: Tagged<A>): Tagged<B> {
    Tagged(t.serial, cfg.conv(t.frame))
  }

  function DataDo<A, B>(cfg: Config<A, B>, s: Sys, d: Data<A, B>, step: Step<A>): Data<A, B> {
    match step.act
    case CamAct =>
      if s.cam.CamCapture? then
        d.(ins := d.ins[s.cam.fb := Tagged(|d.captured|, step.frame)], captured := d.captured + [step.frame])
      else d
    case ConvAct =>
      if s.cv.CvConvert? then
        d.(outs := d.outs[s.cv.outFb := Converted(cfg, InFrame(cfg, d, s.cv.inFb))])
      else if s.cv.CvLoop? && s.cvLife.running && s.cv.left.Some? then
        d.(dropped := d.dropped + {InFrame(cfg, d, s.cv.left.value).serial})
      else d
    case FileAct =>
      if s.fo.FoWrite? then d.(taken := d.taken + [OutFrame(cfg, d, s.fo.fb)]) else d
    case _ => d
  }

  function Do<A, B>(cfg: Config<A, B>, s: State<A, B>, step: Step<A>): State<A, B> {
    State(SysDo(s.sys, step.act), DataDo(cfg, s.sys, s.data, step))
  }

  // --- Schedules

  /** Each step of the schedule is enabled when its turn comes. */
  predicate Feasible(s: Sys, acts: seq<Act>)
    decreases |acts|
  {
    acts == [] || (Enabled(s, acts[0]) && Feasible(SysDo(s, acts[0]), acts[1..]))
  }

  function Run(s: Sys, acts: seq<Act>): Sys
    decreases |acts|
  {
    if acts == [] then s else Run(SysDo(s, acts[0]), acts[1..])
  }

  predicate FeasibleSteps<A, B>(cfg: Config<A, B>, s: State<A, B>, steps: seq<Step<A>>)
    decreases |steps|
  {
    steps == [] || (Enabled(s.sys, steps[0].act) && FeasibleSteps(cfg, Do(cfg, s, steps[0]), steps[1..]))
  }

  function RunSteps<A, B>(cfg: Config<A, B>, s: State<A, B>, steps: seq<Step<A>>): State<A, B>
    decreases |steps|
  {
    if steps == [] then s else RunSteps(cfg, Do(cfg, s, steps[0]), steps[1..])
  }
}
