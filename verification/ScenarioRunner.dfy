/** A whole scenario, from nothing and back to nothing: pools, pipeline and units are set up, one
    run is made per frame, and everything is torn down. */
module ScenarioRunner {
  import opened Options
  import opened Layout
  import opened BufSpec
  import opened Frames
  import opened FrameIo
  import opened BufQueues
  import opened BufPools
  import opened Conversion
  import opened FileUnits
  import opened ConvUnits
  import opened Pipelines
  import opened Scenarios

  const POOL_SLOT_COUNT: nat := 4

  /** Slots in zeroed memory. */
  method NewSlots() returns (slots: seq<Framebuffer>)
    ensures |slots| == MAX_SLOTS && Distinct(slots)
    ensures forall i | 0 <= i < |slots| :: fresh(slots[i]) && slots[i].data == null
  {
    slots := [];
    while |slots| < MAX_SLOTS
      invariant |slots| <= MAX_SLOTS && Distinct(slots)
      invariant forall i | 0 <= i < |slots| :: fresh(slots[i]) && slots[i].data == null
    {
      var fb := new Framebuffer();
      slots := slots + [fb];
    }
  }

  method NewPool() returns (pool: BufPool)
    ensures fresh(pool) && fresh(pool.inUse) && pool.Valid() && !pool.initialized && NoMemory(pool)
    ensures forall i | 0 <= i < |pool.slots| :: fresh(pool.slots[i])
  {
    var slots := NewSlots();
    pool := new BufPool(slots);
  }

  method NewPipeline() returns (pipeline: Pipeline)
    ensures fresh(pipeline) && pipeline.Valid() && pipeline.Down() && pipeline.units == []
    ensures forall q | q in pipeline.queues :: fresh(q) && fresh(q.slots)
  {
    var queues: seq<BufQueue> := [];
    while |queues| < MAX_UNITS - 1
      invariant |queues| <= MAX_UNITS - 1 && Distinct(queues)
      invariant forall i, j :: 0 <= i < j < |queues| ==> queues[i].slots != queues[j].slots
      invariant forall q | q in queues :: fresh(q) && fresh(q.slots) && q.slots.Length == MAX_CAPACITY && !q.initialized
    {
      var q := new BufQueue();
      queues := queues + [q];
    }
    pipeline := new Pipeline(queues);
  }

  /** No slot holds memory. */
  ghost predicate NoMemory(pool: BufPool)
    reads pool.slots
  {
    forall i | 0 <= i < |pool.slots| :: pool.slots[i].data == null
  }

  /** No slot beyond the first ones holds memory. */
  ghost predicate SparesEmpty(pool: BufPool)
    reads (set fb | fb in pool.slots)`data
  {
    forall i | POOL_SLOT_COUNT <= i < |pool.slots| :: pool.slots[i].data == null
  }

  /** Full, with memory for a frame of the given parameters behind the slot it hands out next. */
  ghost predicate Supplied(pool: BufPool, p: Params)
    reads pool, pool.inUse, pool.slots
  {
    && |pool.slots| == MAX_SLOTS
    && PoolHas(pool, POOL_SLOT_COUNT, Range(POOL_SLOT_COUNT))
    && pool.slots[0].Allocated() && pool.slots[0].params == p && pool.slots[0].refCount == 0
  }

  method Supply(pool: BufPool, p: Params, memory: seq<bool>) returns (err: VfErr)
    requires pool.Valid() && !pool.initialized && NoMemory(pool) && |memory| == MAX_SLOTS
    modifies pool, pool.inUse, pool.slots
    ensures pool.Valid()
    ensures err == SUCCESS <==> Allocatable(p) && AllRoom(memory, POOL_SLOT_COUNT)
    ensures if err == SUCCESS then Supplied(pool, p) && SparesEmpty(pool) && fresh(pool.slots[0].data)
            else NoMemory(pool) && !pool.initialized
  {
    err := pool.Init(p, POOL_SLOT_COUNT, memory);
  }

  method Drain(pool: BufPool, ghost p: Params)
    requires Supplied(pool, p) && SparesEmpty(pool)
    modifies pool, pool.inUse, pool.slots
    ensures NoMemory(pool)
  {
    pool.Deinit();
  }

  /** The frames of two pools are different ones. */
  ghost predicate Separate(a: BufPool, b: BufPool) {
    && a != b && a.inUse != b.inUse && |a.slots| == |b.slots| == MAX_SLOTS
    && forall i, j | 0 <= i < |a.slots| && 0 <= j < |b.slots| :: a.slots[i] != b.slots[j]
  }

  /** Both pools, or neither: memory is what malloc finds for each slot. */
  method SetUpPools(from: Params, to: Params, memoryIn: seq<bool>, memoryOut: seq<bool>)
    returns (err: VfErr, poolIn: BufPool, poolOut: BufPool)
    requires |memoryIn| == |memoryOut| == MAX_SLOTS
    ensures Separate(poolIn, poolOut)
    ensures fresh(poolIn) && fresh(poolIn.inUse) && fresh(poolOut) && fresh(poolOut.inUse)
    ensures forall i | 0 <= i < MAX_SLOTS :: fresh(poolIn.slots[i]) && fresh(poolOut.slots[i])
    ensures err == SUCCESS ==>
      && Supplied(poolIn, from) && Supplied(poolOut, to) && SparesEmpty(poolIn) && SparesEmpty(poolOut)
      && fresh(poolIn.slots[0].data) && fresh(poolOut.slots[0].data) && poolIn.slots[0].data != poolOut.slots[0].data
    ensures err != SUCCESS ==> NoMemory(poolIn) && NoMemory(poolOut)
    ensures err == SUCCESS <==> && Allocatable(from) && Allocatable(to)
                                && AllRoom(memoryIn, POOL_SLOT_COUNT) && AllRoom(memoryOut, POOL_SLOT_COUNT)
  {
    hide Supplied, Framebuffer.Allocated, PoolHas, Allocatable, AllRoom;
    poolIn := NewPool();
    poolOut := NewPool();
    err := Supply(poolIn, from, memoryIn);
    if err != SUCCESS {
      return;
    }
    err := Supply(poolOut, to, memoryOut);
    if err != SUCCESS {
      Drain(poolIn, from);
    }
  }

  method TearDownPools(poolIn: BufPool, poolOut: BufPool, ghost from: Params, ghost to: Params)
    requires Separate(poolIn, poolOut) && Supplied(poolIn, from) && Supplied(poolOut, to)
    requires SparesEmpty(poolIn) && SparesEmpty(poolOut)
    modifies poolIn, poolIn.inUse, poolIn.slots, poolOut, poolOut.inUse, poolOut.slots
    ensures NoMemory(poolIn) && NoMemory(poolOut)
  {
    Drain(poolOut, to);
    Drain(poolIn, from);
  }

  /** Three units in a row, created, or nothing. */
  method SetUpPipeline(queueErrs: seq<VfErr>, creations: seq<Creation>) returns (err: VfErr, pipeline: Pipeline)
    requires |queueErrs| == 2 && |creations| == 3
    ensures fresh(pipeline) && pipeline.Valid() && |pipeline.units| == 3
    ensures forall k | 0 <= k < 3 :: fresh(pipeline.units[k])
    ensures forall k | 0 <= k < |pipeline.queues| :: fresh(pipeline.queues[k]) && fresh(pipeline.queues[k].slots)
    ensures err == FirstErr(queueErrs + CreationErrs(creations)) && (pipeline.initialized <==> err == SUCCESS)
    ensures err == SUCCESS ==> pipeline.QueuesUp(2) && pipeline.Joined(2)
    ensures err == SUCCESS ==> forall k | 0 <= k < 3 :: pipeline.units[k].initialized
    ensures err == SUCCESS ==> forall k | 2 <= k < |pipeline.queues| :: !pipeline.queues[k].initialized
    ensures err != SUCCESS ==> pipeline.Down()
  {
    hide FirstErr, CreationErrs, Pipeline.QueuesUp, Pipeline.Joined;
    pipeline := NewPipeline();
    AddUnits(pipeline);
    err := pipeline.Create(queueErrs, creations);
  }

  method AddUnits(pipeline: Pipeline)
    requires pipeline.Valid() && pipeline.units == [] && pipeline.Down()
    modifies pipeline`units
    ensures pipeline.Valid() && |pipeline.units| == 3 && pipeline.Down()
    ensures forall k | 0 <= k < 3 :: fresh(pipeline.units[k])
  {
    var fileIn := new Unit();
    var conversion := new Unit();
    var fileOut := new Unit();
    var added := pipeline.AddUnit(fileIn);
    added := pipeline.AddUnit(conversion);
    added := pipeline.AddUnit(fileOut);
  }

  /** The output file of a scenario that writes a single one is opened at once. */
  method OpenConcat(split: bool, disk: Option<nat>) returns (err: VfErr, file: Stream?)
    ensures err == if split || disk.Some? then SUCCESS else FILE_ERR
    ensures if err == SUCCESS && !split then file != null && fresh(file) && file.bytes == [] && file.room == disk.value
            else file == null
  {
    err, file := SUCCESS, null;
    if !split {
      if disk.None? {
        return FILE_ERR, null;
      }
      file := new Stream([], disk.value);
    }
  }

  /** A scenario that went through: the conversions of all frames are in one file, in order, or, split, in a
      file of its own each. */
  ghost predicate Delivered(frames: seq<Option<seq<byte>>>, from: Params, to: Params, split: bool,
                            file: Stream?, files: seq<Stream>, outs: seq<seq<byte>>)
    reads file, files
  {
    && |outs| == |frames|
    && (forall i | 0 <= i < |frames| :: Converted(frames[i], from, outs[i], to))
    && if split then Hold(files, outs) else file != null && file.bytes == Concat(outs)
  }

  /** A scenario that did not: the first frames went through, and last is what the disk did not take in full. */
  ghost predicate Interrupted(frames: seq<Option<seq<byte>>>, from: Params, to: Params, split: bool, room: nat,
                              file: Stream?, files: seq<Stream>, outs: seq<seq<byte>>, last: seq<byte>)
    reads file, files
  {
    && |outs| < |frames|
    && (forall i | 0 <= i < |outs| :: Converted(frames[i], from, outs[i], to))
    && (last != [] ==> Converted(frames[|outs|], from, last, to))
    && if split then Hold(files, outs) else file != null ==> file.bytes == Took(Concat(outs) + last, room)
  }

  /** Nothing was run. */
  lemma NothingRun(frames: seq<Option<seq<byte>>>, from: Params, to: Params, split: bool, room: nat, file: Stream?)
    requires |frames| > 0 && (file != null ==> file.bytes == [])
    ensures Interrupted(frames, from, to, split, room, file, [], [], [])
  {
  }

  /** run_scenario. Whichever step fails, no slot keeps memory, and no unit or queue of the pipeline, if it
      came to one, stays initialised; no run waits; a success delivers the conversion of every frame, and a
      failure leaves those before it. */
  method RunScenario(frames: seq<Option<seq<byte>>>, from: Params, to: PixelFmt, split: bool,
                     disk: Option<nat>, disks: seq<Option<nat>>,
                     memoryIn: seq<bool>, memoryOut: seq<bool>, queueErrs: seq<VfErr>)
    returns (err: VfErr, waits: bool, file: Stream?,
             ghost files: seq<Stream>, ghost outs: seq<seq<byte>>, ghost last: seq<byte>,
             ghost poolIn: BufPool, ghost poolOut: BufPool, ghost pipeline: Pipeline?)
    requires |frames| > 0 && |disks| == |frames| && |memoryIn| == |memoryOut| == MAX_SLOTS && |queueErrs| == 2
    requires EvenIfShared(from, to)
    ensures !waits && NoMemory(poolIn) && NoMemory(poolOut)
    ensures pipeline != null <==>
      && Allocatable(from) && Allocatable(from.(format := to))
      && AllRoom(memoryIn, 4) && AllRoom(memoryOut, 4)
    ensures pipeline != null ==> |pipeline.units| == 3 && pipeline.Down()
    ensures err == SUCCESS <==>
      && pipeline != null && NoErr(queueErrs, 2) && Supported(from.format, to) && (split || disk.Some?)
      && Suffices(frames, from, split, disks, if split then 0 else disk.value, from.(format := to))
    ensures if err == SUCCESS then Delivered(frames, from, from.(format := to), split, file, files, outs)
            else Interrupted(frames, from, from.(format := to), split, Room(disk), file, files, outs, last)
  {
    hide Supplied, NoMemory, Delivered, Interrupted, Supported, EvenIfShared, Suffices, Allocatable, AllRoom;
    waits, file, files, outs, last, pipeline := false, null, [], [], [], null;
    var params := from.(format := to);
    NothingRun(frames, from, params, split, Room(disk), file);
    var pin, pout;
    err, pin, pout := SetUpPools(from, params, memoryIn, memoryOut);
    poolIn, poolOut := pin, pout;
    if err != SUCCESS {
      return;
    }
    err, waits, file, files, outs, last, pipeline :=
      RunWithPools(frames, from, params, split, disk, disks, pin, pout, queueErrs);
    TearDownPools(pin, pout, from, params);
  }

  /** What a file takes that may not open. */
  function Room(disk: Option<nat>): nat {
    if disk.None? then 0 else disk.value
  }

  /** The part between the two: the pipeline, its units and the runs. */
  method RunWithPools(frames: seq<Option<seq<byte>>>, from: Params, to: Params, split: bool,
                      disk: Option<nat>, disks: seq<Option<nat>>,
                      poolIn: BufPool, poolOut: BufPool, queueErrs: seq<VfErr>)
    returns (err: VfErr, waits: bool, file: Stream?,
             ghost files: seq<Stream>, ghost outs: seq<seq<byte>>, ghost last: seq<byte>, ghost pipeline: Pipeline)
    requires |frames| > 0 && |disks| == |frames| && |queueErrs| == 2
    requires Separate(poolIn, poolOut) && Supplied(poolIn, from) && Supplied(poolOut, to)
    requires poolIn.slots[0].data != poolOut.slots[0].data && to == from.(format := to.format)
    requires EvenIfShared(from, to.format)
    modifies poolIn`available, poolIn.inUse, poolOut`available, poolOut.inUse
    modifies {poolIn.slots[0] as Framebuffer}`refCount, poolIn.slots[0].data, poolOut.slots[0].data
    ensures !waits && Supplied(poolIn, from) && Supplied(poolOut, to)
    ensures |pipeline.units| == 3 && pipeline.Down()
    ensures err == SUCCESS <==> && Supported(from.format, to.format) && (split || disk.Some?) && NoErr(queueErrs, 2)
                                && Suffices(frames, from, split, disks, if split then 0 else disk.value, to)
    ensures if err == SUCCESS then Delivered(frames, from, to, split, file, files, outs)
            else Interrupted(frames, from, to, split, Room(disk), file, files, outs, last)
  {
    hide Supplied, Delivered, Interrupted, EvenIfShared, Supported, Suffices, Running, NoErr;
    waits, files, outs, last := false, [], [], [];
    FirstMustRead(frames, from, split, disks, if split || disk.None? then 0 else disk.value, to);
    var ctx, line;
    err, ctx, file, line := SetUpUnits(frames[0].Some?, from.format, to.format, split, disk, queueErrs);
    pipeline := line;
    if err != SUCCESS {
      NothingRun(frames, from, to, split, Room(disk), file);
      return;
    }
    err, waits, file, files, outs, last :=
      RunAndDestroy(frames, from, to, split, file, Room(disk), disks, poolIn, poolOut, ctx, line);
  }

  /** A pipeline of three units, created, with empty queues between them. */
  ghost predicate Running(line: Pipeline)
    reads line, line.units, line.queues, line.Cells()
  {
    && line.Valid() && line.initialized && |line.units| == 3
    && (forall k | 0 <= k < 3 :: line.units[k].initialized)
    && (forall k | 2 <= k < |line.queues| :: !line.queues[k].initialized)
    && QueueHas(line.queues[0], []) && QueueHas(line.queues[1], [])
  }

  method RunAndDestroy(frames: seq<Option<seq<byte>>>, from: Params, to: Params, split: bool, out: Stream?,
                       ghost room: nat, disks: seq<Option<nat>>, poolIn: BufPool, poolOut: BufPool, ctx: Context,
                       line: Pipeline)
    returns (err: VfErr, waits: bool, file: Stream?,
             ghost files: seq<Stream>, ghost outs: seq<seq<byte>>, ghost last: seq<byte>)
    requires |disks| == |frames| && (if split then out == null else out != null && out.bytes == [] && out.room == room)
    requires Separate(poolIn, poolOut) && Supplied(poolIn, from) && Supplied(poolOut, to)
    requires poolIn.slots[0].data != poolOut.slots[0].data && to == from.(format := to.format)
    requires EvenIfShared(from, to.format)
    requires ctx.Valid() && ctx.initialized && ctx.srcFmt == from.format && ctx.dstFmt == to.format
    requires Running(line)
    modifies poolIn`available, poolIn.inUse, poolOut`available, poolOut.inUse
    modifies {poolIn.slots[0] as Framebuffer}`refCount, poolIn.slots[0].data, poolOut.slots[0].data
    modifies out, line`initialized, line.units, line.queues, line.Cells()
    ensures !waits && Supplied(poolIn, from) && Supplied(poolOut, to)
    ensures |line.units| == 3 && line.Down()
    ensures err == SUCCESS <==> Suffices(frames, from, split, disks, if split then 0 else room, to)
    ensures if err == SUCCESS then Delivered(frames, from, to, split, file, files, outs)
            else Interrupted(frames, from, to, split, room, file, files, outs, last)
  {
    hide Supplied, Delivered, Interrupted, EvenIfShared, Suffices, QueueHas;
    err, waits, file, files, outs, last :=
      RunUnits(frames, from, to, split, out, room, disks, poolIn, poolOut, ctx, line.queues[0], line.queues[1]);
    line.Destroy();
  }

  /** Opens the first input file, the conversion and the output file, and creates the pipeline
      unless one of these failed. */
  method SetUpUnits(readable: bool, from: PixelFmt, to: PixelFmt, split: bool, disk: Option<nat>, queueErrs: seq<VfErr>)
    returns (err: VfErr, ctx: Context, file: Stream?, pipeline: Pipeline)
    requires |queueErrs| == 2
    ensures fresh(ctx) && fresh(pipeline) && pipeline.Valid() && |pipeline.units| == 3
    ensures forall k | 0 <= k < 3 :: fresh(pipeline.units[k])
    ensures forall k | 0 <= k < |pipeline.queues| :: fresh(pipeline.queues[k]) && fresh(pipeline.queues[k].slots)
    ensures err == SUCCESS ==>
      Supported(from, to) && ctx.Valid() && ctx.initialized && ctx.srcFmt == from && ctx.dstFmt == to
    ensures err == SUCCESS <==> readable && Supported(from, to) && (split || disk.Some?) && NoErr(queueErrs, 2)
    ensures err == SUCCESS && !split ==> file != null && file.room == disk.value
    ensures file != null ==> fresh(file) && file.bytes == []
    ensures split ==> file == null
    ensures if err == SUCCESS then Running(pipeline) else pipeline.Down()
  {
    ctx := new Context();
    var convErr := ctx.Init(from, to);
    var outErr;
    outErr, file := OpenConcat(split, disk);
    var inErr := if readable then SUCCESS else FILE_ERR;
    var creations := [Creation(true, inErr), Creation(true, convErr), Creation(true, outErr)];
    err, pipeline := SetUpPipeline(queueErrs, creations);
    AllCreated(queueErrs, creations);
    assert creations[0].Err() == inErr && creations[1].Err() == convErr && creations[2].Err() == outErr;
    if err != SUCCESS {
      return;
    }
    OpenedIsEmpty(pipeline.queues[0], MAX_CAPACITY);
    OpenedIsEmpty(pipeline.queues[1], MAX_CAPACITY);
  }

  lemma FirstMustRead(frames: seq<Option<seq<byte>>>, from: Params, split: bool, disks: seq<Option<nat>>, room: nat,
                      to: Params)
    requires |frames| > 0
    ensures Suffices(frames, from, split, disks, room, to) ==> frames[0].Some?
  {
    assert Suffices(frames, from, split, disks, room, to) ==> Readable(frames[0], from);
  }

  predicate EvenIfShared(p: Params, to: PixelFmt) {
    SharesChroma(p.format) || (SharesChroma(to) && p.format != RAW8) ==> p.width % 2 == 0 && p.height % 2 == 0
  }

  /** No step failed exactly if no queue and no unit failed. */
  lemma AllCreated(queueErrs: seq<VfErr>, creations: seq<Creation>)
    ensures FirstErr(queueErrs + CreationErrs(creations)) == SUCCESS
            <==> NoErr(queueErrs, |queueErrs|) && forall i | 0 <= i < |creations| :: creations[i].Err() == SUCCESS
  {
    var errs := CreationErrs(creations);
    assert forall i | 0 <= i < |creations| :: creations[i].Err() == errs[i];
    FirstErrOfBoth(queueErrs, errs);
    FirstErrNone(queueErrs);
    FirstErrNone(errs);
  }

  method RunUnits(frames: seq<Option<seq<byte>>>, from: Params, to: Params, split: bool, out: Stream?, ghost room: nat,
                  disks: seq<Option<nat>>, poolIn: BufPool, poolOut: BufPool, ctx: Context, q0: BufQueue, q1: BufQueue)
    returns (err: VfErr, waits: bool, file: Stream?,
             ghost files: seq<Stream>, ghost outs: seq<seq<byte>>, ghost last: seq<byte>)
    requires |disks| == |frames| && (if split then out == null else out != null && out.bytes == [] && out.room == room)
    requires Separate(poolIn, poolOut) && Supplied(poolIn, from) && Supplied(poolOut, to)
    requires poolIn.slots[0].data != poolOut.slots[0].data && to == from.(format := to.format)
    requires EvenIfShared(from, to.format)
    requires ctx.Valid() && ctx.initialized && ctx.srcFmt == from.format && ctx.dstFmt == to.format
    requires q0 != q1 && q0.slots != q1.slots && QueueHas(q0, []) && QueueHas(q1, [])
    modifies poolIn`available, poolIn.inUse, poolOut`available, poolOut.inUse
    modifies {poolIn.slots[0] as Framebuffer}`refCount, poolIn.slots[0].data, poolOut.slots[0].data
    modifies out, q0, q0.slots, q1, q1.slots
    ensures !waits && Supplied(poolIn, from) && Supplied(poolOut, to)
    ensures err == SUCCESS <==> Suffices(frames, from, split, disks, if split then 0 else room, to)
    ensures if err == SUCCESS then Delivered(frames, from, to, split, file, files, outs)
            else Interrupted(frames, from, to, split, room, file, files, outs, last)
  {
    hide Supplied, Scenario.Idle, Scenario.Ready, QueueHas, Converted, Concat, Took, Hold, EvenIfShared, Suffices;
    var scenario := Configure(frames, from, to, split, out, poolIn, poolOut, ctx, q0, q1);
    err, waits, files, outs, last := scenario.RunPipelineForFrames(disks);
    file := scenario.fileOut.file;
    StillSupplied(scenario);
  }

  /** At rest, both pools are supplied for the frames in their slots. */
  lemma StillSupplied(scenario: Scenario)
    requires scenario.slots == POOL_SLOT_COUNT && scenario.Wired() && scenario.Idle() && scenario.Ready()
    ensures Supplied(scenario.poolIn, scenario.poolIn.slots[0].params)
    ensures scenario.poolOut.slots[0].refCount == 0 ==> Supplied(scenario.poolOut, scenario.poolOut.slots[0].params)
  {
  }

  /** The units' configurations: both file units work on one set of frames. */
  method Configure(frames: seq<Option<seq<byte>>>, ghost from: Params, ghost to: Params, split: bool, out: Stream?,
                   poolIn: BufPool, poolOut: BufPool, ctx: Context, q0: BufQueue, q1: BufQueue)
    returns (scenario: Scenario)
    requires Separate(poolIn, poolOut) && Supplied(poolIn, from) && Supplied(poolOut, to)
    requires poolIn.slots[0].data != poolOut.slots[0].data && to == from.(format := to.format)
    requires EvenIfShared(from, to.format)
    requires ctx.Valid() && ctx.initialized && ctx.srcFmt == from.format && ctx.dstFmt == to.format
    requires q0 != q1 && q0.slots != q1.slots && QueueHas(q0, []) && QueueHas(q1, [])
    ensures scenario.poolIn == poolIn && scenario.poolOut == poolOut && scenario.q0 == q0 && scenario.q1 == q1
    ensures scenario.slots == POOL_SLOT_COUNT && scenario.Wired() && scenario.Idle() && scenario.Ready()
    ensures fresh(scenario.fileIn) && fresh(scenario.conv) && fresh(scenario.fileOut)
    ensures scenario.fileIn.frames == frames && scenario.fileIn.frameIdx == scenario.fileOut.frameIdx == 0
    ensures scenario.fileOut.split == split && scenario.fileOut.file == out
    ensures poolIn.slots[0].params == from && poolOut.slots[0].params == to && poolOut.slots[0].refCount == 0
  {
    hide PoolHas, QueueHas, Framebuffer.Allocated;
    var fileIn := new FileUnit(In, poolIn, frames, false, null);
    var conv := new ConversionUnit(ctx, poolOut, poolIn);
    var fileOut := new FileUnit(Out, poolOut, frames, split, out);
    scenario := new Scenario(fileIn, conv, fileOut, q0, q1, POOL_SLOT_COUNT);
  }
}
