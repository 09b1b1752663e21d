/** The file unit as an object: source of frames from files, and sink of frames to files. */
module FileUnits {
  import opened Options
  import opened Layout
  import opened BufSpec
  import opened WaitSpec
  import opened Frames
  import opened FrameIo
  import opened BufQueues
  import opened BufPools

  ghost predicate Up(pool: BufPool)
    reads pool, pool.inUse
  {
    pool.Valid() && pool.initialized
  }

  /** The slot an acquire would hand out has its memory. */
  ghost predicate Stocked(pool: BufPool)
    requires pool.Valid()
    reads pool, pool.inUse, pool.slots
  {
    pool.initialized && pool.Abs().free != {} ==>
      Lowest(pool.Abs().free) < |pool.slots| && pool.slots[Lowest(pool.Abs().free)].Allocated()
  }

  /** The memory of that slot. */
  ghost function NextMemory(pool: BufPool): set<object>
    requires pool.Valid() && Stocked(pool)
    reads pool, pool.inUse, pool.slots
  {
    if !pool.initialized || pool.Abs().free == {} then {} else {pool.slots[Lowest(pool.Abs().free)].data}
  }

  ghost predicate PoolHas(pool: BufPool, slots: nat, free: set<nat>)
    reads pool, pool.inUse
  {
    Up(pool) && pool.Abs() == Pool(slots, free, false)
  }

  ghost predicate QueueHas(q: BufQueue, items: seq<Framebuffer?>)
    reads q, q.slots
  {
    q.Valid() && q.initialized && q.Abs() == Queue(items, MAX_CAPACITY, false)
  }

  lemma LowestOfAll(n: nat)
    requires n > 0
    ensures Range(n) != {} && Lowest(Range(n)) == 0 && Range(n) - {0} + {0} == Range(n)
  {
    assert 0 in Range(n);
  }

  /** Taking a slot and giving it back changes nothing. */
  lemma TakeRelease(pool: BufPool, before: Pool, i: nat)
    requires pool.Valid() && i in before.free && i < before.slots == pool.capacity <= |pool.slots|
    ensures IndexOf(pool.slots, pool.slots[i], pool.capacity) == i
    ensures before.Take(i).Release(i) == before
  {
    assert before.free - {i} + {i} == before.free;
  }

  /** How many bytes a frame takes from its file. */
  ghost function Size(fb: Framebuffer): nat
    reads fb`planes
  {
    BodySize(fb.planes, Used(fb.planes))
  }

  /** What a frame puts into its file. */
  ghost function BodyOf(fb: Framebuffer): seq<byte>
    requires fb.data != null
    reads fb`planes, fb`data, fb.data
  {
    Body(fb.planes, fb.data[..])
  }

  /** The size of a file for frames of the given parameters. */
  ghost function FileSize(p: Params): nat {
    if PlanesOf(p).None? then 0 else BodySize(PlanesOf(p).value, Used(PlanesOf(p).value))
  }

  /** A file holds 1, 2, 3, 3 or 4 bytes for each pixel of the packed formats, and 12 bits in 4:2:0. */
  lemma BitsPerPixel(p: Params)
    requires p.width > 0 && p.height > 0
    ensures p.format == RAW8 ==> FileSize(p) == p.width * p.height
    ensures p.format == YUYV ==> FileSize(p) == 2 * p.width * p.height
    ensures p.format == RGB888 || p.format == BGR888 ==> FileSize(p) == 3 * p.width * p.height
    ensures p.format == RGBA8888 ==> FileSize(p) == 4 * p.width * p.height
    ensures p.format in {YUV420P, NV12} && p.width % 2 == 0 && p.height % 2 == 0 ==>
      2 * FileSize(p) == 3 * (p.width * p.height)
  {
    hide FileSize;
    if Bpp(p.format) > 0 {
      PackedFile(p);
      LinesOf(p);
    } else if p.format in {YUV420P, NV12} && p.width % 2 == 0 && p.height % 2 == 0 {
      SharedFile(p);
    }
  }

  lemma PackedFile(p: Params)
    requires p.width > 0 && p.height > 0 && Bpp(p.format) > 0
    ensures |LineTable(p)| == MAX_PLANES
    ensures var (width, size, lines) := LineTable(p)[0]; FileSize(p) == size * lines
  {
    hide LineTable, Align;
    PlanesSound(p);
    AllUsed(PlanesOf(p).value, 1);
    FirstLines(p);
  }

  lemma FirstLines(p: Params)
    requires PlanesOf(p).Some?
    ensures |LineTable(p)| == |PlanesOf(p).value| == MAX_PLANES
    ensures var q := PlanesOf(p).value[0]; LineTable(p)[0] == (q.width, q.lineSize, q.height)
  {
  }

  lemma SharedFile(p: Params)
    requires p.width > 0 && p.height > 0 && p.format in {YUV420P, NV12} && p.width % 2 == 0 && p.height % 2 == 0
    ensures 2 * FileSize(p) == 3 * (p.width * p.height)
  {
    hide Align;
    PlanesSound(p);
    HalvesMultiply(p.width, p.height);
    AllUsed(PlanesOf(p).value, if p.format == NV12 then 2 else 3);
  }

  /** The planes in front of the first empty one, summed up. */
  lemma AllUsed(planes: seq<Plane>, n: nat)
    requires |planes| == MAX_PLANES && 1 <= n < MAX_PLANES && planes[n].size == 0
    requires forall k | 0 <= k < n :: planes[k].size > 0
    ensures Used(planes) == n
    ensures BodySize(planes, n) == planes[0].lineSize * planes[0].height
                                   + (if n > 1 then planes[1].lineSize * planes[1].height else 0)
                                   + (if n > 2 then planes[2].lineSize * planes[2].height else 0)
  {
    UsedUpTo(planes, n);
    assert BodySize(planes, 1) == BodySize(planes, 0) + planes[0].lineSize * planes[0].height;
    if n > 1 {
      assert BodySize(planes, 2) == BodySize(planes, 1) + planes[1].lineSize * planes[1].height;
    }
    if n > 2 {
      assert BodySize(planes, 3) == BodySize(planes, 2) + planes[2].lineSize * planes[2].height;
    }
  }

  lemma {:induction false} UsedUpTo(planes: seq<Plane>, n: nat)
    requires n < |planes| && planes[n].size == 0
    requires forall k | 0 <= k < n :: planes[k].size > 0
    ensures Used(planes) == n
  {
    if n > 0 {
      UsedUpTo(planes[1..], n - 1);
    }
  }

  lemma HalvesMultiply(w: nat, h: nat)
    requires w % 2 == 0 && h % 2 == 0
    ensures w * (h / 2) * 2 == w * h && w / 2 * (h / 2) * 4 == w * h
  {
    var a, b := w / 2, h / 2;
    assert w == 2 * a && h == 2 * b;
    assert w * h == 4 * (a * b);
  }

  lemma SizeOfBody(fb: Framebuffer)
    requires fb.Allocated()
    ensures Size(fb) == FileSize(fb.params) == |BodyOf(fb)|
  {
    PlanesSound(fb.params);
    PlanesSize(fb.planes, fb.data[..], Used(fb.planes));
  }

  method Load(fb: Framebuffer, file: Stream) returns (err: VfErr)
    requires fb.Allocated() && file.pos == 0
    modifies file`pos, fb.data
    ensures err == if |file.bytes| < Size(fb) then FILE_ERR else SUCCESS
    ensures err == SUCCESS ==> BodyOf(fb) == file.bytes[..Size(fb)]
  {
    PlanesSound(fb.params);
    var read;
    err, read := ReadFrom(fb, file);
  }

  method Store(fb: Framebuffer, file: Stream) returns (err: VfErr)
    requires fb.Allocated()
    modifies file
    ensures err == if |BodyOf(fb)| <= old(file.room) then SUCCESS else FILE_ERR
    ensures file.bytes == old(file.bytes) + Took(BodyOf(fb), old(file.room))
    ensures err == SUCCESS ==> file.room + |BodyOf(fb)| == old(file.room)
  {
    PlanesSound(fb.params);
    var written;
    err, written := WriteTo(fb, file);
  }

  datatype Mode = In | Out

  class FileUnit {
    const mode: Mode
    const pool: BufPool
    const frames: seq<Option<seq<byte>>>    // what the files of the frame set hold; None for one that cannot be opened
    const split: bool
    var file: Stream?
    var currentFb: Framebuffer?
    var frameIdx: nat

    constructor (mode: Mode, pool: BufPool, frames: seq<Option<seq<byte>>>, split: bool, file: Stream?)
      ensures this.mode == mode && this.pool == pool && this.frames == frames && this.split == split
      ensures this.file == file && currentFb == null && frameIdx == 0
    {
      this.mode, this.pool, this.frames, this.split := mode, pool, frames, split;
      this.file := file;
      currentFb, frameIdx := null, 0;
    }

    /** The file of the current frame cannot be opened, or holds too little for slot i. */
    ghost predicate Unreadable(i: nat)
      requires i < |pool.slots| && frameIdx < |frames|
      reads this, pool.slots[i]
    {
      frames[frameIdx].None? || |frames[frameIdx].value| < Size(pool.slots[i])
    }

    /** Opens the file of the current frame, takes a slot and reads the frame into it. */
    method GetDataIn() returns (err: VfErr, waits: bool)
      requires pool.Valid() && Stocked(pool) && frameIdx < |frames|
      modifies this, pool`available, pool.inUse, NextMemory(pool)
      ensures pool.Valid() && pool.initialized == old(pool.initialized)
      ensures if frames[old(frameIdx)].None? then file == null
              else file != null && fresh(file) && file.bytes == frames[old(frameIdx)].value
      ensures !pool.initialized ==> !waits && err == if frames[old(frameIdx)].None? then FILE_ERR else INIT_FAILED
      ensures !pool.initialized ==> frameIdx == old(frameIdx) && currentFb == old(currentFb)
      ensures pool.initialized ==>
        (waits <==> frames[old(frameIdx)].Some? && Await(|old(pool.Abs()).free|, old(pool.shutdown)) == Wait)
      ensures pool.initialized && err == SUCCESS && !waits ==> old(pool.Abs()).free != {}
      ensures pool.initialized && err == SUCCESS && !waits ==>
        var i := Lowest(old(pool.Abs()).free);
        && i < |pool.slots| && !old(Unreadable(i))
        && currentFb == pool.slots[i] && frameIdx == old(frameIdx) + 1 && pool.Abs() == old(pool.Abs()).Take(i)
        && pool.slots[i].data != null
        && BodyOf(pool.slots[i]) == frames[old(frameIdx)].value[..Size(pool.slots[i])]
      ensures pool.initialized && (err != SUCCESS || waits) ==>
        pool.Abs() == old(pool.Abs()) && frameIdx == old(frameIdx) && (currentFb == null || currentFb == old(currentFb))
      ensures pool.initialized && old(pool.Abs()).free != {} ==>
        var i := Lowest(old(pool.Abs()).free);
        i < |pool.slots| && err == if old(Unreadable(i)) then FILE_ERR else SUCCESS
    {
      hide BodyOf, Size, FreeSlots, Lowest, IndexOf;
      waits := false;
      file := null;
      match frames[frameIdx] {
        case None =>
          err := FILE_ERR;
        case Some(bytes) =>
          file := new Stream(bytes, 0);
          ghost var free := if pool.initialized then pool.Abs().free else {};
          ghost var before := Pool(pool.capacity, free, pool.shutdown);
          var fb;
          err, waits, fb := pool.AcquireBlockingPass();
          if err == INIT_FAILED {
            return;
          }
          currentFb := fb;
          if err == SUCCESS && !waits {
            err := Fill(before, Lowest(before.free));
          }
      }
    }

    /** Reads the open file into the slot just taken; when that fails the slot goes back. */
    method Fill(ghost before: Pool, ghost i: nat) returns (err: VfErr)
      requires Up(pool) && i < pool.capacity && currentFb == pool.slots[i]
      requires pool.Abs() == before.Take(i) && i in before.free
      requires pool.slots[i].Allocated() && file != null && file.pos == 0
      modifies this, file, pool`available, pool.inUse, pool.slots[i].data
      ensures Up(pool)
      ensures err == if |old(file.bytes)| < old(Size(pool.slots[i])) then FILE_ERR else SUCCESS
      ensures file == old(file) && file.bytes == old(file.bytes)
      ensures if err == SUCCESS then
                && currentFb == pool.slots[i] && frameIdx == old(frameIdx) + 1 && pool.Abs() == before.Take(i)
                && pool.slots[i].data != null
                && BodyOf(pool.slots[i]) == old(file.bytes)[..Size(pool.slots[i])]
              else currentFb == null && frameIdx == old(frameIdx) && pool.Abs() == before
    {
      err := Load(currentFb, file);
      if err != SUCCESS {
        Drop(before, i);
        return;
      }
      frameIdx := frameIdx + 1;
    }

    /** The held slot goes back to the pool it was taken from. */
    method Drop(ghost before: Pool, ghost i: nat)
      requires Up(pool) && i < pool.capacity && currentFb == pool.slots[i]
      requires pool.Abs() == before.Take(i) && i in before.free
      modifies this`currentFb, pool`available, pool.inUse
      ensures Up(pool) && pool.Abs() == before && currentFb == null
    {
      TakeRelease(pool, before, i);
      var err, signalled := pool.Release(currentFb);
      currentFb := null;
    }

    /** Frames go on as they are. */
    method ProcessData() returns (err: VfErr)
      ensures err == SUCCESS
    {
      err := SUCCESS;
    }

    /** Pushes the held slot; when the queue does not take it the slot goes back. */
    method SendDataIn(out: BufQueue, ghost before: Pool, ghost i: nat) returns (err: VfErr)
      requires Up(pool) && out.Valid()
      requires currentFb != null ==>
        i < pool.capacity && currentFb == pool.slots[i] && pool.Abs() == before.Take(i) && i in before.free
      modifies this`currentFb, pool`available, pool.inUse, out, out.slots
      ensures Up(pool) && out.Valid() && out.initialized == old(out.initialized) && currentFb == null
      ensures err == if old(currentFb) == null then INVALID_PARAMETER
                     else if !out.initialized then INIT_FAILED
                     else if old(out.Abs()).Full() then OOM
                     else SUCCESS
      ensures pool.Abs() == if err == SUCCESS then before.Take(i)
                            else if old(currentFb) == null then old(pool.Abs())
                            else before
      ensures out.initialized ==>
        out.Abs() == if err == SUCCESS then old(out.Abs()).Push(pool.slots[i]) else old(out.Abs())
    {
      hide FreeSlots, Lowest, Ring, IndexOf;
      if currentFb == null {
        return INVALID_PARAMETER;
      }
      err := out.Push(currentFb);
      if err != SUCCESS {
        Drop(before, i);
        return;
      }
      currentFb := null;
    }

    /** One run of a file source. A success moves the first free slot, filled from the current file,
        to the queue; whatever else happens leaves pool and queue as they were. */
    method RunIn(out: BufQueue) returns (err: VfErr, waits: bool)
      requires pool.Valid() && Stocked(pool) && frameIdx < |frames| && out.Valid()
      modifies this, pool`available, pool.inUse, NextMemory(pool), out, out.slots
      ensures pool.Valid() && pool.initialized == old(pool.initialized)
      ensures out.Valid() && out.initialized == old(out.initialized)
      ensures !pool.initialized ==> !waits && err == if frames[old(frameIdx)].None? then FILE_ERR else INIT_FAILED
      ensures pool.initialized ==>
        (waits <==> frames[old(frameIdx)].Some? && Await(|old(pool.Abs()).free|, old(pool.shutdown)) == Wait)
      ensures err == SUCCESS && !waits ==>
        && pool.initialized && out.initialized
        && old(pool.Abs()).free != {} && currentFb == null && frameIdx == old(frameIdx) + 1
      ensures err == SUCCESS && !waits ==>
        var i := Lowest(old(pool.Abs()).free);
        && i < |pool.slots| && !old(Unreadable(i))
        && pool.Abs() == old(pool.Abs()).Take(i) && out.Abs() == old(out.Abs()).Push(pool.slots[i])
        && pool.slots[i].data != null
        && BodyOf(pool.slots[i]) == frames[old(frameIdx)].value[..Size(pool.slots[i])]
      ensures pool.initialized && (err != SUCCESS || waits) ==> pool.Abs() == old(pool.Abs())
      ensures out.initialized && (err != SUCCESS || waits) ==> out.Abs() == old(out.Abs())
      ensures pool.initialized && old(pool.Abs()).free != {} ==>
        var i := Lowest(old(pool.Abs()).free);
        && i < |pool.slots|
        && err == if old(Unreadable(i)) then FILE_ERR
                  else if !out.initialized then INIT_FAILED
                  else if old(out.Abs()).Full() then OOM
                  else SUCCESS
    {
      hide BodyOf, Size, FreeSlots, Lowest, Ring, Unroll, IndexOf;
      ghost var free := if pool.initialized then pool.Abs().free else {};
      ghost var before := Pool(pool.capacity, free, pool.shutdown);
      err, waits := GetDataIn();
      if err != SUCCESS || waits {
        return;
      }
      err := ProcessData();
      err := SendDataIn(out, before, Lowest(before.free));
    }

    /** A run over a full pool and an empty queue does not wait, and moves slot 0 or nothing. */
    method RunInIdle(out: BufQueue, ghost slots: nat) returns (err: VfErr, waits: bool)
      requires PoolHas(pool, slots, Range(slots)) && QueueHas(out, [])
      requires pool.slots[0].Allocated() && frameIdx < |frames|
      modifies this, pool`available, pool.inUse, pool.slots[0].data, out, out.slots
      ensures !waits
      ensures err == SUCCESS ==>
        && PoolHas(pool, slots, Range(slots) - {0}) && QueueHas(out, [pool.slots[0]])
        && frameIdx == old(frameIdx) + 1 && frames[old(frameIdx)].Some? && pool.slots[0].data != null
        && Size(pool.slots[0]) <= |frames[old(frameIdx)].value|
        && BodyOf(pool.slots[0]) == frames[old(frameIdx)].value[..Size(pool.slots[0])]
      ensures err != SUCCESS ==>
        && err == FILE_ERR && PoolHas(pool, slots, Range(slots)) && QueueHas(out, [])
        && (frames[old(frameIdx)].None? || |frames[old(frameIdx)].value| < Size(pool.slots[0]))
    {
      hide BodyOf, Size, Framebuffer.Allocated, Lowest, FreeSlots, Ring, Unroll, Range;
      LowestOfAll(slots);
      err, waits := RunIn(out);
    }

    // --- Sink

    /** Takes the oldest frame of the queue. */
    method GetDataOut(input: BufQueue) returns (err: VfErr, waits: bool)
      requires input.Valid()
      modifies this`currentFb, input, input.slots
      ensures input.Valid() && input.initialized == old(input.initialized)
      ensures !input.initialized ==> err == INIT_FAILED && !waits && currentFb == old(currentFb)
      ensures input.initialized ==> (waits <==> Await(|old(input.Abs()).items|, old(input.shutdown)) == Wait)
      ensures input.initialized ==>
        if old(input.Abs()).items != [] then
          err == SUCCESS && currentFb == old(input.Abs()).items[0] && input.Abs() == old(input.Abs()).Pop()
        else currentFb == null && input.Abs() == old(input.Abs()) && (!waits ==> err == QUEUE_SHUTDOWN)
    {
      var fb;
      err, waits, fb := input.PopBlockingPass();
      if err != INIT_FAILED {
        currentFb := fb;
      }
    }

    /** The next file of a split output. */
    method OpenOut(disk: Option<nat>)
      modifies this`file
      ensures file == null <==> disk.None?
      ensures file != null ==> fresh(file) && file.bytes == [] && file.room == disk.value
    {
      file := null;
      if disk.Some? {
        file := new Stream([], disk.value);
      }
    }

    /** The file a write changes: none when every frame gets a new one. */
    ghost function Target(): set<Stream?>
      reads this
    {
      if split then {} else {file}
    }

    /** How much the file of the next frame takes; disk is for a new one, None if it cannot be opened. */
    ghost function Space(disk: Option<nat>): Option<nat>
      reads this, file
    {
      if split then disk else if file == null then None else Some(file.room)
    }

    /** What the file of the next frame holds before it. */
    ghost function Start(): seq<byte>
      reads this, file
    {
      if split || file == null then [] else file.bytes
    }

    /** Writes the held slot to the open file, or, split, to a new one: disk says whether that can
        be opened, and how much it takes. The slot goes back in every case. */
    method SendDataOut(disk: Option<nat>, ghost before: Pool, ghost i: nat) returns (err: VfErr)
      requires Up(pool) && (split ==> frameIdx < |frames|) && (!split ==> file != null)
      requires currentFb != null ==>
        && i < pool.capacity && currentFb == pool.slots[i] && pool.Abs() == before.Take(i) && i in before.free
        && pool.slots[i].Allocated()
      modifies this, Target(), pool`available, pool.inUse
      ensures Up(pool) && currentFb == null
      ensures old(currentFb) == null ==>
        err == INVALID_PARAMETER && pool.Abs() == old(pool.Abs()) && frameIdx == old(frameIdx) && file == old(file)
      ensures old(currentFb) == null && file != null ==> unchanged(file)
      ensures old(currentFb) != null ==>
        && pool.Abs() == before
        && frameIdx == old(frameIdx) + (if split && disk.None? then 0 else 1)
        && (if split then (file == null <==> disk.None?) && (file != null ==> fresh(file)) else file == old(file))
        && err == (if old(Space(disk)).Some? && |old(BodyOf(currentFb))| <= old(Space(disk)).value then SUCCESS
                   else FILE_ERR)
        && (file != null ==> file.bytes == old(Start()) + Took(old(BodyOf(currentFb)), old(Space(disk)).value))
        && (err == SUCCESS && !split ==> file.room + |old(BodyOf(currentFb))| == old(file.room))
    {
      hide BodyOf, FreeSlots, Lowest, IndexOf;
      if currentFb == null {
        return INVALID_PARAMETER;
      }
      if split {
        OpenOut(disk);
        if file == null {
          Drop(before, i);
          return FILE_ERR;
        }
      }
      err := Store(currentFb, file);
      Drop(before, i);
      frameIdx := frameIdx + 1;
    }

    method GetDataOutIdle(input: BufQueue, ghost fb: Framebuffer) returns (err: VfErr, waits: bool)
      requires QueueHas(input, [fb])
      modifies this`currentFb, input, input.slots
      ensures err == SUCCESS && !waits && currentFb == fb && QueueHas(input, [])
    {
      err, waits := GetDataOut(input);
    }

    /** A run over a queue with slot 0 in it, the rest of its pool being full, does not wait, and
        whatever becomes of the file leaves the pool full and the queue empty. */
    method RunOutIdle(input: BufQueue, disk: Option<nat>, ghost slots: nat) returns (err: VfErr, waits: bool)
      requires slots > 0 && PoolHas(pool, slots, Range(slots) - {0}) && QueueHas(input, [pool.slots[0]])
      requires pool.slots[0].Allocated() && (split ==> frameIdx < |frames|) && (!split ==> file != null)
      modifies this, Target(), pool`available, pool.inUse, input, input.slots
      ensures !waits && PoolHas(pool, slots, Range(slots)) && QueueHas(input, [])
      ensures frameIdx == old(frameIdx) + if split && disk.None? then 0 else 1
      ensures if split then (file == null <==> disk.None?) && (file != null ==> fresh(file)) else file == old(file)
      ensures pool.slots[0].data != null
      ensures err == if old(Space(disk)).Some? && |old(BodyOf(pool.slots[0]))| <= old(Space(disk)).value then SUCCESS
                     else FILE_ERR
      ensures file != null ==> file.bytes == old(Start()) + Took(old(BodyOf(pool.slots[0])), old(Space(disk)).value)
      ensures err == SUCCESS && !split ==> file.room + |old(BodyOf(pool.slots[0]))| == old(file.room)
    {
      hide BodyOf, FreeSlots, Lowest, Ring, Unroll, IndexOf, Range, Took, PlanesOf, TotalSize;
      err, waits := GetDataOutIdle(input, pool.slots[0]);
      err := ProcessData();
      LowestOfAll(slots);
      err := SendDataOut(disk, Pool(slots, Range(slots), false), 0);
    }
  }
}
