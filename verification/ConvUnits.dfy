/** The conversion unit as an object. It holds a slot of each pool between its steps. */
module ConvUnits {
  import opened Options
  import opened Layout
  import opened BufSpec
  import opened WaitSpec
  import opened Frames
  import opened BufQueues
  import opened BufPools
  import opened ConvRows
  import opened Conversion
  import opened FileUnits

  class ConversionUnit {
    const ctx: Context
    const pool: BufPool
    const srcPool: BufPool
    var inFb: Framebuffer?
    var outFb: Framebuffer?

    constructor (ctx: Context, pool: BufPool, srcPool: BufPool)
      ensures this.ctx == ctx && this.pool == pool && this.srcPool == srcPool && inFb == null && outFb == null
    {
      this.ctx, this.pool, this.srcPool := ctx, pool, srcPool;
      inFb, outFb := null, null;
    }

    /** Takes the oldest frame of the queue. A frame still held is forgotten. */
    method GetData(input: BufQueue) returns (err: VfErr, waits: bool)
      requires input.Valid()
      modifies this`inFb, input, input.slots
      ensures input.Valid() && input.initialized == old(input.initialized)
      ensures !input.initialized ==> err == INIT_FAILED && !waits && inFb == old(inFb)
      ensures input.initialized ==> (waits <==> Await(|old(input.Abs()).items|, old(input.shutdown)) == Wait)
      ensures input.initialized ==>
        if old(input.Abs()).items != [] then
          err == SUCCESS && inFb == old(input.Abs()).items[0] && input.Abs() == old(input.Abs()).Pop()
        else inFb == null && input.Abs() == old(input.Abs()) && (!waits ==> err == QUEUE_SHUTDOWN)
    {
      var fb;
      err, waits, fb := input.PopBlockingPass();
      if err != INIT_FAILED {
        inFb := fb;
      }
    }

    /** src may be converted into the slot an acquire hands out. */
    ghost predicate Convertible(src: Framebuffer)
      requires pool.Valid()
      reads src, ctx, pool, pool.inUse, pool.slots
    {
      && ctx.Valid() && Laid(src) && Stocked(pool)
      && (pool.initialized && pool.Abs().free != {} && src.data != null ==>
            src.data != pool.slots[Lowest(pool.Abs().free)].data)
      && (SharesChroma(ctx.srcFmt) || (SharesChroma(ctx.dstFmt) && ctx.srcFmt != RAW8) ==>
            src.params.width % 2 == 0 && src.params.height % 2 == 0)
    }

    /** Converts the held frame into a free slot of the output pool. When that fails the slot goes back,
        but the input frame stays held. */
    method ProcessData() returns (err: VfErr, waits: bool)
      requires pool.Valid() && Stocked(pool) && (inFb != null ==> Convertible(inFb))
      modifies this`outFb, pool`available, pool.inUse, NextMemory(pool)
      ensures pool.Valid() && pool.initialized == old(pool.initialized)
      ensures inFb == null ==> err == INVALID_PARAMETER
      ensures inFb != null && !pool.initialized ==> err == INIT_FAILED
      ensures inFb == null || !pool.initialized ==> !waits && outFb == old(outFb)
      ensures inFb == null && pool.initialized ==> pool.Abs() == old(pool.Abs())
      ensures inFb != null && pool.initialized ==>
        (waits <==> Await(|old(pool.Abs()).free|, old(pool.shutdown)) == Wait)
      ensures inFb != null && pool.initialized && old(pool.Abs()).free == {} ==>
        outFb == null && pool.Abs() == old(pool.Abs()) && (!waits ==> err == QUEUE_SHUTDOWN)
      ensures inFb != null && pool.initialized && old(pool.Abs()).free != {} ==>
        var i := Lowest(old(pool.Abs()).free);
        i < |pool.slots| && Processed(err, old(ctx.Verdict(inFb, pool.slots[i])), old(pool.Abs()), i)
    {
      hide FreeSlots, Lowest, IndexOf, ConversionOf;
      if inFb == null {
        return INVALID_PARAMETER, false;
      }
      ghost var free := if pool.initialized then pool.Abs().free else {};
      ghost var before := Pool(pool.capacity, free, pool.shutdown);
      var fb;
      err, waits, fb := pool.AcquireBlockingPass();
      if err == INIT_FAILED {
        return;
      }
      outFb := fb;
      if err == SUCCESS && !waits {
        err := Convert(before, Lowest(before.free));
      }
    }

    /** How processing ends with slot i of the pool. */
    ghost predicate Processed(err: VfErr, verdict: VfErr, before: Pool, i: nat)
      requires Up(pool) && i < |pool.slots|
      reads this, inFb, outFb, pool, pool.inUse
      reads if inFb == null then {} else {inFb.data}, if outFb == null then {} else {outFb.data}
    {
      && err == verdict
      && if err == SUCCESS then
           && outFb == pool.slots[i] && pool.Abs() == before.Take(i)
           && inFb != null && inFb.data != null && outFb.data != null && ConversionOf(Shot(inFb), Shot(outFb))
         else outFb == null && pool.Abs() == before
    }

    method Convert(ghost before: Pool, ghost i: nat) returns (err: VfErr)
      requires Up(pool) && i < pool.capacity && outFb == pool.slots[i]
      requires pool.Abs() == before.Take(i) && i in before.free
      requires inFb != null && ctx.Valid() && Laid(inFb) && outFb.Allocated() && inFb.data != outFb.data
      requires SharesChroma(ctx.srcFmt) || (SharesChroma(ctx.dstFmt) && ctx.srcFmt != RAW8) ==>
                 inFb.params.width % 2 == 0 && inFb.params.height % 2 == 0
      modifies this`outFb, pool`available, pool.inUse, outFb.data
      ensures Up(pool) && Processed(err, old(ctx.Verdict(inFb, outFb)), before, i)
    {
      hide ConversionOf, FreeSlots, IndexOf;
      err := ctx.Process(inFb, outFb);
      if err != SUCCESS {
        DropOut(before, i);
      }
    }

    /** The held output slot goes back to the pool it was taken from. */
    method DropOut(ghost before: Pool, ghost i: nat)
      requires Up(pool) && i < pool.capacity && outFb == pool.slots[i]
      requires pool.Abs() == before.Take(i) && i in before.free
      modifies this`outFb, pool`available, pool.inUse
      ensures Up(pool) && pool.Abs() == before && outFb == null
    {
      TakeRelease(pool, before, i);
      var err, signalled := pool.Release(outFb);
      outFb := null;
    }

    /** What dropping a reference to fb does to the input pool. */
    ghost function SourceAfter(before: Pool, fb: Framebuffer, count: nat): Pool
      reads srcPool
    {
      if count > 1 || srcPool.capacity > |srcPool.slots| then before
      else before.Release(IndexOf(srcPool.slots, fb, srcPool.capacity))
    }

    /** Drops the reference to the input frame. */
    method DropIn()
      requires Up(srcPool) && inFb != null && inFb.refCount < WORD
      modifies this`inFb, inFb`refCount, srcPool`available, srcPool.inUse
      ensures Up(srcPool) && inFb == null
      ensures srcPool.Abs() == SourceAfter(old(srcPool.Abs()), old(inFb), old(inFb.refCount))
      ensures old(inFb).refCount == if old(inFb.refCount) == 0 then 0 else old(inFb.refCount) - 1
    {
      var err := Unref(inFb, srcPool);
      inFb := null;
    }

    /** Pushes the converted slot, and only then drops the reference to the input frame, if there is one. */
    method SendData(out: BufQueue, ghost before: Pool, ghost i: nat) returns (err: VfErr)
      requires Up(pool) && out.Valid()
      requires outFb != null ==>
        i < pool.capacity && outFb == pool.slots[i] && pool.Abs() == before.Take(i) && i in before.free
      requires Up(srcPool) && srcPool != pool && srcPool.inUse != pool.inUse
      requires inFb != null ==> inFb.refCount < WORD
      modifies this`inFb, this`outFb, pool`available, pool.inUse, out, out.slots
      modifies (if inFb == null then {} else {inFb})`refCount, srcPool`available, srcPool.inUse
      ensures Up(pool) && Up(srcPool) && out.Valid() && out.initialized == old(out.initialized) && outFb == null
      ensures err == if old(outFb) == null then INVALID_PARAMETER
                     else if !out.initialized then INIT_FAILED
                     else if old(out.Abs()).Full() then OOM
                     else SUCCESS
      ensures err != SUCCESS ==>
        inFb == old(inFb) && pool.Abs() == if old(outFb) == null then old(pool.Abs()) else before
      ensures err != SUCCESS ==> srcPool.Abs() == old(srcPool.Abs())
      ensures err != SUCCESS && out.initialized ==> out.Abs() == old(out.Abs())
      ensures err == SUCCESS ==> inFb == null && pool.Abs() == before.Take(i)
      ensures err == SUCCESS ==> out.Abs() == old(out.Abs()).Push(pool.slots[i])
      ensures err == SUCCESS && old(inFb) == null ==> srcPool.Abs() == old(srcPool.Abs())
      ensures err == SUCCESS && old(inFb) != null ==>
        srcPool.Abs() == SourceAfter(old(srcPool.Abs()), old(inFb), old(inFb.refCount))
      ensures old(inFb) != null ==>
        old(inFb).refCount == old(inFb.refCount) - if old(inFb.refCount) == 0 || err != SUCCESS then 0 else 1
    {
      hide FreeSlots, Lowest, Ring, IndexOf;
      if outFb == null {
        return INVALID_PARAMETER;
      }
      err := out.Push(outFb);
      if err != SUCCESS {
        DropOut(before, i);
        return;
      }
      if inFb != null {
        DropIn();
      }
      outFb := null;
    }

    /** src and dst are of one size, and of the formats the context converts. */
    ghost predicate Matched(src: Framebuffer, dst: Framebuffer)
      reads ctx
      reads src`data, src`ownsMemory, src`params, src`planes, src`totalSize
      reads dst`data, dst`ownsMemory, dst`params, dst`planes, dst`totalSize
    {
      && src.Allocated() && dst.Allocated() && src.data != dst.data
      && ctx.Valid() && ctx.initialized
      && src.params.format == ctx.srcFmt && dst.params.format == ctx.dstFmt
      && src.params.width == dst.params.width && src.params.height == dst.params.height
      && (SharesChroma(ctx.srcFmt) || (SharesChroma(ctx.dstFmt) && ctx.srcFmt != RAW8) ==>
            src.params.width % 2 == 0 && src.params.height % 2 == 0)
    }

    method GetDataIdle(input: BufQueue, ghost fb: Framebuffer) returns (err: VfErr, waits: bool)
      requires QueueHas(input, [fb])
      modifies this`inFb, input, input.slots
      ensures err == SUCCESS && !waits && inFb == fb && QueueHas(input, [])
    {
      err, waits := GetData(input);
    }

    method ProcessDataIdle(ghost slots: nat) returns (err: VfErr, waits: bool)
      requires slots > 0 && PoolHas(pool, slots, Range(slots)) && inFb != null && Matched(inFb, pool.slots[0])
      modifies this`outFb, pool`available, pool.inUse, pool.slots[0].data
      ensures err == SUCCESS && !waits && outFb == pool.slots[0]
      ensures PoolHas(pool, slots, Range(slots) - {0})
      ensures inFb.data != null && pool.slots[0].data != null && ConversionOf(Shot(inFb), Shot(pool.slots[0]))
    {
      hide FreeSlots, IndexOf, Lowest, Range, ConversionOf;
      LowestOfAll(slots);
      err, waits := ProcessData();
    }

    method SendDataIdle(out: BufQueue, ghost slots: nat) returns (err: VfErr)
      requires slots > 0 && PoolHas(pool, slots, Range(slots) - {0}) && outFb == pool.slots[0] && QueueHas(out, [])
      requires PoolHas(srcPool, slots, Range(slots) - {0}) && inFb == srcPool.slots[0] && inFb.refCount == 0
      requires srcPool != pool && srcPool.inUse != pool.inUse
      modifies this`inFb, this`outFb, pool`available, pool.inUse, out, out.slots
      modifies inFb`refCount, srcPool`available, srcPool.inUse
      ensures err == SUCCESS
      ensures PoolHas(pool, slots, Range(slots) - {0}) && QueueHas(out, [pool.slots[0]])
      ensures PoolHas(srcPool, slots, Range(slots)) && srcPool.slots[0].refCount == 0
    {
      hide FreeSlots, Ring, Unroll, IndexOf, Lowest, Range;
      LowestOfAll(slots);
      err := SendData(out, Pool(slots, Range(slots), false), 0);
    }

    /** A run with slot 0 of the input pool in the queue and everything else at rest does not wait and
        does not fail: it leaves slot 0 of the output pool, with the conversion, in the next queue. */
    method RunIdle(input: BufQueue, out: BufQueue, ghost slots: nat) returns (err: VfErr, waits: bool)
      requires slots > 0 && |srcPool.slots| == |pool.slots| == MAX_SLOTS
      requires PoolHas(srcPool, slots, Range(slots) - {0}) && QueueHas(input, [srcPool.slots[0]])
      requires PoolHas(pool, slots, Range(slots)) && QueueHas(out, [])
      requires Matched(srcPool.slots[0], pool.slots[0]) && srcPool.slots[0].refCount == 0
      requires srcPool != pool && srcPool.inUse != pool.inUse && input != out && input.slots != out.slots
      modifies this`inFb, this`outFb, pool`available, pool.inUse, pool.slots[0].data, srcPool`available, srcPool.inUse
      modifies {srcPool.slots[0] as Framebuffer}`refCount, input, input.slots, out, out.slots
      ensures err == SUCCESS && !waits
      ensures PoolHas(srcPool, slots, Range(slots)) && QueueHas(input, [])
      ensures PoolHas(pool, slots, Range(slots) - {0}) && QueueHas(out, [pool.slots[0]])
      ensures srcPool.slots[0].refCount == 0 && srcPool.slots[0].data != null && pool.slots[0].data != null
      ensures ConversionOf(Shot(srcPool.slots[0]), Shot(pool.slots[0]))
    {
      hide PoolHas, QueueHas, ConversionOf, Matched;
      err, waits := GetDataIdle(input, srcPool.slots[0]);
      err, waits := ProcessDataIdle(slots);
      ghost var f, g := Shot(srcPool.slots[0]), Shot(pool.slots[0]);
      err := SendDataIdle(out, slots);
      assert f == Shot(srcPool.slots[0]) && g == Shot(pool.slots[0]);
    }
  }
}
