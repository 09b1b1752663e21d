/** The fixed pool of framebuffer slots, as an object. Its locked sections are its methods. */
module BufPools {
  import opened Options
  import opened BufSpec
  import opened WaitSpec
  import opened Layout
  import opened Frames

  /** The unused slots among the first capacity ones. */
  function FreeSlots(inUse: seq<bool>, capacity: nat): (free: set<nat>)
    requires capacity <= |inUse|
    ensures forall i: nat :: i in free <==> i < capacity && !inUse[i]
  {
    if capacity == 0 then {}
    else FreeSlots(inUse, capacity - 1) + if inUse[capacity - 1] then {} else {capacity - 1}
  }

  lemma FreeAfterTake(inUse: seq<bool>, capacity: nat, i: nat)
    requires i < capacity <= |inUse| && !inUse[i]
    ensures FreeSlots(inUse[i := true], capacity) == FreeSlots(inUse, capacity) - {i}
    ensures |FreeSlots(inUse[i := true], capacity)| == |FreeSlots(inUse, capacity)| - 1
  {
    assert forall k: nat :: k in FreeSlots(inUse[i := true], capacity) <==> k in FreeSlots(inUse, capacity) - {i};
  }

  lemma FreeAfterRelease(inUse: seq<bool>, capacity: nat, i: nat)
    requires i < capacity <= |inUse| && inUse[i]
    ensures FreeSlots(inUse[i := false], capacity) == FreeSlots(inUse, capacity) + {i}
    ensures |FreeSlots(inUse[i := false], capacity)| == |FreeSlots(inUse, capacity)| + 1
  {
    assert forall k: nat :: k in FreeSlots(inUse[i := false], capacity) <==> k in FreeSlots(inUse, capacity) + {i};
  }

  lemma AllFree(inUse: seq<bool>, capacity: nat)
    requires capacity <= |inUse| && forall i :: 0 <= i < capacity ==> !inUse[i]
    ensures FreeSlots(inUse, capacity) == Range(capacity)
  {
    assert forall k: nat :: k in FreeSlots(inUse, capacity) <==> k in Range(capacity);
  }

  predicate Allocatable(p: Params) {
    p.width > 0 && p.height > 0 && PlanesOf(p).Some?
  }

  predicate AllRoom(memory: seq<bool>, n: nat)
    requires n <= |memory|
  {
    forall i :: 0 <= i < n ==> memory[i]
  }

  /** The slot number of a frame among the first n slots, n if it is none of them. */
  function IndexOf(slots: seq<Framebuffer>, fb: Framebuffer, n: nat): (i: nat)
    requires n <= |slots|
    ensures i <= n && (i < n ==> slots[i] == fb)
    ensures forall k :: 0 <= k < i ==> slots[k] != fb
  {
    if n == 0 then 0
    else
      var i := IndexOf(slots, fb, n - 1);
      if i < n - 1 || slots[n - 1] == fb then i else n
  }

  class BufPool {
    const slots: seq<Framebuffer>
    const inUse: array<bool>
    var capacity: nat
    var available: nat
    var shutdown: bool
    var initialized: bool

    /** The slots are different frames. */
    ghost predicate Shape() {
      |slots| == inUse.Length == MAX_SLOTS && forall i, j :: 0 <= i < j < |slots| ==> slots[i] != slots[j]
    }

    /** available is the number of unused slots. */
    ghost predicate Valid()
      reads this, inUse
    {
      && Shape()
      && (initialized ==>
            && 1 <= capacity <= MAX_SLOTS
            && available == |FreeSlots(inUse[..], capacity)|)
    }

    /** The pool as a value. */
    ghost function Abs(): Pool
      requires Valid() && initialized
      reads this, inUse
    {
      Pool(capacity, FreeSlots(inUse[..], capacity), shutdown)
    }

    constructor (frames: seq<Framebuffer>)
      requires |frames| == MAX_SLOTS && forall i, j :: 0 <= i < j < |frames| ==> frames[i] != frames[j]
      ensures Valid() && Zeroed() && fresh(inUse) && slots == frames
    {
      slots := frames;
      inUse := new bool[MAX_SLOTS](_ => false);
      capacity, available := 0, 0;
      shutdown, initialized := false, false;
    }

    /** No slot in use, no count and no flag. */
    ghost predicate Zeroed()
      reads this, inUse
    {
      capacity == available == 0 && !shutdown && !initialized && forall k | 0 <= k < inUse.Length :: !inUse[k]
    }

    /** Whatever the memory held before. memory says for which slots malloc finds room; if one fails, those
        before it are freed again. */
    method Init(p: Params, slotCount: nat, memory: seq<bool>) returns (err: VfErr)
      requires Shape() && |memory| == MAX_SLOTS
      modifies this, inUse, slots
      ensures err == SUCCESS <==> 1 <= slotCount <= 16 && Allocatable(p) && AllRoom(memory, slotCount)
      ensures err == SUCCESS ==>
        Valid() && initialized && Abs() == Pool(slotCount, Range(slotCount), false) && AllAllocated(p, slotCount)
      ensures err == SUCCESS ==> forall i :: 0 <= i < slotCount ==> fresh(slots[i].data)
      ensures err == SUCCESS ==> NoMemoryFrom(slotCount)
      ensures err != SUCCESS ==>
        if 1 <= slotCount <= MAX_SLOTS then Valid() && !initialized && NoMemoryFrom(0)
        else unchanged(this) && unchanged(inUse) && forall i | 0 <= i < |slots| :: unchanged(slots[i])
    {
      hide AllAllocated, FreeSlots, Framebuffer.Allocated, PlanesOf;
      if slotCount == 0 || slotCount > MAX_SLOTS {
        return INVALID_PARAMETER;
      }
      Wipe();
      err := AllocAll(p, slotCount, memory);
      if err != SUCCESS {
        return;
      }
      capacity, available := slotCount, slotCount;
      initialized := true;
      AllFree(inUse[..], capacity);
    }

    /** Zeroes the whole pool, slots included. */
    method Wipe()
      requires Shape()
      modifies this, inUse, slots
      ensures Valid() && Zeroed() && NoMemoryFrom(0)
      ensures forall k | 0 <= k < |slots| ::
        slots[k].Blank() && slots[k].refCount == 0 && slots[k].frees == old(slots[k].frees)
    {
      var i := 0;
      while i < |slots|
        invariant 0 <= i <= |slots|
        invariant forall k | 0 <= k < i :: slots[k].Blank() && slots[k].refCount == 0
        invariant forall k | 0 <= k < |slots| :: slots[k].frees == old(slots[k].frees)
      {
        slots[i].Wipe();
        i := i + 1;
      }
      forall k | 0 <= k < inUse.Length { inUse[k] := false; }
      capacity, available := 0, 0;
      shutdown, initialized := false, false;
    }

    /** No slot from number n on holds memory. */
    ghost predicate NoMemoryFrom(n: nat)
      reads slots
    {
      forall i | n <= i < |slots| :: slots[i].data == null
    }

    ghost predicate AllAllocated(p: Params, n: nat)
      requires n <= |slots|
      reads slots
    {
      && (forall i :: 0 <= i < n ==> slots[i].Allocated() && slots[i].params == p && slots[i].refCount == 0)
      && (forall i, j :: 0 <= i < j < n ==> slots[i].data != slots[j].data)
    }

    /** Memory for the first n slots, or for none. */
    method AllocAll(p: Params, n: nat, memory: seq<bool>) returns (err: VfErr)
      requires Shape() && n <= |slots| && |memory| == MAX_SLOTS && n > 0 && NoMemoryFrom(0)
      modifies slots
      ensures err == SUCCESS <==> Allocatable(p) && AllRoom(memory, n)
      ensures if err == SUCCESS then AllAllocated(p, n) && NoMemoryFrom(n) else NoMemoryFrom(0)
      ensures err == SUCCESS ==> forall i :: 0 <= i < n ==> fresh(slots[i].data)
    {
      hide Framebuffer.Allocated, PlanesOf;
      var i := 0;
      while i < n
        invariant 0 <= i <= n
        invariant AllRoom(memory, i) && (i > 0 ==> Allocatable(p))
        invariant AllAllocated(p, i) && NoMemoryFrom(i)
        invariant forall k :: 0 <= k < i ==> fresh(slots[k].data)
      {
        err := slots[i].Alloc(p, memory[i]);
        if err != SUCCESS {
          Rollback(i);
          return;
        }
        i := i + 1;
      }
      err := SUCCESS;
    }

    /** Frees the first n slots again, last first. */
    method Rollback(n: nat)
      requires Shape() && n <= |slots| && NoMemoryFrom(n)
      modifies slots
      ensures NoMemoryFrom(0)
    {
      var i := n;
      while i > 0
        invariant 0 <= i <= n
        invariant NoMemoryFrom(i)
      {
        i := i - 1;
        slots[i].Free();
      }
    }

    /** The scan of both acquires: marks and returns the first unused slot. */
    method TakeFirst() returns (fb: Framebuffer?)
      requires Valid() && initialized && available > 0
      modifies this`available, inUse
      ensures Valid() && initialized
      ensures var i := Lowest(old(Abs()).free); i < |slots| && fb == slots[i] && Abs() == old(Abs()).Take(i)
    {
      hide FreeSlots, Lowest;
      fb := null;
      ghost var free := FreeSlots(inUse[..], capacity);
      var i := 0;
      while inUse[i]
        invariant 0 <= i <= Lowest(free)
        invariant forall k :: 0 <= k < i ==> inUse[k]
        decreases capacity - i
      {
        i := i + 1;
      }
      assert i in free;
      FreeAfterTake(inUse[..], capacity, i);
      ghost var before := inUse[..];
      inUse[i] := true;
      assert inUse[..] == before[i := true];
      available := available - 1;
      fb := slots[i];
    }

    method Acquire() returns (err: VfErr, fb: Framebuffer?)
      requires Valid()
      modifies this`available, inUse
      ensures Valid() && initialized == old(initialized)
      ensures err == (if !initialized then INIT_FAILED else if old(Abs()).free == {} then OOM else SUCCESS)
      ensures err != SUCCESS ==> fb == null && (initialized ==> Abs() == old(Abs()))
      ensures err == SUCCESS ==>
        var i := Lowest(old(Abs()).free); i < |slots| && fb == slots[i] && Abs() == old(Abs()).Take(i)
    {
      if !initialized {
        return INIT_FAILED, null;
      }
      if available == 0 {
        return OOM, null;
      }
      fb := TakeFirst();
      err := SUCCESS;
    }

    /** One pass of the blocking acquire with the lock held: waits says that the caller goes to sleep. */
    method AcquireBlockingPass() returns (err: VfErr, waits: bool, fb: Framebuffer?)
      requires Valid()
      modifies this`available, inUse
      ensures Valid() && initialized == old(initialized)
      ensures !initialized ==> err == INIT_FAILED && !waits && fb == null
      ensures initialized ==>
        var verdict := Await(|old(Abs()).free|, old(shutdown));
        && (waits <==> verdict == Wait)
        && err == (if verdict == Refuse then QUEUE_SHUTDOWN else SUCCESS)
        && if verdict == TakeOne then
             var i := Lowest(old(Abs()).free);
             i < |slots| && fb == slots[i] && Abs() == old(Abs()).Take(i)
           else fb == null && Abs() == old(Abs())
    {
      err, waits, fb := SUCCESS, false, null;
      if !initialized {
        return INIT_FAILED, false, null;
      }
      if available == 0 {
        if shutdown {
          return QUEUE_SHUTDOWN, false, null;
        }
        return SUCCESS, true, null;
      }
      fb := TakeFirst();
    }

    /** A slot in use becomes free; one already free stays as it is; a foreign frame is refused.
        signalled says whether a waiter is woken. */
    method Release(fb: Framebuffer?) returns (err: VfErr, signalled: bool)
      requires Valid()
      modifies this`available, inUse
      ensures Valid() && initialized == old(initialized)
      ensures fb == null ==> err == INVALID_PARAMETER
      ensures fb != null && !initialized ==> err == INIT_FAILED
      ensures fb != null && initialized ==>
        var i := IndexOf(slots, fb, capacity);
        && err == (if i < capacity then SUCCESS else INVALID_PARAMETER)
        && (signalled <==> i < capacity && i !in old(Abs()).free)
        && Abs() == old(Abs()).Release(i)
      ensures initialized && fb == null ==> Abs() == old(Abs())
      ensures signalled ==> err == SUCCESS
    {
      signalled := false;
      if fb == null {
        return INVALID_PARAMETER, false;
      }
      if !initialized {
        return INIT_FAILED, false;
      }
      var i := 0;
      while i < capacity && fb != slots[i]
        invariant 0 <= i <= capacity
        invariant forall k :: 0 <= k < i ==> slots[k] != fb
      {
        i := i + 1;
      }
      assert i == IndexOf(slots, fb, capacity);
      if i == capacity {
        return INVALID_PARAMETER, false;
      }
      signalled := GiveBack(i);
      err := SUCCESS;
    }

    method GiveBack(i: nat) returns (signalled: bool)
      requires Valid() && initialized && i < capacity
      modifies this`available, inUse
      ensures Valid() && initialized && Abs() == old(Abs()).Release(i)
      ensures signalled <==> i !in old(Abs()).free
    {
      hide FreeSlots;
      if inUse[i] {
        FreeAfterRelease(inUse[..], capacity, i);
        ghost var before := inUse[..];
        inUse[i] := false;
        assert inUse[..] == before[i := false];
        available := available + 1;
        signalled := true;
      } else {
        assert Abs().free == Abs().free + {i};
        signalled := false;
      }
    }

    method Shutdown()
      requires Valid() && initialized
      modifies this`shutdown
      ensures Valid() && Abs() == old(Abs()).(shutdown := true)
    {
      shutdown := true;
    }

    method Reset()
      requires Valid()
      modifies this`shutdown
      ensures Valid() && !shutdown && (initialized ==> Abs() == old(Abs()).(shutdown := false))
    {
      shutdown := false;
    }

    /** Frees the memory of every slot, in use or not, exactly once, and zeroes the pool. */
    method Deinit()
      requires Valid()
      modifies this, inUse, slots
      ensures Valid() && !initialized
      ensures forall i :: 0 <= i < |slots| ==>
        slots[i].frees == old(slots[i].frees) +
          if old(initialized) && i < old(capacity) && old(slots[i].data) != null && old(slots[i].ownsMemory) then 1
          else 0
      ensures if old(initialized) then
                Zeroed() && forall k | 0 <= k < |slots| :: slots[k].Blank() && slots[k].refCount == 0
              else unchanged(this) && unchanged(inUse) && forall k | 0 <= k < |slots| :: unchanged(slots[k])
    {
      if !initialized {
        return;
      }
      var i := 0;
      while i < capacity
        invariant 0 <= i <= capacity == old(capacity) && Shape()
        invariant forall k :: 0 <= k < i ==>
          slots[k].frees ==
            old(slots[k].frees) + if old(slots[k].data) != null && old(slots[k].ownsMemory) then 1 else 0
        invariant forall k :: i <= k < |slots| ==> unchanged(slots[k])
      {
        slots[i].Free();
        i := i + 1;
      }
      Wipe();
    }
  }

  /** vf_framebuffer_unref with the pool's release: the count goes down, and the slot goes back when
      it was 1, or, the decrement undone, when counting was not in use. */
  method Unref(fb: Framebuffer?, pool: BufPool?) returns (err: VfErr)
    requires pool != null ==> pool.Valid()
    requires fb != null ==> fb.refCount < WORD
    modifies (if fb != null then {fb} else {})`refCount
    modifies (if pool != null then {pool} else {})`available, if pool != null then {pool.inUse} else {}
    ensures fb == null ==> err == INVALID_PARAMETER
    ensures fb != null ==> fb.refCount == if old(fb.refCount) == 0 then 0 else old(fb.refCount) - 1
    ensures pool != null ==> pool.Valid()
    ensures fb != null && (pool == null || old(fb.refCount) > 1) ==> err == SUCCESS
    ensures pool != null && pool.initialized && (fb == null || old(fb.refCount) > 1) ==> pool.Abs() == old(pool.Abs())
    ensures fb != null && pool != null && old(fb.refCount) <= 1 ==>
      if !pool.initialized then err == INIT_FAILED
      else
        var i := IndexOf(pool.slots, fb, old(pool.capacity));
        && err == (if i < old(pool.capacity) then SUCCESS else INVALID_PARAMETER)
        && pool.Abs() == old(pool.Abs()).Release(i)
  {
    if fb == null {
      return INVALID_PARAMETER;
    }
    var prev := fb.Unref();
    if prev <= 1 && pool != null {
      var signalled;
      err, signalled := pool.Release(fb);
    } else {
      err := SUCCESS;
    }
  }
}
