/** The circular frame queue, as an object. Its locked sections are its methods. */
module BufQueues {
  import opened Options
  import opened BufSpec
  import opened WaitSpec
  import opened Frames

  /** The cell k places after head. */
  function Cell(head: nat, k: nat, capacity: nat): nat {
    if head + k < capacity then head + k else head + k - capacity
  }

  lemma CellStep(head: nat, k: nat, capacity: nat)
    requires head < capacity && k < capacity
    ensures Cell(Cell(head, 1, capacity), k, capacity)
            == if k + 1 == capacity then head else Cell(head, k + 1, capacity)
    ensures Cell(head, k, capacity) < capacity && (Cell(head, k, capacity) == head <==> k == 0)
  {
  }

  lemma NextCell(i: nat, capacity: nat)
    requires i < capacity
    ensures (i + 1) % capacity == Cell(i, 1, capacity)
  {
    if i + 1 == capacity {
      assert (i + 1) % capacity == 0;
    }
  }

  /** tail follows from head and count, used cells hold frames and unused cells hold null. */
  ghost predicate Ring(cells: seq<Framebuffer?>, head: nat, tail: nat, count: nat, capacity: nat) {
    && 1 <= capacity <= |cells|
    && head < capacity && count <= capacity
    && tail == Cell(head, count, capacity)
    && (forall k: nat | k < count :: cells[Cell(head, k, capacity)] != null)
    && (forall k: nat | count <= k < capacity :: cells[Cell(head, k, capacity)] == null)
  }

  /** The frames of a ring, oldest first. */
  ghost function Unroll(cells: seq<Framebuffer?>, head: nat, count: nat, capacity: nat): seq<Framebuffer?>
    requires head < capacity <= |cells| && count <= capacity
  {
    seq(count, k requires 0 <= k < count => cells[Cell(head, k, capacity)])
  }

  lemma RingPush(cells: seq<Framebuffer?>, head: nat, tail: nat, count: nat, capacity: nat, fb: Framebuffer)
    requires Ring(cells, head, tail, count, capacity) && count < capacity
    ensures tail < capacity
    ensures Ring(cells[tail := fb], head, Cell(tail, 1, capacity), count + 1, capacity)
    ensures Unroll(cells[tail := fb], head, count + 1, capacity) == Unroll(cells, head, count, capacity) + [fb]
  {
  }

  lemma RingPop(cells: seq<Framebuffer?>, head: nat, tail: nat, count: nat, capacity: nat)
    requires Ring(cells, head, tail, count, capacity) && count > 0
    ensures Ring(cells[head := null], Cell(head, 1, capacity), tail, count - 1, capacity)
    ensures cells[head] != null && cells[head] == Unroll(cells, head, count, capacity)[0]
    ensures Unroll(cells[head := null], Cell(head, 1, capacity), count - 1, capacity)
            == Unroll(cells, head, count, capacity)[1..]
  {
    var next := Cell(head, 1, capacity);
    CellStep(head, 0, capacity);
    forall k: nat | k < capacity
      ensures Cell(next, k, capacity) == if k + 1 == capacity then head else Cell(head, k + 1, capacity)
      ensures k + 1 < capacity ==> Cell(next, k, capacity) != head
    {
      CellStep(head, k, capacity);
      if k + 1 < capacity { CellStep(head, k + 1, capacity); }
    }
  }

  /** A new queue is a valid, empty one. */
  lemma OpenedIsEmpty(q: BufQueue, size: nat)
    requires q.slots.Length == MAX_CAPACITY && 1 <= size <= MAX_CAPACITY && q.Opened(size)
    ensures q.Valid() && q.Abs() == Queue([], size, false)
  {
  }

  class BufQueue {
    const slots: array<Framebuffer?>
    var head: nat
    var tail: nat
    var count: nat
    var capacity: nat
    var shutdown: bool
    var initialized: bool

    ghost predicate Valid()
      reads this, slots
    {
      && slots.Length == MAX_CAPACITY
      && (initialized ==> Ring(slots[..], head, tail, count, capacity))
    }

    /** The queue as a value. */
    ghost function Abs(): Queue<Framebuffer?>
      requires Valid() && initialized
      reads this, slots
    {
      Queue(Unroll(slots[..], head, count, capacity), capacity, shutdown)
    }

    /** As memset leaves it. */
    ghost predicate Zeroed()
      reads this, slots
    {
      && head == tail == count == capacity == 0 && !shutdown && !initialized
      && forall k | 0 <= k < slots.Length :: slots[k] == null
    }

    constructor ()
      ensures Valid() && Zeroed() && fresh(slots)
    {
      slots := new Framebuffer?[MAX_CAPACITY](_ => null);
      head, tail, count, capacity := 0, 0, 0, 0;
      shutdown, initialized := false, false;
    }

    /** Initialised, empty and not shut down, as Init leaves it. */
    ghost predicate Opened(size: nat)
      reads this, slots
    {
      && initialized && !shutdown
      && head == tail == count == 0 && capacity == size
      && forall k | 0 <= k < slots.Length :: slots[k] == null
    }

    /** Whatever the memory held before. */
    method Init(size: nat) returns (err: VfErr)
      requires slots.Length == MAX_CAPACITY
      modifies this, slots
      ensures err == if 1 <= size <= 16 then SUCCESS else INVALID_PARAMETER
      ensures err == SUCCESS ==> Opened(size)
      ensures err != SUCCESS ==> unchanged(this) && unchanged(slots)
    {
      if size == 0 || size > MAX_CAPACITY {
        return INVALID_PARAMETER;
      }
      forall i | 0 <= i < slots.Length { slots[i] := null; }
      capacity := size;
      head, tail, count := 0, 0, 0;
      initialized := true;
      shutdown := false;
      err := SUCCESS;
    }

    method Push(fb: Framebuffer?) returns (err: VfErr)
      requires Valid()
      modifies this, slots
      ensures Valid() && initialized == old(initialized)
      ensures err == (if fb == null then INVALID_PARAMETER
                      else if !initialized then INIT_FAILED
                      else if old(count >= capacity) then OOM
                      else SUCCESS)
      ensures initialized ==> Abs() == if err == SUCCESS then old(Abs()).Push(fb) else old(Abs())
    {
      if fb == null {
        return INVALID_PARAMETER;
      }
      if !initialized {
        return INIT_FAILED;
      }
      if count >= capacity {
        return OOM;
      }
      RingPush(slots[..], head, tail, count, capacity, fb);
      NextCell(tail, capacity);
      ghost var cells := slots[..];
      slots[tail] := fb;
      assert slots[..] == cells[tail := fb];
      tail := (tail + 1) % capacity;
      count := count + 1;
      err := SUCCESS;
    }

    /** Removes the oldest frame; the shared tail of both pops. */
    method TakeHead() returns (fb: Framebuffer?)
      requires Valid() && initialized && count > 0
      modifies this, slots
      ensures Valid() && initialized
      ensures fb != null && fb == old(Abs()).items[0] && Abs() == old(Abs()).Pop()
    {
      RingPop(slots[..], head, tail, count, capacity);
      NextCell(head, capacity);
      ghost var cells := slots[..];
      fb := slots[head];
      slots[head] := null;
      assert slots[..] == cells[head := null];
      head := (head + 1) % capacity;
      count := count - 1;
    }

    method Pop() returns (err: VfErr, fb: Framebuffer?)
      requires Valid()
      modifies this, slots
      ensures Valid() && initialized == old(initialized)
      ensures err == (if !initialized then INIT_FAILED else if old(count) == 0 then FILE_ERR else SUCCESS)
      ensures err != SUCCESS ==> fb == null
      ensures initialized ==>
                if err == SUCCESS then fb == old(Abs()).items[0] && Abs() == old(Abs()).Pop() else Abs() == old(Abs())
    {
      if !initialized {
        return INIT_FAILED, null;
      }
      if count == 0 {
        return FILE_ERR, null;
      }
      fb := TakeHead();
      err := SUCCESS;
    }

    /** One pass of the blocking pop with the lock held: from getting the lock, first or after a
        wakeup, to giving it up. waits says that the caller goes to sleep. */
    method PopBlockingPass() returns (err: VfErr, waits: bool, fb: Framebuffer?)
      requires Valid()
      modifies this, slots
      ensures Valid() && initialized == old(initialized)
      ensures !initialized ==> err == INIT_FAILED && !waits && fb == null
      ensures initialized ==>
        var verdict := Await(|old(Abs()).items|, old(shutdown));
        && (waits <==> verdict == Wait)
        && err == (if verdict == Refuse then QUEUE_SHUTDOWN else SUCCESS)
        && if verdict == TakeOne then fb == old(Abs()).items[0] && Abs() == old(Abs()).Pop()
           else fb == null && Abs() == old(Abs())
    {
      err, waits, fb := SUCCESS, false, null;
      if !initialized {
        return INIT_FAILED, false, null;
      }
      if count == 0 {
        if shutdown {
          return QUEUE_SHUTDOWN, false, null;
        }
        return SUCCESS, true, null;
      }
      fb := TakeHead();
    }

    method Shutdown()
      requires Valid() && initialized
      modifies this`shutdown
      ensures Valid() && Abs() == old(Abs()).(shutdown := true)
    {
      shutdown := true;
    }

    method Reset()
      requires Valid()
      modifies this`shutdown
      ensures Valid() && !shutdown && (initialized ==> Abs() == old(Abs()).(shutdown := false))
    {
      shutdown := false;
    }

    method Deinit()
      modifies this, slots
      ensures if old(initialized) then Zeroed() else unchanged(this) && unchanged(slots)
    {
      if !initialized {
        return;
      }
      forall i | 0 <= i < slots.Length { slots[i] := null; }
      head, tail, count, capacity := 0, 0, 0, 0;
      shutdown, initialized := false, false;
    }
  }
}
