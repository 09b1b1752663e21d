/** What a frame queue and a slot pool mean, as values: a bounded sequence with a shutdown
    flag, and a set of free slot numbers with a shutdown flag. The classes BufQueue and
    BufPool are proved against these, and the service's state machine is built from them. */
module BufSpec {

  const MAX_SLOTS: nat := 16
  const MAX_CAPACITY: nat := 16

  datatype Queue<T> = Queue(items: seq<T>, capacity: nat, shutdown: bool) {

    predicate Full() {
      |items| >= capacity
    }

    function Push(x: T): Queue<T> {
      this.(items := items + [x])
    }

    function Pop(): Queue<T>
      requires items != []
    {
      this.(items := items[1..])
    }
  }

  // --- Any sequence of queue operations

  datatype QueueOp<T> = TryPush(x: T) | TryPop | SetShutdown(flag: bool)

  /** What a sequence of operations leaves, took in and gave out. */
  datatype QueueRun<T> = QueueRun(queue: Queue<T>, accepted: seq<T>, popped: seq<T>)

  function Apply<T>(r: QueueRun<T>, op: QueueOp<T>): QueueRun<T> {
    match op
    case TryPush(x) => if r.queue.Full() then r else QueueRun(r.queue.Push(x), r.accepted + [x], r.popped)
    case TryPop =>
      if r.queue.items == [] then r else QueueRun(r.queue.Pop(), r.accepted, r.popped + [r.queue.items[0]])
    case SetShutdown(flag) => r.(queue := r.queue.(shutdown := flag))
  }

  function ApplyAll<T>(q: Queue<T>, ops: seq<QueueOp<T>>): QueueRun<T> {
    if ops == [] then QueueRun(q, [], []) else Apply(ApplyAll(q, ops[..|ops| - 1]), ops[|ops| - 1])
  }

  /** First in, first out: what came out, followed by what is still inside, is what was there and
      what was accepted, in order; and the queue never holds more than its capacity. */
  lemma {:induction false} FirstInFirstOut<T>(q: Queue<T>, ops: seq<QueueOp<T>>)
    requires |q.items| <= q.capacity
    ensures var r := ApplyAll(q, ops);
            && r.popped + r.queue.items == q.items + r.accepted
            && |r.queue.items| <= r.queue.capacity == q.capacity
  {
    if ops == [] {
    } else {
      FirstInFirstOut(q, ops[..|ops| - 1]);
      var r, op := ApplyAll(q, ops[..|ops| - 1]), ops[|ops| - 1];
      match op {
        case TryPush(x) =>
          assert r.popped + (r.queue.items + [x]) == (r.popped + r.queue.items) + [x];
          assert q.items + (r.accepted + [x]) == (q.items + r.accepted) + [x];
        case TryPop =>
          if r.queue.items != [] {
            assert r.queue.items == [r.queue.items[0]] + r.queue.items[1..];
            assert r.popped + [r.queue.items[0]] + r.queue.items[1..] == r.popped + r.queue.items;
          }
        case SetShutdown(flag) =>
      }
    }
  }

  datatype Pool = Pool(slots: nat, free: set<nat>, shutdown: bool) {

    function Take(x: nat): Pool {
      this.(free := free - {x})
    }

    function Release(x: nat): Pool {
      if x < slots then this.(free := free + {x}) else this
    }
  }

  /** Some element of a non-empty set is below all others. */
  lemma {:induction false} LowestExists(free: set<nat>) returns (m: nat)
    requires free != {}
    ensures m in free && forall y | y in free :: m <= y
  {
    var x :| x in free;
    if free == {x} {
      m := x;
    } else {
      var rest := free - {x};
      assert free == rest + {x};
      assert rest != {};
      var r := LowestExists(rest);
      m := if x < r then x else r;
    }
  }

  /** The slot an acquire hands out: its scan runs upwards from slot 0. */
  function Lowest(free: set<nat>): (m: nat)
    requires free != {}
    ensures m in free
    ensures forall y | y in free :: m <= y
  {
    assert exists m :: m in free && forall y | y in free :: m <= y by {
      var m := LowestExists(free);
    }
    var m :| m in free && forall y | y in free :: m <= y;
    m
  }

  /** The numbers 0 .. n-1. */
  function Range(n: nat): (r: set<nat>)
    ensures forall x: nat :: x in r <==> x < n
    ensures |r| == n
  {
    if n == 0 then {} else Range(n - 1) + {n - 1}
  }
}
