/** Building and tearing down a pipeline: units in a row with a queue between neighbours. */
module Pipelines {
  import opened Options
  import opened BufSpec
  import opened BufQueues

  const MAX_UNITS: nat := 8

  /** Whether a unit has an init operation, and what that operation reports. */
  datatype Creation = Creation(hasInit: bool, initErr: VfErr) {

    function Err(): VfErr {
      if hasInit then initErr else INIT_FAILED
    }
  }

  class Unit {
    var inQueue: BufQueue?
    var outQueue: BufQueue?
    var initialized: bool

    /** Zeroed memory. */
    constructor ()
      ensures inQueue == null && outQueue == null && !initialized
    {
      inQueue, outQueue, initialized := null, null, false;
    }

    method ConnectInput(queue: BufQueue)
      modifies this`inQueue
      ensures inQueue == queue
    {
      inQueue := queue;
    }

    method ConnectOutput(queue: BufQueue)
      modifies this`outQueue
      ensures outQueue == queue
    {
      outQueue := queue;
    }

    /** A unit already initialised is initialised once more, and stays so whatever comes of it. */
    method Create(c: Creation) returns (err: VfErr)
      modifies this`initialized
      ensures err == if c.hasInit then c.initErr else INIT_FAILED
      ensures initialized <==> err == SUCCESS || old(initialized)
    {
      if !c.hasInit {
        return INIT_FAILED;
      }
      if c.initErr != SUCCESS {
        return c.initErr;
      }
      initialized := true;
      err := SUCCESS;
    }

    method Destroy()
      modifies this
      ensures !initialized
      ensures if old(initialized) then inQueue == null && outQueue == null
              else inQueue == old(inQueue) && outQueue == old(outQueue)
    {
      if !initialized {
        return;
      }
      initialized := false;
      inQueue, outQueue := null, null;
    }
  }

  /** The first error of a list of steps, SUCCESS if there is none. */
  function FirstErr(errs: seq<VfErr>): VfErr {
    if errs == [] then SUCCESS else if errs[0] != SUCCESS then errs[0] else FirstErr(errs[1..])
  }

  predicate NoErr(errs: seq<VfErr>, n: nat)
    requires n <= |errs|
  {
    forall k | 0 <= k < n :: errs[k] == SUCCESS
  }

  lemma NoErrYet(errs: seq<VfErr>, n: nat)
    requires n < |errs| && NoErr(errs, n) && errs[n] == SUCCESS
    ensures NoErr(errs, n + 1)
  {
  }

  lemma {:induction false} FirstErrAt(errs: seq<VfErr>, i: nat)
    requires i <= |errs| && NoErr(errs, i)
    ensures i == |errs| ==> FirstErr(errs) == SUCCESS
    ensures i < |errs| && errs[i] != SUCCESS ==> FirstErr(errs) == errs[i]
  {
    if i > 0 {
      FirstErrAt(errs[1..], i - 1);
    }
  }

  lemma {:induction false} FirstErrNone(errs: seq<VfErr>)
    ensures FirstErr(errs) == SUCCESS <==> NoErr(errs, |errs|)
  {
    if errs != [] {
      FirstErrNone(errs[1..]);
      assert forall k | 0 < k < |errs| :: errs[k] == errs[1..][k - 1];
    }
  }

  function CreationErrs(creations: seq<Creation>): seq<VfErr> {
    seq(|creations|, i requires 0 <= i < |creations| => creations[i].Err())
  }

  /** The unit has an init operation, and that succeeds. */
  predicate Succeeds(c: Creation) {
    c.hasInit && c.initErr == SUCCESS
  }

  predicate AllSucceed(creations: seq<Creation>, n: nat)
    requires n <= |creations|
  {
    forall k | 0 <= k < n :: Succeeds(creations[k])
  }

  /** The error of a creation: that of the first queue that fails, else that of the first unit that does. */
  lemma WhichError(queueErrs: seq<VfErr>, creations: seq<Creation>)
    ensures var err := FirstErr(queueErrs + CreationErrs(creations));
            && (forall k | 0 <= k < |queueErrs| ::
                  NoErr(queueErrs, k) && queueErrs[k] != SUCCESS ==> err == queueErrs[k])
            && (NoErr(queueErrs, |queueErrs|) ==> forall k | 0 <= k < |creations| ::
                  AllSucceed(creations, k) && !Succeeds(creations[k]) ==>
                    err == if creations[k].hasInit then creations[k].initErr else INIT_FAILED)
            && (err == SUCCESS <==> NoErr(queueErrs, |queueErrs|) && AllSucceed(creations, |creations|))
  {
    var errs := CreationErrs(creations);
    FirstErrOfBoth(queueErrs, errs);
    FirstErrNone(queueErrs);
    FirstErrNone(errs);
    forall k | 0 <= k <= |creations| ensures AllSucceed(creations, k) <==> NoErr(errs, k) {
      assert forall i | 0 <= i < k :: Succeeds(creations[i]) <==> errs[i] == SUCCESS;
    }
    forall k | 0 <= k < |queueErrs| && NoErr(queueErrs, k) && queueErrs[k] != SUCCESS
      ensures FirstErr(queueErrs) == queueErrs[k]
    {
      FirstErrAt(queueErrs, k);
    }
    forall k | 0 <= k < |creations| && AllSucceed(creations, k) && !Succeeds(creations[k])
      ensures FirstErr(errs) == errs[k]
    {
      FirstErrAt(errs, k);
    }
  }

  ghost predicate Distinct<T>(s: seq<T>) {
    forall i, j :: 0 <= i < j < |s| ==> s[i] != s[j]
  }

  class Pipeline {
    var units: seq<Unit>
    const queues: seq<BufQueue>
    var initialized: bool

    ghost function Cells(): set<object> {
      set q | q in queues :: q.slots
    }

    /** Units, queues and the memory of queues are all different. */
    ghost predicate Valid()
      reads this
    {
      && |queues| == MAX_UNITS - 1 && |units| <= MAX_UNITS
      && (forall k | 0 <= k < |queues| :: queues[k].slots.Length == MAX_CAPACITY)
      && Distinct(units) && Distinct(queues)
      && (forall i, j :: 0 <= i < j < |queues| ==> queues[i].slots != queues[j].slots)
    }

    /** Nothing is initialised. */
    ghost predicate Down()
      reads this, units, queues
    {
      && !initialized
      && (forall k | 0 <= k < |units| :: !units[k].initialized)
      && (forall k | 0 <= k < |queues| :: !queues[k].initialized)
    }

    /** vf_pipeline_init over queues in zeroed memory. */
    constructor (queues: seq<BufQueue>)
      requires |queues| == MAX_UNITS - 1 && Distinct(queues)
      requires forall i, j :: 0 <= i < j < |queues| ==> queues[i].slots != queues[j].slots
      requires forall q | q in queues :: q.slots.Length == MAX_CAPACITY && !q.initialized
      ensures Valid() && Down() && units == [] && this.queues == queues
    {
      this.queues := queues;
      units := [];
      initialized := false;
    }

    method AddUnit(unit: Unit) returns (err: VfErr)
      requires Valid() && unit !in units
      modifies this`units
      ensures Valid()
      ensures err == if old(|units|) >= 8 then INVALID_PARAMETER else SUCCESS
      ensures units == if err == SUCCESS then old(units) + [unit] else old(units)
    {
      if |units| >= MAX_UNITS {
        return INVALID_PARAMETER;
      }
      units := units + [unit];
      err := SUCCESS;
    }

    /** The first n queues are new and empty. */
    ghost predicate QueuesUp(n: nat)
      requires n <= |queues|
      reads queues, Cells()
    {
      forall k | 0 <= k < n :: queues[k].Opened(MAX_CAPACITY)
    }

    /** Each of the first n queues is the output of its unit and the input of the next one. */
    ghost predicate Joined(n: nat)
      requires n < |units| && n <= |queues|
      reads this, units
    {
      forall k {:trigger queues[k]} | 0 <= k < n :: units[k].outQueue == queues[k] && units[k + 1].inQueue == queues[k]
    }

    method Wire(i: nat, queueErr: VfErr) returns (err: VfErr)
      requires Valid() && i + 1 < |units| && !queues[i].initialized
      modifies queues[i], queues[i].slots, units[i], units[i + 1]
      ensures Valid() && err == queueErr
      ensures if err == SUCCESS then queues[i].Opened(MAX_CAPACITY)
              else !queues[i].initialized
      ensures err == SUCCESS ==> units[i].outQueue == queues[i] && units[i + 1].inQueue == queues[i]
      ensures queueErr != SUCCESS ==> unchanged(units[i]) && unchanged(units[i + 1])
      ensures units[i].inQueue == old(units[i].inQueue) && units[i + 1].outQueue == old(units[i + 1].outQueue)
      ensures units[i].initialized == old(units[i].initialized)
      ensures units[i + 1].initialized == old(units[i + 1].initialized)
    {
      if queueErr != SUCCESS {
        return queueErr;
      }
      err := queues[i].Init(MAX_CAPACITY);
      units[i].ConnectOutput(queues[i]);
      units[i + 1].ConnectInput(queues[i]);
    }

    /** The first n queues are up and joined, and no other queue and no unit is initialised. */
    ghost predicate WiredTo(n: nat)
      requires n < |units| && n <= |queues|
      reads this, units, queues, Cells()
    {
      && QueuesUp(n) && Joined(n)
      && (forall k | n <= k < |queues| :: !queues[k].initialized)
      && (forall k | 0 <= k < |units| :: !units[k].initialized)
    }

    method WireNext(i: nat, queueErr: VfErr) returns (err: VfErr)
      requires Valid() && i + 1 < |units| && WiredTo(i)
      modifies queues[i], queues[i].slots, units[i], units[i + 1]
      ensures Valid() && err == queueErr
      ensures if err == SUCCESS then WiredTo(i + 1) else WiredTo(i)
      ensures units[0].inQueue == old(units[0].inQueue)
      ensures units[|units| - 1].outQueue == old(units[|units| - 1].outQueue)
    {
      hide BufQueue.Opened, Ring;
      err := Wire(i, queueErr);
    }

    method WireAll(queueErrs: seq<VfErr>) returns (err: VfErr)
      requires Valid() && Down() && 2 <= |units| && |queueErrs| == |units| - 1
      modifies units, queues, Cells()
      ensures Valid() && err == FirstErr(queueErrs)
      ensures err == SUCCESS ==> QueuesUp(|units| - 1) && Joined(|units| - 1)
      ensures forall k | |units| - 1 <= k < |queues| :: !queues[k].initialized
      ensures forall k | 0 <= k < |units| :: !units[k].initialized
      ensures units[0].inQueue == old(units[0].inQueue)
      ensures units[|units| - 1].outQueue == old(units[|units| - 1].outQueue)
    {
      hide BufQueue.Opened, Ring, FirstErr;
      var i := 0;
      while i < |units| - 1
        invariant 0 <= i <= |units| - 1
        invariant Valid() && WiredTo(i)
        invariant NoErr(queueErrs, i)
        invariant units[0].inQueue == old(units[0].inQueue)
        invariant units[|units| - 1].outQueue == old(units[|units| - 1].outQueue)
      {
        err := WireNext(i, queueErrs[i]);
        if err != SUCCESS {
          FirstErrAt(queueErrs, i);
          return;
        }
        NoErrYet(queueErrs, i);
        i := i + 1;
      }
      FirstErrAt(queueErrs, i);
      err := SUCCESS;
    }

    /** Creates the units in order. When one fails, those before it are destroyed again, last first. */
    method CreateAll(creations: seq<Creation>) returns (err: VfErr)
      requires Valid() && |creations| == |units| >= 2
      requires forall k | 0 <= k < |units| :: !units[k].initialized
      requires QueuesUp(|units| - 1) && Joined(|units| - 1)
      modifies units
      ensures Valid() && err == FirstErr(CreationErrs(creations))
      ensures err == SUCCESS ==> forall k | 0 <= k < |units| :: units[k].initialized
      ensures err == SUCCESS ==> QueuesUp(|units| - 1) && Joined(|units| - 1)
      ensures err == SUCCESS ==>
        units[0].inQueue == old(units[0].inQueue) && units[|units| - 1].outQueue == old(units[|units| - 1].outQueue)
      ensures err != SUCCESS ==> forall k | 0 <= k < |units| :: !units[k].initialized
    {
      hide BufQueue.Opened, Ring, FirstErr;
      var i := 0;
      while i < |units|
        invariant 0 <= i <= |units|
        invariant Valid()
        invariant NoErr(CreationErrs(creations), i)
        invariant forall k | 0 <= k < i :: units[k].initialized
        invariant forall k | i <= k < |units| :: !units[k].initialized
        invariant QueuesUp(|units| - 1) && Joined(|units| - 1)
        invariant units[0].inQueue == old(units[0].inQueue)
        invariant units[|units| - 1].outQueue == old(units[|units| - 1].outQueue)
      {
        err := units[i].Create(creations[i]);
        if err != SUCCESS {
          FirstErrAt(CreationErrs(creations), i);
          DestroyFirst(i);
          return;
        }
        NoErrYet(CreationErrs(creations), i);
        i := i + 1;
      }
      FirstErrAt(CreationErrs(creations), i);
      err := SUCCESS;
    }

    method DestroyFirst(n: nat)
      requires Valid() && n <= |units|
      requires forall k | 0 <= k < n :: units[k].initialized
      modifies units[..n]
      ensures forall k | 0 <= k < n :: !units[k].initialized
      ensures forall k | 0 <= k < n :: units[k].inQueue == null && units[k].outQueue == null
      ensures forall k | n <= k < |units| :: unchanged(units[k])
    {
      var i := n;
      while i > 0
        invariant 0 <= i <= n
        invariant forall k | i <= k < n :: !units[k].initialized
        invariant forall k | i <= k < n :: units[k].inQueue == null && units[k].outQueue == null
        invariant forall k | 0 <= k < i :: units[k].initialized
        invariant forall k | n <= k < |units| :: unchanged(units[k])
      {
        i := i - 1;
        units[i].Destroy();
      }
    }

    method DeinitQueues(n: nat)
      requires Valid() && n <= |queues|
      requires forall k | n <= k < |queues| :: !queues[k].initialized
      modifies queues, Cells()
      ensures Valid() && forall k | 0 <= k < |queues| :: !queues[k].initialized
    {
      var i := 0;
      while i < n
        invariant 0 <= i <= n && Valid()
        invariant forall k | 0 <= k < i || n <= k < |queues| :: !queues[k].initialized
      {
        queues[i].Deinit();
        i := i + 1;
      }
    }

    method Build(queueErrs: seq<VfErr>, creations: seq<Creation>) returns (err: VfErr)
      requires Valid() && Down() && |queueErrs| + 1 == |creations| == |units| >= 2
      modifies units, queues, Cells()
      ensures Valid() && err == FirstErr(queueErrs + CreationErrs(creations))
      ensures err == SUCCESS ==> QueuesUp(|units| - 1) && Joined(|units| - 1)
      ensures err == SUCCESS ==>
        units[0].inQueue == old(units[0].inQueue) && units[|units| - 1].outQueue == old(units[|units| - 1].outQueue)
      ensures forall k | 0 <= k < |units| :: units[k].initialized <==> err == SUCCESS
      ensures forall k | |units| - 1 <= k < |queues| :: !queues[k].initialized
    {
      FirstErrOfBoth(queueErrs, CreationErrs(creations));
      err := WireAll(queueErrs);
      if err == SUCCESS {
        err := CreateAll(creations);
      }
    }

    /** All or nothing, whichever step fails: either every unit is initialised and wired to its
        neighbours by new queues, or no unit and no queue is initialised. */
    method Create(queueErrs: seq<VfErr>, creations: seq<Creation>) returns (err: VfErr)
      requires Valid() && Down() && (|units| >= 2 ==> |queueErrs| + 1 == |creations| == |units|)
      modifies this`initialized, units, queues, Cells()
      ensures Valid()
      ensures err == if |units| < 2 then INVALID_PARAMETER else FirstErr(queueErrs + CreationErrs(creations))
      ensures |units| >= 2 ==> forall k | 0 <= k < |queueErrs| ::
        NoErr(queueErrs, k) && queueErrs[k] != SUCCESS ==> err == queueErrs[k]
      ensures |units| >= 2 && NoErr(queueErrs, |queueErrs|) ==> forall k | 0 <= k < |units| ::
        AllSucceed(creations, k) && !Succeeds(creations[k]) ==>
          err == if creations[k].hasInit then creations[k].initErr else INIT_FAILED
      ensures |units| >= 2 ==>
        (err == SUCCESS <==> NoErr(queueErrs, |queueErrs|) && AllSucceed(creations, |creations|))
      ensures initialized <==> err == SUCCESS
      ensures err == SUCCESS ==> QueuesUp(|units| - 1) && Joined(|units| - 1)
      ensures err == SUCCESS ==> forall k | 0 <= k < |units| :: units[k].initialized
      ensures err == SUCCESS ==>
        units[0].inQueue == old(units[0].inQueue) && units[|units| - 1].outQueue == old(units[|units| - 1].outQueue)
      ensures err == SUCCESS ==> forall k | |units| - 1 <= k < |queues| :: !queues[k].initialized
      ensures err != SUCCESS ==> Down()
    {
      if |units| < 2 {
        return INVALID_PARAMETER;
      }
      WhichError(queueErrs, creations);
      err := Build(queueErrs, creations);
      if err == SUCCESS {
        initialized := true;
      } else {
        DeinitQueues(|units| - 1);
      }
    }

    method Destroy()
      requires Valid() && (initialized ==> |units| >= 2 && forall k | 0 <= k < |units| :: units[k].initialized)
      requires forall k | |units| - 1 <= k < |queues| && k >= 0 :: !queues[k].initialized
      modifies this`initialized, units, queues, Cells()
      ensures Valid() && !initialized
      ensures old(initialized) ==> Down()
      ensures old(initialized) ==> forall k | 0 <= k < |units| :: units[k].inQueue == null && units[k].outQueue == null
    {
      if !initialized {
        return;
      }
      DestroyFirst(|units|);
      DeinitQueues(|units| - 1);
      initialized := false;
    }
  }

  lemma {:induction false} FirstErrOfBoth(a: seq<VfErr>, b: seq<VfErr>)
    ensures FirstErr(a + b) == if FirstErr(a) != SUCCESS then FirstErr(a) else FirstErr(b)
  {
    if a == [] {
      assert a + b == b;
    } else {
      assert (a + b)[1..] == a[1..] + b;
      FirstErrOfBoth(a[1..], b);
    }
  }
}
