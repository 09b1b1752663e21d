/** The condition-variable protocol of the queue and the pool, for any number of threads. Both
    count items, wait while there is none, signal when one comes in and broadcast on shutdown;
    only the count and the flag matter to a waiter. */
module WaitSpec {

  /** What the test at the top of the wait loop makes of the count and the flag. */
  datatype Verdict = TakeOne | Refuse | Wait

  function Await(count: nat, shutdown: bool): Verdict {
    if count > 0 then TakeOne else if shutdown then Refuse else Wait
  }

  /** asleep: threads in the condition wait. signalled: threads that were woken and have yet to
      get the lock back. Everyone else is outside the blocking call. */
  datatype Monitor = Monitor(count: nat, capacity: nat, shutdown: bool, asleep: set<nat>, signalled: set<nat>)

  datatype Event =
    | Enter(thread: nat)          // first test of a blocking pop or acquire
    | Resume(thread: nat)         // a woken thread has the lock again and tests
    | Put(woken: set<nat>)        // push or release, and whom its signal wakes
    | TryTake                     // non-blocking pop or acquire
    | Spurious(thread: nat)
    | Shut
    | Reset

  /** A signal wakes at least one sleeper if there is one, possibly more. */
  predicate Possible(m: Monitor, e: Event) {
    match e
    case Enter(t) => t !in m.asleep && t !in m.signalled
    case Resume(t) => t in m.signalled
    case Put(woken) => woken <= m.asleep && (m.count < m.capacity && m.asleep != {} ==> woken != {})
    case Spurious(t) => t in m.asleep
    case _ => true
  }

  function Test(m: Monitor, t: nat): Monitor {
    match Await(m.count, m.shutdown)
    case TakeOne => m.(count := m.count - 1)
    case Refuse => m
    case Wait => m.(asleep := m.asleep + {t})
  }

  function Next(m: Monitor, e: Event): Monitor {
    match e
    case Enter(t) => Test(m, t)
    case Resume(t) => Test(m.(signalled := m.signalled - {t}), t)
    case Put(woken) =>
      if m.count >= m.capacity then m
      else m.(count := m.count + 1, asleep := m.asleep - woken, signalled := m.signalled + woken)
    case TryTake => if m.count == 0 then m else m.(count := m.count - 1)
    case Spurious(t) => m.(asleep := m.asleep - {t}, signalled := m.signalled + {t})
    case Shut => m.(shutdown := true, asleep := {}, signalled := m.signalled + m.asleep)
    case Reset => m.(shutdown := false)
  }

  predicate Plays(m: Monitor, events: seq<Event>)
    decreases |events|
  {
    events == [] || (Possible(m, events[0]) && Plays(Next(m, events[0]), events[1..]))
  }

  function After(m: Monitor, events: seq<Event>): Monitor
    decreases |events|
  {
    if events == [] then m else After(Next(m, events[0]), events[1..])
  }

  /** If some thread sleeps, the flag is clear and every item present has a woken thread on its way to it. */
  ghost predicate NoLostWakeup(m: Monitor) {
    && m.asleep !! m.signalled
    && (m.asleep != {} ==> !m.shutdown && m.count <= |m.signalled|)
  }

  lemma EventKeeps(m: Monitor, e: Event)
    requires NoLostWakeup(m) && Possible(m, e)
    ensures NoLostWakeup(Next(m, e))
  {
    match e
    case Put(woken) =>
      if m.count < m.capacity && woken != {} {
        assert m.signalled !! woken;
        assert |m.signalled + woken| == |m.signalled| + |woken|;
      }
    case Resume(t) =>
      assert |m.signalled - {t}| == |m.signalled| - 1;
    case Spurious(t) =>
      assert |m.signalled + {t}| == |m.signalled| + 1;
    case _ =>
  }

  /** Over every history of pushes, pops, steals, spurious wakeups, shutdowns and resets. */
  lemma {:induction false} NoWakeupLost(m: Monitor, events: seq<Event>)
    requires NoLostWakeup(m) && Plays(m, events)
    ensures NoLostWakeup(After(m, events))
    decreases |events|
  {
    if events != [] {
      EventKeeps(m, events[0]);
      NoWakeupLost(Next(m, events[0]), events[1..]);
    }
  }

  /** A thread left asleep with nobody on the way to the lock sleeps with reason: nothing is there
      and no shutdown was called. */
  lemma LoneSleeper(start: Monitor, events: seq<Event>)
    requires start.asleep == {} && start.signalled == {} && Plays(start, events)
    ensures var m := After(start, events);
            m.asleep != {} && m.signalled == {} ==> m.count == 0 && !m.shutdown
  {
    NoWakeupLost(start, events);
  }

  function Resumed(events: seq<Event>): set<nat> {
    if events == [] then {}
    else (if events[0].Resume? then {events[0].thread} else {}) + Resumed(events[1..])
  }

  /** After a shutdown nobody goes back to sleep: each thread that was inside the blocking call
      leaves it the first time it gets the lock, until the flag is reset. */
  lemma {:induction false} ShutdownFreesAll(m: Monitor, events: seq<Event>)
    requires m.shutdown && m.asleep == {} && Plays(m, events) && Reset !in events
    ensures After(m, events).asleep == {}
    ensures After(m, events).signalled == m.signalled - Resumed(events)
    decreases |events|
  {
    if events != [] {
      ShutdownFreesAll(Next(m, events[0]), events[1..]);
    }
  }

  // --- Items and flag

  /** How many items come in: one with each push that finds room. */
  function Accepted(m: Monitor, events: seq<Event>): nat
    decreases |events|
  {
    if events == [] then 0
    else (if events[0].Put? && m.count < m.capacity then 1 else 0) + Accepted(Next(m, events[0]), events[1..])
  }

  /** Whom an event hands an item: a thread that gets the lock while there is one, shut down or not, or the caller
      of a pop that does not block. */
  predicate Hands(m: Monitor, e: Event) {
    m.count > 0 && (e.Enter? || e.Resume? || e.TryTake?)
  }

  function Handed(m: Monitor, events: seq<Event>): nat
    decreases |events|
  {
    if events == [] then 0 else (if Hands(m, events[0]) then 1 else 0) + Handed(Next(m, events[0]), events[1..])
  }

  /** The last shutdown or reset decides. */
  function FlagAfter(flag: bool, events: seq<Event>): bool
    decreases |events|
  {
    if events == [] then flag
    else FlagAfter(if events[0].Shut? then true else if events[0].Reset? then false else flag, events[1..])
  }

  /** Over every history no item is made or lost, there is never more than fits, and the flag is that of the last
      shutdown or reset. */
  lemma {:induction false} ItemsConserved(m: Monitor, events: seq<Event>)
    requires m.count <= m.capacity
    ensures var t := After(m, events);
            && t.count + Handed(m, events) == m.count + Accepted(m, events)
            && t.count <= t.capacity == m.capacity
            && t.shutdown == FlagAfter(m.shutdown, events)
    decreases |events|
  {
    if events != [] {
      ItemsConserved(Next(m, events[0]), events[1..]);
    }
  }

  /** A thread that gets the lock leaves with an item if there is one, without if the flag is set, and sleeps
      otherwise; nobody else is concerned. */
  lemma WhoGetsTheLock(m: Monitor, e: Event)
    requires Possible(m, e) && (e.Enter? || e.Resume?) && m.asleep !! m.signalled
    ensures var t := Next(m, e);
            && (e.thread in t.asleep <==> m.count == 0 && !m.shutdown)
            && e.thread !in t.signalled
            && t.asleep - {e.thread} == m.asleep && t.signalled == m.signalled - {e.thread}
  {
  }

  /** No thread inside the call is forgotten: whoever is woken, by a push, a shutdown or for no reason, is on the way
      to the lock, and all others stay asleep. */
  lemma NobodyForgotten(m: Monitor, e: Event)
    requires Possible(m, e) && !e.Enter? && !e.Resume?
    ensures var t := Next(m, e);
            var woken := if e.Spurious? then {e.thread} else if e.Shut? then m.asleep
                         else if e.Put? && m.count < m.capacity then e.woken else {};
            t.asleep == m.asleep - woken && t.signalled == m.signalled + woken
  {
  }

  /** What may happen: any sleepers may be woken by a push, at least one if there is one and the push succeeds; a
      sleeper may wake at any time; the other calls may come at any time. */
  lemma FreeToHappen(m: Monitor, woken: set<nat>, t: nat)
    ensures woken <= m.asleep && woken != {} ==> Possible(m, Put(woken))
    ensures m.asleep == {} || m.count >= m.capacity ==> Possible(m, Put({}))
    ensures t in m.asleep ==> Possible(m, Spurious(t))
    ensures t in m.signalled ==> Possible(m, Resume(t))
    ensures t !in m.asleep && t !in m.signalled ==> Possible(m, Enter(t))
    ensures Possible(m, TryTake) && Possible(m, Shut) && Possible(m, Reset)
  {
  }
}
