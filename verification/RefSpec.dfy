/** The frame reference count under any interleaving. An unref is two steps: the atomic decrement,
    which tells the thread the previous value, and what the thread does about it. */
module RefSpec {
  import opened Options

  /** count is the 32-bit counter; pending maps a thread between its two steps to the value it
      saw; releases and undone count how often the slot was given back and how often a decrement
      below zero had to be undone. */
  datatype Cell = Cell(count: nat, pending: map<nat, nat>, releases: nat, undone: nat)

  datatype Event = Ref | Dec(thread: nat) | Finish(thread: nat)

  predicate Possible(c: Cell, e: Event) {
    match e
    case Ref => true
    case Dec(t) => t !in c.pending
    case Finish(t) => t in c.pending
  }

  function Next(c: Cell, e: Event): Cell {
    match e
    case Ref => c.(count := (c.count + 1) % WORD)
    case Dec(t) => c.(count := (c.count + WORD - 1) % WORD, pending := c.pending[t := c.count])
    case Finish(t) =>
      if t !in c.pending then c
      else
        var done := c.(pending := c.pending - {t});
        if c.pending[t] == 0 then
          done.(count := (c.count + 1) % WORD, undone := c.undone + 1, releases := c.releases + 1)
        else if c.pending[t] == 1 then done.(releases := c.releases + 1)
        else done
  }

  predicate Plays(c: Cell, events: seq<Event>)
    decreases |events|
  {
    events == [] || (Possible(c, events[0]) && Plays(Next(c, events[0]), events[1..]))
  }

  function After(c: Cell, events: seq<Event>): Cell
    decreases |events|
  {
    if events == [] then c else After(Next(c, events[0]), events[1..])
  }

  function Decs(events: seq<Event>): nat {
    if events == [] then 0 else (if events[0].Dec? then 1 else 0) + Decs(events[1..])
  }

  /** A count of n, nothing under way and nothing released yet. */
  function Taken(n: nat): Cell {
    Cell(n, map[], 0, 0)
  }

  /** After k of at most n decrements: nobody saw zero, exactly the n-th saw one, and the slot has
      been given back once that thread has finished and not before. */
  ghost predicate Sound(n: nat, k: nat, c: Cell) {
    && k <= n < WORD
    && c.count == n - k
    && c.undone == 0
    && (forall t | t in c.pending :: n - k < c.pending[t] <= n)
    && (forall t, u | t in c.pending && u in c.pending && t != u :: c.pending[t] != c.pending[u])
    && c.releases == (if k == n && n > 0 && (forall t | t in c.pending :: c.pending[t] != 1) then 1 else 0)
  }

  lemma EventKeeps(n: nat, k: nat, c: Cell, e: Event)
    requires Sound(n, k, c) && Possible(c, e) && !e.Ref?
    requires e.Dec? ==> k < n
    ensures Sound(n, if e.Dec? then k + 1 else k, Next(c, e))
  {
    match e
    case Dec(t) =>
      assert c.count >= 1;
      assert (c.count + WORD - 1) % WORD == c.count - 1;
      assert Next(c, e).pending[t] == n - k;
    case Finish(t) =>
      assert c.pending[t] > 0;
      if c.pending[t] == 1 {
        assert k == n;
        assert forall u | u in c.pending && u != t :: c.pending[u] != 1;
      } else {
        var d := Next(c, e);
        assert forall u | u in c.pending && c.pending[u] == 1 :: u in d.pending && d.pending[u] == 1;
      }
  }

  lemma {:induction false} SoundAfter(n: nat, k: nat, c: Cell, events: seq<Event>)
    requires Sound(n, k, c) && Plays(c, events) && Ref !in events && k + Decs(events) <= n
    ensures Sound(n, k + Decs(events), After(c, events))
    decreases |events|
  {
    if events != [] {
      EventKeeps(n, k, c, events[0]);
      SoundAfter(n, if events[0].Dec? then k + 1 else k, Next(c, events[0]), events[1..]);
    }
  }

  /** n references, one after the other. */
  function Refs(n: nat): seq<Event> {
    if n == 0 then [] else [Ref] + Refs(n - 1)
  }

  /** Taking n references raises the count by n and disturbs nothing. */
  lemma {:induction false} RefsTaken(k: nat, n: nat, events: seq<Event>)
    requires k + n < WORD
    ensures Plays(Taken(k), Refs(n) + events) <==> Plays(Taken(k + n), events)
    ensures After(Taken(k), Refs(n) + events) == After(Taken(k + n), events)
    decreases n
  {
    if n == 0 {
      assert Refs(0) + events == events;
    } else {
      assert (Refs(n) + events)[1..] == Refs(n - 1) + events;
      assert Next(Taken(k), Ref) == Taken(k + 1);
      RefsTaken(k + 1, n - 1, events);
    }
  }

  /** n references, then at most n unrefs from any interleaved threads: no decrement goes below
      zero, and when all have finished the slot was given back exactly if it was the n-th. */
  lemma ReleasedExactlyOnce(n: nat, events: seq<Event>)
    requires 0 < n < WORD && Plays(Taken(0), Refs(n) + events) && Ref !in events && Decs(events) <= n
    ensures var c := After(Taken(0), Refs(n) + events);
            && c.undone == 0
            && c.releases <= 1
            && (Decs(events) < n ==> c.releases == 0)
            && (c.pending == map[] ==> c.releases == if Decs(events) == n then 1 else 0)
  {
    RefsTaken(0, n, events);
    SoundAfter(n, 0, Taken(n), events);
  }

  /** One unref too many, after the others, takes the undo branch and gives the slot back a second time. */
  lemma OverUnref(n: nat, c: Cell, t: nat)
    requires 0 < n && Sound(n, n, c) && c.pending == map[]
    ensures var d := Next(Next(c, Dec(t)), Finish(t));
            d.undone == 1 && d.releases == 2 && d.count == 0
  {
  }

  /** k unrefs by as many threads, one after the other. */
  function Unrefs(k: nat): seq<Event> {
    if k == 0 then [] else [Dec(k), Finish(k)] + Unrefs(k - 1)
  }

  /** All references can be dropped, and that gives the slot back once. */
  lemma {:induction false} AllDropped(k: nat)
    requires 0 < k < WORD
    ensures Plays(Taken(k), Unrefs(k)) && Decs(Unrefs(k)) == k && Ref !in Unrefs(k)
    ensures After(Taken(k), Unrefs(k)) == Cell(0, map[], 1, 0)
    decreases k
  {
    var c, rest := Taken(k), Unrefs(k - 1);
    var d := Next(c, Dec(k));
    var e := Next(d, Finish(k));
    assert d.pending - {k} == map[];
    assert e == if k == 1 then Cell(0, map[], 1, 0) else Taken(k - 1);
    assert Unrefs(k)[0] == Dec(k) && Unrefs(k)[1..] == [Finish(k)] + rest;
    assert ([Finish(k)] + rest)[1..] == rest;
    assert After(c, Unrefs(k)) == After(d, [Finish(k)] + rest) == After(e, rest);
    if k > 1 {
      AllDropped(k - 1);
    } else {
      assert rest == [] && After(e, rest) == e;
    }
  }
}
