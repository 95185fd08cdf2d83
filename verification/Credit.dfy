/** The counting semaphore of receiver-driven flow control (rdmanet/credit.go). */
module Credit {

  /** What a pass through `acquire` comes to: a credit, a closed tracker, or another wait. */
  datatype Grant = Granted | Refused | Waits

  datatype Counter = Counter(credits: nat, closed: bool)

  function AcquireOn(c: Counter): (Counter, Grant) {
    if c.closed then (c, Refused)
    else if c.credits == 0 then (c, Waits)
    else (c.(credits := c.credits - 1), Granted)
  }

  function ReleaseOn(c: Counter, n: int): Counter {
    if n <= 0 then c else c.(credits := c.credits + n)
  }

  class CreditTracker {
    var credits: nat
    var closed: bool

    constructor (initial: nat)
      ensures State() == Counter(initial, false)
    {
      credits, closed := initial, false;
    }

    function State(): Counter
      reads this
    {
      Counter(credits, closed)
    }

    /** One evaluation of the wait condition under the lock, and what follows it. */
    method Look() returns (g: Grant)
      modifies this
      ensures (State(), g) == AcquireOn(old(State()))
    {
      if credits == 0 && !closed {
        return Waits;
      }
      if closed {
        return Refused;
      }
      credits := credits - 1;
      g := Granted;
    }

    /**
     * `acquire`: looks, and looks again after each burst of what other goroutines do, until there is a credit
     * or the tracker is closed. It is still waiting only if every look found neither.
     */
    method Acquire(bursts: seq<seq<Op>>) returns (g: Grant, k: nat)
      modifies this
      ensures k <= |bursts| && (State(), g) == AcquireOn(Performed(old(State()), Joined(bursts[..k])))
      ensures g.Waits? ==> k == |bursts|
      ensures forall j :: 0 <= j < k ==> AcquireOn(Performed(old(State()), Joined(bursts[..j]))).1.Waits?
    {
      k := 0;
      PerformedNothing(State());
      g := Look();
      while g.Waits? && k < |bursts|
        invariant k <= |bursts| && (State(), g) == AcquireOn(Performed(old(State()), Joined(bursts[..k])))
        invariant forall j :: 0 <= j < k ==> AcquireOn(Performed(old(State()), Joined(bursts[..j]))).1.Waits?
      {
        PerformedBurst(old(State()), bursts, k);
        Others(bursts[k]);
        k := k + 1;
        g := Look();
      }
    }

    method Others(ops: seq<Op>)
      modifies this
      ensures State() == Performed(old(State()), ops)
    {
      for i := 0 to |ops|
        invariant State() == Performed(old(State()), ops[..i])
      {
        assert ops[..i + 1][..i] == ops[..i];
        match ops[i] {
          case Acquire => var _ := Look();
          case Release(n) => Release(n);
          case Close => Close();
        }
      }
      assert ops[..|ops|] == ops;
    }

    method Release(n: int)
      modifies this
      ensures State() == ReleaseOn(old(State()), n)
    {
      if n <= 0 {
        return;
      }
      credits := credits + n;
    }

    method Close()
      modifies this
      ensures State() == old(State()).(closed := true)
    {
      closed := true;
    }
  }

  // ------------------------------------------------------- over a whole run

  datatype Op = Acquire | Release(n: int) | Close

  datatype Tally = Tally(counter: Counter, granted: nat, released: nat)

  function Perform(t: Tally, op: Op): Tally {
    match op
    case Acquire =>
      var (c, g) := AcquireOn(t.counter);
      Tally(c, t.granted + (if g.Granted? then 1 else 0), t.released)
    case Release(n) => Tally(ReleaseOn(t.counter, n), t.granted, t.released + if n > 0 then n else 0)
    case Close => t.(counter := t.counter.(closed := true))
  }

  function PerformAll(t: Tally, ops: seq<Op>): Tally {
    if ops == [] then t else Perform(PerformAll(t, ops[..|ops| - 1]), ops[|ops| - 1])
  }

  function Performed(c: Counter, ops: seq<Op>): Counter { PerformAll(Tally(c, 0, 0), ops).counter }

  function Joined(bursts: seq<seq<Op>>): seq<Op> {
    if bursts == [] then [] else Joined(bursts[..|bursts| - 1]) + bursts[|bursts| - 1]
  }

  lemma PerformedNothing(c: Counter)
    ensures Performed(c, Joined([])) == c
  {}

  lemma {:induction false} PerformMore(t: Tally, t': Tally, a: seq<Op>, b: seq<Op>)
    requires t'.counter == PerformAll(t, a).counter
    ensures PerformAll(t, a + b).counter == PerformAll(t', b).counter
    decreases |b|
  {
    if b == [] {
      assert a + b == a;
    } else {
      PerformMore(t, t', a, b[..|b| - 1]);
      assert (a + b)[..|a + b| - 1] == a + b[..|b| - 1];
    }
  }

  lemma PerformedBurst(c: Counter, bursts: seq<seq<Op>>, k: nat)
    requires k < |bursts|
    ensures Performed(c, Joined(bursts[..k + 1])) == Performed(Performed(c, Joined(bursts[..k])), bursts[k])
  {
    assert bursts[..k + 1][..k] == bursts[..k];
    PerformMore(Tally(c, 0, 0), Tally(Performed(c, Joined(bursts[..k])), 0, 0), Joined(bursts[..k]), bursts[k]);
  }

  /** Under any interleaving of acquirers and releasers no credit is made or lost, and closing ends all grants. */
  lemma {:induction false} Balanced(t: Tally, ops: seq<Op>)
    ensures var t' := PerformAll(t, ops);
            && t'.counter.credits + t'.granted + t.released == t.counter.credits + t.granted + t'.released
            && (t.counter.closed ==> t'.granted == t.granted && t'.counter.closed)
  {
    if ops != [] {
      Balanced(t, ops[..|ops| - 1]);
    }
  }

  // ------------------------------------------------------ waiting and waking

  /** The tracker, how many acquirers are asleep in `Wait`, and broadcasts still to be made. */
  datatype Room = Room(counter: Counter, asleep: nat, owed: nat)

  /** An acquirer looks, under the lock; credits or the end come, under the lock; the broadcast follows without it. */
  datatype Turn = Looks | Comes(n: nat) | Ends | Wakes

  predicate CanTurn(r: Room, turn: Turn) {
    match turn
    case Looks => true
    case Comes(n) => n > 0
    case Ends => true
    case Wakes => r.owed > 0
  }

  function TurnOf(r: Room, turn: Turn): Room
    requires CanTurn(r, turn)
  {
    match turn
    case Looks =>
      var (c, g) := AcquireOn(r.counter);
      Room(c, r.asleep + (if g.Waits? then 1 else 0), r.owed)
    case Comes(n) => Room(ReleaseOn(r.counter, n), r.asleep, r.owed + 1)
    case Ends => Room(r.counter.(closed := true), r.asleep, r.owed + 1)
    case Wakes => Room(r.counter, 0, r.owed - 1)
  }

  ghost predicate Turns(rooms: seq<Room>, turns: seq<Turn>) {
    && |rooms| == |turns| + 1 && rooms[0].asleep == 0
    && forall i :: 0 <= i < |turns| ==> CanTurn(rooms[i], turns[i]) && rooms[i + 1] == TurnOf(rooms[i], turns[i])
  }

  /**
   * Nobody sleeps on: in any run, whoever is asleep would wait again if woken, or a broadcast is still to be
   * made, and it wakes them all.
   */
  lemma {:induction false} NobodySleepsOn(rooms: seq<Room>, turns: seq<Turn>, i: nat)
    requires Turns(rooms, turns) && i < |rooms| && rooms[i].asleep > 0
    ensures AcquireOn(rooms[i].counter).1.Waits? || CanTurn(rooms[i], Wakes)
    ensures CanTurn(rooms[i], Wakes) ==> TurnOf(rooms[i], Wakes).asleep == 0
    decreases i
  {
    if rooms[i - 1].asleep > 0 { NobodySleepsOn(rooms, turns, i - 1); }
    assert rooms[i] == TurnOf(rooms[i - 1], turns[i - 1]);
  }
}
