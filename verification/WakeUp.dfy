/**
 * The event-mode poller against a completion queue that fills at any moment (rdmanet/transport_linux.go,
 * lines 190-246). Arming makes the next completion raise one event; completions that were already there
 * raise none. The poller arms, drains, and waits only after an empty drain.
 */
module WakeUp {

  /** Completions in the queue, whether the next one raises an event, events not yet consumed. */
  datatype Queue = Queue(ready: nat, armed: bool, events: nat)

  /** Where the poller is: at the top of its loop, armed, after an empty drain, gone. */
  datatype Pc = Top | ToDrain | ToWait | Gone

  /** `torn` once the completion channel has been torn down. */
  datatype World = World(q: Queue, pc: Pc, closed: bool, torn: bool, arrived: nat, handled: nat)

  function Arrive(q: Queue): Queue {
    Queue(q.ready + 1, false, q.events + if q.armed then 1 else 0)
  }

  /** One step: a completion arrives, the transport closes, or the poller moves; `n` is the batch polled. */
  datatype Step = Arrival | Closing | Tearing | Arm | Drain(n: nat) | Wake | Leave

  predicate Can(depth: nat, w: World, s: Step) {
    match s
    case Arrival => true
    case Closing => true
    case Tearing => true
    case Arm => w.pc.Top? && !w.closed
    case Drain(n) => w.pc.ToDrain? && n <= w.q.ready && n <= depth && (n == 0 ==> w.q.ready == 0)
    case Wake => w.pc.ToWait? && w.q.events > 0
    case Leave => (w.closed && w.pc.Top?) || (w.torn && w.pc.ToWait?)
  }

  function Do(depth: nat, w: World, s: Step): World
    requires Can(depth, w, s)
  {
    match s
    case Arrival => w.(q := Arrive(w.q), arrived := w.arrived + 1)
    case Closing => w.(closed := true)
    case Tearing => w.(torn := true)
    case Arm => w.(q := w.q.(armed := true), pc := ToDrain)
    case Drain(n) =>
      w.(q := w.q.(ready := w.q.ready - n), handled := w.handled + n, pc := if n > 0 then Top else ToWait)
    case Wake => w.(q := w.q.(events := w.q.events - 1), pc := Top)
    case Leave => w.(closed := true, pc := Gone)
  }

  ghost predicate Inv(w: World) {
    && w.arrived == w.handled + w.q.ready
    && (w.pc.ToDrain? ==> w.q.armed || w.q.events > 0)
    && (w.pc.ToWait? ==> w.q.events > 0 || (w.q.armed && w.q.ready == 0))
  }

  lemma StepKeeps(depth: nat, w: World, s: Step)
    requires Inv(w) && Can(depth, w, s)
    ensures Inv(Do(depth, w, s))
  {}

  ghost predicate IsRun(depth: nat, ws: seq<World>, steps: seq<Step>) {
    && |ws| == |steps| + 1
    && (exists q: Queue :: ws[0] == World(q, Top, false, false, q.ready, 0))
    && forall k :: 0 <= k < |steps| ==> Can(depth, ws[k], steps[k]) && ws[k + 1] == Do(depth, ws[k], steps[k])
  }

  lemma {:induction false} RunInv(depth: nat, ws: seq<World>, steps: seq<Step>, k: nat)
    requires IsRun(depth, ws, steps) && k < |ws|
    ensures Inv(ws[k])
  {
    if k > 0 {
      RunInv(depth, ws, steps, k - 1);
      StepKeeps(depth, ws[k - 1], steps[k - 1]);
    }
  }

  /**
   * No lost wake-up, in any run: a poller in `WaitEvent` either can wake at once, or every completion
   * that ever arrived has been handled and the next one will wake it.
   */
  lemma NoLostWakeUp(depth: nat, ws: seq<World>, steps: seq<Step>, k: nat)
    requires IsRun(depth, ws, steps) && k < |ws| && ws[k].pc.ToWait?
    ensures Can(depth, ws[k], Wake)
            || (ws[k].handled == ws[k].arrived && Can(depth, Do(depth, ws[k], Arrival), Wake))
  {
    RunInv(depth, ws, steps, k);
    assert Can(depth, ws[k], Arrival);
  }

  // ------------------------------------------------------------ the loop

  /**
   * What happens at the poller's next point of interruption: completions arrive, each good or failed, or the
   * transport closes. From `Breaks` on, every call on the completion queue and its channel fails: the device
   * is gone, or the channel has been torn down.
   */
  datatype Tick = Completes(oks: seq<bool>) | Shuts | Breaks

  /** The completions a plan brings. */
  function Flow(plan: seq<Tick>): seq<bool> {
    if plan == [] then [] else (if plan[0].Completes? then plan[0].oks else []) + Flow(plan[1..])
  }

  /** How a turn of the loop ends; `Goes` on, or how the loop does. */
  datatype Ended = Exited | Failed | Idle | Goes

  lemma NoFlow()
    ensures Flow([]) == []
  {}

  predicate FirstBad(cs: seq<bool>, k: nat) { k < |cs| && !cs[k] && false !in cs[..k] }

  predicate Onward(c: bool, b: bool, plan: seq<Tick>, c': bool, b': bool, rest: seq<Tick>) {
    && (c' || Shuts in rest <==> c || Shuts in plan) && (c ==> c')
    && (b' || Breaks in rest <==> b || Breaks in plan) && (b ==> b')
  }

  lemma OnwardOn(c: bool, b: bool, plan: seq<Tick>, c1: bool, b1: bool, mid: seq<Tick>, c': bool, b': bool,
                 rest: seq<Tick>)
    requires Onward(c, b, plan, c1, b1, mid) && Onward(c1, b1, mid, c', b', rest)
    ensures Onward(c, b, plan, c', b', rest)
  {}

  lemma OnwardMeans(c: bool, b: bool, plan: seq<Tick>, c': bool, b': bool, rest: seq<Tick>)
    requires Onward(c, b, plan, c', b', rest)
    ensures (c' ==> c || Shuts in plan) && (b' ==> b || Breaks in plan) && (b ==> b')
    ensures rest == [] ==> (c' <==> c || Shuts in plan) && (b' <==> b || Breaks in plan)
  {}

  lemma OnwardBroken(b: bool, plan: seq<Tick>, b': bool, rest: seq<Tick>, c: bool, c': bool)
    requires Onward(c, b, plan, c', b', rest)
    ensures b' || Breaks in rest ==> b || Breaks in plan
  {}

  lemma OnwardPut(c: bool, b: bool, plan: seq<Tick>)
    ensures Onward(c, b, plan, c, b, plan)
  {}

  class Poller {
    var ready: seq<bool>
    var armed: bool
    var events: nat
    var closed: bool
    var broken: bool
    var busy: bool
    const channel: bool
    const depth: nat
    ghost var handled: seq<bool>

    constructor (ready: seq<bool>, depth: nat, eventMode: bool, channel: bool)
      ensures this.ready == ready && this.depth == depth && busy == !eventMode && this.channel == channel
      ensures !armed && events == 0 && !closed && !broken && handled == []
    {
      this.ready, this.depth, busy, this.channel := ready, depth, !eventMode, channel;
      armed, events, closed, broken, handled := false, 0, false, false, [];
    }

    /** Between `plan` and `rest` the transport has closed if the plan says so, and likewise the device has gone. */
    predicate StillTo(wasClosed: bool, wasBroken: bool, plan: seq<Tick>, rest: seq<Tick>)
      reads this`closed, this`broken
    {
      Onward(wasClosed, wasBroken, plan, closed, broken, rest)
    }

    /** The device and other goroutines act. */
    method Others(plan: seq<Tick>) returns (rest: seq<Tick>)
      modifies this`ready, this`armed, this`events, this`closed, this`broken
      ensures rest == if plan == [] then [] else plan[1..]
      ensures ready + Flow(rest) == old(ready) + Flow(plan)
      ensures plan == [] ==>
                ready == old(ready) && armed == old(armed) && events == old(events) && closed == old(closed)
                && broken == old(broken)
      ensures old(armed) || old(events) > 0 ==> armed || events > 0
      ensures events > 0 || ready == old(ready) || !old(armed)
      ensures StillTo(old(closed), old(broken), plan, rest)
    {
      if plan == [] {
        return [];
      }
      rest := plan[1..];
      match plan[0] {
        case Completes(oks) =>
          for i := 0 to |oks|
            invariant ready == old(ready) + oks[..i] && closed == old(closed) && broken == old(broken)
            invariant old(armed) || old(events) > 0 ==> armed || events > 0
            invariant events > 0 || i == 0 || !old(armed)
            modifies this`ready, this`armed, this`events
          {
            if armed { events := events + 1; }
            ready, armed := ready + [oks[i]], false;
          }
          assert ready + Flow(rest) == old(ready) + (oks + Flow(rest));
        case Shuts => closed := true;
        case Breaks => broken := true;
      }
      assert !plan[0].Completes? ==> [] + Flow(rest) == Flow(rest);
    }

    /**
     * `drainOnce`: one batch of at most `depth` completions, dispatched in order up to the first failed one;
     * or the error of a broken device.
     */
    method DrainOnce() returns (n: nat, ok: bool)
      requires depth > 0
      modifies this`ready, this`handled
      ensures n == (if broken then 0 else if |old(ready)| < depth then |old(ready)| else depth)
      ensures ready == old(ready)[n..]
      ensures ok <==> !broken && false !in old(ready)[..n]
      ensures ok || broken ==> handled == old(handled) + old(ready)[..n]
      ensures !ok && !broken ==>
                exists k :: 0 <= k < n && FirstBad(old(ready), k) && handled == old(handled) + old(ready)[..k]
    {
      if broken {
        return 0, false;
      }
      n := if |ready| < depth then |ready| else depth;
      var wc := ready[..n];
      ready := ready[n..];
      for i := 0 to n
        invariant handled == old(handled) + wc[..i] && forall j :: 0 <= j < i ==> wc[j]
        modifies this`handled
      {
        if !wc[i] {
          assert FirstBad(old(ready), i) && wc[..i] == old(ready)[..i];
          return n, false;
        }
        handled := handled + [true];
      }
      ok := true;
    }

    /** `fail`. */
    method Fail()
      modifies this`closed
      ensures closed
    {
      closed := true;
    }

    /** The first `k` of all completions there will be have been handled, all good. */
    ghost predicate HandledTo(all: seq<bool>, before: seq<bool>, k: nat)
      reads this`handled
    {
      k <= |all| && handled == before + all[..k] && false !in all[..k]
    }

    /** And the rest is still to come. */
    ghost predicate Along(all: seq<bool>, before: seq<bool>, k: nat, ahead: seq<bool>)
      reads this`handled
    {
      HandledTo(all, before, k) && all[k..] == ahead
    }

    lemma SetsOut(all: seq<bool>)
      ensures Along(all, handled, 0, all)
    {}

    lemma SoFar(all: seq<bool>, before: seq<bool>, k: nat, ahead: seq<bool>)
      requires Along(all, before, k, ahead)
      ensures HandledTo(all, before, k) && (ahead == [] ==> k == |all| && all[..k] == all)
    {
      assert all == all[..k] + all[k..];
    }

    /** `drainOnce` on the way. */
    method DrainNext(ghost all: seq<bool>, ghost before: seq<bool>, ghost k: nat, ghost later: seq<bool>)
      returns (n: nat, ok: bool, ghost k': nat)
      requires depth > 0 && Along(all, before, k, ready + later)
      modifies this`ready, this`handled
      ensures n == |old(ready)| - |ready| && (ok ==> !broken && (n == 0 <==> old(ready) == []))
      ensures if ok then Along(all, before, k', ready + later) else StopsAt(all, before, k')
    {
      n, ok := DrainOnce();
      ghost var j := n;
      if !ok && !broken {
        j :| 0 <= j < n && FirstBad(old(ready), j) && handled == old(handled) + old(ready)[..j];
      }
      Advance(all, k, old(ready), later, j);
      k' := k + j;
      assert handled == before + all[..k'];
    }

    /** All good completions before number `k` have been handled, and that one is bad, or the device is gone. */
    ghost predicate StopsAt(all: seq<bool>, before: seq<bool>, k: nat)
      reads this`handled, this`broken
    {
      HandledTo(all, before, k) && (!broken ==> k < |all| && !all[k])
    }

    /** `WaitEvent`: an event, or the error of a device that is gone; nothing (`rests`) once the plan is used up. */
    method WaitEvent(plan: seq<Tick>) returns (rest: seq<Tick>, rests: bool)
      requires events > 0 || (armed && ready == [])
      modifies this`ready, this`armed, this`events, this`closed, this`broken
      ensures ready + Flow(rest) == old(ready) + Flow(plan) && |rest| <= |plan|
      ensures rests ==> rest == [] && armed && ready == [] && !broken
      ensures !rests ==> events > 0 || broken
      ensures |rest| == |plan| ==> ready == old(ready) && events == old(events) && broken == old(broken)
      ensures StillTo(old(closed), old(broken), plan, rest)
    {
      rest := plan;
      while events == 0 && !broken
        invariant ready + Flow(rest) == old(ready) + Flow(plan) && |rest| <= |plan|
        invariant events > 0 || (armed && ready == [])
        invariant |rest| == |plan| ==> ready == old(ready) && events == old(events) && broken == old(broken)
        invariant StillTo(old(closed), old(broken), plan, rest)
        decreases |rest|
      {
        if rest == [] {
          return rest, true;
        }
        rest := Others(rest);
      }
      rests := false;
    }

    lemma GoneStops(all: seq<bool>, before: seq<bool>, k: nat)
      requires broken && HandledTo(all, before, k)
      ensures StopsAt(all, before, k)
    {}

    /** A turn of the loop in event mode: arm, drain, and wait if there was nothing. */
    method EventTurn(plan: seq<Tick>, ghost all: seq<bool>, ghost before: seq<bool>, ghost k: nat)
      returns (rest: seq<Tick>, e: Ended, ghost k': nat)
      requires depth > 0 && Along(all, before, k, ready + Flow(plan))
      modifies this`ready, this`armed, this`events, this`closed, this`broken, this`handled
      ensures HandledTo(all, before, k') && |rest| <= |plan|
      ensures e.Goes? ==> Along(all, before, k', ready + Flow(rest))
      ensures e.Goes? && |rest| == |plan| ==>
                |ready| < |old(ready)| || (ready == old(ready) && events < old(events))
      ensures e.Exited? ==> closed
      ensures e.Failed? ==> closed && StopsAt(all, before, k')
      ensures e.Idle? ==> k' == |all| && !broken && ready == [] && armed && rest == []
      ensures if e.Failed? then broken ==> old(broken) || Breaks in plan
              else StillTo(old(closed), old(broken), plan, rest)
    {
      hide Along, HandledTo, Onward, StopsAt, Flow;
      NoFlow();
      SoFar(all, before, k, ready + Flow(plan));
      rest, e, k' := plan, Goes, k;
      if broken {
        GoneStops(all, before, k);
        Fail();
        return rest, Failed, k;
      }
      armed := true;
      rest := Others(rest);
      var n, ok;
      n, ok, k' := DrainNext(all, before, k, Flow(rest));
      OnwardMeans(old(closed), old(broken), plan, closed, broken, rest);
      if !ok {
        Fail();
        return rest, Failed, k';
      }
      SoFar(all, before, k', ready + Flow(rest));
      if n == 0 {
        var rests;
        ghost var c1, b1, rest1 := closed, broken, rest;
        rest, rests := WaitEvent(rest);
        OnwardOn(old(closed), old(broken), plan, c1, b1, rest1, closed, broken, rest);
        OnwardMeans(old(closed), old(broken), plan, closed, broken, rest);
        if broken { GoneStops(all, before, k'); }
        if rests {
          return rest, Idle, k';
        }
        if events == 0 {
          if closed {
            return rest, Exited, k';
          }
          Fail();
          return rest, Failed, k';
        }
        events := events - 1;
      }
    }

    /** A turn of the loop in busy mode; with nothing planned and nothing there it has come to rest. */
    method BusyTurn(rest: seq<Tick>, ghost all: seq<bool>, ghost before: seq<bool>, ghost k: nat)
      returns (e: Ended, ghost k': nat)
      requires depth > 0 && !closed && Along(all, before, k, ready + Flow(rest))
      modifies this`ready, this`closed, this`handled
      ensures HandledTo(all, before, k') && !e.Exited?
      ensures e.Goes? ==> Along(all, before, k', ready + Flow(rest)) && !closed
      ensures e.Goes? ==> |ready| < |old(ready)| || (ready == old(ready) && rest != [])
      ensures e.Failed? ==> closed && StopsAt(all, before, k')
      ensures e.Idle? ==> k' == |all| && !broken && ready == [] && rest == [] && !closed
    {
      hide Along, HandledTo;
      var n, ok;
      n, ok, k' := DrainNext(all, before, k, Flow(rest));
      if !ok {
        Fail();
        return Failed, k';
      }
      SoFar(all, before, k', ready + Flow(rest));
      e := if n == 0 && rest == [] then Idle else Goes;
    }

    /** A turn of the loop in the mode it is in; without a channel event mode gives way to busy mode. */
    method Turn(plan: seq<Tick>, ghost all: seq<bool>, ghost before: seq<bool>, ghost k: nat)
      returns (rest: seq<Tick>, e: Ended, ghost k': nat)
      requires depth > 0 && !closed && Along(all, before, k, ready + Flow(plan))
      modifies this`ready, this`armed, this`events, this`closed, this`broken, this`busy, this`handled
      ensures HandledTo(all, before, k') && |rest| <= |plan|
      ensures e.Goes? ==> Along(all, before, k', ready + Flow(rest))
      ensures e.Goes? && |rest| == |plan| ==>
                || (busy && !old(busy))
                || (busy == old(busy) && |ready| < |old(ready)|)
                || (busy == old(busy) && ready == old(ready) && (events < old(events) || plan != []))
      ensures e.Exited? ==> closed
      ensures e.Failed? ==> closed && StopsAt(all, before, k')
      ensures e.Idle? ==> k' == |all| && !broken && (closed ==> !busy) && ready == [] && (busy || armed) && rest == []
      ensures if e.Failed? then broken ==> old(broken) || Breaks in plan
              else StillTo(old(closed), old(broken), plan, rest)
      ensures (channel ==> busy == old(busy)) && (old(busy) || (e.Idle? && !channel) ==> busy)
    {
      hide Along, HandledTo, Onward, StopsAt, Flow;
      SoFar(all, before, k, ready + Flow(plan));
      OnwardPut(closed, broken, plan);
      rest, e, k' := plan, Goes, k;
      if busy {
        e, k' := BusyTurn(plan, all, before, k);
      } else if !channel {
        busy := true;
      } else {
        rest, e, k' := EventTurn(plan, all, before, k);
      }
    }

    /**
     * `poll`: returns when it finds the transport closed, fails it on a broken device or a failed completion,
     * or rests (`Idle`) once nothing more is planned. The first `k` completions have been handled, in order and
     * once: at rest all of them, on a failed one all before it. The next one ends the rest: an event, or a busy
     * loop, which is what event mode becomes if and only if there is no channel. Closing does not end a wait
     * for an event; tearing down the channel does.
     */
    method Poll(plan: seq<Tick>) returns (e: Ended, ghost k: nat)
      requires depth > 0
      modifies this
      ensures !e.Goes? && HandledTo(old(ready) + Flow(plan), old(handled), k)
      ensures e.Exited? ==> closed && (old(closed) || Shuts in plan)
      ensures e.Failed? ==> closed && StopsAt(old(ready) + Flow(plan), old(handled), k)
      ensures e.Failed? && broken ==> old(broken) || Breaks in plan
      ensures e.Idle? ==> (closed <==> old(closed) || Shuts in plan) && !old(broken) && Breaks !in plan
      ensures e.Idle? ==> k == |old(ready) + Flow(plan)|
      ensures e.Idle? ==> !broken && (closed ==> !busy) && ready == [] && (busy || armed)
      ensures (channel ==> busy == old(busy)) && (old(busy) || (e.Idle? && !channel) ==> busy)
    {
      hide Along, HandledTo, Onward, StopsAt, Flow;
      ghost var all, before := old(ready) + Flow(plan), old(handled);
      k := 0;
      OnwardPut(closed, broken, plan);
      var rest := plan;
      SetsOut(all);
      while true
        invariant Along(all, before, k, ready + Flow(rest))
        invariant (channel ==> busy == old(busy)) && (old(busy) ==> busy)
        invariant StillTo(old(closed), old(broken), plan, rest)
        decreases |rest|, !busy, |ready|, events
      {
        ghost var c0, b0, rest0 := closed, broken, rest;
        rest := Others(rest);
        OnwardOn(old(closed), old(broken), plan, c0, b0, rest0, closed, broken, rest);
        OnwardMeans(old(closed), old(broken), plan, closed, broken, rest);
        SoFar(all, before, k, ready + Flow(rest));
        if closed {
          return Exited, k;
        }
        ghost var c1, b1, rest1 := closed, broken, rest;
        rest, e, k := Turn(rest, all, before, k);
        if e.Failed? {
          OnwardBroken(old(broken), plan, b1, rest1, old(closed), c1);
        } else {
          OnwardOn(old(closed), old(broken), plan, c1, b1, rest1, closed, broken, rest);
          OnwardMeans(old(closed), old(broken), plan, closed, broken, rest);
        }
        if !e.Goes? {
          return;
        }
      }
    }
  }

  /** The next `n` completions of all there will be. */
  lemma Advance(all: seq<bool>, k: nat, ready: seq<bool>, later: seq<bool>, n: nat)
    requires k <= |all| && all[k..] == ready + later && n <= |ready|
    ensures k + n <= |all| && all[..k + n] == all[..k] + ready[..n] && all[k + n..] == ready[n..] + later
    ensures false in all[..k + n] <==> false in all[..k] || false in ready[..n]
    ensures n < |ready| ==> k + n < |all| && all[k + n] == ready[n]
  {
    assert all == all[..k] + all[k..];
    assert ready == ready[..n] + ready[n..];
  }
}
