/**
 * Two transports on their byte rings, joined by the wire: whatever the schedule, the pair of their states
 * is a reachable state of the protocol, so everything proved of the protocol holds of the code's form.
 */
module Connection {
  import opened Words

  import opened Framing
  import opened Endpoint
  import opened TxInvariant
  import opened RxInvariant
  import opened Protocol
  import opened Guarantees
  import opened Runs
  import opened Closing
  import opened Scheduling
  import opened Transport
  import opened Interleaving

  datatype Event = At(atA: bool, who: Actor) | Wire(fromA: bool)

  ghost predicate Joined(x: Transport, y: Transport)
    reads x, x.sendBuf, x.recvBuf, x.credits, x.reasm, y, y.sendBuf, y.recvBuf, y.credits, y.reasm
  {
    && x.Valid() && y.Valid() && Disjoint(x, y) && x.Cfg() == y.Cfg()
    && Reachable(x.Cfg(), System(x.view, y.view))
  }

  lemma ReachStep(cfg: Config, a: End, b: End, e: End, atA: bool, who: Actor)
    requires cfg.Valid() && Reachable(cfg, System(a, b)) && Served(cfg, if atA then a else b, e, who)
    ensures Reachable(cfg, if atA then System(e, b) else System(a, e))
  {
    hide Reachable, Apply, Enabled, Theirs;
    var before := if atA then a else b;
    if e != before {
      var step :| Theirs(who, step) && Enabled(cfg, before, step) && e == Apply(cfg, before, step);
      ReachAct(cfg, System(a, b), Action.At(atA, step));
    }
  }

  lemma ReachOpen(cfg: Config, a: End, b: End)
    requires cfg.Valid() && a == b == InitEnd(cfg, Rings.Blank(cfg.SendSlots()), Rings.Blank(cfg.depth))
    ensures Reachable(cfg, System(a, b))
  {
    assert IsInit(cfg, System(a, b));
    ReachInit(cfg, System(a, b));
  }

  /** Both ends of a connection, with the same depth and slot size. */
  method Open(slotSize: nat, depth: nat) returns (x: Transport, y: Transport)
    requires slotSize > HEADER_SIZE && 0 < depth < CREDIT_WRID_BASE
    ensures Joined(x, y) && fresh(x) && fresh(y)
  {
    hide Reachable, EndInv, OneSide.IsPast, InitEnd;
    x := new Transport(slotSize, depth);
    y := new Transport(slotSize, depth);
    ReachOpen(x.Cfg(), x.view, y.view);
  }

  /** One side acts. */
  method Go(t: Transport, who: Actor)
    requires t.Valid()
    modifies t, t.sendBuf, t.credits, t.reasm
    ensures t.Valid() && Served(t.Cfg(), old(t.view), t.view, who)
  {
    hide EndInv, OneSide.IsPast, Served;
    match who {
      case Sender => RunSender(t);
      case Receiver => RunReceiver(t);
      case StartSend(msgs) => StartOther(t, false, msgs, false, 0);
      case StartReceive(batch, max) => StartOther(t, true, [], batch, max);
      case Poller(_) => RunPoller(t, who);
      case Pusher => RunPoller(t, who);
      case _ => RunCloser(t, who);
    }
  }

  /** An event and its effect: an actor has a turn, or the wire carries a frame if there is one and a receive for it. */
  ghost predicate Happened(cfg: Config, s: System, s': System, e: Event)
    requires cfg.chunk > 0
  {
    match e
    case At(true, who) => Served(cfg, s.a, s'.a, who) && s'.b == s.b
    case At(false, who) => Served(cfg, s.b, s'.b, who) && s'.a == s.a
    case Wire(fromA) =>
      var deliver := Action.Deliver(fromA);
      s' == if CanAct(cfg, s, deliver) then Act(cfg, s, deliver) else s
  }

  method Happen(x: Transport, y: Transport, e: Event)
    requires Joined(x, y)
    modifies x, x.sendBuf, x.recvBuf, x.credits, x.reasm, y, y.sendBuf, y.recvBuf, y.credits, y.reasm
    ensures Joined(x, y)
    ensures Happened(x.Cfg(), System(old(x.view), old(y.view)), System(x.view, y.view), e)
  {
    hide EndInv, OneSide.IsPast, Reachable, Served, Rings.Ring, SendsPosted, SendsDone, RecvsPosted;
    ghost var a, b := x.view, y.view;
    match e {
      case At(true, who) =>
        Go(x, who);
        ReachStep(x.Cfg(), a, b, x.view, true, who);
      case At(false, who) =>
        Go(y, who);
        ReachStep(x.Cfg(), a, b, y.view, false, who);
      case Wire(fromA) => CarryIfAny(x, y, fromA);
    }
  }

  method CarryIfAny(x: Transport, y: Transport, fromA: bool)
    requires Joined(x, y)
    modifies x, x.sendBuf, x.recvBuf, x.credits, x.reasm, y, y.sendBuf, y.recvBuf, y.credits, y.reasm
    ensures Joined(x, y)
    ensures Happened(x.Cfg(), System(old(x.view), old(y.view)), System(x.view, y.view), Wire(fromA))
  {
    hide EndInv, OneSide.IsPast, Reachable, Served, Rings.Ring, SendsPosted, SendsDone, RecvsPosted;
    ghost var a, b := x.view, y.view;
    QueuesAlike(x);
    QueuesAlike(y);
    if fromA {
      if x.sq != [] && y.rq != [] {
        CarryHead(x, y);
        ReachAct(x.Cfg(), System(a, b), Action.Deliver(true));
      }
    } else if y.sq != [] && x.rq != [] {
      CarryHead(y, x);
      ReachAct(x.Cfg(), System(a, b), Action.Deliver(false));
    }
  }

  /** A series of events, one after the other. */
  ghost predicate Played(cfg: Config, s: System, s': System, schedule: seq<Event>)
    requires cfg.chunk > 0
    decreases |schedule|
  {
    if schedule == [] then s' == s
    else
      var init, last := schedule[..|schedule| - 1], schedule[|schedule| - 1];
      exists m :: Played(cfg, s, m, init) && Happened(cfg, m, s', last)
  }

  lemma PlayedOn(cfg: Config, s: System, m: System, s': System, schedule: seq<Event>, k: nat)
    requires cfg.chunk > 0 && k < |schedule|
    requires Played(cfg, s, m, schedule[..k]) && Happened(cfg, m, s', schedule[k])
    ensures Played(cfg, s, s', schedule[..k + 1])
  {
    hide Happened;
    assert schedule[..k + 1][..k] == schedule[..k];
  }

  lemma NonePlayed(cfg: Config, s: System)
    requires cfg.chunk > 0
    ensures Played(cfg, s, s, [])
  {}

  /** A whole run of a connection under any schedule. */
  method Play(x: Transport, y: Transport, schedule: seq<Event>)
    requires Joined(x, y)
    modifies x, x.sendBuf, x.recvBuf, x.credits, x.reasm, y, y.sendBuf, y.recvBuf, y.credits, y.reasm
    ensures Joined(x, y) && Played(x.Cfg(), System(old(x.view), old(y.view)), System(x.view, y.view), schedule)
    ensures Unbroken(x.Cfg(), x.view, y.view) ==> Prefix(y.view.rx.log.delivered, x.view.tx.log.accepted)
    ensures Unbroken(x.Cfg(), y.view, x.view) ==> Prefix(x.view.rx.log.delivered, y.view.tx.log.accepted)
    ensures Subsequence(y.view.rx.log.consumed, AllFrames(x.view.tx.log.accepted, x.payload))
    ensures Subsequence(x.view.rx.log.consumed, AllFrames(y.view.tx.log.accepted, x.payload))
  {
    hide EndInv, OneSide.IsPast, Reachable, Rings.Ring, SendsPosted, SendsDone, RecvsPosted, AllFrames, Subsequence;
    hide Played, Happened;
    ghost var s0 := System(x.view, y.view);
    NonePlayed(x.Cfg(), s0);
    assert schedule[..0] == [] && schedule[..|schedule|] == schedule;
    for i := 0 to |schedule|
      invariant Joined(x, y) && Played(x.Cfg(), s0, System(x.view, y.view), schedule[..i])
    {
      ghost var m := System(x.view, y.view);
      Happen(x, y, schedule[i]);
      PlayedOn(x.Cfg(), s0, m, System(x.view, y.view), schedule, i);
    }
    ghost var s := System(x.view, y.view);
    if Unbroken(x.Cfg(), x.view, y.view) { InOrderExactlyOnce(x.Cfg(), s, true); }
    if Unbroken(x.Cfg(), y.view, x.view) { InOrderExactlyOnce(x.Cfg(), s, false); }
    TakenInOrder(x.Cfg(), s, true);
    TakenInOrder(x.Cfg(), s, false);
  }

  predicate Prefix(got: seq<Bytes>, sent: seq<Bytes>) { got <= sent }
}
