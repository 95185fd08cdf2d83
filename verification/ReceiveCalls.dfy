/**
 * The receive calls, loop by loop: `nextMessage`, `tryNextMessage`, `recvMsg`, `recvMsgBuf` and
 * `recvBatch` (rdmanet/transport_linux.go, lines 574-670 and 707-775).
 */
module ReceiveCalls {
  import opened Words

  import opened Framing
  import opened Credit
  import opened Endpoint
  import opened TxInvariant
  import opened RxInvariant
  import opened Protocol
  import opened OneSide
  import opened Scheduling
  import opened Transport
  import opened Interleaving

  /** `Stuck` is a call still blocked when the plan has run out. */
  datatype Result = Message(msg: Bytes) | EndOfFile | ErrClosed | MessageTooLarge | Stuck

  /** Delivered messages and reassembler are what the consumed frames assemble to. */
  ghost predicate Assembled(r: Rx) {
    Assemble(r.log.consumed) == Assembly(r.log.delivered, r.reasm)
  }

  /** A receive call in progress from `e`: `out` delivered since, and the reassembler still in step. */
  ghost predicate Got(e: End, e': End, out: seq<Bytes>) {
    && e'.rx.log.delivered == e.rx.log.delivered + out
    && (Assembled(e.rx) ==> Assembled(e'.rx))
    && (e.closed ==> e'.closed) && (e.rx.peerFin ==> e'.rx.peerFin)
  }

  /** Nothing delivered: the step of another goroutine, or of the call itself between two frames. */
  ghost predicate NothingDelivered(e: End, e': End) {
    && e'.rx.log.delivered == e.rx.log.delivered && e'.rx.log.consumed == e.rx.log.consumed && e'.rx.reasm == e.rx.reasm
    && (e.closed ==> e'.closed) && (e.rx.peerFin ==> e'.rx.peerFin)
  }

  lemma GotUnchanged(e: End, e': End, e'': End, out: seq<Bytes>)
    requires Got(e, e', out) && NothingDelivered(e', e'')
    ensures Got(e, e'', out)
  {}

  lemma GotNothing(e: End, e': End)
    requires NothingDelivered(e, e')
    ensures Got(e, e', [])
  {}

  lemma GotMore(e: End, e': End, e'': End, a: seq<Bytes>, b: seq<Bytes>)
    requires Got(e, e', a) && Got(e', e'', b)
    ensures Got(e, e'', a + b)
    ensures a == [] ==> Got(e, e'', b)
    ensures b == [] ==> Got(e, e'', a)
  {
    hide Assembled;
    assert e''.rx.log.delivered == e.rx.log.delivered + (a + b);
    assert a == [] ==> a + b == b;
    assert b == [] ==> a + b == a;
  }

  lemma ConsumeAssembled(cfg: Config, r: Rx)
    requires CanConsume(r) && Assembled(r) && !Reassembled(r).1.TooLarge?
    ensures Assembled(DoConsume(cfg, r))
  {
    hide DoConsume, Assemble;
    ConsumeEffect(cfg, r);
    var fr := r.receiver.frame;
    AssembleSnoc(r.log.consumed, Data(PayloadIn(r.mem, fr), fr.more));
  }

  /** Where a receive stands once a flush is through and nothing is pending. */
  function Target(after: AfterFlush, call: RecvCall): Receiver {
    match after
    case ThenBlock => RBlock(call)
    case ThenReturn => RIdle
    case ThenResume(complete) =>
      if !complete then RLoop(call)
      else if call.batch && call.got + 1 < call.want then RLoop(call.(got := call.got + 1))
      else RIdle
  }

  /** Where a receive that just consumed a frame, or found none, stands until its flush is through. */
  ghost predicate Heading(r: Rx, after: AfterFlush, call: RecvCall) {
    if r.receiver.RReturn? then Target(r.receiver.after, r.receiver.call) == Target(after, call)
    else r.receiver == Target(after, call)
  }

  /** With nothing pending, both ends of `returnCredit` go where the flush was heading. */
  lemma ReturnResumes(r: Rx)
    requires r.receiver.RReturn? && r.pending == 0
    ensures var r' := r.(receiver := Target(r.receiver.after, r.receiver.call));
            CreditPosted(r) == r' && DoDropCredit(r) == r'.(log := r.log.(leak := r.log.leak + r.receiver.n))
  {}

  lemma ReturnLands(cfg: Config, e: End, s: Step, after: AfterFlush, call: RecvCall)
    requires cfg.Valid() && EndInv(cfg, e) && e.rx.receiver.RReturn? && Heading(e.rx, after, call)
    requires s == PostCredit || s == OnRx(DropCredit)
    requires Enabled(cfg, e, s)
    ensures var e' := Apply(cfg, e, s);
            && NothingDelivered(e, e') && e'.rx.receiver == Target(after, call) && e'.rx.queue == e.rx.queue
            && e'.rx.pending == 0
  {
    hide EndInv, PostControl, CanPostControl, CreditPosted, DoDropCredit, Target, TxApply, TxEnabled;
    ReturnFits(cfg, e);
    ReturnResumes(e.rx);
  }

  /** `returnCredit`, waiting for a credit slot; on a closed transport it gives up. */
  method Settle(t: Transport, ghost after: AfterFlush, ghost call: RecvCall, plan: Plan) returns (ok: bool, rest: Plan)
    requires t.Valid() && Heading(t.view.rx, after, call)
    modifies t, t.sendBuf, t.recvBuf, t.credits, t.reasm
    ensures t.Valid() && old(t.past) <= t.past && NothingDelivered(old(t.view), t.view)
    ensures ok ==> t.receiver == Target(after, call) && (old(t.receiver).RReturn? ==> t.creditPending == 0)
    ensures !ok ==> ReceiverWaits(t.view) && t.receiver.RReturn? && rest == []
    ensures |rest| <= |plan| && (plan == [] ==> t.recvQ == old(t.recvQ))
    ensures !old(t.receiver).RReturn? ==> t.view == old(t.view)
    ensures Ran(t.Cfg(), false, old(t.view), t.view, plan, rest)
  {
    hide EndInv, IsPast, Rings.Ring, SendsPosted, SendsDone, RecvsPosted, Apply, Enabled, Ran;
    rest := plan;
    RanNothing(t.Cfg(), false, t.view, plan);
    if !t.receiver.RReturn? {
      return true, rest;
    }
    while true
      invariant t.Valid() && old(t.past) <= t.past && NothingDelivered(old(t.view), t.view)
      invariant t.receiver.RReturn? && Heading(t.view.rx, after, call)
      invariant |rest| <= |plan| && (plan == [] ==> t.recvQ == old(t.recvQ))
      invariant Ran(t.Cfg(), false, old(t.view), t.view, plan, rest)
      decreases |rest|
    {
      rest := Yield(t, false, old(t.view), plan, rest);
      ghost var e := t.view;
      var g := t.ReturnCredit();
      if !g.Waits? {
        ReturnLands(t.Cfg(), e, if g.Granted? then PostCredit else OnRx(DropCredit), after, call);
        RanStep(t.Cfg(), false, old(t.view), e, if g.Granted? then PostCredit else OnRx(DropCredit), plan, rest);
        return true, rest;
      }
      if rest == [] {
        return false, rest;
      }
    }
  }

  // -------------------------------------------------------------- one frame

  function AfterAdd(added: Added): AfterFlush {
    if added.TooLarge? then ThenReturn else ThenResume(added.Complete?)
  }

  lemma ConsumeLands(cfg: Config, e: End)
    requires CanConsume(e.rx)
    ensures var e', added := e.(rx := DoConsume(cfg, e.rx)), Reassembled(e.rx).1;
            && Heading(e'.rx, AfterAdd(added), e.rx.receiver.call) && e'.rx.queue == e.rx.queue
            && (added.TooLarge? ==> e'.rx.log.delivered == e.rx.log.delivered)
            && (!added.TooLarge? ==> Got(e, e', if added.Complete? then [added.msg] else []))
            && (!added.TooLarge? && e.rx.receiver.call.batch && e'.rx.receiver.RIdle? ==> e'.rx.pending == 0)
  {
    hide Assemble, AddFragment, PayloadIn;
    if Assembled(e.rx) && !Reassembled(e.rx).1.TooLarge? { ConsumeAssembled(cfg, e.rx); }
  }

  /** `consumeFrameLocked` on the frame in hand, with the flush it may need. */
  method ConsumeTaken(t: Transport, plan: Plan) returns (added: Added, ok: bool, rest: Plan)
    requires t.Valid() && t.receiver.RTake?
    modifies t, t.sendBuf, t.recvBuf, t.credits, t.reasm
    ensures t.Valid() && old(t.past) <= t.past
    ensures added.TooLarge? ==> t.view.rx.log.delivered == old(t.view).rx.log.delivered
    ensures !added.TooLarge? ==> Got(old(t.view), t.view, if added.Complete? then [added.msg] else [])
    ensures ok ==> t.receiver == Target(AfterAdd(added), old(t.receiver).call)
    ensures !ok ==> ReceiverWaits(t.view) && t.receiver.RReturn? && rest == []
    ensures ok && !added.TooLarge? && old(t.receiver).call.batch && t.receiver.RIdle? ==> t.creditPending == 0
    ensures added.TooLarge? ==> Tripped(t.past, |old(t.past)| - 1)
    ensures |rest| <= |plan| && (plan == [] ==> t.recvQ == old(t.recvQ))
    ensures Ran(t.Cfg(), false, old(t.view), t.view, plan, rest)
  {
    hide EndInv, IsPast, Rings.Ring, SendsPosted, SendsDone, RecvsPosted, Apply, Enabled, DoConsume, Got, Reassembled;
    hide Ran;
    t.PastEnds();
    RanNothing(t.Cfg(), false, t.view, plan);
    rest := Yield(t, false, old(t.view), plan, plan);
    t.PastEnds();
    ghost var e, before := t.view, t.past;
    GotNothing(old(t.view), e);
    TakenBacked(t.Cfg(), e);
    ConsumeLands(t.Cfg(), e);
    added := t.ConsumeFrame();
    ConsumeIsStep(t.Cfg(), e);
    RanStep(t.Cfg(), false, old(t.view), e, OnRx(Consume), plan, rest);
    ghost var e1, rest1 := t.view, rest;
    ok, rest := Settle(t, AfterAdd(added), e.rx.receiver.call, rest);
    RanTrans(t.Cfg(), false, old(t.view), e1, t.view, plan, rest1, rest);
    assert t.past[|before| - 1] == e;
    if !added.TooLarge? {
      ghost var out := if added.Complete? then [added.msg] else [];
      GotMore(old(t.view), e, e1, [], out);
      GotUnchanged(old(t.view), e1, t.view, out);
    }
  }

  /** Since a state of the past a frame has gone past the size limit. */
  ghost predicate Tripped(past: seq<End>, from: int) {
    exists i :: 0 <= from <= i < |past| && CanConsume(past[i].rx) && Reassembled(past[i].rx).1.TooLarge?
  }

  lemma ConsumeIsStep(cfg: Config, e: End)
    requires cfg.chunk > 0 && Enabled(cfg, e, OnRx(Consume))
    ensures CanConsume(e.rx) && Apply(cfg, e, OnRx(Consume)) == e.(rx := DoConsume(cfg, e.rx))
  {}

  datatype Wait = Taken | Ended | Aborted | Blocked

  lemma FindEmptyLands(cfg: Config, e: End)
    requires CanFindEmpty(e.rx)
    ensures var e' := e.(rx := DoFindEmpty(e.rx)); var call := e.rx.receiver.call;
            && NothingDelivered(e, e') && e'.rx.queue == e.rx.queue && e'.rx.pending == 0
            && Heading(e'.rx, if call.got == 0 then ThenBlock else ThenReturn, call)
  {}

  /** The first half of an iteration of `nextMessage`: a queued frame, or flush and wait for one. */
  method NextFrame(t: Transport, plan: Plan) returns (w: Wait, rest: Plan)
    requires t.Valid() && t.receiver.RLoop? && t.receiver.call.got == 0
    modifies t, t.sendBuf, t.recvBuf, t.credits, t.reasm
    ensures t.Valid() && old(t.past) <= t.past && NothingDelivered(old(t.view), t.view)
    ensures w.Taken? ==> t.receiver.RTake? && t.receiver.call == old(t.receiver).call
    ensures w.Ended? ==> t.receiver.RIdle? && t.peerFin && t.recvQ == []
    ensures w.Aborted? ==> t.receiver.RIdle? && t.closed
    ensures w.Blocked? ==> ReceiverWaits(t.view) && rest == []
    ensures if plan != [] then |rest| < |plan| else rest == [] && (w.Taken? ==> |t.recvQ| < |old(t.recvQ)|)
    ensures Ran(t.Cfg(), false, old(t.view), t.view, plan, rest)
  {
    hide EndInv, IsPast, Rings.Ring, SendsPosted, SendsDone, RecvsPosted, Ran, Apply, Enabled, ReceiverWaits;
    var ok: bool;
    ok, rest := LookForFrame(t, plan);
    if ok {
      return Taken, rest;
    }
    ghost var e1, rest1 := t.view, rest;
    ok, rest := Settle(t, ThenBlock, old(t.receiver).call, rest);
    RanTrans(t.Cfg(), false, old(t.view), e1, t.view, plan, rest1, rest);
    if !ok {
      return Blocked, rest;
    }
    ghost var e2, rest2 := t.view, rest;
    w, rest := BlockForFrame(t, rest);
    RanTrans(t.Cfg(), false, old(t.view), e2, t.view, plan, rest2, rest);
  }

  /** The non-blocking select: a queued frame, or none, and then the pending credits are on their way. */
  method LookForFrame(t: Transport, plan: Plan) returns (ok: bool, rest: Plan)
    requires t.Valid() && t.receiver.RLoop?
    modifies t, t.sendBuf, t.recvBuf, t.credits, t.reasm
    ensures t.Valid() && old(t.past) <= t.past && NothingDelivered(old(t.view), t.view)
    ensures var call := old(t.receiver).call;
            if ok then t.receiver.RTake? && t.receiver.call == call
            else t.creditPending == 0 && Heading(t.view.rx, if call.got == 0 then ThenBlock else ThenReturn, call)
                 && FoundEmpty(t.past, |old(t.past)| - 1, call)
    ensures if plan != [] then |rest| < |plan|
            else rest == [] && if ok then |t.recvQ| < |old(t.recvQ)| else t.recvQ == old(t.recvQ)
    ensures Ran(t.Cfg(), false, old(t.view), t.view, plan, rest)
  {
    hide EndInv, IsPast, Rings.Ring, SendsPosted, SendsDone, RecvsPosted, TxApply, TxEnabled, Flush, Ran, Heading;
    t.PastEnds();
    RanNothing(t.Cfg(), false, t.view, plan);
    rest := Yield(t, false, old(t.view), plan, plan);
    t.PastEnds();
    ghost var e, before := t.view, t.past;
    ok := t.TryFrame();
    RanStep(t.Cfg(), false, old(t.view), e, OnRx(if ok then TakeFrame else FindEmpty), plan, rest);
    if !ok {
      FindEmptyLands(t.Cfg(), e);
      assert t.past[|before| - 1] == e;
    }
  }

  /** Since a state of the past the call has found the queue empty. */
  ghost predicate FoundEmpty(past: seq<End>, from: int, call: RecvCall) {
    exists i :: 0 <= from <= i < |past| && past[i].rx.receiver == RLoop(call) && past[i].rx.queue == []
  }

  lemma SelectLands(cfg: Config, e: End, s: RxStep)
    requires cfg.chunk > 0 && Enabled(cfg, e, OnRx(s)) && (s.TakeFrame? || s.SeeFin? || s.ReturnEof? || s.RecvAbort?)
    ensures var e' := Apply(cfg, e, OnRx(s));
            && NothingDelivered(e, e') && (s.ReturnEof? ==> e'.rx.queue == [] && e'.rx.receiver.RIdle?)
            && (s.TakeFrame? ==> e'.rx.receiver.RTake? && e'.rx.receiver.call == e.rx.receiver.call
                                 && |e'.rx.queue| < |e.rx.queue|)
            && (s.SeeFin? ==> e'.rx.receiver == RFin(e.rx.receiver.call) && e.rx.peerFin && e'.rx.queue == e.rx.queue)
            && (s.RecvAbort? ==> e'.rx.receiver.RIdle? && e.closed)
  {}

  /** The second half: the blocking select, and the select behind `peerFin`. */
  method BlockForFrame(t: Transport, plan: Plan) returns (w: Wait, rest: Plan)
    requires t.Valid() && t.receiver.RBlock?
    modifies t, t.sendBuf, t.recvBuf, t.credits, t.reasm
    ensures t.Valid() && old(t.past) <= t.past && NothingDelivered(old(t.view), t.view)
    ensures w.Taken? ==> t.receiver.RTake? && t.receiver.call == old(t.receiver).call
    ensures w.Ended? ==> t.receiver.RIdle? && t.peerFin && t.recvQ == []
    ensures w.Aborted? ==> t.receiver.RIdle? && t.closed
    ensures w.Blocked? ==> ReceiverWaits(t.view) && rest == []
    ensures |rest| <= |plan| && (plan == [] && w.Taken? ==> |t.recvQ| < |old(t.recvQ)|)
    ensures Ran(t.Cfg(), false, old(t.view), t.view, plan, rest)
  {
    hide EndInv, IsPast, Rings.Ring, SendsPosted, SendsDone, RecvsPosted, Apply, Enabled, Ran;
    rest := plan;
    RanNothing(t.Cfg(), false, t.view, plan);
    while true
      invariant t.Valid() && old(t.past) <= t.past && NothingDelivered(old(t.view), t.view)
      invariant t.receiver == old(t.receiver)
      invariant |rest| <= |plan| && (plan == [] ==> t.recvQ == old(t.recvQ))
      invariant Ran(t.Cfg(), false, old(t.view), t.view, plan, rest)
      decreases |rest|
    {
      rest := Yield(t, false, old(t.view), plan, rest);
      ghost var e := t.view;
      var s, waits := t.SelectFrame();
      if waits {
        if rest == [] {
          return Blocked, rest;
        }
      } else {
        SelectLands(t.Cfg(), e, s);
        RanStep(t.Cfg(), false, old(t.view), e, OnRx(s), plan, rest);
        if s.TakeFrame? {
          return Taken, rest;
        } else if s.RecvAbort? {
          return Aborted, rest;
        }
        ghost var e1, rest1 := t.view, rest;
        w, rest := AfterFin(t, rest);
        RanTrans(t.Cfg(), false, old(t.view), e1, t.view, plan, rest1, rest);
        return;
      }
    }
  }

  method AfterFin(t: Transport, plan: Plan) returns (w: Wait, rest: Plan)
    requires t.Valid() && t.receiver.RFin? && t.peerFin
    modifies t, t.sendBuf, t.recvBuf, t.credits, t.reasm
    ensures t.Valid() && old(t.past) <= t.past && NothingDelivered(old(t.view), t.view)
    ensures w.Taken? || w.Ended?
    ensures w.Taken? ==> t.receiver.RTake? && t.receiver.call == old(t.receiver).call
    ensures w.Ended? ==> t.receiver.RIdle? && t.peerFin && t.recvQ == []
    ensures |rest| <= |plan| && (plan == [] && w.Taken? ==> |t.recvQ| < |old(t.recvQ)|)
    ensures Ran(t.Cfg(), false, old(t.view), t.view, plan, rest)
  {
    hide EndInv, IsPast, Rings.Ring, SendsPosted, SendsDone, RecvsPosted, Apply, Enabled, Ran;
    RanNothing(t.Cfg(), false, t.view, plan);
    rest := Yield(t, false, old(t.view), plan, plan);
    ghost var e := t.view;
    var ok := t.SelectAfterFin();
    SelectLands(t.Cfg(), e, if ok then TakeFrame else ReturnEof);
    RanStep(t.Cfg(), false, old(t.view), e, OnRx(if ok then TakeFrame else ReturnEof), plan, rest);
    w := if ok then Taken else Ended;
  }

  // ------------------------------------------------------------ one message

  /** How a receive of one message may end. */
  ghost predicate Ends(e: End, e': End, r: Result, call: RecvCall) {
    && (r.Message? ==> Got(e, e', [r.msg]) && e'.rx.receiver == Target(ThenResume(true), call))
    && (r.EndOfFile? ==> Got(e, e', []) && e'.rx.receiver.RIdle? && e'.rx.peerFin && e'.rx.queue == [])
    && (r.ErrClosed? ==> Got(e, e', []) && e'.rx.receiver.RIdle? && e'.closed)
    && (r.MessageTooLarge? ==> e'.rx.log.delivered == e.rx.log.delivered && e'.rx.receiver.RIdle?)
    && (r.Stuck? ==> ReceiverWaits(e') && AtMostOne(e, e') && (e'.rx.receiver.RBlock? ==> Got(e, e', [])))
  }

  /** At most one message delivered, which the call has not returned yet. */
  ghost predicate AtMostOne(e: End, e': End) {
    var before, after := e.rx.log.delivered, e'.rx.log.delivered;
    before <= after && |after| <= |before| + 1
  }

  /** `nextMessage`: frames until one completes a message. */
  method NextMessage(t: Transport, plan: Plan) returns (r: Result, rest: Plan)
    requires t.Valid() && t.receiver.RLoop? && t.receiver.call.got == 0
    modifies t, t.sendBuf, t.recvBuf, t.credits, t.reasm
    ensures t.Valid() && old(t.past) <= t.past
    ensures Ends(old(t.view), t.view, r, old(t.receiver).call)
    ensures r.Stuck? ==> rest == []
    ensures r.MessageTooLarge? ==> Tripped(t.past, |old(t.past)| - 1)
    ensures r.Message? && old(t.receiver).call.batch && t.receiver.RIdle? ==> t.creditPending == 0
    ensures Ran(t.Cfg(), false, old(t.view), t.view, plan, rest)
  {
    hide EndInv, IsPast, Rings.Ring, SendsPosted, SendsDone, RecvsPosted, Apply, Enabled, Got, Ran, ReceiverWaits;
    t.PastEnds();
    rest := plan;
    GotNothing(t.view, t.view);
    RanNothing(t.Cfg(), false, t.view, plan);
    while true
      invariant t.Valid() && old(t.past) <= t.past && Got(old(t.view), t.view, [])
      invariant t.receiver == old(t.receiver)
      invariant Ran(t.Cfg(), false, old(t.view), t.view, plan, rest)
      decreases |rest|, |t.recvQ|
    {
      ghost var e, rest0 := t.view, rest;
      var w: Wait;
      w, rest := NextFrame(t, rest);
      RanTrans(t.Cfg(), false, old(t.view), e, t.view, plan, rest0, rest);
      GotUnchanged(old(t.view), e, t.view, []);
      GotIsAtMostOne(old(t.view), t.view, []);
      match w {
        case Ended => return EndOfFile, rest;
        case Aborted => return ErrClosed, rest;
        case Blocked => return Stuck, rest;
        case Taken =>
      }
      var done: bool;
      ghost var e1, rest1, past1 := t.view, rest, t.past;
      done, r, rest := TakeOne(t, old(t.view), rest);
      RanTrans(t.Cfg(), false, old(t.view), e1, t.view, plan, rest1, rest);
      TrippedSince(t.past, |old(t.past)| - 1, |past1| - 1);
      if done {
        return;
      }
    }
  }

  lemma GotIsAtMostOne(e: End, e': End, out: seq<Bytes>)
    requires Got(e, e', out) && |out| <= 1
    ensures AtMostOne(e, e')
  {}

  lemma TrippedSince(past: seq<End>, from: int, later: int)
    requires 0 <= from <= later
    ensures Tripped(past, later) ==> Tripped(past, from)
  {}

  /** Consumes the frame in hand; `done` unless it was one fragment of more. */
  method TakeOne(t: Transport, ghost e0: End, plan: Plan) returns (done: bool, r: Result, rest: Plan)
    requires t.Valid() && t.receiver.RTake? && Got(e0, t.view, [])
    modifies t, t.sendBuf, t.recvBuf, t.credits, t.reasm
    ensures t.Valid() && old(t.past) <= t.past
    ensures done ==> Ends(e0, t.view, r, old(t.receiver).call) && !r.EndOfFile? && !r.ErrClosed?
    ensures !done ==> Got(e0, t.view, []) && t.receiver == RLoop(old(t.receiver).call)
    ensures done && r.Stuck? ==> rest == [] && t.receiver.RReturn?
    ensures done && r.MessageTooLarge? ==> Tripped(t.past, |old(t.past)| - 1)
    ensures done && r.Message? && old(t.receiver).call.batch && t.receiver.RIdle? ==> t.creditPending == 0
    ensures |rest| <= |plan| && (plan == [] ==> t.recvQ == old(t.recvQ))
    ensures Ran(t.Cfg(), false, old(t.view), t.view, plan, rest)
  {
    hide EndInv, IsPast, Rings.Ring, SendsPosted, SendsDone, RecvsPosted, Assembled, Ran;
    t.PastEnds();
    var added, ok;
    ghost var e := t.view;
    added, ok, rest := ConsumeTaken(t, plan);
    if !added.TooLarge? {
      GotMore(e0, e, t.view, [], if added.Complete? then [added.msg] else []);
      GotIsAtMostOne(e0, t.view, if added.Complete? then [added.msg] else []);
    }
    done := !ok || !added.Incomplete?;
    r := if !ok then Stuck else match added case Complete(m) => Message(m) case _ => MessageTooLarge;
  }

  /** `tryNextMessage`: the same without waiting; `none` ends the batch, its credits flushed. */
  method TryNextMessage(t: Transport, plan: Plan) returns (none: bool, r: Result, rest: Plan)
    requires t.Valid() && t.receiver.RLoop? && t.receiver.call.got > 0
    modifies t, t.sendBuf, t.recvBuf, t.credits, t.reasm
    ensures t.Valid() && old(t.past) <= t.past
    ensures none ==> Got(old(t.view), t.view, []) && t.receiver.RIdle? && t.creditPending == 0
                     && FoundEmpty(t.past, |old(t.past)| - 1, old(t.receiver).call)
    ensures !none ==> Ends(old(t.view), t.view, r, old(t.receiver).call) && !r.EndOfFile? && !r.ErrClosed?
    ensures !none && r.Stuck? ==> rest == [] && t.receiver.RReturn?
    ensures !none && r.MessageTooLarge? ==> Tripped(t.past, |old(t.past)| - 1)
    ensures !none && r.Message? && old(t.receiver).call.batch && t.receiver.RIdle? ==> t.creditPending == 0
    ensures Ran(t.Cfg(), false, old(t.view), t.view, plan, rest)
  {
    hide EndInv, IsPast, Rings.Ring, SendsPosted, SendsDone, RecvsPosted, Apply, Enabled, Got, Flush, Ran;
    t.PastEnds();
    none, r, rest := false, Stuck, plan;
    GotNothing(t.view, t.view);
    RanNothing(t.Cfg(), false, t.view, plan);
    while true
      invariant t.Valid() && old(t.past) <= t.past && Got(old(t.view), t.view, [])
      invariant t.receiver == old(t.receiver)
      invariant Ran(t.Cfg(), false, old(t.view), t.view, plan, rest)
      decreases |rest|, |t.recvQ|
    {
      ghost var e, rest0, past0 := t.view, rest, t.past;
      var ok: bool;
      ok, rest := TryTake(t, rest);
      RanTrans(t.Cfg(), false, old(t.view), e, t.view, plan, rest0, rest);
      FoundSince(t.past, |old(t.past)| - 1, |past0| - 1, old(t.receiver).call);
      GotUnchanged(old(t.view), e, t.view, []);
      GotIsAtMostOne(old(t.view), t.view, []);
      if !ok {
        none, r := t.receiver.RIdle?, Stuck;
        return;
      }
      var done: bool;
      ghost var e1, rest1, past1 := t.view, rest, t.past;
      done, r, rest := TakeOne(t, old(t.view), rest);
      RanTrans(t.Cfg(), false, old(t.view), e1, t.view, plan, rest1, rest);
      TrippedSince(t.past, |old(t.past)| - 1, |past1| - 1);
      if done {
        return;
      }
    }
  }

  lemma FoundSince(past: seq<End>, from: int, later: int, call: RecvCall)
    requires 0 <= from <= later
    ensures FoundEmpty(past, later, call) ==> FoundEmpty(past, from, call)
  {}

  /** A queued frame, or the end of the batch. */
  method TryTake(t: Transport, plan: Plan) returns (ok: bool, rest: Plan)
    requires t.Valid() && t.receiver.RLoop? && t.receiver.call.got > 0
    modifies t, t.sendBuf, t.recvBuf, t.credits, t.reasm
    ensures t.Valid() && old(t.past) <= t.past && NothingDelivered(old(t.view), t.view)
    ensures ok ==> t.receiver.RTake? && t.receiver.call == old(t.receiver).call
    ensures !ok ==> if t.receiver.RIdle?
                    then t.creditPending == 0 && FoundEmpty(t.past, |old(t.past)| - 1, old(t.receiver).call)
                    else ReceiverWaits(t.view) && t.receiver.RReturn? && rest == []
    ensures if plan != [] then |rest| < |plan| else rest == [] && (ok ==> |t.recvQ| < |old(t.recvQ)|)
    ensures Ran(t.Cfg(), false, old(t.view), t.view, plan, rest)
  {
    hide EndInv, IsPast, Rings.Ring, SendsPosted, SendsDone, RecvsPosted, Apply, Enabled, Ran;
    t.PastEnds();
    ok, rest := LookForFrame(t, plan);
    if !ok {
      ghost var e1, rest1, past1 := t.view, rest, t.past;
      var settled;
      settled, rest := Settle(t, ThenReturn, old(t.receiver).call, rest);
      RanTrans(t.Cfg(), false, old(t.view), e1, t.view, plan, rest1, rest);
      FoundKept(past1, t.past, |old(t.past)| - 1, old(t.receiver).call);
    }
  }

  lemma FoundKept(past: seq<End>, past': seq<End>, from: int, call: RecvCall)
    requires past <= past' && FoundEmpty(past, from, call)
    ensures FoundEmpty(past', from, call)
  {
    var i :| 0 <= from <= i < |past| && past[i].rx.receiver == RLoop(call) && past[i].rx.queue == [];
    assert past'[i] == past[i];
  }

  // ------------------------------------------------------------------ calls

  method RecvMsg(t: Transport, plan: Plan) returns (r: Result, rest: Plan)
    requires t.Valid() && t.receiver.RIdle?
    modifies t, t.sendBuf, t.recvBuf, t.credits, t.reasm
    ensures t.Valid() && old(t.past) <= t.past
    ensures Ends(old(t.view), t.view, r, RecvCall(false, 1, 0))
    ensures r.Stuck? ==> rest == []
    ensures r.MessageTooLarge? ==> Tripped(t.past, |old(t.past)| - 1)
    ensures Ran(t.Cfg(), false, old(t.view), t.view, plan, rest)
  {
    hide EndInv, IsPast, Rings.Ring, SendsPosted, SendsDone, RecvsPosted, Apply, Enabled, Got, Assembled, Ran;
    t.PastEnds();
    ghost var e := t.view;
    StartCall(t, false, 1, plan);
    ghost var e1, past1 := t.view, t.past;
    r, rest := NextMessage(t, plan);
    RanTrans(t.Cfg(), false, e, e1, t.view, plan, plan, rest);
    TrippedSince(t.past, |old(t.past)| - 1, |past1| - 1);
    EndsSince(e, e1, t.view, r, RecvCall(false, 1, 0));
  }

  method StartCall(t: Transport, batch: bool, max: int, ghost plan: Plan)
    requires t.Valid() && t.receiver.RIdle?
    modifies t
    ensures t.Valid() && old(t.past) < t.past && NothingDelivered(old(t.view), t.view)
    ensures t.receiver == RLoop(RecvCall(batch, if batch && max > 1 then max else 1, 0))
    ensures Ran(t.Cfg(), false, old(t.view), t.view, plan, plan)
  {
    hide EndInv, IsPast, Rings.Ring, SendsPosted, SendsDone, RecvsPosted, TxApply, TxEnabled, Ran;
    t.BeginReceive(batch, max);
    RanNothing(t.Cfg(), false, old(t.view), plan);
    RanStep(t.Cfg(), false, old(t.view), old(t.view), OnRx(RecvStart(batch, max)), plan, plan);
  }

  datatype Copied = Copied(n: nat) | ShortBuffer(needed: nat) | Failed(r: Result)

  /**
   * `recvMsgBuf`: the whole message or `ErrShortBuffer`, never a part of it. A short buffer costs exactly
   * one message: it counts as delivered, and no caller will see it again.
   */
  method RecvMsgBuf(t: Transport, p: array<byte>, plan: Plan) returns (c: Copied, rest: Plan)
    requires t.Valid() && t.receiver.RIdle? && p != t.sendBuf && p != t.recvBuf
    modifies t, t.sendBuf, t.recvBuf, t.credits, t.reasm, p
    ensures t.Valid() && old(t.past) <= t.past
    ensures c.Copied? ==> c.n <= p.Length && t.view.rx.log.delivered == old(t.view).rx.log.delivered + [p[..c.n]]
                          && p[c.n..] == old(p[c.n..])
    ensures !c.Copied? ==> p[..] == old(p[..])
    ensures c.ShortBuffer? ==> c.needed > p.Length
    ensures c.ShortBuffer? ==>
              exists m :: t.view.rx.log.delivered == old(t.view).rx.log.delivered + [m] && |m| == c.needed
    ensures c.Failed? ==> !c.r.Message? && Ends(old(t.view), t.view, c.r, RecvCall(false, 1, 0))
    ensures c.Failed? && c.r.Stuck? ==> rest == []
    ensures c.Failed? && c.r.MessageTooLarge? ==> Tripped(t.past, |old(t.past)| - 1)
    ensures !c.Failed? ==> t.receiver.RIdle?
    ensures Ran(t.Cfg(), false, old(t.view), t.view, plan, rest)
  {
    hide EndInv, IsPast, Rings.Ring, SendsPosted, SendsDone, RecvsPosted, Assembled, Ran;
    var r;
    r, rest := RecvMsg(t, plan);
    if !r.Message? {
      return Failed(r), rest;
    }
    var ok := CopyOut(r.msg, p);
    c := if ok then Copied(|r.msg|) else ShortBuffer(|r.msg|);
  }

  method CopyOut(m: Bytes, p: array<byte>) returns (ok: bool)
    modifies p
    ensures ok <==> |m| <= p.Length
    ensures ok ==> p[..|m|] == m && p[|m|..] == old(p[|m|..])
    ensures !ok ==> p[..] == old(p[..])
  {
    ok := |m| <= p.Length;
    if ok {
      forall k | 0 <= k < |m| {
        p[k] := m[k];
      }
    }
  }

  /**
   * `recvBatch`: the messages returned are exactly those delivered, in order; on success between one and `max`
   * of them, fewer only if the queue was then found empty; what was reassembled of the next one stays for the
   * next call, and no credit is held back. It blocks only for the first message, or to return credits.
   */
  method RecvBatch(t: Transport, max: int, plan: Plan)
    returns (out: seq<Bytes>, failed: bool, r: Result, rest: Plan)
    requires t.Valid() && t.receiver.RIdle?
    modifies t, t.sendBuf, t.recvBuf, t.credits, t.reasm
    ensures t.Valid() && old(t.past) <= t.past
    ensures !(failed && r.Stuck?) ==> t.view.rx.log.delivered == old(t.view).rx.log.delivered + out
    ensures |out| <= if max > 1 then max else 1
    ensures !failed ==> |out| >= 1 && t.receiver.RIdle? && Got(old(t.view), t.view, out) && t.creditPending == 0
    ensures !failed && |out| < max ==> FoundEmpty(t.past, |old(t.past)| - 1, RecvCall(true, max, |out|))
    ensures failed ==> !r.Message? && (out != [] ==> r.MessageTooLarge? || r.Stuck?)
    ensures failed && out == [] ==> Ends(old(t.view), t.view, r, RecvCall(true, if max > 1 then max else 1, 0))
    ensures failed && r.Stuck? ==> rest == [] && ReceiverWaits(t.view) && (out != [] ==> t.receiver.RReturn?)
    ensures failed && r.MessageTooLarge? ==> Tripped(t.past, |old(t.past)| - 1) && t.receiver.RIdle?
    ensures Ran(t.Cfg(), false, old(t.view), t.view, plan, rest)
  {
    hide EndInv, IsPast, Rings.Ring, SendsPosted, SendsDone, RecvsPosted, Apply, Enabled, Ran, Assembled;
    t.PastEnds();
    ghost var e0 := t.view;
    StartCall(t, true, max, plan);
    ghost var e, past1 := t.view, t.past;
    var want := if max > 1 then max else 1;
    r, rest := NextMessage(t, plan);
    RanTrans(t.Cfg(), false, e0, e, t.view, plan, plan, rest);
    TrippedSince(t.past, |old(t.past)| - 1, |past1| - 1);
    if !r.Message? {
      EndsSince(e0, e, t.view, r, RecvCall(true, want, 0));
      return [], true, r, rest;
    }
    ghost var e2, rest2, past2 := t.view, rest, t.past;
    out, failed, r, rest := MoreMessages(t, e, r.msg, want, rest);
    RanTrans(t.Cfg(), false, e0, e2, t.view, plan, rest2, rest);
    TrippedSince(t.past, |old(t.past)| - 1, |past2| - 1);
    FoundSince(t.past, |old(t.past)| - 1, |past2| - 1, RecvCall(true, want, |out|));
    if !failed {
      GotNothing(e0, e);
      GotMore(e0, e, t.view, [], out);
    }
  }

  /** An ending told from before the call began. */
  lemma EndsSince(e0: End, e: End, e': End, r: Result, call: RecvCall)
    requires NothingDelivered(e0, e) && Ends(e, e', r, call)
    ensures Ends(e0, e', r, call)
  {
    hide Assembled, ReceiverWaits;
    GotNothing(e0, e);
    if r.Message? || r.EndOfFile? || r.ErrClosed? || (r.Stuck? && e'.rx.receiver.RBlock?) {
      GotMore(e0, e, e', [], if r.Message? then [r.msg] else []);
    }
  }

  method MoreMessages(t: Transport, ghost e: End, first: Bytes, want: nat, plan: Plan)
    returns (out: seq<Bytes>, failed: bool, r: Result, rest: Plan)
    requires t.Valid() && want > 0 && Got(e, t.view, [first])
    requires t.receiver == Target(ThenResume(true), RecvCall(true, want, 0))
    requires t.receiver.RIdle? ==> t.creditPending == 0
    modifies t, t.sendBuf, t.recvBuf, t.credits, t.reasm
    ensures t.Valid() && old(t.past) <= t.past
    ensures !(failed && r.Stuck?) ==> t.view.rx.log.delivered == e.rx.log.delivered + out
    ensures 1 <= |out| <= want
    ensures !failed ==> t.receiver.RIdle? && Got(e, t.view, out) && t.creditPending == 0
    ensures !failed && |out| < want ==> FoundEmpty(t.past, |old(t.past)| - 1, RecvCall(true, want, |out|))
    ensures failed ==> r.MessageTooLarge? || r.Stuck?
    ensures failed && r.Stuck? ==> rest == [] && ReceiverWaits(t.view) && t.receiver.RReturn?
    ensures failed && r.MessageTooLarge? ==> Tripped(t.past, |old(t.past)| - 1) && t.receiver.RIdle?
    ensures Ran(t.Cfg(), false, old(t.view), t.view, plan, rest)
  {
    hide EndInv, IsPast, Rings.Ring, SendsPosted, SendsDone, RecvsPosted, Assembled, Ran, ReceiverWaits, Tripped;
    hide FoundEmpty;
    t.PastEnds();
    out, failed, r := [first], false, Message(first);
    rest := plan;
    RanNothing(t.Cfg(), false, t.view, plan);
    while |out| < want
      invariant t.Valid() && old(t.past) <= t.past && Got(e, t.view, out) && 1 <= |out| <= want && !failed
      invariant t.receiver == if |out| < want then RLoop(RecvCall(true, want, |out|)) else RIdle
      invariant t.receiver.RIdle? ==> t.creditPending == 0
      invariant Ran(t.Cfg(), false, old(t.view), t.view, plan, rest)
    {
      ghost var e1, rest1, past1 := t.view, rest, t.past;
      var none: bool;
      none, r, rest := TryNextMessage(t, rest);
      RanTrans(t.Cfg(), false, old(t.view), e1, t.view, plan, rest1, rest);
      TrippedSince(t.past, |old(t.past)| - 1, |past1| - 1);
      FoundSince(t.past, |old(t.past)| - 1, |past1| - 1, RecvCall(true, want, |out|));
      if none {
        GotMore(e, e1, t.view, out, []);
        return;
      }
      if !r.Message? {
        failed := true;
        return;
      }
      GotMore(e, e1, t.view, out, [r.msg]);
      out := out + [r.msg];
    }
  }

  /**
   * A batch and any series of single receives that consume the same frames return the same messages;
   * if one has consumed more frames, its messages extend the other's.
   */
  lemma BatchIsConsecutive(e: End, one: End, other: End, a: seq<Bytes>, b: seq<Bytes>)
    requires Assembled(e.rx) && Got(e, one, a) && Got(e, other, b)
    requires one.rx.log.consumed <= other.rx.log.consumed
    ensures a <= b
    ensures one.rx.log.consumed == other.rx.log.consumed ==> a == b && one.rx.reasm == other.rx.reasm
  {
    hide Assemble;
    var c, d := one.rx.log.consumed, other.rx.log.consumed;
    AssembleMonotone(c, d[|c|..]);
    assert d == c + d[|c|..];
    var before := |e.rx.log.delivered|;
    assert a == one.rx.log.delivered[before..] && b == other.rx.log.delivered[before..];
  }
}
