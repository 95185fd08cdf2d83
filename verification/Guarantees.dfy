/** What the two-sided protocol guarantees in every reachable state. */
module Guarantees {
  import opened Words

  import opened Framing
  import opened Endpoint
  import opened Slots
  import opened TxInvariant
  import opened RxInvariant
  import opened Protocol
  import opened OneSide

  ghost predicate Reachable(cfg: Config, s: System)
    requires cfg.Valid()
  {
    exists n: nat :: ReachedIn(cfg, s, n)
  }

  lemma ReachableInv(cfg: Config, s: System)
    requires cfg.Valid() && Reachable(cfg, s)
    ensures Inv(cfg, s)
  {
    hide Inv, ReachedIn;
    var n: nat :| ReachedIn(cfg, s, n);
    RunInv(cfg, s, n);
  }

  /** The two ends of a direction. */
  function From(s: System, fromA: bool): End { if fromA then s.a else s.b }
  function To(s: System, fromA: bool): End { if fromA then s.b else s.a }

  lemma DirectionInv(cfg: Config, s: System, fromA: bool)
    requires cfg.Valid() && Reachable(cfg, s)
    ensures EndInv(cfg, From(s, fromA)) && EndInv(cfg, To(s, fromA))
    ensures Linked(cfg, From(s, fromA), To(s, fromA)) && Linked(cfg, To(s, fromA), From(s, fromA))
  {
    hide EndInv, Linked;
    ReachableInv(cfg, s);
  }

  // ----------------------------------------------------------- delivery

  /** The receiving side is open, or has dropped no frame since it closed, or only one that nothing can follow. */
  predicate Undropped(cfg: Config, y: End) { !y.closed || Whole(cfg, y.rx) }

  /** And the sending side has posted nothing behind frames a call had left unposted; so always while it is open. */
  predicate Unbroken(cfg: Config, x: End, y: End) { x.tx.log.sound < 0 && Undropped(cfg, y) }

  lemma UndroppedIsWhole(cfg: Config, e: End)
    requires cfg.Valid() && EndInv(cfg, e) && Undropped(cfg, e)
    ensures Whole(cfg, e.rx)
  {
    hide EndInv;
    OpenIsSound(cfg, e);
  }

  lemma Reassembly(cfg: Config, s: System, fromA: bool)
    requires cfg.Valid() && Reachable(cfg, s) && Unbroken(cfg, From(s, fromA), To(s, fromA))
    ensures var log, r := From(s, fromA).tx.log, To(s, fromA).rx;
            && r.log.consumed <= AllFrames(log.accepted, cfg.chunk)
            && Assemble(r.log.consumed) == Assembly(r.log.delivered, r.reasm)
  {
    hide AllFrames, DataOf, Assemble, EndInv, Queued, Sound;
    DirectionInv(cfg, s, fromA);
    UndroppedIsWhole(cfg, To(s, fromA));
    ConsumedIsPrefix(cfg, From(s, fromA), To(s, fromA));
  }

  /**
   * What a receiver has delivered is a prefix of what the peer's calls accepted, message by message and
   * byte by byte; the bytes it holds back are a prefix of the next message. So always while both are open.
   */
  lemma InOrderExactlyOnce(cfg: Config, s: System, fromA: bool)
    requires cfg.Valid() && Reachable(cfg, s) && Unbroken(cfg, From(s, fromA), To(s, fromA))
    ensures var sent, got, rest := From(s, fromA).tx.log.accepted, To(s, fromA).rx.log.delivered, To(s, fromA).rx.reasm;
            && got <= sent
            && (if rest.active then |got| < |sent| && rest.buf <= sent[|got|] else rest.buf == [])
  {
    hide AllFrames, Assemble, Reachable;
    Reassembly(cfg, s, fromA);
    AssemblePrefix(From(s, fromA).tx.log.accepted, cfg.chunk, To(s, fromA).rx.log.consumed);
  }

  /** While both sides are open nothing is skipped or dropped; nor if the sender has made no call after one gave up. */
  lemma OpenIsUnbroken(cfg: Config, s: System, fromA: bool)
    requires cfg.Valid() && Reachable(cfg, s) && !To(s, fromA).closed
    requires !From(s, fromA).closed || !From(s, fromA).tx.log.again
    ensures Unbroken(cfg, From(s, fromA), To(s, fromA))
  {
    hide EndInv, Linked;
    DirectionInv(cfg, s, fromA);
    OpenIsSound(cfg, From(s, fromA));
  }

  /** A message a send call accepted never trips the receiver's size guard. */
  lemma GuardHolds(cfg: Config, s: System, fromA: bool)
    requires cfg.Valid() && Reachable(cfg, s) && Unbroken(cfg, From(s, fromA), To(s, fromA))
    requires CanConsume(To(s, fromA).rx)
    ensures !Reassembled(To(s, fromA).rx).1.TooLarge?
  {
    hide EndInv;
    DirectionInv(cfg, s, fromA);
    UndroppedIsWhole(cfg, To(s, fromA));
    ConsumeInStep(cfg, From(s, fromA), To(s, fromA));
  }

  // ------------------------------------------------------------ credits

  /** Every credit is in exactly one of seven places, or dropped; and none is dropped by an open transport. */
  lemma CreditConservation(cfg: Config, s: System, fromA: bool)
    requires cfg.Valid() && Reachable(cfg, s)
    ensures var x, y := From(s, fromA), To(s, fromA);
            && x.tx.credits + (if x.tx.sender.SSlot? || x.tx.sender.SPost? then 1 else 0)
               + |DataOf(Wire(x.tx))| + |DataOf(Arrived(y.rx))| + |y.rx.queue| + |HeldFrame(y.rx.receiver)|
               + y.rx.pending + (if y.rx.receiver.RReturn? then y.rx.receiver.n else 0)
               + CreditSum(Wire(y.tx)) + CreditSum(Arrived(x.rx)) + x.tx.log.leak + y.rx.log.leak == cfg.depth
            && (!x.closed ==> x.tx.log.leak == 0) && (!y.closed ==> y.rx.log.leak == 0)
  {
    hide DataOf, CreditSum, Count, AllFrames;
    DirectionInv(cfg, s, fromA);
  }

  /** With closed transports credits can only be lost. */
  lemma CreditsNeverExceedDepth(cfg: Config, s: System, fromA: bool)
    requires cfg.Valid() && Reachable(cfg, s)
    ensures var x, y := From(s, fromA), To(s, fromA);
            x.tx.credits + |DataOf(Wire(x.tx))| + |DataOf(Arrived(y.rx))| + |y.rx.queue|
            + y.rx.pending + CreditSum(Wire(y.tx)) + CreditSum(Arrived(x.rx)) <= cfg.depth
  {
    hide DataOf, CreditSum, Count, AllFrames;
    DirectionInv(cfg, s, fromA);
  }

  /** Every credit frame carries at least one credit and at most half the window, or one. */
  lemma CreditFrameSize(cfg: Config, s: System, fromA: bool, f: Frame)
    requires cfg.Valid() && Reachable(cfg, s) && f.Credit?
    requires f in Wire(From(s, fromA).tx) + Arrived(To(s, fromA).rx)
    ensures 1 <= f.n <= if cfg.depth / 2 > 1 then cfg.depth / 2 else 1
  {
    hide Kinds, RingBacked;
    FrameKinds(cfg, s, fromA);
    var t, r := From(s, fromA).tx, To(s, fromA).rx;
    WireOk(cfg, t, r, f);
  }

  /** The call a receive is running. */
  predicate Batching(r: Receiver) { !r.RIdle? && r.call.batch }

  /**
   * When credits go back: with half the window, or one; or all there are when a receive finds the queue empty
   * and when a batch is full. So a blocked receive holds none back, nor does a batch that has returned its
   * messages, and otherwise fewer than half a window are held.
   */
  lemma CreditsFlushed(cfg: Config, s: System, atA: bool, step: Step)
    requires cfg.Valid() && Reachable(cfg, s) && Enabled(cfg, From(s, atA), step)
    ensures var r, r' := From(s, atA).rx, Apply(cfg, From(s, atA), step).rx;
            var half := if cfg.depth / 2 > 1 then cfg.depth / 2 else 1;
            && r.pending < half && (r.receiver.RBlock? || r.receiver.RFin? ==> r.pending == 0)
            && (step == OnRx(FindEmpty) ==> r'.pending == 0 && HeldBy(r'.receiver) == r.pending)
            && (step == OnRx(Consume) ==> r'.pending + HeldBy(r'.receiver) == r.pending + 1)
            && (!r.receiver.RReturn? && r'.receiver.RReturn? ==>
                  || r'.receiver.n == half
                  || (r.receiver.RLoop? && r.queue == [])
                  || (r.receiver.RTake? && r.receiver.call.batch && r.receiver.call.got + 1 >= r.receiver.call.want
                      && |r'.log.delivered| > |r.log.delivered|))
            && (Batching(r.receiver) && r'.receiver.RIdle? ==>
                  r'.pending == 0 || (CanConsume(r) && Reassembled(r).1.TooLarge?))
  {
    hide EndInv, Reachable, AllFrames;
    DirectionInv(cfg, s, atA);
    HoldsBack(cfg, From(s, atA));
    match step {
      case OnRx(x) => FlushStep(cfg, From(s, atA), x);
      case _ =>
    }
  }

  /** Credits in the hand of `returnCredit`. */
  function HeldBy(r: Receiver): nat { if r.RReturn? then r.n else 0 }

  lemma HoldsBack(cfg: Config, e: End)
    requires cfg.Valid() && EndInv(cfg, e)
    ensures CreditsBatched(cfg, e.rx)
  {
    hide CreditsBatched, TxInv, RecvPartitioned, RingBacked, RecvCounted, Routed;
  }

  lemma FlushStep(cfg: Config, e: End, x: RxStep)
    requires cfg.Valid() && CreditsBatched(cfg, e.rx) && RxEnabled(cfg, e.tx, e.rx, e.closed, x)
    ensures var r, r' := e.rx, RxApply(cfg, e.tx, e.rx, e.closed, x);
            && (x == FindEmpty ==> r'.pending == 0 && HeldBy(r'.receiver) == r.pending)
            && (x == Consume ==> r'.pending + HeldBy(r'.receiver) == r.pending + 1)
            && (!r.receiver.RReturn? && r'.receiver.RReturn? ==>
                  || r'.receiver.n == cfg.Threshold()
                  || (r.receiver.RLoop? && r.queue == [])
                  || (r.receiver.RTake? && r.receiver.call.batch && r.receiver.call.got + 1 >= r.receiver.call.want
                      && |r'.log.delivered| > |r.log.delivered|))
            && (Batching(r.receiver) && r'.receiver.RIdle? ==>
                  r'.pending == 0 || (CanConsume(r) && Reassembled(r).1.TooLarge?))
  {
    hide AddFragment, PayloadIn;
    match x {
      case Consume =>
      case FindEmpty =>
      case _ =>
    }
  }

  lemma FrameKinds(cfg: Config, s: System, fromA: bool)
    requires cfg.Valid() && Reachable(cfg, s)
    ensures Kinds(cfg, From(s, fromA).tx) && RingBacked(cfg, To(s, fromA).rx)
  {
    hide DataOf, CreditSum, Count, AllFrames;
    DirectionInv(cfg, s, fromA);
  }

  lemma WireOk(cfg: Config, t: Tx, r: Rx, f: Frame)
    requires Kinds(cfg, t) && RingBacked(cfg, r) && f in Wire(t) + Arrived(r)
    ensures FrameOk(cfg, f)
  {
    if f in Wire(t) {
      var i :| 0 <= i < |t.sq| && Wire(t)[i] == f;
      assert t.sq[i] in t.sq;
    } else {
      var i :| 0 <= i < |r.cq| && Arrived(r)[i] == f;
      assert r.cq[i] in r.cq;
    }
  }

  // ------------------------------------------------------- receive ring

  /** Control frames in a list of frames. */
  function ControlOf(fs: seq<Frame>): nat { |fs| - |DataOf(fs)| }

  /**
   * Posted receives, plus receives taken by control frames the poller has not handled, exceed the data
   * frames on the wire by exactly the credits that are not on the wire; where frames have been dropped
   * since a close, by the credits dropped without a slot as well.
   */
  lemma ReceivesCoverData(cfg: Config, s: System, fromA: bool)
    requires cfg.Valid() && Reachable(cfg, s)
    ensures var x, y := From(s, fromA), To(s, fromA);
            && |y.rx.rq| + ControlOf(Arrived(y.rx)) ==
               |DataOf(Wire(x.tx))| + x.tx.credits + (if x.tx.sender.SSlot? || x.tx.sender.SPost? then 1 else 0)
               + y.rx.pending + (if y.rx.receiver.RReturn? then y.rx.receiver.n else 0)
               + CreditSum(Wire(y.tx)) + CreditSum(Arrived(x.rx))
               + x.tx.log.leak + y.rx.log.leak - |y.rx.log.lost|
            && (!x.closed ==> x.tx.log.leak == 0) && (!y.closed ==> y.rx.log.leak == 0 == |y.rx.log.lost|)
            && |y.rx.log.lost| <= y.rx.log.leak
  {
    hide DataOf, CreditSum, Count, AllFrames;
    DirectionInv(cfg, s, fromA);
  }

  /**
   * Hence data frames never outnumber the posted receives once the poller has handled the control
   * frames that arrived, and the whole wire exceeds them by at most the four credit slots.
   */
  lemma RingNotOverrun(cfg: Config, s: System, fromA: bool)
    requires cfg.Valid() && Reachable(cfg, s)
    ensures var x, y := From(s, fromA), To(s, fromA);
            && |DataOf(Wire(x.tx))| <= |y.rx.rq| + ControlOf(Arrived(y.rx))
            && |Wire(x.tx)| <= |y.rx.rq| + ControlOf(Arrived(y.rx)) + CREDIT_SLOTS
  {
    hide DataOf, CreditSum, Count, AllFrames;
    DirectionInv(cfg, s, fromA);
  }

  // -------------------------------------------------------------- slots

  /** The poller never finds `sendFree`, `creditFree` or `recvQ` full. */
  lemma PollerNeverBlocksOnPools(cfg: Config, s: System, atA: bool)
    requires cfg.Valid() && Reachable(cfg, s)
    ensures var e := From(s, atA);
            && (e.tx.cq != [] ==>
                  if e.tx.cq[0] < cfg.depth then |e.tx.free| < cfg.depth else |e.tx.ctrlFree| < CREDIT_SLOTS)
            && (e.rx.cq != [] ==> e.rx.cq[0] < |e.rx.mem| && |e.rx.queue| < cfg.depth)
            && |e.tx.free| <= cfg.depth && |e.tx.ctrlFree| <= CREDIT_SLOTS && |e.rx.queue| <= cfg.depth
  {
    hide EndInv;
    DirectionInv(cfg, s, atA);
    PoolsHaveRoom(cfg, From(s, atA));
  }

  /** At most `depth + 4` sends are outstanding on a queue pair. */
  lemma OutstandingSends(cfg: Config, s: System, atA: bool)
    requires cfg.Valid() && Reachable(cfg, s)
    ensures var t := From(s, atA).tx; |t.sq| + |t.cq| <= cfg.depth + CREDIT_SLOTS
    ensures var t := From(s, atA).tx; InFlight(t) <= cfg.depth
  {
    hide DataOf, Count, AllFrames, CreditSum;
    DirectionInv(cfg, s, atA);
  }

  /**
   * Each send slot is free, in the sender's hand, on the device, or dropped, and in one place only; and
   * nothing is dropped while the transport is open.
   */
  lemma SendSlotsPartitioned(cfg: Config, s: System, atA: bool, slot: nat)
    requires cfg.Valid() && Reachable(cfg, s) && slot < cfg.SendSlots()
    ensures var t := From(s, atA).tx;
            && Count(if slot < cfg.depth then t.free else t.ctrlFree, slot) + Count(HeldSlot(t.sender), slot)
               + Count(t.sq, slot) + Count(t.cq, slot) + Count(t.log.lostData + t.log.lostCtrl, slot) == 1
            && (!From(s, atA).closed ==> t.log.lostData + t.log.lostCtrl == [])
  {
    hide DataOf, AllFrames, CreditSum, Count;
    DirectionInv(cfg, s, atA);
    var t := From(s, atA).tx;
    assert Places(t, slot) == 1;
    CountIn(t.free, slot);
    CountIn(t.ctrlFree, slot);
    CountConcat(t.log.lostData, t.log.lostCtrl, slot);
  }

  /**
   * Each receive slot is posted, completed, queued or in hand, or dropped, and in one place only; and
   * nothing is dropped while the transport is open.
   */
  lemma RecvSlotsPartitioned(cfg: Config, s: System, atA: bool, slot: nat)
    requires cfg.Valid() && Reachable(cfg, s) && slot < cfg.depth
    ensures var r := From(s, atA).rx;
            && Count(r.rq, slot) + Count(r.cq, slot) + Count(Waiting(r), slot) + Count(r.log.lost, slot) == 1
            && (!From(s, atA).closed ==> r.log.lost == [])
  {
    hide DataOf, AllFrames, CreditSum, Count;
    DirectionInv(cfg, s, atA);
    assert RecvPlaces(From(s, atA).rx, slot) == 1;
  }

  /** The send slots, and the receive slots, whose bytes someone still has to read. */
  ghost predicate SendBytesKept(t: Tx, t': Tx) {
    |t'.mem| == |t.mem| && forall slot :: slot in t.sq + t.cq && slot < |t.mem| ==> t'.mem[slot] == t.mem[slot]
  }
  ghost predicate RecvBytesKept(r: Rx, r': Rx) {
    |r'.mem| == |r.mem| && forall slot :: slot in r.cq + Waiting(r) && slot < |r.mem| ==> r'.mem[slot] == r.mem[slot]
  }

  lemma TxBytes(cfg: Config, t: Tx, closed: bool, s: TxStep)
    requires cfg.Valid() && Partitioned(cfg, t) && TxEnabled(cfg, t, closed, s)
    ensures SendBytesKept(t, TxApply(cfg, t, closed, s))
  {
    hide Count, AllFrames;
    if t.sender.SPost? { SlotOnce(cfg, t, t.sender.slot); }
    if t.ctrlFree != [] { SlotOnce(cfg, t, t.ctrlFree[0]); }
  }

  lemma EndBytes(cfg: Config, e: End, s: Step)
    requires cfg.Valid() && Partitioned(cfg, e.tx) && Enabled(cfg, e, s)
    ensures SendBytesKept(e.tx, Apply(cfg, e, s).tx) && Apply(cfg, e, s).rx.mem == e.rx.mem
  {
    hide Count, TxApply, TxEnabled, DataOf;
    if s.OnTx? { TxBytes(cfg, e.tx, e.closed, s.t); }
    if s.PostCredit? { SlotOnce(cfg, e.tx, e.tx.ctrlFree[0]); }
  }

  lemma LandedBytes(cfg: Config, r: Rx, f: Frame)
    requires RecvPartitioned(cfg, r) && r.rq != [] && r.rq[0] < |r.mem|
    ensures RecvBytesKept(r, Landed(r, f))
  {
    hide Count;
    RecvSlotOnce(cfg, r, r.rq[0]);
  }

  lemma Rings(cfg: Config, s: System, atA: bool)
    requires cfg.Valid() && Reachable(cfg, s)
    ensures Partitioned(cfg, From(s, atA).tx) && RecvPartitioned(cfg, From(s, atA).rx)
  {
    hide DataOf, AllFrames, CreditSum, Count;
    DirectionInv(cfg, s, atA);
  }

  /**
   * No action writes a send slot between its post and its completion, nor a receive slot between the
   * completion and the reassembly of its frame.
   */
  lemma PostedBytesUntouched(cfg: Config, s: System, act: Action, atA: bool)
    requires cfg.Valid() && Reachable(cfg, s) && CanAct(cfg, s, act)
    ensures var e, e' := From(s, atA), From(Act(cfg, s, act), atA);
            SendBytesKept(e.tx, e'.tx) && RecvBytesKept(e.rx, e'.rx)
  {
    hide Partitioned, RecvPartitioned, Apply, Enabled;
    Rings(cfg, s, atA);
    var e := From(s, atA);
    match act {
      case At(a, step) => if a == atA { EndBytes(cfg, e, step); }
      case Deliver(fromA) => if fromA != atA { LandedBytes(cfg, e.rx, HeadFrame(From(s, fromA).tx)); }
    }
  }

  // ------------------------------------------------------------- tokens

  /** When a send call returns, and no call has given up, nothing of it is left behind. */
  lemma SendReturnsClean(cfg: Config, s: System, atA: bool)
    requires cfg.Valid() && Reachable(cfg, s) && (!From(s, atA).closed || !From(s, atA).tx.log.aborted)
    requires From(s, atA).tx.sender.SIdle? || CanSendReturn(From(s, atA).tx)
    ensures var t := From(s, atA).tx;
            && InFlight(t) == 0 && t.tokens == 0 && !t.pushing
            && |t.free| + |t.log.lostData| == cfg.depth && (!From(s, atA).closed ==> t.log.lostData == [])
  {
    hide DataOf, AllFrames, CreditSum, Count;
    DirectionInv(cfg, s, atA);
  }

  /**
   * Right after `drainSendDone`, queued tokens and sends in flight (with the token in the poller's
   * hand) are at most `depth` with atomic dispatch, and at most `depth + 1` without.
   */
  lemma TokensAfterDrain(cfg: Config, s: System, atA: bool)
    requires cfg.Valid() && Reachable(cfg, s) && CanDrainEnd(From(s, atA).tx)
    ensures Tokens(DoDrainEnd(From(s, atA).tx)) <= cfg.depth + if cfg.atomicDispatch then 0 else 1
  {
    hide DataOf, AllFrames, CreditSum, Count;
    DirectionInv(cfg, s, atA);
  }

  // ---------------------------------------------------------------- EOF

  /**
   * If an open transport, or one that has dropped no frame, returns io.EOF, every message whose send call
   * returned before the peer's FIN has been delivered, and the reassembler holds what is left of the frames
   * handled so far, as long as the peer has left no gap.
   */
  lemma EofIsSafe(cfg: Config, s: System, fromA: bool)
    requires cfg.Valid() && Reachable(cfg, s) && Undropped(cfg, To(s, fromA)) && CanReturnEof(To(s, fromA).rx)
    ensures var x, y := From(s, fromA), To(s, fromA);
            && 0 <= x.tx.log.finAt <= |x.tx.log.accepted|
            && x.tx.log.accepted[..x.tx.log.finAt] <= y.rx.log.delivered
            && (x.tx.log.sound < 0 ==> y.rx.reasm == Assemble(DataOf(Handled(y.rx))).rest)
            && (!y.closed ==> Handled(y.rx) == y.rx.log.dispatched)
  {
    DirectionInv(cfg, s, fromA);
    UndroppedIsWhole(cfg, To(s, fromA));
    OpenIsSound(cfg, To(s, fromA));
    hide EndInv, DataOf, Assemble;
    EofDelivers(cfg, From(s, fromA), To(s, fromA));
  }

  /** If the FIN was posted between calls, and no call followed, everything was delivered and nothing is left. */
  lemma EofIsComplete(cfg: Config, s: System, fromA: bool)
    requires cfg.Valid() && Reachable(cfg, s) && Undropped(cfg, To(s, fromA)) && CanReturnEof(To(s, fromA).rx)
    requires From(s, fromA).tx.log.finClean
    ensures var x, y := From(s, fromA), To(s, fromA);
            y.rx.log.delivered == x.tx.log.accepted && y.rx.reasm == Reasm([], false)
  {
    hide EndInv, DataOf, Assemble, AllFrames;
    DirectionInv(cfg, s, fromA);
    var x, y := From(s, fromA), To(s, fromA);
    UndroppedIsWhole(cfg, y);
    CleanEnd(cfg, x);
    FinFacts(cfg, x, y);
    EofDelivers(cfg, x, y);
    FinBeforeDrop(cfg, x.tx, y.rx);
    ReassemblyRoundTrip(x.tx.log.accepted, cfg.chunk);
  }

  lemma CleanEnd(cfg: Config, x: End)
    requires cfg.Valid() && EndInv(cfg, x) && x.tx.log.finClean
    ensures DataOf(x.tx.log.stream) == AllFrames(x.tx.log.accepted, cfg.chunk) && x.tx.log.sound < 0
  {
    hide AllFrames, DataOf, RxInv, Partitioned, Kinds, Counted, TokensMatch, Subsequence;
    assert DataOf(x.tx.log.stream) + [] == DataOf(x.tx.log.stream);
  }

  /** EOF once seen stays true: what was finished before the FIN stays delivered in every later state. */
  lemma EofLasts(cfg: Config, s: System, fromA: bool)
    requires cfg.Valid() && Reachable(cfg, s) && To(s, fromA).rx.log.eof
    ensures var t, r := From(s, fromA).tx, To(s, fromA).rx;
            0 <= t.log.finAt <= |t.log.accepted| && t.log.accepted[..t.log.finAt] <= r.log.delivered
  {
    hide EndInv;
    DirectionInv(cfg, s, fromA);
  }
}
