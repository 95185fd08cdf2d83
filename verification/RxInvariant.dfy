/** What every step keeps on the receiving half of one side, whatever the peer does. */
module RxInvariant {
  import opened Framing
  import opened Endpoint
  import opened Slots
  import opened TxInvariant

  function Arrived(r: Rx): seq<Frame> { FramesAt(r.cq, r.mem) }

  function HeldFrame(r: Receiver): seq<RecvFrame> { if r.RTake? then [r.frame] else [] }

  function SlotsOf(q: seq<RecvFrame>): (s: seq<nat>)
    ensures |s| == |q|
  {
    seq(|q|, i requires 0 <= i < |q| => q[i].slot)
  }

  /** Slots, and frames, on their way from the poller to the reassembler. */
  function Waiting(r: Rx): seq<nat> { SlotsOf(HeldFrame(r.receiver) + r.queue) }
  function Queued(r: Rx): seq<Frame> { FramesAt(Waiting(r), r.mem) }

  /** In how many places of the receive ring a slot is found. */
  function RecvPlaces(r: Rx, x: nat): nat {
    Count(r.rq, x) + Count(r.cq, x) + Count(Waiting(r), x) + Count(r.log.lost, x)
  }

  // ------------------------------------------------------------ invariants

  /** Every slot of the receive ring is in exactly one place. */
  ghost predicate RecvPartitioned(cfg: Config, r: Rx) {
    && |r.mem| == cfg.depth
    && forall x: nat :: RecvPlaces(r, x) == if x < cfg.depth then 1 else 0
  }

  /** A queued frame's header agrees with the bytes still in its slot. */
  ghost predicate Backed(cfg: Config, mem: seq<Frame>, fr: RecvFrame) {
    && fr.slot < |mem| && mem[fr.slot].Data? && FrameOk(cfg, mem[fr.slot])
    && mem[fr.slot].more == fr.more && |mem[fr.slot].payload| == fr.n
  }

  ghost predicate Usable(cfg: Config, mem: seq<Frame>, slot: nat) {
    slot < |mem| && FrameOk(cfg, mem[slot])
  }

  ghost predicate RingBacked(cfg: Config, r: Rx) {
    && (forall s :: s in r.rq ==> s < |r.mem|)
    && (forall s :: s in r.cq ==> Usable(cfg, r.mem, s))
    && (forall fr :: fr in HeldFrame(r.receiver) + r.queue ==> Backed(cfg, r.mem, fr))
  }

  /** The partition in numbers: `recvQ` is never full when the poller sends on it. */
  ghost predicate RecvCounted(cfg: Config, r: Rx, closed: bool) {
    && |r.rq| + |r.cq| + |HeldFrame(r.receiver)| + |r.queue| + |r.log.lost| == cfg.depth
    && |r.log.lost| <= r.log.leak && (!closed ==> r.log.lost == [] && r.log.leak == 0)
  }

  /** Batched credit return: what is pending stays below the threshold, what is returned within it. */
  ghost predicate CreditsBatched(cfg: Config, r: Rx) {
    && r.pending < cfg.Threshold()
    && (r.receiver.RBlock? || r.receiver.RFin? || r.receiver.RReturn? ==> r.pending == 0)
    && (r.receiver.RReturn? ==> 1 <= r.receiver.n <= cfg.Threshold())
  }

  /** No frame has been dropped, or a slot that never comes back was the only one: no frame can follow it. */
  predicate Whole(cfg: Config, r: Rx) { r.log.lost == [] || cfg.depth == 1 }

  /** The frames handled by the poller, but for a frame dropped last. */
  function Handled(r: Rx): seq<Frame> {
    if r.log.lost == [] || r.log.dispatched == [] then r.log.dispatched
    else r.log.dispatched[..|r.log.dispatched| - 1]
  }

  /**
   * Data frames are queued and reassembled in the order in which the poller handled them, each at most
   * once, also after close; and each of them, as long as none has been dropped.
   */
  ghost predicate Consecutive(cfg: Config, r: Rx) {
    && Subsequence(r.log.consumed + Queued(r), DataOf(r.log.dispatched))
    && (Whole(cfg, r) ==> DataOf(Handled(r)) == r.log.consumed + Queued(r))
    && (Whole(cfg, r) && r.log.lost != [] ==>
          r.log.dispatched != [] && r.log.dispatched[|r.log.dispatched| - 1].Data?)
  }

  ghost predicate Routed(cfg: Config, r: Rx) {
    Consecutive(cfg, r) && (r.peerFin <==> Fin in r.log.dispatched) && (r.receiver.RFin? ==> r.peerFin)
  }

  ghost predicate RxInv(cfg: Config, r: Rx, closed: bool) {
    && RecvPartitioned(cfg, r) && RingBacked(cfg, r) && RecvCounted(cfg, r, closed)
    && CreditsBatched(cfg, r) && Routed(cfg, r)
  }

  // ------------------------------------------------------------- partition

  /** A posted receive slot holds no frame that is still to be read. */
  lemma RecvSlotOnce(cfg: Config, r: Rx, x: nat)
    requires RecvPartitioned(cfg, r)
    ensures x in r.rq ==> x !in r.cq && x !in Waiting(r)
  {
    assert RecvPlaces(r, x) <= 1;
    CountIn(r.rq, x);
    CountIn(r.cq, x);
    CountIn(Waiting(r), x);
  }

  lemma WaitingTake(r: Rx)
    requires CanTakeFrame(r)
    ensures Waiting(DoTakeFrame(r)) == Waiting(r)
  {}

  lemma WaitingConsume(cfg: Config, r: Rx)
    requires CanConsume(r)
    ensures Waiting(r) == [r.receiver.frame.slot] + SlotsOf(r.queue)
    ensures Waiting(DoConsume(cfg, r)) == SlotsOf(r.queue)
  {
    var r' := DoConsume(cfg, r);
    assert HeldFrame(r'.receiver) == [];
    assert [] + r.queue == r.queue;
  }

  lemma WaitingPoll(r: Rx)
    requires r.cq != [] && r.cq[0] < |r.mem|
    ensures Waiting(DoPollRecv(r)) == Waiting(r) + if r.mem[r.cq[0]].Data? then [r.cq[0]] else []
  {}

  lemma PlacesConsume(cfg: Config, r: Rx, x: nat)
    requires CanConsume(r)
    ensures RecvPlaces(DoConsume(cfg, r), x) == RecvPlaces(r, x)
  {
    hide Count;
    WaitingConsume(cfg, r);
    CountHead(Waiting(r), x);
    assert Waiting(r)[1..] == SlotsOf(r.queue);
    CountSnoc(r.rq, r.receiver.frame.slot, x);
  }

  lemma PlacesPollRecv(r: Rx, x: nat)
    requires r.cq != [] && r.cq[0] < |r.mem|
    ensures RecvPlaces(DoPollRecv(r), x) == RecvPlaces(r, x)
  {
    hide Count;
    WaitingPoll(r);
    CountHead(r.cq, x);
    CountSnoc(r.rq, r.cq[0], x);
    CountSnoc(Waiting(r), r.cq[0], x);
  }

  lemma PlacesDropRecv(r: Rx, x: nat)
    requires r.cq != [] && r.cq[0] < |r.mem|
    ensures RecvPlaces(DoDropRecv(r), x) == RecvPlaces(r, x)
  {
    hide Count;
    CountHead(r.cq, x);
    CountSnoc(r.log.lost, r.cq[0], x);
  }

  lemma PlacesLanded(r: Rx, f: Frame, x: nat)
    requires r.rq != [] && r.rq[0] < |r.mem|
    ensures RecvPlaces(Landed(r, f), x) == RecvPlaces(r, x)
  {
    hide Count;
    CountHead(r.rq, x);
    CountSnoc(r.cq, r.rq[0], x);
  }

  lemma RecvPlacesKept(cfg: Config, t: Tx, r: Rx, closed: bool, s: RxStep, x: nat)
    requires RxEnabled(cfg, t, r, closed, s)
    ensures RecvPlaces(RxApply(cfg, t, r, closed, s), x) == RecvPlaces(r, x)
  {
    hide Count;
    match s {
      case TakeFrame => WaitingTake(r);
      case Consume => PlacesConsume(cfg, r, x);
      case DropRecv => PlacesDropRecv(r, x);
      case _ =>
    }
  }

  // ------------------------------------------------------------------- ring

  lemma BackedTake(cfg: Config, r: Rx)
    requires RingBacked(cfg, r) && CanTakeFrame(r)
    ensures RingBacked(cfg, DoTakeFrame(r))
  {
    var r' := DoTakeFrame(r);
    assert HeldFrame(r'.receiver) + r'.queue == HeldFrame(r.receiver) + r.queue;
  }

  lemma BackedConsume(cfg: Config, r: Rx)
    requires RingBacked(cfg, r) && CanConsume(r)
    ensures RingBacked(cfg, DoConsume(cfg, r))
  {
    ConsumeEffect(cfg, r);
    var r' := DoConsume(cfg, r);
    assert r'.rq == r.rq + [r.receiver.frame.slot];
    hide DoConsume;
    forall fr | fr in HeldFrame(r'.receiver) + r'.queue ensures Backed(cfg, r.mem, fr) {
      assert fr in HeldFrame(r.receiver) + r.queue;
    }
  }

  lemma BackedDrop(cfg: Config, r: Rx)
    requires RingBacked(cfg, r) && r.cq != [] && r.cq[0] < |r.mem|
    ensures RingBacked(cfg, DoDropRecv(r))
  {
    var r' := DoDropRecv(r);
    forall s | s in r'.cq ensures Usable(cfg, r.mem, s) { assert s in r.cq; }
  }

  lemma BackedKept(cfg: Config, t: Tx, r: Rx, closed: bool, s: RxStep)
    requires RingBacked(cfg, r) && RxEnabled(cfg, t, r, closed, s)
    ensures RingBacked(cfg, RxApply(cfg, t, r, closed, s))
  {
    hide DoConsume;
    match s {
      case TakeFrame => BackedTake(cfg, r);
      case Consume => BackedConsume(cfg, r);
      case DropRecv => BackedDrop(cfg, r);
      case _ => assert HeldFrame(RxApply(cfg, t, r, closed, s).receiver) == HeldFrame(r.receiver);
    }
  }

  lemma BackedPoll(cfg: Config, r: Rx)
    requires RingBacked(cfg, r) && r.cq != [] && r.cq[0] < |r.mem|
    ensures RingBacked(cfg, DoPollRecv(r))
  {
    var r' := DoPollRecv(r);
    assert r.cq[0] in r.cq;
    forall s | s in r'.cq ensures Usable(cfg, r.mem, s) { assert s in r.cq; }
    var f := r.mem[r.cq[0]];
    if f.Data? {
      var fr := RecvFrame(r.cq[0], f.more, |f.payload|);
      assert HeldFrame(r'.receiver) + r'.queue == (HeldFrame(r.receiver) + r.queue) + [fr];
    }
  }

  lemma BackedLanded(cfg: Config, r: Rx, f: Frame)
    requires RecvPartitioned(cfg, r) && RingBacked(cfg, r) && r.rq != [] && r.rq[0] < |r.mem| && FrameOk(cfg, f)
    ensures RingBacked(cfg, Landed(r, f))
    ensures Queued(Landed(r, f)) == Queued(r)
    ensures Arrived(Landed(r, f)) == Arrived(r) + [f]
  {
    hide Count;
    var x := r.rq[0];
    RecvSlotOnce(cfg, r, x);
    FramesAtOther(r.cq, r.mem, x, f);
    FramesAtOther(Waiting(r), r.mem, x, f);
    FramesAtSnoc(r.cq, x, r.mem[x := f]);
    forall s | s in r.rq[1..] ensures s < |r.mem| { assert s in r.rq; }
    var all := HeldFrame(r.receiver) + r.queue;
    forall fr | fr in all ensures Backed(cfg, r.mem[x := f], fr) {
      var i :| 0 <= i < |all| && all[i] == fr;
      assert Waiting(r)[i] == fr.slot;
    }
  }

  // ---------------------------------------------------------------- numbers

  lemma RecvCountedKept(cfg: Config, t: Tx, r: Rx, closed: bool, s: RxStep)
    requires RxEnabled(cfg, t, r, closed, s) && RecvCounted(cfg, r, closed)
    ensures RecvCounted(cfg, RxApply(cfg, t, r, closed, s), closed)
  {}

  lemma BatchedKept(cfg: Config, t: Tx, r: Rx, closed: bool, s: RxStep)
    requires RxEnabled(cfg, t, r, closed, s) && CreditsBatched(cfg, r)
    ensures CreditsBatched(cfg, RxApply(cfg, t, r, closed, s))
  {}

  lemma RecvNumbersKept(cfg: Config, t: Tx, r: Rx, closed: bool, s: RxStep)
    requires RxEnabled(cfg, t, r, closed, s) && RecvCounted(cfg, r, closed) && CreditsBatched(cfg, r)
    ensures RecvCounted(cfg, RxApply(cfg, t, r, closed, s), closed)
    ensures CreditsBatched(cfg, RxApply(cfg, t, r, closed, s))
  {
    hide RxApply, RxEnabled, RecvCounted, CreditsBatched;
    RecvCountedKept(cfg, t, r, closed, s);
    BatchedKept(cfg, t, r, closed, s);
  }

  // ---------------------------------------------------------------- streams

  /** What a step that neither consumes nor drops a frame leaves alone. */
  lemma OrderUntouched(cfg: Config, r: Rx, r': Rx)
    requires Consecutive(cfg, r) && Waiting(r') == Waiting(r) && r'.mem == r.mem
    requires r'.log.consumed == r.log.consumed && r'.log.dispatched == r.log.dispatched && r'.log.lost == r.log.lost
    ensures Consecutive(cfg, r')
  {
    assert Queued(r') == Queued(r);
    hide DataOf, Subsequence, Queued;
  }

  lemma RoutedKept(cfg: Config, t: Tx, r: Rx, closed: bool, s: RxStep)
    requires RxEnabled(cfg, t, r, closed, s) && RingBacked(cfg, r) && RecvCounted(cfg, r, closed) && Routed(cfg, r)
    ensures Routed(cfg, RxApply(cfg, t, r, closed, s))
  {
    hide Consecutive, RecvCounted, RingBacked, DoConsume;
    match s {
      case TakeFrame =>
        WaitingTake(r);
        OrderUntouched(cfg, r, DoTakeFrame(r));
      case Consume => RoutedConsume(cfg, r);
      case DropRecv => RoutedDrop(cfg, t, r, closed);
      case _ => OrderUntouched(cfg, r, RxApply(cfg, t, r, closed, s));
    }
  }

  /** A frame dropped from a ring of one slot is the last one handled. */
  lemma RoutedDrop(cfg: Config, t: Tx, r: Rx, closed: bool)
    requires CanDropRecv(t, r, closed) && RecvCounted(cfg, r, closed) && Routed(cfg, r)
    ensures Routed(cfg, DoDropRecv(r))
  {
    hide DataOf, Subsequence;
    var f := r.mem[r.cq[0]];
    ProjectSnoc(r.log.dispatched, f);
    SubsequenceSkip(r.log.consumed + Queued(r), DataOf(r.log.dispatched), f);
    assert (r.log.dispatched + [f])[..|r.log.dispatched|] == r.log.dispatched;
  }

  /** What `consumeFrameLocked` does besides credit accounting and choosing where to go on. */
  lemma ConsumeEffect(cfg: Config, r: Rx)
    requires CanConsume(r)
    ensures var r' := DoConsume(cfg, r);
            && r'.mem == r.mem && r'.queue == r.queue && r'.peerFin == r.peerFin
            && !r'.receiver.RTake? && !r'.receiver.RFin?
            && r'.cq == r.cq && r'.log == Reassembled(r).0.log && r'.reasm == Reassembled(r).0.reasm
  {}

  lemma RoutedConsume(cfg: Config, r: Rx)
    requires CanConsume(r) && RingBacked(cfg, r) && Routed(cfg, r)
    ensures Routed(cfg, DoConsume(cfg, r))
    ensures DoConsume(cfg, r).log.consumed == r.log.consumed + [r.mem[r.receiver.frame.slot]]
  {
    hide DataOf, DoConsume, Subsequence;
    ConsumeEffect(cfg, r);
    var r' := DoConsume(cfg, r);
    var fr := r.receiver.frame;
    assert fr in HeldFrame(r.receiver) + r.queue;
    var f := r.mem[fr.slot];
    assert Data(PayloadIn(r.mem, fr), fr.more) == f;
    assert r'.log.consumed == r.log.consumed + [f];
    QueuedTake(r, r');
    hide Queued;
    assert r'.log.consumed + Queued(r') == r.log.consumed + Queued(r);
  }

  lemma QueuedTake(r: Rx, r': Rx)
    requires CanConsume(r) && r'.mem == r.mem && r'.queue == r.queue && !r'.receiver.RTake?
    ensures Queued(r) == [r.mem[r.receiver.frame.slot]] + Queued(r')
  {
    assert HeldFrame(r'.receiver) + r'.queue == r.queue;
    assert Waiting(r) == [r.receiver.frame.slot] + Waiting(r');
    FramesAtHead(Waiting(r), r.mem);
    assert Waiting(r)[1..] == Waiting(r');
  }

  /** What a receive completion adds to the frames queued. */
  lemma QueuedPoll(r: Rx)
    requires r.cq != [] && r.cq[0] < |r.mem|
    ensures Queued(DoPollRecv(r)) == Queued(r) + if r.mem[r.cq[0]].Data? then [r.mem[r.cq[0]]] else []
    ensures Arrived(r) == [r.mem[r.cq[0]]] + Arrived(DoPollRecv(r))
  {
    WaitingPoll(r);
    FramesAtHead(r.cq, r.mem);
    FramesAtSnoc(Waiting(r), r.cq[0], r.mem);
  }

  lemma RoutedPoll(cfg: Config, r: Rx, closed: bool)
    requires r.cq != [] && r.cq[0] < |r.mem| && RecvCounted(cfg, r, closed) && Routed(cfg, r)
    ensures Routed(cfg, DoPollRecv(r))
    ensures Arrived(r) == [r.mem[r.cq[0]]] + Arrived(DoPollRecv(r))
  {
    hide Consecutive, Arrived, RecvCounted;
    QueuedPoll(r);
    InOrderPoll(cfg, r, closed);
  }

  /** While frames arrive the dropped ones have not used up the ring. */
  lemma NothingLost(cfg: Config, r: Rx, closed: bool)
    requires r.cq != [] && RecvCounted(cfg, r, closed)
    ensures Whole(cfg, r) ==> r.log.lost == []
  {}

  lemma InOrderPoll(cfg: Config, r: Rx, closed: bool)
    requires r.cq != [] && r.cq[0] < |r.mem| && RecvCounted(cfg, r, closed) && Consecutive(cfg, r)
    ensures Consecutive(cfg, DoPollRecv(r))
  {
    hide DataOf, Subsequence, Queued, RecvCounted;
    var f, r' := r.mem[r.cq[0]], DoPollRecv(r);
    QueuedPoll(r);
    ProjectSnoc(r.log.dispatched, f);
    var taken := r.log.consumed + Queued(r);
    NothingLost(cfg, r, closed);
    if f.Data? {
      SubsequenceBoth(taken, DataOf(r.log.dispatched), f);
      assert r'.log.consumed + Queued(r') == taken + [f];
    } else {
      assert DataOf(r.log.dispatched) + [] == DataOf(r.log.dispatched);
      assert Queued(r) + [] == Queued(r);
    }
  }

  // ------------------------------------------------------------------ all steps

  lemma RecvPartitionKept(cfg: Config, t: Tx, r: Rx, closed: bool, s: RxStep)
    requires RecvPartitioned(cfg, r) && RxEnabled(cfg, t, r, closed, s)
    ensures RecvPartitioned(cfg, RxApply(cfg, t, r, closed, s))
  {
    hide RecvPlaces;
    var r' := RxApply(cfg, t, r, closed, s);
    forall x: nat
      ensures RecvPlaces(r', x) == if x < cfg.depth then 1 else 0
    {
      RecvPlacesKept(cfg, t, r, closed, s, x);
    }
  }

  lemma RxKept(cfg: Config, t: Tx, r: Rx, closed: bool, s: RxStep)
    requires RxInv(cfg, r, closed) && RxEnabled(cfg, t, r, closed, s)
    ensures RxInv(cfg, RxApply(cfg, t, r, closed, s), closed)
  {
    hide RxApply, RxEnabled, RecvPartitioned, RingBacked, RecvCounted, CreditsBatched, Routed;
    RecvPartitionKept(cfg, t, r, closed, s);
    BackedKept(cfg, t, r, closed, s);
    RecvNumbersKept(cfg, t, r, closed, s);
    RoutedKept(cfg, t, r, closed, s);
  }

  lemma RxKeptByPoll(cfg: Config, t: Tx, r: Rx, closed: bool)
    requires RxInv(cfg, r, closed) && CanPollRecv(cfg, t, r)
    ensures RxInv(cfg, DoPollRecv(r), closed)
    ensures Arrived(r) == [r.mem[r.cq[0]]] + Arrived(DoPollRecv(r))
  {
    hide RecvPartitioned, RingBacked, RecvCounted, CreditsBatched, Routed, Arrived, DoPollRecv;
    PollNumbers(cfg, t, r, closed);
    RoutedPoll(cfg, r, closed);
    BackedPoll(cfg, r);
  }

  lemma PollNumbers(cfg: Config, t: Tx, r: Rx, closed: bool)
    requires RecvPartitioned(cfg, r) && RecvCounted(cfg, r, closed) && CreditsBatched(cfg, r) && CanPollRecv(cfg, t, r)
    ensures var r' := DoPollRecv(r);
            RecvPartitioned(cfg, r') && RecvCounted(cfg, r', closed) && CreditsBatched(cfg, r')
  {
    hide RecvPlaces;
    var r' := DoPollRecv(r);
    forall x: nat
      ensures RecvPlaces(r', x) == if x < cfg.depth then 1 else 0
    {
      PlacesPollRecv(r, x);
    }
  }

  /** What `returnCredit` leaves alone. */
  lemma CreditPostedKeeps(r: Rx)
    requires r.receiver.RReturn?
    ensures var r' := CreditPosted(r);
            && r' == r.(pending := r'.pending, receiver := r'.receiver)
            && HeldFrame(r'.receiver) == [] && !r'.receiver.RFin?
            && (r.pending == 0 ==> r'.pending == 0 && !r'.receiver.RReturn?)
  {}

  lemma RxKeptByCreditPosted(cfg: Config, r: Rx, closed: bool)
    requires RxInv(cfg, r, closed) && r.receiver.RReturn?
    ensures RxInv(cfg, CreditPosted(r), closed)
    ensures Arrived(CreditPosted(r)) == Arrived(r) && Queued(CreditPosted(r)) == Queued(r)
  {
    hide Count, DataOf, CreditPosted;
    CreditPostedKeeps(r);
    var r' := CreditPosted(r);
    assert Waiting(r') == Waiting(r);
    forall x: nat
      ensures RecvPlaces(r', x) == RecvPlaces(r, x)
    {}
  }

  lemma RxKeptByLanded(cfg: Config, r: Rx, closed: bool, f: Frame)
    requires RxInv(cfg, r, closed) && r.rq != [] && r.rq[0] < |r.mem| && FrameOk(cfg, f)
    ensures RxInv(cfg, Landed(r, f), closed)
    ensures Arrived(Landed(r, f)) == Arrived(r) + [f]
  {
    hide Count, DataOf;
    var r' := Landed(r, f);
    assert RecvPartitioned(cfg, r') by {
      forall x: nat
        ensures RecvPlaces(r', x) == if x < cfg.depth then 1 else 0
      {
        PlacesLanded(r, f, x);
      }
    }
    BackedLanded(cfg, r, f);
  }

  lemma RxInit(cfg: Config, e: End, sendMem: seq<Frame>, recvMem: seq<Frame>)
    requires cfg.Valid() && |recvMem| == cfg.depth && e == InitEnd(cfg, sendMem, recvMem)
    ensures RxInv(cfg, e.rx, false)
  {
    var r := e.rx;
    forall x: nat
      ensures RecvPlaces(r, x) == if x < cfg.depth then 1 else 0
    {
      RangeOnce(0, cfg.depth, x);
    }
    assert Queued(r) == [];
  }
}
