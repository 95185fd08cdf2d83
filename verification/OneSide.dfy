/** One side on its own: its own steps, the device taking a frame from it, and a frame arriving. */
module OneSide {
  import opened Framing
  import opened Endpoint
  import opened Slots
  import opened TxInvariant
  import opened RxInvariant
  import opened Protocol

  datatype Move = Take(step: Step) | HeadAccepted | Arrives(f: Frame)

  /** A conforming peer sends only frames the transport itself could have posted. */
  ghost predicate CanMove(cfg: Config, e: End, m: Move) {
    match m
    case Take(step) => Enabled(cfg, e, step)
    case HeadAccepted => e.tx.sq != [] && e.tx.sq[0] < |e.tx.mem|
    case Arrives(f) => e.rx.rq != [] && e.rx.rq[0] < |e.rx.mem| && FrameOk(cfg, f)
  }

  ghost function Moved(cfg: Config, e: End, m: Move): End
    requires cfg.chunk > 0 && CanMove(cfg, e, m)
  {
    match m
    case Take(step) => Apply(cfg, e, step)
    case HeadAccepted => e.(tx := Accepted(e.tx))
    case Arrives(f) => e.(rx := Landed(e.rx, f))
  }

  lemma StepKeepsEnd(cfg: Config, e: End, s: Step)
    requires cfg.Valid() && EndInv(cfg, e) && Enabled(cfg, e, s)
    ensures EndInv(cfg, Apply(cfg, e, s))
  {
    hide TxInv, RxInv, TxApply, RxApply, TxEnabled, RxEnabled, PostControl, CreditPosted, DoPollRecv, Released;
    match s {
      case OnTx(t) => TxKept(cfg, e.tx, e.closed, t);
      case OnRx(r) => RxKept(cfg, e.tx, e.rx, e.closed, r);
      case PostCredit =>
        ReturnBound(cfg, e.rx, e.closed);
        TxKeptByPostControl(cfg, e.tx, e.closed, e.rx.receiver.n);
        RxKeptByCreditPosted(cfg, e.rx, e.closed);
      case PollRecv =>
        TxKeptByRelease(cfg, e.tx, e.closed, e.rx.mem[e.rx.cq[0]]);
        RxKeptByPoll(cfg, e.tx, e.rx, e.closed);
      case Close =>
        TxKeptByClose(cfg, e.tx, e.closed);
        RxKeptByClose(cfg, e.rx, e.closed);
      case CloseCredits => TxKeptByShut(cfg, e.tx);
    }
  }

  lemma RxKeptByClose(cfg: Config, r: Rx, closed: bool)
    requires RxInv(cfg, r, closed)
    ensures RxInv(cfg, r, true)
  {
    hide RecvPartitioned, RingBacked;
  }

  /** Whatever the peer and the device do, every move keeps the invariant of this side. */
  lemma MoveKeeps(cfg: Config, e: End, m: Move)
    requires cfg.Valid() && EndInv(cfg, e) && CanMove(cfg, e, m)
    ensures EndInv(cfg, Moved(cfg, e, m))
  {
    hide TxInv, RxInv, Accepted, Landed, Apply, Enabled;
    match m {
      case Take(step) => StepKeepsEnd(cfg, e, step);
      case HeadAccepted => TxKeptByAccepted(cfg, e.tx, e.closed);
      case Arrives(f) => RxKeptByLanded(cfg, e.rx, e.closed, f);
    }
  }

  ghost predicate Follows(cfg: Config, e: End, e': End)
    requires cfg.chunk > 0
  {
    exists m :: CanMove(cfg, e, m) && e' == Moved(cfg, e, m)
  }

  /** The states of a side so far: each one is a move away from the one before. */
  ghost predicate IsPast(cfg: Config, past: seq<End>)
    requires cfg.chunk > 0
  {
    past != [] && forall i :: 0 < i < |past| ==> Follows(cfg, past[i - 1], past[i])
  }

  lemma PastGrows(cfg: Config, past: seq<End>, e: End, m: Move)
    requires cfg.chunk > 0 && IsPast(cfg, past) && past[|past| - 1] == e && CanMove(cfg, e, m)
    ensures IsPast(cfg, past + [Moved(cfg, e, m)])
  {
    hide CanMove, Moved;
    var e' := Moved(cfg, e, m);
    assert Follows(cfg, e, e');
  }

  // ----------------------------------------- what the invariant gives a step

  /** The slot in the sender's hand is a data slot nobody else uses, and its frame fits. */
  lemma HeldFits(cfg: Config, e: End)
    requires cfg.Valid() && EndInv(cfg, e) && e.tx.sender.SPost?
    ensures e.tx.sender.slot < cfg.depth < |e.tx.mem| && e.tx.sender.slot !in e.tx.sq
    ensures forall f :: f in e.tx.sender.task.todo ==> f.Data? && FrameOk(cfg, f)
  {
    hide Count, AllFrames, DataOf, RxInv;
    SlotOnce(cfg, e.tx, e.tx.sender.slot);
  }

  lemma CreditSlotFits(cfg: Config, e: End)
    requires cfg.Valid() && EndInv(cfg, e) && e.tx.ctrlFree != []
    ensures cfg.depth <= e.tx.ctrlFree[0] < |e.tx.mem| && e.tx.ctrlFree[0] !in e.tx.sq
  {
    hide Count, AllFrames, DataOf, RxInv;
    assert e.tx.ctrlFree[0] in e.tx.ctrlFree;
    SlotOnce(cfg, e.tx, e.tx.ctrlFree[0]);
  }

  /** The frame in the receiver's hand is the one its slot holds. */
  lemma TakenBacked(cfg: Config, e: End)
    requires cfg.Valid() && EndInv(cfg, e) && e.rx.receiver.RTake?
    ensures Backed(cfg, e.rx.mem, e.rx.receiver.frame)
  {
    hide TxInv, RecvPartitioned;
    assert e.rx.receiver.frame in HeldFrame(e.rx.receiver) + e.rx.queue;
  }

  /** No channel the poller sends on can be full. */
  lemma PoolsHaveRoom(cfg: Config, e: End)
    requires cfg.Valid() && EndInv(cfg, e)
    ensures e.tx.cq != [] ==> if e.tx.cq[0] < cfg.depth then |e.tx.free| < cfg.depth else |e.tx.ctrlFree| < CREDIT_SLOTS
    ensures e.rx.cq != [] ==> e.rx.cq[0] < |e.rx.mem| && FrameOk(cfg, e.rx.mem[e.rx.cq[0]]) && |e.rx.queue| < cfg.depth
    ensures |e.tx.free| <= cfg.depth && |e.tx.ctrlFree| <= CREDIT_SLOTS && |e.rx.queue| <= cfg.depth
  {
    hide Count, AllFrames;
    if e.tx.cq != [] {
      KindsMove(cfg, e.tx);
      FramesAtHead(e.tx.cq, e.tx.mem);
      ProjectHead(Finishing(e.tx));
    }
    hide DataOf;
    assert e.rx.cq != [] ==> e.rx.cq[0] in e.rx.cq;
  }

  lemma ReturnFits(cfg: Config, e: End)
    requires cfg.Valid() && EndInv(cfg, e)
    ensures e.rx.receiver.RReturn? ==> 1 <= e.rx.receiver.n <= cfg.Threshold() && e.rx.pending == 0
    ensures e.rx.rq != [] ==> e.rx.rq[0] < |e.rx.mem|
    ensures e.tx.sq != [] ==> e.tx.sq[0] < |e.tx.mem| && FrameOk(cfg, e.tx.mem[e.tx.sq[0]])
  {
    hide Count, AllFrames, DataOf, RecvPartitioned, Partitioned;
    assert e.rx.rq != [] ==> e.rx.rq[0] in e.rx.rq;
    assert e.tx.sq != [] ==> e.tx.sq[0] in e.tx.sq;
  }
}
