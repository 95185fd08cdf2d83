/**
 * Who can take a step of a side, what it means that they are given a turn, and when a call is blocked.
 */
module Scheduling {
  import opened Words

  import opened Framing
  import opened Endpoint
  import opened Slots
  import opened TxInvariant
  import opened RxInvariant
  import opened Protocol
  import opened OneSide

  datatype Actor =
    | Sender | Receiver                                        // the goroutine inside a call
    | StartSend(msgs: seq<Bytes>) | StartReceive(batch: bool, max: int)
    | Poller(recv: bool) | Pusher | Fin | Shut | ShutCredits

  /** The steps that are an actor's to take. */
  predicate Theirs(who: Actor, s: Step) {
    match who
    case Sender => s.OnTx? && (s.t.DrainToken? || s.t.DrainEnd? || s.t.Acquire? || s.t.TakeSlot? || s.t.PostData?
                               || s.t.WaitToken? || s.t.SendReturn? || s.t.SendAbort?)
    case Receiver => s.PostCredit? || (s.OnRx? && !s.r.RecvStart? && !s.r.DropRecv?)
    case StartSend(msgs) => s == OnTx(SendCall(msgs))
    case StartReceive(batch, max) => s == OnRx(RecvStart(batch, max))
    case Poller(recv) =>
      if recv then s == PollRecv || s == OnRx(DropRecv) else s == OnTx(PollSend) || s == OnTx(DropSend)
    case Pusher => s == OnTx(PushToken) || s == OnTx(DropToken)
    case Fin => s == OnTx(PostFin)
    case Shut => s == Close
    case ShutCredits => s == CloseCredits
  }

  /** An actor who can take a step takes one; otherwise nothing happens. */
  ghost predicate Served(cfg: Config, e: End, e': End, who: Actor)
    requires cfg.chunk > 0
  {
    if exists s :: Theirs(who, s) && Enabled(cfg, e, s)
    then exists s :: Theirs(who, s) && Enabled(cfg, e, s) && e' == Apply(cfg, e, s)
    else e' == e
  }

  lemma ServedBy(cfg: Config, e: End, e': End, who: Actor, s: Step)
    requires cfg.chunk > 0 && Theirs(who, s) && Enabled(cfg, e, s) && e' == Apply(cfg, e, s)
    ensures Served(cfg, e, e', who)
  {
    hide Theirs, Enabled, Apply;
  }

  lemma ServedIdle(cfg: Config, e: End, who: Actor)
    requires cfg.chunk > 0 && forall s :: Theirs(who, s) ==> !Enabled(cfg, e, s)
    ensures Served(cfg, e, e, who)
  {
    hide Theirs, Enabled, Apply;
  }

  // --------------------------------------------------------- blocked calls

  /** A send call at a wait that others have to end: for a credit, for a slot, or for a completion. */
  predicate SenderWaits(e: End) {
    match e.tx.sender
    case SAcquire(_) => e.tx.credits == 0 && !e.tx.shut
    case SSlot(_) => e.tx.free == [] && !e.closed
    case SWait(left) => left > 0 && e.tx.tokens == 0 && !e.closed
    case _ => false
  }

  /** A receive call at a wait that others have to end: for a frame, or for a credit slot. */
  predicate ReceiverWaits(e: End) {
    match e.rx.receiver
    case RBlock(_) => e.rx.queue == [] && !e.rx.peerFin && !e.closed
    case RReturn(_, _, _) => e.tx.ctrlFree == [] && !e.closed
    case _ => false
  }

  /** A step a send call can take unless it is blocked. */
  function NextOfSender(t: Tx): Step {
    match t.sender
    case SIdle => OnTx(SendReturn)
    case SDrain(_) => OnTx(if t.tokens > 0 then DrainToken else DrainEnd)
    case SAcquire(_) => OnTx(if t.shut then SendAbort else TxStep.Acquire)
    case SSlot(_) => OnTx(if t.free != [] then TakeSlot else SendAbort)
    case SPost(_, _) => OnTx(PostData)
    case SWait(left) => OnTx(if left == 0 then SendReturn else if t.tokens > 0 then WaitToken else SendAbort)
  }

  function NextOfReceiver(e: End): Step {
    match e.rx.receiver
    case RIdle => OnRx(TakeFrame)
    case RLoop(_) => OnRx(if e.rx.queue != [] then TakeFrame else FindEmpty)
    case RBlock(_) => OnRx(if e.rx.queue != [] then TakeFrame else if e.rx.peerFin then SeeFin else RecvAbort)
    case RFin(_) => OnRx(if e.rx.queue != [] then TakeFrame else ReturnEof)
    case RTake(_, _) => OnRx(Consume)
    case RReturn(_, _, _) => if e.tx.ctrlFree != [] then PostCredit else OnRx(DropCredit)
  }

  lemma SenderGoesOn(cfg: Config, e: End)
    requires cfg.Valid() && EndInv(cfg, e) && !e.tx.sender.SIdle? && !SenderWaits(e)
    ensures Theirs(Sender, NextOfSender(e.tx)) && Enabled(cfg, e, NextOfSender(e.tx))
  {
    hide EndInv;
    OpenIsSound(cfg, e);
    if e.tx.sender.SPost? {
      HeldFits(cfg, e);
      HeldTask(cfg, e);
    }
  }

  lemma HeldTask(cfg: Config, e: End)
    requires cfg.Valid() && EndInv(cfg, e) && e.tx.sender.SPost?
    ensures e.tx.sender.task.todo != []
  {
    hide Count, AllFrames, DataOf, RxInv;
  }

  lemma SenderStands(cfg: Config, e: End, s: Step)
    requires (e.tx.sender.SIdle? || SenderWaits(e)) && Theirs(Sender, s)
    ensures !Enabled(cfg, e, s)
  {}

  lemma ReceiverGoesOn(cfg: Config, e: End)
    requires cfg.Valid() && EndInv(cfg, e) && !e.rx.receiver.RIdle? && !ReceiverWaits(e)
    ensures Theirs(Receiver, NextOfReceiver(e)) && Enabled(cfg, e, NextOfReceiver(e))
  {
    hide EndInv;
    if e.rx.receiver.RTake? { TakenBacked(cfg, e); }
    if e.tx.ctrlFree != [] { CreditSlotFits(cfg, e); }
  }

  lemma ReceiverStands(cfg: Config, e: End, s: Step)
    requires (e.rx.receiver.RIdle? || ReceiverWaits(e)) && Theirs(Receiver, s)
    ensures !Enabled(cfg, e, s)
  {}

  /** A call is blocked exactly if none of its own steps can be taken: nothing it could do has been left undone. */
  lemma BlockedExactly(cfg: Config, e: End)
    requires cfg.Valid() && EndInv(cfg, e)
    ensures e.tx.sender.SIdle? || SenderWaits(e) <==> forall s :: Theirs(Sender, s) ==> !Enabled(cfg, e, s)
    ensures e.rx.receiver.RIdle? || ReceiverWaits(e) <==> forall s :: Theirs(Receiver, s) ==> !Enabled(cfg, e, s)
  {
    hide EndInv, Theirs, Enabled, SenderWaits, ReceiverWaits;
    if e.tx.sender.SIdle? || SenderWaits(e) {
      forall s | Theirs(Sender, s) ensures !Enabled(cfg, e, s) { SenderStands(cfg, e, s); }
    } else {
      SenderGoesOn(cfg, e);
    }
    if e.rx.receiver.RIdle? || ReceiverWaits(e) {
      forall s | Theirs(Receiver, s) ensures !Enabled(cfg, e, s) { ReceiverStands(cfg, e, s); }
    } else {
      ReceiverGoesOn(cfg, e);
    }
  }
}
