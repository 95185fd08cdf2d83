/**
 * The transport object (rdmanet/transport_linux.go): channels as queues, byte rings written in place,
 * the queue pair's posted work requests and completions. Each method is one channel operation, select
 * or post of the code; `view` is the abstract state, and `Valid` ties every field and every byte to it.
 */
module Transport {
  import opened Words

  import opened Framing
  import opened Credit
  import opened Endpoint
  import opened Slots
  import opened TxInvariant
  import opened RxInvariant
  import opened Protocol
  import opened OneSide
  import opened Rings

  /** A posted work request: its id and the single scatter entry. */
  datatype WR = WR(wrid: nat, off: nat, len: nat)

  const CREDIT_WRID_BASE: nat := 0x1_0000_0000

  function SendWrid(depth: nat, slot: nat): nat {
    if slot < depth then slot else CREDIT_WRID_BASE + (slot - depth)
  }

  /** The slot `dispatch` computes from the id of a send completion, and whether it is a data slot. */
  lemma WridRoutes(depth: nat, slot: nat)
    requires depth < CREDIT_WRID_BASE
    ensures var wrid := SendWrid(depth, slot);
            && (slot < depth <==> wrid < CREDIT_WRID_BASE)
            && slot == if wrid < CREDIT_WRID_BASE then wrid else wrid - CREDIT_WRID_BASE + depth
  {}

  /** The posted sends name the slots `slots`, and each covers exactly the bytes of its frame. */
  ghost predicate SendsPosted(depth: nat, size: nat, slots: seq<nat>, mem: seq<Frame>, sq: seq<WR>) {
    && |sq| == |slots|
    && forall i :: 0 <= i < |sq| ==>
         slots[i] < |mem| && FitsHeader(mem[slots[i]])
         && sq[i] == WR(SendWrid(depth, slots[i]), slots[i] * size, |FrameBytes(mem[slots[i]])|)
  }

  ghost predicate SendsDone(depth: nat, slots: seq<nat>, cq: seq<nat>) {
    |cq| == |slots| && forall i :: 0 <= i < |cq| ==> cq[i] == SendWrid(depth, slots[i])
  }

  ghost predicate RecvsPosted(size: nat, slots: seq<nat>, rq: seq<WR>) {
    |rq| == |slots| && forall i :: 0 <= i < |rq| ==> rq[i] == WR(slots[i], slots[i] * size, size)
  }

  lemma SendsPostedSnoc(depth: nat, size: nat, slots: seq<nat>, mem: seq<Frame>, sq: seq<WR>, slot: nat, f: Frame)
    requires SendsPosted(depth, size, slots, mem, sq) && slot !in slots && slot < |mem| && FitsHeader(f)
    ensures SendsPosted(depth, size, slots + [slot], mem[slot := f],
                        sq + [WR(SendWrid(depth, slot), slot * size, |FrameBytes(f)|)])
  {
    forall i | 0 <= i < |sq| ensures slots[i] != slot { assert slots[i] in slots; }
  }

  lemma InitLawful(cfg: Config, e: End)
    requires cfg.Valid() && e == InitEnd(cfg, Blank(cfg.depth + CREDIT_SLOTS), Blank(cfg.depth))
    ensures EndInv(cfg, e) && IsPast(cfg, [e])
  {
    TxInit(cfg, e, Blank(cfg.depth + CREDIT_SLOTS), Blank(cfg.depth));
    RxInit(cfg, e, Blank(cfg.depth + CREDIT_SLOTS), Blank(cfg.depth));
    hide TxInv, RxInv;
  }

  lemma PostControlKeeps(t: Tx, f: Frame)
    requires CanPostControl(t)
    ensures var t' := PostControl(t, f);
            && t'.free == t.free && t'.tokens == t.tokens && t'.pushing == t.pushing && t'.cq == t.cq
            && t'.credits == t.credits && t'.shut == t.shut && t'.sender == t.sender && t'.log.finAt == t.log.finAt
  {}

  lemma PostFinKeeps(cfg: Config, e: End)
    requires cfg.chunk > 0 && CanPostFin(e.tx, e.closed)
    ensures Enabled(cfg, e, OnTx(PostFin))
    ensures var e', t1 := Apply(cfg, e, OnTx(PostFin)), PostControl(e.tx, Fin); var t, t' := e.tx, e'.tx;
            && e' == e.(tx := t') && t'.log.finAt >= 0
            && t'.free == t.free && t'.tokens == t.tokens && t'.pushing == t.pushing && t'.cq == t.cq
            && t'.credits == t.credits && t'.shut == t.shut && t'.sender == t.sender
            && t'.sq == t1.sq && t'.mem == t1.mem && t'.ctrlFree == t1.ctrlFree
  {}

  lemma PostDataKeeps(cfg: Config, e: End)
    requires cfg.chunk > 0 && CanPostData(e.tx)
    ensures Enabled(cfg, e, OnTx(PostData))
    ensures var e' := Apply(cfg, e, OnTx(PostData)); var t, t' := e.tx, e'.tx;
            && e' == e.(tx := t') && t'.log.finAt == t.log.finAt
            && t'.free == t.free && t'.tokens == t.tokens && t'.pushing == t.pushing && t'.cq == t.cq
            && t'.credits == t.credits && t'.shut == t.shut && t'.ctrlFree == t.ctrlFree
            && t'.sq == t.sq + [t.sender.slot] && t'.mem == t.mem[t.sender.slot := t.sender.task.todo[0]]
            && var task := SendTask(t.sender.task.todo[1..], t.sender.task.posted + 1, t.sender.task.done);
               t'.sender == if task.todo != [] then SDrain(task) else SWait(Unfinished(task))
  {}

  lemma ConsumeKeeps(cfg: Config, r: Rx)
    requires CanConsume(r)
    ensures var r' := DoConsume(cfg, r);
            r'.cq == r.cq && r'.mem == r.mem && r'.queue == r.queue && r'.peerFin == r.peerFin
  {}

  lemma InitFields(cfg: Config, sendMem: seq<Frame>, recvMem: seq<Frame>)
    ensures var e := InitEnd(cfg, sendMem, recvMem);
            && e.tx.free == Range(0, cfg.depth) && e.tx.ctrlFree == Range(cfg.depth, cfg.SendSlots())
            && e.tx.tokens == 0 && e.tx.log.finAt < 0 && !e.tx.pushing && e.tx.credits == cfg.depth
            && e.rx.queue == [] && e.rx.pending == 0 && !e.rx.peerFin && e.rx.reasm == Reasm([], false)
            && !e.closed && !e.tx.shut && e.tx.sender == SIdle && e.rx.receiver == RIdle
            && e.tx.sq == [] && e.tx.cq == [] && e.rx.rq == Range(0, cfg.depth) && e.rx.cq == []
            && e.tx.mem == sendMem && e.rx.mem == recvMem
  {}

  lemma NoneQueued(depth: nat, size: nat, mem: seq<Frame>)
    ensures SendsPosted(depth, size, [], mem, []) && SendsDone(depth, [], [])
  {}

  lemma ReassembledKeeps(r: Rx)
    requires r.receiver.RTake? && r.receiver.frame.slot < |r.mem|
    ensures var r1 := Reassembled(r).0;
            && r1.cq == r.cq && r1.mem == r.mem && r1.queue == r.queue && r1.peerFin == r.peerFin
            && r1.pending == r.pending + 1
  {}

  lemma SendDoneHead(depth: nat, slots: seq<nat>, cq: seq<nat>)
    requires SendsDone(depth, slots, cq) && cq != []
    ensures slots != [] && cq[0] == SendWrid(depth, slots[0]) && SendsDone(depth, slots[1..], cq[1..])
  {}

  lemma SendsDoneSnoc(depth: nat, slots: seq<nat>, cq: seq<nat>, slot: nat)
    requires SendsDone(depth, slots, cq)
    ensures SendsDone(depth, slots + [slot], cq + [SendWrid(depth, slot)])
  {}

  lemma SendsPostedHead(depth: nat, size: nat, slots: seq<nat>, mem: seq<Frame>, sq: seq<WR>)
    requires SendsPosted(depth, size, slots, mem, sq) && sq != []
    ensures slots != [] && slots[0] < |mem| && FitsHeader(mem[slots[0]])
    ensures sq[0] == WR(SendWrid(depth, slots[0]), slots[0] * size, |FrameBytes(mem[slots[0]])|)
    ensures SendsPosted(depth, size, slots[1..], mem, sq[1..])
  {}

  lemma RecvsPostedHead(size: nat, slots: seq<nat>, rq: seq<WR>)
    requires RecvsPosted(size, slots, rq) && rq != []
    ensures slots != [] && rq[0] == WR(slots[0], slots[0] * size, size) && RecvsPosted(size, slots[1..], rq[1..])
  {}

  datatype Created = BadSizing | Created(transport: Transport)

  class Transport {
    const depth: nat
    const slotSize: nat
    const payload: nat
    const sendBuf: array<byte>
    const recvBuf: array<byte>
    const credits: CreditTracker
    const reasm: Reassembler
    var sendFree: seq<nat>
    var sendDone: nat
    var creditFree: seq<nat>
    var recvQ: seq<RecvFrame>
    var creditPending: nat
    var peerFin: bool
    var closed: bool
    var finSent: bool
    // the queue pair and its completion queue
    var sq: seq<WR>
    var sendCq: seq<nat>
    var rq: seq<WR>
    var recvCq: seq<nat>
    // where each goroutine stands, with its locals
    var sender: Sender
    var receiver: Receiver
    var pushing: bool
    ghost var view: End
    ghost var past: seq<End>

    function Cfg(): Config { Config(depth, payload, false) }

    ghost predicate Sized() {
      && 0 < depth < CREDIT_WRID_BASE && payload > 0 && slotSize == HEADER_SIZE + payload
      && sendBuf != recvBuf
    }

    ghost predicate Pools()
      reads this
    {
      && sendFree == view.tx.free && creditFree == view.tx.ctrlFree && sendDone == view.tx.tokens
      && recvQ == view.rx.queue && creditPending == view.rx.pending && peerFin == view.rx.peerFin
      && closed == view.closed && finSent == (view.tx.log.finAt >= 0) && pushing == view.tx.pushing
      && sender == view.tx.sender && receiver == view.rx.receiver
    }

    ghost predicate Parts()
      reads this, credits, reasm
    {
      && credits.State() == Counter(view.tx.credits, view.tx.shut)
      && reasm.max == MAX_MESSAGE && reasm.State() == view.rx.reasm
    }

    ghost predicate Queues()
      reads this
    {
      && SendsPosted(depth, slotSize, view.tx.sq, view.tx.mem, sq) && SendsDone(depth, view.tx.cq, sendCq)
      && RecvsPosted(slotSize, view.rx.rq, rq) && recvCq == view.rx.cq
    }

    ghost predicate Bytes()
      reads this, sendBuf, recvBuf
    {
      Ring(sendBuf[..], slotSize, view.tx.mem) && Ring(recvBuf[..], slotSize, view.rx.mem)
    }

    /** The abstract state satisfies its invariant and was reached by moves of the step machine. */
    ghost predicate Lawful()
      requires Sized()
      reads this
    {
      EndInv(Cfg(), view) && IsPast(Cfg(), past) && past[|past| - 1] == view
    }

    ghost predicate Valid()
      reads this, sendBuf, recvBuf, credits, reasm
    {
      Sized() && Pools() && Parts() && Queues() && Bytes() && Lawful()
    }

    lemma PastEnds()
      requires Valid()
      ensures past != [] && past[|past| - 1] == view
    {
      hide EndInv, Pools, Parts, Queues, Bytes;
    }

    twostate predicate Did(m: Move)
      requires Sized()
      reads this
    {
      && CanMove(Cfg(), old(view), m) && view == Moved(Cfg(), old(view), m)
      && past == old(past) + [view]
    }

    twostate predicate Took(s: Step)
      requires Sized()
      reads this
    {
      && Enabled(Cfg(), old(view), s) && view == Apply(Cfg(), old(view), s)
      && past == old(past) + [view]
    }

    /** `newTransport`, after its sizing check; registering the rings hands out zeroed memory. */
    constructor (slotSize: nat, depth: nat)
      requires slotSize > HEADER_SIZE && 0 < depth < CREDIT_WRID_BASE
      ensures Valid() && fresh(sendBuf) && fresh(recvBuf) && fresh(credits) && fresh(reasm)
      ensures this.depth == depth && this.slotSize == slotSize
      ensures view == InitEnd(Cfg(), Blank(depth + CREDIT_SLOTS), Blank(depth))
    {
      hide Ring, Lawful, Pools, Queues, RecvsPosted, Range, Blank, InitEnd;
      this.depth, this.slotSize, payload := depth, slotSize, slotSize - HEADER_SIZE;
      var sends := NewRing(depth + CREDIT_SLOTS, slotSize);
      var recvs := NewRing(depth, slotSize);
      sendBuf, recvBuf := sends, recvs;
      credits := new CreditTracker(depth);
      reasm := new Reassembler(MAX_MESSAGE);
      sendFree, sendDone, creditFree, recvQ := [], 0, [], [];
      creditPending, peerFin, closed, finSent := 0, false, false, false;
      sq, sendCq, rq, recvCq := [], [], [], [];
      sender, receiver, pushing := SIdle, RIdle, false;
      view := InitEnd(Config(depth, slotSize - HEADER_SIZE, false), Blank(depth + CREDIT_SLOTS), Blank(depth));
      past := [view];
      new;
      FillPools();
      Opened();
      InitFields(Cfg(), Blank(depth + CREDIT_SLOTS), Blank(depth));
    }

    /** What the constructor's fields come to. */
    lemma Opened()
      requires Sized() && past == [view] && view == InitEnd(Cfg(), Blank(depth + CREDIT_SLOTS), Blank(depth))
      requires sendFree == Range(0, depth) && creditFree == Range(depth, depth + CREDIT_SLOTS) && recvQ == []
      requires sendDone == creditPending == 0 && !peerFin && !closed && !finSent && !pushing
      requires sender == SIdle && receiver == RIdle
      requires sq == [] && sendCq == recvCq == [] && RecvsPosted(slotSize, Range(0, depth), rq)
      ensures Lawful() && Pools() && Queues()
    {
      hide EndInv, IsPast, RecvsPosted, SendsPosted, SendsDone, Range, Blank, InitEnd;
      InitLawful(Cfg(), view);
      InitFields(Cfg(), Blank(depth + CREDIT_SLOTS), Blank(depth));
      NoneQueued(depth, slotSize, view.tx.mem);
    }

    /** The loops that hand out the send slots and post the receives. */
    method FillPools()
      requires sendFree == creditFree == [] && rq == []
      modifies this`sendFree, this`rq, this`creditFree
      ensures sendFree == Range(0, depth) && creditFree == Range(depth, depth + CREDIT_SLOTS)
      ensures RecvsPosted(slotSize, Range(0, depth), rq)
    {
      for i := 0 to depth
        invariant sendFree == Range(0, i) && RecvsPosted(slotSize, Range(0, i), rq)
        invariant creditFree == []
      {
        sendFree := sendFree + [i];
        rq := rq + [WR(i, i * slotSize, slotSize)];
        assert Range(0, i + 1) == Range(0, i) + [i];
      }
      for i := 0 to CREDIT_SLOTS
        invariant creditFree == Range(depth, depth + i)
        modifies this`creditFree
      {
        creditFree := creditFree + [depth + i];
      }
    }

    /** `newTransport` refuses slots with no room for payload and empty rings. */
    static method Create(slotSize: int, depth: int) returns (c: Created)
      requires depth < CREDIT_WRID_BASE
      ensures c.BadSizing? <==> slotSize <= HEADER_SIZE || depth <= 0
      ensures c.Created? ==>
                && c.transport.Valid() && fresh(c.transport)
                && var cfg := Config(depth, slotSize - HEADER_SIZE, false);
                   c.transport.view == InitEnd(cfg, Blank(depth + CREDIT_SLOTS), Blank(depth))
    {
      if slotSize <= HEADER_SIZE || depth <= 0 {
        return BadSizing;
      }
      var t := new Transport(slotSize, depth);
      c := Created(t);
    }

    ghost method Advance(m: Move)
      requires Sized() && Lawful() && CanMove(Cfg(), view, m)
      modifies this`view, this`past
      ensures Lawful() && Did(m)
    {
      hide EndInv, CanMove, Moved, IsPast;
      MoveKeeps(Cfg(), view, m);
      PastGrows(Cfg(), past, view, m);
      view := Moved(Cfg(), view, m);
      past := past + [view];
    }

    // --------------------------------------------------------------- sender

    method BeginSend(msgs: seq<Bytes>)
      requires Valid() && CanSendCall(view.tx, msgs)
      modifies this
      ensures Valid() && Took(OnTx(SendCall(msgs)))
    {
      hide EndInv, IsPast, Ring, AllFrames, SendsPosted, SendsDone, RecvsPosted;
      sender := SDrain(SendTask(AllFrames(msgs, payload), 0, 0));
      Advance(Take(OnTx(SendCall(msgs))));
    }

    /** The select of `drainSendDone`. */
    method TrySendDone() returns (ok: bool)
      requires Valid() && sender.SDrain?
      modifies this
      ensures Valid() && ok == (old(sendDone) > 0)
      ensures Took(OnTx(if ok then DrainToken else DrainEnd))
    {
      hide EndInv, IsPast, Ring, SendsPosted, SendsDone, RecvsPosted, RxApply, RxEnabled;
      ok := sendDone > 0;
      if ok {
        sendDone := sendDone - 1;
        sender := SDrain(sender.task.(done := sender.task.done + 1));
        Advance(Take(OnTx(DrainToken)));
      } else {
        sender := SAcquire(sender.task);
        Advance(Take(OnTx(DrainEnd)));
      }
    }

    /** The closed branch of a wait of the sender. */
    method GiveUp()
      requires Valid() && CanSendAbort(view.tx, closed)
      modifies this
      ensures Valid() && Took(OnTx(SendAbort))
    {
      hide EndInv, IsPast, Ring, SendsPosted, SendsDone, RecvsPosted, RxApply, RxEnabled;
      sender := if sender.SWait? then SIdle else SWait(Unfinished(sender.task));
      Advance(Take(OnTx(SendAbort)));
    }

    /** `credits.acquire`, up to its next wait. */
    method AcquireCredit() returns (g: Grant)
      requires Valid() && sender.SAcquire?
      modifies this, credits
      ensures Valid()
      ensures g == AcquireOn(Counter(old(view).tx.credits, old(view).tx.shut)).1
      ensures g.Granted? ==> Took(OnTx(TxStep.Acquire))
      ensures g.Refused? ==> old(closed) && Took(OnTx(SendAbort))
      ensures g.Waits? ==> view == old(view) && past == old(past)
    {
      hide EndInv, IsPast, Ring, SendsPosted, SendsDone, RecvsPosted, RxApply, RxEnabled;
      OpenIsSound(Cfg(), view);
      g := credits.Look();
      if g.Granted? {
        sender := SSlot(sender.task);
        Advance(Take(OnTx(TxStep.Acquire)));
      } else if g.Refused? {
        GiveUp();
      }
    }

    /** The select on `sendFree` and `closed`; when both are ready either may win. */
    method TakeSendSlot() returns (g: Grant)
      requires Valid() && sender.SSlot?
      modifies this
      ensures Valid()
      ensures g.Waits? <==> old(sendFree) == [] && !old(closed)
      ensures g.Granted? ==> Took(OnTx(TakeSlot))
      ensures g.Refused? ==> Took(OnTx(SendAbort))
      ensures g.Waits? ==> view == old(view) && past == old(past)
    {
      hide EndInv, IsPast, Ring, SendsPosted, SendsDone, RecvsPosted, RxApply, RxEnabled;
      if {
        case sendFree != [] =>
          sender := SPost(sender.task, sendFree[0]);
          sendFree := sendFree[1..];
          Advance(Take(OnTx(TakeSlot)));
          g := Granted;
        case closed =>
          GiveUp();
          g := Refused;
        case sendFree == [] && !closed =>
          g := Waits;
      }
    }

    /** The second half of `sendFrame`: header and payload into the slot, then the post. */
    method PostFrame(p: Bytes, more: bool)
      requires Valid() && sender.SPost? && sender.task.todo != [] && sender.task.todo[0] == Data(p, more)
      modifies this, sendBuf
      ensures Valid() && Took(OnTx(PostData))
    {
      hide EndInv, IsPast, Ring, SendsPosted, SendsDone, RecvsPosted, Apply, Enabled, HeaderBytes;
      HeldFits(Cfg(), view);
      PostDataKeeps(Cfg(), view);
      var task, slot := sender.task, sender.slot;
      ghost var f := task.todo[0];
      var h := Header(if more then 1 else 0, |p|);
      PostInto(slot, h, p, f);
      task := SendTask(task.todo[1..], task.posted + 1, task.done);
      sender := if task.todo != [] then SDrain(task) else SWait(Unfinished(task));
      Advance(Take(OnTx(PostData)));
    }

    /** Writes a frame into a send slot and posts it. */
    method PostInto(slot: nat, h: Header, p: Bytes, ghost f: Frame)
      requires Sized() && Queues() && Bytes() && FitsHeader(f) && FrameOk(Cfg(), f)
      requires FrameBytes(f) == HeaderBytes(h) + p
      requires slot < |view.tx.mem| && slot !in view.tx.sq
      modifies this`sq, sendBuf
      ensures Ring(sendBuf[..], slotSize, view.tx.mem[slot := f])
      ensures SendsPosted(depth, slotSize, view.tx.sq + [slot], view.tx.mem[slot := f], sq)
    {
      hide Ring, SendsPosted, SendsDone, RecvsPosted;
      RingWrite(sendBuf[..], slotSize, view.tx.mem, slot, f);
      SendsPostedSnoc(depth, slotSize, view.tx.sq, view.tx.mem, sq, slot, f);
      var off := slot * slotSize;
      WriteFrame(h, p, sendBuf, off);
      sq := sq + [WR(SendWrid(depth, slot), off, HEADER_SIZE + |p|)];
    }

    /** The select of `waitSends`; when both are ready either may win. */
    method WaitSendDone() returns (g: Grant)
      requires Valid() && sender.SWait? && sender.left > 0
      modifies this
      ensures Valid()
      ensures g.Waits? <==> old(sendDone) == 0 && !old(closed)
      ensures g.Granted? ==> Took(OnTx(WaitToken))
      ensures g.Refused? ==> Took(OnTx(SendAbort))
      ensures g.Waits? ==> view == old(view) && past == old(past)
    {
      hide EndInv, IsPast, Ring, SendsPosted, SendsDone, RecvsPosted, RxApply, RxEnabled;
      if {
        case sendDone > 0 =>
          sendDone := sendDone - 1;
          sender := SWait(sender.left - 1);
          Advance(Take(OnTx(WaitToken)));
          g := Granted;
        case closed =>
          GiveUp();
          g := Refused;
        case sendDone == 0 && !closed =>
          g := Waits;
      }
    }

    method FinishSend()
      requires Valid() && sender == SWait(0)
      modifies this
      ensures Valid() && Took(OnTx(SendReturn))
    {
      hide EndInv, IsPast, Ring, SendsPosted, SendsDone, RecvsPosted, RxApply, RxEnabled;
      sender := SIdle;
      Advance(Take(OnTx(SendReturn)));
    }

    // ------------------------------------------------- posts of control frames

    /** Takes a credit slot, writes a control frame into it and posts it. */
    method PostControlFrame(h: Header, ghost f: Frame)
      requires Valid() && creditFree != [] && FitsHeader(f) && FrameOk(Cfg(), f) && !f.Data? && h == HeaderOf(f)
      modifies this`sq, this`creditFree, sendBuf
      ensures CanPostControl(view.tx)
      ensures var t' := PostControl(view.tx, f);
              && creditFree == t'.ctrlFree && Ring(sendBuf[..], slotSize, t'.mem)
              && SendsPosted(depth, slotSize, t'.sq, t'.mem, sq)
    {
      hide EndInv, IsPast, Ring, SendsPosted, SendsDone, RecvsPosted, HeaderBytes;
      CreditSlotFits(Cfg(), view);
      var slot := creditFree[0];
      PostInto(slot, h, [], f);
      creditFree := creditFree[1..];
    }

    /** `sendFin`, once a credit slot is free. */
    method SendFin()
      requires Valid() && !closed && !finSent && creditFree != []
      modifies this, sendBuf
      ensures Valid() && Took(OnTx(PostFin))
    {
      hide EndInv, IsPast, Ring, SendsPosted, SendsDone, RecvsPosted, Apply, Enabled, PostControl;
      PostControlFrame(Header(4, 0), Fin);
      PostFinKeeps(Cfg(), view);
      finSent := true;
      Advance(Take(OnTx(PostFin)));
    }

    /** `returnCredit`: the select on `creditFree` and `closed`, then the post. */
    method ReturnCredit() returns (g: Grant)
      requires Valid() && receiver.RReturn?
      modifies this, sendBuf
      ensures Valid()
      ensures g.Waits? <==> old(creditFree) == [] && !old(closed)
      ensures g.Granted? ==> Took(PostCredit)
      ensures g.Refused? ==> Took(OnRx(DropCredit))
      ensures g.Waits? ==> view == old(view) && past == old(past)
    {
      hide EndInv, IsPast, Ring, SendsPosted, SendsDone, RecvsPosted, TxApply, TxEnabled;
      ReturnFits(Cfg(), view);
      if {
        case creditFree != [] =>
          PostReturn();
          g := Granted;
        case closed =>
          DropReturn();
          g := Refused;
        case creditFree == [] && !closed =>
          g := Waits;
      }
    }

    /** The closed branch of `returnCredit`: the credits are not returned. */
    method DropReturn()
      requires Valid() && receiver.RReturn? && closed
      modifies this
      ensures Valid() && Took(OnRx(DropCredit))
    {
      hide EndInv, IsPast, Ring, SendsPosted, SendsDone, RecvsPosted, TxApply, TxEnabled, Endpoint.Resume;
      ReturnFits(Cfg(), view);
      ghost var log := view.rx.log;
      Resume(receiver.after, receiver.call, view.rx.(log := log.(leak := log.leak + receiver.n)));
      Advance(Take(OnRx(DropCredit)));
    }

    method PostReturn()
      requires Valid() && receiver.RReturn? && creditFree != [] && FrameOk(Cfg(), Credit(receiver.n))
      modifies this, sendBuf
      ensures Valid() && Took(PostCredit)
    {
      hide EndInv, IsPast, Ring, SendsPosted, SendsDone, RecvsPosted, TxApply, TxEnabled, RxApply, RxEnabled;
      hide PostControl, Endpoint.Resume;
      var n := receiver.n;
      PostControlFrame(Header(2, n), Credit(n));
      PostControlKeeps(view.tx, Credit(n));
      Resume(receiver.after, receiver.call, view.rx);
      Advance(Take(PostCredit));
    }

    // ------------------------------------------------------------- receiver

    /** Where a receive goes on after a flush. */
    method Resume(after: AfterFlush, call: RecvCall, ghost r: Rx)
      requires r.pending == creditPending
      modifies this`receiver, this`creditPending
      ensures Endpoint.Resume(r, after, call) == r.(pending := creditPending, receiver := receiver)
    {
      match after {
        case ThenBlock => receiver := RBlock(call);
        case ThenReturn => receiver := RIdle;
        case ThenResume(complete) =>
          if !complete {
            receiver := RLoop(call);
          } else if !call.batch {
            receiver := RIdle;
          } else if call.got + 1 < call.want {
            receiver := RLoop(call.(got := call.got + 1));
          } else {
            FlushCredits(ThenReturn, call.(got := call.got + 1), r);
          }
      }
    }

    /** `flushCreditsLocked`: nothing pending, nothing to send. */
    method FlushCredits(after: AfterFlush, call: RecvCall, ghost r: Rx)
      requires r.pending == creditPending && !after.ThenResume?
      modifies this`receiver, this`creditPending
      ensures Flush(r, after, call) == r.(pending := creditPending, receiver := receiver)
    {
      if creditPending > 0 {
        var n := creditPending;
        creditPending := 0;
        receiver := RReturn(n, after, call);
      } else {
        receiver := if after.ThenBlock? then RBlock(call) else RIdle;
      }
    }

    method BeginReceive(batch: bool, max: int)
      requires Valid() && receiver.RIdle?
      modifies this
      ensures Valid() && Took(OnRx(RecvStart(batch, max)))
    {
      hide EndInv, IsPast, Ring, SendsPosted, SendsDone, RecvsPosted, TxApply, TxEnabled;
      receiver := RLoop(RecvCall(batch, if batch && max > 1 then max else 1, 0));
      Advance(Take(OnRx(RecvStart(batch, max))));
    }

    method TakeHead()
      requires Valid() && CanTakeFrame(view.rx)
      modifies this
      ensures Valid() && Took(OnRx(TakeFrame))
    {
      hide EndInv, IsPast, Ring, SendsPosted, SendsDone, RecvsPosted, TxApply, TxEnabled;
      receiver := RTake(recvQ[0], receiver.call);
      recvQ := recvQ[1..];
      Advance(Take(OnRx(TakeFrame)));
    }

    /** The non-blocking select of `nextMessage` and `tryNextMessage`; an empty queue flushes credits. */
    method TryFrame() returns (ok: bool)
      requires Valid() && receiver.RLoop?
      modifies this
      ensures Valid() && ok == (old(recvQ) != [])
      ensures Took(OnRx(if ok then TakeFrame else FindEmpty))
    {
      hide EndInv, IsPast, Ring, SendsPosted, SendsDone, RecvsPosted, TxApply, TxEnabled;
      ok := recvQ != [];
      if ok {
        TakeHead();
      } else {
        FlushCredits(if receiver.call.got == 0 then ThenBlock else ThenReturn, receiver.call, view.rx);
        Advance(Take(OnRx(FindEmpty)));
      }
    }

    /** The blocking select: a frame, the end, close, or a wait. Among ready branches any may win. */
    method SelectFrame() returns (s: RxStep, waits: bool)
      requires Valid() && receiver.RBlock?
      modifies this
      ensures Valid()
      ensures waits <==> old(recvQ) == [] && !old(peerFin) && !old(closed)
      ensures !waits ==> (s.TakeFrame? || s.SeeFin? || s.RecvAbort?) && Took(OnRx(s))
      ensures waits ==> view == old(view) && past == old(past)
    {
      hide EndInv, IsPast, Ring, SendsPosted, SendsDone, RecvsPosted, TxApply, TxEnabled;
      s, waits := TakeFrame, false;
      if {
        case recvQ != [] =>
          TakeHead();
        case peerFin =>
          receiver := RFin(receiver.call);
          s := SeeFin;
          Advance(Take(OnRx(SeeFin)));
        case closed =>
          receiver := RIdle;
          s := RecvAbort;
          Advance(Take(OnRx(RecvAbort)));
        case recvQ == [] && !peerFin && !closed =>
          waits := true;
      }
    }

    /** The select after `peerFin`: a frame that raced in ahead of the FIN, or the end. */
    method SelectAfterFin() returns (ok: bool)
      requires Valid() && receiver.RFin?
      modifies this
      ensures Valid() && ok == (old(recvQ) != [])
      ensures Took(OnRx(if ok then TakeFrame else ReturnEof))
    {
      hide EndInv, IsPast, Ring, SendsPosted, SendsDone, RecvsPosted, TxApply, TxEnabled;
      ok := recvQ != [];
      if ok {
        TakeHead();
      } else {
        receiver := RIdle;
        Advance(Take(OnRx(ReturnEof)));
      }
    }

    /** What reassembling the frame in hand completes. */
    twostate predicate Yields(added: Added)
      reads this
    {
      CanConsume(old(view).rx) && added == Reassembled(old(view).rx).1
    }

    /** `consumeFrameLocked`: reassemble out of the ring, repost the slot, count the credit. */
    method ConsumeFrame() returns (added: Added)
      requires Valid() && receiver.RTake?
      modifies this, reasm
      ensures Valid() && Took(OnRx(Consume)) && Yields(added)
    {
      hide EndInv, IsPast, Ring, SendsPosted, SendsDone, RecvsPosted, TxApply, TxEnabled, Reassembled, DoConsume;
      TakenBacked(Cfg(), view);
      ConsumeKeeps(Cfg(), view.rx);
      added := ReassembleAndRelease();
      Advance(Take(OnRx(Consume)));
    }

    method ReassembleAndRelease() returns (added: Added)
      requires Valid() && receiver.RTake?
      modifies this`rq, this`receiver, this`creditPending, reasm
      ensures CanConsume(view.rx) && added == Reassembled(view.rx).1
      ensures var r' := DoConsume(Cfg(), view.rx);
              && RecvsPosted(slotSize, r'.rq, rq) && reasm.State() == r'.reasm
              && creditPending == r'.pending && receiver == r'.receiver
    {
      hide EndInv, IsPast, Ring, SendsPosted, SendsDone, RecvsPosted, Reassembled, Flush, Endpoint.Resume;
      TakenBacked(Cfg(), view);
      ReassembledKeeps(view.rx);
      var call := receiver.call;
      added := Reassemble();
      ReleaseCredit(if added.TooLarge? then ThenReturn else ThenResume(added.Complete?), call, Reassembled(view.rx).0);
    }

    /** Up to the repost. */
    method Reassemble() returns (added: Added)
      requires Valid() && receiver.RTake?
      modifies this`rq, reasm
      ensures CanConsume(view.rx)
      ensures added == Reassembled(view.rx).1 && reasm.State() == Reassembled(view.rx).0.reasm
      ensures RecvsPosted(slotSize, Reassembled(view.rx).0.rq, rq)
    {
      hide EndInv, IsPast, Ring, SendsPosted, SendsDone, RecvsPosted, PayloadIn, AddFragment;
      TakenBacked(Cfg(), view);
      var fr := receiver.frame;
      var p := PayloadOf(fr);
      added := reasm.Add(p, fr.more);
      PostRecv(fr.slot);
    }

    /** The payload behind the header of a received slot. */
    method PayloadOf(fr: RecvFrame) returns (p: Bytes)
      requires Ring(recvBuf[..], slotSize, view.rx.mem) && Backed(Cfg(), view.rx.mem, fr)
      ensures p == PayloadIn(view.rx.mem, fr)
    {
      RingRead(recvBuf[..], slotSize, view.rx.mem, fr.slot);
      var off := fr.slot * slotSize + HEADER_SIZE;
      p := recvBuf[off..off + fr.n];
    }

    method PostRecv(slot: nat)
      requires RecvsPosted(slotSize, view.rx.rq, rq)
      modifies this`rq
      ensures RecvsPosted(slotSize, view.rx.rq + [slot], rq)
    {
      rq := rq + [WR(slot, slot * slotSize, slotSize)];
    }

    /** `releaseCreditLocked(1)`. */
    method ReleaseCredit(after: AfterFlush, call: RecvCall, ghost r: Rx)
      requires Sized() && r.pending == creditPending + 1 && !after.ThenBlock?
      modifies this`receiver, this`creditPending
      ensures (if r.pending >= Cfg().Threshold() then Flush(r, after, call) else Endpoint.Resume(r, after, call))
              == r.(pending := creditPending, receiver := receiver)
    {
      creditPending := creditPending + 1;
      if creditPending >= Cfg().Threshold() {
        var n := creditPending;
        creditPending := 0;
        receiver := RReturn(n, after, call);
      } else {
        Resume(after, call, r);
      }
    }

    // --------------------------------------------------------------- poller

    /** `dispatch` of a send completion: the channel has room, so only `closed` can win over it. */
    method DispatchSend() returns (kept: bool)
      requires Valid() && !pushing && sendCq != []
      modifies this
      ensures Valid() && (!kept ==> old(closed))
      ensures Took(OnTx(if kept then PollSend else DropSend))
    {
      hide EndInv, IsPast, Ring, SendsPosted, SendsDone, RecvsPosted, RxApply, RxEnabled;
      PoolsHaveRoom(Cfg(), view);
      SendDoneHead(depth, view.tx.cq, sendCq);
      WridRoutes(depth, view.tx.cq[0]);
      var wrid := sendCq[0];
      if wrid >= CREDIT_WRID_BASE {
        kept := FreeCreditSlot(wrid - CREDIT_WRID_BASE + depth);
      } else {
        kept := FreeDataSlot(wrid);
      }
    }

    method FreeCreditSlot(slot: nat) returns (kept: bool)
      requires Valid() && !pushing && sendCq != [] && view.tx.cq != [] && slot == view.tx.cq[0] >= depth
      requires |creditFree| < CREDIT_SLOTS && SendsDone(depth, view.tx.cq[1..], sendCq[1..])
      modifies this
      ensures Valid() && (!kept ==> old(closed))
      ensures Took(OnTx(if kept then PollSend else DropSend))
    {
      hide EndInv, IsPast, Ring, SendsPosted, SendsDone, RecvsPosted, RxApply, RxEnabled;
      sendCq := sendCq[1..];
      if {
        case true =>
          creditFree := creditFree + [slot];
          Advance(Take(OnTx(PollSend)));
          kept := true;
        case closed =>
          Advance(Take(OnTx(DropSend)));
          kept := false;
      }
    }

    method FreeDataSlot(slot: nat) returns (kept: bool)
      requires Valid() && !pushing && sendCq != [] && view.tx.cq != [] && slot == view.tx.cq[0] < depth
      requires |sendFree| < depth && SendsDone(depth, view.tx.cq[1..], sendCq[1..])
      modifies this
      ensures Valid() && (!kept ==> old(closed))
      ensures Took(OnTx(if kept then PollSend else DropSend))
    {
      hide EndInv, IsPast, Ring, SendsPosted, SendsDone, RecvsPosted, RxApply, RxEnabled;
      if {
        case true =>
          sendFree := sendFree + [slot];
          sendCq := sendCq[1..];
          pushing := true;
          Advance(Take(OnTx(PollSend)));
          kept := true;
        case closed =>
          LoseDataSlot();
          kept := false;
      }
    }

    method LoseDataSlot()
      requires Valid() && closed && !pushing && sendCq != [] && view.tx.cq != [] && view.tx.cq[0] < depth
      requires SendsDone(depth, view.tx.cq[1..], sendCq[1..])
      modifies this
      ensures Valid() && Took(OnTx(DropSend))
    {
      hide EndInv, IsPast, Ring, SendsPosted, SendsDone, RecvsPosted, RxApply, RxEnabled;
      sendCq := sendCq[1..];
      pushing := true;
      Advance(Take(OnTx(DropSend)));
    }

    /** The second select of the data-send case: the token, which waits while `sendDone` is full. */
    method PushSendDone() returns (g: Grant)
      requires Valid() && pushing
      modifies this
      ensures Valid()
      ensures g.Waits? <==> old(sendDone) >= depth && !old(closed)
      ensures g.Granted? ==> Took(OnTx(PushToken))
      ensures g.Refused? ==> Took(OnTx(DropToken))
      ensures g.Waits? ==> view == old(view) && past == old(past)
    {
      hide EndInv, IsPast, Ring, SendsPosted, SendsDone, RecvsPosted, RxApply, RxEnabled;
      if {
        case sendDone < depth =>
          pushing, sendDone := false, sendDone + 1;
          Advance(Take(OnTx(PushToken)));
          g := Granted;
        case closed =>
          pushing := false;
          Advance(Take(OnTx(DropToken)));
          g := Refused;
        case sendDone >= depth && !closed =>
          g := Waits;
      }
    }

    /** `dispatch` of a receive completion: decode the header in the ring and route by its flags. */
    method DispatchRecv() returns (kept: bool)
      requires Valid() && !pushing && recvCq != []
      modifies this, credits
      ensures Valid() && (!kept ==> old(closed))
      ensures Took(if kept then PollRecv else OnRx(DropRecv))
    {
      hide EndInv, IsPast, Ring, SendsPosted, SendsDone, RecvsPosted, TxApply, TxEnabled, RxApply, RxEnabled;
      PoolsHaveRoom(Cfg(), view);
      var slot := recvCq[0];
      var hdr := HeaderAt(slot);
      kept := true;
      if hdr.IsCredit() {
        RouteCredit(slot, hdr.value);
      } else if hdr.IsFin() {
        RouteFin(slot);
      } else {
        kept := RouteData(slot, hdr);
      }
    }

    /** `decodeHeader` on the slot: never too short, and the header of the frame that landed there. */
    method HeaderAt(slot: nat) returns (h: Header)
      requires Ring(recvBuf[..], slotSize, view.rx.mem) && slot < |view.rx.mem|
      ensures match view.rx.mem[slot]
              case Data(p, more) => !h.IsCredit() && !h.IsFin() && h.HasMore() == more && h.value == |p|
              case Credit(n) => h.IsCredit() && h.value == n
              case Fin => !h.IsCredit() && h.IsFin()
    {
      RingRead(recvBuf[..], slotSize, view.rx.mem, slot);
      var d := DecodeHeader(recvBuf[slot * slotSize..]);
      h := d.header;
    }

    method RouteCredit(slot: nat, n: nat)
      requires Valid() && !pushing && recvCq != [] && slot == recvCq[0] < |view.rx.mem|
      requires view.rx.mem[slot] == Credit(n)
      modifies this, credits
      ensures Valid() && Took(PollRecv)
    {
      hide EndInv, IsPast, Ring, SendsPosted, SendsDone, RecvsPosted, TxApply, TxEnabled, RxApply, RxEnabled;
      recvCq := recvCq[1..];
      credits.Release(n);
      PostRecv(slot);
      Advance(Take(PollRecv));
    }

    method RouteFin(slot: nat)
      requires Valid() && !pushing && recvCq != [] && slot == recvCq[0] < |view.rx.mem| && view.rx.mem[slot].Fin?
      modifies this
      ensures Valid() && Took(PollRecv)
    {
      hide EndInv, IsPast, Ring, SendsPosted, SendsDone, RecvsPosted, TxApply, TxEnabled, RxApply, RxEnabled;
      recvCq := recvCq[1..];
      peerFin := true;
      PostRecv(slot);
      Advance(Take(PollRecv));
    }

    method RouteData(slot: nat, hdr: Header) returns (kept: bool)
      requires Valid() && !pushing && recvCq != [] && slot == recvCq[0] < |view.rx.mem| && |recvQ| < depth
      requires view.rx.mem[slot].Data? && hdr.HasMore() == view.rx.mem[slot].more
      requires hdr.value == |view.rx.mem[slot].payload|
      modifies this
      ensures Valid() && (!kept ==> old(closed))
      ensures Took(if kept then PollRecv else OnRx(DropRecv))
    {
      hide EndInv, IsPast, Ring, SendsPosted, SendsDone, RecvsPosted, TxApply, TxEnabled;
      recvCq := recvCq[1..];
      if {
        case true =>
          recvQ := recvQ + [RecvFrame(slot, hdr.HasMore(), hdr.value)];
          Advance(Take(PollRecv));
          kept := true;
        case closed =>
          Advance(Take(OnRx(DropRecv)));
          kept := false;
      }
    }

    /** `close`, its first half: the channel. */
    method Close()
      requires Valid()
      modifies this
      ensures Valid() && Took(Step.Close)
    {
      hide EndInv, IsPast, Ring, SendsPosted, SendsDone, RecvsPosted, TxApply, TxEnabled, RxApply, RxEnabled;
      closed := true;
      Advance(Take(Step.Close));
    }

    /** The second half: the credit tracker. */
    method CloseCredits()
      requires Valid() && closed && !credits.closed
      modifies this, credits
      ensures Valid() && Took(Step.CloseCredits)
    {
      hide EndInv, IsPast, Ring, SendsPosted, SendsDone, RecvsPosted, TxApply, TxEnabled, RxApply, RxEnabled;
      credits.Close();
      Advance(Take(Step.CloseCredits));
    }

    // --------------------------------------------------------------- device

    /** The device sends the bytes of the oldest posted send, read when the peer takes them. */
    method SendHead() returns (bytes: Bytes)
      requires Valid() && sq != []
      modifies this
      ensures Valid() && Did(HeadAccepted)
      ensures old(view).tx.sq != [] && old(view).tx.sq[0] < |old(view).tx.mem|
      ensures var f := HeadFrame(old(view).tx); FitsHeader(f) && FrameOk(Cfg(), f) && bytes == FrameBytes(f)
    {
      hide EndInv, IsPast, Ring, SendsPosted, SendsDone, RecvsPosted;
      ReturnFits(Cfg(), view);
      SendsPostedHead(depth, slotSize, view.tx.sq, view.tx.mem, sq);
      ghost var slot := view.tx.sq[0];
      RingRead(sendBuf[..], slotSize, view.tx.mem, slot);
      var wr := sq[0];
      bytes := sendBuf[wr.off..wr.off + wr.len];
      SendsDoneSnoc(depth, view.tx.cq, sendCq, slot);
      sq, sendCq := sq[1..], sendCq + [wr.wrid];
      Advance(HeadAccepted);
    }

    /** The device writes an inbound frame into the oldest posted receive; the rest of the slot is stale. */
    method Land(bytes: Bytes, ghost f: Frame)
      requires Valid() && rq != [] && FitsHeader(f) && FrameOk(Cfg(), f) && bytes == FrameBytes(f)
      modifies this, recvBuf
      ensures Valid() && Did(Arrives(f))
    {
      hide EndInv, IsPast, Ring, SendsPosted, SendsDone, RecvsPosted;
      ReturnFits(Cfg(), view);
      RecvsPostedHead(slotSize, view.rx.rq, rq);
      ghost var slot := view.rx.rq[0];
      RingWrite(recvBuf[..], slotSize, view.rx.mem, slot, f);
      var wr := rq[0];
      Copy(bytes, recvBuf, wr.off);
      rq, recvCq := rq[1..], recvCq + [wr.wrid];
      Advance(Arrives(f));
    }
  }

  /** The wire: the bytes one transport posted land in the other, as the frame they encode. */
  method CarryHead(x: Transport, y: Transport)
    requires x.Valid() && y.Valid() && Disjoint(x, y) && x.sq != [] && y.rq != [] && x.Cfg() == y.Cfg()
    modifies x, y, y.recvBuf
    ensures x.Valid() && y.Valid() && CanDeliver(old(x.view), old(y.view))
    ensures x.view == old(x.view).(tx := Accepted(old(x.view).tx))
    ensures y.view == old(y.view).(rx := Landed(old(y.view).rx, HeadFrame(old(x.view).tx)))
  {
    hide EndInv, IsPast, Ring, SendsPosted, SendsDone, RecvsPosted;
    var bytes := x.SendHead();
    y.Land(bytes, HeadFrame(old(x.view).tx));
  }

  /** The two transports share nothing. */
  ghost predicate Disjoint(x: Transport, y: Transport) {
    && x != y && x.credits != y.credits && x.reasm != y.reasm
    && {x.sendBuf, x.recvBuf} !! {y.sendBuf, y.recvBuf}
  }
}
