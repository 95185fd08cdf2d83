/**
 * One side of a connection as a value, and the atomic steps of its goroutines as functions on it
 * (rdmanet/transport_linux.go, rdmanet/credit.go). A step is what one goroutine does between two
 * points at which another one, or the device, can interfere. `Transport` proves that the method
 * bodies take these steps on byte rings; `Protocol` runs two sides against each other.
 */
module Endpoint {
  import opened Words

  import opened Framing

  const CREDIT_SLOTS: nat := 4
  const MAX_MESSAGE: nat := 64 * 1024 * 1024

  /**
   * `depth` data slots, `chunk` payload bytes a slot. With `atomicDispatch` the poller frees a data
   * slot and pushes its token in one step; without it these are two steps, as in the code.
   */
  datatype Config = Config(depth: nat, chunk: nat, atomicDispatch: bool) {
    ghost predicate Valid() { 0 < depth < 0x1_0000_0000 && chunk > 0 }
    function SendSlots(): nat { depth + CREDIT_SLOTS }
    function Threshold(): nat { if depth / 2 < 1 then 1 else depth / 2 }
  }

  /** A send call under `sendMu`: frames still to post, frames posted, tokens taken. */
  datatype SendTask = SendTask(todo: seq<Frame>, posted: nat, done: nat)

  datatype Sender =
    | SIdle
    | SDrain(task: SendTask)             // in drainSendDone
    | SAcquire(task: SendTask)           // in credits.acquire
    | SSlot(task: SendTask)              // waiting for a free data slot
    | SPost(task: SendTask, slot: nat)   // slot in hand
    | SWait(left: nat)                   // in waitSends

  /** A data frame in `recvQ`: its slot, and the header decoded by the poller. */
  datatype RecvFrame = RecvFrame(slot: nat, more: bool, n: nat)

  /** A receive call under `recvMu`: `recvBatch` with its limit, or one message. */
  datatype RecvCall = RecvCall(batch: bool, want: nat, got: nat)

  datatype AfterFlush = ThenBlock | ThenResume(complete: bool) | ThenReturn

  datatype Receiver =
    | RIdle
    | RLoop(call: RecvCall)                                  // non-blocking select
    | RBlock(call: RecvCall)                                 // blocking select
    | RFin(call: RecvCall)                                   // select after peerFin fired
    | RTake(frame: RecvFrame, call: RecvCall)                // frame in hand
    | RReturn(n: nat, after: AfterFlush, call: RecvCall)     // in returnCredit

  /** What happened so far; no step reads a log. */
  datatype TxLog = TxLog(
    accepted: seq<Bytes>,      // messages of all send calls, in call order
    finished: nat,             // how many of them had their call return nil
    aborted: bool,             // some send call gave up on a closed transport
    torn: bool,                // and left frames of its messages unposted
    again: bool,               // a send call started after one had given up
    sound: int,                // data frames posted before the first one behind unposted ones, or -1
    stream: seq<Frame>,        // frames posted, in order
    finAt: int,                // `finished` when FIN was posted, or -1
    finClean: bool,            // FIN was posted between calls and no call started since
    lostData: seq<nat>, lostCtrl: seq<nat>,   // slots dropped after close
    leak: nat)                                // credits dropped after close

  datatype RxLog = RxLog(
    dispatched: seq<Frame>,    // frames handled by the poller, in order
    consumed: seq<Frame>,      // data frames reassembled, in order
    delivered: seq<Bytes>,     // messages reassembled, in order
    eof: bool,                 // a receive returned io.EOF on an open transport
    lost: seq<nat>,            // slots dropped after close
    leak: nat)                 // credits dropped after close

  /** The sending half: its posted and completed sends, ring, pools and credits. */
  datatype Tx = Tx(
    sq: seq<nat>,           // send slots posted and not yet accepted by the peer: the outgoing wire
    cq: seq<nat>,           // send slots whose completion waits in the queue
    mem: seq<Frame>,        // what each send slot holds
    free: seq<nat>, ctrlFree: seq<nat>,
    tokens: nat,            // length of sendDone
    pushing: bool,          // the poller freed a slot and still holds its token
    credits: nat,
    shut: bool,             // the credit tracker is closed
    sender: Sender,
    log: TxLog)

  /** The receiving half. */
  datatype Rx = Rx(
    rq: seq<nat>,           // receive slots posted
    cq: seq<nat>,           // receive slots whose completion waits in the queue
    mem: seq<Frame>,        // what each receive slot holds
    queue: seq<RecvFrame>,  // recvQ
    pending: nat, reasm: Reasm, peerFin: bool,
    receiver: Receiver,
    log: RxLog)

  datatype End = End(tx: Tx, rx: Rx, closed: bool)

  function Range(lo: nat, hi: nat): seq<nat>
    requires lo <= hi
  {
    seq(hi - lo, i requires 0 <= i => lo + i)
  }

  /** `newTransport`: every send slot free, every receive slot posted, `depth` credits. */
  function InitEnd(cfg: Config, sendMem: seq<Frame>, recvMem: seq<Frame>): End {
    End(Tx([], [], sendMem, Range(0, cfg.depth), Range(cfg.depth, cfg.SendSlots()), 0, false,
           cfg.depth, false, SIdle, TxLog([], 0, false, false, false, -1, [], -1, false, [], [], 0)),
        Rx(Range(0, cfg.depth), [], recvMem, [], 0, Reasm([], false), false,
           RIdle, RxLog([], [], [], false, [], 0)),
        false)
  }

  // ----------------------------------------------------------------- sender

  function PostFrame(t: Tx, slot: nat, f: Frame): Tx
    requires slot < |t.mem|
  {
    t.(mem := t.mem[slot := f], sq := t.sq + [slot], log := t.log.(stream := t.log.stream + [f]))
  }

  /** `sendMsg` is a batch of one. */
  predicate CanSendCall(t: Tx, msgs: seq<Bytes>) {
    t.sender.SIdle? && msgs != [] && forall m :: m in msgs ==> |m| <= MAX_MESSAGE
  }
  function DoSendCall(cfg: Config, t: Tx, msgs: seq<Bytes>): Tx
    requires cfg.chunk > 0
  {
    t.(sender := SDrain(SendTask(AllFrames(msgs, cfg.chunk), 0, 0)),
       log := t.log.(accepted := t.log.accepted + msgs, again := t.log.again || t.log.aborted, finClean := false))
  }

  predicate CanDrainToken(t: Tx) { t.sender.SDrain? && t.tokens > 0 }
  function DoDrainToken(t: Tx): Tx
    requires CanDrainToken(t)
  {
    t.(tokens := t.tokens - 1, sender := SDrain(t.sender.task.(done := t.sender.task.done + 1)))
  }

  predicate CanDrainEnd(t: Tx) { t.sender.SDrain? && t.tokens == 0 }
  function DoDrainEnd(t: Tx): Tx
    requires CanDrainEnd(t)
  {
    t.(sender := SAcquire(t.sender.task))
  }

  /** `close` closes the channel first and the credit tracker second; until then credits can be had. */
  predicate CanAcquire(t: Tx, closed: bool) { t.sender.SAcquire? && t.credits > 0 && !(closed && t.shut) }
  function DoAcquire(t: Tx): Tx
    requires CanAcquire(t, false)
  {
    t.(credits := t.credits - 1, sender := SSlot(t.sender.task))
  }

  predicate CanTakeSlot(t: Tx) { t.sender.SSlot? && t.free != [] }
  function DoTakeSlot(t: Tx): Tx
    requires CanTakeSlot(t)
  {
    t.(free := t.free[1..], sender := SPost(t.sender.task, t.free[0]))
  }

  predicate CanPostData(t: Tx) {
    t.sender.SPost? && t.sender.task.todo != [] && t.sender.slot < |t.mem|
  }
  function DoPostData(t: Tx): Tx
    requires CanPostData(t)
  {
    var task := t.sender.task;
    var task' := SendTask(task.todo[1..], task.posted + 1, task.done);
    var t' := PostFrame(t, t.sender.slot, task.todo[0]);
    t'.(sender := if task'.todo != [] then SDrain(task') else SWait(Unfinished(task')),
        log := t'.log.(sound := if t.log.torn && t.log.sound < 0 then |DataOf(t.log.stream)| else t.log.sound))
  }

  /** The argument of `waitSends`, for which anything below zero is zero. */
  function Unfinished(task: SendTask): nat {
    if task.posted > task.done then task.posted - task.done else 0
  }

  predicate CanWaitToken(t: Tx) { t.sender.SWait? && t.sender.left > 0 && t.tokens > 0 }
  function DoWaitToken(t: Tx): Tx
    requires CanWaitToken(t)
  {
    t.(tokens := t.tokens - 1, sender := SWait(t.sender.left - 1))
  }

  predicate CanSendReturn(t: Tx) { t.sender.SWait? && t.sender.left == 0 }
  function DoSendReturn(t: Tx): Tx
    requires CanSendReturn(t)
  {
    t.(sender := SIdle, log := if t.log.aborted then t.log else t.log.(finished := |t.log.accepted|))
  }

  /**
   * On a closed transport every wait of the sender can give up, the one for a credit once the tracker is
   * closed too: while posting it goes on to wait out its posted frames (a credit in hand is lost), while
   * waiting it returns.
   */
  predicate CanSendAbort(t: Tx, closed: bool) {
    closed && ((t.sender.SAcquire? && t.shut) || t.sender.SSlot? || (t.sender.SWait? && t.sender.left > 0))
  }
  function DoSendAbort(t: Tx): Tx
    requires CanSendAbort(t, true)
  {
    t.(sender := if t.sender.SWait? then SIdle else SWait(Unfinished(t.sender.task)),
       log := t.log.(aborted := true, torn := t.log.torn || !t.sender.SWait?,
                     leak := t.log.leak + if t.sender.SSlot? then 1 else 0))
  }

  // --------------------------------------------------- posts of control frames

  predicate CanPostControl(t: Tx) { t.ctrlFree != [] && t.ctrlFree[0] < |t.mem| }
  function PostControl(t: Tx, f: Frame): Tx
    requires CanPostControl(t)
  {
    PostFrame(t, t.ctrlFree[0], f).(ctrlFree := t.ctrlFree[1..])
  }

  /** `sendFin`: once, on an open transport. */
  predicate CanPostFin(t: Tx, closed: bool) { t.log.finAt < 0 && !closed && CanPostControl(t) }
  function DoPostFin(t: Tx): Tx
    requires CanPostControl(t)
  {
    var t1 := PostControl(t, Fin);
    t1.(log := t1.log.(finAt := t.log.finished, finClean := t.sender.SIdle?))
  }

  // --------------------------------------------------------------- receiver

  predicate CanRecvCall(r: Rx) { r.receiver.RIdle? }
  /** `max <= 0` is treated as 1; a plain receive wants one message. */
  function DoRecvCall(r: Rx, batch: bool, max: int): Rx {
    r.(receiver := RLoop(RecvCall(batch, if batch && max > 1 then max else 1, 0)))
  }

  /** Takes the head of `recvQ`, from any of the three selects. */
  predicate CanTakeFrame(r: Rx) {
    (r.receiver.RLoop? || r.receiver.RBlock? || r.receiver.RFin?) && r.queue != []
  }
  function DoTakeFrame(r: Rx): Rx
    requires CanTakeFrame(r)
  {
    r.(queue := r.queue[1..], receiver := RTake(r.queue[0], r.receiver.call))
  }

  /** `flushCreditsLocked`, then `after`. */
  function Flush(r: Rx, after: AfterFlush, call: RecvCall): Rx {
    if r.pending > 0 then r.(pending := 0, receiver := RReturn(r.pending, after, call))
    else Resume(r, after, call)
  }

  function Resume(r: Rx, after: AfterFlush, call: RecvCall): Rx {
    match after
    case ThenBlock => r.(receiver := RBlock(call))
    case ThenReturn => r.(receiver := RIdle)
    case ThenResume(complete) =>
      if !complete then r.(receiver := RLoop(call))
      else if !call.batch then r.(receiver := RIdle)
      else if call.got + 1 < call.want then r.(receiver := RLoop(call.(got := call.got + 1)))
      else if r.pending > 0 then
        r.(pending := 0, receiver := RReturn(r.pending, ThenReturn, call.(got := call.got + 1)))
      else r.(receiver := RIdle)
  }

  /** The default branch: `nextMessage` goes on to block, `tryNextMessage` ends the batch. */
  predicate CanFindEmpty(r: Rx) { r.receiver.RLoop? && r.queue == [] }
  function DoFindEmpty(r: Rx): Rx
    requires CanFindEmpty(r)
  {
    Flush(r, if r.receiver.call.got == 0 then ThenBlock else ThenReturn, r.receiver.call)
  }

  predicate CanSeeFin(r: Rx) { r.receiver.RBlock? && r.peerFin }
  function DoSeeFin(r: Rx): Rx
    requires CanSeeFin(r)
  {
    r.(receiver := RFin(r.receiver.call))
  }

  predicate CanReturnEof(r: Rx) { r.receiver.RFin? && r.queue == [] }
  function DoReturnEof(r: Rx, closed: bool): Rx
    requires CanReturnEof(r)
  {
    r.(receiver := RIdle, log := r.log.(eof := r.log.eof || !closed))
  }

  /** The payload `consumeFrameLocked` slices out of the receive ring. */
  function PayloadIn(mem: seq<Frame>, fr: RecvFrame): Bytes
    requires fr.slot < |mem|
  {
    var f := mem[fr.slot];
    if f.Data? && fr.n <= |f.payload| then f.payload[..fr.n] else []
  }

  /** `consumeFrameLocked`: reassemble, repost the slot, count the credit, maybe start a flush. */
  predicate CanConsume(r: Rx) { r.receiver.RTake? && r.receiver.frame.slot < |r.mem| }
  function Reassembled(r: Rx): (Rx, Added)
    requires CanConsume(r)
  {
    var fr := r.receiver.frame;
    var payload := PayloadIn(r.mem, fr);
    var (acc, added) := AddFragment(r.reasm, MAX_MESSAGE, payload, fr.more);
    (r.(reasm := acc, rq := r.rq + [fr.slot], pending := r.pending + 1,
        log := r.log.(consumed := r.log.consumed + [Data(payload, fr.more)],
                      delivered := if added.Complete? then r.log.delivered + [added.msg] else r.log.delivered)),
     added)
  }
  function DoConsume(cfg: Config, r: Rx): Rx
    requires CanConsume(r)
  {
    var (r1, added) := Reassembled(r);
    var after := if added.TooLarge? then ThenReturn else ThenResume(added.Complete?);
    if r1.pending >= cfg.Threshold() then Flush(r1, after, r.receiver.call)
    else Resume(r1, after, r.receiver.call)
  }

  /** `returnCredit` has posted, or given up on a closed transport: its credits are then lost. */
  function CreditPosted(r: Rx): Rx
    requires r.receiver.RReturn?
  {
    Resume(r, r.receiver.after, r.receiver.call)
  }
  function DoDropCredit(r: Rx): Rx
    requires r.receiver.RReturn?
  {
    CreditPosted(r.(log := r.log.(leak := r.log.leak + r.receiver.n)))
  }

  predicate CanRecvAbort(r: Rx, closed: bool) { r.receiver.RBlock? && closed }
  function DoRecvAbort(r: Rx): Rx { r.(receiver := RIdle) }

  // ----------------------------------------------------------------- poller

  /** A send completion: a data slot frees and owes a token, a credit slot just frees. */
  predicate CanPollSend(cfg: Config, t: Tx) {
    && !t.pushing && t.cq != []
    && (if t.cq[0] < cfg.depth
        then |t.free| < cfg.depth && (cfg.atomicDispatch ==> t.tokens < cfg.depth)
        else |t.ctrlFree| < CREDIT_SLOTS)
  }
  function DoPollSend(cfg: Config, t: Tx): Tx
    requires t.cq != []
  {
    var slot := t.cq[0];
    if slot >= cfg.depth then t.(cq := t.cq[1..], ctrlFree := t.ctrlFree + [slot])
    else if cfg.atomicDispatch then t.(cq := t.cq[1..], free := t.free + [slot], tokens := t.tokens + 1)
    else t.(cq := t.cq[1..], free := t.free + [slot], pushing := true)
  }

  predicate CanPushToken(cfg: Config, t: Tx) { t.pushing && t.tokens < cfg.depth }
  function DoPushToken(t: Tx): Tx { t.(pushing := false, tokens := t.tokens + 1) }

  /** A receive completion, routed by the flags of its header. */
  predicate CanPollRecv(cfg: Config, t: Tx, r: Rx) {
    && !t.pushing && r.cq != [] && r.cq[0] < |r.mem|
    && (r.mem[r.cq[0]].Data? ==> |r.queue| < cfg.depth)
  }
  function DoPollRecv(r: Rx): Rx
    requires r.cq != [] && r.cq[0] < |r.mem|
  {
    var slot := r.cq[0];
    var f := r.mem[slot];
    var r1 := r.(cq := r.cq[1..], log := r.log.(dispatched := r.log.dispatched + [f]));
    match f
    case Credit(_) => r1.(rq := r.rq + [slot])
    case Fin => r1.(peerFin := true, rq := r.rq + [slot])
    case Data(p, more) => r1.(queue := r.queue + [RecvFrame(slot, more, |p|)])
  }

  /** The credits an inbound frame returns to the sender. */
  function Released(t: Tx, f: Frame): Tx {
    if f.Credit? then t.(credits := t.credits + f.n) else t
  }

  /** After close a channel send of the poller may lose to `closed`: what it carried is dropped. */
  predicate CanDropToken(t: Tx, closed: bool) { t.pushing && closed }
  function DoDropToken(t: Tx): Tx { t.(pushing := false) }

  predicate CanDropSend(t: Tx, closed: bool) { !t.pushing && closed && t.cq != [] }
  function DoDropSend(cfg: Config, t: Tx): Tx
    requires t.cq != []
  {
    var slot := t.cq[0];
    if slot < cfg.depth then
      t.(cq := t.cq[1..], pushing := !cfg.atomicDispatch, log := t.log.(lostData := t.log.lostData + [slot]))
    else t.(cq := t.cq[1..], log := t.log.(lostCtrl := t.log.lostCtrl + [slot]))
  }

  predicate CanDropRecv(t: Tx, r: Rx, closed: bool) {
    !t.pushing && closed && r.cq != [] && r.cq[0] < |r.mem| && r.mem[r.cq[0]].Data?
  }
  function DoDropRecv(r: Rx): Rx
    requires r.cq != [] && r.cq[0] < |r.mem|
  {
    var slot := r.cq[0];
    r.(cq := r.cq[1..],
       log := r.log.(dispatched := r.log.dispatched + [r.mem[slot]],
                     lost := r.log.lost + [slot], leak := r.log.leak + 1))
  }

  // ------------------------------------------------------------------ device

  /** The peer accepted the head frame: its send completes. */
  function Accepted(t: Tx): Tx
    requires t.sq != []
  {
    t.(sq := t.sq[1..], cq := t.cq + [t.sq[0]])
  }

  /** A frame lands in the oldest posted receive. */
  function Landed(r: Rx, f: Frame): Rx
    requires r.rq != [] && r.rq[0] < |r.mem|
  {
    r.(rq := r.rq[1..], cq := r.cq + [r.rq[0]], mem := r.mem[r.rq[0] := f])
  }

  // ------------------------------------------------------------------ steps

  datatype TxStep =
    | SendCall(msgs: seq<Bytes>) | DrainToken | DrainEnd | Acquire | TakeSlot | PostData
    | WaitToken | SendReturn | SendAbort
    | PollSend | PushToken | DropToken | DropSend | PostFin

  datatype RxStep =
    | RecvStart(batch: bool, max: int) | TakeFrame | FindEmpty | SeeFin | ReturnEof | Consume
    | DropCredit | RecvAbort | DropRecv

  /** Steps of one half, steps that touch both, and the two of `close`. */
  datatype Step = OnTx(t: TxStep) | OnRx(r: RxStep) | PostCredit | PollRecv | Close | CloseCredits

  predicate TxEnabled(cfg: Config, t: Tx, closed: bool, s: TxStep) {
    match s
    case SendCall(msgs) => CanSendCall(t, msgs)
    case DrainToken => CanDrainToken(t)
    case DrainEnd => CanDrainEnd(t)
    case Acquire => CanAcquire(t, closed)
    case TakeSlot => CanTakeSlot(t)
    case PostData => CanPostData(t)
    case WaitToken => CanWaitToken(t)
    case SendReturn => CanSendReturn(t)
    case SendAbort => CanSendAbort(t, closed)
    case PollSend => CanPollSend(cfg, t)
    case PushToken => CanPushToken(cfg, t)
    case DropToken => CanDropToken(t, closed)
    case DropSend => CanDropSend(t, closed)
    case PostFin => CanPostFin(t, closed)
  }

  function TxApply(cfg: Config, t: Tx, closed: bool, s: TxStep): Tx
    requires cfg.chunk > 0 && TxEnabled(cfg, t, closed, s)
  {
    match s
    case SendCall(msgs) => DoSendCall(cfg, t, msgs)
    case DrainToken => DoDrainToken(t)
    case DrainEnd => DoDrainEnd(t)
    case Acquire => DoAcquire(t)
    case TakeSlot => DoTakeSlot(t)
    case PostData => DoPostData(t)
    case WaitToken => DoWaitToken(t)
    case SendReturn => DoSendReturn(t)
    case SendAbort => DoSendAbort(t)
    case PollSend => DoPollSend(cfg, t)
    case PushToken => DoPushToken(t)
    case DropToken => DoDropToken(t)
    case DropSend => DoDropSend(cfg, t)
    case PostFin => DoPostFin(t)
  }

  predicate RxEnabled(cfg: Config, t: Tx, r: Rx, closed: bool, s: RxStep) {
    match s
    case RecvStart(_, _) => CanRecvCall(r)
    case TakeFrame => CanTakeFrame(r)
    case FindEmpty => CanFindEmpty(r)
    case SeeFin => CanSeeFin(r)
    case ReturnEof => CanReturnEof(r)
    case Consume => CanConsume(r)
    case DropCredit => r.receiver.RReturn? && closed
    case RecvAbort => CanRecvAbort(r, closed)
    case DropRecv => CanDropRecv(t, r, closed)
  }

  function RxApply(cfg: Config, t: Tx, r: Rx, closed: bool, s: RxStep): Rx
    requires RxEnabled(cfg, t, r, closed, s)
  {
    match s
    case RecvStart(batch, max) => DoRecvCall(r, batch, max)
    case TakeFrame => DoTakeFrame(r)
    case FindEmpty => DoFindEmpty(r)
    case SeeFin => DoSeeFin(r)
    case ReturnEof => DoReturnEof(r, closed)
    case Consume => DoConsume(cfg, r)
    case DropCredit => DoDropCredit(r)
    case RecvAbort => DoRecvAbort(r)
    case DropRecv => DoDropRecv(r)
  }

  predicate Enabled(cfg: Config, e: End, s: Step) {
    match s
    case OnTx(t) => TxEnabled(cfg, e.tx, e.closed, t)
    case OnRx(r) => RxEnabled(cfg, e.tx, e.rx, e.closed, r)
    case PostCredit => e.rx.receiver.RReturn? && CanPostControl(e.tx)
    case PollRecv => CanPollRecv(cfg, e.tx, e.rx)
    case Close => true
    case CloseCredits => e.closed && !e.tx.shut
  }

  function Apply(cfg: Config, e: End, s: Step): End
    requires cfg.chunk > 0 && Enabled(cfg, e, s)
  {
    match s
    case OnTx(t) => e.(tx := TxApply(cfg, e.tx, e.closed, t))
    case OnRx(r) => e.(rx := RxApply(cfg, e.tx, e.rx, e.closed, r))
    case PostCredit => e.(tx := PostControl(e.tx, Credit(e.rx.receiver.n)), rx := CreditPosted(e.rx))
    case PollRecv => e.(tx := Released(e.tx, e.rx.mem[e.rx.cq[0]]), rx := DoPollRecv(e.rx))
    case Close => e.(closed := true)
    case CloseCredits => e.(tx := e.tx.(shut := true))
  }
}
