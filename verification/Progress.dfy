/**
 * No stuck states but the wedge. `Work` is everything the two sides and the device do on their own once
 * calls are under way: sending, polling, delivering, and receivers that call again whenever they return.
 */
module Progress {
  import opened Framing
  import opened Endpoint
  import opened Slots
  import opened TxInvariant
  import opened RxInvariant
  import opened Protocol
  import opened Guarantees

  predicate TxWorks(s: TxStep) {
    s.DrainToken? || s.DrainEnd? || s.Acquire? || s.TakeSlot? || s.PostData? || s.WaitToken? || s.SendReturn?
    || s.PollSend? || s.PushToken?
  }
  predicate RxWorks(s: RxStep) { s.RecvStart? || s.TakeFrame? || s.FindEmpty? || s.Consume? }
  predicate Works(act: Action) {
    match act
    case At(_, OnTx(s)) => TxWorks(s)
    case At(_, OnRx(s)) => RxWorks(s)
    case At(_, s) => s.PostCredit? || s.PollRecv?
    case Deliver(_) => true
  }

  // ------------------------------------------------------------ termination

  function SenderRank(s: Sender): nat {
    match s
    case SIdle => 0
    case SDrain(_) => 3
    case SAcquire(_) => 2
    case SSlot(_) => 1
    case SPost(_, _) => 0
    case SWait(_) => 1
  }

  function ReceiverRank(r: Receiver): nat {
    match r
    case RIdle => 3
    case RLoop(call) => if call.got == 0 then 2 else 5
    case RBlock(_) => 0
    case RFin(_) => 0
    case RTake(_, _) => 12
    case RReturn(n, after, _) => 5 * n + (match after case ThenBlock => 1 case ThenReturn => 4 case ThenResume(_) => 6)
  }

  /** Work left in each half: every frame counts for all the steps it will still cause. */
  function TxWork(t: Tx): nat {
    22 * |Todo(t.sender)| + SenderRank(t.sender) + t.tokens + (if t.pushing then 2 else 0)
    + 5 * |t.sq| + 13 * |DataOf(Wire(t))| + 3 * |t.cq|
  }
  function RxWork(r: Rx): nat {
    |r.cq| + 13 * |DataOf(Arrived(r))| + 13 * |r.queue| + 5 * r.pending + ReceiverRank(r.receiver)
  }
  function WorkLeft(s: System): nat { TxWork(s.a.tx) + RxWork(s.a.rx) + TxWork(s.b.tx) + RxWork(s.b.rx) }

  lemma WireGrows(cfg: Config, t: Tx, closed: bool, s: TxStep)
    requires cfg.Valid() && TxInv(cfg, t, closed) && TxEnabled(cfg, t, closed, s) && TxWorks(s)
    ensures |DataOf(Wire(TxApply(cfg, t, closed, s)))| == |DataOf(Wire(t))| + if s.PostData? then 1 else 0
  {
    hide Count, AllFrames, DataOf;
    WireKept(cfg, t, closed, s);
    if s.PostData? {
      assert t.sender.task.todo[0] in Todo(t.sender);
      ProjectSnoc(Wire(t), t.sender.task.todo[0]);
    } else {
      assert Wire(t) + [] == Wire(t);
    }
  }

  lemma TxWorkDrops(cfg: Config, t: Tx, closed: bool, s: TxStep)
    requires cfg.Valid() && TxInv(cfg, t, closed) && TxEnabled(cfg, t, closed, s) && TxWorks(s)
    ensures TxWork(TxApply(cfg, t, closed, s)) < TxWork(t)
  {
    hide TxInv, Wire, DataOf;
    WireGrows(cfg, t, closed, s);
  }

  lemma RxWorkDrops(cfg: Config, t: Tx, r: Rx, closed: bool, s: RxStep)
    requires RxEnabled(cfg, t, r, closed, s) && RxWorks(s)
    ensures RxWork(RxApply(cfg, t, r, closed, s)) < RxWork(r)
  {
    hide DataOf;
  }

  lemma TxWorkPost(t: Tx, f: Frame)
    requires CanPostControl(t) && !f.Data? && Wire(PostControl(t, f)) == Wire(t) + [f]
    ensures TxWork(PostControl(t, f)) == TxWork(t) + 5
  {
    hide DataOf;
    ProjectSnoc(Wire(t), f);
  }

  lemma RxWorkPosted(r: Rx)
    requires r.receiver.RReturn? && r.receiver.n >= 1
    ensures RxWork(CreditPosted(r)) + 5 < RxWork(r)
  {
    hide DataOf;
  }

  lemma PostCreditDrops(cfg: Config, e: End)
    requires cfg.Valid() && EndInv(cfg, e) && Enabled(cfg, e, PostCredit)
    ensures var e' := Apply(cfg, e, PostCredit); TxWork(e'.tx) + RxWork(e'.rx) < TxWork(e.tx) + RxWork(e.rx)
  {
    hide TxInv, RxInv, TxWork, RxWork, Wire;
    ReturnBound(cfg, e.rx, e.closed);
    TxKeptByPostControl(cfg, e.tx, e.closed, e.rx.receiver.n);
    TxWorkPost(e.tx, Credit(e.rx.receiver.n));
    RxWorkPosted(e.rx);
  }

  lemma PollRecvDrops(cfg: Config, e: End)
    requires cfg.Valid() && Enabled(cfg, e, PollRecv)
    ensures var e' := Apply(cfg, e, PollRecv); TxWork(e'.tx) + RxWork(e'.rx) < TxWork(e.tx) + RxWork(e.rx)
  {
    hide DataOf;
    FramesAtHead(e.rx.cq, e.rx.mem);
    ProjectHead(Arrived(e.rx));
  }

  lemma DeliverDrops(cfg: Config, x: End, y: End)
    requires cfg.Valid() && EndInv(cfg, x) && EndInv(cfg, y) && CanDeliver(x, y)
    ensures TxWork(Accepted(x.tx)) + RxWork(Landed(y.rx, HeadFrame(x.tx))) < TxWork(x.tx) + RxWork(y.rx)
  {
    TxKeptByAccepted(cfg, x.tx, x.closed);
    RxKeptByLanded(cfg, y.rx, y.closed, HeadFrame(x.tx));
    hide TxInv, RxInv, DataOf, Wire, Arrived;
    ProjectHead(Wire(x.tx));
    assert Wire(x.tx)[1..] == Wire(Accepted(x.tx));
    ProjectSnoc(Arrived(y.rx), HeadFrame(x.tx));
  }

  lemma StepDrops(cfg: Config, e: End, s: Step)
    requires cfg.Valid() && EndInv(cfg, e) && Enabled(cfg, e, s) && Works(At(true, s))
    ensures var e' := Apply(cfg, e, s); TxWork(e'.tx) + RxWork(e'.rx) < TxWork(e.tx) + RxWork(e.rx)
  {
    hide TxWork, RxWork, TxInv, RxInv;
    match s {
      case OnTx(t) => TxWorkDrops(cfg, e.tx, e.closed, t);
      case OnRx(r) => RxWorkDrops(cfg, e.tx, e.rx, e.closed, r);
      case PostCredit => PostCreditDrops(cfg, e);
      case PollRecv => PollRecvDrops(cfg, e);
      case Close =>
    }
  }

  lemma WorkDrops(cfg: Config, s: System, act: Action)
    requires cfg.Valid() && Inv(cfg, s) && CanAct(cfg, s, act) && Works(act)
    ensures WorkLeft(Act(cfg, s, act)) < WorkLeft(s)
  {
    hide TxWork, RxWork, EndInv, Linked, Apply, Enabled;
    match act {
      case At(true, step) => StepDrops(cfg, s.a, step);
      case At(false, step) => StepDrops(cfg, s.b, step);
      case Deliver(true) => DeliverDrops(cfg, s.a, s.b);
      case Deliver(false) => DeliverDrops(cfg, s.b, s.a);
    }
  }

  ghost predicate WorkRun(cfg: Config, states: seq<System>, acts: seq<Action>)
    requires cfg.Valid()
  {
    && |states| == |acts| + 1
    && forall i :: 0 <= i < |acts| ==>
         Works(acts[i]) && CanAct(cfg, states[i], acts[i]) && states[i + 1] == Act(cfg, states[i], acts[i])
  }

  /** From any state the invariant allows, however it is scheduled, work runs out: no livelock. */
  lemma {:induction false} WorkRunsOut(cfg: Config, states: seq<System>, acts: seq<Action>)
    requires cfg.Valid() && WorkRun(cfg, states, acts) && Inv(cfg, states[0])
    ensures |acts| + WorkLeft(states[|acts|]) <= WorkLeft(states[0])
    ensures Inv(cfg, states[|acts|])
    ensures Flowing(cfg, states[0].a) ==> Flowing(cfg, states[|acts|].a)
    ensures Flowing(cfg, states[0].b) ==> Flowing(cfg, states[|acts|].b)
  {
    hide Inv, WorkLeft, Flowing;
    if acts != [] {
      var n := |acts| - 1;
      WorkRunsOut(cfg, states[..n + 1], acts[..n]);
      WorkDrops(cfg, states[n], acts[n]);
      FlowingKept(cfg, states[n], acts[n]);
      ActKeeps(cfg, states[n], acts[n]);
    }
  }

  lemma FlowingKept(cfg: Config, s: System, act: Action)
    requires cfg.Valid() && CanAct(cfg, s, act) && Works(act)
    ensures Flowing(cfg, s.a) ==> Flowing(cfg, Act(cfg, s, act).a)
    ensures Flowing(cfg, s.b) ==> Flowing(cfg, Act(cfg, s, act).b)
  {
    hide AllFrames;
    if act.At? { StepFlowing(cfg, if act.atA then s.a else s.b, act.step); }
  }

  lemma StepFlowing(cfg: Config, e: End, s: Step)
    requires cfg.Valid() && Enabled(cfg, e, s) && Works(At(true, s))
    ensures Flowing(cfg, e) ==> Flowing(cfg, Apply(cfg, e, s))
  {}

  // --------------------------------------------------------------- no stuck

  /** Nobody can work. */
  ghost predicate Halted(cfg: Config, s: System) {
    forall act :: Works(act) ==> !CanAct(cfg, s, act)
  }

  /** A receiver in one of the two blocking selects, before or after it has seen the peer's FIN. */
  predicate Blocked(r: Receiver) { r.RBlock? || r.RFin? }

  /** Nothing is under way at one side and its calls have returned. */
  ghost predicate Rested(cfg: Config, e: End) {
    && e.tx.sender.SIdle? && e.tx.sq == [] && e.tx.cq == [] && !e.tx.pushing && e.tx.tokens == 0
    && |e.tx.free| == cfg.depth && |e.tx.ctrlFree| == CREDIT_SLOTS && e.tx.credits == cfg.depth
    && Blocked(e.rx.receiver) && e.rx.cq == [] && e.rx.queue == [] && |e.rx.rq| == cfg.depth
  }

  /** The running call posts at most `depth + 1` frames in all. */
  ghost predicate SmallCall(cfg: Config, t: Tx) {
    Active(t.sender) ==> t.sender.task.posted + |t.sender.task.todo| <= cfg.depth + 1
  }

  ghost predicate TxHalted(cfg: Config, t: Tx) {
    forall s :: TxWorks(s) ==> !TxEnabled(cfg, t, false, s)
  }

  /** The poller holds a token it cannot push, and the sender waits for a credit only the poller can release. */
  predicate Overfull(cfg: Config, t: Tx) {
    t.pushing && t.tokens == cfg.depth && t.sender.SAcquire? && t.credits == 0
  }

  predicate Wedged(cfg: Config, e: End) { !e.closed && Overfull(cfg, e.tx) }

  predicate Unwedged(cfg: Config, e: End) { !e.closed && !Overfull(cfg, e.tx) }

  /** A side that is open and whose call, if any, is small unless dispatch is one step. */
  ghost predicate Flowing(cfg: Config, e: End) {
    !e.closed && (cfg.atomicDispatch || SmallCall(cfg, e.tx))
  }

  lemma FlowingUnwedged(cfg: Config, e: End)
    requires cfg.Valid() && EndInv(cfg, e) && Flowing(cfg, e)
    ensures Unwedged(cfg, e)
  {
    hide Count, AllFrames, DataOf, RxInv;
  }

  /** The token channel of a halted side is not what stops its sender or its poller. */
  lemma TokensFlow(cfg: Config, t: Tx)
    requires cfg.Valid() && TxHalted(cfg, t) && TxInv(cfg, t, false) && !Overfull(cfg, t)
    ensures !t.pushing && (cfg.atomicDispatch && InFlight(t) > 0 ==> t.tokens < cfg.depth)
  {
    hide DataOf, FramesAt, Count, AllFrames, InFlight;
    assert !TxEnabled(cfg, t, false, DrainToken) && !TxEnabled(cfg, t, false, WaitToken);
    assert !TxEnabled(cfg, t, false, PushToken) && !TxEnabled(cfg, t, false, PostData);
    assert !TxEnabled(cfg, t, false, Acquire) && !TxEnabled(cfg, t, false, TakeSlot);
  }

  lemma PollerRests(cfg: Config, t: Tx)
    requires cfg.Valid() && TxHalted(cfg, t) && TxInv(cfg, t, false) && !Overfull(cfg, t)
    ensures !t.pushing && t.cq == []
  {
    hide Count, AllFrames, DataOf;
    TokensFlow(cfg, t);
    assert !TxEnabled(cfg, t, false, PollSend);
    if t.cq != [] {
      KindsMove(cfg, t);
      FramesAtHead(t.cq, t.mem);
      ProjectHead(Finishing(t));
    }
  }

  /** With an empty wire, and credits and slots to hand, a halted sender has nothing to do. */
  lemma SenderRests(cfg: Config, t: Tx)
    requires cfg.Valid() && TxHalted(cfg, t) && TxInv(cfg, t, false) && t.sq == [] && t.cq == [] && !t.pushing
    requires t.credits + (if t.sender.SSlot? || t.sender.SPost? then 1 else 0) == cfg.depth
    ensures t.sender.SIdle? && t.tokens == 0 && t.credits == cfg.depth
    ensures |t.free| == cfg.depth && |t.ctrlFree| == CREDIT_SLOTS
  {
    assert Wire(t) == [] && Finishing(t) == [];
    assert InFlight(t) == 0;
    SenderRanks(cfg, t);
  }

  lemma SenderRanks(cfg: Config, t: Tx)
    requires cfg.Valid() && TxHalted(cfg, t) && TxInv(cfg, t, false) && InFlight(t) == 0 && !t.pushing
    requires t.credits + (if t.sender.SSlot? || t.sender.SPost? then 1 else 0) == cfg.depth
    ensures t.sender.SIdle?
  {
    hide Count, AllFrames, DataOf, InFlight;
    assert !TxEnabled(cfg, t, false, DrainToken) && !TxEnabled(cfg, t, false, DrainEnd);
    assert !TxEnabled(cfg, t, false, WaitToken) && !TxEnabled(cfg, t, false, SendReturn);
    assert !TxEnabled(cfg, t, false, Acquire) && !TxEnabled(cfg, t, false, TakeSlot);
    assert !TxEnabled(cfg, t, false, PostData);
  }

  lemma RingHeads(cfg: Config, r: Rx)
    requires RingBacked(cfg, r)
    ensures r.cq != [] ==> r.cq[0] < |r.mem|
    ensures r.receiver.RTake? ==> r.receiver.frame.slot < |r.mem|
  {
    assert r.cq != [] ==> r.cq[0] in r.cq;
    assert r.receiver.RTake? ==> r.receiver.frame in HeldFrame(r.receiver) + r.queue;
  }

  /** The receiver of a side that cannot work: it waits for data, or for a credit slot. */
  lemma ReceiverRests(cfg: Config, s: System, atA: bool)
    requires cfg.Valid() && Halted(cfg, s) && RxInv(cfg, From(s, atA).rx, false)
    requires !From(s, atA).tx.pushing
    ensures var e := From(s, atA);
            && e.rx.cq == []
            && (if e.rx.receiver.RReturn? then !CanPostControl(e.tx) && e.rx.receiver.n >= 1
                else Blocked(e.rx.receiver) && e.rx.queue == [] && e.rx.pending == 0 && |e.rx.rq| == cfg.depth)
  {
    hide Count, DataOf;
    var e := From(s, atA);
    RingHeads(cfg, e.rx);
    assert !CanAct(cfg, s, At(atA, OnRx(RecvStart(false, 1)))) && !CanAct(cfg, s, At(atA, OnRx(TakeFrame)));
    assert !CanAct(cfg, s, At(atA, OnRx(FindEmpty))) && !CanAct(cfg, s, At(atA, OnRx(Consume)));
    assert !CanAct(cfg, s, At(atA, PollRecv)) && !CanAct(cfg, s, At(atA, PostCredit));
  }

  lemma HaltedTx(cfg: Config, s: System, atA: bool)
    requires Halted(cfg, s) && !From(s, atA).closed
    ensures TxHalted(cfg, From(s, atA).tx)
  {
    forall step | TxWorks(step) ensures !TxEnabled(cfg, From(s, atA).tx, false, step) {
      assert !CanAct(cfg, s, At(atA, OnTx(step)));
    }
  }

  /** A halted side still has a receive posted: also when its receiver waits for a credit slot. */
  lemma ReceivePosted(cfg: Config, s: System, atA: bool)
    requires cfg.Valid() && Inv(cfg, s) && Halted(cfg, s) && Unwedged(cfg, s.a) && Unwedged(cfg, s.b)
    ensures From(s, atA).rx.rq != [] && From(s, atA).rx.rq[0] < |From(s, atA).rx.mem|
    ensures !From(s, atA).tx.pushing && From(s, atA).tx.cq == [] && From(s, atA).rx.cq == []
  {
    var x, y := From(s, !atA), From(s, atA);
    assert EndInv(cfg, y) && Linked(cfg, x, y);
    hide Inv, Halted, TxInv, Linked;
    HaltedTx(cfg, s, atA);
    PollerRests(cfg, y.tx);
    ReceiverRests(cfg, s, atA);
    PostedByCredits(cfg, x, y);
  }

  /** A receiver about to return `n` credits has as many receives posted, not counting those on the wire. */
  lemma PostedByCredits(cfg: Config, x: End, y: End)
    requires cfg.Valid() && RxInv(cfg, y.rx, false) && Linked(cfg, x, y) && y.rx.cq == []
    requires (y.rx.receiver.RReturn? && y.rx.receiver.n >= 1) || |y.rx.rq| == cfg.depth
    ensures y.rx.rq != [] && y.rx.rq[0] < |y.rx.mem|
  {
    hide Count, DataOf, CreditSum, Assemble;
    assert y.rx.rq != [];
    assert y.rx.rq[0] in y.rx.rq;
  }

  lemma HeadUsable(cfg: Config, t: Tx)
    requires Kinds(cfg, t)
    ensures t.sq != [] ==> t.sq[0] < |t.mem|
  {
    KindsMove(cfg, t);
  }

  lemma CtrlSlotUsable(cfg: Config, t: Tx, closed: bool)
    requires Counted(cfg, t, closed) && !closed && Kinds(cfg, t) && |t.mem| == cfg.SendSlots()
    requires t.sq == [] && t.cq == []
    ensures CanPostControl(t)
  {
    assert Wire(t) == [] && Finishing(t) == [];
    assert t.ctrlFree != [];
    assert t.ctrlFree[0] in t.ctrlFree;
  }

  lemma Facts(cfg: Config, s: System, atA: bool)
    requires cfg.Valid() && Inv(cfg, s) && !From(s, atA).closed
    ensures var e := From(s, atA);
            && Kinds(cfg, e.tx) && Counted(cfg, e.tx, false) && |e.tx.mem| == cfg.SendSlots()
            && RecvCounted(cfg, e.rx, false) && RxInv(cfg, e.rx, false)
  {
    hide Count, AllFrames, DataOf, Assemble, CreditSum;
  }

  lemma WiresDrained(cfg: Config, s: System, fromA: bool)
    requires cfg.Valid() && Inv(cfg, s) && Halted(cfg, s) && Unwedged(cfg, s.a) && Unwedged(cfg, s.b)
    ensures From(s, fromA).tx.sq == []
  {
    hide Inv, Kinds, Counted, RecvCounted, RxInv;
    UnwedgedOpen(cfg, s, fromA);
    Facts(cfg, s, fromA);
    HeadUsable(cfg, From(s, fromA).tx);
    ReceivePosted(cfg, s, !fromA);
    assert !CanAct(cfg, s, Deliver(fromA));
  }

  lemma AllCreditsHome(cfg: Config, x: End, y: End)
    requires Linked(cfg, x, y) && x.tx.sq == [] && y.tx.sq == [] && x.rx.cq == [] && y.rx.cq == []
    requires Blocked(y.rx.receiver) && y.rx.queue == [] && y.rx.pending == 0 && y.rx.log.leak == 0 && x.tx.log.leak == 0
    ensures x.tx.credits + (if x.tx.sender.SSlot? || x.tx.sender.SPost? then 1 else 0) == cfg.depth
    ensures x.tx.log.stream == y.rx.log.dispatched
  {
    assert Wire(x.tx) == [] && Wire(y.tx) == [] && Arrived(x.rx) == [] && Arrived(y.rx) == [];
  }

  lemma ReceiverBlocked(cfg: Config, s: System, atA: bool)
    requires cfg.Valid() && Inv(cfg, s) && Halted(cfg, s) && Unwedged(cfg, s.a) && Unwedged(cfg, s.b)
    requires From(s, atA).tx.sq == []
    ensures var e := From(s, atA);
            Blocked(e.rx.receiver) && e.rx.queue == [] && e.rx.pending == 0 && |e.rx.rq| == cfg.depth
            && e.rx.log.leak == 0 && e.tx.log.leak == 0
  {
    var e := From(s, atA);
    hide Inv, RxInv, Kinds, Halted;
    UnwedgedOpen(cfg, s, atA);
    Facts(cfg, s, atA);
    ReceivePosted(cfg, s, atA);
    CtrlSlotUsable(cfg, e.tx, false);
    ReceiverRests(cfg, s, atA);
  }

  /** Nothing is under way at either side and everything accepted has been delivered. */
  ghost predicate AllDone(cfg: Config, s: System) {
    && Rested(cfg, s.a) && Rested(cfg, s.b)
    && s.b.rx.log.delivered == s.a.tx.log.accepted && s.a.rx.log.delivered == s.b.tx.log.accepted
  }

  /**
   * The wedge is the only way to get stuck: two open transports in which nobody can work are done exactly if
   * neither is wedged.
   */
  lemma StuckIsWedged(cfg: Config, s: System)
    requires cfg.Valid() && Reachable(cfg, s) && !s.a.closed && !s.b.closed && Halted(cfg, s)
    ensures AllDone(cfg, s) <==> !Wedged(cfg, s.a) && !Wedged(cfg, s.b)
  {
    ReachableInv(cfg, s);
    if !Wedged(cfg, s.a) && !Wedged(cfg, s.b) { UnwedgedRest(cfg, s); }
  }

  lemma UnwedgedRest(cfg: Config, s: System)
    requires cfg.Valid() && Inv(cfg, s) && Unwedged(cfg, s.a) && Unwedged(cfg, s.b) && Halted(cfg, s)
    ensures AllDone(cfg, s)
  {
    hide Inv, Halted, Unwedged, Rested;
    SideRests(cfg, s, true);
    SideRests(cfg, s, false);
  }

  /**
   * No stuck states: in a reachable state of two open transports in which nobody can work, every send
   * call has returned, both wires and all queues are empty, every slot and every credit is back, and
   * everything accepted has been delivered.
   */
  lemma NoStuckStates(cfg: Config, s: System)
    requires cfg.Valid() && Reachable(cfg, s) && Flowing(cfg, s.a) && Flowing(cfg, s.b) && Halted(cfg, s)
    ensures Rested(cfg, s.a) && Rested(cfg, s.b)
    ensures s.b.rx.log.delivered == s.a.tx.log.accepted && s.a.rx.log.delivered == s.b.tx.log.accepted
  {
    ReachableInv(cfg, s);
    BothRest(cfg, s);
  }

  lemma BothRest(cfg: Config, s: System)
    requires cfg.Valid() && Inv(cfg, s) && Flowing(cfg, s.a) && Flowing(cfg, s.b) && Halted(cfg, s)
    ensures Rested(cfg, s.a) && Rested(cfg, s.b)
    ensures s.b.rx.log.delivered == s.a.tx.log.accepted && s.a.rx.log.delivered == s.b.tx.log.accepted
  {
    assert EndInv(cfg, s.a) && EndInv(cfg, s.b);
    hide Inv, EndInv, Halted, Flowing, Unwedged, Rested;
    FlowingUnwedged(cfg, s.a);
    FlowingUnwedged(cfg, s.b);
    UnwedgedRest(cfg, s);
  }

  /**
   * So whatever the schedule, work that goes on until nobody can go on completes every call and
   * delivers every message: from any reachable state of two flowing sides.
   */
  lemma WorkCompletes(cfg: Config, states: seq<System>, acts: seq<Action>)
    requires cfg.Valid() && WorkRun(cfg, states, acts) && Reachable(cfg, states[0])
    requires Flowing(cfg, states[0].a) && Flowing(cfg, states[0].b) && Halted(cfg, states[|acts|])
    ensures |acts| <= WorkLeft(states[0])
    ensures var s := states[|acts|];
            && Rested(cfg, s.a) && Rested(cfg, s.b)
            && s.b.rx.log.delivered == s.a.tx.log.accepted && s.a.rx.log.delivered == s.b.tx.log.accepted
  {
    assert |states| == |acts| + 1;
    hide Inv, Halted, Flowing, Rested, Reachable, WorkRun, WorkLeft;
    ReachableInv(cfg, states[0]);
    WorkRunsOut(cfg, states, acts);
    BothRest(cfg, states[|acts|]);
  }

  lemma SideRests(cfg: Config, s: System, atA: bool)
    requires cfg.Valid() && Inv(cfg, s) && Halted(cfg, s) && Unwedged(cfg, s.a) && Unwedged(cfg, s.b)
    ensures Rested(cfg, From(s, atA))
    ensures From(s, !atA).rx.log.delivered == From(s, atA).tx.log.accepted
  {
    var x, y := From(s, atA), From(s, !atA);
    assert EndInv(cfg, x) && EndInv(cfg, y) && Linked(cfg, x, y);
    hide Inv, Unwedged, TxInv, RxInv, Linked, Halted;
    WiresDrained(cfg, s, atA);
    WiresDrained(cfg, s, !atA);
    ReceivePosted(cfg, s, atA);
    ReceivePosted(cfg, s, !atA);
    ReceiverBlocked(cfg, s, atA);
    ReceiverBlocked(cfg, s, !atA);
    AllCreditsHome(cfg, x, y);
    UnwedgedOpen(cfg, s, atA);
    HaltedTx(cfg, s, atA);
    SenderRests(cfg, x.tx);
    AllDelivered(cfg, x, y);
  }

  lemma UnwedgedOpen(cfg: Config, s: System, atA: bool)
    requires Unwedged(cfg, s.a) && Unwedged(cfg, s.b)
    ensures !From(s, atA).closed && !From(s, !atA).closed
  {}

  lemma AllPosted(cfg: Config, t: Tx)
    requires cfg.Valid() && TxInv(cfg, t, false) && t.sender.SIdle?
    ensures DataOf(t.log.stream) == AllFrames(t.log.accepted, cfg.chunk)
  {
    hide Count, AllFrames, DataOf;
    assert DataOf(t.log.stream) + [] == DataOf(t.log.stream);
  }

  lemma AllConsumed(cfg: Config, r: Rx)
    requires RxInv(cfg, r, false) && !r.receiver.RTake? && r.queue == []
    ensures r.log.consumed == DataOf(r.log.dispatched)
  {
    hide Count, DataOf;
    assert Queued(r) == [];
  }

  lemma AllDelivered(cfg: Config, x: End, y: End)
    requires cfg.Valid() && EndInv(cfg, x) && EndInv(cfg, y) && Linked(cfg, x, y) && !x.closed && !y.closed
    requires x.tx.sender.SIdle? && !y.rx.receiver.RTake? && y.rx.queue == [] && x.tx.log.stream == y.rx.log.dispatched
    ensures y.rx.log.delivered == x.tx.log.accepted && y.rx.reasm == Reasm([], false)
  {
    hide TxInv, RxInv, AllFrames, DataOf, Assemble, CreditSum;
    OpenIsSound(cfg, x);
    OpenIsSound(cfg, y);
    AllPosted(cfg, x.tx);
    AllConsumed(cfg, y.rx);
    ReassemblyRoundTrip(x.tx.log.accepted, cfg.chunk);
  }
}
