/**
 * What goes on around a running call of the transport: the poller, the device, the other goroutine and
 * a closing caller act at every point where the call can be interrupted. A plan says what they do there;
 * a property proved for every plan holds under every interleaving.
 */
module Interleaving {
  import opened Words

  import opened Framing
  import opened Credit
  import opened Endpoint
  import opened TxInvariant
  import opened RxInvariant
  import opened Protocol
  import opened OneSide
  import opened Scheduling
  import opened Transport

  /** What others do: one burst at each point of interruption, nothing once the plan is used up. */
  datatype Other =
    | PollsSend | PollsRecv | PushesToken                    // the poller
    | DeviceSends | DeviceLands(f: Frame)                    // the device
    | Shuts | ShutsCredits | SendsFin                        // a closing caller
    | Runs | Begins(msgs: seq<Bytes>, batch: bool, max: int) // the other goroutine
  type Plan = seq<seq<Other>>

  /** What a send call can rely on: its own state, what it has accepted and posted, and no tokens but its own. */
  ghost predicate SenderKept(e: End, e': End) {
    && e'.tx.sender == e.tx.sender && e'.tx.log.accepted == e.tx.log.accepted
    && e'.tx.log.finished == e.tx.log.finished && e'.tx.log.aborted == e.tx.log.aborted
    && Committed(e'.tx) == Committed(e.tx)
    && (e.closed ==> e'.closed) && Tokens(e'.tx) <= Tokens(e.tx)
  }

  /** What a receive call can rely on: its own state, the reassembler, and frames queued before. */
  ghost predicate ReceiverKept(e: End, e': End) {
    && e'.rx.receiver == e.rx.receiver && e'.rx.reasm == e.rx.reasm && e'.rx.pending == e.rx.pending
    && e'.rx.log.consumed == e.rx.log.consumed && e'.rx.log.delivered == e.rx.log.delivered
    && e.rx.queue <= e'.rx.queue && (e.closed ==> e'.closed) && (e.rx.peerFin ==> e'.rx.peerFin)
  }

  ghost predicate Kept(sending: bool, e: End, e': End) {
    if sending then SenderKept(e, e') else ReceiverKept(e, e')
  }

  /** Steps of the sender, and of the receiver. */
  predicate OfSender(s: Step) {
    s.OnTx? && !s.t.PollSend? && !s.t.PushToken? && !s.t.DropToken? && !s.t.DropSend? && !s.t.PostFin?
  }
  predicate OfReceiver(s: Step) { s.PostCredit? || (s.OnRx? && !s.r.DropRecv?) }

  /** Only the sender posts data, so no one else's step adds to the tokens there are or will be. */
  lemma TokensBound(cfg: Config, e: End, s: Step)
    requires cfg.Valid() && EndInv(cfg, e) && Enabled(cfg, e, s) && !OfSender(s)
    ensures Tokens(Apply(cfg, e, s).tx) <= Tokens(e.tx)
  {
    hide AllFrames, DataOf, Slots.Count, RxInv, Posting, FinPosted, Counted, TokensMatch, RxApply, RxEnabled;
    match s {
      case OnTx(x) => InFlightDelta(cfg, e.tx, e.closed, x);
      case PostCredit =>
        SlotOnce(cfg, e.tx, e.tx.ctrlFree[0]);
        WirePost(e.tx, e.tx.ctrlFree[0], Frame.Credit(e.rx.receiver.n));
      case _ =>
    }
  }

  lemma StepKeepsSender(cfg: Config, e: End, s: Step)
    requires cfg.Valid() && EndInv(cfg, e) && Enabled(cfg, e, s) && !OfSender(s)
    ensures SenderKept(e, Apply(cfg, e, s))
  {
    hide AllFrames, EndInv, Tokens, DataOf, TxApply, TxEnabled, RxApply, RxEnabled, CreditPosted;
    TokensBound(cfg, e, s);
    PostsNoData(cfg, e, s);
    if s.OnTx? { TxKeepsSender(cfg, e.tx, e.closed, s.t); }
  }

  lemma TxKeepsSender(cfg: Config, t: Tx, closed: bool, x: TxStep)
    requires cfg.Valid() && TxEnabled(cfg, t, closed, x) && !OfSender(OnTx(x))
    ensures var t' := TxApply(cfg, t, closed, x);
            && t'.sender == t.sender && t'.log.accepted == t.log.accepted
            && t'.log.finished == t.log.finished && t'.log.aborted == t.log.aborted
  {
    hide AllFrames, DataOf;
    match x {
      case PollSend =>
      case PostFin =>
      case _ =>
    }
  }

  lemma StepKeepsReceiver(cfg: Config, e: End, s: Step)
    requires cfg.Valid() && Enabled(cfg, e, s) && !OfReceiver(s)
    ensures ReceiverKept(e, Apply(cfg, e, s))
  {
    hide AllFrames, DataOf;
  }

  /** No step of anyone else disturbs a running call. */
  lemma StepKeepsOthers(cfg: Config, e: End, s: Step)
    requires cfg.Valid() && EndInv(cfg, e) && Enabled(cfg, e, s)
    ensures !OfSender(s) ==> SenderKept(e, Apply(cfg, e, s))
    ensures !OfReceiver(s) ==> ReceiverKept(e, Apply(cfg, e, s))
  {
    hide EndInv, Enabled, Apply, SenderKept, ReceiverKept;
    if !OfSender(s) { StepKeepsSender(cfg, e, s); }
    if !OfReceiver(s) { StepKeepsReceiver(cfg, e, s); }
  }

  lemma PostsNoData(cfg: Config, e: End, s: Step)
    requires cfg.Valid() && Enabled(cfg, e, s) && !OfSender(s)
    ensures DataOf(Apply(cfg, e, s).tx.log.stream) == DataOf(e.tx.log.stream)
  {
    hide DataOf, TxApply, TxEnabled, RxApply, RxEnabled, CreditPosted;
    var stream := e.tx.log.stream;
    assert DataOf(stream) + [] == DataOf(stream);
    match s {
      case OnTx(x) => TxPostsNoData(cfg, e.tx, e.closed, x);
      case PostCredit => ProjectSnoc(stream, Frame.Credit(e.rx.receiver.n));
      case _ =>
    }
  }

  lemma TxPostsNoData(cfg: Config, t: Tx, closed: bool, x: TxStep)
    requires cfg.Valid() && TxEnabled(cfg, t, closed, x) && !OfSender(OnTx(x))
    ensures DataOf(TxApply(cfg, t, closed, x).log.stream) == DataOf(t.log.stream)
  {
    hide AllFrames, DataOf;
    match x {
      case PostFin =>
        ProjectSnoc(t.log.stream, Frame.Fin);
        assert DataOf(t.log.stream) + [] == DataOf(t.log.stream);
      case _ =>
    }
  }

  /** A step taken by the actor whose it is. */
  lemma Acted(cfg: Config, e: End, who: Actor, s: Step)
    requires cfg.Valid() && EndInv(cfg, e) && Theirs(who, s) && Enabled(cfg, e, s)
    ensures Served(cfg, e, Apply(cfg, e, s), who)
    ensures !who.Sender? && !who.StartSend? ==> SenderKept(e, Apply(cfg, e, s))
    ensures !who.Receiver? && !who.StartReceive? ==> ReceiverKept(e, Apply(cfg, e, s))
  {
    hide EndInv, Enabled, Apply, SenderKept, ReceiverKept, Served;
    ServedBy(cfg, e, Apply(cfg, e, s), who, s);
    StepKeepsOthers(cfg, e, s);
  }

  lemma Blocked(cfg: Config, e: End)
    requires cfg.chunk > 0
    ensures e.tx.sender.SIdle? || SenderWaits(e) ==> Served(cfg, e, e, Sender)
    ensures e.rx.receiver.RIdle? || ReceiverWaits(e) ==> Served(cfg, e, e, Receiver)
  {
    hide Enabled, Apply, SenderWaits, ReceiverWaits, Theirs, Served;
    if e.tx.sender.SIdle? || SenderWaits(e) {
      forall s | Theirs(Sender, s) ensures !Enabled(cfg, e, s) { SenderStands(cfg, e, s); }
      ServedIdle(cfg, e, Sender);
    }
    if e.rx.receiver.RIdle? || ReceiverWaits(e) {
      forall s | Theirs(Receiver, s) ensures !Enabled(cfg, e, s) { ReceiverStands(cfg, e, s); }
      ServedIdle(cfg, e, Receiver);
    }
  }

  // --------------------------------------------------------------- others

  /** The other goroutine of the connection takes its next step. */
  method RunOther(t: Transport, sending: bool)
    requires t.Valid()
    modifies t, t.sendBuf, t.credits, t.reasm
    ensures t.Valid() && old(t.past) <= t.past && Kept(sending, old(t.view), t.view)
    ensures Served(t.Cfg(), old(t.view), t.view, if sending then Receiver else Sender)
  {
    hide Served;
    if sending { RunReceiver(t); } else { RunSender(t); }
  }

  method RunReceiver(t: Transport)
    requires t.Valid()
    modifies t, t.sendBuf, t.credits, t.reasm
    ensures t.Valid() && old(t.past) <= t.past && SenderKept(old(t.view), t.view)
    ensures Served(t.Cfg(), old(t.view), t.view, Receiver)
  {
    hide EndInv, IsPast, Rings.Ring, SendsPosted, SendsDone, RecvsPosted, Apply, Enabled, Served;
    ghost var e := t.view;
    Blocked(t.Cfg(), e);
    match t.receiver {
      case RIdle => return;
      case RLoop(_) =>
        var ok := t.TryFrame();
        Acted(t.Cfg(), e, Receiver, OnRx(if ok then TakeFrame else FindEmpty));
      case RBlock(_) =>
        var s, waits := t.SelectFrame();
        if !waits { Acted(t.Cfg(), e, Receiver, OnRx(s)); }
      case RFin(_) =>
        var ok := t.SelectAfterFin();
        Acted(t.Cfg(), e, Receiver, OnRx(if ok then TakeFrame else ReturnEof));
      case RTake(_, _) =>
        var _ := t.ConsumeFrame();
        Acted(t.Cfg(), e, Receiver, OnRx(Consume));
      case RReturn(_, _, _) =>
        var g := t.ReturnCredit();
        if g.Granted? { Acted(t.Cfg(), e, Receiver, PostCredit); }
        if g.Refused? { Acted(t.Cfg(), e, Receiver, OnRx(DropCredit)); }
    }
  }

  method RunSender(t: Transport)
    requires t.Valid()
    modifies t, t.sendBuf, t.credits
    ensures t.Valid() && old(t.past) <= t.past && ReceiverKept(old(t.view), t.view)
    ensures Served(t.Cfg(), old(t.view), t.view, Sender)
  {
    hide EndInv, IsPast, Rings.Ring, SendsPosted, SendsDone, RecvsPosted, Apply, Enabled, Served;
    ghost var e := t.view;
    Blocked(t.Cfg(), e);
    match t.sender {
      case SIdle => return;
      case SDrain(_) =>
        var ok := t.TrySendDone();
        Acted(t.Cfg(), e, Sender, OnTx(if ok then DrainToken else DrainEnd));
      case SAcquire(_) =>
        var g := t.AcquireCredit();
        if g.Granted? { Acted(t.Cfg(), e, Sender, OnTx(TxStep.Acquire)); }
        if g.Refused? { Acted(t.Cfg(), e, Sender, OnTx(SendAbort)); }
      case SSlot(_) =>
        var g := t.TakeSendSlot();
        if g.Granted? { Acted(t.Cfg(), e, Sender, OnTx(TakeSlot)); }
        if g.Refused? { Acted(t.Cfg(), e, Sender, OnTx(SendAbort)); }
      case SPost(_, _) => RunPost(t);
      case SWait(_) => RunWait(t);
    }
  }

  method RunPost(t: Transport)
    requires t.Valid() && t.sender.SPost?
    modifies t, t.sendBuf
    ensures t.Valid() && old(t.past) <= t.past && ReceiverKept(old(t.view), t.view)
    ensures Served(t.Cfg(), old(t.view), t.view, Sender)
  {
    hide EndInv, IsPast, Rings.Ring, SendsPosted, SendsDone, RecvsPosted, Apply, Enabled, Served;
    HeldTodo(t.Cfg(), t.view);
    var f := t.sender.task.todo[0];
    t.PostFrame(f.payload, f.more);
    Acted(t.Cfg(), old(t.view), Sender, OnTx(PostData));
  }

  method RunWait(t: Transport)
    requires t.Valid() && t.sender.SWait?
    modifies t
    ensures t.Valid() && old(t.past) <= t.past && ReceiverKept(old(t.view), t.view)
    ensures Served(t.Cfg(), old(t.view), t.view, Sender)
  {
    hide EndInv, IsPast, Rings.Ring, SendsPosted, SendsDone, RecvsPosted, Apply, Enabled, Served;
    ghost var e := t.view;
    Blocked(t.Cfg(), e);
    if t.sender.left == 0 {
      t.FinishSend();
      Acted(t.Cfg(), e, Sender, OnTx(SendReturn));
    } else {
      var g := t.WaitSendDone();
      if g.Granted? { Acted(t.Cfg(), e, Sender, OnTx(WaitToken)); }
      if g.Refused? { Acted(t.Cfg(), e, Sender, OnTx(SendAbort)); }
    }
  }

  /** A sender that is posting has a frame to post. */
  lemma HeldTodo(cfg: Config, e: End)
    requires cfg.Valid() && EndInv(cfg, e)
    ensures e.tx.sender.SPost? ==> e.tx.sender.task.todo != [] && e.tx.sender.task.todo[0].Data?
  {
    hide Slots.Count, AllFrames, DataOf, RxInv;
    if e.tx.sender.SPost? { assert e.tx.sender.task.todo[0] in Todo(e.tx.sender); }
  }

  /** The other goroutine starts a call of its own. */
  method StartOther(t: Transport, sending: bool, msgs: seq<Bytes>, batch: bool, max: int)
    requires t.Valid()
    modifies t
    ensures t.Valid() && old(t.past) <= t.past && Kept(sending, old(t.view), t.view)
    ensures Served(t.Cfg(), old(t.view), t.view, if sending then StartReceive(batch, max) else StartSend(msgs))
  {
    hide EndInv, IsPast, Rings.Ring, SendsPosted, SendsDone, RecvsPosted, Apply, AllFrames, Served;
    if sending && t.receiver.RIdle? {
      t.BeginReceive(batch, max);
      Acted(t.Cfg(), old(t.view), StartReceive(batch, max), OnRx(RecvStart(batch, max)));
    } else if !sending && t.sender.SIdle? && msgs != [] && forall m :: m in msgs ==> |m| <= MAX_MESSAGE {
      t.BeginSend(msgs);
      Acted(t.Cfg(), old(t.view), StartSend(msgs), OnTx(SendCall(msgs)));
    } else {
      ServedIdle(t.Cfg(), t.view, if sending then StartReceive(batch, max) else StartSend(msgs));
    }
  }

  /** The poller; nothing happens where it has nothing to do, or a full `sendDone` to wait for. */
  method RunPoller(t: Transport, who: Actor)
    requires t.Valid() && (who.Poller? || who.Pusher?)
    modifies t, t.credits
    ensures t.Valid() && old(t.past) <= t.past && SenderKept(old(t.view), t.view) && ReceiverKept(old(t.view), t.view)
    ensures Served(t.Cfg(), old(t.view), t.view, who)
  {
    hide EndInv, IsPast, Rings.Ring, SendsPosted, RecvsPosted, Apply, Enabled, Served;
    ghost var e := t.view;
    PollerStands(t.Cfg(), e, who);
    if who == Poller(false) && !t.pushing && t.sendCq != [] {
      var kept := t.DispatchSend();
      Acted(t.Cfg(), e, who, OnTx(if kept then PollSend else DropSend));
    } else if who == Poller(true) && !t.pushing && t.recvCq != [] {
      var kept := t.DispatchRecv();
      Acted(t.Cfg(), e, who, if kept then PollRecv else OnRx(DropRecv));
    } else if who.Pusher? && t.pushing {
      var g := t.PushSendDone();
      if g.Granted? { Acted(t.Cfg(), e, who, OnTx(PushToken)); }
      if g.Refused? { Acted(t.Cfg(), e, who, OnTx(DropToken)); }
    }
  }

  lemma PollerStands(cfg: Config, e: End, who: Actor)
    requires cfg.chunk > 0
    ensures who == Poller(false) && (e.tx.pushing || e.tx.cq == []) ==> Served(cfg, e, e, who)
    ensures who == Poller(true) && (e.tx.pushing || e.rx.cq == []) ==> Served(cfg, e, e, who)
    ensures who == Pusher && (!e.tx.pushing || (e.tx.tokens >= cfg.depth && !e.closed)) ==> Served(cfg, e, e, who)
  {
    hide Served, Apply;
    if forall s :: Theirs(who, s) ==> !Enabled(cfg, e, s) { ServedIdle(cfg, e, who); }
  }

  /** `sendFin` and `close`. */
  method RunCloser(t: Transport, who: Actor)
    requires t.Valid() && (who.Fin? || who.Shut? || who.ShutCredits?)
    modifies t, t.sendBuf, t.credits
    ensures t.Valid() && old(t.past) <= t.past && SenderKept(old(t.view), t.view) && ReceiverKept(old(t.view), t.view)
    ensures Served(t.Cfg(), old(t.view), t.view, who)
  {
    hide EndInv, IsPast, Rings.Ring, SendsPosted, SendsDone, RecvsPosted, Apply, Enabled, Served;
    ghost var e := t.view;
    CloserStands(t.Cfg(), e, who);
    if who.Shut? {
      t.Close();
      Acted(t.Cfg(), e, who, Step.Close);
    } else if who.ShutCredits? && t.closed && !t.credits.closed {
      t.CloseCredits();
      Acted(t.Cfg(), e, who, Step.CloseCredits);
    } else if who.Fin? && !t.closed && !t.finSent && t.creditFree != [] {
      t.SendFin();
      Acted(t.Cfg(), e, who, OnTx(PostFin));
    }
  }

  lemma CloserStands(cfg: Config, e: End, who: Actor)
    requires cfg.chunk > 0
    ensures who == ShutCredits && (!e.closed || e.tx.shut) ==> Served(cfg, e, e, who)
    ensures who == Actor.Fin && (e.closed || e.tx.log.finAt >= 0 || e.tx.ctrlFree == []) ==> Served(cfg, e, e, who)
  {
    hide Served, Apply;
    if forall s :: Theirs(who, s) ==> !Enabled(cfg, e, s) { ServedIdle(cfg, e, who); }
  }

  /** The device, facing a conforming peer. */
  method RunDevice(t: Transport, o: Other)
    requires t.Valid() && (o.DeviceSends? || o.DeviceLands?)
    modifies t, t.recvBuf
    ensures t.Valid() && old(t.past) <= t.past && SenderKept(old(t.view), t.view) && ReceiverKept(old(t.view), t.view)
    ensures Worked(t.Cfg(), old(t.view), t.view, o)
  {
    hide EndInv, IsPast, Rings.Ring, SendsPosted, SendsDone, RecvsPosted, FrameBytes;
    DeviceFits(t.Cfg(), t.view);
    QueuesAlike(t);
    if o.DeviceSends? && t.sq != [] {
      var _ := t.SendHead();
      WireAccepted(old(t.view).tx);
    } else if o.DeviceLands? && t.rq != [] && FrameOk(t.Cfg(), o.f) {
      t.Land(FrameBytes(o.f), o.f);
    }
  }

  lemma QueuesAlike(t: Transport)
    requires t.Valid()
    ensures (t.sq == [] <==> t.view.tx.sq == []) && (t.rq == [] <==> t.view.rx.rq == [])
  {
    hide EndInv, IsPast, Rings.Ring;
  }

  lemma DeviceFits(cfg: Config, e: End)
    requires cfg.Valid() && EndInv(cfg, e)
    ensures e.tx.sq != [] ==> e.tx.sq[0] < |e.tx.mem|
    ensures e.rx.rq != [] ==> e.rx.rq[0] < |e.rx.mem|
  {
    hide EndInv;
    ReturnFits(cfg, e);
  }

  /** The device takes the frame at the head of the send queue, or puts one into the first posted receive, if it can. */
  ghost predicate Worked(cfg: Config, e: End, e': End, o: Other)
    requires cfg.chunk > 0
  {
    var m := if o.DeviceLands? then Arrives(o.f) else HeadAccepted;
    e' == if CanMove(cfg, e, m) then Moved(cfg, e, m) else e
  }

  function ActorOf(o: Other, sending: bool): Actor
    requires !o.DeviceSends? && !o.DeviceLands?
  {
    match o
    case PollsSend => Poller(false)
    case PollsRecv => Poller(true)
    case PushesToken => Pusher
    case Shuts => Shut
    case ShutsCredits => ShutCredits
    case SendsFin => Actor.Fin
    case Runs => if sending then Receiver else Sender
    case Begins(msgs, batch, max) => if sending then StartReceive(batch, max) else StartSend(msgs)
  }

  /** A burst: everyone in it had a turn, in order. */
  ghost predicate Performed(cfg: Config, sending: bool, e: End, e': End, burst: seq<Other>)
    requires cfg.chunk > 0
    decreases |burst|
  {
    if burst == [] then e' == e
    else
      var init, last := burst[..|burst| - 1], burst[|burst| - 1];
      exists m :: Performed(cfg, sending, e, m, init) && HadTurn(cfg, sending, m, e', last)
  }

  ghost predicate HadTurn(cfg: Config, sending: bool, e: End, e': End, o: Other)
    requires cfg.chunk > 0
  {
    if o.DeviceSends? || o.DeviceLands? then Worked(cfg, e, e', o) else Served(cfg, e, e', ActorOf(o, sending))
  }

  lemma PerformedOn(cfg: Config, sending: bool, e: End, m: End, e': End, burst: seq<Other>, k: nat)
    requires cfg.chunk > 0 && k < |burst|
    requires Performed(cfg, sending, e, m, burst[..k]) && HadTurn(cfg, sending, m, e', burst[k])
    ensures Performed(cfg, sending, e, e', burst[..k + 1])
  {
    hide HadTurn;
    assert burst[..k + 1][..k] == burst[..k];
  }

  method Others(t: Transport, plan: Plan, sending: bool) returns (rest: Plan)
    requires t.Valid()
    modifies t, t.sendBuf, t.recvBuf, t.credits, t.reasm
    ensures t.Valid() && old(t.past) <= t.past && Kept(sending, old(t.view), t.view)
    ensures rest == if plan == [] then [] else plan[1..]
    ensures Performed(t.Cfg(), sending, old(t.view), t.view, if plan == [] then [] else plan[0])
    ensures plan == [] ==> t.view == old(t.view)
  {
    hide EndInv, IsPast, Rings.Ring, SendsPosted, SendsDone, RecvsPosted, Apply, Enabled, Served, Performed, Worked;
    NonePerformed(t.Cfg(), sending, t.view);
    if plan == [] {
      return [];
    }
    assert plan[0][..0] == [] && plan[0][..|plan[0]|] == plan[0];
    for i := 0 to |plan[0]|
      invariant t.Valid() && old(t.past) <= t.past && Kept(sending, old(t.view), t.view)
      invariant Performed(t.Cfg(), sending, old(t.view), t.view, plan[0][..i])
    {
      ghost var e := t.view;
      GiveTurn(t, plan[0][i], sending);
      PerformedOn(t.Cfg(), sending, old(t.view), e, t.view, plan[0], i);
    }
    rest := plan[1..];
  }

  lemma NonePerformed(cfg: Config, sending: bool, e: End)
    requires cfg.chunk > 0
    ensures Performed(cfg, sending, e, e, [])
  {}

  method GiveTurn(t: Transport, o: Other, sending: bool)
    requires t.Valid()
    modifies t, t.sendBuf, t.recvBuf, t.credits, t.reasm
    ensures t.Valid() && old(t.past) <= t.past && Kept(sending, old(t.view), t.view)
    ensures HadTurn(t.Cfg(), sending, old(t.view), t.view, o)
  {
    hide EndInv, IsPast, Rings.Ring, SendsPosted, SendsDone, RecvsPosted, Apply, Enabled, Served, Worked;
    match o {
      case Runs => RunOther(t, sending);
      case Begins(msgs, batch, max) => StartOther(t, sending, msgs, batch, max);
      case DeviceSends => RunDevice(t, o);
      case DeviceLands(_) => RunDevice(t, o);
      case PollsSend => RunPoller(t, Poller(false));
      case PollsRecv => RunPoller(t, Poller(true));
      case PushesToken => RunPoller(t, Pusher);
      case Shuts => RunCloser(t, Shut);
      case ShutsCredits => RunCloser(t, ShutCredits);
      case SendsFin => RunCloser(t, Actor.Fin);
    }
  }

  // ----------------------------------------------------------- a whole call

  /** A run of `n` own steps of a call and bursts of others, the bursts being `used`. */
  ghost predicate RanIn(cfg: Config, sending: bool, n: nat, e: End, e': End, used: Plan)
    requires cfg.chunk > 0
    decreases n, 0
  {
    if n == 0 then e' == e && used == []
    else
      var k: nat := n - 1;
      exists m :: RanOn(cfg, sending, k, e, m, e', used)
  }

  ghost predicate RanOn(cfg: Config, sending: bool, n: nat, e: End, m: End, e': End, used: Plan)
    requires cfg.chunk > 0
    decreases n, 1
  {
    || (RanIn(cfg, sending, n, e, m, used) && OwnStep(cfg, sending, m, e'))
    || (used != [] && RanIn(cfg, sending, n, e, m, used[..|used| - 1])
        && Performed(cfg, sending, m, e', used[|used| - 1]))
  }

  ghost predicate OwnStep(cfg: Config, sending: bool, e: End, e': End)
    requires cfg.chunk > 0
  {
    exists s :: (if sending then OfSender(s) else OfReceiver(s)) && Enabled(cfg, e, s) && e' == Apply(cfg, e, s)
  }

  /**
   * What has happened from `e` to `e'`: the call's own steps, and between them the bursts of the plan, in order,
   * all but the rest.
   */
  ghost predicate Ran(cfg: Config, sending: bool, e: End, e': End, plan: Plan, rest: Plan)
    requires cfg.chunk > 0
  {
    && |rest| <= |plan| && rest == plan[|plan| - |rest|..]
    && var used := plan[..|plan| - |rest|];
       exists n: nat :: RanIn(cfg, sending, n, e, e', used)
  }

  lemma RanNothing(cfg: Config, sending: bool, e: End, plan: Plan)
    requires cfg.chunk > 0
    ensures Ran(cfg, sending, e, e, plan, plan)
  {
    assert plan[..0] == [] && plan[0..] == plan;
    assert RanIn(cfg, sending, 0, e, e, plan[..0]);
  }

  lemma RanStep(cfg: Config, sending: bool, e: End, m: End, s: Step, plan: Plan, rest: Plan)
    requires cfg.chunk > 0 && Ran(cfg, sending, e, m, plan, rest)
    requires Enabled(cfg, m, s) && if sending then OfSender(s) else OfReceiver(s)
    ensures Ran(cfg, sending, e, Apply(cfg, m, s), plan, rest)
  {
    hide Enabled, Apply, Performed;
    var used := plan[..|plan| - |rest|];
    var n: nat :| RanIn(cfg, sending, n, e, m, used);
    assert OwnStep(cfg, sending, m, Apply(cfg, m, s));
    assert RanOn(cfg, sending, n, e, m, Apply(cfg, m, s), used);
    assert RanIn(cfg, sending, n + 1, e, Apply(cfg, m, s), used);
  }

  /** After `Others`. */
  lemma RanBurst(cfg: Config, sending: bool, e: End, m: End, e': End, plan: Plan, rest: Plan)
    requires cfg.chunk > 0 && Ran(cfg, sending, e, m, plan, rest)
    requires Performed(cfg, sending, m, e', if rest == [] then [] else rest[0]) && (rest == [] ==> e' == m)
    ensures Ran(cfg, sending, e, e', plan, if rest == [] then [] else rest[1..])
  {
    hide OwnStep, Performed;
    if rest != [] {
      var used := plan[..|plan| - |rest|];
      var n: nat :| RanIn(cfg, sending, n, e, m, used);
      var used' := plan[..|plan| - |rest| + 1];
      assert used'[..|used|] == used && used'[|used|] == rest[0];
      assert RanOn(cfg, sending, n, e, m, e', used');
      assert RanIn(cfg, sending, n + 1, e, e', used');
    }
  }

  lemma {:induction false} RanInTrans(cfg: Config, sending: bool, k: nat, n: nat, e: End, m: End, e': End,
                                      a: Plan, b: Plan)
    requires cfg.chunk > 0 && RanIn(cfg, sending, k, e, m, a) && RanIn(cfg, sending, n, m, e', b)
    ensures RanIn(cfg, sending, k + n, e, e', a + b)
    decreases n
  {
    hide OwnStep, Performed;
    if n == 0 {
      assert a + b == a;
    } else {
      var n': nat := n - 1;
      var x :| RanOn(cfg, sending, n', m, x, e', b);
      if RanIn(cfg, sending, n - 1, m, x, b) && OwnStep(cfg, sending, x, e') {
        RanInTrans(cfg, sending, k, n - 1, e, m, x, a, b);
      } else {
        RanInTrans(cfg, sending, k, n - 1, e, m, x, a, b[..|b| - 1]);
        assert (a + b)[..|a + b| - 1] == a + b[..|b| - 1];
      }
      assert RanOn(cfg, sending, k + n - 1, e, x, e', a + b);
    }
  }

  lemma RanTrans(cfg: Config, sending: bool, e: End, m: End, e': End, plan: Plan, mid: Plan, rest: Plan)
    requires cfg.chunk > 0 && Ran(cfg, sending, e, m, plan, mid) && Ran(cfg, sending, m, e', mid, rest)
    ensures Ran(cfg, sending, e, e', plan, rest) && |rest| <= |mid| <= |plan|
  {
    hide OwnStep, Performed, RanIn;
    var a, b := plan[..|plan| - |mid|], mid[..|mid| - |rest|];
    var k: nat :| RanIn(cfg, sending, k, e, m, a);
    var n: nat :| RanIn(cfg, sending, n, m, e', b);
    RanInTrans(cfg, sending, k, n, e, m, e', a, b);
    assert a + b == plan[..|plan| - |rest|];
  }

  /** A point at which a call can be interrupted. */
  method Yield(t: Transport, sending: bool, ghost e: End, ghost plan: Plan, rest: Plan) returns (rest': Plan)
    requires t.Valid() && Ran(t.Cfg(), sending, e, t.view, plan, rest)
    modifies t, t.sendBuf, t.recvBuf, t.credits, t.reasm
    ensures t.Valid() && old(t.past) <= t.past && Kept(sending, old(t.view), t.view)
    ensures Ran(t.Cfg(), sending, e, t.view, plan, rest') && rest' == if rest == [] then [] else rest[1..]
    ensures rest == [] ==> t.view == old(t.view)
  {
    hide EndInv, IsPast, Rings.Ring, SendsPosted, SendsDone, RecvsPosted, Performed, Ran;
    rest' := Others(t, rest, sending);
    RanBurst(t.Cfg(), sending, e, old(t.view), t.view, plan, rest);
  }
}
