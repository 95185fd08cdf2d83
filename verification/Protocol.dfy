/**
 * Two transports joined by an in-order, lossless wire in each direction: every interleaving of the
 * two senders, receivers, pollers, shutdowns and the device. No post and no completion fails.
 */
module Protocol {
  import opened Words

  import opened Framing
  import opened Endpoint
  import opened Slots
  import opened TxInvariant
  import opened RxInvariant

  datatype System = System(a: End, b: End)

  /** A step at one side, or the device moving the head frame of one wire into a posted receive. */
  datatype Action = At(atA: bool, step: Step) | Deliver(fromA: bool)

  predicate CanDeliver(x: End, y: End) {
    && x.tx.sq != [] && x.tx.sq[0] < |x.tx.mem|
    && y.rx.rq != [] && y.rx.rq[0] < |y.rx.mem|
  }

  /** The frame is read out of the sender's slot when the peer takes it, not when it was posted. */
  function HeadFrame(t: Tx): Frame
    requires t.sq != [] && t.sq[0] < |t.mem|
  {
    t.mem[t.sq[0]]
  }

  predicate CanAct(cfg: Config, s: System, act: Action) {
    match act
    case At(atA, step) => Enabled(cfg, if atA then s.a else s.b, step)
    case Deliver(fromA) => if fromA then CanDeliver(s.a, s.b) else CanDeliver(s.b, s.a)
  }

  function Act(cfg: Config, s: System, act: Action): System
    requires cfg.chunk > 0 && CanAct(cfg, s, act)
  {
    match act
    case At(true, step) => s.(a := Apply(cfg, s.a, step))
    case At(false, step) => s.(b := Apply(cfg, s.b, step))
    case Deliver(true) =>
      System(s.a.(tx := Accepted(s.a.tx)), s.b.(rx := Landed(s.b.rx, HeadFrame(s.a.tx))))
    case Deliver(false) =>
      System(s.a.(rx := Landed(s.a.rx, HeadFrame(s.b.tx))), s.b.(tx := Accepted(s.b.tx)))
  }

  ghost predicate IsInit(cfg: Config, s: System) {
    exists ma, ra, mb, rb ::
      && |ma| == |mb| == cfg.SendSlots() && |ra| == |rb| == cfg.depth
      && s == System(InitEnd(cfg, ma, ra), InitEnd(cfg, mb, rb))
  }

  /** One action leads from a state to the next. */
  ghost predicate Leads(cfg: Config, before: System, act: Action, s: System)
    requires cfg.Valid()
  {
    CanAct(cfg, before, act) && s == Act(cfg, before, act)
  }

  /** The state ends some run of `n` actions. */
  ghost predicate ReachedIn(cfg: Config, s: System, n: nat)
    requires cfg.Valid()
    decreases n
  {
    if n == 0 then IsInit(cfg, s)
    else exists before, act :: ReachedIn(cfg, before, n - 1) && Leads(cfg, before, act, s)
  }

  // ------------------------------------------------------------ invariants

  /** The frames posted are those the peer has handled, those in its queue, and those on the wire. */
  ghost predicate StreamLink(t: Tx, r: Rx) {
    t.log.stream == r.log.dispatched + Arrived(r) + Wire(t)
  }

  /** Credits on the sending side of a direction: free, in the sender's hand, or spent on the wire. */
  function TxCredits(t: Tx): nat {
    t.credits + (if t.sender.SSlot? || t.sender.SPost? then 1 else 0) + t.log.leak + |DataOf(Wire(t))|
  }

  /** Credits on the receiving side: frames received and not yet accounted, pending, being returned. */
  function RxCredits(r: Rx): nat { |DataOf(Arrived(r))| + Unreturned(r) }

  function Unreturned(r: Rx): nat {
    |HeldFrame(r.receiver)| + |r.queue| + r.pending + (if r.receiver.RReturn? then r.receiver.n else 0) + r.log.leak
  }

  /** Conservation in the direction from `x` to `y`; credit frames travel the other way. */
  ghost predicate Conserved(cfg: Config, x: End, y: End) {
    TxCredits(x.tx) + RxCredits(y.rx) + CreditSum(Wire(y.tx)) + CreditSum(Arrived(x.rx)) == cfg.depth
  }

  /** The first `n` data frames have no gap before them. */
  predicate Gapless(t: Tx, n: nat) { t.log.sound < 0 || n <= t.log.sound }

  /**
   * Until it drops a frame, and while the frames it takes have no gap before them, the reassembler of `y` holds
   * what the consumed frames assemble to; from then on it has at least delivered what came before.
   */
  ghost predicate InStep(cfg: Config, t: Tx, y: End) {
    var r := y.rx;
    Whole(cfg, r) ==>
      if Gapless(t, |r.log.consumed|) then Assemble(r.log.consumed) == Assembly(r.log.delivered, r.reasm)
      else Assemble(r.log.consumed[..t.log.sound]).msgs <= r.log.delivered
  }

  /** Posting behind a gap takes a credit besides the one that was lost at the gap. */
  ghost predicate GapNeedsTwo(cfg: Config, t: Tx) { t.log.sound >= 0 ==> cfg.depth >= 2 }

  /** Once `y` has seen the end, everything finished before the FIN has been delivered. */
  ghost predicate EndSeen(t: Tx, r: Rx) {
    r.log.eof ==> 0 <= t.log.finAt <= |t.log.accepted| && t.log.accepted[..t.log.finAt] <= r.log.delivered
  }

  ghost predicate Linked(cfg: Config, x: End, y: End) {
    && StreamLink(x.tx, y.rx) && Conserved(cfg, x, y) && InStep(cfg, x.tx, y) && EndSeen(x.tx, y.rx)
    && GapNeedsTwo(cfg, x.tx)
  }

  ghost predicate EndInv(cfg: Config, e: End)
    requires cfg.Valid()
  {
    TxInv(cfg, e.tx, e.closed) && RxInv(cfg, e.rx, e.closed)
  }

  ghost predicate Inv(cfg: Config, s: System)
    requires cfg.Valid()
  {
    && EndInv(cfg, s.a) && EndInv(cfg, s.b)
    && Linked(cfg, s.a, s.b) && Linked(cfg, s.b, s.a)
  }

  /** A side that is open has dropped nothing, given up nothing and left no gap. */
  lemma OpenIsSound(cfg: Config, e: End)
    requires cfg.Valid() && EndInv(cfg, e)
    ensures !e.closed || !e.tx.log.again ==> e.tx.log.sound < 0
    ensures !e.closed ==> e.rx.log.lost == [] && Whole(cfg, e.rx) && !e.tx.log.aborted && !e.tx.shut
    ensures e.tx.shut ==> e.closed
  {
    hide RecvPartitioned, RingBacked, CreditsBatched, Routed, Partitioned, Kinds, TokensMatch, FinPosted, InSequence;
    hide AllFrames, DataOf, InFlight;
  }

  // ------------------------------------------------- the stream of a direction

  /** What a step of the sending half posts. */
  function Posts(t: Tx, s: TxStep): seq<Frame> {
    if s.PostData? && CanPostData(t) then [t.sender.task.todo[0]]
    else if s.PostFin? then [Fin]
    else []
  }

  lemma StreamGrows(cfg: Config, t: Tx, closed: bool, s: TxStep)
    requires cfg.Valid() && TxEnabled(cfg, t, closed, s)
    ensures TxApply(cfg, t, closed, s).log.stream == t.log.stream + Posts(t, s)
  {
    hide AllFrames, DataOf;
    match s {
      case PostData =>
      case PostFin =>
      case _ =>
    }
  }

  lemma WireKept(cfg: Config, t: Tx, closed: bool, s: TxStep)
    requires cfg.Valid() && Partitioned(cfg, t) && TxEnabled(cfg, t, closed, s)
    ensures var t' := TxApply(cfg, t, closed, s);
            Wire(t') == Wire(t) + Posts(t, s) && t'.log.stream == t.log.stream + Posts(t, s)
  {
    hide Count;
    match s {
      case PostData =>
        SlotOnce(cfg, t, t.sender.slot);
        FramesAtOther(t.sq, t.mem, t.sender.slot, t.sender.task.todo[0]);
      case PostFin =>
        SlotOnce(cfg, t, t.ctrlFree[0]);
        FramesAtOther(t.sq, t.mem, t.ctrlFree[0], Fin);
      case _ =>
    }
  }

  /** No step of the sending half makes or loses a credit. */
  lemma TxCreditsKept(cfg: Config, t: Tx, closed: bool, s: TxStep)
    requires cfg.Valid() && TxInv(cfg, t, closed) && TxEnabled(cfg, t, closed, s)
    ensures TxCredits(TxApply(cfg, t, closed, s)) == TxCredits(t)
    ensures CreditSum(Wire(TxApply(cfg, t, closed, s))) == CreditSum(Wire(t))
  {
    hide Count, DataOf, CreditSum, AllFrames, Posting, FinPosted, Counted, TokensMatch;
    WireKept(cfg, t, closed, s);
    if s.PostData? {
      assert t.sender.task.todo[0] in Todo(t.sender);
      ProjectSnoc(Wire(t), t.sender.task.todo[0]);
    } else if s.PostFin? {
      ProjectSnoc(Wire(t), Fin);
    } else {
      assert Wire(t) + [] == Wire(t);
    }
  }

  lemma UnreturnedKept(cfg: Config, t: Tx, r: Rx, closed: bool, s: RxStep)
    requires RxEnabled(cfg, t, r, closed, s)
    ensures var r' := RxApply(cfg, t, r, closed, s);
            && Unreturned(r') == Unreturned(r) + (if s.DropRecv? then 1 else 0)
            && (!s.DropRecv? ==> r'.cq == r.cq && r'.mem == r.mem && r'.log.dispatched == r.log.dispatched)
  {}

  /** Nor does a step of the receiving half, except to hand them to `returnCredit`. */
  lemma RxCreditsKept(cfg: Config, t: Tx, r: Rx, closed: bool, s: RxStep)
    requires RxEnabled(cfg, t, r, closed, s)
    ensures var r' := RxApply(cfg, t, r, closed, s);
            && RxCredits(r') == RxCredits(r) && CreditSum(Arrived(r')) == CreditSum(Arrived(r))
            && r'.log.dispatched + Arrived(r') == r.log.dispatched + Arrived(r)
  {
    hide DataOf, CreditSum, Unreturned, RxApply;
    UnreturnedKept(cfg, t, r, closed, s);
    if s.DropRecv? {
      DroppedFrame(cfg, t, r, closed);
    }
  }

  lemma DroppedFrame(cfg: Config, t: Tx, r: Rx, closed: bool)
    requires CanDropRecv(t, r, closed)
    ensures var r' := RxApply(cfg, t, r, closed, DropRecv);
            && |DataOf(Arrived(r'))| + 1 == |DataOf(Arrived(r))| && CreditSum(Arrived(r')) == CreditSum(Arrived(r))
            && r'.log.dispatched + Arrived(r') == r.log.dispatched + Arrived(r)
  {
    hide DataOf, CreditSum, FramesAt;
    ArrivedHead(r, RxApply(cfg, t, r, closed, DropRecv));
  }

  /** Dispatching an arrived frame moves it, and its credits, on. */
  lemma PollCredits(cfg: Config, t: Tx, r: Rx)
    requires CanPollRecv(cfg, t, r)
    ensures var f := r.mem[r.cq[0]]; var r' := DoPollRecv(r);
            && RxCredits(r') == RxCredits(r)
            && CreditSum(Arrived(r)) == CreditSum(Arrived(r')) + (if f.Credit? then f.n else 0)
            && r'.log.dispatched + Arrived(r') == r.log.dispatched + Arrived(r)
            && TxCredits(Released(t, f)) == TxCredits(t) + if f.Credit? then f.n else 0
  {
    hide DataOf, CreditSum, FramesAt;
    var r' := DoPollRecv(r);
    ArrivedHead(r, r');
    assert Unreturned(r') == Unreturned(r) + if r.mem[r.cq[0]].Data? then 1 else 0;
  }

  /** Taking the head of the receive completions. */
  lemma ArrivedHead(r: Rx, r': Rx)
    requires r.cq != [] && r.cq[0] < |r.mem| && r'.cq == r.cq[1..] && r'.mem == r.mem
    requires r'.log.dispatched == r.log.dispatched + [r.mem[r.cq[0]]]
    ensures var f := r.mem[r.cq[0]];
            && |DataOf(Arrived(r))| == |DataOf(Arrived(r'))| + (if f.Data? then 1 else 0)
            && CreditSum(Arrived(r)) == CreditSum(Arrived(r')) + (if f.Credit? then f.n else 0)
            && r'.log.dispatched + Arrived(r') == r.log.dispatched + Arrived(r)
  {
    hide DataOf, CreditSum;
    FramesAtHead(r.cq, r.mem);
    ProjectHead(Arrived(r));
  }

  lemma ReturnedCredits(t: Tx, r: Rx)
    requires r.receiver.RReturn? && CanPostControl(t)
    requires Wire(PostControl(t, Credit(r.receiver.n))) == Wire(t) + [Credit(r.receiver.n)]
    ensures RxCredits(r) == RxCredits(CreditPosted(r)) + r.receiver.n
    ensures var t' := PostControl(t, Credit(r.receiver.n));
            TxCredits(t') == TxCredits(t) && CreditSum(Wire(t')) == CreditSum(Wire(t)) + r.receiver.n
  {
    hide DataOf, CreditSum;
    ProjectSnoc(Wire(t), Credit(r.receiver.n));
    assert Arrived(CreditPosted(r)) == Arrived(r);
  }

  lemma DeliveredCredits(t: Tx, r: Rx)
    requires t.sq != [] && t.sq[0] < |t.mem| && Wire(t) == [HeadFrame(t)] + Wire(Accepted(t))
    requires r.rq != [] && r.rq[0] < |r.mem| && Arrived(Landed(r, HeadFrame(t))) == Arrived(r) + [HeadFrame(t)]
    ensures var t', r' := Accepted(t), Landed(r, HeadFrame(t));
            && TxCredits(t) + RxCredits(r) == TxCredits(t') + RxCredits(r')
            && CreditSum(Wire(t)) + CreditSum(Arrived(r)) == CreditSum(Wire(t')) + CreditSum(Arrived(r'))
  {
    hide DataOf, CreditSum;
    ProjectHead(Wire(t));
    assert Wire(t)[1..] == Wire(Accepted(t));
    ProjectSnoc(Arrived(r), HeadFrame(t));
  }

  // --------------------------------------------------------- reassembly

  lemma SoundIsPrefix(cfg: Config, t: Tx, closed: bool)
    requires cfg.Valid() && Posting(cfg, t, closed)
    ensures Sound(t) <= AllFrames(t.log.accepted, cfg.chunk) && Sound(t) <= DataOf(t.log.stream)
    ensures t.log.sound < 0 ==> Sound(t) == DataOf(t.log.stream)
    ensures t.log.sound >= 0 ==> |Sound(t)| == t.log.sound
    ensures Subsequence(DataOf(t.log.stream), AllFrames(t.log.accepted, cfg.chunk))
  {
    hide AllFrames, DataOf, Subsequence;
    SubsequencePrefix(DataOf(t.log.stream), Todo(t.sender), AllFrames(t.log.accepted, cfg.chunk));
  }

  lemma HandledIsPrefix(t: Tx, r: Rx)
    requires StreamLink(t, r)
    ensures DataOf(r.log.dispatched) <= DataOf(t.log.stream)
  {
    hide DataOf;
    var d, rest := r.log.dispatched, Arrived(r) + Wire(t);
    assert t.log.stream == d + rest;
    ProjectConcat(d, rest);
  }

  /** The frames handled by the poller but for one dropped last. */
  lemma HandledData(r: Rx)
    ensures DataOf(Handled(r)) <= DataOf(r.log.dispatched)
  {}

  /** Until a frame is dropped, what `y` consumed is a prefix of the frames posted by `x`. */
  lemma ConsumedIsPrefix(cfg: Config, x: End, y: End)
    requires cfg.Valid() && EndInv(cfg, x) && EndInv(cfg, y) && StreamLink(x.tx, y.rx) && Whole(cfg, y.rx)
    ensures y.rx.log.consumed + Queued(y.rx) <= DataOf(y.rx.log.dispatched)
    ensures DataOf(y.rx.log.dispatched) <= DataOf(x.tx.log.stream)
    ensures Sound(x.tx) <= AllFrames(x.tx.log.accepted, cfg.chunk) && Sound(x.tx) <= DataOf(x.tx.log.stream)
    ensures x.tx.log.sound < 0 ==> Sound(x.tx) == DataOf(x.tx.log.stream)
    ensures x.tx.log.sound >= 0 ==> |Sound(x.tx)| == x.tx.log.sound
  {
    assert Posting(cfg, x.tx, x.closed) && Routed(cfg, y.rx);
    hide TxInv, RxInv, AllFrames, DataOf, Queued, Sound, Subsequence;
    SoundIsPrefix(cfg, x.tx, x.closed);
    HandledIsPrefix(x.tx, y.rx);
    HandledData(y.rx);
  }

  /** The frame in the receiver's hand is the next one posted. */
  lemma NextFrame(cfg: Config, x: End, y: End) returns (f: Frame)
    requires cfg.Valid() && EndInv(cfg, x) && EndInv(cfg, y) && StreamLink(x.tx, y.rx)
    requires Whole(cfg, y.rx) && CanConsume(y.rx)
    ensures f.Data? && y.rx.log.consumed + [f] <= DataOf(x.tx.log.stream)
    ensures f.payload == PayloadIn(y.rx.mem, y.rx.receiver.frame) && f.more == y.rx.receiver.frame.more
    ensures DoConsume(cfg, y.rx).log.consumed == y.rx.log.consumed + [f]
  {
    hide EndInv, AllFrames, DataOf, DoConsume, Sound, Queued;
    ConsumedIsPrefix(cfg, x, y);
    f := HandFrame(cfg, y);
  }

  lemma HandFrame(cfg: Config, y: End) returns (f: Frame)
    requires cfg.Valid() && EndInv(cfg, y) && CanConsume(y.rx)
    ensures f.Data? && Queued(y.rx) != [] && Queued(y.rx)[0] == f
    ensures f.payload == PayloadIn(y.rx.mem, y.rx.receiver.frame) && f.more == y.rx.receiver.frame.more
    ensures DoConsume(cfg, y.rx).log.consumed == y.rx.log.consumed + [f]
  {
    assert RingBacked(cfg, y.rx) && Routed(cfg, y.rx);
    hide EndInv, DoConsume, Routed;
    RoutedConsume(cfg, y.rx);
    ConsumeEffect(cfg, y.rx);
    QueuedTake(y.rx, DoConsume(cfg, y.rx));
    var fr := y.rx.receiver.frame;
    f := y.rx.mem[fr.slot];
    assert fr in HeldFrame(y.rx.receiver) + y.rx.queue;
  }

  /** The next frame, with no gap before it, continues the frames of the messages accepted. */
  lemma NextIsSound(cfg: Config, x: End, y: End, f: Frame)
    requires cfg.Valid() && EndInv(cfg, x) && EndInv(cfg, y) && StreamLink(x.tx, y.rx) && Whole(cfg, y.rx)
    requires y.rx.log.consumed + [f] <= DataOf(x.tx.log.stream) && Gapless(x.tx, |y.rx.log.consumed| + 1)
    ensures y.rx.log.consumed + [f] <= AllFrames(x.tx.log.accepted, cfg.chunk)
    ensures forall m :: m in x.tx.log.accepted ==> |m| <= MAX_MESSAGE
  {
    assert Posting(cfg, x.tx, x.closed);
    hide TxInv, RxInv, AllFrames, DataOf, Queued, Sound, Subsequence, InSequence;
    ConsumedIsPrefix(cfg, x, y);
  }

  /** Reassembling the next frame, with no gap before it, never trips the guard and keeps the reassembler in step. */
  lemma ConsumeInStep(cfg: Config, x: End, y: End)
    requires cfg.Valid() && EndInv(cfg, x) && EndInv(cfg, y) && StreamLink(x.tx, y.rx) && InStep(cfg, x.tx, y)
    requires Whole(cfg, y.rx) && CanConsume(y.rx) && Gapless(x.tx, |y.rx.log.consumed| + 1)
    ensures !Reassembled(y.rx).1.TooLarge?
    ensures InStep(cfg, x.tx, y.(rx := DoConsume(cfg, y.rx)))
  {
    hide EndInv, StreamLink, AllFrames, DataOf, DoConsume, AddFragment, Assemble;
    var f := NextFrame(cfg, x, y);
    NextIsSound(cfg, x, y, f);
    ConsumeEffect(cfg, y.rx);
    GuardNeverTrips(x.tx.log.accepted, cfg.chunk, y.rx.log.consumed, f, MAX_MESSAGE);
    AddedMessage(y.rx.reasm, MAX_MESSAGE, f.payload, f.more);
  }

  /** Whatever the frame behind a gap does, what came before stays delivered. */
  lemma ConsumePastGap(cfg: Config, x: End, y: End)
    requires cfg.Valid() && EndInv(cfg, x) && EndInv(cfg, y) && StreamLink(x.tx, y.rx) && InStep(cfg, x.tx, y)
    requires Whole(cfg, y.rx) && CanConsume(y.rx) && !Gapless(x.tx, |y.rx.log.consumed| + 1)
    ensures InStep(cfg, x.tx, y.(rx := DoConsume(cfg, y.rx)))
  {
    hide EndInv, StreamLink, AllFrames, DataOf, DoConsume, AddFragment, Assemble;
    var f := NextFrame(cfg, x, y);
    ConsumeEffect(cfg, y.rx);
    var c := y.rx.log.consumed;
    assert (c + [f])[..x.tx.log.sound] == c[..x.tx.log.sound];
    assert c[..|c|] == c;
  }

  lemma AddedMessage(r: Reasm, max: int, payload: Bytes, more: bool)
    ensures var added := AddFragment(r, max, payload, more).1;
            added != TooLarge ==> added == if more then Incomplete else Complete(r.buf + payload)
  {}

  lemma FinIn(cfg: Config, t: Tx, d: seq<Frame>) returns (i: nat)
    requires cfg.Valid() && FinPosted(cfg, t) && d <= t.log.stream && Fin in d
    ensures t.log.finAt <= |t.log.accepted| && i < |d| && FinBehind(cfg, t.log, i) && t.log.stream[..i] == d[..i]
  {
    hide AllFrames, DataOf, FinBehind;
    i :| 0 <= i < |d| && d[i] == Fin;
    assert t.log.stream[i] == Fin;
  }

  /** The first frames of a stream, with a FIN among them, hold the frames of everything finished before it. */
  lemma FinWithin(cfg: Config, t: Tx, d: seq<Frame>)
    requires cfg.Valid() && FinPosted(cfg, t) && d <= t.log.stream && Fin in d
    ensures 0 <= t.log.finAt <= |t.log.accepted|
    ensures AllFrames(t.log.accepted[..t.log.finAt], cfg.chunk) <= DataOf(d)
    ensures t.log.finClean ==> DataOf(d) == DataOf(t.log.stream)
    ensures t.log.sound >= 0 ==> |AllFrames(t.log.accepted[..t.log.finAt], cfg.chunk)| <= t.log.sound
  {
    hide AllFrames, DataOf, FinPosted;
    var i := FinIn(cfg, t, d);
    ProjectConcat(d[..i], d[i..]);
    assert d == d[..i] + d[i..];
    ProjectConcat(d, t.log.stream[|d|..]);
    assert t.log.stream == d + t.log.stream[|d|..];
  }

  /** A FIN handled by the peer's poller stands behind the frames of everything finished before it. */
  lemma FinHandled(cfg: Config, t: Tx, r: Rx)
    requires cfg.Valid() && FinPosted(cfg, t) && StreamLink(t, r) && Fin in r.log.dispatched
    ensures 0 <= t.log.finAt <= |t.log.accepted|
    ensures AllFrames(t.log.accepted[..t.log.finAt], cfg.chunk) <= DataOf(r.log.dispatched)
    ensures t.log.finClean ==> DataOf(r.log.dispatched) == DataOf(t.log.stream)
  {
    hide AllFrames, DataOf, Arrived, Wire;
    assert t.log.stream == r.log.dispatched + (Arrived(r) + Wire(t));
    FinWithin(cfg, t, r.log.dispatched);
  }

  /** And before a frame dropped last. */
  lemma FinBeforeDrop(cfg: Config, t: Tx, r: Rx)
    requires cfg.Valid() && FinPosted(cfg, t) && StreamLink(t, r) && Routed(cfg, r) && Whole(cfg, r)
    requires Fin in r.log.dispatched
    ensures 0 <= t.log.finAt <= |t.log.accepted|
    ensures AllFrames(t.log.accepted[..t.log.finAt], cfg.chunk) <= DataOf(Handled(r))
    ensures t.log.finClean ==> DataOf(Handled(r)) == DataOf(t.log.stream)
    ensures t.log.sound >= 0 ==> |AllFrames(t.log.accepted[..t.log.finAt], cfg.chunk)| <= t.log.sound
  {
    hide AllFrames, DataOf, Arrived, Wire;
    assert t.log.stream == r.log.dispatched + (Arrived(r) + Wire(t));
    assert Handled(r) <= r.log.dispatched;
    FinWithin(cfg, t, Handled(r));
  }

  /** At end of file, with no frame dropped, all that was finished before the FIN has been delivered. */
  lemma EofDelivers(cfg: Config, x: End, y: End)
    requires cfg.Valid() && EndInv(cfg, x) && EndInv(cfg, y) && StreamLink(x.tx, y.rx) && InStep(cfg, x.tx, y)
    requires Whole(cfg, y.rx) && CanReturnEof(y.rx)
    ensures y.rx.log.consumed == DataOf(Handled(y.rx))
    ensures 0 <= x.tx.log.finAt <= |x.tx.log.accepted|
    ensures x.tx.log.accepted[..x.tx.log.finAt] <= y.rx.log.delivered
  {
    FinFacts(cfg, x, y);
    hide EndInv, AllFrames, DataOf, Assemble, StreamLink;
    FinBeforeDrop(cfg, x.tx, y.rx);
    var c := y.rx.log.consumed;
    AssembleCovers(x.tx.log.accepted[..x.tx.log.finAt], cfg.chunk,
                   if Gapless(x.tx, |c|) then c else c[..x.tx.log.sound]);
  }

  lemma FinFacts(cfg: Config, x: End, y: End)
    requires cfg.Valid() && EndInv(cfg, x) && EndInv(cfg, y) && Whole(cfg, y.rx) && CanReturnEof(y.rx)
    ensures FinPosted(cfg, x.tx) && Routed(cfg, y.rx) && Fin in y.rx.log.dispatched
    ensures y.rx.log.consumed == DataOf(Handled(y.rx))
  {
    hide Count, AllFrames, DataOf, Posting, FinPosted, Subsequence;
    assert Queued(y.rx) == [];
    assert y.rx.log.consumed + [] == y.rx.log.consumed;
  }

  // ------------------------------------------------------------- every step

  lemma LogGrows(cfg: Config, t: Tx, closed: bool, s: TxStep)
    requires cfg.Valid() && TxEnabled(cfg, t, closed, s)
    ensures var t' := TxApply(cfg, t, closed, s);
            && t.log.accepted <= t'.log.accepted && (t.log.finAt >= 0 ==> t'.log.finAt == t.log.finAt)
  {
    hide AllFrames, DataOf, FramesAt;
    match s {
      case SendCall(_) =>
      case PostFin =>
      case _ =>
    }
  }

  lemma SoundGrows(cfg: Config, t: Tx, closed: bool, s: TxStep)
    requires cfg.Valid() && TxEnabled(cfg, t, closed, s)
    ensures var t' := TxApply(cfg, t, closed, s);
            t'.log.sound == t.log.sound
            || (s.PostData? && t.log.torn && t.log.sound < 0 && t'.log.sound == |DataOf(t.log.stream)|)
  {
    hide AllFrames, DataOf, FramesAt;
    match s {
      case SendCall(_) =>
      case PostData =>
      case PostFin =>
      case SendAbort =>
      case _ =>
    }
  }

  lemma StreamKeptByTx(cfg: Config, x: End, y: End, s: TxStep)
    requires cfg.Valid() && Partitioned(cfg, x.tx) && TxEnabled(cfg, x.tx, x.closed, s)
    requires StreamLink(x.tx, y.rx) && EndSeen(x.tx, y.rx)
    ensures StreamLink(TxApply(cfg, x.tx, x.closed, s), y.rx) && EndSeen(TxApply(cfg, x.tx, x.closed, s), y.rx)
  {
    hide Partitioned, TxApply, TxEnabled, Posts, Wire, Arrived;
    WireKept(cfg, x.tx, x.closed, s);
    LogGrows(cfg, x.tx, x.closed, s);
    var t' := TxApply(cfg, x.tx, x.closed, s);
    if y.rx.log.eof {
      assert t'.log.accepted[..x.tx.log.finAt] == x.tx.log.accepted[..x.tx.log.finAt];
    }
  }

  lemma TxRing(cfg: Config, t: Tx, closed: bool)
    requires cfg.Valid() && TxInv(cfg, t, closed)
    ensures Partitioned(cfg, t)
  {}

  /** What a side has consumed does not depend on what it sends. */
  lemma InStepOther(cfg: Config, t: Tx, y: End, t': Tx)
    ensures InStep(cfg, t, y) ==> InStep(cfg, t, y.(tx := t'))
  {}

  /** The first post behind a gap stands behind everything consumed so far. */
  lemma InStepGrows(cfg: Config, x: End, y: End, s: TxStep)
    requires cfg.Valid() && EndInv(cfg, x) && EndInv(cfg, y) && StreamLink(x.tx, y.rx) && InStep(cfg, x.tx, y)
    requires TxEnabled(cfg, x.tx, x.closed, s)
    ensures InStep(cfg, TxApply(cfg, x.tx, x.closed, s), y)
  {
    hide EndInv, StreamLink, DataOf, Assemble, TxApply, TxEnabled, Queued, Sound;
    SoundGrows(cfg, x.tx, x.closed, s);
    if Whole(cfg, y.rx) { ConsumedIsPrefix(cfg, x, y); }
  }

  lemma GapKept(cfg: Config, x: End, y: End, s: TxStep)
    requires cfg.Valid() && EndInv(cfg, x) && Conserved(cfg, x, y) && GapNeedsTwo(cfg, x.tx)
    requires TxEnabled(cfg, x.tx, x.closed, s)
    ensures GapNeedsTwo(cfg, TxApply(cfg, x.tx, x.closed, s))
  {
    hide AllFrames, DataOf, RxInv, Partitioned, Kinds, Counted, TokensMatch, FinPosted, InSequence, TxApply;
    SoundGrows(cfg, x.tx, x.closed, s);
  }

  /** The direction in which the side sends. */
  lemma OnTxForward(cfg: Config, x: End, y: End, s: TxStep)
    requires cfg.Valid() && EndInv(cfg, x) && EndInv(cfg, y) && Linked(cfg, x, y) && TxEnabled(cfg, x.tx, x.closed, s)
    ensures Linked(cfg, x.(tx := TxApply(cfg, x.tx, x.closed, s)), y)
  {
    hide TxApply, TxEnabled, TxInv, RxInv, StreamLink, EndSeen, GapNeedsTwo;
    hide TxCredits, RxCredits, Wire, Arrived, CreditSum, InStep, Partitioned;
    InStepGrows(cfg, x, y, s);
    GapKept(cfg, x, y, s);
    TxRing(cfg, x.tx, x.closed);
    StreamKeptByTx(cfg, x, y, s);
    TxCreditsKept(cfg, x.tx, x.closed, s);
  }

  /** The direction in which it receives. */
  lemma OnTxBackward(cfg: Config, x: End, y: End, s: TxStep)
    requires cfg.Valid() && EndInv(cfg, x) && Linked(cfg, y, x) && TxEnabled(cfg, x.tx, x.closed, s)
    ensures Linked(cfg, y, x.(tx := TxApply(cfg, x.tx, x.closed, s)))
  {
    hide TxApply, TxEnabled, TxInv, RxInv, StreamLink, EndSeen, GapNeedsTwo;
    hide TxCredits, RxCredits, Wire, Arrived, CreditSum, InStep;
    InStepOther(cfg, y.tx, x, TxApply(cfg, x.tx, x.closed, s));
    TxCreditsKept(cfg, x.tx, x.closed, s);
  }

  lemma OnTxKeeps(cfg: Config, x: End, y: End, s: TxStep)
    requires cfg.Valid() && EndInv(cfg, x) && EndInv(cfg, y) && Linked(cfg, x, y) && Linked(cfg, y, x)
    requires TxEnabled(cfg, x.tx, x.closed, s)
    ensures var x' := x.(tx := TxApply(cfg, x.tx, x.closed, s));
            EndInv(cfg, x') && Linked(cfg, x', y) && Linked(cfg, y, x')
  {
    OnTxForward(cfg, x, y, s);
    OnTxBackward(cfg, x, y, s);
    hide Linked, TxApply, TxEnabled, TxInv, RxInv;
    TxKept(cfg, x.tx, x.closed, s);
  }

  lemma InStepKept(cfg: Config, x: End, y: End, s: RxStep)
    requires cfg.Valid() && EndInv(cfg, x) && EndInv(cfg, y) && StreamLink(x.tx, y.rx) && InStep(cfg, x.tx, y)
    requires RxEnabled(cfg, y.tx, y.rx, y.closed, s)
    ensures InStep(cfg, x.tx, y.(rx := RxApply(cfg, y.tx, y.rx, y.closed, s)))
  {
    hide Assemble, TxInv, RxInv, StreamLink;
    if Whole(cfg, RxApply(cfg, y.tx, y.rx, y.closed, s)) {
      if !s.Consume? {
        DeliveredGrows(cfg, y, s);
      } else if Gapless(x.tx, |y.rx.log.consumed| + 1) {
        ConsumeInStep(cfg, x, y);
      } else {
        ConsumePastGap(cfg, x, y);
      }
    }
  }

  lemma EndSeenKept(cfg: Config, x: End, y: End, s: RxStep)
    requires cfg.Valid() && EndInv(cfg, x) && EndInv(cfg, y)
    requires StreamLink(x.tx, y.rx) && InStep(cfg, x.tx, y) && EndSeen(x.tx, y.rx)
    requires RxEnabled(cfg, y.tx, y.rx, y.closed, s)
    ensures EndSeen(x.tx, RxApply(cfg, y.tx, y.rx, y.closed, s))
  {
    hide Assemble, TxInv, RxInv, StreamLink;
    DeliveredGrows(cfg, y, s);
    if s.ReturnEof? && !y.closed {
      OpenIsSound(cfg, y);
      EofDelivers(cfg, x, y);
    }
  }

  lemma DeliveredGrows(cfg: Config, y: End, s: RxStep)
    requires RxEnabled(cfg, y.tx, y.rx, y.closed, s)
    ensures var r' := RxApply(cfg, y.tx, y.rx, y.closed, s);
            && y.rx.log.delivered <= r'.log.delivered
            && (r'.log.eof ==> y.rx.log.eof || (s.ReturnEof? && !y.closed && r'.log.delivered == y.rx.log.delivered))
            && y.rx.log.lost <= r'.log.lost
            && (!s.Consume? ==> r'.log.consumed == y.rx.log.consumed && r'.log.delivered == y.rx.log.delivered
                                && r'.reasm == y.rx.reasm)
  {}

  lemma OnRxKeeps(cfg: Config, x: End, y: End, s: RxStep)
    requires cfg.Valid() && EndInv(cfg, x) && EndInv(cfg, y) && Linked(cfg, x, y) && Linked(cfg, y, x)
    requires RxEnabled(cfg, y.tx, y.rx, y.closed, s)
    ensures var y' := y.(rx := RxApply(cfg, y.tx, y.rx, y.closed, s));
            EndInv(cfg, y') && Linked(cfg, x, y') && Linked(cfg, y', x)
  {
    hide Assemble, RxApply, RxEnabled, TxInv, RxInv, EndSeen, InStep, TxCredits, RxCredits, Wire, Arrived, CreditSum;
    InStepKept(cfg, x, y, s);
    EndSeenKept(cfg, x, y, s);
    RxKept(cfg, y.tx, y.rx, y.closed, s);
    RxCreditsKept(cfg, y.tx, y.rx, y.closed, s);
  }

  lemma PostCreditLinks(cfg: Config, x: End, y: End, y': End)
    requires y.rx.receiver.RReturn? && CanPostControl(y.tx)
    requires y' == y.(tx := PostControl(y.tx, Credit(y.rx.receiver.n)), rx := CreditPosted(y.rx))
    requires Wire(y'.tx) == Wire(y.tx) + [Credit(y.rx.receiver.n)] && Arrived(y'.rx) == Arrived(y.rx)
    requires StreamLink(x.tx, y.rx) && StreamLink(y.tx, x.rx) && InStep(cfg, x.tx, y) && InStep(cfg, y.tx, x)
    requires EndSeen(x.tx, y.rx) && EndSeen(y.tx, x.rx) && GapNeedsTwo(cfg, y.tx)
    ensures StreamLink(x.tx, y'.rx) && StreamLink(y'.tx, x.rx)
    ensures InStep(cfg, x.tx, y') && InStep(cfg, y'.tx, x) && GapNeedsTwo(cfg, y'.tx)
    ensures EndSeen(x.tx, y'.rx) && EndSeen(y'.tx, x.rx)
  {
    PostCreditLogs(y);
    hide Assemble, Wire, Arrived, PostControl, CreditPosted, CanPostControl;
  }

  lemma PostCreditKeeps(cfg: Config, x: End, y: End)
    requires cfg.Valid() && EndInv(cfg, x) && EndInv(cfg, y) && Linked(cfg, x, y) && Linked(cfg, y, x)
    requires y.rx.receiver.RReturn? && CanPostControl(y.tx)
    ensures var y' := y.(tx := PostControl(y.tx, Credit(y.rx.receiver.n)), rx := CreditPosted(y.rx));
            EndInv(cfg, y') && Linked(cfg, x, y') && Linked(cfg, y', x)
  {
    hide InStep, StreamLink, TxInv, RxInv, EndSeen, TxCredits, RxCredits, Wire, Arrived, CreditSum, GapNeedsTwo,
         PostControl, CreditPosted, CanPostControl;
    ReturnBound(cfg, y.rx, y.closed);
    TxKeptByPostControl(cfg, y.tx, y.closed, y.rx.receiver.n);
    RxKeptByCreditPosted(cfg, y.rx, y.closed);
    ReturnedCredits(y.tx, y.rx);
    PostCreditLinks(cfg, x, y, y.(tx := PostControl(y.tx, Credit(y.rx.receiver.n)), rx := CreditPosted(y.rx)));
  }

  lemma ReturnBound(cfg: Config, r: Rx, closed: bool)
    requires RxInv(cfg, r, closed) && r.receiver.RReturn?
    ensures 1 <= r.receiver.n <= cfg.Threshold()
  {}

  lemma PostCreditLogs(y: End)
    requires y.rx.receiver.RReturn? && CanPostControl(y.tx)
    ensures CreditPosted(y.rx).log == y.rx.log && CreditPosted(y.rx).reasm == y.rx.reasm
    ensures var t' := PostControl(y.tx, Credit(y.rx.receiver.n));
            && t'.log.accepted == y.tx.log.accepted && t'.log.finAt == y.tx.log.finAt
            && t'.log.sound == y.tx.log.sound
            && t'.log.stream == y.tx.log.stream + [Credit(y.rx.receiver.n)]
  {}

  lemma PollRecvKeeps(cfg: Config, x: End, y: End)
    requires cfg.Valid() && EndInv(cfg, x) && EndInv(cfg, y) && Linked(cfg, x, y) && Linked(cfg, y, x)
    requires Enabled(cfg, y, PollRecv)
    ensures var y' := Apply(cfg, y, PollRecv);
            EndInv(cfg, y') && Linked(cfg, x, y') && Linked(cfg, y', x)
  {
    hide Count, AllFrames, DataOf, CreditSum, Assemble, TxInv, RxInv, TxCredits, RxCredits, Wire, Arrived;
    TxKeptByRelease(cfg, y.tx, y.closed, y.rx.mem[y.rx.cq[0]]);
    RxKeptByPoll(cfg, y.tx, y.rx, y.closed);
    PollCredits(cfg, y.tx, y.rx);
  }

  lemma CloseKeeps(cfg: Config, x: End, y: End)
    requires cfg.Valid() && EndInv(cfg, y) && Linked(cfg, x, y) && Linked(cfg, y, x)
    ensures var y' := y.(closed := true); EndInv(cfg, y') && Linked(cfg, x, y') && Linked(cfg, y', x)
  {
    hide Count, AllFrames, DataOf, CreditSum, Assemble, TxCredits, RxCredits, Wire, Arrived;
    TxKeptByClose(cfg, y.tx, y.closed);
  }

  lemma ShutKeeps(cfg: Config, x: End, y: End)
    requires cfg.Valid() && EndInv(cfg, y) && y.closed && Linked(cfg, x, y) && Linked(cfg, y, x)
    ensures var y' := y.(tx := y.tx.(shut := true)); EndInv(cfg, y') && Linked(cfg, x, y') && Linked(cfg, y', x)
  {
    hide Count, AllFrames, DataOf, CreditSum, Assemble, RxCredits, Wire, Arrived, TxInv, RxInv;
    TxKeptByShut(cfg, y.tx);
  }

  lemma StepKeeps(cfg: Config, x: End, y: End, s: Step)
    requires cfg.Valid() && EndInv(cfg, x) && EndInv(cfg, y) && Linked(cfg, x, y) && Linked(cfg, y, x)
    requires Enabled(cfg, y, s)
    ensures var y' := Apply(cfg, y, s); EndInv(cfg, y') && Linked(cfg, x, y') && Linked(cfg, y', x)
  {
    hide EndInv, Linked;
    match s {
      case OnTx(t) => OnTxKeeps(cfg, y, x, t);
      case OnRx(r) => OnRxKeeps(cfg, x, y, r);
      case PostCredit => PostCreditKeeps(cfg, x, y);
      case PollRecv => PollRecvKeeps(cfg, x, y);
      case Close => CloseKeeps(cfg, x, y);
      case CloseCredits => ShutKeeps(cfg, x, y);
    }
  }

  lemma DeliverKeeps(cfg: Config, x: End, y: End)
    requires cfg.Valid() && EndInv(cfg, x) && EndInv(cfg, y) && Linked(cfg, x, y) && Linked(cfg, y, x)
    requires CanDeliver(x, y)
    ensures var x', y' := x.(tx := Accepted(x.tx)), y.(rx := Landed(y.rx, HeadFrame(x.tx)));
            EndInv(cfg, x') && EndInv(cfg, y') && Linked(cfg, x', y') && Linked(cfg, y', x')
  {
    hide Count, AllFrames, DataOf, CreditSum, Assemble, TxInv, RxInv, TxCredits, RxCredits, Wire, Arrived;
    TxKeptByAccepted(cfg, x.tx, x.closed);
    RxKeptByLanded(cfg, y.rx, y.closed, HeadFrame(x.tx));
    DeliveredCredits(x.tx, y.rx);
  }

  /** Every action of either side, and of the device, keeps the invariant. */
  lemma ActKeeps(cfg: Config, s: System, act: Action)
    requires cfg.Valid() && Inv(cfg, s) && CanAct(cfg, s, act)
    ensures Inv(cfg, Act(cfg, s, act))
  {
    hide EndInv, Linked;
    match act {
      case At(true, step) => StepKeeps(cfg, s.b, s.a, step);
      case At(false, step) => StepKeeps(cfg, s.a, s.b, step);
      case Deliver(true) => DeliverKeeps(cfg, s.a, s.b);
      case Deliver(false) => DeliverKeeps(cfg, s.b, s.a);
    }
  }

  lemma InitInv(cfg: Config, s: System)
    requires cfg.Valid() && IsInit(cfg, s)
    ensures Inv(cfg, s)
  {
    var ma, ra, mb, rb :|
      && |ma| == |mb| == cfg.SendSlots() && |ra| == |rb| == cfg.depth
      && s == System(InitEnd(cfg, ma, ra), InitEnd(cfg, mb, rb));
    TxInit(cfg, s.a, ma, ra);
    TxInit(cfg, s.b, mb, rb);
    RxInit(cfg, s.a, ma, ra);
    RxInit(cfg, s.b, mb, rb);
  }

  /** The invariant holds at the end of every run, however long. */
  lemma {:induction false} RunInv(cfg: Config, s: System, n: nat)
    requires cfg.Valid() && ReachedIn(cfg, s, n)
    ensures Inv(cfg, s)
    decreases n
  {
    hide Inv, IsInit, CanAct, Act;
    if n == 0 {
      InitInv(cfg, s);
    } else {
      var before, act :| ReachedIn(cfg, before, n - 1) && Leads(cfg, before, act, s);
      RunInv(cfg, before, n - 1);
      ActKeeps(cfg, before, act);
    }
  }
}
