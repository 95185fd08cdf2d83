/**
 * What closing does to messages under way. A receive that runs while its own side closes can miss a frame:
 * `dispatch` may drop one and queue the one behind it. And between the two halves of `close`, a send call can
 * post behind the frames that a call before it gave up on. Messages can then be skipped, cut and glued, and
 * the end can come too early: exactly when, as far as the two sides can tell.
 */
module Closing {
  import opened Words

  import opened Framing
  import opened Endpoint
  import opened Slots
  import opened TxInvariant
  import opened RxInvariant
  import opened Protocol
  import opened Guarantees
  import opened Runs
  import opened Calm

  // ---------------------------------------------------- what holds always

  /** Frames are reassembled in the order in which they were posted, none twice, also after close. */
  lemma TakenInOrder(cfg: Config, s: System, fromA: bool)
    requires cfg.Valid() && Reachable(cfg, s)
    ensures Subsequence(To(s, fromA).rx.log.consumed, AllFrames(From(s, fromA).tx.log.accepted, cfg.chunk))
    ensures Subsequence(To(s, fromA).rx.log.consumed + Queued(To(s, fromA).rx),
                        AllFrames(From(s, fromA).tx.log.accepted, cfg.chunk))
  {
    hide AllFrames, DataOf, EndInv, Queued, Subsequence, Reachable;
    var x, y := From(s, fromA), To(s, fromA);
    DirectionInv(cfg, s, fromA);
    PostedAndRouted(cfg, x, y);
    SoundIsPrefix(cfg, x.tx, x.closed);
    HandledIsPrefix(x.tx, y.rx);
    var posted, sent := DataOf(x.tx.log.stream), AllFrames(x.tx.log.accepted, cfg.chunk);
    SubsequenceOfLonger(y.rx.log.consumed + Queued(y.rx), DataOf(y.rx.log.dispatched), posted);
    SubsequenceTrans(y.rx.log.consumed + Queued(y.rx), posted, sent);
    SubsequencePrefix(y.rx.log.consumed, Queued(y.rx), sent);
  }

  lemma PostedAndRouted(cfg: Config, x: End, y: End)
    requires cfg.Valid() && EndInv(cfg, x) && EndInv(cfg, y)
    ensures Posting(cfg, x.tx, x.closed) && Routed(cfg, y.rx) && RingBacked(cfg, y.rx)
  {
    hide Posting, Routed, RingBacked;
  }

  // ------------------------------------------------------------ the frames

  /** Messages of one frame each. */
  lemma {:induction false} ShortFrames(msgs: seq<Bytes>, chunk: nat)
    requires chunk > 0 && forall m :: m in msgs ==> |m| <= chunk
    ensures AllFrames(msgs, chunk) == seq(|msgs|, i requires 0 <= i < |msgs| => Data(msgs[i], false))
  {
    if msgs != [] {
      var init, m := msgs[..|msgs| - 1], msgs[|msgs| - 1];
      ShortFrames(init, chunk);
      OneFragment(m, chunk);
      assert msgs == init + [m];
    }
  }

  lemma OneFragment(m: Bytes, chunk: nat)
    requires chunk > 0 && |m| <= chunk
    ensures FramesOf(m, chunk) == [Data(m, false)]
  {
    FragmentCountIsLeast(|m|, chunk);
    var n := FragmentCount(|m|, chunk);
    if n > 1 { MulMonotone(1, n - 1, chunk); }
    assert n == 1 && 0 * chunk == 0 && (0 + 1) * chunk == chunk;
    FragmentBounds(m, chunk, 0);
    assert Fragment(m, chunk, 0) == Data(m[0..|m|], false);
    assert m[0..|m|] == m;
  }

  // ---------------------------------------------------- frame by frame runs

  /** A side whose credit tracker is not closed. */
  predicate Grants(e: End) { !(e.closed && e.tx.shut) }

  /** A sender in the middle of a call with everything back but `l` credits. */
  ghost predicate Sending(cfg: Config, t: Tx, todo: seq<Frame>, l: nat) {
    && t.sender.SDrain? && t.sender.task.todo == todo && todo != [] && t.sender.task.posted == t.sender.task.done
    && t.tokens == 0 && !t.pushing && t.sq == [] && t.cq == []
    && |t.free| == cfg.depth && t.credits + l == cfg.depth
  }

  /** A receiver that blocks for data, with `h` bytes in its reassembler and all slots posted but at most `l`. */
  ghost predicate Receiving(cfg: Config, e: End, l: nat, h: nat) {
    && e.tx.sq == [] && e.tx.cq == [] && !e.tx.pushing && |e.tx.ctrlFree| == CREDIT_SLOTS
    && e.rx.cq == [] && e.rx.queue == [] && |e.rx.rq| + l >= cfg.depth && e.rx.pending == 0
    && e.rx.receiver == RBlock(RecvCall(false, 1, 0)) && |e.rx.reasm.buf| == h
  }

  ghost predicate Feed(cfg: Config, s: System, todo: seq<Frame>, l: nat, h: nat) {
    && Grants(s.a) && Sending(cfg, s.a.tx, todo, l) && s.a.rx.cq == [] && |s.a.rx.rq| == cfg.depth
    && Receiving(cfg, s.b, l, h)
  }

  /** What the runs below leave alone. */
  ghost predicate SameSoFar(s: System, s': System) {
    && s'.a.tx.log.accepted == s.a.tx.log.accepted && s'.a.tx.log.again == s.a.tx.log.again
    && s'.a.closed == s.a.closed && s'.b.closed == s.b.closed && s'.b.rx.log.delivered == s.b.rx.log.delivered
  }

  /** The next frame is on the wire. */
  ghost predicate OnWire(cfg: Config, s: System, todo: seq<Frame>, l: nat, h: nat) {
    && Grants(s.a) && |todo| >= 2 && s.a.tx.sender.SDrain? && s.a.tx.sender.task.todo == todo[1..]
    && s.a.tx.sender.task.posted == s.a.tx.sender.task.done + 1
    && s.a.tx.tokens == 0 && !s.a.tx.pushing && s.a.tx.cq == []
    && |s.a.tx.free| == cfg.depth - 1 && s.a.tx.credits + l + 1 == cfg.depth
    && |s.a.tx.sq| == 1 && s.a.tx.sq[0] < cfg.depth && s.a.tx.sq[0] < |s.a.tx.mem|
    && s.a.tx.mem[s.a.tx.sq[0]] == todo[0]
    && s.a.rx.cq == [] && |s.a.rx.rq| == cfg.depth && Receiving(cfg, s.b, l, h)
  }

  lemma PostNext(cfg: Config, s: System, todo: seq<Frame>, l: nat, h: nat) returns (s': System)
    requires cfg.Valid() && Reachable(cfg, s) && Feed(cfg, s, todo, l, h) && |todo| >= 2 && l < cfg.depth
    ensures Reachable(cfg, s') && SameSoFar(s, s') && OnWire(cfg, s', todo, l, h)
  {
    hide Reachable, AllFrames;
    s' := Next(cfg, s, At(true, OnTx(DrainEnd)));
    s' := Next(cfg, s', At(true, OnTx(TxStep.Acquire)));
    s' := Next(cfg, s', At(true, OnTx(TakeSlot)));
    Heads(cfg, s', true);
    s' := Next(cfg, s', At(true, OnTx(PostData)));
  }

  /** The frame has arrived, and its send has completed and left no token. */
  ghost predicate HasArrived(cfg: Config, s: System, todo: seq<Frame>, l: nat, h: nat) {
    && |todo| >= 2 && Grants(s.a) && Sending(cfg, s.a.tx, todo[1..], l + 1)
    && s.a.rx.cq == [] && |s.a.rx.rq| == cfg.depth
    && s.b.tx.sq == [] && s.b.tx.cq == [] && !s.b.tx.pushing && |s.b.tx.ctrlFree| == CREDIT_SLOTS
    && |s.b.rx.cq| == 1 && s.b.rx.cq[0] < |s.b.rx.mem| && s.b.rx.mem[s.b.rx.cq[0]] == todo[0]
    && s.b.rx.queue == [] && |s.b.rx.rq| + l + 1 >= cfg.depth && s.b.rx.pending == 0
    && s.b.rx.receiver == RBlock(RecvCall(false, 1, 0)) && |s.b.rx.reasm.buf| == h
  }

  lemma Arrive(cfg: Config, s: System, todo: seq<Frame>, l: nat, h: nat) returns (s': System)
    requires cfg.Valid() && Reachable(cfg, s) && OnWire(cfg, s, todo, l, h) && l < cfg.depth
    ensures Reachable(cfg, s') && SameSoFar(s, s') && HasArrived(cfg, s', todo, l, h)
  {
    hide Reachable, AllFrames;
    Heads(cfg, s, false);
    s' := Next(cfg, s, Deliver(true));
    s' := Next(cfg, s', At(true, OnTx(PollSend)));
    if !cfg.atomicDispatch {
      s' := Next(cfg, s', At(true, OnTx(PushToken)));
    }
    s' := Next(cfg, s', At(true, OnTx(DrainToken)));
  }

  /** The receiver's side closes, and its poller drops the frame. */
  lemma DropIt(cfg: Config, s: System, todo: seq<Frame>, l: nat, h: nat) returns (s': System)
    requires cfg.Valid() && Reachable(cfg, s) && HasArrived(cfg, s, todo, l, h) && todo[0].Data?
    ensures Reachable(cfg, s') && Feed(cfg, s', todo[1..], l + 1, h) && s'.b.closed
    ensures s'.a.tx.log.accepted == s.a.tx.log.accepted && s'.a.tx.log.again == s.a.tx.log.again
    ensures s'.b.rx.log.delivered == s.b.rx.log.delivered
  {
    hide Reachable, AllFrames;
    s' := Next(cfg, s, At(false, Close));
    s' := Next(cfg, s', At(false, OnRx(DropRecv)));
  }

  /** The frame is in the receiver's hand. */
  ghost predicate TakenUp(cfg: Config, s: System, todo: seq<Frame>, l: nat, h: nat) {
    && |todo| >= 2 && Grants(s.a) && Sending(cfg, s.a.tx, todo[1..], l + 1)
    && s.a.rx.cq == [] && |s.a.rx.rq| == cfg.depth
    && s.b.tx.sq == [] && s.b.tx.cq == [] && !s.b.tx.pushing && |s.b.tx.ctrlFree| == CREDIT_SLOTS
    && s.b.rx.receiver.RTake? && s.b.rx.receiver.call == RecvCall(false, 1, 0)
    && s.b.rx.receiver.frame.slot < |s.b.rx.mem| && todo[0].Data?
    && s.b.rx.mem[s.b.rx.receiver.frame.slot] == todo[0]
    && s.b.rx.receiver.frame.more == todo[0].more && s.b.rx.receiver.frame.n == |todo[0].payload|
    && s.b.rx.cq == [] && s.b.rx.queue == [] && |s.b.rx.rq| + l + 1 >= cfg.depth && s.b.rx.pending == 0
    && |s.b.rx.reasm.buf| == h
  }

  lemma Take(cfg: Config, s: System, todo: seq<Frame>, l: nat, h: nat) returns (s': System)
    requires cfg.Valid() && Reachable(cfg, s) && HasArrived(cfg, s, todo, l, h) && todo[0].Data?
    ensures Reachable(cfg, s') && SameSoFar(s, s') && TakenUp(cfg, s', todo, l, h)
    ensures s'.b.rx.reasm == s.b.rx.reasm
  {
    hide Reachable, AllFrames;
    s' := Next(cfg, s, At(false, PollRecv));
    s' := Next(cfg, s', At(false, OnRx(TakeFrame)));
  }

  /** The frame is reassembled, and its credit about to be returned. */
  ghost predicate ToReturn(cfg: Config, s: System, todo: seq<Frame>, l: nat, h: nat) {
    && |todo| >= 2 && Grants(s.a) && Sending(cfg, s.a.tx, todo[1..], l + 1)
    && s.a.rx.cq == [] && |s.a.rx.rq| == cfg.depth
    && s.b.tx.sq == [] && s.b.tx.cq == [] && !s.b.tx.pushing && |s.b.tx.ctrlFree| == CREDIT_SLOTS
    && s.b.rx.receiver.RReturn? && s.b.rx.receiver.n == 1 && s.b.rx.receiver.call == RecvCall(false, 1, 0)
    && (s.b.rx.receiver.after == ThenBlock || s.b.rx.receiver.after == ThenResume(false))
    && s.b.rx.cq == [] && s.b.rx.queue == [] && |s.b.rx.rq| + l >= cfg.depth && s.b.rx.pending == 0
    && |s.b.rx.reasm.buf| == h
  }

  lemma ReassembleMore(cfg: Config, s: System, todo: seq<Frame>, l: nat, h: nat) returns (s': System)
    requires cfg.Valid() && Reachable(cfg, s) && TakenUp(cfg, s, todo, l, h)
    requires todo[0].more && h + |todo[0].payload| <= MAX_MESSAGE
    ensures Reachable(cfg, s') && SameSoFar(s, s') && ToReturn(cfg, s', todo, l, h + |todo[0].payload|)
  {
    hide Reachable, AllFrames;
    s' := Next(cfg, s, At(false, OnRx(Consume)));
    if s'.b.rx.receiver.RLoop? {
      s' := Next(cfg, s', At(false, OnRx(FindEmpty)));
    }
  }

  /** The credit is on its way; the receiver blocks for more. */
  ghost predicate Returned(cfg: Config, s: System, todo: seq<Frame>, l: nat, h: nat) {
    && |todo| >= 2 && Grants(s.a) && Sending(cfg, s.a.tx, todo[1..], l + 1)
    && s.a.rx.cq == [] && |s.a.rx.rq| == cfg.depth
    && |s.b.tx.sq| == 1 && cfg.depth <= s.b.tx.sq[0] < |s.b.tx.mem| && s.b.tx.mem[s.b.tx.sq[0]] == Frame.Credit(1)
    && s.b.tx.cq == [] && !s.b.tx.pushing && |s.b.tx.ctrlFree| == CREDIT_SLOTS - 1
    && s.b.rx.cq == [] && s.b.rx.queue == [] && |s.b.rx.rq| + l >= cfg.depth && s.b.rx.pending == 0
    && s.b.rx.receiver == RBlock(RecvCall(false, 1, 0)) && |s.b.rx.reasm.buf| == h
  }

  lemma ReturnIt(cfg: Config, s: System, todo: seq<Frame>, l: nat, h: nat) returns (s': System)
    requires cfg.Valid() && Reachable(cfg, s) && ToReturn(cfg, s, todo, l, h)
    ensures Reachable(cfg, s') && SameSoFar(s, s') && Returned(cfg, s', todo, l, h)
  {
    hide Reachable, AllFrames;
    Heads(cfg, s, false);
    s' := Next(cfg, s, At(false, PostCredit));
    if s'.b.rx.receiver.RLoop? {
      s' := Next(cfg, s', At(false, OnRx(FindEmpty)));
    }
  }

  lemma CreditBack(cfg: Config, s: System, todo: seq<Frame>, l: nat, h: nat) returns (s': System)
    requires cfg.Valid() && Reachable(cfg, s) && Returned(cfg, s, todo, l, h)
    ensures Reachable(cfg, s') && SameSoFar(s, s') && Feed(cfg, s', todo[1..], l, h)
  {
    hide Reachable, AllFrames;
    Heads(cfg, s, true);
    s' := Next(cfg, s, Deliver(false));
    s' := Next(cfg, s', At(true, PollRecv));
    s' := Next(cfg, s', At(false, OnTx(PollSend)));
  }

  /** One frame of a longer message, posted, delivered, reassembled, its credit back. */
  lemma FeedOne(cfg: Config, s: System, todo: seq<Frame>, l: nat, h: nat) returns (s': System)
    requires cfg.Valid() && Reachable(cfg, s) && Feed(cfg, s, todo, l, h) && |todo| >= 2 && l < cfg.depth
    requires todo[0].Data? && todo[0].more && h + |todo[0].payload| <= MAX_MESSAGE
    ensures Reachable(cfg, s') && SameSoFar(s, s') && Feed(cfg, s', todo[1..], l, h + |todo[0].payload|)
  {
    hide Reachable, Feed, OnWire, HasArrived, TakenUp, ToReturn, Returned;
    s' := PostNext(cfg, s, todo, l, h);
    s' := Arrive(cfg, s', todo, l, h);
    s' := Take(cfg, s', todo, l, h);
    s' := ReassembleMore(cfg, s', todo, l, h);
    s' := ReturnIt(cfg, s', todo, l, h + |todo[0].payload|);
    s' := CreditBack(cfg, s', todo, l, h + |todo[0].payload|);
  }

  /** One frame lost: the receiver's side closes before its poller has handled it. */
  lemma LoseOne(cfg: Config, s: System, todo: seq<Frame>, l: nat, h: nat) returns (s': System)
    requires cfg.Valid() && Reachable(cfg, s) && Feed(cfg, s, todo, l, h) && |todo| >= 2 && l < cfg.depth
    requires todo[0].Data?
    ensures Reachable(cfg, s') && Feed(cfg, s', todo[1..], l + 1, h) && s'.b.closed
    ensures s'.a.tx.log.accepted == s.a.tx.log.accepted && s'.a.tx.log.again == s.a.tx.log.again
    ensures s'.b.rx.log.delivered == s.b.rx.log.delivered
  {
    hide Reachable, Feed, OnWire, HasArrived;
    s' := PostNext(cfg, s, todo, l, h);
    s' := Arrive(cfg, s', todo, l, h);
    s' := DropIt(cfg, s', todo, l, h);
  }

  lemma StartFeed(cfg: Config, msgs: seq<Bytes>) returns (s: System)
    requires cfg.Valid() && msgs != [] && forall m :: m in msgs ==> |m| <= MAX_MESSAGE
    ensures Reachable(cfg, s) && Feed(cfg, s, AllFrames(msgs, cfg.chunk), 0, 0)
    ensures s.a.tx.log.accepted == msgs && s.b.rx.log.delivered == [] && !s.a.closed && !s.b.closed
    ensures !s.a.tx.log.aborted && !s.a.tx.log.again && s.a.tx.log.finAt < 0 && s.a.tx.ctrlFree != []
    ensures s.a.tx.sender.task == SendTask(AllFrames(msgs, cfg.chunk), 0, 0)
  {
    hide Reachable, AllFrames, IsInit;
    s := Begin(cfg);
    BeginsEmpty(cfg, s);
    InitIsCalm(cfg, s);
    AllFramesNonEmpty(msgs, cfg.chunk);
    s := Next(cfg, s, At(true, OnTx(SendCall(msgs))));
    s := Next(cfg, s, At(false, OnRx(RecvStart(false, 1))));
    s := Next(cfg, s, At(false, OnRx(FindEmpty)));
    assert [] + msgs == msgs;
  }

  lemma BeginsEmpty(cfg: Config, s: System)
    requires cfg.Valid() && IsInit(cfg, s)
    ensures IsCalm(cfg, s) && s.b.rx.receiver.RIdle? && s.b.rx.queue == [] && s.b.rx.pending == 0
    ensures s.a.tx.log.accepted == [] && s.b.rx.log.delivered == [] && s.b.rx.reasm == Reasm([], false)
    ensures !s.a.tx.log.aborted && !s.a.tx.log.again
  {}

  // -------------------------------------------------------------- delivery

  lemma ConsumeLast(cfg: Config, s: System, todo: seq<Frame>, l: nat) returns (s': System)
    requires cfg.Valid() && Reachable(cfg, s) && TakenUp(cfg, s, todo, l, 0)
    requires !todo[0].more && |todo[0].payload| <= MAX_MESSAGE
    ensures Reachable(cfg, s') && s'.b.closed == s.b.closed && s'.a.tx == s.a.tx
    ensures s'.b.rx.log.delivered == s.b.rx.log.delivered + [todo[0].payload]
  {
    hide Reachable, AllFrames;
    assert PayloadIn(s.b.rx.mem, s.b.rx.receiver.frame) == todo[0].payload;
    assert s.b.rx.reasm.buf + todo[0].payload == todo[0].payload;
    s' := Next(cfg, s, At(false, OnRx(Consume)));
  }

  /** The next frame is a whole message, and is delivered. */
  lemma DeliverWhole(cfg: Config, s: System, todo: seq<Frame>, l: nat) returns (s': System)
    requires cfg.Valid() && Reachable(cfg, s) && Feed(cfg, s, todo, l, 0) && |todo| >= 2 && l < cfg.depth
    requires todo[0].Data? && !todo[0].more && |todo[0].payload| <= MAX_MESSAGE
    ensures Reachable(cfg, s') && s'.b.closed == s.b.closed
    ensures s'.a.tx.log.accepted == s.a.tx.log.accepted && s'.a.tx.log.again == s.a.tx.log.again
    ensures s'.b.rx.log.delivered == s.b.rx.log.delivered + [todo[0].payload]
  {
    hide Reachable, Feed, OnWire, HasArrived, TakenUp;
    s' := PostNext(cfg, s, todo, l, 0);
    s' := Arrive(cfg, s', todo, l, 0);
    s' := Take(cfg, s', todo, l, 0);
    s' := ConsumeLast(cfg, s', todo, l);
  }

  /** With two slots or more a message can be dropped: the one behind it is delivered in its place. */
  lemma DropsOne(cfg: Config) returns (s: System)
    requires cfg.Valid() && cfg.depth >= 2
    ensures Reachable(cfg, s) && s.b.closed && !s.a.tx.log.again
    ensures s.a.tx.log.accepted == [[0], [1], [2]] && s.b.rx.log.delivered == [[1]]
  {
    hide Reachable, Feed, AllFrames;
    var msgs: seq<Bytes> := [[0], [1], [2]];
    ShortFrames(msgs, cfg.chunk);
    var todo := AllFrames(msgs, cfg.chunk);
    s := StartFeed(cfg, msgs);
    s := LoseOne(cfg, s, todo, 0, 0);
    assert todo[1..][0] == Data([1], false);
    s := DeliverWhole(cfg, s, todo[1..], 1);
  }

  /** The sender has a credit in hand and waits for a slot when its side closes. */
  lemma GiveUpCall(cfg: Config, s: System, todo: seq<Frame>, h: nat) returns (s': System)
    requires cfg.Valid() && Reachable(cfg, s) && Feed(cfg, s, todo, 0, h) && !s.a.closed
    ensures Reachable(cfg, s') && s'.a.tx.sender.SIdle? && s'.a.tx.log.aborted && s'.a.closed && Grants(s'.a)
    ensures s'.a.tx.tokens == 0 && !s'.a.tx.pushing && s'.a.tx.sq == [] && s'.a.tx.cq == []
    ensures |s'.a.tx.free| == cfg.depth && s'.a.tx.credits + 1 == cfg.depth
    ensures s'.a.tx.log.accepted == s.a.tx.log.accepted && s'.a.rx == s.a.rx && s'.b == s.b
  {
    hide Reachable, AllFrames;
    NotShut(cfg, s);
    s' := Next(cfg, s, At(true, OnTx(DrainEnd)));
    s' := Next(cfg, s', At(true, OnTx(TxStep.Acquire)));
    s' := Next(cfg, s', At(true, Close));
    s' := Next(cfg, s', At(true, OnTx(SendAbort)));
    s' := Next(cfg, s', At(true, OnTx(SendReturn)));
  }

  lemma NotShut(cfg: Config, s: System)
    requires cfg.Valid() && Reachable(cfg, s) && !s.a.closed
    ensures !s.a.tx.shut
  {
    hide EndInv, Linked, Reachable;
    DirectionInv(cfg, s, true);
    OpenIsSound(cfg, s.a);
  }

  /** Before the credit tracker closes too, another call goes on where the first left off. */
  lemma CallAgain(cfg: Config, s: System, todo: seq<Frame>, h: nat, msgs: seq<Bytes>) returns (s': System)
    requires cfg.Valid() && Reachable(cfg, s) && Feed(cfg, s, todo, 0, h) && !s.a.closed
    requires msgs != [] && forall m :: m in msgs ==> |m| <= MAX_MESSAGE
    ensures Reachable(cfg, s') && Feed(cfg, s', AllFrames(msgs, cfg.chunk), 1, h)
    ensures s'.a.tx.log.again && s'.b == s.b && s'.a.tx.log.accepted == s.a.tx.log.accepted + msgs
  {
    hide Reachable, AllFrames;
    AllFramesNonEmpty(msgs, cfg.chunk);
    s' := GiveUpCall(cfg, s, todo, h);
    s' := Next(cfg, s', At(true, OnTx(SendCall(msgs))));
  }

  /** With two slots or more a message can be left out: the call behind the one that gave up delivers its own. */
  lemma LeavesGap(cfg: Config) returns (s: System)
    requires cfg.Valid() && cfg.depth >= 2
    ensures Reachable(cfg, s) && !s.b.closed && s.a.tx.log.again
    ensures s.a.tx.log.accepted == [[0], [1], [2]] && s.b.rx.log.delivered == [[1]]
  {
    hide Reachable, Feed, AllFrames;
    var msgs: seq<Bytes> := [[1], [2]];
    ShortFrames([[0]], cfg.chunk);
    ShortFrames(msgs, cfg.chunk);
    s := StartFeed(cfg, [[0]]);
    s := CallAgain(cfg, s, AllFrames([[0]], cfg.chunk), 0, msgs);
    s := DeliverWhole(cfg, s, AllFrames(msgs, cfg.chunk), 1);
  }

  predicate DeliversInOrder(s: System, fromA: bool) {
    To(s, fromA).rx.log.delivered <= From(s, fromA).tx.log.accepted
  }

  /** With a ring of one slot nothing can follow a frame that was dropped or left out. */
  lemma OneSlotIsUnbroken(cfg: Config, s: System, fromA: bool)
    requires cfg.Valid() && Reachable(cfg, s) && cfg.depth == 1
    ensures Unbroken(cfg, From(s, fromA), To(s, fromA))
  {
    hide EndInv, StreamLink, Conserved, InStep, EndSeen;
    DirectionInv(cfg, s, fromA);
  }

  /** The reachable states by what the callers know: has the receiver closed, has the sender gone on after giving up. */
  ghost predicate Situation(cfg: Config, s: System, fromA: bool, closed: bool, again: bool)
    requires cfg.Valid()
  {
    Reachable(cfg, s) && To(s, fromA).closed == closed && From(s, fromA).tx.log.again == again
  }

  lemma SoundSituation(cfg: Config, s: System, fromA: bool, closed: bool, again: bool)
    requires cfg.Valid() && Situation(cfg, s, fromA, closed, again) && (cfg.depth == 1 || (!closed && !again))
    ensures Unbroken(cfg, From(s, fromA), To(s, fromA))
  {
    hide Reachable, Unbroken;
    if cfg.depth == 1 { OneSlotIsUnbroken(cfg, s, fromA); } else { OpenIsUnbroken(cfg, s, fromA); }
  }

  /** The same with the receiver closed as well, if it is to be. */
  lemma CloseToo(cfg: Config, s: System, closed: bool) returns (s': System)
    requires cfg.Valid() && Reachable(cfg, s) && !s.b.closed
    ensures Reachable(cfg, s') && s'.b.closed == closed && s'.a == s.a && s'.b.rx == s.b.rx
  {
    hide Reachable;
    s' := s;
    if closed { s' := Next(cfg, s, At(false, Close)); }
  }

  /**
   * What callers can count on: receives return the messages sent, in order and without a gap, in every state,
   * exactly if the receiving side has not closed and the sending side has made no call after one that gave up,
   * or the ring has one slot.
   */
  lemma DeliveredWhile(cfg: Config, closed: bool, again: bool)
    requires cfg.Valid()
    ensures (forall s, fromA :: Situation(cfg, s, fromA, closed, again) ==> DeliversInOrder(s, fromA))
            <==> cfg.depth == 1 || (!closed && !again)
  {
    hide Reachable, AllFrames, Unbroken;
    if cfg.depth == 1 || (!closed && !again) {
      forall s, fromA | Situation(cfg, s, fromA, closed, again) ensures DeliversInOrder(s, fromA) {
        SoundSituation(cfg, s, fromA, closed, again);
        InOrderExactlyOnce(cfg, s, fromA);
      }
    } else {
      var s;
      if again {
        s := LeavesGap(cfg);
        s := CloseToo(cfg, s, closed);
      } else {
        s := DropsOne(cfg);
      }
      assert Situation(cfg, s, true, closed, again);
      assert s.b.rx.log.delivered[0] != s.a.tx.log.accepted[0];
      assert !DeliversInOrder(s, true);
    }
  }

  // ------------------------------------------------------------------ end

  /** A call that has returned, its frame arrived, and the FIN behind it on the wire. */
  ghost predicate EndPosted(cfg: Config, s: System) {
    && !s.a.closed && s.a.tx.log.finAt == 1 == |s.a.tx.log.accepted| && !s.b.closed
    && |s.a.tx.sq| == 1 && s.a.tx.sq[0] < |s.a.tx.mem| && s.a.tx.mem[s.a.tx.sq[0]] == Fin
    && |s.b.rx.cq| == 1 && s.b.rx.cq[0] < |s.b.rx.mem| && s.b.rx.mem[s.b.rx.cq[0]].Data?
    && s.b.rx.queue == [] && s.b.rx.rq != [] && s.b.rx.pending == 0 && !s.b.tx.pushing
    && s.b.rx.receiver == RBlock(RecvCall(false, 1, 0)) && s.b.rx.log.delivered == []
  }

  /** The message is on the wire, its call waits for the completion. */
  ghost predicate LastOut(cfg: Config, s: System) {
    && !s.a.closed && s.a.tx.sender == SWait(1) && !s.a.tx.log.aborted && s.a.tx.log.finAt < 0
    && |s.a.tx.log.accepted| == 1 && s.a.tx.tokens == 0 && !s.a.tx.pushing && s.a.tx.cq == []
    && |s.a.tx.free| == cfg.depth - 1 && s.a.tx.ctrlFree != []
    && |s.a.tx.sq| == 1 && s.a.tx.sq[0] < cfg.depth && s.a.tx.sq[0] < |s.a.tx.mem|
    && s.a.tx.mem[s.a.tx.sq[0]].Data?
    && !s.b.closed && Receiving(cfg, s.b, 0, 0) && s.b.rx.log.delivered == []
  }

  lemma PostLast(cfg: Config) returns (s: System)
    requires cfg.Valid()
    ensures Reachable(cfg, s) && LastOut(cfg, s)
  {
    hide Reachable, AllFrames;
    ShortFrames([[]], cfg.chunk);
    s := StartFeed(cfg, [[]]);
    s := Next(cfg, s, At(true, OnTx(DrainEnd)));
    s := Next(cfg, s, At(true, OnTx(TxStep.Acquire)));
    s := Next(cfg, s, At(true, OnTx(TakeSlot)));
    Heads(cfg, s, true);
    s := Next(cfg, s, At(true, OnTx(PostData)));
  }

  /** Its completion has been handled, and the message has arrived. */
  ghost predicate LastArrived(cfg: Config, s: System) {
    && !s.a.closed && s.a.tx.sender == SWait(1) && !s.a.tx.log.aborted && s.a.tx.log.finAt < 0
    && |s.a.tx.log.accepted| == 1 && s.a.tx.tokens == 1 && s.a.tx.sq == [] && s.a.tx.ctrlFree != []
    && |s.b.rx.cq| == 1 && s.b.rx.cq[0] < |s.b.rx.mem| && s.b.rx.mem[s.b.rx.cq[0]].Data?
    && s.b.rx.queue == [] && s.b.rx.rq != [] && s.b.rx.pending == 0 && !s.b.tx.pushing
    && s.b.rx.receiver == RBlock(RecvCall(false, 1, 0)) && s.b.rx.log.delivered == [] && !s.b.closed
  }

  lemma ArriveLast(cfg: Config, s: System) returns (s': System)
    requires cfg.Valid() && cfg.depth >= 2 && Reachable(cfg, s) && LastOut(cfg, s)
    ensures Reachable(cfg, s') && LastArrived(cfg, s')
  {
    hide Reachable, AllFrames;
    Heads(cfg, s, false);
    s' := Next(cfg, s, Deliver(true));
    s' := Next(cfg, s', At(true, OnTx(PollSend)));
    if !cfg.atomicDispatch {
      s' := Next(cfg, s', At(true, OnTx(PushToken)));
    }
  }

  lemma PostItsEnd(cfg: Config, s: System) returns (s': System)
    requires cfg.Valid() && Reachable(cfg, s) && LastArrived(cfg, s)
    ensures Reachable(cfg, s') && EndPosted(cfg, s')
  {
    hide Reachable, AllFrames;
    s' := Next(cfg, s, At(true, OnTx(WaitToken)));
    s' := Next(cfg, s', At(true, OnTx(SendReturn)));
    Heads(cfg, s', true);
    s' := Next(cfg, s', At(true, OnTx(PostFin)));
  }

  /** A frame that lands leaves the one in front of it alone. */
  lemma OtherSlot(cfg: Config, s: System)
    requires cfg.Valid() && Reachable(cfg, s) && s.b.rx.rq != [] && s.b.rx.cq != []
    ensures s.b.rx.rq[0] != s.b.rx.cq[0]
  {
    hide DataOf, AllFrames, CreditSum, Count, Assemble;
    DirectionInv(cfg, s, true);
    RecvSlotOnce(cfg, s.b.rx, s.b.rx.rq[0]);
  }

  /** With two slots or more the end can be reported with a finished message missing. */
  lemma EndsEarly(cfg: Config) returns (s: System)
    requires cfg.Valid() && cfg.depth >= 2
    ensures Reachable(cfg, s) && s.b.closed && CanReturnEof(s.b.rx)
    ensures s.a.tx.log.finAt == 1 == |s.a.tx.log.accepted| && s.b.rx.log.delivered == []
  {
    hide Reachable, AllFrames;
    s := PostLast(cfg);
    s := ArriveLast(cfg, s);
    s := PostItsEnd(cfg, s);
    Heads(cfg, s, false);
    OtherSlot(cfg, s);
    s := Next(cfg, s, Deliver(true));
    s := Next(cfg, s, At(false, Close));
    s := Next(cfg, s, At(false, OnRx(DropRecv)));
    s := Next(cfg, s, At(false, PollRecv));
    s := Next(cfg, s, At(false, OnRx(SeeFin)));
  }

  /** All messages of calls that had returned before the FIN have been delivered. */
  predicate EndIsTrue(s: System, fromA: bool) {
    var t := From(s, fromA).tx.log;
    0 <= t.finAt <= |t.accepted| && t.accepted[..t.finAt] <= To(s, fromA).rx.log.delivered
  }

  /** io.EOF can be relied on exactly if the side that reports it has not closed, or its ring has one slot. */
  lemma EndTrueWhile(cfg: Config, closed: bool)
    requires cfg.Valid()
    ensures (forall s, fromA :: Reachable(cfg, s) && To(s, fromA).closed == closed && CanReturnEof(To(s, fromA).rx)
                                ==> EndIsTrue(s, fromA))
            <==> !closed || cfg.depth == 1
  {
    hide Reachable, AllFrames, DataOf, Assemble;
    if !closed || cfg.depth == 1 {
      forall s, fromA | Reachable(cfg, s) && To(s, fromA).closed == closed && CanReturnEof(To(s, fromA).rx)
        ensures EndIsTrue(s, fromA)
      {
        EofIsSafe(cfg, s, fromA);
      }
    } else {
      var s := EndsEarly(cfg);
      assert !EndIsTrue(s, true);
    }
  }

  // ---------------------------------------------------------------- guard

  /** The largest message there is, one of two frames, and one more so that the call does not end. */
  function Glued(chunk: nat): seq<Bytes> {
    [seq(MAX_MESSAGE, _ => 0), seq(chunk + 1, _ => 0), []]
  }

  function GluedFrames(cfg: Config): seq<Frame>
    requires cfg.chunk > 0
  {
    AllFrames(Glued(cfg.chunk), cfg.chunk)
  }

  lemma GluedSplits(cfg: Config)
    requires cfg.Valid()
    ensures var m := Glued(cfg.chunk);
            GluedFrames(cfg) == FramesOf(m[0], cfg.chunk) + FramesOf(m[1], cfg.chunk) + FramesOf([], cfg.chunk)
  {
    hide FramesOf;
    var m := Glued(cfg.chunk);
    assert m == [] + [m[0]] + [m[1]] + [[]];
    AllFramesSnoc([], m[0], cfg.chunk);
    AllFramesSnoc([] + [m[0]], m[1], cfg.chunk);
    AllFramesSnoc([] + [m[0]] + [m[1]], [], cfg.chunk);
  }

  lemma TwoFragments(chunk: nat)
    requires chunk > 0
    ensures FragmentCount(chunk + 1, chunk) == 2
  {
    var n := FragmentCount(chunk + 1, chunk);
    FragmentCountIsLeast(chunk + 1, chunk);
    if n > 2 { MulMonotone(2, n - 1, chunk); }
  }

  /** A fragment that is not the last one is full. */
  lemma FullFragment(m: Bytes, chunk: nat, k: nat)
    requires chunk > 0 && k + 1 < FragmentCount(|m|, chunk)
    ensures var f := Fragment(m, chunk, k); f.Data? && f.more && |f.payload| == chunk
  {
    FragmentBounds(m, chunk, k);
    assert (k + 1) * chunk == k * chunk + chunk;
  }

  /** The frames: those of the first message, full but for the last; a full one; one of a single byte; the rest. */
  lemma PartsAre(cfg: Config, n: nat)
    requires cfg.Valid() && cfg.chunk < MAX_MESSAGE && n == FragmentCount(MAX_MESSAGE, cfg.chunk)
    ensures n >= 2 && (n - 1) * cfg.chunk < MAX_MESSAGE <= n * cfg.chunk
    ensures |GluedFrames(cfg)| == n + 3 && forall k :: 0 <= k < |GluedFrames(cfg)| ==> GluedFrames(cfg)[k].Data?
    ensures forall k :: 0 <= k < n - 1 ==> GluedFrames(cfg)[k].more && |GluedFrames(cfg)[k].payload| == cfg.chunk
    ensures GluedFrames(cfg)[n].more && |GluedFrames(cfg)[n].payload| == cfg.chunk
    ensures |GluedFrames(cfg)[n + 1].payload| == 1
  {
    hide FragmentCount;
    var chunk, m := cfg.chunk, Glued(cfg.chunk);
    FragmentCountIsLeast(MAX_MESSAGE, chunk);
    GluedSplits(cfg);
    TwoFragments(chunk);
    OneFragment([], chunk);
    forall k | 0 <= k < n - 1
      ensures GluedFrames(cfg)[k].more && |GluedFrames(cfg)[k].payload| == chunk
    {
      FullFragment(m[0], chunk, k);
    }
    FullFragment(m[1], chunk, 0);
    assert GluedFrames(cfg)[n] == Fragment(m[1], chunk, 0) && GluedFrames(cfg)[n + 1] == Fragment(m[1], chunk, 1);
    LastFragment(chunk, m[1]);
  }

  lemma LastFragment(chunk: nat, m: Bytes)
    requires chunk > 0 && |m| == chunk + 1 && FragmentCount(|m|, chunk) == 2
    ensures |Fragment(m, chunk, 1).payload| == 1
  {
    FragmentBounds(m, chunk, 1);
    assert 1 * chunk == chunk && (1 + 1) * chunk == chunk + chunk;
  }

  /** All of the first message but its last frame has been reassembled. */
  lemma {:induction false} FeedAll(cfg: Config, n: nat, k: nat) returns (s: System)
    requires cfg.Valid() && cfg.chunk < MAX_MESSAGE && n == FragmentCount(MAX_MESSAGE, cfg.chunk) && k < n
    ensures Reachable(cfg, s) && k < |GluedFrames(cfg)| && Feed(cfg, s, GluedFrames(cfg)[k..], 0, k * cfg.chunk)
    ensures !s.a.closed && !s.b.closed && !s.a.tx.log.again
    decreases k
  {
    hide Reachable, Feed, FragmentCount, GluedFrames;
    PartsAre(cfg, n);
    if k == 0 {
      s := StartParts(cfg);
      assert GluedFrames(cfg)[0..] == GluedFrames(cfg) && 0 * cfg.chunk == 0;
    } else {
      s := FeedAll(cfg, n, k - 1);
      var todo := GluedFrames(cfg)[k - 1..];
      assert todo[0] == GluedFrames(cfg)[k - 1] && todo[1..] == GluedFrames(cfg)[k..];
      assert (k - 1) * cfg.chunk + cfg.chunk == k * cfg.chunk;
      MulMonotone(k, n - 1, cfg.chunk);
      s := FeedOne(cfg, s, todo, 0, (k - 1) * cfg.chunk);
    }
  }

  lemma StartParts(cfg: Config) returns (s: System)
    requires cfg.Valid() && cfg.chunk < MAX_MESSAGE
    ensures Reachable(cfg, s) && Feed(cfg, s, GluedFrames(cfg), 0, 0) && !s.a.closed && !s.b.closed && !s.a.tx.log.again
  {
    hide Reachable, Feed, AllFrames;
    s := StartFeed(cfg, Glued(cfg.chunk));
  }

  /** The frame that makes it too large. */
  lemma Trip(cfg: Config, s: System, todo: seq<Frame>, l: nat, h: nat) returns (s': System)
    requires cfg.Valid() && Reachable(cfg, s) && Feed(cfg, s, todo, l, h) && |todo| >= 2 && l < cfg.depth
    requires todo[0].Data? && h + |todo[0].payload| > MAX_MESSAGE
    ensures Reachable(cfg, s') && s'.b.closed == s.b.closed && s'.a.tx.log.again == s.a.tx.log.again
    ensures CanConsume(s'.b.rx) && Reassembled(s'.b.rx).1.TooLarge?
  {
    hide Reachable, Feed, OnWire, HasArrived;
    s' := PostNext(cfg, s, todo, l, h);
    s' := Arrive(cfg, s', todo, l, h);
    s' := Take(cfg, s', todo, l, h);
    assert PayloadIn(s'.b.rx.mem, s'.b.rx.receiver.frame) == todo[0].payload;
  }

  /** With messages of several frames, two of them can be glued past the limit: behind a frame that was dropped. */
  lemma GluesDropped(cfg: Config) returns (s: System)
    requires cfg.Valid() && cfg.depth >= 2 && cfg.chunk < MAX_MESSAGE
    ensures Reachable(cfg, s) && s.b.closed && !s.a.tx.log.again
    ensures CanConsume(s.b.rx) && Reassembled(s.b.rx).1.TooLarge?
  {
    hide Reachable, Feed, FragmentCount, GluedFrames, Reassembled;
    var n := FragmentCount(MAX_MESSAGE, cfg.chunk);
    PartsAre(cfg, n);
    s := FeedAll(cfg, n, n - 1);
    s := LoseOne(cfg, s, GluedFrames(cfg)[n - 1..], 0, (n - 1) * cfg.chunk);
    assert GluedFrames(cfg)[n - 1..][1..] == GluedFrames(cfg)[n..];
    assert (n - 1) * cfg.chunk + cfg.chunk == n * cfg.chunk;
    s := Glue(cfg, s, GluedFrames(cfg)[n..], (n - 1) * cfg.chunk);
  }

  /** Or behind a call that gave up. */
  lemma GluesGap(cfg: Config) returns (s: System)
    requires cfg.Valid() && cfg.depth >= 2 && cfg.chunk < MAX_MESSAGE
    ensures Reachable(cfg, s) && !s.b.closed && s.a.tx.log.again
    ensures CanConsume(s.b.rx) && Reassembled(s.b.rx).1.TooLarge?
  {
    hide Reachable, Feed, FragmentCount, GluedFrames, Reassembled, AllFrames;
    var n := FragmentCount(MAX_MESSAGE, cfg.chunk);
    var msgs: seq<Bytes> := [seq(cfg.chunk + 1, _ => 0), []];
    PartsAre(cfg, n);
    SecondParts(cfg, n);
    s := FeedAll(cfg, n, n - 1);
    assert (n - 1) * cfg.chunk + cfg.chunk == n * cfg.chunk;
    s := CallAgain(cfg, s, GluedFrames(cfg)[n - 1..], (n - 1) * cfg.chunk, msgs);
    s := Glue(cfg, s, AllFrames(msgs, cfg.chunk), (n - 1) * cfg.chunk);
  }

  lemma SecondParts(cfg: Config, n: nat)
    requires cfg.Valid() && cfg.chunk < MAX_MESSAGE && n == FragmentCount(MAX_MESSAGE, cfg.chunk)
    ensures n <= |GluedFrames(cfg)|
    ensures AllFrames([seq(cfg.chunk + 1, _ => 0), []], cfg.chunk) == GluedFrames(cfg)[n..]
  {
    hide FramesOf, GluedFrames, FragmentCount;
    var m := Glued(cfg.chunk);
    GluedSplits(cfg);
    assert [m[1], []] == [] + [m[1]] + [[]];
    AllFramesSnoc([], m[1], cfg.chunk);
    AllFramesSnoc([] + [m[1]], [], cfg.chunk);
    FramesNumber(m[0], cfg.chunk);
  }

  lemma FramesNumber(m: Bytes, chunk: nat)
    requires chunk > 0
    ensures |FramesOf(m, chunk)| == FragmentCount(|m|, chunk)
  {}

  /** One full frame and one byte more on top of what is held. */
  lemma Glue(cfg: Config, s: System, todo: seq<Frame>, h: nat) returns (s': System)
    requires cfg.Valid() && cfg.depth >= 2 && Reachable(cfg, s) && Feed(cfg, s, todo, 1, h) && |todo| == 3
    requires todo[0].Data? && todo[0].more && |todo[0].payload| == cfg.chunk
    requires todo[1].Data? && |todo[1].payload| == 1 && h + cfg.chunk >= MAX_MESSAGE
    ensures Reachable(cfg, s') && s'.b.closed == s.b.closed && s'.a.tx.log.again == s.a.tx.log.again
    ensures CanConsume(s'.b.rx) && Reassembled(s'.b.rx).1.TooLarge?
  {
    hide Reachable, Feed, Reassembled;
    if h + cfg.chunk <= MAX_MESSAGE {
      s' := FeedOne(cfg, s, todo, 1, h);
      s' := Trip(cfg, s', todo[1..], 1, h + cfg.chunk);
    } else {
      s' := Trip(cfg, s, todo, 1, h);
    }
  }

  /** With slots for whole messages nothing is ever held back between two frames. */
  ghost predicate NothingHeld(s: System) {
    s.a.rx.reasm == s.b.rx.reasm == Reasm([], false)
  }

  /** Then the frame in a receiver's hand is a whole message, and fits. */
  lemma HandIsWhole(cfg: Config, s: System, fromA: bool)
    requires cfg.Valid() && cfg.chunk >= MAX_MESSAGE && Reachable(cfg, s) && CanConsume(To(s, fromA).rx)
    ensures var r := To(s, fromA).rx;
            !r.receiver.frame.more && |PayloadIn(r.mem, r.receiver.frame)| <= MAX_MESSAGE
  {
    hide AllFrames, DataOf, EndInv, Subsequence, Reachable;
    var x, y := From(s, fromA), To(s, fromA);
    TakenInOrder(cfg, s, fromA);
    DirectionInv(cfg, s, fromA);
    PostedAndRouted(cfg, x, y);
    var f := y.rx.mem[y.rx.receiver.frame.slot];
    assert y.rx.receiver.frame in HeldFrame(y.rx.receiver) + y.rx.queue;
    assert Waiting(y.rx)[0] == y.rx.receiver.frame.slot;
    assert Queued(y.rx)[0] == f;
    assert f in y.rx.log.consumed + Queued(y.rx);
    SubsequenceIn(y.rx.log.consumed + Queued(y.rx), AllFrames(x.tx.log.accepted, cfg.chunk), f);
    WholeFrames(cfg, x.tx.log.accepted, f);
  }

  lemma WholeFrames(cfg: Config, msgs: seq<Bytes>, f: Frame)
    requires cfg.Valid() && f in AllFrames(msgs, cfg.chunk) && forall m :: m in msgs ==> |m| <= cfg.chunk
    ensures f.Data? && !f.more
  {
    hide AllFrames;
    ShortFrames(msgs, cfg.chunk);
  }

  lemma {:induction false} RunNothingHeld(cfg: Config, s: System, n: nat)
    requires cfg.Valid() && cfg.chunk >= MAX_MESSAGE && ReachedIn(cfg, s, n)
    ensures NothingHeld(s)
    decreases n
  {
    hide IsInit, CanAct, Act, NothingHeld;
    if n == 0 {
      InitNothingHeld(cfg, s);
    } else {
      var before, act :| ReachedIn(cfg, before, n - 1) && Leads(cfg, before, act, s);
      RunNothingHeld(cfg, before, n - 1);
      ActNothingHeld(cfg, before, act);
    }
  }

  lemma InitNothingHeld(cfg: Config, s: System)
    requires cfg.Valid() && IsInit(cfg, s)
    ensures NothingHeld(s)
  {}

  lemma ActNothingHeld(cfg: Config, s: System, act: Action)
    requires cfg.Valid() && cfg.chunk >= MAX_MESSAGE && Reachable(cfg, s) && CanAct(cfg, s, act) && NothingHeld(s)
    ensures NothingHeld(Act(cfg, s, act))
  {
    hide Reachable, Apply, Enabled;
    if act.At? {
      if act.step == OnRx(Consume) { HandCanBeConsumed(cfg, s, act.atA); }
      StepNothingHeld(cfg, From(s, act.atA), act.step);
    }
  }

  lemma HandCanBeConsumed(cfg: Config, s: System, atA: bool)
    requires cfg.Valid() && cfg.chunk >= MAX_MESSAGE && Reachable(cfg, s)
    requires Enabled(cfg, From(s, atA), OnRx(Consume))
    ensures var r := From(s, atA).rx;
            CanConsume(r) && !r.receiver.frame.more && |PayloadIn(r.mem, r.receiver.frame)| <= MAX_MESSAGE
  {
    hide Reachable;
    HandIsWhole(cfg, s, !atA);
  }

  lemma StepNothingHeld(cfg: Config, e: End, s: Step)
    requires cfg.Valid() && Enabled(cfg, e, s) && e.rx.reasm == Reasm([], false)
    requires s == OnRx(Consume) ==>
               CanConsume(e.rx) && !e.rx.receiver.frame.more
               && |PayloadIn(e.rx.mem, e.rx.receiver.frame)| <= MAX_MESSAGE
    ensures Apply(cfg, e, s).rx.reasm == Reasm([], false)
  {
    hide TxApply, TxEnabled, RxApply;
    match s {
      case OnRx(r) =>
        DeliveredGrows(cfg, e, r);
        if r.Consume? { ConsumeWhole(cfg, e); }
      case _ =>
    }
  }

  lemma ConsumeWhole(cfg: Config, e: End)
    requires CanConsume(e.rx) && e.rx.reasm == Reasm([], false) && !e.rx.receiver.frame.more
    ensures RxApply(cfg, e.tx, e.rx, e.closed, Consume).reasm == Reasm([], false)
  {
    ConsumeEffect(cfg, e.rx);
    hide DoConsume;
  }

  /** The receiver is about to reassemble a frame past the size limit. */
  predicate Trips(s: System, fromA: bool) {
    CanConsume(To(s, fromA).rx) && Reassembled(To(s, fromA).rx).1.TooLarge?
  }

  /**
   * The size guard never trips on what the two sides exchange exactly if the receiving side has not closed and
   * the sending side has made no call after one that gave up, or the ring has one slot, or every message fits
   * in one frame.
   */
  lemma GuardHoldsWhile(cfg: Config, closed: bool, again: bool)
    requires cfg.Valid()
    ensures (forall s, fromA :: Situation(cfg, s, fromA, closed, again) ==> !Trips(s, fromA))
            <==> cfg.depth == 1 || cfg.chunk >= MAX_MESSAGE || (!closed && !again)
  {
    hide Reachable, Reassembled, Unbroken;
    if cfg.depth == 1 || cfg.chunk >= MAX_MESSAGE || (!closed && !again) {
      forall s, fromA | Situation(cfg, s, fromA, closed, again) ensures !Trips(s, fromA) {
        if CanConsume(To(s, fromA).rx) {
          if cfg.chunk >= MAX_MESSAGE {
            HandFits(cfg, s, fromA);
          } else {
            SoundSituation(cfg, s, fromA, closed, again);
            GuardHolds(cfg, s, fromA);
          }
        }
      }
    } else {
      var s;
      if again {
        s := GluesGap(cfg);
        s := CloseToo(cfg, s, closed);
      } else {
        s := GluesDropped(cfg);
      }
      assert Situation(cfg, s, true, closed, again) && Trips(s, true);
    }
  }

  lemma HandFits(cfg: Config, s: System, fromA: bool)
    requires cfg.Valid() && cfg.chunk >= MAX_MESSAGE && Reachable(cfg, s) && CanConsume(To(s, fromA).rx)
    ensures !Reassembled(To(s, fromA).rx).1.TooLarge?
  {
    hide ReachedIn;
    var n: nat :| ReachedIn(cfg, s, n);
    RunNothingHeld(cfg, s, n);
    HandIsWhole(cfg, s, fromA);
  }
}
