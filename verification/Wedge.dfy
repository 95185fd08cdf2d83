/**
 * What the two separate steps of `dispatch` can do: free the data slot, then push the token. Between
 * them the sender may take the slot and post again, so one more token can be owed than `sendDone`
 * holds. If the sender then waits for a credit, the poller that would release it is stuck.
 */
module Wedge {
  import opened Words

  import opened Framing
  import opened Endpoint
  import opened Slots
  import opened TxInvariant
  import opened RxInvariant
  import opened Protocol
  import opened Guarantees
  import opened Progress
  import opened Runs
  import opened Calm

  /** Nothing but closing the transport gets a side out of it. */
  lemma WedgedForever(cfg: Config, s: System, act: Action, atA: bool)
    requires cfg.Valid() && CanAct(cfg, s, act) && act != At(atA, Close) && Wedged(cfg, From(s, atA))
    ensures Wedged(cfg, From(Act(cfg, s, act), atA))
  {
    hide AllFrames;
    match act {
      case At(a, step) => if a == atA { WedgedStep(cfg, From(s, atA), step); }
      case Deliver(_) =>
    }
  }

  lemma WedgedStep(cfg: Config, e: End, s: Step)
    requires cfg.Valid() && Enabled(cfg, e, s) && s != Close && Wedged(cfg, e)
    ensures Wedged(cfg, Apply(cfg, e, s))
  {}

  /** A wedged side has posted more than `depth` frames of its call, and has one more to post. */
  lemma WedgedIsLarge(cfg: Config, s: System, atA: bool)
    requires cfg.Valid() && Reachable(cfg, s) && Wedged(cfg, From(s, atA))
    ensures !cfg.atomicDispatch
    ensures |AllFrames(From(s, atA).tx.log.accepted, cfg.chunk)| >= cfg.depth + 2
    ensures From(s, atA).tx.sender.task.posted + |From(s, atA).tx.sender.task.todo| >= cfg.depth + 2
  {
    hide Count, AllFrames, CreditSum, Assemble;
    DirectionInv(cfg, s, atA);
  }

  // --------------------------------------------------------- building the run

  /** `i` frames of the call for `msgs` posted from `o`, nothing delivered yet; the peer has not moved. */
  ghost predicate Underway(cfg: Config, o: System, s: System, msgs: seq<Bytes>, i: nat)
    requires cfg.Valid()
  {
    && i <= cfg.depth && i < |AllFrames(msgs, cfg.chunk)|
    && s.b == o.b && s.a.rx == o.a.rx && !s.a.closed
    && s.a.tx.log.accepted == o.a.tx.log.accepted + msgs && s.a.tx.log.finAt == o.a.tx.log.finAt
    && |s.a.tx.sq| == i && (forall x :: x in s.a.tx.sq ==> x < cfg.depth) && s.a.tx.cq == []
    && |s.a.tx.free| == cfg.depth - i && s.a.tx.ctrlFree == o.a.tx.ctrlFree
    && s.a.tx.tokens == 0 && !s.a.tx.pushing && s.a.tx.credits == cfg.depth - i
    && s.a.tx.sender == SDrain(SendTask(AllFrames(msgs, cfg.chunk)[i..], i, 0))
  }

  lemma Start(cfg: Config, o: System, msgs: seq<Bytes>) returns (s: System)
    requires cfg.Valid() && Reachable(cfg, o) && AllBack(cfg, o.a.tx) && !o.a.closed
    requires msgs != [] && forall m :: m in msgs ==> |m| <= MAX_MESSAGE
    ensures Reachable(cfg, s) && After(cfg, o, s) && Underway(cfg, o, s, msgs, 0)
  {
    hide Reachable, After, AllFrames;
    AfterNothing(cfg, o);
    AllFramesNonEmpty(msgs, cfg.chunk);
    s := Go(cfg, o, o, At(true, OnTx(SendCall(msgs))));
    assert AllFrames(msgs, cfg.chunk)[0..] == AllFrames(msgs, cfg.chunk);
  }

  /** One turn of the posting loop, with a credit and a slot to hand. */
  lemma PostOne(cfg: Config, o: System, s: System, msgs: seq<Bytes>, i: nat) returns (s': System)
    requires cfg.Valid() && Reachable(cfg, s) && After(cfg, o, s) && Underway(cfg, o, s, msgs, i) && i < cfg.depth
    requires i + 1 < |AllFrames(msgs, cfg.chunk)|
    ensures Reachable(cfg, s') && After(cfg, o, s') && Underway(cfg, o, s', msgs, i + 1)
  {
    hide AllFrames, Reachable, After;
    s' := Go(cfg, o, s, At(true, OnTx(DrainEnd)));
    s' := Go(cfg, o, s', At(true, OnTx(Acquire)));
    s' := Go(cfg, o, s', At(true, OnTx(TakeSlot)));
    Heads(cfg, s', true);
    s' := Go(cfg, o, s', At(true, OnTx(PostData)));
    assert AllFrames(msgs, cfg.chunk)[i..][1..] == AllFrames(msgs, cfg.chunk)[i + 1..];
  }

  lemma {:induction false} PostMany(cfg: Config, o: System, msgs: seq<Bytes>, i: nat) returns (s: System)
    requires cfg.Valid() && Reachable(cfg, o) && AllBack(cfg, o.a.tx) && !o.a.closed
    requires forall m :: m in msgs ==> |m| <= MAX_MESSAGE
    requires i <= cfg.depth && i < |AllFrames(msgs, cfg.chunk)|
    ensures Reachable(cfg, s) && After(cfg, o, s) && Underway(cfg, o, s, msgs, i)
  {
    hide Reachable, After, Underway;
    if i == 0 {
      assert msgs != [];
      s := Start(cfg, o, msgs);
    } else {
      s := PostMany(cfg, o, msgs, i - 1);
      s := PostOne(cfg, o, s, msgs, i - 1);
    }
  }

  // The rest of the run: the credit comes back before the first send completion is handled.

  /** A sender that has used its window and waits for a credit, with more than its last frame to post. */
  ghost predicate Starved(cfg: Config, e: End) {
    && !e.closed && e.tx.sender.SAcquire? && e.tx.sender.task.done == 0 && |e.tx.sender.task.todo| >= 1
    && e.tx.credits == 0
    && (forall x :: x in e.tx.sq ==> x < cfg.depth)
  }

  ghost predicate Taken(cfg: Config, s: System) {
    && Starved(cfg, s.a) && |s.a.tx.sender.task.todo| >= 2 && s.a.tx.tokens == 0 && !s.a.tx.pushing
    && |s.a.tx.sq| == cfg.depth - 1 && |s.a.tx.cq| == 1 && s.a.tx.cq[0] < cfg.depth && s.a.tx.free == []
    && s.a.rx.cq == [] && |s.a.rx.rq| == cfg.depth
    && !s.b.closed && s.b.tx.ctrlFree != [] && s.b.tx.sq == [] && !s.b.tx.pushing
    && s.b.rx.receiver.RTake?
    && s.b.rx.queue == [] && s.b.rx.cq == [] && s.b.rx.pending == 0 && |s.b.rx.rq| == cfg.depth - 1
  }

  /** A side that has nothing under way and can receive. */
  ghost predicate Ready(cfg: Config, e: End) {
    && !e.closed && e.tx.ctrlFree != [] && e.tx.sq == [] && !e.tx.pushing
    && !e.rx.receiver.RTake? && !e.rx.receiver.RReturn?
    && e.rx.queue == [] && e.rx.cq == [] && e.rx.pending == 0 && |e.rx.rq| == cfg.depth
  }

  lemma CalmIsReady(cfg: Config, o: System)
    requires cfg.Valid() && Reachable(cfg, o) && IsCalm(cfg, o)
    ensures Ready(cfg, o.b) && o.a.rx.cq == [] && |o.a.rx.rq| == cfg.depth && AllBack(cfg, o.a.tx) && !o.a.closed
  {
    hide Reachable;
    CalmReceiver(cfg, o, false);
  }

  lemma TakeFirst(cfg: Config, o: System, s: System, msgs: seq<Bytes>) returns (s': System)
    requires cfg.Valid() && Reachable(cfg, s) && After(cfg, o, s) && Underway(cfg, o, s, msgs, cfg.depth)
    requires Ready(cfg, o.b) && o.a.rx.cq == [] && |o.a.rx.rq| == cfg.depth
    requires cfg.depth + 2 <= |AllFrames(msgs, cfg.chunk)|
    ensures s'.a.tx.log.accepted == s.a.tx.log.accepted
    ensures Reachable(cfg, s') && After(cfg, o, s') && Taken(cfg, s')
  {
    hide AllFrames, Reachable, After;
    s' := Go(cfg, o, s, At(true, OnTx(DrainEnd)));
    Heads(cfg, s', true);
    Heads(cfg, s', false);
    assert s'.a.tx.sq[0] in s'.a.tx.sq;
    s' := DeliverAndTake(cfg, o, s');
  }

  lemma DeliverAndTake(cfg: Config, o: System, s: System) returns (s': System)
    requires cfg.Valid() && Reachable(cfg, s) && After(cfg, o, s)
    requires Starved(cfg, s.a) && |s.a.tx.sender.task.todo| >= 2 && s.a.tx.tokens == 0 && !s.a.tx.pushing
    requires |s.a.tx.sq| == cfg.depth && s.a.tx.cq == [] && s.a.tx.free == []
    requires CanDeliver(s.a, s.b) && HeadFrame(s.a.tx).Data? && s.a.tx.sq[0] < cfg.depth
    requires Ready(cfg, s.b) && s.a.rx.cq == [] && |s.a.rx.rq| == cfg.depth
    ensures s'.a.tx.log.accepted == s.a.tx.log.accepted
    ensures Reachable(cfg, s') && After(cfg, o, s') && Taken(cfg, s')
  {
    hide AllFrames, Reachable, After;
    s' := Go(cfg, o, s, Deliver(true));
    assert s'.a.tx.cq == [s.a.tx.sq[0]];
    assert forall x :: x in s'.a.tx.sq ==> x in s.a.tx.sq;
    s' := Go(cfg, o, s', At(false, PollRecv));
    if s'.b.rx.receiver.RIdle? {
      s' := Go(cfg, o, s', At(false, OnRx(RecvStart(false, 1))));
    }
    s' := Go(cfg, o, s', At(false, OnRx(TakeFrame)));
  }

  ghost predicate Returning(cfg: Config, s: System) {
    && Starved(cfg, s.a) && |s.a.tx.sender.task.todo| >= 2 && s.a.tx.tokens == 0 && !s.a.tx.pushing
    && |s.a.tx.sq| == cfg.depth - 1 && |s.a.tx.cq| == 1 && s.a.tx.cq[0] < cfg.depth && s.a.tx.free == []
    && s.a.rx.cq == [] && |s.a.rx.rq| == cfg.depth
    && !s.b.closed && s.b.tx.ctrlFree != [] && s.b.tx.sq == [] && !s.b.tx.pushing
    && s.b.rx.receiver.RReturn? && s.b.rx.receiver.n == 1 && |s.b.rx.rq| == cfg.depth
  }

  /** Whatever the size of the window, the receiver now returns this one credit. */
  lemma ReturnFirst(cfg: Config, o: System, s: System) returns (s': System)
    requires cfg.Valid() && Reachable(cfg, s) && After(cfg, o, s) && Taken(cfg, s)
    ensures s'.a.tx.log.accepted == s.a.tx.log.accepted
    ensures Reachable(cfg, s') && After(cfg, o, s') && Returning(cfg, s')
  {
    hide AllFrames, Reachable, After;
    Heads(cfg, s, false);
    OpenIsUnbroken(cfg, s, true);
    GuardHolds(cfg, s, true);
    s' := Go(cfg, o, s, At(false, OnRx(Consume)));
    if s'.b.rx.receiver.RIdle? {
      s' := Go(cfg, o, s', At(false, OnRx(RecvStart(false, 1))));
    }
    if s'.b.rx.receiver.RLoop? {
      s' := Go(cfg, o, s', At(false, OnRx(FindEmpty)));
    }
  }

  ghost predicate Reposting(cfg: Config, s: System) {
    && !s.a.closed && s.a.tx.sender.SSlot? && s.a.tx.sender.task.done == 0 && |s.a.tx.sender.task.todo| >= 2
    && s.a.tx.credits == 0 && (forall x :: x in s.a.tx.sq ==> x < cfg.depth)
    && s.a.tx.tokens == 0 && s.a.tx.pushing
    && |s.a.tx.sq| == cfg.depth - 1 && s.a.tx.cq == [] && |s.a.tx.free| == 1
    && |s.b.rx.rq| == cfg.depth
  }

  lemma CreditArrives(cfg: Config, o: System, s: System) returns (s': System)
    requires cfg.Valid() && Reachable(cfg, s) && After(cfg, o, s) && Returning(cfg, s)
    ensures s'.a.tx.log.accepted == s.a.tx.log.accepted
    ensures Reachable(cfg, s') && After(cfg, o, s')
    ensures Starved(cfg, s'.a) && s'.a.tx == s.a.tx && |s'.b.rx.rq| == cfg.depth
    ensures |s'.a.rx.cq| == 1 && s'.a.rx.cq[0] < |s'.a.rx.mem| && s'.a.rx.mem[s'.a.rx.cq[0]] == Credit(1)
  {
    hide AllFrames, Reachable, After;
    Heads(cfg, s, false);
    s' := Go(cfg, o, s, At(false, PostCredit));
    Heads(cfg, s', false);
    Heads(cfg, s', true);
    s' := Go(cfg, o, s', Deliver(false));
  }

  /** The credit is released, and then the first slot freed; its token is not pushed yet. */
  lemma FreeFirst(cfg: Config, o: System, s: System) returns (s': System)
    requires cfg.Valid() && !cfg.atomicDispatch && Reachable(cfg, s) && After(cfg, o, s) && Returning(cfg, s)
    ensures s'.a.tx.log.accepted == s.a.tx.log.accepted
    ensures Reachable(cfg, s') && After(cfg, o, s') && Reposting(cfg, s')
  {
    hide AllFrames, Reachable, After;
    s' := CreditArrives(cfg, o, s);
    s' := Go(cfg, o, s', At(true, PollRecv));
    s' := Go(cfg, o, s', At(true, OnTx(Acquire)));
    s' := Go(cfg, o, s', At(true, OnTx(PollSend)));
  }

  /** `j` tokens queued, the rest of `depth + 1` frames still on the wire. */
  ghost predicate Feeding(cfg: Config, s: System, j: nat) {
    && Starved(cfg, s.a) && s.a.tx.tokens == j && !s.a.tx.pushing && s.a.tx.cq == []
    && 1 <= j <= cfg.depth && |s.a.tx.sq| == cfg.depth + 1 - j && |s.b.rx.rq| == cfg.depth + 1 - j
  }

  /** The freed slot has been used again before its token was pushed: one token too many is owed. */
  ghost predicate Overdrawn(cfg: Config, s: System) {
    && !s.a.closed && s.a.tx.sender.SDrain? && s.a.tx.sender.task.done == 0 && |s.a.tx.sender.task.todo| >= 1
    && s.a.tx.credits == 0 && (forall x :: x in s.a.tx.sq ==> x < cfg.depth)
    && s.a.tx.tokens == 0 && s.a.tx.pushing && |s.a.tx.sq| == cfg.depth && s.a.tx.cq == [] && s.a.tx.free == []
    && |s.b.rx.rq| == cfg.depth
  }

  lemma Repost(cfg: Config, o: System, s: System) returns (s': System)
    requires cfg.Valid() && !cfg.atomicDispatch && Reachable(cfg, s) && After(cfg, o, s) && Reposting(cfg, s)
    ensures s'.a.tx.log.accepted == s.a.tx.log.accepted
    ensures Reachable(cfg, s') && After(cfg, o, s') && Overdrawn(cfg, s')
  {
    hide AllFrames, Reachable, After;
    s' := Go(cfg, o, s, At(true, OnTx(TakeSlot)));
    Heads(cfg, s', true);
    s' := Go(cfg, o, s', At(true, OnTx(PostData)));
  }

  lemma FeedFirst(cfg: Config, o: System, s: System) returns (s': System)
    requires cfg.Valid() && !cfg.atomicDispatch && Reachable(cfg, s) && After(cfg, o, s) && Overdrawn(cfg, s)
    ensures s'.a.tx.log.accepted == s.a.tx.log.accepted
    ensures Reachable(cfg, s') && After(cfg, o, s') && Feeding(cfg, s', 1)
  {
    hide AllFrames, Reachable, After;
    s' := Go(cfg, o, s, At(true, OnTx(DrainEnd)));
    s' := Go(cfg, o, s', At(true, OnTx(PushToken)));
  }

  /** One more frame is accepted and its slot freed. */
  lemma FreeNext(cfg: Config, o: System, s: System, j: nat) returns (s': System)
    requires cfg.Valid() && !cfg.atomicDispatch && Reachable(cfg, s) && After(cfg, o, s) && Feeding(cfg, s, j)
    ensures s'.a.tx.log.accepted == s.a.tx.log.accepted
    ensures Reachable(cfg, s') && After(cfg, o, s') && Starved(cfg, s'.a)
    ensures s'.a.tx.tokens == j && s'.a.tx.pushing && s'.a.tx.cq == []
    ensures |s'.a.tx.sq| == cfg.depth - j && |s'.b.rx.rq| == cfg.depth - j
  {
    hide AllFrames, Reachable, After;
    Heads(cfg, s, true);
    Heads(cfg, s, false);
    assert s.a.tx.sq[0] in s.a.tx.sq;
    s' := Go(cfg, o, s, Deliver(true));
    assert forall x :: x in s'.a.tx.sq ==> x in s.a.tx.sq;
    assert s'.a.tx.cq == [s.a.tx.sq[0]];
    PollerNeverBlocksOnPools(cfg, s', true);
    s' := Go(cfg, o, s', At(true, OnTx(PollSend)));
  }

  lemma {:induction false} FeedMany(cfg: Config, o: System, s: System, j: nat) returns (s': System)
    requires cfg.Valid() && !cfg.atomicDispatch && Reachable(cfg, s) && After(cfg, o, s)
    requires Feeding(cfg, s, 1) && 1 <= j <= cfg.depth
    ensures s'.a.tx.log.accepted == s.a.tx.log.accepted
    ensures Reachable(cfg, s') && After(cfg, o, s') && Feeding(cfg, s', j)
    decreases j
  {
    hide Reachable, After, Act, CanAct;
    s' := s;
    if j > 1 {
      s' := FeedMany(cfg, o, s, j - 1);
      s' := FreeNext(cfg, o, s', j - 1);
      s' := PushNext(cfg, o, s', j - 1);
    }
  }

  lemma PushNext(cfg: Config, o: System, s: System, j: nat) returns (s': System)
    requires cfg.Valid() && Reachable(cfg, s) && After(cfg, o, s) && Starved(cfg, s.a)
    requires s.a.tx.tokens == j && s.a.tx.pushing && s.a.tx.cq == []
    requires 1 <= j < cfg.depth && |s.a.tx.sq| == cfg.depth - j && |s.b.rx.rq| == cfg.depth - j
    ensures s'.a.tx.log.accepted == s.a.tx.log.accepted
    ensures Reachable(cfg, s') && After(cfg, o, s') && Feeding(cfg, s', j + 1)
  {
    hide AllFrames, Reachable, After;
    s' := Go(cfg, o, s, At(true, OnTx(PushToken)));
  }

  /** A large call made on a calm pair, up to the post that overdraws the token channel. */
  lemma Overdraw(cfg: Config, o: System, msgs: seq<Bytes>) returns (s: System)
    requires cfg.Valid() && !cfg.atomicDispatch && Reachable(cfg, o) && IsCalm(cfg, o)
    requires forall m :: m in msgs ==> |m| <= MAX_MESSAGE
    requires |AllFrames(msgs, cfg.chunk)| >= cfg.depth + 2
    ensures Reachable(cfg, s) && After(cfg, o, s) && Overdrawn(cfg, s)
    ensures s.a.tx.log.accepted == o.a.tx.log.accepted + msgs
  {
    hide Reachable, After, Act, CanAct, IsCalm, Ready, Taken, Returning, Reposting, Overdrawn, AllBack;
    CalmIsReady(cfg, o);
    s := PostMany(cfg, o, msgs, cfg.depth);
    s := TakeFirst(cfg, o, s, msgs);
    s := ReturnFirst(cfg, o, s);
    s := FreeFirst(cfg, o, s);
    s := Repost(cfg, o, s);
  }

  /** With two-step dispatch any call of at least `depth + 2` frames, made on a calm pair, can wedge its side. */
  lemma LargeCallCanWedge(cfg: Config, o: System, msgs: seq<Bytes>) returns (s: System)
    requires cfg.Valid() && !cfg.atomicDispatch && Reachable(cfg, o) && IsCalm(cfg, o)
    requires forall m :: m in msgs ==> |m| <= MAX_MESSAGE
    requires |AllFrames(msgs, cfg.chunk)| >= cfg.depth + 2
    ensures Reachable(cfg, s) && After(cfg, o, s)
    ensures Wedged(cfg, s.a) && s.a.tx.log.accepted == o.a.tx.log.accepted + msgs
  {
    hide Reachable, After, Act, CanAct, IsCalm, Overdrawn, Feeding;
    s := Overdraw(cfg, o, msgs);
    s := FeedFirst(cfg, o, s);
    s := FeedMany(cfg, o, s, cfg.depth);
    s := FreeNext(cfg, o, s, cfg.depth);
  }

  // -------------------------------------------------- the size of the call

  /** The running call belongs to the messages accepted after the first `k`. */
  ghost predicate CallWithin(cfg: Config, t: Tx, k: nat)
    requires cfg.Valid()
  {
    && k <= |t.log.accepted|
    && (Active(t.sender) ==>
          t.sender.task.posted + |t.sender.task.todo| <= |AllFrames(t.log.accepted[k..], cfg.chunk)|)
  }

  lemma StepWithin(cfg: Config, e: End, s: Step, k: nat)
    requires cfg.Valid() && Enabled(cfg, e, s) && CallWithin(cfg, e.tx, k)
    ensures CallWithin(cfg, Apply(cfg, e, s).tx, k)
  {
    hide AllFrames, RxApply, RxEnabled, TxApply, TxEnabled;
    if s.OnTx? { TxWithin(cfg, e.tx, e.closed, s.t, k); }
  }

  lemma TxWithin(cfg: Config, t: Tx, closed: bool, s: TxStep, k: nat)
    requires cfg.Valid() && TxEnabled(cfg, t, closed, s) && CallWithin(cfg, t, k)
    ensures CallWithin(cfg, TxApply(cfg, t, closed, s), k)
  {
    hide AllFrames;
    if s.SendCall? {
      assert (t.log.accepted + s.msgs)[k..] == t.log.accepted[k..] + s.msgs;
      AllFramesConcat(t.log.accepted[k..], s.msgs, cfg.chunk);
    }
  }

  lemma {:induction false} CallStaysWithin(cfg: Config, o: System, s: System, n: nat)
    requires cfg.Valid() && LeadsIn(cfg, o, s, n) && o.a.tx.sender.SIdle?
    ensures CallWithin(cfg, s.a.tx, |o.a.tx.log.accepted|)
    decreases n
  {
    hide Apply, Enabled, AllFrames, CallWithin;
    if n == 0 {
      IdleWithin(cfg, o.a.tx);
    } else {
      var before, act :| LeadsIn(cfg, o, before, n - 1) && Leads(cfg, before, act, s);
      CallStaysWithin(cfg, o, before, n - 1);
      ActWithin(cfg, before, act, |o.a.tx.log.accepted|);
    }
  }

  lemma IdleWithin(cfg: Config, t: Tx)
    requires cfg.Valid() && t.sender.SIdle?
    ensures CallWithin(cfg, t, |t.log.accepted|)
  {}

  lemma ActWithin(cfg: Config, s: System, act: Action, k: nat)
    requires cfg.Valid() && CanAct(cfg, s, act) && CallWithin(cfg, s.a.tx, k)
    ensures CallWithin(cfg, Act(cfg, s, act).a.tx, k)
  {
    hide Apply, Enabled, AllFrames;
    match act {
      case At(true, step) => StepWithin(cfg, s.a, step, k);
      case _ =>
    }
  }

  /** Of the calls made since a calm state, none posts more frames than their messages have. */
  lemma CallSize(cfg: Config, o: System, s: System, msgs: seq<Bytes>)
    requires cfg.Valid() && After(cfg, o, s) && o.a.tx.sender.SIdle?
    requires s.a.tx.log.accepted == o.a.tx.log.accepted + msgs && Active(s.a.tx.sender)
    ensures s.a.tx.sender.task.posted + |s.a.tx.sender.task.todo| <= |AllFrames(msgs, cfg.chunk)|
  {
    hide LeadsIn, AllFrames;
    var n: nat :| LeadsIn(cfg, o, s, n);
    CallStaysWithin(cfg, o, s, n);
    assert s.a.tx.log.accepted[|o.a.tx.log.accepted|..] == msgs;
  }

  ghost predicate CanWedge(cfg: Config, o: System, msgs: seq<Bytes>, atA: bool)
    requires cfg.Valid()
  {
    exists s :: After(cfg, o, s) && Wedged(cfg, From(s, atA))
                && From(s, atA).tx.log.accepted == From(o, atA).tx.log.accepted + msgs
  }

  /**
   * Exactly when the two steps of `dispatch` can wedge a side that sends `msgs` from a calm state, in
   * whatever calls: when a call for all of them posts at least `depth + 2` frames. The caller can tell
   * from the message lengths.
   */
  lemma WedgeExactly(cfg: Config, o: System, msgs: seq<Bytes>, atA: bool)
    requires cfg.Valid() && !cfg.atomicDispatch && Reachable(cfg, o) && IsCalm(cfg, o)
    requires forall m :: m in msgs ==> |m| <= MAX_MESSAGE
    ensures CanWedge(cfg, o, msgs, atA) <==> |AllFrames(msgs, cfg.chunk)| >= cfg.depth + 2
  {
    hide Reachable, After, AllFrames, IsCalm;
    var o' := if atA then o else Mirror(o);
    TurnCalm(cfg, o, atA);
    if |AllFrames(msgs, cfg.chunk)| >= cfg.depth + 2 {
      var s := LargeCallCanWedge(cfg, o', msgs);
      Mirrored(cfg, o', s);
      assert After(cfg, o, if atA then s else Mirror(s));
    } else {
      forall s | After(cfg, o, s) && From(s, atA).tx.log.accepted == From(o, atA).tx.log.accepted + msgs
        ensures !Wedged(cfg, From(s, atA))
      {
        Mirrored(cfg, o, s);
        SmallNeverWedges(cfg, o', if atA then s else Mirror(s), msgs);
      }
    }
  }

  lemma TurnCalm(cfg: Config, o: System, atA: bool)
    requires cfg.Valid() && Reachable(cfg, o) && IsCalm(cfg, o)
    ensures var o' := if atA then o else Mirror(o); Reachable(cfg, o') && IsCalm(cfg, o') && o'.a == From(o, atA)
  {
    hide Reachable, After;
    Mirrored(cfg, o, o);
  }

  lemma SmallNeverWedges(cfg: Config, o: System, s: System, msgs: seq<Bytes>)
    requires cfg.Valid() && Reachable(cfg, o) && IsCalm(cfg, o) && After(cfg, o, s)
    requires s.a.tx.log.accepted == o.a.tx.log.accepted + msgs && |AllFrames(msgs, cfg.chunk)| < cfg.depth + 2
    ensures !Wedged(cfg, s.a)
  {
    hide Reachable, After, AllFrames;
    if Wedged(cfg, s.a) {
      AfterReaches(cfg, o, s);
      WedgedIsLarge(cfg, s, true);
      CallSize(cfg, o, s, msgs);
    }
  }

  // ------------------------------------------------- tokens after a drain

  /** The end of a drain with `depth + 1` tokens queued, in the poller's hand, or still to come. */
  ghost predicate DrainsOver(cfg: Config, e: End) {
    !e.closed && CanDrainEnd(e.tx) && Tokens(e.tx) == cfg.depth + 1
  }

  ghost predicate CanDrainOver(cfg: Config, o: System, msgs: seq<Bytes>, atA: bool)
    requires cfg.Valid()
  {
    exists s :: After(cfg, o, s) && DrainsOver(cfg, From(s, atA))
                && From(s, atA).tx.log.accepted == From(o, atA).tx.log.accepted + msgs
  }

  /** The bound `depth + 1` on tokens after a drain is reached, by exactly the calls that can wedge. */
  lemma TokensExactly(cfg: Config, o: System, msgs: seq<Bytes>, atA: bool)
    requires cfg.Valid() && !cfg.atomicDispatch && Reachable(cfg, o) && IsCalm(cfg, o)
    requires forall m :: m in msgs ==> |m| <= MAX_MESSAGE
    ensures CanDrainOver(cfg, o, msgs, atA) <==> |AllFrames(msgs, cfg.chunk)| >= cfg.depth + 2
  {
    hide Reachable, After, AllFrames, IsCalm, DrainsOver, Overdrawn;
    var o' := if atA then o else Mirror(o);
    TurnCalm(cfg, o, atA);
    if |AllFrames(msgs, cfg.chunk)| >= cfg.depth + 2 {
      var s := Overdraw(cfg, o', msgs);
      OverdrawnTokens(cfg, s);
      Mirrored(cfg, o', s);
      assert After(cfg, o, if atA then s else Mirror(s));
    } else {
      forall s | After(cfg, o, s) && From(s, atA).tx.log.accepted == From(o, atA).tx.log.accepted + msgs
        ensures !DrainsOver(cfg, From(s, atA))
      {
        Mirrored(cfg, o, s);
        SmallNeverDrainsOver(cfg, o', if atA then s else Mirror(s), msgs);
      }
    }
  }

  lemma OverdrawnTokens(cfg: Config, s: System)
    requires cfg.Valid() && Reachable(cfg, s) && Overdrawn(cfg, s)
    ensures DrainsOver(cfg, s.a)
  {
    hide Count, AllFrames, DataOf;
    DirectionInv(cfg, s, true);
    assert Finishing(s.a.tx) == [];
  }

  lemma SmallNeverDrainsOver(cfg: Config, o: System, s: System, msgs: seq<Bytes>)
    requires cfg.Valid() && Reachable(cfg, o) && IsCalm(cfg, o) && After(cfg, o, s)
    requires s.a.tx.log.accepted == o.a.tx.log.accepted + msgs && |AllFrames(msgs, cfg.chunk)| < cfg.depth + 2
    ensures !DrainsOver(cfg, s.a)
  {
    hide Reachable, After, AllFrames;
    if DrainsOver(cfg, s.a) {
      AfterReaches(cfg, o, s);
      OverdrawnIsLarge(cfg, s);
      CallSize(cfg, o, s, msgs);
    }
  }

  lemma OverdrawnIsLarge(cfg: Config, s: System)
    requires cfg.Valid() && Reachable(cfg, s) && DrainsOver(cfg, s.a)
    ensures s.a.tx.sender.task.posted + |s.a.tx.sender.task.todo| >= cfg.depth + 2
  {
    hide Count, AllFrames, DataOf;
    DirectionInv(cfg, s, true);
  }
}
