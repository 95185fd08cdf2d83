/**
 * The send calls, loop by loop: `drainSendDone`, `sendFrame`, `postFrames`, `waitSends`, `sendMsg` and
 * `sendBatch` (rdmanet/transport_linux.go, lines 341-460 and 678-705).
 */
module SendCalls {
  import opened Words

  import opened Framing
  import opened Credit
  import opened Endpoint
  import opened TxInvariant
  import opened RxInvariant
  import opened Protocol
  import opened OneSide
  import opened Scheduling
  import opened Transport
  import opened Interleaving

  /** `Stuck` is a call still blocked when the plan has run out. */
  datatype Result = Sent | MessageTooLarge | ErrClosed | Stuck

  /** Where the sender stands after posting a frame. */
  function AfterPost(task: SendTask): Sender {
    if task.todo != [] then SDrain(task) else SWait(Unfinished(task))
  }

  /** A send call in progress: nothing but its own progress has changed since `e`. */
  ghost predicate InCall(e: End, e': End) {
    && e'.tx.log.accepted == e.tx.log.accepted && e'.tx.log.finished == e.tx.log.finished
    && (e.tx.log.aborted ==> e'.tx.log.aborted) && (e.closed ==> e'.closed)
  }

  /** Nor has it given up: what it has posted, and has still to post, is what it was. */
  ghost predicate Carried(e: End, e': End) {
    e'.tx.log.aborted == e.tx.log.aborted && Committed(e'.tx) == Committed(e.tx)
  }

  /** No step of a send call but giving up makes it lose a frame. */
  lemma StepCarries(cfg: Config, e: End, s: TxStep)
    requires cfg.Valid() && EndInv(cfg, e) && Enabled(cfg, e, OnTx(s))
    requires s.DrainToken? || s.DrainEnd? || s.Acquire? || s.TakeSlot? || s.PostData? || s.WaitToken? || s.SendReturn?
    ensures Carried(e, Apply(cfg, e, OnTx(s)))
  {
    hide AllFrames, DataOf, EndInv;
    match s {
      case PostData =>
        HeldTodo(cfg, e);
        var todo := e.tx.sender.task.todo;
        ProjectSnoc(e.tx.log.stream, todo[0]);
        ShiftOne(DataOf(e.tx.log.stream), todo);
        assert Todo(DoPostData(e.tx).sender) == todo[1..];
      case _ =>
    }
  }

  /** An own step of the call, after what has happened so far. */
  lemma Stepping(cfg: Config, e0: End, e: End, s: TxStep, plan: Plan, rest: Plan)
    requires cfg.Valid() && EndInv(cfg, e) && Enabled(cfg, e, OnTx(s)) && Ran(cfg, true, e0, e, plan, rest)
    requires s.DrainToken? || s.DrainEnd? || s.Acquire? || s.TakeSlot? || s.PostData? || s.WaitToken? || s.SendReturn?
             || s.SendAbort?
    ensures Ran(cfg, true, e0, Apply(cfg, e, OnTx(s)), plan, rest)
    ensures !s.SendAbort? ==> Carried(e, Apply(cfg, e, OnTx(s)))
  {
    hide EndInv, Ran, Carried, Enabled, Apply;
    RanStep(cfg, true, e0, e, OnTx(s), plan, rest);
    if !s.SendAbort? { StepCarries(cfg, e, s); }
  }

  /** `drainSendDone`: takes the tokens that are queued, without waiting. */
  method DrainSendDone(t: Transport, plan: Plan) returns (n: nat, rest: Plan)
    requires t.Valid() && t.sender.SDrain?
    modifies t, t.sendBuf, t.recvBuf, t.credits, t.reasm
    ensures t.Valid() && old(t.past) <= t.past && InCall(old(t.view), t.view)
    ensures t.sender == SAcquire(old(t.sender).task.(done := old(t.sender).task.done + n))
    ensures Carried(old(t.view), t.view) && Ran(t.Cfg(), true, old(t.view), t.view, plan, rest)
  {
    hide EndInv, IsPast, Rings.Ring, SendsPosted, SendsDone, RecvsPosted, Committed, Ran;
    hide RxApply, RxEnabled, Tokens;
    n, rest := 0, plan;
    RanNothing(t.Cfg(), true, t.view, plan);
    while true
      invariant t.Valid() && old(t.past) <= t.past && InCall(old(t.view), t.view)
      invariant t.sender == SDrain(old(t.sender).task.(done := old(t.sender).task.done + n))
      invariant Carried(old(t.view), t.view) && Ran(t.Cfg(), true, old(t.view), t.view, plan, rest)
      decreases |rest|, t.sendDone
    {
      rest := Yield(t, true, old(t.view), plan, rest);
      ghost var e := t.view;
      var ok := t.TrySendDone();
      Stepping(t.Cfg(), old(t.view), e, if ok then DrainToken else DrainEnd, plan, rest);
      if !ok {
        return;
      }
      n := n + 1;
    }
  }

  /** `credits.acquire`, waiting; refused on a closed transport, where the call goes on to wait out its frames. */
  method WaitCredit(t: Transport, plan: Plan) returns (g: Grant, rest: Plan)
    requires t.Valid() && t.sender.SAcquire?
    modifies t, t.sendBuf, t.recvBuf, t.credits, t.reasm
    ensures t.Valid() && old(t.past) <= t.past && InCall(old(t.view), t.view)
    ensures g.Granted? ==> t.sender == SSlot(old(t.sender).task)
    ensures !g.Refused? ==> Carried(old(t.view), t.view)
    ensures g.Refused? ==> t.sender == SWait(Unfinished(old(t.sender).task)) && t.closed && t.view.tx.log.aborted
    ensures g.Waits? ==> SenderWaits(t.view) && rest == []
    ensures Ran(t.Cfg(), true, old(t.view), t.view, plan, rest)
  {
    hide EndInv, IsPast, Rings.Ring, SendsPosted, SendsDone, RecvsPosted, Committed, Ran;
    rest := plan;
    RanNothing(t.Cfg(), true, t.view, plan);
    while true
      invariant t.Valid() && old(t.past) <= t.past && InCall(old(t.view), t.view)
      invariant t.sender == old(t.sender) && Carried(old(t.view), t.view)
      invariant Ran(t.Cfg(), true, old(t.view), t.view, plan, rest)
      decreases |rest|
    {
      rest := Yield(t, true, old(t.view), plan, rest);
      ghost var e := t.view;
      g := t.AcquireCredit();
      if !g.Waits? {
        Stepping(t.Cfg(), old(t.view), e, if g.Granted? then TxStep.Acquire else SendAbort, plan, rest);
      }
      if !g.Waits? || rest == [] {
        return;
      }
    }
  }

  /** The select for a free send slot, waiting. */
  method WaitSlot(t: Transport, plan: Plan) returns (g: Grant, rest: Plan)
    requires t.Valid() && t.sender.SSlot?
    modifies t, t.sendBuf, t.recvBuf, t.credits, t.reasm
    ensures t.Valid() && old(t.past) <= t.past && InCall(old(t.view), t.view)
    ensures g.Granted? ==> t.sender.SPost? && t.sender.task == old(t.sender).task
    ensures !g.Refused? ==> Carried(old(t.view), t.view)
    ensures g.Refused? ==> t.sender == SWait(Unfinished(old(t.sender).task)) && t.closed && t.view.tx.log.aborted
    ensures g.Waits? ==> SenderWaits(t.view) && rest == []
    ensures Ran(t.Cfg(), true, old(t.view), t.view, plan, rest)
  {
    hide EndInv, IsPast, Rings.Ring, SendsPosted, SendsDone, RecvsPosted, Committed, Ran;
    rest := plan;
    RanNothing(t.Cfg(), true, t.view, plan);
    while true
      invariant t.Valid() && old(t.past) <= t.past && InCall(old(t.view), t.view)
      invariant t.sender == old(t.sender) && Carried(old(t.view), t.view)
      invariant Ran(t.Cfg(), true, old(t.view), t.view, plan, rest)
      decreases |rest|
    {
      rest := Yield(t, true, old(t.view), plan, rest);
      ghost var e := t.view;
      g := t.TakeSendSlot();
      if !g.Waits? { Stepping(t.Cfg(), old(t.view), e, if g.Granted? then TakeSlot else SendAbort, plan, rest); }
      if !g.Waits? || rest == [] {
        return;
      }
    }
  }

  /** `sendFrame`: a credit, a slot, the bytes, the post. */
  method SendFrame(t: Transport, p: Bytes, more: bool, plan: Plan) returns (g: Grant, rest: Plan)
    requires t.Valid() && t.sender.SAcquire? && t.sender.task.todo != [] && t.sender.task.todo[0] == Data(p, more)
    modifies t, t.sendBuf, t.recvBuf, t.credits, t.reasm
    ensures t.Valid() && old(t.past) <= t.past && InCall(old(t.view), t.view)
    ensures var task := old(t.sender).task;
            && (g.Granted? ==> t.sender == AfterPost(SendTask(task.todo[1..], task.posted + 1, task.done)))
            && (g.Refused? ==> t.sender == SWait(Unfinished(task)) && t.closed && t.view.tx.log.aborted)
    ensures !g.Refused? ==> Carried(old(t.view), t.view)
    ensures g.Waits? ==> SenderWaits(t.view) && rest == []
    ensures Ran(t.Cfg(), true, old(t.view), t.view, plan, rest)
  {
    hide EndInv, IsPast, Rings.Ring, SendsPosted, SendsDone, RecvsPosted, Committed, Ran, SenderWaits;
    g, rest := WaitCredit(t, plan);
    if !g.Granted? {
      return;
    }
    ghost var e1, rest1 := t.view, rest;
    g, rest := WaitSlot(t, rest);
    RanTrans(t.Cfg(), true, old(t.view), e1, t.view, plan, rest1, rest);
    if !g.Granted? {
      return;
    }
    ghost var e2, rest2 := t.view, rest;
    rest := PostHeld(t, p, more, rest);
    RanTrans(t.Cfg(), true, old(t.view), e2, t.view, plan, rest2, rest);
  }

  /** The post, with the slot in hand. */
  method PostHeld(t: Transport, p: Bytes, more: bool, plan: Plan) returns (rest: Plan)
    requires t.Valid() && t.sender.SPost? && t.sender.task.todo != [] && t.sender.task.todo[0] == Data(p, more)
    modifies t, t.sendBuf, t.recvBuf, t.credits, t.reasm
    ensures t.Valid() && old(t.past) <= t.past && InCall(old(t.view), t.view)
    ensures var task := old(t.sender).task;
            t.sender == AfterPost(SendTask(task.todo[1..], task.posted + 1, task.done)) && Carried(old(t.view), t.view)
    ensures Ran(t.Cfg(), true, old(t.view), t.view, plan, rest)
  {
    hide EndInv, IsPast, Rings.Ring, SendsPosted, SendsDone, RecvsPosted, Committed, Ran;
    RanNothing(t.Cfg(), true, t.view, plan);
    rest := Yield(t, true, old(t.view), plan, plan);
    ghost var e := t.view;
    t.PostFrame(p, more);
    Stepping(t.Cfg(), old(t.view), e, PostData, plan, rest);
  }

  lemma WaitLands(cfg: Config, e: End, s: TxStep)
    requires cfg.chunk > 0 && Enabled(cfg, e, OnTx(s)) && e.tx.sender.SWait?
    requires s.WaitToken? || s.SendAbort? || s.SendReturn?
    ensures var e' := Apply(cfg, e, OnTx(s));
            && e'.tx.log.accepted == e.tx.log.accepted && e'.closed == e.closed
            && (s.WaitToken? ==> e'.tx.sender == SWait(e.tx.sender.left - 1) && e'.tx.log.aborted == e.tx.log.aborted
                                 && Tokens(e'.tx) == Tokens(e.tx) - 1)
            && (s.SendAbort? ==> e'.tx.sender.SIdle? && e.closed && e'.tx.log.aborted)
            && (s.SendReturn? ==> e'.tx.sender.SIdle? && e'.tx.log.aborted == e.tx.log.aborted
                                  && Tokens(e'.tx) == Tokens(e.tx)
                                  && (!e.tx.log.aborted ==> e'.tx.log.finished == |e'.tx.log.accepted|))
  {
    hide AllFrames;
  }

  /** Between calls no token is queued and no send is in flight, unless a call gave up. */
  lemma NoTokensLeft(cfg: Config, e: End)
    requires cfg.Valid() && EndInv(cfg, e) && e.tx.sender.SIdle?
    ensures !e.tx.log.aborted ==> Tokens(e.tx) == 0
  {
    hide Slots.Count, AllFrames, DataOf, RxInv, Posting, FinPosted, Partitioned, Kinds;
  }

  /**
   * `waitSends`: `n` tokens, or a closed transport; nothing to do for zero or less. On success the `n` are
   * gone, and unless an earlier call gave up none is left and none will come: every send has completed.
   */
  method WaitSends(t: Transport, n: int, plan: Plan) returns (g: Grant, rest: Plan)
    requires t.Valid() && t.sender == SWait(if n > 0 then n else 0)
    modifies t, t.sendBuf, t.recvBuf, t.credits, t.reasm
    ensures t.Valid() && old(t.past) <= t.past
    ensures t.view.tx.log.accepted == old(t.view).tx.log.accepted && (old(t.closed) ==> t.closed)
    ensures g.Granted? ==> t.sender.SIdle? && Carried(old(t.view), t.view)
    ensures g.Granted? ==> Tokens(t.view.tx) + (if n > 0 then n else 0) <= Tokens(old(t.view).tx)
    ensures g.Granted? && !t.view.tx.log.aborted ==>
              t.view.tx.log.finished == |t.view.tx.log.accepted| && Tokens(t.view.tx) == 0
    ensures g.Refused? ==> t.sender.SIdle? && t.closed && t.view.tx.log.aborted
    ensures g.Waits? ==> SenderWaits(t.view) && t.sender.SWait? && rest == [] && Carried(old(t.view), t.view)
    ensures Ran(t.Cfg(), true, old(t.view), t.view, plan, rest)
  {
    hide EndInv, IsPast, Rings.Ring, SendsPosted, SendsDone, RecvsPosted, Committed, Apply, Enabled, Ran, Tokens;
    rest := plan;
    RanNothing(t.Cfg(), true, t.view, plan);
    var left := n;
    while left > 0
      invariant t.Valid() && old(t.past) <= t.past
      invariant t.view.tx.log.accepted == old(t.view).tx.log.accepted && (old(t.closed) ==> t.closed)
      invariant Carried(old(t.view), t.view)
      invariant t.sender == SWait(if left > 0 then left else 0)
      invariant Ran(t.Cfg(), true, old(t.view), t.view, plan, rest)
      invariant (left == n <= 0 || 0 <= left <= n) && Tokens(t.view.tx) + n - left <= Tokens(old(t.view).tx)
      decreases |rest|, left
    {
      rest := Yield(t, true, old(t.view), plan, rest);
      ghost var e := t.view;
      g := t.WaitSendDone();
      if !g.Waits? {
        WaitLands(t.Cfg(), e, if g.Granted? then WaitToken else SendAbort);
        Stepping(t.Cfg(), old(t.view), e, if g.Granted? then WaitToken else SendAbort, plan, rest);
      }
      if g.Refused? || (g.Waits? && rest == []) {
        return;
      }
      if g.Granted? {
        left := left - 1;
      }
    }
    ghost var e1, rest1 := t.view, rest;
    rest := EndWait(t, rest);
    RanTrans(t.Cfg(), true, old(t.view), e1, t.view, plan, rest1, rest);
    g := Granted;
  }

  /** The end of the wait: the call returns. */
  method EndWait(t: Transport, plan: Plan) returns (rest: Plan)
    requires t.Valid() && t.sender == SWait(0)
    modifies t, t.sendBuf, t.recvBuf, t.credits, t.reasm
    ensures t.Valid() && old(t.past) <= t.past && t.sender.SIdle? && (old(t.closed) ==> t.closed)
    ensures t.view.tx.log.accepted == old(t.view).tx.log.accepted
    ensures Carried(old(t.view), t.view) && Tokens(t.view.tx) <= Tokens(old(t.view).tx)
    ensures !t.view.tx.log.aborted ==>
              t.view.tx.log.finished == |t.view.tx.log.accepted| && Tokens(t.view.tx) == 0
    ensures Ran(t.Cfg(), true, old(t.view), t.view, plan, rest)
  {
    hide EndInv, IsPast, Rings.Ring, SendsPosted, SendsDone, RecvsPosted, Committed, Apply, Enabled, Ran;
    RanNothing(t.Cfg(), true, t.view, plan);
    rest := Yield(t, true, old(t.view), plan, plan);
    ghost var e := t.view;
    t.FinishSend();
    WaitLands(t.Cfg(), e, SendReturn);
    Stepping(t.Cfg(), old(t.view), e, SendReturn, plan, rest);
    NoTokensLeft(t.Cfg(), t.view);
  }

  /** One iteration of the frame loop: fragment `f` of `p`. */
  method PostFragment(t: Transport, p: Bytes, f: nat, plan: Plan) returns (g: Grant, n: nat, rest: Plan)
    requires t.Valid() && t.sender.SDrain? && t.sender.task.todo != []
    requires f < FragmentCount(|p|, t.payload) && t.sender.task.todo[0] == Fragment(p, t.payload, f)
    modifies t, t.sendBuf, t.recvBuf, t.credits, t.reasm
    ensures t.Valid() && old(t.past) <= t.past && InCall(old(t.view), t.view)
    ensures var task := old(t.sender).task;
            && (g.Granted? ==> t.sender == AfterPost(SendTask(task.todo[1..], task.posted + 1, task.done + n)))
            && (g.Refused? ==> t.sender == SWait(Unfinished(SendTask([], task.posted, task.done + n))) && t.closed
                               && t.view.tx.log.aborted)
    ensures !g.Refused? ==> Carried(old(t.view), t.view)
    ensures g.Waits? ==> SenderWaits(t.view) && rest == []
    ensures Ran(t.Cfg(), true, old(t.view), t.view, plan, rest)
  {
    hide EndInv, IsPast, Rings.Ring, SendsPosted, SendsDone, RecvsPosted, Committed, FragmentCount, Enabled, Apply;
    hide Ran, SenderWaits;
    FragmentBounds(p, t.payload, f);
    var start := f * t.payload;
    var end := start + t.payload;
    if end > |p| { end := |p|; }
    var more := f < FragmentCount(|p|, t.payload) - 1;
    assert t.sender.task.todo[0] == Data(p[start..end], more);
    n, rest := DrainSendDone(t, plan);
    ghost var e1, rest1 := t.view, rest;
    g, rest := SendFrame(t, p[start..end], more, rest);
    RanTrans(t.Cfg(), true, old(t.view), e1, t.view, plan, rest1, rest);
  }

  /** The frame loop over one message, inside a call that still has `later` to send. */
  method PostFrames(t: Transport, p: Bytes, ghost later: seq<Frame>, posted0: nat, done0: nat, plan: Plan)
    returns (g: Grant, posted: nat, done: nat, rest: Plan)
    requires t.Valid() && t.sender == SDrain(SendTask(FramesOf(p, t.payload) + later, posted0, done0))
    modifies t, t.sendBuf, t.recvBuf, t.credits, t.reasm
    ensures t.Valid() && old(t.past) <= t.past && InCall(old(t.view), t.view)
    ensures g.Granted? ==> t.sender == AfterPost(SendTask(later, posted, done))
    ensures g.Refused? ==> t.closed && t.sender == SWait(if posted > done then posted - done else 0)
    ensures g.Refused? ==> t.view.tx.log.aborted
    ensures !g.Refused? ==> Carried(old(t.view), t.view)
    ensures g.Waits? ==> SenderWaits(t.view) && rest == []
    ensures Ran(t.Cfg(), true, old(t.view), t.view, plan, rest)
  {
    hide EndInv, IsPast, Rings.Ring, SendsPosted, SendsDone, RecvsPosted, Committed, FragmentCount, Enabled, Apply;
    hide Ran, SenderWaits;
    posted, done, rest := posted0, done0, plan;
    RanNothing(t.Cfg(), true, t.view, plan);
    var frames := FragmentCount(|p|, t.payload);
    ghost var all := FramesOf(p, t.payload);
    g := Granted;
    var f := 0;
    while f < frames
      invariant t.Valid() && old(t.past) <= t.past && InCall(old(t.view), t.view)
      invariant f <= frames == |all| && t.sender == AfterPost(SendTask(all[f..] + later, posted, done))
      invariant g.Granted? && Carried(old(t.view), t.view)
      invariant Ran(t.Cfg(), true, old(t.view), t.view, plan, rest)
      decreases frames - f
    {
      var n: nat;
      ghost var e1, rest1 := t.view, rest;
      assert (all[f..] + later)[1..] == all[f + 1..] + later;
      assert (all[f..] + later)[0] == all[f];
      g, n, rest := PostFragment(t, p, f, rest);
      RanTrans(t.Cfg(), true, old(t.view), e1, t.view, plan, rest1, rest);
      done := done + n;
      if !g.Granted? {
        return;
      }
      posted := posted + 1;
      f := f + 1;
    }
    assert all[f..] + later == later;
  }

  /**
   * A call for `msgs` has posted exactly their frames on top of `e`. Unless a call before it had given up,
   * each has completed and none has left a token behind, and on an open transport every slot is free again.
   */
  ghost predicate CallDone(cfg: Config, e: End, e': End, msgs: seq<Bytes>)
    requires cfg.chunk > 0
  {
    && e'.tx.log.accepted == e.tx.log.accepted + msgs
    && DataOf(e'.tx.log.stream) == DataOf(e.tx.log.stream) + AllFrames(msgs, cfg.chunk)
    && (!e.tx.log.aborted ==>
          && !e'.tx.log.aborted && e'.tx.log.finished == |e'.tx.log.accepted|
          && InFlight(e'.tx) == 0 && e'.tx.tokens == 0 && !e'.tx.pushing && (!e'.closed ==> |e'.tx.free| == cfg.depth))
  }

  /** A call for `msgs` that has not given up is at a wait it cannot end itself, and has lost none of their frames. */
  ghost predicate CallBlocked(cfg: Config, e: End, e': End, msgs: seq<Bytes>)
    requires cfg.chunk > 0
  {
    && SenderWaits(e') && e'.tx.log.aborted == e.tx.log.aborted && e'.tx.log.accepted == e.tx.log.accepted + msgs
    && Committed(e'.tx) == Committed(e.tx) + AllFrames(msgs, cfg.chunk)
  }

  /** When a call ends and has not given up, the wire has carried exactly its frames. */
  lemma CallPosted(cfg: Config, e: End, e': End, msgs: seq<Bytes>)
    requires cfg.Valid() && EndInv(cfg, e') && e.tx.sender.SIdle? && e'.tx.sender.SIdle?
    requires e'.tx.log.aborted == e.tx.log.aborted && e'.tx.log.accepted == e.tx.log.accepted + msgs
    requires Committed(e'.tx) == Committed(e.tx) + AllFrames(msgs, cfg.chunk)
    requires !e.tx.log.aborted ==> e'.tx.log.finished == |e'.tx.log.accepted|
    ensures CallDone(cfg, e, e', msgs)
  {
    hide Slots.Count, DataOf, AllFrames, RxInv, Subsequence, InSequence;
    assert DataOf(e.tx.log.stream) + [] == DataOf(e.tx.log.stream);
    assert DataOf(e'.tx.log.stream) + [] == DataOf(e'.tx.log.stream);
  }

  /** `sendMsg`: refuses an oversized message; otherwise fragments, posts and waits. */
  method SendMsg(t: Transport, p: Bytes, plan: Plan) returns (r: Result, rest: Plan)
    requires t.Valid() && t.sender.SIdle?
    modifies t, t.sendBuf, t.recvBuf, t.credits, t.reasm
    ensures t.Valid() && old(t.past) <= t.past
    ensures r.MessageTooLarge? <==> |p| > 64 * 1024 * 1024
    ensures r.MessageTooLarge? ==> t.view == old(t.view)
    ensures r.Sent? ==> t.sender.SIdle? && CallDone(t.Cfg(), old(t.view), t.view, [p])
    ensures r.ErrClosed? ==> t.sender.SIdle? && t.closed && t.view.tx.log.aborted
    ensures r.Stuck? ==> rest == [] && CallBlocked(t.Cfg(), old(t.view), t.view, [p])
    ensures Ran(t.Cfg(), true, old(t.view), t.view, plan, rest)
  {
    hide EndInv, IsPast, Rings.Ring, SendsPosted, SendsDone, RecvsPosted, Committed, CallDone, CallBlocked, Ran;
    if |p| > MAX_MESSAGE {
      RanNothing(t.Cfg(), true, t.view, plan);
      return MessageTooLarge, plan;
    }
    r, rest := SendAll(t, [p], plan);
  }

  /** `sendBatch`: nothing at all is posted if any message is oversized. */
  method SendBatch(t: Transport, msgs: seq<Bytes>, plan: Plan) returns (r: Result, rest: Plan)
    requires t.Valid() && t.sender.SIdle?
    modifies t, t.sendBuf, t.recvBuf, t.credits, t.reasm
    ensures t.Valid() && old(t.past) <= t.past
    ensures r.MessageTooLarge? <==> exists m :: m in msgs && |m| > 64 * 1024 * 1024
    ensures r.MessageTooLarge? || msgs == [] ==> t.view == old(t.view)
    ensures r.Sent? && msgs != [] ==> t.sender.SIdle? && CallDone(t.Cfg(), old(t.view), t.view, msgs)
    ensures r.ErrClosed? ==> t.sender.SIdle? && t.closed && t.view.tx.log.aborted
    ensures r.Stuck? ==> rest == [] && CallBlocked(t.Cfg(), old(t.view), t.view, msgs)
    ensures Ran(t.Cfg(), true, old(t.view), t.view, plan, rest)
    ensures msgs == [] ==> r.Sent?
  {
    hide EndInv, IsPast, Rings.Ring, SendsPosted, SendsDone, RecvsPosted, Committed, CallDone, CallBlocked, Ran;
    RanNothing(t.Cfg(), true, t.view, plan);
    var oversized := AnyOversized(msgs);
    if oversized {
      return MessageTooLarge, plan;
    }
    if msgs == [] {
      return Sent, plan;
    }
    r, rest := SendAll(t, msgs, plan);
  }

  method AnyOversized(msgs: seq<Bytes>) returns (b: bool)
    ensures b <==> exists m :: m in msgs && |m| > MAX_MESSAGE
  {
    for i := 0 to |msgs|
      invariant forall j :: 0 <= j < i ==> |msgs[j]| <= MAX_MESSAGE
    {
      if |msgs[i]| > MAX_MESSAGE {
        return true;
      }
    }
    b := false;
  }

  /** The common body, under `sendMu`: every frame of every message, then the wait. */
  method SendAll(t: Transport, msgs: seq<Bytes>, plan: Plan) returns (r: Result, rest: Plan)
    requires t.Valid() && CanSendCall(t.view.tx, msgs)
    modifies t, t.sendBuf, t.recvBuf, t.credits, t.reasm
    ensures t.Valid() && old(t.past) <= t.past && !r.MessageTooLarge?
    ensures r.Sent? ==> t.sender.SIdle? && CallDone(t.Cfg(), old(t.view), t.view, msgs)
    ensures r.ErrClosed? ==> t.sender.SIdle? && t.closed && t.view.tx.log.aborted
    ensures r.Stuck? ==> rest == [] && CallBlocked(t.Cfg(), old(t.view), t.view, msgs)
    ensures Ran(t.Cfg(), true, old(t.view), t.view, plan, rest)
  {
    hide EndInv, IsPast, Rings.Ring, SendsPosted, SendsDone, RecvsPosted, AllFrames, DataOf, Ran, SenderWaits;
    ghost var e := t.view;
    var g;
    g, rest := PostAll(t, msgs, plan);
    if g.Granted? {
      CallPosted(t.Cfg(), e, t.view, msgs);
    }
    r := match g case Granted => Sent case Refused => ErrClosed case Waits => Stuck;
  }

  lemma CallCommits(cfg: Config, e: End, msgs: seq<Bytes>)
    requires cfg.Valid() && CanSendCall(e.tx, msgs)
    ensures Committed(DoSendCall(cfg, e.tx, msgs)) == Committed(e.tx) + AllFrames(msgs, cfg.chunk)
    ensures DoSendCall(cfg, e.tx, msgs).log.aborted == e.tx.log.aborted
  {
    hide AllFrames, DataOf;
    assert DataOf(e.tx.log.stream) + [] == DataOf(e.tx.log.stream);
  }

  method PostAll(t: Transport, msgs: seq<Bytes>, plan: Plan) returns (g: Grant, rest: Plan)
    requires t.Valid() && CanSendCall(t.view.tx, msgs)
    modifies t, t.sendBuf, t.recvBuf, t.credits, t.reasm
    ensures t.Valid() && old(t.past) <= t.past
    ensures t.view.tx.log.accepted == old(t.view).tx.log.accepted + msgs
    ensures !g.Refused? ==> t.view.tx.log.aborted == old(t.view).tx.log.aborted
                            && Committed(t.view.tx) == Committed(old(t.view).tx) + AllFrames(msgs, t.payload)
    ensures g.Granted? ==> t.sender.SIdle?
    ensures g.Granted? && !t.view.tx.log.aborted ==> t.view.tx.log.finished == |t.view.tx.log.accepted|
    ensures g.Refused? ==> t.sender.SIdle? && t.closed && t.view.tx.log.aborted
    ensures g.Waits? ==> SenderWaits(t.view) && rest == []
    ensures Ran(t.Cfg(), true, old(t.view), t.view, plan, rest)
  {
    hide EndInv, IsPast, Rings.Ring, SendsPosted, SendsDone, RecvsPosted, Committed, AllFrames, Ran;
    StartCall(t, msgs, plan);
    ghost var e1 := t.view;
    var left: int;
    g, left, rest := PostMessages(t, msgs, plan);
    RanTrans(t.Cfg(), true, old(t.view), e1, t.view, plan, plan, rest);
    if g.Waits? {
      return;
    }
    var failed := g.Refused?;
    ghost var e2, rest2 := t.view, rest;
    g, rest := WaitSends(t, left, rest);
    RanTrans(t.Cfg(), true, old(t.view), e2, t.view, plan, rest2, rest);
    if failed && g.Granted? {
      g := Refused;
    }
  }

  method StartCall(t: Transport, msgs: seq<Bytes>, ghost plan: Plan)
    requires t.Valid() && CanSendCall(t.view.tx, msgs)
    modifies t
    ensures t.Valid() && old(t.past) <= t.past && t.sender == SDrain(SendTask(AllFrames(msgs, t.payload), 0, 0))
    ensures t.view.tx.log.accepted == old(t.view).tx.log.accepted + msgs
    ensures t.view.tx.log.aborted == old(t.view).tx.log.aborted
    ensures Committed(t.view.tx) == Committed(old(t.view).tx) + AllFrames(msgs, t.payload)
    ensures Ran(t.Cfg(), true, old(t.view), t.view, plan, plan)
  {
    hide EndInv, IsPast, Rings.Ring, SendsPosted, SendsDone, RecvsPosted, Committed, AllFrames, RxApply, RxEnabled, Ran;
    t.BeginSend(msgs);
    CallCommits(t.Cfg(), old(t.view), msgs);
    AllFramesHead(msgs, t.payload);
    RanNothing(t.Cfg(), true, old(t.view), plan);
    RanStep(t.Cfg(), true, old(t.view), old(t.view), OnTx(SendCall(msgs)), plan, plan);
  }

  /** The message loop; `left` is how many of its frames have not completed. */
  method PostMessages(t: Transport, msgs: seq<Bytes>, plan: Plan) returns (g: Grant, left: int, rest: Plan)
    requires t.Valid() && msgs != [] && t.sender == SDrain(SendTask(AllFrames(msgs, t.payload), 0, 0))
    modifies t, t.sendBuf, t.recvBuf, t.credits, t.reasm
    ensures t.Valid() && old(t.past) <= t.past && InCall(old(t.view), t.view)
    ensures !g.Refused? ==> Carried(old(t.view), t.view)
    ensures g.Refused? ==> t.closed && t.view.tx.log.aborted
    ensures g.Waits? ==> SenderWaits(t.view) && rest == []
    ensures !g.Waits? ==> t.sender == SWait(if left > 0 then left else 0)
    ensures Ran(t.Cfg(), true, old(t.view), t.view, plan, rest)
  {
    hide EndInv, IsPast, Rings.Ring, SendsPosted, SendsDone, RecvsPosted, Committed, AllFrames, Ran, SenderWaits;
    rest := plan;
    RanNothing(t.Cfg(), true, t.view, plan);
    var posted, done := 0, 0;
    var i := 0;
    assert msgs[0..] == msgs;
    AllFramesHead(msgs, t.payload);
    g := Granted;
    while i < |msgs|
      invariant t.Valid() && old(t.past) <= t.past && InCall(old(t.view), t.view) && i <= |msgs| && g.Granted?
      invariant t.sender == AfterPost(SendTask(AllFrames(msgs[i..], t.payload), posted, done))
      invariant Carried(old(t.view), t.view) && Ran(t.Cfg(), true, old(t.view), t.view, plan, rest)
      decreases |msgs| - i
    {
      ghost var e1, rest1 := t.view, rest;
      AllFramesHead(msgs[i..], t.payload);
      assert msgs[i..][1..] == msgs[i + 1..];
      g, posted, done, rest := PostFrames(t, msgs[i], AllFrames(msgs[i + 1..], t.payload), posted, done, rest);
      RanTrans(t.Cfg(), true, old(t.view), e1, t.view, plan, rest1, rest);
      if !g.Granted? {
        break;
      }
      i := i + 1;
    }
    left := posted;
    left := left - done;
    AllFramesNone(t.payload);
    assert i == |msgs| ==> msgs[i..] == [];
  }

  lemma AllFramesNone(chunk: nat)
    requires chunk > 0
    ensures AllFrames([], chunk) == []
  {}

  lemma AllFramesHead(msgs: seq<Bytes>, chunk: nat)
    requires chunk > 0 && msgs != []
    ensures AllFrames(msgs, chunk) == FramesOf(msgs[0], chunk) + AllFrames(msgs[1..], chunk)
    ensures AllFrames(msgs, chunk) != []
  {
    assert msgs == [msgs[0]] + msgs[1..];
    AllFramesConcat([msgs[0]], msgs[1..], chunk);
    AllFramesSnoc([], msgs[0], chunk);
    assert [] + [msgs[0]] == [msgs[0]];
  }
}
