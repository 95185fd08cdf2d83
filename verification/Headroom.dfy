/**
 * Control frames against the receive ring. They take receives that no credit accounts for, so posted
 * receives can fall short of the data frames on the wire by as many as the depth, and of the whole wire
 * by one more: by more than the four credit slots exactly from depth four on.
 */
module Headroom {
  import opened Words

  import opened Framing
  import opened Endpoint
  import opened Slots
  import opened TxInvariant
  import opened RxInvariant
  import opened Protocol
  import opened Guarantees
  import opened Progress
  import opened Runs
  import opened Calm
  import opened Wedge

  // ---------------------------------------------------- the bound from above

  function FinsIn(fs: seq<Frame>): nat {
    if fs == [] then 0 else FinsIn(fs[..|fs| - 1]) + if fs[|fs| - 1].Fin? then 1 else 0
  }

  lemma {:induction false} FinsConcat(a: seq<Frame>, b: seq<Frame>)
    ensures FinsIn(a + b) == FinsIn(a) + FinsIn(b)
  {
    if b == [] {
      assert a + b == a;
    } else {
      var k := |b| - 1;
      assert (a + b)[..|a + b| - 1] == a + b[..k];
      FinsConcat(a, b[..k]);
    }
  }

  ghost predicate OneFin(t: Tx) { FinsIn(t.log.stream) <= if t.log.finAt >= 0 then 1 else 0 }

  lemma FinsSnoc(a: seq<Frame>, f: Frame)
    ensures FinsIn(a + [f]) == FinsIn(a) + if f.Fin? then 1 else 0
  {
    assert (a + [f])[..|a|] == a;
  }

  lemma StepOneFin(cfg: Config, e: End, s: Step)
    requires cfg.Valid() && Enabled(cfg, e, s) && OneFin(e.tx) && Kinds(cfg, e.tx)
    ensures OneFin(Apply(cfg, e, s).tx)
  {
    hide FinsIn, TxApply, RxApply, RxEnabled;
    match s {
      case OnTx(x) => TxOneFin(cfg, e.tx, e.closed, x);
      case PostCredit => FinsSnoc(e.tx.log.stream, Credit(e.rx.receiver.n));
      case _ =>
    }
  }

  lemma TxOneFin(cfg: Config, t: Tx, closed: bool, x: TxStep)
    requires cfg.Valid() && TxEnabled(cfg, t, closed, x) && OneFin(t) && Kinds(cfg, t)
    ensures OneFin(TxApply(cfg, t, closed, x))
  {
    hide FinsIn, TxApply;
    StreamGrows(cfg, t, closed, x);
    LogGrows(cfg, t, closed, x);
    match x {
      case PostData =>
        assert t.sender.task.todo[0] in Todo(t.sender);
        FinsSnoc(t.log.stream, t.sender.task.todo[0]);
      case PostFin =>
        FinsSnoc(t.log.stream, Fin);
        FinMarked(cfg, t, closed);
      case _ => assert t.log.stream + [] == t.log.stream;
    }
  }

  lemma FinMarked(cfg: Config, t: Tx, closed: bool)
    requires cfg.Valid() && TxEnabled(cfg, t, closed, PostFin) && t.log.finAt < 0
    ensures TxApply(cfg, t, closed, PostFin).log.finAt == t.log.finished
  {}

  /** At most one FIN is ever posted. */
  lemma {:induction false} RunOneFin(cfg: Config, s: System, n: nat)
    requires cfg.Valid() && ReachedIn(cfg, s, n)
    ensures OneFin(s.a.tx) && OneFin(s.b.tx)
    decreases n
  {
    hide Inv, IsInit, OneFin, Kinds, CanAct, Act;
    if n == 0 {
      InitOneFin(cfg, s);
    } else {
      var before, act :| ReachedIn(cfg, before, n - 1) && Leads(cfg, before, act, s);
      RunOneFin(cfg, before, n - 1);
      RunInv(cfg, before, n - 1);
      ActOneFin(cfg, before, act);
    }
  }

  lemma InitOneFin(cfg: Config, s: System)
    requires cfg.Valid() && IsInit(cfg, s)
    ensures OneFin(s.a.tx) && OneFin(s.b.tx)
  {}

  lemma ActOneFin(cfg: Config, s: System, act: Action)
    requires cfg.Valid() && CanAct(cfg, s, act) && Inv(cfg, s) && OneFin(s.a.tx) && OneFin(s.b.tx)
    ensures OneFin(Act(cfg, s, act).a.tx) && OneFin(Act(cfg, s, act).b.tx)
  {
    assert Kinds(cfg, s.a.tx) && Kinds(cfg, s.b.tx);
    hide Inv, Kinds, FinsIn, Apply, Enabled;
    match act {
      case At(true, step) => StepOneFin(cfg, s.a, step);
      case At(false, step) => StepOneFin(cfg, s.b, step);
      case Deliver(_) =>
    }
  }

  /** Control frames are credit frames, each carrying a credit, and FINs. */
  lemma {:induction false} ControlSplits(fs: seq<Frame>)
    requires forall f :: f in fs && f.Credit? ==> f.n >= 1
    ensures ControlOf(fs) <= CreditSum(fs) + FinsIn(fs)
  {
    if fs != [] {
      var init := fs[..|fs| - 1];
      assert fs == init + [fs[|fs| - 1]];
      assert fs[|fs| - 1] in fs;
      ControlSplits(init);
    }
  }

  /** So the control frames of one direction that have been posted and not yet handled are at most `depth + 1`. */
  lemma ControlBound(cfg: Config, s: System, fromA: bool)
    requires cfg.Valid() && Reachable(cfg, s)
    ensures ControlOf(Arrived(To(s, fromA).rx)) + ControlOf(Wire(From(s, fromA).tx)) <= cfg.depth + 1
  {
    hide DataOf, CreditSum, FinsIn, Reachable, Wire, Arrived;
    var x, y := From(s, fromA), To(s, fromA);
    var arrived, wire := Arrived(y.rx), Wire(x.tx);
    FinsOnWire(cfg, s, fromA);
    forall f: Frame | f in wire + arrived && f.Credit? ensures f.n >= 1 { CreditFrameSize(cfg, s, fromA, f); }
    forall f: Frame | f in wire && f.Credit? ensures f.n >= 1 { assert f in wire + arrived; }
    forall f: Frame | f in arrived && f.Credit? ensures f.n >= 1 { assert f in wire + arrived; }
    ControlSplits(arrived);
    ControlSplits(wire);
    CreditsNeverExceedDepth(cfg, s, !fromA);
  }

  lemma FinsOnWire(cfg: Config, s: System, fromA: bool)
    requires cfg.Valid() && Reachable(cfg, s)
    ensures FinsIn(Arrived(To(s, fromA).rx)) + FinsIn(Wire(From(s, fromA).tx)) <= 1
  {
    hide EndInv, Linked, FinsIn, Wire, Arrived, Reachable, OneFin;
    var x, y := From(s, fromA), To(s, fromA);
    LinkOf(cfg, s, fromA);
    OneFinReached(cfg, s);
    FinsConcat(y.rx.log.dispatched + Arrived(y.rx), Wire(x.tx));
    FinsConcat(y.rx.log.dispatched, Arrived(y.rx));
    OneFinLimit(x.tx);
  }

  lemma OneFinLimit(t: Tx)
    requires OneFin(t)
    ensures FinsIn(t.log.stream) <= 1
  {}

  lemma LinkOf(cfg: Config, s: System, fromA: bool)
    requires cfg.Valid() && Reachable(cfg, s)
    ensures StreamLink(From(s, fromA).tx, To(s, fromA).rx)
  {
    hide EndInv, StreamLink, Reachable;
    DirectionInv(cfg, s, fromA);
  }

  lemma OneFinReached(cfg: Config, s: System)
    requires cfg.Valid() && Reachable(cfg, s)
    ensures OneFin(s.a.tx) && OneFin(s.b.tx)
  {
    hide OneFin, ReachedIn;
    var n: nat :| ReachedIn(cfg, s, n);
    RunOneFin(cfg, s, n);
  }

  /** How far the frames on the wire exceed the posted receives. */
  function Excess(s: System, fromA: bool): int { |Wire(From(s, fromA).tx)| - |To(s, fromA).rx.rq| }

  lemma ExcessBound(cfg: Config, s: System, fromA: bool)
    requires cfg.Valid() && Reachable(cfg, s)
    ensures Excess(s, fromA) <= cfg.depth + 1
  {
    hide DataOf, CreditSum, Reachable, Wire, Arrived;
    ControlBound(cfg, s, fromA);
    RingNotOverrun(cfg, s, fromA);
  }

  // --------------------------------------------------- runs that reach it

  /** The calls of the runs below: `k` empty messages, each a frame of its own. */
  function Empties(k: nat): seq<Bytes> { seq(k, _ => []) }

  lemma {:induction false} EmptyFrames(k: nat, chunk: nat)
    requires chunk > 0
    ensures AllFrames(Empties(k), chunk) == seq(k, _ => Data([], false))
  {
    if k > 0 {
      EmptyFrames(k - 1, chunk);
      assert Empties(k) == Empties(k - 1) + [[]];
      AllFramesSnoc(Empties(k - 1), [], chunk);
      assert FramesOf([], chunk) == [Fragment([], chunk, 0)];
    }
  }

  /** A sending half between calls with all data slots and credits, and no FIN posted. */
  ghost predicate Untouched(cfg: Config, t: Tx) {
    t.sender.SIdle? && t.tokens == 0 && |t.free| == cfg.depth && t.credits == cfg.depth && t.cq == [] && t.log.finAt < 0
  }

  /**
   * `a` still has `left` frames on the wire, `k` credit frames for others have arrived and wait for its poller,
   * and `b` blocks for more.
   */
  ghost predicate Credited(cfg: Config, s: System, left: nat, k: nat) {
    && !s.a.closed && !s.b.closed && s.a.tx.log.accepted == Empties(cfg.depth + 1)
    && |s.a.tx.sq| == left && (forall x :: x in s.a.tx.sq ==> x < cfg.depth)
    && |s.a.rx.cq| == k && |s.a.rx.rq| + k == cfg.depth
    && s.b.tx.sq == [] && |s.b.tx.ctrlFree| == CREDIT_SLOTS
    && Untouched(cfg, s.b.tx) && !s.b.tx.pushing
    && s.b.rx.receiver == RBlock(RecvCall(false, 1, 0)) && s.b.rx.queue == [] && s.b.rx.cq == []
    && s.b.rx.pending == 0 && s.b.rx.rq != [] && s.b.rx.reasm == Reasm([], false)
  }

  /** `a` posts `n` of its frames; `b` starts to receive. */
  lemma StartCredits(cfg: Config, n: nat) returns (s: System)
    requires cfg.Valid() && n <= cfg.depth
    ensures Reachable(cfg, s) && Credited(cfg, s, n, 0)
  {
    EmptyFrames(cfg.depth + 1, cfg.chunk);
    hide Reachable, After, AllFrames, IsInit;
    var o := Begin(cfg);
    InitIsCalm(cfg, o);
    assert o.b.rx.receiver.RIdle? by { BeginsIdle(cfg, o); }
    CalmReceiver(cfg, o, false);
    s := PostMany(cfg, o, Empties(cfg.depth + 1), n);
    s := BeginBlocking(cfg, o, s, n);
  }

  lemma BeginsIdle(cfg: Config, o: System)
    requires cfg.Valid() && IsInit(cfg, o)
    ensures o.a.rx.receiver.RIdle? && o.b.rx.receiver.RIdle? && o.a.rx.log.consumed == []
  {}

  lemma BeginBlocking(cfg: Config, o: System, s: System, n: nat) returns (s': System)
    requires cfg.Valid() && Reachable(cfg, s) && Underway(cfg, o, s, Empties(cfg.depth + 1), n)
    requires o.a.tx.log.accepted == [] && IsCalm(cfg, o) && Untouched(cfg, o.b.tx) && o.b.rx.receiver.RIdle?
    requires o.b.rx.queue == [] && o.b.rx.pending == 0 && o.b.rx.reasm == Reasm([], false)
    ensures Reachable(cfg, s') && Credited(cfg, s', n, 0)
  {
    hide Reachable, AllFrames;
    assert [] + Empties(cfg.depth + 1) == Empties(cfg.depth + 1);
    s' := Next(cfg, s, At(false, OnRx(RecvStart(false, 1))));
    s' := Next(cfg, s', At(false, OnRx(FindEmpty)));
  }

  lemma {:induction false} DataKept(fs: seq<Frame>, f: Frame)
    requires f in fs && f.Data?
    ensures f in DataOf(fs)
  {
    var k := |fs| - 1;
    assert fs == fs[..k] + [fs[k]];
    if f in fs[..k] {
      DataKept(fs[..k], f);
    }
  }

  /** Every data frame of these calls is empty and complete. */
  lemma HeadEmpty(cfg: Config, s: System)
    requires cfg.Valid() && Reachable(cfg, s) && s.a.tx.log.accepted == Empties(cfg.depth + 1) && !s.a.closed
    requires s.a.tx.sq != [] && s.a.tx.sq[0] < cfg.depth
    ensures s.a.tx.sq[0] < |s.a.tx.mem| && s.a.tx.mem[s.a.tx.sq[0]] == Data([], false)
  {
    hide AllFrames, DataOf, Reachable, EndInv, Wire, Arrived;
    Heads(cfg, s, true);
    LinkOf(cfg, s, true);
    DirectionInv(cfg, s, true);
    PostedOf(cfg, s.a);
    var t := s.a.tx;
    var f := t.mem[t.sq[0]];
    FramesAtHead(t.sq, t.mem);
    WireHead(t);
    assert f in Wire(t);
    assert f in t.log.stream;
    DataKept(t.log.stream, f);
    EmptyFrames(cfg.depth + 1, cfg.chunk);
    assert f in AllFrames(Empties(cfg.depth + 1), cfg.chunk);
  }

  lemma WireHead(t: Tx)
    requires t.sq != [] && t.sq[0] < |t.mem|
    ensures t.mem[t.sq[0]] in Wire(t)
  {
    assert Wire(t)[0] == t.mem[t.sq[0]];
  }

  lemma PostedOf(cfg: Config, e: End)
    requires cfg.Valid() && EndInv(cfg, e) && !e.closed
    ensures DataOf(e.tx.log.stream) <= AllFrames(e.tx.log.accepted, cfg.chunk)
  {
    hide AllFrames, DataOf, RxInv, Partitioned, Kinds, Counted, TokensMatch, FinPosted, Subsequence;
    OpenIsSound(cfg, e);
    SoundIsPrefix(cfg, e.tx, e.closed);
  }

  /** The frame is in `b`'s hand; nothing else has changed. */
  ghost predicate InHand(cfg: Config, s: System, left: nat, k: nat) {
    && !s.a.closed && !s.b.closed && s.a.tx.log.accepted == Empties(cfg.depth + 1)
    && |s.a.tx.sq| == left && (forall x :: x in s.a.tx.sq ==> x < cfg.depth)
    && |s.a.rx.cq| == k && |s.a.rx.rq| + k == cfg.depth
    && s.b.tx.sq == [] && |s.b.tx.ctrlFree| == CREDIT_SLOTS
    && Untouched(cfg, s.b.tx) && !s.b.tx.pushing
    && s.b.rx.receiver.RTake? && s.b.rx.receiver.call == RecvCall(false, 1, 0)
    && s.b.rx.receiver.frame.slot < |s.b.rx.mem| && s.b.rx.mem[s.b.rx.receiver.frame.slot] == Data([], false)
    && !s.b.rx.receiver.frame.more && s.b.rx.receiver.frame.n == 0
    && s.b.rx.queue == [] && s.b.rx.cq == [] && s.b.rx.pending == 0 && s.b.rx.reasm == Reasm([], false)
  }

  lemma TakeOver(cfg: Config, s: System, left: nat, k: nat) returns (s': System)
    requires cfg.Valid() && Reachable(cfg, s) && Credited(cfg, s, left, k) && 0 < left
    ensures Reachable(cfg, s') && InHand(cfg, s', left - 1, k)
  {
    hide Reachable, AllFrames;
    assert s.a.tx.sq[0] in s.a.tx.sq;
    HeadEmpty(cfg, s);
    Heads(cfg, s, true);
    Heads(cfg, s, false);
    s' := Next(cfg, s, Deliver(true));
    assert forall x :: x in s'.a.tx.sq ==> x in s.a.tx.sq;
    s' := Next(cfg, s', At(false, PollRecv));
    s' := Next(cfg, s', At(false, OnRx(TakeFrame)));
  }

  /** `b` is about to return one credit, and will block next. */
  ghost predicate Owing(cfg: Config, s: System, left: nat, k: nat) {
    && !s.a.closed && !s.b.closed && s.a.tx.log.accepted == Empties(cfg.depth + 1)
    && |s.a.tx.sq| == left && (forall x :: x in s.a.tx.sq ==> x < cfg.depth)
    && |s.a.rx.cq| == k && |s.a.rx.rq| + k == cfg.depth
    && s.b.tx.sq == [] && |s.b.tx.ctrlFree| == CREDIT_SLOTS
    && Untouched(cfg, s.b.tx) && !s.b.tx.pushing
    && s.b.rx.receiver.RReturn? && !s.b.rx.receiver.call.batch
    && (s.b.rx.receiver == RReturn(1, ThenBlock, RecvCall(false, 1, 0)) || s.b.rx.receiver.after == ThenResume(true))
    && s.b.rx.queue == [] && s.b.rx.cq == [] && s.b.rx.pending == 0 && s.b.rx.rq != []
    && s.b.rx.reasm == Reasm([], false)
  }

  lemma ConsumeOne(cfg: Config, s: System, left: nat, k: nat) returns (s': System)
    requires cfg.Valid() && Reachable(cfg, s) && InHand(cfg, s, left, k)
    ensures Reachable(cfg, s') && Owing(cfg, s', left, k)
  {
    hide Reachable, AllFrames;
    s' := Next(cfg, s, At(false, OnRx(Consume)));
    if s'.b.rx.receiver.RIdle? {
      s' := Next(cfg, s', At(false, OnRx(RecvStart(false, 1))));
      s' := Next(cfg, s', At(false, OnRx(FindEmpty)));
    }
  }

  lemma CreditOne(cfg: Config, s: System, left: nat, k: nat) returns (s': System)
    requires cfg.Valid() && Reachable(cfg, s) && Owing(cfg, s, left, k) && k < cfg.depth
    ensures Reachable(cfg, s') && Credited(cfg, s', left, k + 1)
  {
    hide Reachable, AllFrames;
    Heads(cfg, s, false);
    s' := Next(cfg, s, At(false, PostCredit));
    Heads(cfg, s', true);
    s' := Next(cfg, s', Deliver(false));
    s' := Next(cfg, s', At(false, OnTx(PollSend)));
    if s'.b.rx.receiver.RIdle? {
      s' := Next(cfg, s', At(false, OnRx(RecvStart(false, 1))));
      s' := Next(cfg, s', At(false, OnRx(FindEmpty)));
    }
  }

  /** `k` credit frames arrived, each with one credit, and none of them handled. */
  lemma {:induction false} CreditMany(cfg: Config, n: nat, k: nat) returns (s: System)
    requires cfg.Valid() && k <= n <= cfg.depth
    ensures Reachable(cfg, s) && Credited(cfg, s, n - k, k)
    decreases k
  {
    hide Reachable, Credited;
    if k == 0 {
      s := StartCredits(cfg, n);
    } else {
      s := CreditMany(cfg, n, k - 1);
      s := TakeOver(cfg, s, n - k + 1, k - 1);
      s := ConsumeOne(cfg, s, n - k, k - 1);
      s := CreditOne(cfg, s, n - k, k - 1);
    }
  }

  /** `n` credit frames have taken receives of `a`; of its own call, `b` has posted `i` data frames behind them. */
  ghost predicate Filling(cfg: Config, s: System, n: nat, i: nat) {
    && !s.a.closed && !s.b.closed && i <= cfg.depth && |s.a.rx.rq| + n == cfg.depth
    && |s.b.tx.sq| == i && s.b.tx.cq == [] && |s.b.tx.ctrlFree| == CREDIT_SLOTS && s.b.tx.log.finAt < 0
    && |s.b.tx.free| == cfg.depth - i && s.b.tx.credits == cfg.depth - i && s.b.tx.tokens == 0 && !s.b.tx.pushing
    && (if i < cfg.depth then s.b.tx.sender.SDrain? && |s.b.tx.sender.task.todo| == cfg.depth - i
        else s.b.tx.sender.SWait?)
  }

  lemma StartFilling(cfg: Config, s: System, n: nat) returns (s': System)
    requires cfg.Valid() && Reachable(cfg, s) && Credited(cfg, s, 0, n)
    ensures Reachable(cfg, s') && Filling(cfg, s', n, 0)
  {
    hide Reachable, AllFrames;
    EmptyFrames(cfg.depth, cfg.chunk);
    s' := Next(cfg, s, At(false, OnTx(SendCall(Empties(cfg.depth)))));
  }

  lemma FillOne(cfg: Config, s: System, n: nat, i: nat) returns (s': System)
    requires cfg.Valid() && Reachable(cfg, s) && Filling(cfg, s, n, i) && i < cfg.depth
    ensures Reachable(cfg, s') && Filling(cfg, s', n, i + 1)
  {
    hide Reachable, AllFrames;
    s' := Next(cfg, s, At(false, OnTx(DrainEnd)));
    s' := Next(cfg, s', At(false, OnTx(TxStep.Acquire)));
    s' := Next(cfg, s', At(false, OnTx(TakeSlot)));
    Heads(cfg, s', false);
    s' := Next(cfg, s', At(false, OnTx(PostData)));
  }

  lemma {:induction false} FillMany(cfg: Config, n: nat, i: nat) returns (s: System)
    requires cfg.Valid() && n <= cfg.depth && i <= cfg.depth
    ensures Reachable(cfg, s) && Filling(cfg, s, n, i)
  {
    hide Reachable, Credited, Filling;
    if i == 0 {
      s := CreditMany(cfg, n, n);
      s := StartFilling(cfg, s, n);
    } else {
      s := FillMany(cfg, n, i - 1);
      s := FillOne(cfg, s, n, i - 1);
    }
  }

  /** At any depth data frames on the wire can outnumber the posted receives, by any number up to the depth. */
  lemma DataOutnumbersReceives(cfg: Config, n: nat) returns (s: System)
    requires cfg.Valid() && n <= cfg.depth
    ensures Reachable(cfg, s) && !s.a.closed && !s.b.closed
    ensures |DataOf(Wire(s.b.tx))| == cfg.depth == |s.a.rx.rq| + n
    ensures s.b.tx.ctrlFree != [] && s.b.tx.log.finAt < 0
  {
    hide Reachable, DataOf;
    s := FillMany(cfg, n, cfg.depth);
    FullWire(cfg, s, false);
  }

  /** What decides it in a given state: control frames waiting for dispatch against credits that are not on the wire. */
  lemma DataFitsExactly(cfg: Config, s: System, fromA: bool)
    requires cfg.Valid() && Reachable(cfg, s) && !s.a.closed && !s.b.closed
    ensures var x, y := From(s, fromA), To(s, fromA);
            |DataOf(Wire(x.tx))| <= |y.rx.rq| <==>
            ControlOf(Arrived(y.rx)) <= x.tx.credits + (if x.tx.sender.SSlot? || x.tx.sender.SPost? then 1 else 0)
                                        + y.rx.pending + (if y.rx.receiver.RReturn? then y.rx.receiver.n else 0)
                                        + CreditSum(Wire(y.tx)) + CreditSum(Arrived(x.rx))
  {
    hide Reachable, DataOf, CreditSum, Wire, Arrived;
    ReceivesCoverData(cfg, s, fromA);
  }

  // -------------------------------------- what a side can tell from its calls

  /** Until a receive has taken a frame no credit is owed, and no credit frame has been posted. */
  ghost predicate NoCredits(e: End) {
    e.rx.log.consumed == [] ==>
      e.rx.pending == 0 && !e.rx.receiver.RReturn? && forall f :: f in e.tx.log.stream ==> !f.Credit?
  }

  lemma StepNoCredits(cfg: Config, e: End, s: Step)
    requires cfg.Valid() && Enabled(cfg, e, s) && NoCredits(e) && Kinds(cfg, e.tx)
    ensures NoCredits(Apply(cfg, e, s))
  {
    hide AllFrames, RxApply, RxEnabled, TxApply, TxEnabled;
    if s.OnRx? { RxNoCredits(cfg, e, s.r); }
    if s.OnTx? { TxNoCredits(cfg, e, s.t); }
  }

  lemma RxNoCredits(cfg: Config, e: End, s: RxStep)
    requires RxEnabled(cfg, e.tx, e.rx, e.closed, s) && NoCredits(e)
    ensures NoCredits(e.(rx := RxApply(cfg, e.tx, e.rx, e.closed, s)))
  {
    hide DoConsume;
    if s.Consume? { ConsumeEffect(cfg, e.rx); }
  }

  lemma TxNoCredits(cfg: Config, e: End, s: TxStep)
    requires cfg.Valid() && TxEnabled(cfg, e.tx, e.closed, s) && NoCredits(e) && Kinds(cfg, e.tx)
    ensures NoCredits(e.(tx := TxApply(cfg, e.tx, e.closed, s)))
  {
    hide AllFrames;
    if s.PostData? { assert e.tx.sender.task.todo[0] in Todo(e.tx.sender); }
  }

  lemma ActNoCredits(cfg: Config, s: System, act: Action)
    requires cfg.Valid() && CanAct(cfg, s, act) && Inv(cfg, s) && NoCredits(s.a) && NoCredits(s.b)
    ensures NoCredits(Act(cfg, s, act).a) && NoCredits(Act(cfg, s, act).b)
  {
    assert Kinds(cfg, s.a.tx) && Kinds(cfg, s.b.tx);
    hide Inv, Kinds, Apply, Enabled;
    match act {
      case At(true, step) => StepNoCredits(cfg, s.a, step);
      case At(false, step) => StepNoCredits(cfg, s.b, step);
      case Deliver(_) =>
    }
  }

  lemma {:induction false} RunNoCredits(cfg: Config, s: System, n: nat)
    requires cfg.Valid() && ReachedIn(cfg, s, n)
    ensures NoCredits(s.a) && NoCredits(s.b)
    decreases n
  {
    hide Inv, NoCredits, CanAct, Act;
    if n == 0 {
      InitNoCredits(cfg, s);
    } else {
      var before, act :| ReachedIn(cfg, before, n - 1) && Leads(cfg, before, act, s);
      RunNoCredits(cfg, before, n - 1);
      RunInv(cfg, before, n - 1);
      ActNoCredits(cfg, before, act);
    }
  }

  lemma InitNoCredits(cfg: Config, s: System)
    requires cfg.Valid() && IsInit(cfg, s)
    ensures NoCredits(s.a) && NoCredits(s.b)
  {}

  /** A side that has received nothing and announced no end has no control frame under way. */
  lemma NothingUnderWay(cfg: Config, s: System, fromA: bool)
    requires cfg.Valid() && Reachable(cfg, s)
    requires From(s, fromA).rx.log.consumed == [] && From(s, fromA).tx.log.finAt < 0
    ensures ControlOf(Arrived(To(s, fromA).rx)) == 0
  {
    hide EndInv, Linked, DataOf, Wire, Arrived, ReachedIn, FinPosted, NoCredits;
    var x, y := From(s, fromA), To(s, fromA);
    var n: nat :| ReachedIn(cfg, s, n);
    RunNoCredits(cfg, s, n);
    DirectionInv(cfg, s, fromA);
    LinkOf(cfg, s, fromA);
    StreamIsData(cfg, x);
    forall f | f in Arrived(y.rx) ensures f.Data? { assert f in x.tx.log.stream; }
    AllAreData(Arrived(y.rx));
  }

  lemma StreamIsData(cfg: Config, x: End)
    requires cfg.Valid() && EndInv(cfg, x) && NoCredits(x) && x.rx.log.consumed == [] && x.tx.log.finAt < 0
    ensures forall f :: f in x.tx.log.stream ==> f.Data?
  {
    hide Count, AllFrames, DataOf, RxInv;
  }

  lemma {:induction false} AllAreData(fs: seq<Frame>)
    requires forall f :: f in fs ==> f.Data?
    ensures ControlOf(fs) == 0
  {
    if fs != [] {
      assert fs == fs[..|fs| - 1] + [fs[|fs| - 1]];
      assert fs[|fs| - 1] in fs;
      AllAreData(fs[..|fs| - 1]);
    }
  }

  /** The reachable states of two open sides by whether the sending one has received data and announced its end. */
  ghost predicate Knows(cfg: Config, s: System, fromA: bool, received: bool, announced: bool)
    requires cfg.Valid()
  {
    && Reachable(cfg, s) && !s.a.closed && !s.b.closed
    && (From(s, fromA).rx.log.consumed != [] <==> received) && (From(s, fromA).tx.log.finAt >= 0 <==> announced)
  }

  predicate DataFits(s: System, fromA: bool) { |DataOf(Wire(From(s, fromA).tx))| <= |To(s, fromA).rx.rq| }

  lemma FitsBefore(cfg: Config, s: System, fromA: bool)
    requires cfg.Valid() && Knows(cfg, s, fromA, false, false)
    ensures DataFits(s, fromA)
  {
    hide Reachable, DataOf, CreditSum, Wire, Arrived;
    NothingUnderWay(cfg, s, fromA);
    DataFitsExactly(cfg, s, fromA);
  }

  lemma ReceivedMayNotFit(cfg: Config, announced: bool) returns (s: System)
    requires cfg.Valid()
    ensures Knows(cfg, s, false, true, announced) && !DataFits(s, false)
  {
    hide Reachable, DataOf, Wire;
    s := DataOutnumbersReceives(cfg, 1);
    if s.b.rx.log.consumed == [] { FitsBefore(cfg, s, false); }
    if announced { s := AnnounceToo(cfg, s); }
  }

  lemma AnnounceToo(cfg: Config, s: System) returns (s': System)
    requires cfg.Valid() && Reachable(cfg, s) && s.b.tx.ctrlFree != [] && s.b.tx.log.finAt < 0
    requires !s.a.closed && !s.b.closed && !DataFits(s, false)
    ensures Reachable(cfg, s') && !s'.a.closed && !s'.b.closed && !DataFits(s', false)
    ensures s'.b.tx.log.finAt >= 0 && s'.b.rx.log.consumed == s.b.rx.log.consumed
  {
    hide Reachable, DataOf, Wire;
    Heads(cfg, s, false);
    FinOnWire(cfg, s);
    s' := Next(cfg, s, At(false, OnTx(PostFin)));
  }

  lemma FinOnWire(cfg: Config, s: System)
    requires cfg.Valid() && Reachable(cfg, s) && CanPostFin(s.b.tx, false)
    ensures DataOf(Wire(DoPostFin(s.b.tx))) == DataOf(Wire(s.b.tx))
  {
    hide Reachable, Count, AllFrames, DataOf;
    Rings(cfg, s, false);
    WireKept(cfg, s.b.tx, false, PostFin);
    ProjectSnoc(Wire(s.b.tx), Fin);
  }

  lemma AnnouncedMayNotFit(cfg: Config) returns (s: System)
    requires cfg.Valid()
    ensures Knows(cfg, s, true, false, true) && !DataFits(s, true)
  {
    hide Reachable, After, AllFrames, IsInit, DataOf, Wire;
    var o := Begin(cfg);
    BeginsIdle(cfg, o);
    InitIsCalm(cfg, o);
    s := EndFirst(cfg, o);
    EmptyFrames(cfg.depth + 1, cfg.chunk);
    var c := s;
    s := PostMany(cfg, c, Empties(cfg.depth + 1), cfg.depth);
    FullWire(cfg, s, true);
  }

  /** The FIN has taken a receive and is not handled. */
  lemma EndFirst(cfg: Config, o: System) returns (s: System)
    requires cfg.Valid() && Reachable(cfg, o) && IsCalm(cfg, o) && o.a.tx.log.finAt < 0 && o.a.rx.log.consumed == []
    ensures Reachable(cfg, s) && AllBack(cfg, s.a.tx) && !s.a.closed && !s.b.closed
    ensures s.a.tx.log.finAt >= 0 && s.a.rx.log.consumed == [] && |s.b.rx.rq| == cfg.depth - 1
  {
    hide Reachable, AllFrames;
    Heads(cfg, o, true);
    s := Next(cfg, o, At(true, OnTx(PostFin)));
    Heads(cfg, s, true);
    Heads(cfg, s, false);
    s := Next(cfg, s, Deliver(true));
    s := Next(cfg, s, At(true, OnTx(PollSend)));
  }

  lemma FullWire(cfg: Config, s: System, atA: bool)
    requires cfg.Valid() && Reachable(cfg, s) && !From(s, atA).closed && !From(s, atA).tx.sender.SPost?
    requires From(s, atA).tx.free == [] && From(s, atA).tx.cq == []
    ensures |DataOf(Wire(From(s, atA).tx))| == cfg.depth
  {
    hide Count, AllFrames, DataOf;
    DirectionInv(cfg, s, atA);
    assert Finishing(From(s, atA).tx) == [];
  }

  /**
   * What a side can tell from its own calls: its data always fits the posted receives exactly as long as
   * it has received no frame and announced no end.
   */
  lemma DataFitsWhile(cfg: Config, received: bool, announced: bool)
    requires cfg.Valid()
    ensures (forall s, fromA :: Knows(cfg, s, fromA, received, announced) ==> DataFits(s, fromA))
            <==> !received && !announced
  {
    hide Knows, DataFits;
    if received {
      var s := ReceivedMayNotFit(cfg, announced);
    } else if announced {
      var s := AnnouncedMayNotFit(cfg);
    } else {
      forall s, fromA | Knows(cfg, s, fromA, false, false) ensures DataFits(s, fromA) {
        FitsBefore(cfg, s, fromA);
      }
    }
  }

  // ----------------------------------------------------- the whole wire

  /** At any depth there is a run that reaches the bound: every receive is taken, data and FIN are on the wire. */
  lemma FullExcess(cfg: Config) returns (s: System)
    requires cfg.Valid()
    ensures Reachable(cfg, s) && !s.a.closed && !s.b.closed && Excess(s, false) == cfg.depth + 1
  {
    hide Reachable;
    s := FillMany(cfg, cfg.depth, cfg.depth);
    Heads(cfg, s, false);
    s := Next(cfg, s, At(false, OnTx(PostFin)));
  }

  /** The wire can exceed the posted receives by `n` frames exactly if `n` is at most `depth + 1`. */
  lemma LargestExcess(cfg: Config, n: nat)
    requires cfg.Valid()
    ensures (exists s, fromA :: Reachable(cfg, s) && Excess(s, fromA) >= n) <==> n <= cfg.depth + 1
  {
    hide Reachable, Excess;
    if n <= cfg.depth + 1 {
      var s := FullExcess(cfg);
      assert Excess(s, false) >= n;
    } else {
      forall s, fromA | Reachable(cfg, s) ensures Excess(s, fromA) < n { ExcessBound(cfg, s, fromA); }
    }
  }

  /** So it never exceeds them by more than the four credit slots exactly if the depth is at most three. */
  lemma ExcessAtMostFour(cfg: Config)
    requires cfg.Valid()
    ensures (forall s, fromA :: Reachable(cfg, s) ==> Excess(s, fromA) <= CREDIT_SLOTS) <==> cfg.depth <= 3
  {
    hide Reachable, Excess;
    LargestExcess(cfg, CREDIT_SLOTS + 1);
  }
}
