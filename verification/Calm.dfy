/** Pairs of transports with nothing under way, and how to get from one to the next. */
module Calm {
  import opened Words

  import opened Framing
  import opened Endpoint
  import opened Slots
  import opened TxInvariant
  import opened RxInvariant
  import opened Protocol
  import opened Guarantees
  import opened Progress
  import opened Runs

  /** A sending half between calls that has everything back. */
  ghost predicate AllBack(cfg: Config, t: Tx) {
    && t.sender.SIdle? && t.tokens == 0 && !t.pushing && t.sq == [] && t.cq == []
    && |t.free| == cfg.depth && |t.ctrlFree| == CREDIT_SLOTS && t.credits == cfg.depth
  }

  ghost predicate IsCalm(cfg: Config, s: System) {
    && !s.a.closed && AllBack(cfg, s.a.tx) && s.a.rx.cq == [] && |s.a.rx.rq| == cfg.depth
    && !s.b.closed && AllBack(cfg, s.b.tx) && s.b.rx.cq == [] && |s.b.rx.rq| == cfg.depth
  }

  lemma InitIsCalm(cfg: Config, s: System)
    requires cfg.Valid() && IsInit(cfg, s)
    ensures IsCalm(cfg, s) && s.a.tx.log.accepted == s.b.tx.log.accepted == []
    ensures s.a.tx.log.finAt < 0 && s.b.tx.log.finAt < 0
  {}

  lemma Begin(cfg: Config) returns (s: System)
    requires cfg.Valid()
    ensures IsInit(cfg, s) && Reachable(cfg, s)
  {
    var ms, mr := seq(cfg.SendSlots(), _ => Fin), seq(cfg.depth, _ => Fin);
    s := System(InitEnd(cfg, ms, mr), InitEnd(cfg, ms, mr));
    assert IsInit(cfg, s);
    ReachInit(cfg, s);
  }

  /** With all credits home and all receives posted, everything accepted has been delivered and nothing is pending. */
  lemma CalmReceiver(cfg: Config, s: System, atA: bool)
    requires cfg.Valid() && Reachable(cfg, s) && IsCalm(cfg, s)
    ensures var r := From(s, atA).rx;
            && r.queue == [] && !r.receiver.RTake? && !r.receiver.RReturn? && r.pending == 0
            && r.reasm == Reasm([], false) && r.log.delivered == From(s, !atA).tx.log.accepted
  {
    hide EndInv, Linked, AllFrames, Assemble, DataOf, CreditSum, AllBack, Reachable;
    var x, y := From(s, !atA), From(s, atA);
    DirectionInv(cfg, s, !atA);
    CalmCounts(cfg, x, y);
    AllDelivered(cfg, x, y);
  }

  lemma CalmCounts(cfg: Config, x: End, y: End)
    requires cfg.Valid() && EndInv(cfg, y) && Linked(cfg, x, y) && !y.closed
    requires AllBack(cfg, x.tx) && |y.rx.rq| == cfg.depth && y.rx.cq == []
    ensures x.tx.log.stream == y.rx.log.dispatched && x.tx.sender.SIdle?
    ensures y.rx.queue == [] && !y.rx.receiver.RTake? && !y.rx.receiver.RReturn? && y.rx.pending == 0
  {
    hide Count, AllFrames, DataOf, CreditSum, Assemble, TxInv, RecvPartitioned, Routed;
    assert Wire(x.tx) == [] && Arrived(y.rx) == [];
  }

  /** A halted pair is calm. */
  lemma HaltedIsCalm(cfg: Config, s: System)
    requires cfg.Valid() && Reachable(cfg, s) && Flowing(cfg, s.a) && Flowing(cfg, s.b) && Halted(cfg, s)
    ensures IsCalm(cfg, s) && Blocked(s.a.rx.receiver) && Blocked(s.b.rx.receiver)
  {
    hide Halted, Reachable, SmallCall;
    NoStuckStates(cfg, s);
  }

  /** What work leaves alone. */
  ghost predicate SameCalls(s: System, s': System) {
    && s'.a.tx.log.accepted == s.a.tx.log.accepted && s'.b.tx.log.accepted == s.b.tx.log.accepted
    && s'.a.tx.log.finAt == s.a.tx.log.finAt && s'.b.tx.log.finAt == s.b.tx.log.finAt
  }

  lemma WorkKeepsCalls(cfg: Config, s: System, act: Action)
    requires cfg.Valid() && CanAct(cfg, s, act) && Works(act)
    ensures SameCalls(s, Act(cfg, s, act))
  {
    hide AllFrames;
    if act.At? { StepKeepsCalls(cfg, if act.atA then s.a else s.b, act.step); }
  }

  lemma StepKeepsCalls(cfg: Config, e: End, s: Step)
    requires cfg.Valid() && Enabled(cfg, e, s) && Works(At(true, s))
    ensures var t' := Apply(cfg, e, s).tx; t'.log.accepted == e.tx.log.accepted && t'.log.finAt == e.tx.log.finAt
  {
    hide TxApply, TxEnabled, RxApply, RxEnabled, CreditPosted, DoPollRecv;
    if s.OnTx? { TxKeepsCalls(cfg, e.tx, e.closed, s.t); }
  }

  lemma TxKeepsCalls(cfg: Config, t: Tx, closed: bool, s: TxStep)
    requires cfg.Valid() && TxEnabled(cfg, t, closed, s) && TxWorks(s)
    ensures var t' := TxApply(cfg, t, closed, s); t'.log.accepted == t.log.accepted && t'.log.finAt == t.log.finAt
  {
    hide AllFrames, DataOf;
    match s {
      case PostData =>
      case SendReturn =>
      case _ =>
    }
  }

  /** From any state of two flowing sides, work can go on until the pair is calm. */
  lemma {:induction false} Settle(cfg: Config, o: System, s: System) returns (s': System)
    requires cfg.Valid() && Reachable(cfg, s) && After(cfg, o, s) && Flowing(cfg, s.a) && Flowing(cfg, s.b)
    ensures Reachable(cfg, s') && After(cfg, o, s') && SameCalls(s, s')
    ensures IsCalm(cfg, s') && Blocked(s'.a.rx.receiver) && Blocked(s'.b.rx.receiver)
    decreases WorkLeft(s)
  {
    hide Reachable, After, Flowing, IsCalm, CanAct, Act, WorkLeft, Works, Blocked;
    if Halted(cfg, s) {
      s' := s;
      HaltedIsCalm(cfg, s);
    } else {
      var act :| Works(act) && CanAct(cfg, s, act);
      ReachableInv(cfg, s);
      WorkDrops(cfg, s, act);
      FlowingKept(cfg, s, act);
      WorkKeepsCalls(cfg, s, act);
      s' := Go(cfg, o, s, act);
      s' := Settle(cfg, o, s');
    }
  }

  /** A message of one frame sent from a calm state, and delivered. */
  lemma SendOne(cfg: Config, o: System, s: System, m: Bytes) returns (s': System)
    requires cfg.Valid() && Reachable(cfg, s) && After(cfg, o, s) && IsCalm(cfg, s)
    requires |m| <= MAX_MESSAGE && FragmentCount(|m|, cfg.chunk) == 1
    ensures Reachable(cfg, s') && After(cfg, o, s') && IsCalm(cfg, s') && Blocked(s'.b.rx.receiver)
    ensures s'.a.tx.log.accepted == s.a.tx.log.accepted + [m] && s'.b.tx.log.accepted == s.b.tx.log.accepted
    ensures s'.a.tx.log.finAt == s.a.tx.log.finAt && s'.b.tx.log.finAt == s.b.tx.log.finAt
  {
    hide Reachable, After, AllFrames, FragmentCount;
    OneMessage(m, cfg.chunk);
    s' := Go(cfg, o, s, At(true, OnTx(SendCall([m]))));
    s' := Settle(cfg, o, s');
  }

  lemma OneMessage(m: Bytes, chunk: nat)
    requires chunk > 0
    ensures AllFrames([m], chunk) == FramesOf(m, chunk) && |FramesOf(m, chunk)| == FragmentCount(|m|, chunk)
  {
    assert [m][..0] == [];
  }

  lemma {:induction false} SendMany(cfg: Config, o: System, s: System, msgs: seq<Bytes>) returns (s': System)
    requires cfg.Valid() && Reachable(cfg, s) && After(cfg, o, s) && IsCalm(cfg, s)
    requires forall m :: m in msgs ==> |m| <= MAX_MESSAGE && FragmentCount(|m|, cfg.chunk) == 1
    ensures Reachable(cfg, s') && After(cfg, o, s') && IsCalm(cfg, s') && Blocked(s'.b.rx.receiver)
    ensures s'.a.tx.log.accepted == s.a.tx.log.accepted + msgs && s'.b.tx.log.accepted == s.b.tx.log.accepted
    ensures s'.a.tx.log.finAt == s.a.tx.log.finAt && s'.b.tx.log.finAt == s.b.tx.log.finAt
    decreases |msgs|
  {
    hide Reachable, After, IsCalm, FragmentCount, Blocked;
    if msgs == [] {
      CalmFlows(cfg, s);
      s' := Settle(cfg, o, s);
      assert s.a.tx.log.accepted + [] == s.a.tx.log.accepted;
    } else {
      var k := |msgs| - 1;
      s' := SendMany(cfg, o, s, msgs[..k]);
      s' := SendOne(cfg, o, s', msgs[k]);
      assert s.a.tx.log.accepted + msgs[..k] + [msgs[k]] == s.a.tx.log.accepted + msgs;
    }
  }

  lemma CalmFlows(cfg: Config, s: System)
    requires IsCalm(cfg, s)
    ensures Flowing(cfg, s.a) && Flowing(cfg, s.b)
  {}
}
