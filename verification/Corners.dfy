/**
 * End of file inside a message: `shutdown` while a message is being sent can make the peer report a plain
 * end of file with part of it in the reassembler. Exactly which messages this can happen to.
 */
module Corners {
  import opened Words

  import opened Framing
  import opened Endpoint
  import opened Slots
  import opened TxInvariant
  import opened RxInvariant
  import opened Protocol
  import opened Guarantees
  import opened Progress
  import opened Runs
  import opened Calm
  import opened Wedge
  import opened Closing

  /** An open receiver about to return io.EOF with a partial message. */
  predicate AtBrokenEnd(s: System, fromA: bool) {
    !To(s, fromA).closed && CanReturnEof(To(s, fromA).rx) && To(s, fromA).rx.reasm.active
  }

  predicate Long(cfg: Config, m: Bytes) { FragmentCount(|m|, cfg.chunk) >= 2 }

  // ------------------------------------------------ only long messages break

  /** A reassembler left with a partial message is inside a message of two or more frames. */
  lemma {:induction false} PartialIsLong(cfg: Config, msgs: seq<Bytes>, fs: seq<Frame>)
    requires cfg.Valid() && fs <= AllFrames(msgs, cfg.chunk) && Assemble(fs).rest.active
    ensures |Assemble(fs).msgs| < |msgs| && Long(cfg, msgs[|Assemble(fs).msgs|])
  {
    AssemblePrefix(msgs, cfg.chunk, fs);
    var init, m := msgs[..|msgs| - 1], msgs[|msgs| - 1];
    var before := AllFrames(init, cfg.chunk);
    assert AllFrames(msgs, cfg.chunk) == before + FramesOf(m, cfg.chunk);
    hide Assemble, AllFrames, FramesOf, FragmentCount;
    if |fs| < |before| {
      assert fs <= before;
      PartialIsLong(cfg, init, fs);
    } else {
      var k := |fs| - |before|;
      AssemblePrefix(init, cfg.chunk, before);
      assert fs == before + FramesOf(m, cfg.chunk)[..k];
      AssembleWithin(before, m, cfg.chunk, k);
    }
  }

  /** A receiver that holds a partial message took a frame with more to come last. */
  ghost predicate MoreToCome(r: Rx) {
    r.reasm.active ==> r.log.consumed != [] && r.log.consumed[|r.log.consumed| - 1].Data?
                       && r.log.consumed[|r.log.consumed| - 1].more
  }

  lemma StepMore(cfg: Config, e: End, s: Step)
    requires cfg.Valid() && Enabled(cfg, e, s) && MoreToCome(e.rx)
    ensures MoreToCome(Apply(cfg, e, s).rx)
    ensures e.rx.log.consumed <= Apply(cfg, e, s).rx.log.consumed
  {
    hide TxApply, TxEnabled, RxApply;
    match s {
      case OnRx(r) =>
        DeliveredGrows(cfg, e, r);
        if r.Consume? { ConsumeMore(cfg, e); }
      case _ =>
    }
  }

  lemma ConsumeMore(cfg: Config, e: End)
    requires CanConsume(e.rx)
    ensures var r' := RxApply(cfg, e.tx, e.rx, e.closed, Consume);
            MoreToCome(r') && e.rx.log.consumed <= r'.log.consumed
  {
    ConsumeEffect(cfg, e.rx);
    hide DoConsume;
  }

  lemma ActMore(cfg: Config, s: System, act: Action)
    requires cfg.Valid() && CanAct(cfg, s, act) && MoreToCome(s.a.rx) && MoreToCome(s.b.rx)
    ensures MoreToCome(Act(cfg, s, act).a.rx) && MoreToCome(Act(cfg, s, act).b.rx)
    ensures s.b.rx.log.consumed <= Act(cfg, s, act).b.rx.log.consumed
  {
    hide Apply, Enabled;
    if act.At? { StepMore(cfg, From(s, act.atA), act.step); }
  }

  lemma {:induction false} RunMore(cfg: Config, s: System, n: nat)
    requires cfg.Valid() && ReachedIn(cfg, s, n)
    ensures MoreToCome(s.a.rx) && MoreToCome(s.b.rx)
    decreases n
  {
    hide Act, CanAct, MoreToCome;
    if n == 0 {
      InitMore(cfg, s);
    } else {
      var before, act :| ReachedIn(cfg, before, n - 1) && Leads(cfg, before, act, s);
      RunMore(cfg, before, n - 1);
      ActMore(cfg, before, act);
    }
  }

  lemma InitMore(cfg: Config, s: System)
    requires cfg.Valid() && IsInit(cfg, s)
    ensures MoreToCome(s.a.rx) && MoreToCome(s.b.rx)
  {}

  /** A frame with more to come belongs to a message of two or more. */
  lemma {:induction false} MoreIsLong(cfg: Config, msgs: seq<Bytes>, f: Frame)
    requires cfg.Valid() && f in AllFrames(msgs, cfg.chunk) && f.Data? && f.more
    ensures exists m :: m in msgs && Long(cfg, m)
  {
    hide FragmentCount;
    var init, m := msgs[..|msgs| - 1], msgs[|msgs| - 1];
    if f in AllFrames(init, cfg.chunk) {
      MoreIsLong(cfg, init, f);
    } else {
      var k :| 0 <= k < |FramesOf(m, cfg.chunk)| && FramesOf(m, cfg.chunk)[k] == f;
      assert m in msgs && Long(cfg, m);
    }
  }

  /**
   * In any reachable state, in either direction: some message takes two or more frames; and unless the sender
   * has left a gap, the message cut off is the next one, and is one of them.
   */
  lemma BrokenIsLong(cfg: Config, s: System, fromA: bool)
    requires cfg.Valid() && Reachable(cfg, s) && AtBrokenEnd(s, fromA)
    ensures exists m :: m in From(s, fromA).tx.log.accepted && Long(cfg, m)
    ensures From(s, fromA).tx.log.sound < 0 ==>
              var sent, got := From(s, fromA).tx.log.accepted, |To(s, fromA).rx.log.delivered|;
              got < |sent| && Long(cfg, sent[got])
  {
    hide Assemble, AllFrames, ReachedIn, FragmentCount;
    var sent, c := From(s, fromA).tx.log.accepted, To(s, fromA).rx.log.consumed;
    var n: nat :| ReachedIn(cfg, s, n);
    RunMore(cfg, s, n);
    TakenInOrder(cfg, s, fromA);
    SubsequenceIn(c, AllFrames(sent, cfg.chunk), c[|c| - 1]);
    MoreIsLong(cfg, sent, c[|c| - 1]);
    if From(s, fromA).tx.log.sound < 0 {
      Reassembly(cfg, s, fromA);
      PartialIsLong(cfg, sent, c);
    }
  }

  lemma {:induction false} ConsumedOnly(cfg: Config, o: System, s: System, k: nat, n: nat)
    requires cfg.Valid() && ReachedIn(cfg, o, k) && LeadsIn(cfg, o, s, n)
    ensures o.b.rx.log.consumed <= s.b.rx.log.consumed && MoreToCome(s.a.rx) && MoreToCome(s.b.rx)
    decreases n
  {
    hide Act, CanAct, MoreToCome;
    if n == 0 {
      RunMore(cfg, o, k);
    } else {
      var before, act :| LeadsIn(cfg, o, before, n - 1) && Leads(cfg, before, act, s);
      ConsumedOnly(cfg, o, before, k, n - 1);
      ActMore(cfg, before, act);
    }
  }

  /** What a subsequence takes behind a common part it takes from what is behind it. */
  lemma {:induction false} BehindCommon<T>(a: seq<T>, n: seq<T>, b: seq<T>)
    requires Subsequence(a + n, a + b)
    ensures Subsequence(n, b)
    decreases |b|
  {
    SubsequenceShorter(a + n, a + b);
    if n != [] {
      var init := b[..|b| - 1];
      assert (a + b)[..|a + b| - 1] == a + init && (a + b)[|a + b| - 1] == b[|b| - 1];
      if Subsequence(a + n, a + init) {
        BehindCommon(a, n, init);
      } else {
        assert (a + n)[..|a + n| - 1] == a + n[..|n| - 1] && (a + n)[|a + n| - 1] == n[|n| - 1];
        BehindCommon(a, n[..|n| - 1], init);
      }
    }
  }

  lemma {:induction false} SubsequenceShorter<T>(a: seq<T>, b: seq<T>)
    requires Subsequence(a, b)
    ensures |a| <= |b|
    decreases |b|
  {
    if a != [] {
      var init := b[..|b| - 1];
      if Subsequence(a, init) { SubsequenceShorter(a, init); } else { SubsequenceShorter(a[..|a| - 1], init); }
    }
  }

  /** On a calm pair all frames of the messages accepted have been consumed, and the last one ended a message. */
  lemma CalmConsumed(cfg: Config, o: System)
    requires cfg.Valid() && Reachable(cfg, o) && IsCalm(cfg, o)
    ensures var c := o.b.rx.log.consumed;
            c == AllFrames(o.a.tx.log.accepted, cfg.chunk) && (c != [] ==> c[|c| - 1].Data? && !c[|c| - 1].more)
  {
    hide EndInv, Linked, AllFrames, DataOf, Reachable, AllBack;
    CalmReceiver(cfg, o, false);
    DirectionInv(cfg, o, true);
    CalmStreams(cfg, o);
    LastEnds(cfg, o.a.tx.log.accepted);
  }

  lemma CalmStreams(cfg: Config, o: System)
    requires cfg.Valid() && EndInv(cfg, o.a) && EndInv(cfg, o.b) && Linked(cfg, o.a, o.b) && IsCalm(cfg, o)
    ensures o.b.rx.log.consumed == AllFrames(o.a.tx.log.accepted, cfg.chunk)
  {
    assert EndInv(cfg, o.b) && RxInv(cfg, o.b.rx, false) && TxInv(cfg, o.a.tx, false);
    hide EndInv, TxInv, RxInv, Linked, AllFrames, DataOf;
    CalmCounts(cfg, o.a, o.b);
    AllPosted(cfg, o.a.tx);
    AllConsumed(cfg, o.b.rx);
  }

  lemma LastEnds(cfg: Config, msgs: seq<Bytes>)
    requires cfg.Valid()
    ensures var fs := AllFrames(msgs, cfg.chunk); fs != [] ==> fs[|fs| - 1].Data? && !fs[|fs| - 1].more
  {
    if msgs != [] {
      var m := msgs[|msgs| - 1];
      var n := FragmentCount(|m|, cfg.chunk);
      assert FramesOf(m, cfg.chunk)[n - 1] == Fragment(m, cfg.chunk, n - 1);
    }
  }

  /** From a calm state on, only a message sent since can be cut off. */
  lemma BreaksOnlyLong(cfg: Config, o: System, s: System, msgs: seq<Bytes>)
    requires cfg.Valid() && Reachable(cfg, o) && IsCalm(cfg, o) && After(cfg, o, s)
    requires s.a.tx.log.accepted == o.a.tx.log.accepted + msgs && AtBrokenEnd(s, true)
    ensures exists m :: m in msgs && Long(cfg, m)
  {
    hide ReachedIn, LeadsIn, IsCalm, Long, AllFrames, Subsequence;
    AfterReaches(cfg, o, s);
    CalmConsumed(cfg, o);
    var k: nat :| ReachedIn(cfg, o, k);
    var n: nat :| LeadsIn(cfg, o, s, n);
    ConsumedOnly(cfg, o, s, k, n);
    var c0, c := o.b.rx.log.consumed, s.b.rx.log.consumed;
    TakenInOrder(cfg, s, true);
    AllFramesConcat(o.a.tx.log.accepted, msgs, cfg.chunk);
    assert c == c0 + c[|c0|..];
    BehindCommon(c0, c[|c0|..], AllFrames(msgs, cfg.chunk));
    SubsequenceIn(c[|c0|..], AllFrames(msgs, cfg.chunk), c[|c| - 1]);
    MoreIsLong(cfg, msgs, c[|c| - 1]);
  }

  // ------------------------------------------------- every long one can break

  /** The first frame of a long message is on the wire; the peer blocks for data. */
  ghost predicate FirstOut(cfg: Config, s: System) {
    && !s.a.closed && s.a.tx.log.finAt < 0 && s.a.tx.ctrlFree != []
    && |s.a.tx.sq| == 1 && s.a.tx.sq[0] < cfg.depth && s.a.tx.sq[0] < |s.a.tx.mem|
    && s.a.tx.mem[s.a.tx.sq[0]].Data? && s.a.tx.mem[s.a.tx.sq[0]].more
    && Ready(cfg, s.b) && Blocked(s.b.rx.receiver) && s.b.rx.reasm == Reasm([], false)
  }

  lemma PostFirst(cfg: Config, o: System, s: System, msgs: seq<Bytes>) returns (s': System)
    requires cfg.Valid() && Reachable(cfg, s) && After(cfg, o, s) && Underway(cfg, o, s, msgs, 0)
    requires o.a.tx.ctrlFree != [] && o.a.tx.log.finAt < 0
    requires Ready(cfg, o.b) && Blocked(o.b.rx.receiver) && o.b.rx.reasm == Reasm([], false)
    requires var fs := AllFrames(msgs, cfg.chunk); |fs| >= 2 && fs[0].Data? && fs[0].more
    ensures s'.a.tx.log.accepted == s.a.tx.log.accepted
    ensures Reachable(cfg, s') && After(cfg, o, s') && FirstOut(cfg, s')
  {
    hide AllFrames, Reachable, After;
    s' := Go(cfg, o, s, At(true, OnTx(DrainEnd)));
    s' := Go(cfg, o, s', At(true, OnTx(Acquire)));
    s' := Go(cfg, o, s', At(true, OnTx(TakeSlot)));
    Heads(cfg, s', true);
    s' := Go(cfg, o, s', At(true, OnTx(PostData)));
  }

  lemma FirstFragment(cfg: Config, msgs: seq<Bytes>)
    requires cfg.Valid() && msgs != [] && Long(cfg, msgs[0])
    ensures var fs := AllFrames(msgs, cfg.chunk); |fs| >= 2 && fs[0].Data? && fs[0].more
  {
    AllFramesConcat([msgs[0]], msgs[1..], cfg.chunk);
    assert [msgs[0]] + msgs[1..] == msgs;
    OneMessage(msgs[0], cfg.chunk);
    assert FramesOf(msgs[0], cfg.chunk)[0] == Fragment(msgs[0], cfg.chunk, 0);
  }

  /** The FIN is behind it. */
  ghost predicate Cut(cfg: Config, s: System) {
    && !s.a.closed
    && |s.a.tx.sq| == 2 && s.a.tx.sq[0] < |s.a.tx.mem| && s.a.tx.sq[1] < |s.a.tx.mem|
    && s.a.tx.mem[s.a.tx.sq[0]].Data? && s.a.tx.mem[s.a.tx.sq[0]].more && s.a.tx.mem[s.a.tx.sq[1]] == Fin
    && Ready(cfg, s.b) && Blocked(s.b.rx.receiver) && s.b.rx.reasm == Reasm([], false)
    && s.b.rx.rq != [] && s.b.rx.rq[0] < |s.b.rx.mem|
  }

  lemma PostEnd(cfg: Config, o: System, s: System) returns (s': System)
    requires cfg.Valid() && Reachable(cfg, s) && After(cfg, o, s) && FirstOut(cfg, s)
    ensures s'.a.tx.log.accepted == s.a.tx.log.accepted
    ensures Reachable(cfg, s') && After(cfg, o, s') && Cut(cfg, s')
  {
    hide AllFrames, Reachable, After;
    Heads(cfg, s, true);
    Heads(cfg, s, false);
    s' := Go(cfg, o, s, At(true, OnTx(PostFin)));
  }

  /** The frame is in the receiver's hand. */
  ghost predicate Grabbed(cfg: Config, s: System) {
    && !s.a.closed && !s.b.closed
    && |s.a.tx.sq| == 1 && s.a.tx.sq[0] < |s.a.tx.mem| && s.a.tx.mem[s.a.tx.sq[0]] == Fin
    && s.b.tx.ctrlFree != [] && !s.b.tx.pushing && s.b.rx.cq == [] && s.b.rx.queue == [] && s.b.rx.pending == 0
    && s.b.rx.reasm == Reasm([], false)
    && s.b.rx.receiver.RTake? && s.b.rx.receiver.frame.more && s.b.rx.receiver.frame.slot < |s.b.rx.mem|
  }

  lemma Grab(cfg: Config, o: System, s: System) returns (s': System)
    requires cfg.Valid() && Reachable(cfg, s) && After(cfg, o, s) && Cut(cfg, s)
    ensures s'.a.tx.log.accepted == s.a.tx.log.accepted
    ensures Reachable(cfg, s') && After(cfg, o, s') && Grabbed(cfg, s')
  {
    hide AllFrames, Reachable, After;
    s' := Go(cfg, o, s, Deliver(true));
    s' := Go(cfg, o, s', At(false, PollRecv));
    s' := Go(cfg, o, s', At(false, OnRx(TakeFrame)));
    Heads(cfg, s', false);
  }

  /** The frame has been reassembled and the message is incomplete. */
  ghost predicate Held(s: System) {
    && !s.b.closed && !s.b.tx.pushing && s.b.rx.reasm.active && s.b.rx.queue == [] && s.b.tx.ctrlFree != []
    && (s.b.rx.receiver.RReturn? ==> s.b.rx.receiver.after == ThenResume(false) && s.b.rx.pending == 0)
    && (s.b.rx.receiver.RReturn? || s.b.rx.receiver.RLoop?)
  }

  /** And the FIN is still on the wire. */
  ghost predicate FinNext(s: System) {
    && |s.a.tx.sq| == 1 && s.a.tx.sq[0] < |s.a.tx.mem| && s.a.tx.mem[s.a.tx.sq[0]] == Fin
    && s.b.rx.cq == [] && s.b.rx.rq != [] && s.b.rx.rq[0] < |s.b.rx.mem|
  }

  lemma Hold(cfg: Config, o: System, s: System) returns (s': System)
    requires cfg.Valid() && Reachable(cfg, s) && After(cfg, o, s) && Grabbed(cfg, s)
    ensures s'.a.tx.log.accepted == s.a.tx.log.accepted
    ensures Reachable(cfg, s') && After(cfg, o, s') && Held(s') && FinNext(s')
  {
    hide AllFrames, Reachable, After;
    OpenIsUnbroken(cfg, s, true);
    GuardHolds(cfg, s, true);
    s' := Go(cfg, o, s, At(false, OnRx(Consume)));
    Heads(cfg, s', false);
  }

  lemma SeeEnd(cfg: Config, o: System, s: System) returns (s': System)
    requires cfg.Valid() && Reachable(cfg, s) && After(cfg, o, s) && Held(s) && FinNext(s)
    ensures s'.a.tx.log.accepted == s.a.tx.log.accepted
    ensures Reachable(cfg, s') && After(cfg, o, s') && Held(s') && s'.b.rx.peerFin
  {
    hide AllFrames, Reachable, After;
    s' := Go(cfg, o, s, Deliver(true));
    s' := Go(cfg, o, s', At(false, PollRecv));
  }

  /** The credit is returned, if it is not already on its way, and the receiver looks for more. */
  ghost predicate Looking(s: System) {
    && !s.b.closed && s.b.rx.reasm.active && s.b.rx.queue == [] && s.b.rx.peerFin && s.b.rx.pending == 0
    && (s.b.rx.receiver.RIdle? || s.b.rx.receiver.RBlock?)
  }

  lemma Look(cfg: Config, o: System, s: System) returns (s': System)
    requires cfg.Valid() && Reachable(cfg, s) && After(cfg, o, s) && Held(s) && s.b.rx.peerFin
    ensures s'.a.tx.log.accepted == s.a.tx.log.accepted
    ensures Reachable(cfg, s') && After(cfg, o, s') && Looking(s')
  {
    hide AllFrames, Reachable, After;
    s' := s;
    if s'.b.rx.receiver.RReturn? {
      Heads(cfg, s', false);
      s' := Go(cfg, o, s', At(false, PostCredit));
      s' := Go(cfg, o, s', At(false, OnRx(FindEmpty)));
    } else {
      s' := Go(cfg, o, s', At(false, OnRx(FindEmpty)));
      if s'.b.rx.receiver.RReturn? {
        Heads(cfg, s', false);
        s' := Go(cfg, o, s', At(false, PostCredit));
      }
    }
  }

  lemma FindEnd(cfg: Config, o: System, s: System) returns (s': System)
    requires cfg.Valid() && Reachable(cfg, s) && After(cfg, o, s) && Looking(s)
    ensures s'.a.tx.log.accepted == s.a.tx.log.accepted
    ensures Reachable(cfg, s') && After(cfg, o, s') && AtBrokenEnd(s', true)
  {
    hide AllFrames, Reachable, After;
    s' := s;
    if s'.b.rx.receiver.RIdle? {
      s' := Go(cfg, o, s', At(false, OnRx(RecvStart(false, 1))));
      s' := Go(cfg, o, s', At(false, OnRx(FindEmpty)));
    }
    s' := Go(cfg, o, s', At(false, OnRx(SeeFin)));
  }

  /** From a calm state whose receiver blocks: a call that starts with a long message can be cut off in it. */
  lemma CutShort(cfg: Config, o: System, msgs: seq<Bytes>) returns (s: System)
    requires cfg.Valid() && Reachable(cfg, o) && IsCalm(cfg, o) && o.a.tx.log.finAt < 0 && Blocked(o.b.rx.receiver)
    requires msgs != [] && Long(cfg, msgs[0]) && forall m :: m in msgs ==> |m| <= MAX_MESSAGE
    ensures Reachable(cfg, s) && After(cfg, o, s) && AtBrokenEnd(s, true)
    ensures s.a.tx.log.accepted == o.a.tx.log.accepted + msgs
  {
    hide Reachable, After, AllFrames, FirstOut, Cut, Grabbed, Held, FinNext, Looking, AtBrokenEnd, Ready, Long;
    CalmIsReady(cfg, o);
    CalmReceiver(cfg, o, false);
    FirstFragment(cfg, msgs);
    s := Start(cfg, o, msgs);
    s := PostFirst(cfg, o, s, msgs);
    s := PostEnd(cfg, o, s);
    s := Grab(cfg, o, s);
    s := Hold(cfg, o, s);
    s := SeeEnd(cfg, o, s);
    s := Look(cfg, o, s);
    s := FindEnd(cfg, o, s);
  }

  /** The short messages before it are sent and delivered first. */
  lemma BreakAt(cfg: Config, o: System, msgs: seq<Bytes>, k: nat) returns (s: System)
    requires cfg.Valid() && Reachable(cfg, o) && IsCalm(cfg, o) && o.a.tx.log.finAt < 0
    requires forall m :: m in msgs ==> |m| <= MAX_MESSAGE
    requires k < |msgs| && Long(cfg, msgs[k]) && forall j :: 0 <= j < k ==> !Long(cfg, msgs[j])
    ensures Reachable(cfg, s) && After(cfg, o, s) && AtBrokenEnd(s, true)
    ensures s.a.tx.log.accepted == o.a.tx.log.accepted + msgs
  {
    hide Reachable, After, AtBrokenEnd, IsCalm, Blocked, FragmentCount;
    AfterNothing(cfg, o);
    Shorts(cfg, msgs, k);
    var c := SendMany(cfg, o, o, msgs[..k]);
    s := CutShort(cfg, c, msgs[k..]);
    AfterAfter(cfg, o, c, s);
    assert o.a.tx.log.accepted + msgs[..k] + msgs[k..] == o.a.tx.log.accepted + msgs;
  }

  lemma Shorts(cfg: Config, msgs: seq<Bytes>, k: nat)
    requires cfg.Valid() && k <= |msgs| && forall j :: 0 <= j < k ==> !Long(cfg, msgs[j])
    ensures forall m :: m in msgs[..k] ==> FragmentCount(|m|, cfg.chunk) == 1
  {}

  /** The first long message, if there is one. */
  lemma {:induction false} FirstLong(cfg: Config, msgs: seq<Bytes>) returns (k: nat)
    requires exists m :: m in msgs && Long(cfg, m)
    ensures k < |msgs| && Long(cfg, msgs[k]) && forall j :: 0 <= j < k ==> !Long(cfg, msgs[j])
    decreases |msgs|
  {
    if Long(cfg, msgs[0]) {
      k := 0;
    } else {
      var m :| m in msgs && Long(cfg, m);
      assert m in msgs[1..];
      k := FirstLong(cfg, msgs[1..]);
      assert forall j :: 0 < j < k + 1 ==> msgs[j] == msgs[1..][j - 1];
      k := k + 1;
    }
  }

  ghost predicate CanBreak(cfg: Config, o: System, msgs: seq<Bytes>, fromA: bool)
    requires cfg.Valid()
  {
    exists s :: After(cfg, o, s) && AtBrokenEnd(s, fromA)
                && From(s, fromA).tx.log.accepted == From(o, fromA).tx.log.accepted + msgs
  }

  /**
   * From any calm state in which the side has not posted its FIN, whatever it sent before: among the
   * messages it sends next, in whatever calls, one can be cut off by a plain end of file exactly if one
   * takes two or more frames.
   */
  lemma EofInsideMessage(cfg: Config, o: System, msgs: seq<Bytes>, fromA: bool)
    requires cfg.Valid() && Reachable(cfg, o) && IsCalm(cfg, o) && From(o, fromA).tx.log.finAt < 0
    requires forall m :: m in msgs ==> |m| <= MAX_MESSAGE
    ensures CanBreak(cfg, o, msgs, fromA) <==> exists m :: m in msgs && Long(cfg, m)
  {
    hide Reachable, After, IsCalm, Long;
    var o' := if fromA then o else Mirror(o);
    TurnCalm(cfg, o, fromA);
    if exists m :: m in msgs && Long(cfg, m) {
      var k := FirstLong(cfg, msgs);
      var s := BreakAt(cfg, o', msgs, k);
      Mirrored(cfg, o', s);
      assert After(cfg, o, if fromA then s else Mirror(s));
    } else {
      forall s | After(cfg, o, s) && From(s, fromA).tx.log.accepted == From(o, fromA).tx.log.accepted + msgs
        ensures !AtBrokenEnd(s, fromA)
      {
        Mirrored(cfg, o, s);
        var s' := if fromA then s else Mirror(s);
        if AtBrokenEnd(s', true) { BreaksOnlyLong(cfg, o', s', msgs); }
      }
    }
  }

  /**
   * Over whole histories: a receiver can be told of a plain end inside a message of a given history of
   * its peer exactly if some message of that history takes two or more frames.
   */
  lemma EofInsideHistory(cfg: Config, msgs: seq<Bytes>, fromA: bool)
    requires cfg.Valid() && forall m :: m in msgs ==> |m| <= MAX_MESSAGE
    ensures (exists s :: Reachable(cfg, s) && From(s, fromA).tx.log.accepted == msgs && AtBrokenEnd(s, fromA))
            <==> exists m :: m in msgs && Long(cfg, m)
  {
    hide Reachable, After, IsCalm, Long, AtBrokenEnd, IsInit;
    if exists m :: m in msgs && Long(cfg, m) {
      var o := Begin(cfg);
      InitIsCalm(cfg, o);
      EofInsideMessage(cfg, o, msgs, fromA);
      var s :| After(cfg, o, s) && AtBrokenEnd(s, fromA)
               && From(s, fromA).tx.log.accepted == From(o, fromA).tx.log.accepted + msgs;
      AfterReaches(cfg, o, s);
      assert [] + msgs == msgs;
    } else {
      forall s | Reachable(cfg, s) && From(s, fromA).tx.log.accepted == msgs
        ensures !AtBrokenEnd(s, fromA)
      {
        if AtBrokenEnd(s, fromA) { BrokenIsLong(cfg, s, fromA); }
      }
    }
  }
}
