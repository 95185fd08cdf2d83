/** Building runs step by step, from any state on. */
module Runs {
  import opened Framing
  import opened Endpoint
  import opened Slots
  import opened TxInvariant
  import opened RxInvariant
  import opened Protocol
  import opened Guarantees

  /** `s` is reached from `o` in `n` actions. */
  ghost predicate LeadsIn(cfg: Config, o: System, s: System, n: nat)
    requires cfg.Valid()
    decreases n
  {
    if n == 0 then s == o
    else exists before, act :: LeadsIn(cfg, o, before, n - 1) && Leads(cfg, before, act, s)
  }

  ghost predicate After(cfg: Config, o: System, s: System)
    requires cfg.Valid()
  {
    exists n: nat :: LeadsIn(cfg, o, s, n)
  }

  lemma AfterNothing(cfg: Config, o: System)
    requires cfg.Valid()
    ensures After(cfg, o, o)
  {
    assert LeadsIn(cfg, o, o, 0);
  }

  lemma ReachInit(cfg: Config, s: System)
    requires cfg.Valid() && IsInit(cfg, s)
    ensures Reachable(cfg, s)
  {
    assert ReachedIn(cfg, s, 0);
  }

  lemma ReachAct(cfg: Config, s: System, act: Action)
    requires cfg.Valid() && Reachable(cfg, s) && CanAct(cfg, s, act)
    ensures Reachable(cfg, Act(cfg, s, act))
  {
    hide Act, CanAct;
    var n: nat :| ReachedIn(cfg, s, n);
    assert Leads(cfg, s, act, Act(cfg, s, act));
    assert ReachedIn(cfg, Act(cfg, s, act), n + 1);
  }

  lemma AfterAct(cfg: Config, o: System, s: System, act: Action)
    requires cfg.Valid() && After(cfg, o, s) && CanAct(cfg, s, act)
    ensures After(cfg, o, Act(cfg, s, act))
  {
    hide Act, CanAct;
    var n: nat :| LeadsIn(cfg, o, s, n);
    assert Leads(cfg, s, act, Act(cfg, s, act));
    assert LeadsIn(cfg, o, Act(cfg, s, act), n + 1);
  }

  lemma {:induction false} LeadsOn(cfg: Config, o: System, s: System, k: nat, n: nat)
    requires cfg.Valid() && ReachedIn(cfg, o, k) && LeadsIn(cfg, o, s, n)
    ensures ReachedIn(cfg, s, k + n)
    decreases n
  {
    hide Leads;
    if n > 0 {
      var before, act :| LeadsIn(cfg, o, before, n - 1) && Leads(cfg, before, act, s);
      LeadsOn(cfg, o, before, k, n - 1);
    }
  }

  lemma {:induction false} LeadsFurther(cfg: Config, o: System, c: System, s: System, k: nat, n: nat)
    requires cfg.Valid() && LeadsIn(cfg, o, c, k) && LeadsIn(cfg, c, s, n)
    ensures LeadsIn(cfg, o, s, k + n)
    decreases n
  {
    hide Leads;
    if n > 0 {
      var before, act :| LeadsIn(cfg, c, before, n - 1) && Leads(cfg, before, act, s);
      LeadsFurther(cfg, o, c, before, k, n - 1);
    }
  }

  lemma AfterAfter(cfg: Config, o: System, c: System, s: System)
    requires cfg.Valid() && After(cfg, o, c) && After(cfg, c, s)
    ensures After(cfg, o, s)
  {
    hide LeadsIn;
    var k: nat :| LeadsIn(cfg, o, c, k);
    var n: nat :| LeadsIn(cfg, c, s, n);
    LeadsFurther(cfg, o, c, s, k, n);
  }

  /** What comes after a reachable state is reachable. */
  lemma AfterReaches(cfg: Config, o: System, s: System)
    requires cfg.Valid() && Reachable(cfg, o) && After(cfg, o, s)
    ensures Reachable(cfg, s)
  {
    hide ReachedIn, LeadsIn;
    var k: nat :| ReachedIn(cfg, o, k);
    var n: nat :| LeadsIn(cfg, o, s, n);
    LeadsOn(cfg, o, s, k, n);
  }

  lemma Go(cfg: Config, o: System, s: System, act: Action) returns (s': System)
    requires cfg.Valid() && Reachable(cfg, s) && After(cfg, o, s) && CanAct(cfg, s, act)
    ensures Reachable(cfg, s') && After(cfg, o, s') && s' == Act(cfg, s, act)
  {
    hide Reachable, After, CanAct, Act;
    ReachAct(cfg, s, act);
    AfterAct(cfg, o, s, act);
    s' := Act(cfg, s, act);
  }

  /** The same where it does not matter from where. */
  lemma Next(cfg: Config, s: System, act: Action) returns (s': System)
    requires cfg.Valid() && Reachable(cfg, s) && CanAct(cfg, s, act)
    ensures Reachable(cfg, s') && s' == Act(cfg, s, act)
  {
    hide Reachable, After, CanAct, Act;
    AfterNothing(cfg, s);
    s' := Go(cfg, s, s, act);
  }

  // ---------------------------------------------------------------- symmetry

  function Mirror(s: System): System { System(s.b, s.a) }

  function MirrorAct(act: Action): Action {
    match act case At(atA, step) => At(!atA, step) case Deliver(fromA) => Deliver(!fromA)
  }

  lemma MirrorLeads(cfg: Config, before: System, act: Action, s: System)
    requires cfg.Valid() && Leads(cfg, before, act, s)
    ensures Leads(cfg, Mirror(before), MirrorAct(act), Mirror(s))
  {
    hide Apply, Enabled, CanDeliver, Accepted, Landed;
  }

  lemma MirrorInit(cfg: Config, s: System)
    requires cfg.Valid() && IsInit(cfg, s)
    ensures IsInit(cfg, Mirror(s))
  {
    hide InitEnd;
    var ma, ra, mb, rb :|
      && |ma| == |mb| == cfg.SendSlots() && |ra| == |rb| == cfg.depth
      && s == System(InitEnd(cfg, ma, ra), InitEnd(cfg, mb, rb));
    assert Mirror(s) == System(InitEnd(cfg, mb, rb), InitEnd(cfg, ma, ra));
  }

  lemma {:induction false} MirrorReached(cfg: Config, s: System, n: nat)
    requires cfg.Valid() && ReachedIn(cfg, s, n)
    ensures ReachedIn(cfg, Mirror(s), n)
    decreases n
  {
    hide IsInit, Leads;
    if n == 0 {
      MirrorInit(cfg, s);
    } else {
      var before, act :| ReachedIn(cfg, before, n - 1) && Leads(cfg, before, act, s);
      MirrorReached(cfg, before, n - 1);
      MirrorLeads(cfg, before, act, s);
    }
  }

  lemma {:induction false} MirrorLeadsIn(cfg: Config, o: System, s: System, n: nat)
    requires cfg.Valid() && LeadsIn(cfg, o, s, n)
    ensures LeadsIn(cfg, Mirror(o), Mirror(s), n)
    decreases n
  {
    hide Leads;
    if n > 0 {
      var before, act :| LeadsIn(cfg, o, before, n - 1) && Leads(cfg, before, act, s);
      MirrorLeadsIn(cfg, o, before, n - 1);
      MirrorLeads(cfg, before, act, s);
    }
  }

  /** The two sides are alike: what can happen to one pair can happen to the pair the other way round. */
  lemma Mirrored(cfg: Config, o: System, s: System)
    requires cfg.Valid()
    ensures Reachable(cfg, s) ==> Reachable(cfg, Mirror(s))
    ensures After(cfg, o, s) ==> After(cfg, Mirror(o), Mirror(s))
  {
    hide ReachedIn, LeadsIn;
    if Reachable(cfg, s) {
      var n: nat :| ReachedIn(cfg, s, n);
      MirrorReached(cfg, s, n);
    }
    if After(cfg, o, s) {
      var n: nat :| LeadsIn(cfg, o, s, n);
      MirrorLeadsIn(cfg, o, s, n);
    }
  }

  // --------------------------------------------------- what can be done next

  /** What reachability says about the heads of the queues. */
  lemma Heads(cfg: Config, s: System, atA: bool)
    requires cfg.Valid() && Reachable(cfg, s)
    ensures var t, r := From(s, atA).tx, From(s, atA).rx;
            && (t.sq != [] ==> t.sq[0] < |t.mem| && (t.sq[0] < cfg.depth <==> t.mem[t.sq[0]].Data?))
            && (r.rq != [] ==> r.rq[0] < |r.mem|)
            && (r.cq != [] ==> r.cq[0] < |r.mem|)
            && (t.ctrlFree != [] ==> cfg.depth <= t.ctrlFree[0] < |t.mem|)
            && (t.sender.SPost? ==> t.sender.slot < cfg.depth < |t.mem|)
            && (r.receiver.RTake? ==> r.receiver.frame.slot < |r.mem|)
  {
    hide Count, AllFrames, DataOf;
    DirectionInv(cfg, s, atA);
    var t, r := From(s, atA).tx, From(s, atA).rx;
    KindsMove(cfg, t);
    assert r.rq != [] ==> r.rq[0] in r.rq;
    assert r.cq != [] ==> r.cq[0] in r.cq;
    assert r.receiver.RTake? ==> r.receiver.frame in HeldFrame(r.receiver) + r.queue;
  }
}
