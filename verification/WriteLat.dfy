/**
 * The RDMA-write ping-pong (perftest/write.go, lines 49-135): two sides that talk only through the last
 * byte of each other's buffer, and the word through which that byte is read and written. The lock-step is
 * proved for any number of rounds, across the wrap of the byte.
 */
module WriteLat {
  import opened Words

  function V(k: nat): byte { k % 256 }
  function Next(b: byte): byte { (b + 1) % 256 }
  function Skip(b: byte): byte { (b + 2) % 256 }

  lemma Wraps(k: nat)
    ensures Next(V(k)) == V(k + 1) && Skip(V(k)) == V(k + 2) && V(k) != V(k + 1)
  {}

  /** Where a side is in its round; `Flying` until the device has delivered its write, `Landed` until it polls. */
  datatype ClientPc = CSet | CPost | CFlying | CLanded | CSpin
  datatype ServerPc = SSpin | SSet | SPost | SFlying | SLanded

  /** `sent` counts the writes delivered from this side to the other one. */
  datatype Client = Client(round: nat, pc: ClientPc, sentinel: byte, last: byte, sent: nat)
  datatype Server = Server(round: nat, pc: ServerPc, awaited: byte, last: byte, sent: nat)
  datatype World = World(iters: nat, c: Client, s: Server)

  function Init(iters: nat, clientByte: byte, serverByte: byte): World {
    World(iters, Client(0, CSet, 1, clientByte, 0), Server(0, SSpin, 1, serverByte, 0))
  }

  datatype Actor = ClientSide | ServerSide | ClientWire | ServerWire

  predicate Can(w: World, a: Actor) {
    match a
    case ClientSide => w.c.round < w.iters && !w.c.pc.CFlying? && (w.c.pc.CSpin? ==> w.c.last == Next(w.c.sentinel))
    case ServerSide => w.s.round < w.iters && !w.s.pc.SFlying? && (w.s.pc.SSpin? ==> w.s.last == w.s.awaited)
    case ClientWire => w.c.pc.CFlying?
    case ServerWire => w.s.pc.SFlying?
  }

  function ClientStep(c: Client): Client {
    match c.pc
    case CSet => c.(last := c.sentinel, pc := CPost)
    case CPost => c.(pc := CFlying)
    case CFlying => c
    case CLanded => c.(pc := CSpin)
    case CSpin => c.(round := c.round + 1, sentinel := Skip(c.sentinel), pc := CSet)
  }

  function ServerStep(s: Server): Server {
    match s.pc
    case SSpin => s.(pc := SSet)
    case SSet => s.(last := Next(s.awaited), pc := SPost)
    case SPost => s.(pc := SFlying)
    case SFlying => s
    case SLanded => s.(round := s.round + 1, awaited := Skip(s.awaited), pc := SSpin)
  }

  /** A delivered write copies the byte as it is at that moment. */
  function Do(w: World, a: Actor): World
    requires Can(w, a)
  {
    match a
    case ClientSide => w.(c := ClientStep(w.c))
    case ServerSide => w.(s := ServerStep(w.s))
    case ClientWire => w.(c := w.c.(pc := CLanded, sent := w.c.sent + 1), s := w.s.(last := w.c.last))
    case ServerWire => w.(s := w.s.(pc := SLanded, sent := w.s.sent + 1), c := w.c.(last := w.s.last))
  }

  // ------------------------------------------------------------ lock-step

  /** Own writes delivered agree with the round; the server is never more than one write behind. */
  ghost predicate Paired(w: World) {
    && w.c.round <= w.iters && w.s.round <= w.iters
    && w.c.sent == w.c.round + (if w.c.pc.CLanded? || w.c.pc.CSpin? then 1 else 0)
    && w.s.sent == w.s.round + (if w.s.pc.SLanded? then 1 else 0)
    && w.s.sent <= w.c.sent <= w.s.sent + 1
    && (w.c.pc.CSet? || w.c.pc.CPost? || w.c.pc.CFlying? ==> w.c.sent == w.s.sent)
    && (w.s.pc.SSet? || w.s.pc.SPost? || w.s.pc.SFlying? ==> w.c.sent == w.s.sent + 1)
    && (w.c.round == w.iters ==> w.c.pc.CSet?) && (w.s.round == w.iters ==> w.s.pc.SSpin?)
  }

  /** What the two bytes hold, by whose write of which round was the last to touch them. */
  ghost predicate Held(w: World) {
    && w.c.sentinel == V(2 * w.c.round + 1) && w.s.awaited == V(2 * w.s.round + 1)
    && (w.c.pc.CPost? || w.c.pc.CFlying? ==> w.c.last == w.c.sentinel)
    && (w.c.pc.CLanded? || w.c.pc.CSpin? ==>
          w.c.last == if w.s.sent == w.c.sent then Next(w.c.sentinel) else w.c.sentinel)
    && (w.s.pc.SSpin? ==> if w.c.sent == w.s.sent then w.s.last != w.s.awaited else w.s.last == w.s.awaited)
    && (w.s.pc.SPost? || w.s.pc.SFlying? ==> w.s.last == Next(w.s.awaited))
    && (w.s.pc.SLanded? ==> w.s.last == if w.c.sent == w.s.sent then Next(w.s.awaited) else Skip(w.s.awaited))
  }

  ghost predicate Inv(w: World) { Paired(w) && Held(w) }

  /** The byte values around the current rounds, and that neighbours differ. */
  lemma Values(w: World)
    requires Held(w)
    ensures Skip(w.c.sentinel) == V(2 * (w.c.round + 1) + 1) && Skip(w.s.awaited) == V(2 * (w.s.round + 1) + 1)
    ensures Next(w.c.sentinel) != w.c.sentinel && Next(w.s.awaited) != Skip(w.s.awaited)
    ensures w.c.round == w.s.round ==> w.c.sentinel == w.s.awaited
    ensures w.c.round == w.s.round + 1 ==> w.c.sentinel == Skip(w.s.awaited)
    ensures w.s.round == w.c.round + 1 ==> w.s.awaited == Skip(w.c.sentinel)
  {
    Wraps(2 * w.c.round + 1);
    Wraps(2 * w.c.round + 2);
    Wraps(2 * w.s.round + 1);
    Wraps(2 * w.s.round + 2);
  }

  lemma CpuKeeps(w: World, a: Actor)
    requires Inv(w) && Can(w, a) && (a.ClientSide? || a.ServerSide?)
    ensures Inv(Do(w, a))
  {
    hide V, Next, Skip;
    Values(w);
  }

  lemma WireKeeps(w: World, a: Actor)
    requires Inv(w) && Can(w, a) && (a.ClientWire? || a.ServerWire?)
    ensures Inv(Do(w, a))
  {
    hide V, Next, Skip;
    Values(w);
  }

  lemma StepKeeps(w: World, a: Actor)
    requires Inv(w) && Can(w, a)
    ensures Inv(Do(w, a))
  {
    hide Inv, Can, Do;
    if a.ClientSide? || a.ServerSide? { CpuKeeps(w, a); } else { WireKeeps(w, a); }
  }

  /** Any schedule from given first bytes. */
  ghost predicate IsRun(ws: seq<World>, actors: seq<Actor>, iters: nat, clientByte: byte, serverByte: byte) {
    && |ws| == |actors| + 1 && ws[0] == Init(iters, clientByte, serverByte)
    && forall i :: 0 <= i < |actors| ==> Can(ws[i], actors[i]) && ws[i + 1] == Do(ws[i], actors[i])
  }

  lemma {:induction false} RunInv(ws: seq<World>, actors: seq<Actor>, iters: nat, clientByte: byte, serverByte: byte,
                                  i: nat)
    requires IsRun(ws, actors, iters, clientByte, serverByte) && serverByte != 1 && i < |ws|
    ensures Inv(ws[i]) && ws[i].iters == iters
  {
    if i > 0 {
      RunInv(ws, actors, iters, clientByte, serverByte, i - 1);
      StepKeeps(ws[i - 1], actors[i - 1]);
    }
  }

  /** The rounds of the two sides never differ by more than one. */
  lemma LockStep(ws: seq<World>, actors: seq<Actor>, iters: nat, clientByte: byte, serverByte: byte, i: nat)
    requires IsRun(ws, actors, iters, clientByte, serverByte) && serverByte != 1 && i < |ws|
    ensures ws[i].c.round <= ws[i].s.round + 1 && ws[i].s.round <= ws[i].c.round + 1
  {
    RunInv(ws, actors, iters, clientByte, serverByte, i);
  }

  /** A spin ends only after the other side's write of the same round has landed, and no later one has. */
  ghost predicate SpinSound(w: World) {
    && (w.s.pc.SSpin? && Can(w, ServerSide) ==> w.c.sent == w.s.round + 1)
    && (w.c.pc.CSpin? && Can(w, ClientSide) ==> w.s.sent == w.c.round + 1)
  }

  lemma SpinReleased(ws: seq<World>, actors: seq<Actor>, iters: nat, clientByte: byte, serverByte: byte, i: nat)
    requires IsRun(ws, actors, iters, clientByte, serverByte) && serverByte != 1 && i < |ws|
    ensures SpinSound(ws[i])
  {
    RunInv(ws, actors, iters, clientByte, serverByte, i);
    Wraps(2 * ws[i].c.round + 1);
  }

  /** The client's write of round `k` carries `2k + 1`, the server's echo `2k + 2`, both modulo 256. */
  lemma RoundBytes(ws: seq<World>, actors: seq<Actor>, iters: nat, clientByte: byte, serverByte: byte, i: nat)
    requires IsRun(ws, actors, iters, clientByte, serverByte) && serverByte != 1 && i < |ws|
    ensures ws[i].c.pc.CFlying? ==> ws[i].c.last == (2 * ws[i].c.round + 1) % 256
    ensures ws[i].s.pc.SFlying? ==> ws[i].s.last == (2 * ws[i].s.round + 2) % 256
  {
    RunInv(ws, actors, iters, clientByte, serverByte, i);
    Wraps(2 * ws[i].s.round + 1);
  }

  /** The condition is needed: the lock-step holds in all runs exactly if the server's first byte is not 1. */
  lemma FirstByteMatters(iters: nat, clientByte: byte, serverByte: byte)
    requires iters > 0
    ensures serverByte != 1 <==>
              forall ws, actors, i ::
                IsRun(ws, actors, iters, clientByte, serverByte) && 0 <= i < |ws| ==> SpinSound(ws[i])
  {
    if serverByte == 1 {
      var w := Init(iters, clientByte, serverByte);
      assert IsRun([w], [], iters, clientByte, serverByte);
      assert !SpinSound([w][0]);
    } else {
      forall ws, actors, i | IsRun(ws, actors, iters, clientByte, serverByte) && 0 <= i < |ws|
        ensures SpinSound(ws[i])
      {
        SpinReleased(ws, actors, iters, clientByte, serverByte, i);
      }
    }
  }

  // -------------------------------------------------------------- progress

  function ClientLeft(pc: ClientPc): nat {
    match pc case CSet => 5 case CPost => 4 case CFlying => 3 case CLanded => 2 case CSpin => 1
  }
  function ServerLeft(pc: ServerPc): nat {
    match pc case SSpin => 5 case SSet => 4 case SPost => 3 case SFlying => 2 case SLanded => 1
  }

  /** Steps still to be taken by the two sides. */
  function StepsLeft(w: World): int {
    (w.iters - w.c.round) * 5 + ClientLeft(w.c.pc) + (w.iters - w.s.round) * 5 + ServerLeft(w.s.pc)
  }

  predicate Finished(w: World) { w.c.round == w.iters && w.s.round == w.iters }

  lemma StepLowers(w: World, a: Actor)
    requires Inv(w) && Can(w, a)
    ensures StepsLeft(Do(w, a)) == StepsLeft(w) - 1
  {
    hide V, Next, Skip, Held;
  }

  lemma SomeoneCan(w: World)
    requires Inv(w) && !Finished(w)
    ensures Can(w, ClientSide) || Can(w, ServerSide) || Can(w, ClientWire) || Can(w, ServerWire)
  {
    hide V, Next, Skip;
    Values(w);
  }

  /** Every step brings the end nearer, and until both sides have done all their rounds some step can be taken. */
  lemma Progress(w: World)
    requires Inv(w)
    ensures Finished(w) <==> forall a :: !Can(w, a)
    ensures forall a :: Can(w, a) ==> StepsLeft(Do(w, a)) == StepsLeft(w) - 1
    ensures StepsLeft(w) >= 10
  {
    hide V, Next, Skip, Held, Do;
    if !Finished(w) { SomeoneCan(w); }
    forall a | Can(w, a) ensures StepsLeft(Do(w, a)) == StepsLeft(w) - 1 { StepLowers(w, a); }
  }

  /** A run that cannot go on has both sides through exactly `iters` rounds, after exactly `10 * iters` steps. */
  lemma BothFinish(ws: seq<World>, actors: seq<Actor>, iters: nat, clientByte: byte, serverByte: byte)
    requires IsRun(ws, actors, iters, clientByte, serverByte) && serverByte != 1
    ensures |actors| <= 10 * iters
    ensures (forall a :: !Can(ws[|actors|], a)) <==> |actors| == 10 * iters
    ensures |actors| == 10 * iters ==>
              var w := ws[|actors|]; w.c.round == w.s.round == w.c.sent == w.s.sent == iters
  {
    CountSteps(ws, actors, iters, clientByte, serverByte, |actors|);
    RunInv(ws, actors, iters, clientByte, serverByte, |actors|);
    Progress(ws[|actors|]);
  }

  lemma {:induction false} CountSteps(ws: seq<World>, actors: seq<Actor>, iters: nat,
                                      clientByte: byte, serverByte: byte, i: nat)
    requires IsRun(ws, actors, iters, clientByte, serverByte) && serverByte != 1 && i < |ws|
    ensures StepsLeft(ws[i]) == 10 * iters + 10 - i
  {
    hide Inv, Can, Do;
    if i > 0 {
      CountSteps(ws, actors, iters, clientByte, serverByte, i - 1);
      RunInv(ws, actors, iters, clientByte, serverByte, i - 1);
      Progress(ws[i - 1]);
    }
  }

  // ------------------------------------------------------------- the loops

  function Replay(w: World, schedule: seq<Actor>): World {
    if schedule == [] then w
    else
      var before := Replay(w, schedule[..|schedule| - 1]);
      var a := schedule[|schedule| - 1];
      if Can(before, a) then Do(before, a) else before
  }

  lemma {:induction false} ReplayKeeps(w: World, schedule: seq<Actor>)
    requires Inv(w)
    ensures Inv(Replay(w, schedule)) && Replay(w, schedule).iters == w.iters
  {
    if schedule != [] {
      ReplayKeeps(w, schedule[..|schedule| - 1]);
      var before, a := Replay(w, schedule[..|schedule| - 1]), schedule[|schedule| - 1];
      if Can(before, a) { StepKeeps(before, a); }
    }
  }

  /** The client's loop: `sentinel` steps by two, each round sets it, writes, polls, and spins for the echo. */
  class ClientLoop {
    var i: nat
    var pc: ClientPc
    var sentinel: byte
    var last: byte
    var sent: nat

    constructor (last: byte)
      ensures State() == Client(0, CSet, 1, last, 0)
    {
      i, pc, sentinel, this.last, sent := 0, CSet, 1, last, 0;
    }

    function State(): Client
      reads this
    {
      Client(i, pc, sentinel, last, sent)
    }

    method Step(iters: nat)
      modifies this
      ensures State() == if old(i) < iters && !old(pc).CFlying? && (old(pc).CSpin? ==> old(last) == Next(old(sentinel)))
                         then ClientStep(old(State())) else old(State())
    {
      if i >= iters {
        return;
      }
      match pc {
        case CSet => last := sentinel; pc := CPost;
        case CPost => pc := CFlying;
        case CFlying =>
        case CLanded => pc := CSpin;
        case CSpin =>
          var echo := (sentinel + 1) % 256;
          if last == echo {
            sentinel := (sentinel + 2) % 256;
            i := i + 1;
            pc := CSet;
          }
      }
    }
  }

  /** The server's loop: spins for `expect`, echoes the next value, and steps by two. */
  class ServerLoop {
    var i: nat
    var pc: ServerPc
    var awaited: byte
    var last: byte
    var sent: nat

    constructor (last: byte)
      ensures State() == Server(0, SSpin, 1, last, 0)
    {
      i, pc, awaited, this.last, sent := 0, SSpin, 1, last, 0;
    }

    function State(): Server
      reads this
    {
      Server(i, pc, awaited, last, sent)
    }

    method Step(iters: nat)
      modifies this
      ensures State() == if old(i) < iters && !old(pc).SFlying? && (old(pc).SSpin? ==> old(last) == old(awaited))
                         then ServerStep(old(State())) else old(State())
    {
      if i >= iters {
        return;
      }
      match pc {
        case SSpin => if last == awaited { pc := SSet; }
        case SSet => last := (awaited + 1) % 256; pc := SPost;
        case SPost => pc := SFlying;
        case SFlying =>
        case SLanded =>
          awaited := (awaited + 2) % 256;
          i := i + 1;
          pc := SSpin;
      }
    }
  }

  function Tried(w: World, a: Actor): World { if Can(w, a) then Do(w, a) else w }

  lemma ReplaySnoc(w: World, schedule: seq<Actor>, a: Actor)
    ensures Replay(w, schedule + [a]) == Tried(Replay(w, schedule), a)
  {
    assert (schedule + [a])[..|schedule|] == schedule;
  }

  /** One side takes its next step, or the device delivers a write; what is not enabled is skipped. */
  method Act(c: ClientLoop, s: ServerLoop, iters: nat, a: Actor)
    modifies c, s
    ensures World(iters, c.State(), s.State()) == Tried(World(iters, old(c.State()), old(s.State())), a)
  {
    match a {
      case ClientSide => c.Step(iters);
      case ServerSide => s.Step(iters);
      case ClientWire =>
        if c.pc.CFlying? {
          s.last := c.last;
          c.pc, c.sent := CLanded, c.sent + 1;
        }
      case ServerWire =>
        if s.pc.SFlying? {
          c.last := s.last;
          s.pc, s.sent := SLanded, s.sent + 1;
        }
    }
  }

  /** Both loops and the device under any schedule. */
  method Play(iters: nat, clientByte: byte, serverByte: byte, schedule: seq<Actor>)
    returns (clientRounds: nat, serverRounds: nat)
    ensures var w := Replay(Init(iters, clientByte, serverByte), schedule);
            clientRounds == w.c.round && serverRounds == w.s.round
    ensures serverByte != 1 ==>
              clientRounds <= iters && serverRounds <= iters
              && clientRounds <= serverRounds + 1 && serverRounds <= clientRounds + 1
  {
    var c := new ClientLoop(clientByte);
    var s := new ServerLoop(serverByte);
    ghost var w0 := Init(iters, clientByte, serverByte);
    for k := 0 to |schedule|
      invariant World(iters, c.State(), s.State()) == Replay(w0, schedule[..k])
    {
      assert schedule[..k + 1] == schedule[..k] + [schedule[k]];
      ReplaySnoc(w0, schedule[..k], schedule[k]);
      Act(c, s, iters, schedule[k]);
    }
    assert schedule[..|schedule|] == schedule;
    if serverByte != 1 { ReplayKeeps(w0, schedule); }
    return c.i, s.i;
  }

  // ------------------------------------------ each loop against the others

  /** What the rest of the world does at each point at which a loop can be interrupted. */
  type Plan = seq<seq<Actor>>

  /** Whatever the others do, a side stays where it is, except that its own write may land. */
  ghost predicate Stays(me: Actor, c: Client, s: Server, c': Client, s': Server) {
    && (me.ClientSide? ==> c'.round == c.round && c'.sentinel == c.sentinel
                           && (c'.pc == c.pc || (c.pc.CFlying? && c'.pc.CLanded?)))
    && (me.ServerSide? ==> s'.round == s.round && s'.awaited == s.awaited
                           && (s'.pc == s.pc || (s.pc.SFlying? && s'.pc.SLanded?)))
  }

  lemma OthersStay(w: World, a: Actor, me: Actor)
    requires a != me
    ensures Stays(me, w.c, w.s, Tried(w, a).c, Tried(w, a).s)
  {}

  lemma StaysPut(me: Actor, c: Client, s: Server)
    ensures Stays(me, c, s, c, s)
  {}

  lemma StaysOn(me: Actor, c: Client, s: Server, c1: Client, s1: Server, c2: Client, s2: Server)
    requires Stays(me, c, s, c1, s1) && Stays(me, c1, s1, c2, s2)
    ensures Stays(me, c, s, c2, s2)
  {}

  function Flat(plan: Plan): seq<Actor> { if plan == [] then [] else plan[0] + Flat(plan[1..]) }

  /** Everyone's steps but those of `me`. */
  function Without(steps: seq<Actor>, me: Actor): seq<Actor> {
    if steps == [] then []
    else Without(steps[..|steps| - 1], me) + if steps[|steps| - 1] == me then [] else [steps[|steps| - 1]]
  }

  lemma {:induction false} WithoutConcat(a: seq<Actor>, b: seq<Actor>, me: Actor)
    ensures Without(a + b, me) == Without(a, me) + Without(b, me)
  {
    if b == [] {
      assert a + b == a;
    } else {
      WithoutConcat(a, b[..|b| - 1], me);
      assert (a + b)[..|a + b| - 1] == a + b[..|b| - 1];
    }
  }

  /** What the others have done, and will. */
  function Foreseen(done: seq<Actor>, rest: Plan, me: Actor): seq<Actor> { Without(done + Flat(rest), me) }

  method Others(c: ClientLoop, s: ServerLoop, iters: nat, plan: Plan, me: Actor, ghost w0: World,
                ghost sofar: seq<Actor>)
    returns (rest: Plan, ghost schedule: seq<Actor>)
    requires World(iters, c.State(), s.State()) == Replay(w0, sofar)
    modifies c, s
    ensures World(iters, c.State(), s.State()) == Replay(w0, schedule)
    ensures Stays(me, old(c.State()), old(s.State()), c.State(), s.State())
    ensures rest == if plan == [] then [] else plan[1..]
    ensures Foreseen(schedule, rest, me) == Foreseen(sofar, plan, me)
  {
    hide Replay, Stays, Without;
    schedule := sofar;
    StaysPut(me, c.State(), s.State());
    if plan == [] {
      return [], sofar;
    }
    rest := plan[1..];
    assert sofar + plan[0][..0] == sofar;
    for k := 0 to |plan[0]|
      invariant World(iters, c.State(), s.State()) == Replay(w0, schedule)
      invariant Stays(me, old(c.State()), old(s.State()), c.State(), s.State())
      invariant Without(schedule, me) == Without(sofar + plan[0][..k], me)
    {
      OneOther(me, schedule, sofar + plan[0][..k], plan[0][k]);
      assert sofar + plan[0][..k + 1] == sofar + plan[0][..k] + [plan[0][k]];
      if plan[0][k] != me {
        ghost var before := World(iters, c.State(), s.State());
        schedule := Move(c, s, iters, plan[0][k], w0, schedule);
        OthersStay(before, plan[0][k], me);
        StaysOn(me, old(c.State()), old(s.State()), before.c, before.s, c.State(), s.State());
      }
    }
    WithoutConcat(schedule, Flat(rest), me);
    WithoutConcat(sofar + plan[0], Flat(rest), me);
    assert plan[0][..|plan[0]|] == plan[0] && sofar + Flat(plan) == sofar + plan[0] + Flat(rest);
  }

  lemma OneOther(me: Actor, a: seq<Actor>, b: seq<Actor>, x: Actor)
    requires Without(a, me) == Without(b, me)
    ensures Without(if x == me then a else a + [x], me) == Without(b + [x], me)
  {
    WithoutConcat(a, [x], me);
    WithoutConcat(b, [x], me);
    assert [x][..0] == [];
  }

  /** One next step. */
  method Move(c: ClientLoop, s: ServerLoop, iters: nat, a: Actor, ghost w0: World, ghost sofar: seq<Actor>)
    returns (ghost schedule: seq<Actor>)
    requires World(iters, c.State(), s.State()) == Replay(w0, sofar)
    modifies c, s
    ensures World(iters, c.State(), s.State()) == Replay(w0, schedule) && schedule == sofar + [a]
    ensures World(iters, c.State(), s.State()) == Tried(World(iters, old(c.State()), old(s.State())), a)
  {
    ReplaySnoc(w0, sofar, a);
    Act(c, s, iters, a);
    schedule := sofar + [a];
  }

  lemma OwnMove(me: Actor, done: seq<Actor>, rest: Plan)
    ensures Foreseen(done + [me], rest, me) == Foreseen(done, rest, me)
  {
    WithoutConcat(done + [me], Flat(rest), me);
    WithoutConcat(done, Flat(rest), me);
    WithoutConcat(done, [me], me);
    assert [me][..0] == [];
  }

  /** `pollOne`: until the own write has been delivered. */
  method Await(c: ClientLoop, s: ServerLoop, iters: nat, plan: Plan, me: Actor, ghost w0: World,
               ghost sofar: seq<Actor>)
    returns (ok: bool, rest: Plan, ghost schedule: seq<Actor>)
    requires World(iters, c.State(), s.State()) == Replay(w0, sofar)
    requires if me.ClientSide? then c.pc.CFlying? || c.pc.CLanded?
             else me.ServerSide? && (s.pc.SFlying? || s.pc.SLanded?)
    modifies c, s
    ensures World(iters, c.State(), s.State()) == Replay(w0, schedule)
    ensures Stays(me, old(c.State()), old(s.State()), c.State(), s.State())
    ensures Foreseen(schedule, rest, me) == Foreseen(sofar, plan, me)
    ensures ok ==> if me.ClientSide? then c.pc.CLanded? else s.pc.SLanded?
    ensures !ok ==> rest == [] && if me.ClientSide? then c.pc.CFlying? else s.pc.SFlying?
  {
    hide Replay;
    rest, schedule := plan, sofar;
    while if me.ClientSide? then c.pc.CFlying? else s.pc.SFlying?
      invariant World(iters, c.State(), s.State()) == Replay(w0, schedule)
      invariant Stays(me, old(c.State()), old(s.State()), c.State(), s.State())
      invariant Foreseen(schedule, rest, me) == Foreseen(sofar, plan, me)
      decreases |rest|
    {
      if rest == [] {
        return false, rest, schedule;
      }
      rest, schedule := Others(c, s, iters, rest, me, w0, schedule);
    }
    ok := true;
  }

  /** The spin on the own last byte, for the echo or for the awaited value. */
  method Spin(c: ClientLoop, s: ServerLoop, iters: nat, plan: Plan, me: Actor, ghost w0: World,
              ghost sofar: seq<Actor>)
    returns (ok: bool, rest: Plan, ghost schedule: seq<Actor>)
    requires World(iters, c.State(), s.State()) == Replay(w0, sofar)
    requires if me.ClientSide? then c.pc.CSpin? else me.ServerSide? && s.pc.SSpin?
    modifies c, s
    ensures World(iters, c.State(), s.State()) == Replay(w0, schedule)
    ensures Stays(me, old(c.State()), old(s.State()), c.State(), s.State())
    ensures Foreseen(schedule, rest, me) == Foreseen(sofar, plan, me)
    ensures if me.ClientSide? then ok <==> c.last == Next(c.sentinel) else ok <==> s.last == s.awaited
    ensures !ok ==> rest == []
  {
    hide Replay, Next;
    rest, schedule := plan, sofar;
    while if me.ClientSide? then c.last != Next(c.sentinel) else s.last != s.awaited
      invariant World(iters, c.State(), s.State()) == Replay(w0, schedule)
      invariant Stays(me, old(c.State()), old(s.State()), c.State(), s.State())
      invariant Foreseen(schedule, rest, me) == Foreseen(sofar, plan, me)
      decreases |rest|
    {
      if rest == [] {
        return false, rest, schedule;
      }
      rest, schedule := Others(c, s, iters, rest, me, w0, schedule);
    }
    ok := true;
  }

  /** The own next step, and what the others do before the one after it. */
  method Turn(c: ClientLoop, s: ServerLoop, iters: nat, plan: Plan, me: Actor, ghost w0: World,
              ghost sofar: seq<Actor>)
    returns (rest: Plan, ghost schedule: seq<Actor>)
    requires World(iters, c.State(), s.State()) == Replay(w0, sofar)
    modifies c, s
    ensures World(iters, c.State(), s.State()) == Replay(w0, schedule)
    ensures var w := Tried(World(iters, old(c.State()), old(s.State())), me);
            Stays(me, w.c, w.s, c.State(), s.State())
    ensures Foreseen(schedule, rest, me) == Foreseen(sofar, plan, me)
  {
    hide Replay, Foreseen, Stays, Can, Do;
    schedule := Move(c, s, iters, me, w0, sofar);
    OwnMove(me, sofar, plan);
    rest, schedule := Others(c, s, iters, plan, me, w0, schedule);
  }

  /** A round of the client: set the sentinel, write, wait for the completion, spin for the echo. */
  method ClientRound(c: ClientLoop, s: ServerLoop, iters: nat, plan: Plan, ghost w0: World, ghost sofar: seq<Actor>)
    returns (done: bool, rest: Plan, ghost schedule: seq<Actor>)
    requires c.i < iters && c.pc.CSet? && World(iters, c.State(), s.State()) == Replay(w0, sofar)
    modifies c, s
    ensures World(iters, c.State(), s.State()) == Replay(w0, schedule)
    ensures if done then c.i == old(c.i) + 1 && c.pc.CSet? else c.i == old(c.i) && rest == [] && ClientWaits(c.State())
    ensures Foreseen(schedule, rest, ClientSide) == Foreseen(sofar, plan, ClientSide)
  {
    hide Replay, ServerStep, Next, Skip, Foreseen;
    rest, schedule := Turn(c, s, iters, plan, ClientSide, w0, sofar); // setSentinel
    rest, schedule := Turn(c, s, iters, rest, ClientSide, w0, schedule); // the write
    done, rest, schedule := Await(c, s, iters, rest, ClientSide, w0, schedule);
    if !done {
      return;
    }
    rest, schedule := Turn(c, s, iters, rest, ClientSide, w0, schedule); // pollOne
    done, rest, schedule := Spin(c, s, iters, rest, ClientSide, w0, schedule);
    if !done {
      NotEchoed(c.State());
      return;
    }
    OwnMove(ClientSide, schedule, rest);
    schedule := Move(c, s, iters, ClientSide, w0, schedule);
  }

  /** A client that waits for the completion of its write, or for an echo that is not there. */
  predicate ClientWaits(c: Client) { c.pc.CFlying? || (c.pc.CSpin? && c.last != (c.sentinel + 1) % 256) }

  /** A server that waits for the completion of its write, or for a byte that is not there. */
  predicate ServerWaits(s: Server) { s.pc.SFlying? || (s.pc.SSpin? && s.last != s.awaited) }

  lemma NotEchoed(c: Client)
    requires c.pc.CSpin? && c.last != Next(c.sentinel)
    ensures ClientWaits(c)
  {}

  /**
   * The client's loop, with the server and the device doing anything at every point. What has happened is the
   * plan, as far as it has been used, around the client's own steps, and a run of the two sides: neither is
   * more than a round ahead. The loop is done exactly after `iters` rounds, and stops before only with the plan
   * used up, at a wait that cannot end.
   */
  method RunClient(iters: nat, clientByte: byte, serverByte: byte, plan: Plan)
    returns (done: bool, clientRounds: nat, serverRounds: nat, rest: Plan, ghost schedule: seq<Actor>)
    ensures var w := Replay(Init(iters, clientByte, serverByte), schedule);
            clientRounds == w.c.round && serverRounds == w.s.round && (!done ==> rest == [] && ClientWaits(w.c))
    ensures Foreseen(schedule, rest, ClientSide) == Without(Flat(plan), ClientSide)
    ensures done <==> clientRounds == iters
    ensures serverByte != 1 ==>
              clientRounds <= iters && serverRounds <= iters
              && clientRounds <= serverRounds + 1 && serverRounds <= clientRounds + 1
  {
    hide Without, Flat, ClientStep, ServerStep;
    var c := new ClientLoop(clientByte);
    var s := new ServerLoop(serverByte);
    ghost var w0 := Init(iters, clientByte, serverByte);
    rest := plan;
    done, schedule := true, [];
    assert [] + Flat(plan) == Flat(plan);
    while c.i < iters
      invariant c.i <= iters && c.pc.CSet? && World(iters, c.State(), s.State()) == Replay(w0, schedule) && done
      invariant Foreseen(schedule, rest, ClientSide) == Without(Flat(plan), ClientSide)
      decreases iters - c.i
    {
      done, rest, schedule := ClientRound(c, s, iters, rest, w0, schedule);
      if !done {
        break;
      }
    }
    clientRounds, serverRounds := c.i, s.i;
    if serverByte != 1 { ReplayKeeps(w0, schedule); }
  }

  /** A round of the server: spin for the awaited value, set the next one, write, wait for the completion. */
  method ServerRound(c: ClientLoop, s: ServerLoop, iters: nat, plan: Plan, ghost w0: World, ghost sofar: seq<Actor>)
    returns (done: bool, rest: Plan, ghost schedule: seq<Actor>)
    requires s.i < iters && s.pc.SSpin? && World(iters, c.State(), s.State()) == Replay(w0, sofar)
    modifies c, s
    ensures World(iters, c.State(), s.State()) == Replay(w0, schedule)
    ensures if done then s.i == old(s.i) + 1 && s.pc.SSpin? else s.i == old(s.i) && rest == [] && ServerWaits(s.State())
    ensures Foreseen(schedule, rest, ServerSide) == Foreseen(sofar, plan, ServerSide)
  {
    hide Replay, ClientStep, Next, Skip, Foreseen;
    rest, schedule := Others(c, s, iters, plan, ServerSide, w0, sofar);
    done, rest, schedule := Spin(c, s, iters, rest, ServerSide, w0, schedule);
    if !done {
      return;
    }
    rest, schedule := Turn(c, s, iters, rest, ServerSide, w0, schedule);
    rest, schedule := Turn(c, s, iters, rest, ServerSide, w0, schedule); // setSentinel
    rest, schedule := Turn(c, s, iters, rest, ServerSide, w0, schedule); // the write
    done, rest, schedule := Await(c, s, iters, rest, ServerSide, w0, schedule);
    if !done {
      return;
    }
    OwnMove(ServerSide, schedule, rest);
    schedule := Move(c, s, iters, ServerSide, w0, schedule); // pollOne
  }

  /** The server's loop, with the client and the device doing anything at every point; likewise. */
  method RunServer(iters: nat, clientByte: byte, serverByte: byte, plan: Plan)
    returns (done: bool, clientRounds: nat, serverRounds: nat, rest: Plan, ghost schedule: seq<Actor>)
    ensures var w := Replay(Init(iters, clientByte, serverByte), schedule);
            clientRounds == w.c.round && serverRounds == w.s.round && (!done ==> rest == [] && ServerWaits(w.s))
    ensures Foreseen(schedule, rest, ServerSide) == Without(Flat(plan), ServerSide)
    ensures done <==> serverRounds == iters
    ensures serverByte != 1 ==>
              clientRounds <= iters && serverRounds <= iters
              && clientRounds <= serverRounds + 1 && serverRounds <= clientRounds + 1
  {
    hide Without, Flat, ClientStep, ServerStep;
    var c := new ClientLoop(clientByte);
    var s := new ServerLoop(serverByte);
    ghost var w0 := Init(iters, clientByte, serverByte);
    rest := plan;
    done, schedule := true, [];
    assert [] + Flat(plan) == Flat(plan);
    while s.i < iters
      invariant s.i <= iters && s.pc.SSpin? && World(iters, c.State(), s.State()) == Replay(w0, schedule) && done
      invariant Foreseen(schedule, rest, ServerSide) == Without(Flat(plan), ServerSide)
      decreases iters - s.i
    {
      done, rest, schedule := ServerRound(c, s, iters, rest, w0, schedule);
      if !done {
        break;
      }
    }
    clientRounds, serverRounds := c.i, s.i;
    if serverByte != 1 { ReplayKeeps(w0, schedule); }
  }
}
