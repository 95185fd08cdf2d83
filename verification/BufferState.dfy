/**
 * The lifecycle word of a zero-copy buffer (rdmanet/buffer.go) under every interleaving of the loads,
 * compare-and-swaps and swaps of any number of threads. A thread whose `beginSend` succeeded owes one
 * `completeSend`; `release` may be called by anyone at any time.
 */
module BufferState {

  datatype Word = Idle | InFlight | Released

  /** Where a thread is: outside, between the load and the swap, before the re-read, or owning the buffer. */
  datatype Pc = Ready | AboutToSwap | LostRace(saw: Word) | Owner

  datatype Error = ErrInFlight | ErrReleased | Nil

  /** The next atomic instruction of one thread; `Load` starts a `beginSend`. */
  datatype Instr = Load(tid: nat) | Swap(tid: nat) | Reread(tid: nat) | Complete(tid: nat) | Release(tid: nat)

  /** The word, every thread, and how many calls have succeeded so far. */
  datatype World = World(word: Word, threads: seq<Pc>, begun: nat, completed: nat, released: nat)

  predicate Can(w: World, i: Instr) {
    && i.tid < |w.threads|
    && match i
       case Load(t) => w.threads[t].Ready?
       case Swap(t) => w.threads[t].AboutToSwap?
       case Reread(t) => w.threads[t].LostRace?
       case Complete(t) => w.threads[t].Owner?
       case Release(t) => true
  }

  function At(w: World, t: nat, pc: Pc): World
    requires t < |w.threads|
  {
    w.(threads := w.threads[t := pc])
  }

  function Do(w: World, i: Instr): World
    requires Can(w, i)
  {
    match i
    case Load(t) => if w.word.Idle? then At(w, t, AboutToSwap) else w
    case Swap(t) =>
      if w.word.Idle? then At(w, t, Owner).(word := InFlight, begun := w.begun + 1) else At(w, t, LostRace(w.word))
    case Reread(t) => At(w, t, Ready)
    case Complete(t) =>
      At(w, t, Ready).(word := if w.word.InFlight? then Idle else w.word, completed := w.completed + 1)
    case Release(t) =>
      w.(word := Released, released := w.released + if w.word.Released? then 0 else 1)
  }

  function Owners(ts: seq<Pc>): nat {
    if ts == [] then 0 else Owners(ts[..|ts| - 1]) + if ts[|ts| - 1].Owner? then 1 else 0
  }

  lemma {:induction false} OwnersUpdate(ts: seq<Pc>, t: nat, pc: Pc)
    requires t < |ts|
    ensures Owners(ts[t := pc]) + (if ts[t].Owner? then 1 else 0) == Owners(ts) + if pc.Owner? then 1 else 0
  {
    var k := |ts| - 1;
    var ts' := ts[t := pc];
    if t < k {
      OwnersUpdate(ts[..k], t, pc);
      assert ts'[..k] == ts[..k][t := pc];
    } else {
      assert ts'[..k] == ts[..k];
    }
  }

  lemma {:induction false} NobodyOwns(n: nat)
    ensures Owners(seq(n, _ => Ready)) == 0
  {
    if n > 0 {
      NobodyOwns(n - 1);
      assert seq(n, _ => Ready)[..n - 1] == seq(n - 1, _ => Ready);
    }
  }

  /** One owner at most, none while idle, one while in flight; one successful release once released. */
  ghost predicate Inv(w: World) {
    && Owners(w.threads) <= 1
    && (w.word.Idle? ==> Owners(w.threads) == 0)
    && (w.word.InFlight? ==> Owners(w.threads) == 1)
    && w.begun == w.completed + Owners(w.threads)
    && w.released == (if w.word.Released? then 1 else 0)
    && forall t :: 0 <= t < |w.threads| && w.threads[t].LostRace? ==>
         !w.threads[t].saw.Idle? && (w.threads[t].saw.Released? ==> w.word.Released?)
  }

  lemma InstrKeeps(w: World, i: Instr)
    requires Inv(w) && Can(w, i)
    ensures Inv(Do(w, i))
    ensures w.word.Released? ==> Do(w, i).word.Released?
  {
    var t := i.tid;
    var w' := Do(w, i);
    OwnersUpdate(w.threads, t, w'.threads[t]);
    assert w'.threads == w.threads[t := w'.threads[t]];
  }

  /** Any schedule, from a fresh buffer. */
  ghost predicate IsRun(ws: seq<World>, prog: seq<Instr>) {
    && |ws| == |prog| + 1
    && ws[0] == World(Idle, seq(|ws[0].threads|, _ => Ready), 0, 0, 0)
    && forall k :: 0 <= k < |prog| ==> Can(ws[k], prog[k]) && ws[k + 1] == Do(ws[k], prog[k])
  }

  lemma {:induction false} RunInv(ws: seq<World>, prog: seq<Instr>, k: nat)
    requires IsRun(ws, prog) && k < |ws|
    ensures Inv(ws[k])
  {
    if k == 0 {
      NobodyOwns(|ws[0].threads|);
    } else {
      RunInv(ws, prog, k - 1);
      InstrKeeps(ws[k - 1], prog[k - 1]);
    }
  }

  lemma {:induction false} OwnersSome(ts: seq<Pc>, t: nat)
    requires t < |ts| && ts[t].Owner?
    ensures Owners(ts) >= 1
  {
    if t < |ts| - 1 { OwnersSome(ts[..|ts| - 1], t); }
  }

  lemma {:induction false} OwnersTwo(ts: seq<Pc>, t: nat, u: nat)
    requires t < u < |ts| && ts[t].Owner? && ts[u].Owner?
    ensures Owners(ts) >= 2
  {
    var k := |ts| - 1;
    if u < k { OwnersTwo(ts[..k], t, u); } else { OwnersSome(ts[..k], t); }
  }

  /** At most one thread owns the buffer at any time, and none acquires it after a release. */
  lemma OneOwner(ws: seq<World>, prog: seq<Instr>, k: nat, t: nat, u: nat)
    requires IsRun(ws, prog) && k < |ws| && t < u < |ws[k].threads|
    ensures !(ws[k].threads[t].Owner? && ws[k].threads[u].Owner?)
  {
    RunInv(ws, prog, k);
    if ws[k].threads[t].Owner? && ws[k].threads[u].Owner? { OwnersTwo(ws[k].threads, t, u); }
  }

  /** Released is never left: no send begins any more, and of all calls to `release` exactly one succeeded. */
  lemma {:induction false} ReleasedForGood(ws: seq<World>, prog: seq<Instr>, j: nat, k: nat)
    requires IsRun(ws, prog) && j <= k < |ws| && ws[j].word.Released?
    ensures ws[k].word.Released? && ws[k].begun == ws[j].begun && ws[k].released == 1
  {
    RunInv(ws, prog, k);
    if j < k {
      ReleasedForGood(ws, prog, j, k - 1);
    }
  }

  /** What `beginSend` returns where it does not go on: after the first load, and after the re-read. */
  function LoadError(w: World): Error {
    match w.word case Idle => Nil case InFlight => ErrInFlight case Released => ErrReleased
  }
  function RereadError(w: World): Error { if w.word.Released? then ErrReleased else ErrInFlight }

  /** Even after a lost race the error is right: released only if released, in flight only if it was in flight then. */
  lemma RereadExact(ws: seq<World>, prog: seq<Instr>, k: nat)
    requires IsRun(ws, prog) && k < |prog| && prog[k].Reread?
    ensures var saw := ws[k].threads[prog[k].tid].saw;
            && (RereadError(ws[k]).ErrReleased? ==> ws[k].word.Released?)
            && (RereadError(ws[k]).ErrInFlight? ==> saw.InFlight?)
  {
    RunInv(ws, prog, k);
  }

  /** The object: its word, and for each thread where it is; each method is one atomic instruction. */
  class Buffer {
    var word: Word
    var threads: seq<Pc>
    ghost var world: World

    ghost predicate Valid()
      reads this
    {
      Inv(world) && world.word == word && world.threads == threads
    }

    constructor (n: nat)
      ensures Valid() && world == World(Idle, seq(n, _ => Ready), 0, 0, 0)
    {
      NobodyOwns(n);
      word, threads := Idle, seq(n, _ => Ready);
      world := World(Idle, seq(n, _ => Ready), 0, 0, 0);
    }

    ghost method Record(i: Instr)
      requires Inv(world) && Can(world, i)
      modifies this`world
      ensures Inv(world) && world == Do(old(world), i)
    {
      InstrKeeps(world, i);
      world := Do(world, i);
    }

    method LoadWord(t: nat) returns (err: Error)
      requires Valid() && Can(world, Load(t))
      modifies this
      ensures Valid() && world == Do(old(world), Load(t)) && err == LoadError(old(world))
    {
      match word {
        case Released => err := ErrReleased;
        case InFlight => err := ErrInFlight;
        case Idle => threads := threads[t := AboutToSwap]; err := Nil;
      }
      Record(Load(t));
    }

    method CompareAndSwap(t: nat) returns (ok: bool)
      requires Valid() && Can(world, Swap(t))
      modifies this
      ensures Valid() && world == Do(old(world), Swap(t)) && ok == threads[t].Owner?
    {
      ok := word.Idle?;
      threads := threads[t := if ok then Owner else LostRace(word)];
      if ok { word := InFlight; }
      Record(Swap(t));
    }

    method LoadAgain(t: nat) returns (err: Error)
      requires Valid() && Can(world, Reread(t))
      modifies this
      ensures Valid() && world == Do(old(world), Reread(t)) && err == RereadError(old(world))
    {
      threads := threads[t := Ready];
      err := if word.Released? then ErrReleased else ErrInFlight;
      Record(Reread(t));
    }

    method CompleteSend(t: nat)
      requires Valid() && Can(world, Complete(t))
      modifies this
      ensures Valid() && world == Do(old(world), Complete(t))
    {
      if word.InFlight? { word := Idle; }
      threads := threads[t := Ready];
      Record(Complete(t));
    }

    method ReleaseBuffer(t: nat) returns (err: Error)
      requires Valid() && Can(world, Release(t))
      modifies this
      ensures Valid() && world == Do(old(world), Release(t))
      ensures err == if world.released == old(world).released then ErrReleased else Nil
      ensures word.Released? && (err.ErrReleased? <==> old(word).Released?)
    {
      err := if word.Released? then ErrReleased else Nil;
      word := Released;
      Record(Release(t));
    }

    /** Other threads run between two instructions of `me`; what cannot run is skipped. */
    method RunOthers(prog: seq<Instr>, me: nat)
      requires Valid() && me < |threads|
      modifies this
      ensures Valid() && |threads| == |old(threads)| && threads[me] == old(threads[me])
      ensures old(word).Released? ==> word.Released?
      ensures prog == [] ==> word == old(word)
    {
      for k := 0 to |prog|
        invariant Valid() && |threads| == |old(threads)| && threads[me] == old(threads[me])
        invariant old(word).Released? ==> word.Released?
        invariant k == 0 ==> word == old(word)
      {
        var i := prog[k];
        if i.tid != me && i.tid < |threads| && Can(World(word, threads, 0, 0, 0), i) {
          match i {
            case Load(t) => var _ := LoadWord(t);
            case Swap(t) => var _ := CompareAndSwap(t);
            case Reread(t) => var _ := LoadAgain(t);
            case Complete(t) => CompleteSend(t);
            case Release(t) => var _ := ReleaseBuffer(t);
          }
        }
      }
    }

    /** `beginSend`, with anything the other threads do between its instructions. */
    method BeginSend(me: nat, first: seq<Instr>, second: seq<Instr>) returns (err: Error)
      requires Valid() && me < |threads| && threads[me].Ready?
      modifies this
      ensures Valid() && |threads| == |old(threads)|
      ensures err.Nil? ==> threads[me].Owner? && Owners(threads) == 1 && word.InFlight?
      ensures !err.Nil? ==> threads[me].Ready?
      ensures !err.Nil? ==> (err.ErrReleased? <==> word.Released?)
      ensures old(word).Released? ==> err.ErrReleased?
      ensures old(word).InFlight? ==> err.ErrInFlight?
      ensures old(word).Idle? && first == [] ==> err.Nil?
    {
      err := LoadWord(me);
      if !err.Nil? {
        return;
      }
      RunOthers(first, me);
      var ok := CompareAndSwap(me);
      if ok {
        return Nil;
      }
      RunOthers(second, me);
      err := LoadAgain(me);
    }
  }
}
