/**
 * Posting sends, one at a time and in chained batches (postwr_linux.go): what each way hands to the device.
 * The device is the list of work requests it has taken; `takes` says how many of a chain it takes.
 */
module PostSend {
  import opened Words

  datatype Opcode = OpSend | OpWrite | OpWriteImm | OpRead | OpOther

  datatype SGE = SGE(addr: nat, length: nat, lkey: nat)

  datatype Option<T> = None | Some(value: T)

  datatype Remote = Remote(addr: nat, rkey: nat)
  datatype Ud = Ud(ah: nat, qpn: nat, qkey: nat)

  datatype SendWR = SendWR(
    wrid: nat, opcode: Opcode, sgl: seq<SGE>, signaled: bool, inlined: bool, imm: uint32,
    remote: Remote, ah: Option<nat>, qpn: nat, qkey: nat)

  datatype Flags = Flags(signaled: bool, inlined: bool)

  /** A work request as the device sees it; fields that stay zero are absent. */
  datatype DeviceWR = DeviceWR(
    wrid: nat, op: Opcode, sges: seq<SGE>, flags: Flags, immBE: uint32, rdma: Option<Remote>, ud: Option<Ud>)

  datatype Outcome = Accepted | ErrClosed | ErrShape | ErrOpcode | ErrDevice

  /** `htonl` on a little-endian host. */
  function NetworkOrder(v: uint32): uint32 {
    v % 0x100 * 0x100_0000 + v / 0x100 % 0x100 * 0x1_0000 + v / 0x1_0000 % 0x100 * 0x100 + v / 0x100_0000
  }

  /** The bytes of a word in memory on a little-endian host. */
  predicate InMemory(v: uint32, b0: int, b1: int, b2: int, b3: int) {
    && 0 <= b0 < 256 && 0 <= b1 < 256 && 0 <= b2 < 256 && 0 <= b3 < 256
    && v == b0 + b1 * 0x100 + b2 * 0x1_0000 + b3 * 0x100_0000
  }

  /** What lies in memory are the bytes of the value, highest first. */
  lemma HighestFirst(v: uint32)
    ensures InMemory(NetworkOrder(v), v / 0x100_0000, v / 0x1_0000 % 0x100, v / 0x100 % 0x100, v % 0x100)
  {}

  /** What `PostSend` submits for one request. */
  function Single(w: SendWR): DeviceWR {
    DeviceWR(w.wrid, w.opcode, w.sgl, Flags(w.signaled, w.inlined), NetworkOrder(w.imm),
             if w.opcode.OpWrite? || w.opcode.OpWriteImm? || w.opcode.OpRead? then Some(w.remote) else None,
             if w.ah.Some? then Some(Ud(w.ah.value, w.qpn, w.qkey)) else None)
  }

  /** Field by field, the request the caller filled in, but for its flags. */
  ghost predicate Carries(d: DeviceWR, w: SendWR) {
    && d.wrid == w.wrid && d.op == w.opcode && d.sges == w.sgl
    && InMemory(d.immBE, w.imm / 0x100_0000, w.imm / 0x1_0000 % 0x100, w.imm / 0x100 % 0x100, w.imm % 0x100)
    && (d.rdma.Some? <==> w.opcode.OpWrite? || w.opcode.OpWriteImm? || w.opcode.OpRead?)
    && (d.rdma.Some? ==> d.rdma.value.addr == w.remote.addr && d.rdma.value.rkey == w.remote.rkey)
    && (d.ud.Some? <==> w.ah.Some?)
    && (d.ud.Some? ==> d.ud.value.ah == w.ah.value && d.ud.value.qpn == w.qpn && d.ud.value.qkey == w.qkey)
  }

  function Singles(ws: seq<SendWR>): (r: seq<DeviceWR>)
    ensures |r| == |ws|
  {
    seq(|ws|, i requires 0 <= i < |ws| => Single(ws[i]))
  }

  /** The requests `PostSendBatch` admits. */
  predicate Plain(w: SendWR, op: Opcode) {
    |w.sgl| == 1 && w.opcode == op && !w.inlined && w.ah.None? && w.imm == 0
  }
  predicate Batchable(ws: seq<SendWR>) {
    ws != [] ==>
      && (forall w :: w in ws ==> Plain(w, ws[0].opcode))
      && (ws[0].opcode.OpSend? || ws[0].opcode.OpWrite? || ws[0].opcode.OpRead?)
  }

  lemma Misshapen(ws: seq<SendWR>)
    ensures ws != [] ==>
              ((exists w :: w in ws && (|w.sgl| != 1 || w.opcode != ws[0].opcode || w.inlined
                                        || w.ah.Some? || w.imm != 0))
               <==> !forall w :: w in ws ==> Plain(w, ws[0].opcode))
  {}

  predicate Uniform(ws: seq<SendWR>) {
    forall w :: w in ws ==> w.signaled == ws[0].signaled
  }

  /** A batch on the device: every request with the flags of the first. */
  function Batched(ws: seq<SendWR>): (r: seq<DeviceWR>)
    ensures |r| == |ws|
  {
    seq(|ws|, i requires 0 <= i < |ws| => Single(ws[i]).(flags := Flags(ws[0].signaled, false)))
  }

  /** An admitted batch puts on the device what single posts would exactly if its requests are uniformly signaled. */
  lemma BatchMatchesSingles(ws: seq<SendWR>)
    requires Batchable(ws)
    ensures Batched(ws) == Singles(ws) <==> Uniform(ws)
  {
    if Uniform(ws) {
      forall i | 0 <= i < |ws| ensures Batched(ws)[i] == Singles(ws)[i] { assert ws[i] in ws; }
    }
    if Batched(ws) == Singles(ws) {
      forall w | w in ws ensures w.signaled == ws[0].signaled {
        var i :| 0 <= i < |ws| && ws[i] == w;
        assert Batched(ws)[i] == Singles(ws)[i];
      }
    }
  }

  lemma BatchCarries(ws: seq<SendWR>)
    ensures forall i :: 0 <= i < |ws| ==>
              Carries(Batched(ws)[i], ws[i]) && Batched(ws)[i].flags == Flags(ws[0].signaled, false)
  {
    forall i | 0 <= i < |ws| ensures Carries(Batched(ws)[i], ws[i]) { HighestFirst(ws[i].imm); }
  }

  // ------------------------------------------------------- the chain in C

  /** One entry of the array `post_send_batch` allocates, linked to the next by index. */
  datatype Entry = Entry(wrid: nat, sge: SGE, op: Opcode, flags: Flags, rdma: Option<Remote>, next: Option<nat>)

  function OnDevice(e: Entry): DeviceWR {
    DeviceWR(e.wrid, e.op, [e.sge], e.flags, 0, e.rdma, None)
  }

  /** What the device reads following the links from entry `i`. */
  function Chain(es: seq<Entry>, i: nat): seq<DeviceWR>
    decreases |es| - i
  {
    if i >= |es| then []
    else [OnDevice(es[i])] +
         (if es[i].next.Some? && es[i].next.value > i then Chain(es, es[i].next.value) else [])
  }

  /** Entry by entry, each links to the next and the last to nothing. */
  predicate InRow(es: seq<Entry>) {
    forall j :: 0 <= j < |es| ==> es[j].next == if j + 1 < |es| then Some(j + 1) else None
  }

  function Entries(es: seq<Entry>): (r: seq<DeviceWR>)
    ensures |r| == |es|
  {
    seq(|es|, k requires 0 <= k < |es| => OnDevice(es[k]))
  }

  lemma ChainStep(es: seq<Entry>, i: nat)
    requires i < |es| && InRow(es)
    ensures Chain(es, i) == [Entries(es)[i]] + if i + 1 < |es| then Chain(es, i + 1) else []
  {
    hide OnDevice;
    assert es[i].next == if i + 1 < |es| then Some(i + 1) else None;
  }

  /** Following the links from entry `i` visits it and all behind it once, in order. */
  lemma {:induction false} ChainWhole(es: seq<Entry>, i: nat)
    requires i < |es| && InRow(es)
    ensures Chain(es, i) == Entries(es)[i..]
    decreases |es| - i
  {
    hide Chain, OnDevice, InRow, Entries;
    ChainStep(es, i);
    if i + 1 < |es| { ChainWhole(es, i + 1); }
  }

  /** What a device takes of a chain when it takes at most `n`. */
  function AtMost(chain: seq<DeviceWR>, n: nat): seq<DeviceWR> {
    if n < |chain| then chain[..n] else chain
  }

  class QP {
    var open: bool
    var device: seq<DeviceWR>
    // batchScratch
    var wrid: array<nat>
    var addr: array<nat>
    var length: array<nat>
    var lkey: array<nat>
    var raddr: array<nat>
    var rkey: array<nat>

    ghost predicate Scratch()
      reads this`wrid, this`addr, this`length, this`lkey, this`raddr, this`rkey
    {
      && wrid.Length == addr.Length == length.Length == lkey.Length == raddr.Length == rkey.Length
      && wrid != addr && wrid != length && wrid != lkey && wrid != raddr && wrid != rkey
      && addr != length && addr != lkey && addr != raddr && addr != rkey
      && length != lkey && length != raddr && length != rkey
      && lkey != raddr && lkey != rkey && raddr != rkey
    }

    ghost function Arrays(): set<object>
      reads this`wrid, this`addr, this`length, this`lkey, this`raddr, this`rkey
    {
      {wrid, addr, length, lkey, raddr, rkey}
    }

    constructor ()
      ensures Scratch() && fresh(Arrays()) && open && device == []
    {
      open, device := true, [];
      wrid, addr, length := new nat[0], new nat[0], new nat[0];
      lkey, raddr, rkey := new nat[0], new nat[0], new nat[0];
    }

    /** `ensure`: room for `n` entries, growing all six arrays together; what they held is not needed. */
    method Ensure(n: nat)
      requires Scratch()
      modifies this`wrid, this`addr, this`length, this`lkey, this`raddr, this`rkey
      ensures Scratch() && wrid.Length >= n
      ensures if old(wrid.Length) >= n then Arrays() == old(Arrays()) else fresh(Arrays())
    {
      if wrid.Length >= n {
        return;
      }
      wrid, addr, length := new nat[n], new nat[n], new nat[n];
      lkey, raddr, rkey := new nat[n], new nat[n], new nat[n];
    }

    /** Row `i` of the scratch holds request `w`. */
    ghost predicate Row(i: nat, w: SendWR)
      requires Scratch() && i < wrid.Length && |w.sgl| == 1
      reads this, Arrays()
    {
      && wrid[i] == w.wrid && addr[i] == w.sgl[0].addr && length[i] == w.sgl[0].length && lkey[i] == w.sgl[0].lkey
      && raddr[i] == w.remote.addr && rkey[i] == w.remote.rkey
    }

    /** `PostSend`. */
    method Post(w: SendWR, takes: bool) returns (r: Outcome)
      modifies this`device
      ensures r == if !open then ErrClosed else if w.opcode.OpOther? || !takes then ErrDevice else Accepted
      ensures device == old(device) + if r.Accepted? then [Single(w)] else []
      ensures r.Accepted? ==> var d := device[|old(device)|];
                              Carries(d, w) && d.flags.signaled == w.signaled && d.flags.inlined == w.inlined
    {
      HighestFirst(w.imm);
      if !open {
        return ErrClosed;
      }
      var rdma := None;
      match w.opcode {
        case OpOther => return ErrDevice;
        case OpSend =>
        case _ => rdma := Some(w.remote);
      }
      var ud := None;
      if w.ah.Some? { ud := Some(Ud(w.ah.value, w.qpn, w.qkey)); }
      if !takes {
        return ErrDevice;
      }
      var flags := Flags(w.signaled, w.inlined);
      device := device + [DeviceWR(w.wrid, w.opcode, w.sgl, flags, NetworkOrder(w.imm), rdma, ud)];
      r := Accepted;
    }

    /**
     * `PostSendBatch`. A batch outside the shape touches nothing; an admitted one reaches the device as a
     * chain, of which a failing device may already have taken the first `takes`.
     */
    method PostBatch(ws: seq<SendWR>, takes: nat) returns (r: Outcome)
      requires Scratch()
      modifies this, Arrays()
      ensures Scratch() && open == old(open) && (Arrays() == old(Arrays()) || fresh(Arrays()))
      ensures r.ErrClosed? <==> !old(open)
      ensures r.ErrShape? <==>
                old(open) && exists w :: w in ws && (|w.sgl| != 1 || w.opcode != ws[0].opcode || w.inlined
                                                     || w.ah.Some? || w.imm != 0)
      ensures r.ErrOpcode? <==> old(open) && !r.ErrShape? && ws != []
                                && (ws[0].opcode.OpWriteImm? || ws[0].opcode.OpOther?)
      ensures r.ErrShape? || r.ErrOpcode? <==> old(open) && !Batchable(ws)
      ensures r.Accepted? <==> old(open) && Batchable(ws) && takes >= |ws|
      ensures device == old(device) + if old(open) && Batchable(ws) then AtMost(Batched(ws), takes) else []
      ensures r.Accepted? || r.ErrDevice? ==>
                var n := |old(device)|;
                && |device| == n + (if takes < |ws| then takes else |ws|)
                && forall i :: n <= i < |device| ==>
                     Carries(device[i], ws[i - n]) && device[i].flags.signaled == ws[0].signaled
                     && !device[i].flags.inlined
    {
      hide Batched, Row, Plain, Scratch, Carries;
      if !open {
        return ErrClosed;
      }
      Misshapen(ws);
      if |ws| == 0 {
        return Accepted;
      }
      var op := ws[0].opcode;
      var shaped := CheckShape(ws, op);
      if !shaped {
        return ErrShape;
      }
      if !(op.OpSend? || op.OpWrite? || op.OpRead?) {
        return ErrOpcode;
      }
      Ensure(|ws|);
      var chain := Marshal(ws, op);
      BatchCarries(ws);
      device := device + AtMost(chain, takes);
      r := if takes < |ws| then ErrDevice else Accepted;
    }

    /** The rows are filled in and handed to `post_send_batch`. */
    method Marshal(ws: seq<SendWR>, op: Opcode) returns (chain: seq<DeviceWR>)
      requires Scratch() && 0 < |ws| <= wrid.Length && forall w :: w in ws ==> Plain(w, op)
      requires op.OpSend? || op.OpWrite? || op.OpRead?
      modifies Arrays()
      ensures chain == Batched(ws)
    {
      hide Batched, Row;
      assert forall j :: 0 <= j < |ws| ==> ws[j] in ws && Plain(ws[j], op);
      FillScratch(ws);
      chain := BuildChain(ws, |ws|, op, Flags(ws[0].signaled, false));
    }

    method CheckShape(ws: seq<SendWR>, op: Opcode) returns (ok: bool)
      ensures ok <==> forall w :: w in ws ==> Plain(w, op)
    {
      for i := 0 to |ws|
        invariant forall j :: 0 <= j < i ==> Plain(ws[j], op)
      {
        if |ws[i].sgl| != 1 || ws[i].opcode != op || ws[i].inlined || ws[i].ah.Some? || ws[i].imm != 0 {
          assert ws[i] in ws && !Plain(ws[i], op);
          return false;
        }
      }
      ok := true;
    }

    method FillScratch(ws: seq<SendWR>)
      requires Scratch() && wrid.Length >= |ws| && forall j :: 0 <= j < |ws| ==> |ws[j].sgl| == 1
      modifies Arrays()
      ensures forall j :: 0 <= j < |ws| ==> Row(j, ws[j])
    {
      for i := 0 to |ws|
        invariant forall j :: 0 <= j < i ==> Row(j, ws[j])
      {
        var w := ws[i];
        wrid[i], addr[i], length[i], lkey[i] := w.wrid, w.sgl[0].addr, w.sgl[0].length, w.sgl[0].lkey;
        raddr[i], rkey[i] := w.remote.addr, w.remote.rkey;
      }
    }

    /** The loop of `post_send_batch`: it sees only the first `n` rows of the scratch. */
    method BuildChain(ghost ws: seq<SendWR>, n: nat, op: Opcode, flags: Flags) returns (chain: seq<DeviceWR>)
      requires Scratch() && 0 < n == |ws| <= wrid.Length && flags == Flags(ws[0].signaled, false)
      requires op.OpSend? || op.OpWrite? || op.OpRead?
      requires forall j :: 0 <= j < n ==> Plain(ws[j], op) && Row(j, ws[j])
      ensures chain == Batched(ws)
    {
      hide Linked, Single, Batched, Chain;
      var es := new Entry[n](_ => Entry(0, SGE(0, 0, 0), OpSend, Flags(false, false), None, None));
      for i := 0 to n
        invariant forall j :: 0 <= j < i ==> Linked(es[j], j, ws[j], n, flags)
      {
        EntryLinked(i, ws[i], op, n, flags);
        var rdma := if op.OpWrite? || op.OpRead? then Some(Remote(raddr[i], rkey[i])) else None;
        var next := if i + 1 < n then Some(i + 1) else None;
        es[i] := Entry(wrid[i], SGE(addr[i], length[i], lkey[i]), op, flags, rdma, next);
      }
      ChainIsBatch(es[..], ws, flags);
      chain := Chain(es[..], 0);
    }
  }

  /** Entry `j` of the chain submits request `w` and links to the next one. */
  ghost predicate Linked(e: Entry, j: nat, w: SendWR, n: nat, flags: Flags) {
    && |w.sgl| == 1 && w.imm == 0 && w.ah.None?
    && OnDevice(e).(sges := w.sgl) == Single(w).(flags := flags) && e.sge == w.sgl[0]
    && e.next == if j + 1 < n then Some(j + 1) else None
  }

  lemma EntryLinked(j: nat, w: SendWR, op: Opcode, n: nat, flags: Flags)
    requires Plain(w, op) && (op.OpSend? || op.OpWrite? || op.OpRead?)
    ensures Linked(Entry(w.wrid, SGE(w.sgl[0].addr, w.sgl[0].length, w.sgl[0].lkey), op, flags,
                         if op.OpWrite? || op.OpRead? then Some(Remote(w.remote.addr, w.remote.rkey)) else None,
                         if j + 1 < n then Some(j + 1) else None), j, w, n, flags)
  {}

  lemma ChainIsBatch(es: seq<Entry>, ws: seq<SendWR>, flags: Flags)
    requires 0 < |ws| == |es| && flags == Flags(ws[0].signaled, false)
    requires forall j :: 0 <= j < |es| ==> Linked(es[j], j, ws[j], |ws|, flags)
    ensures Chain(es, 0) == Batched(ws)
  {
    assert InRow(es) by {
      forall j | 0 <= j < |es| ensures es[j].next == if j + 1 < |es| then Some(j + 1) else None {
        assert Linked(es[j], j, ws[j], |ws|, flags);
      }
    }
    ChainWhole(es, 0);
    assert Entries(es)[0..] == Entries(es);
    forall k | 0 <= k < |es| ensures Chain(es, 0)[k] == Batched(ws)[k] {
      assert Linked(es[k], k, ws[k], |ws|, flags);
      assert ws[k].sgl == [ws[k].sgl[0]];
    }
  }
}
