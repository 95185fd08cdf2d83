/** Wire framing, fragmentation and reassembly of the RC data path (rdmanet/framing.go). */
module Framing {
  import opened Words

  const HEADER_SIZE: nat := 8

  // ---------------------------------------------------------------- headers

  /** The decoded header: one flag byte (bit 0 more, bit 1 credit, bit 2 fin) and one word. */
  datatype Header = Header(flags: byte, value: uint32) {
    predicate HasMore() { flags % 2 == 1 }
    predicate IsCredit() { (flags / 2) % 2 == 1 }
    predicate IsFin() { (flags / 4) % 2 == 1 }
  }

  /** The eight header bytes: flags, three zero bytes, the value in big-endian order. */
  function HeaderBytes(h: Header): (r: Bytes)
    ensures |r| == HEADER_SIZE
  {
    [h.flags, 0, 0, 0,
     h.value / 0x100_0000, h.value / 0x1_0000 % 256, h.value / 0x100 % 256, h.value % 256]
  }

  datatype Decoded = FrameTooShort | Decoded(header: Header)

  function DecodeHeader(buf: Bytes): Decoded {
    if |buf| < HEADER_SIZE then FrameTooShort
    else
      var b3: int, b2: int, b1: int, b0: int := buf[4], buf[5], buf[6], buf[7];
      Decoded(Header(buf[0], b3 * 0x100_0000 + b2 * 0x1_0000 + b1 * 0x100 + b0))
  }

  /** Writes the header at `off`, leaving every other byte of the ring alone. */
  method Encode(h: Header, buf: array<byte>, off: nat)
    requires off + HEADER_SIZE <= buf.Length
    modifies buf
    ensures buf[..] == old(buf[..off]) + HeaderBytes(h) + old(buf[off + HEADER_SIZE..])
  {
    buf[off] := h.flags;
    buf[off + 1] := 0;
    buf[off + 2] := 0;
    buf[off + 3] := 0;
    buf[off + 4] := h.value / 0x100_0000;
    buf[off + 5] := h.value / 0x1_0000 % 256;
    buf[off + 6] := h.value / 0x100 % 256;
    buf[off + 7] := h.value % 256;
    assert buf[..off] == old(buf[..off]);
    assert buf[off..off + HEADER_SIZE] == HeaderBytes(h);
    assert buf[off + HEADER_SIZE..] == old(buf[off + HEADER_SIZE..]);
    assert buf[..] == buf[..off] + buf[off..off + HEADER_SIZE] + buf[off + HEADER_SIZE..];
  }

  /** Decoding what was encoded gives the header back, whatever bytes follow it. */
  lemma HeaderRoundTrip(h: Header, rest: Bytes)
    ensures DecodeHeader(HeaderBytes(h) + rest) == Decoded(h)
  {
    var v := h.value;
    assert v / 0x1_0000 == v / 0x100_0000 * 256 + v / 0x1_0000 % 256;
    assert v / 0x100 == v / 0x1_0000 * 256 + v / 0x100 % 256;
    assert v == v / 0x100 * 256 + v % 256;
  }

  // ----------------------------------------------------------------- frames

  /** What one SEND carries. */
  datatype Frame = Data(payload: Bytes, more: bool) | Credit(n: nat) | Fin

  /** The length or count of the frame fits the header's 32-bit word. */
  predicate FitsHeader(f: Frame) {
    match f
    case Data(p, _) => |p| < 0x1_0000_0000
    case Credit(n) => n < 0x1_0000_0000
    case Fin => true
  }

  function HeaderOf(f: Frame): Header
    requires FitsHeader(f)
  {
    match f
    case Data(p, more) => Header(if more then 1 else 0, |p|)
    case Credit(n) => Header(2, n)
    case Fin => Header(4, 0)
  }

  /** The bytes a frame puts on the wire: exactly the span its scatter entry covers. */
  function FrameBytes(f: Frame): Bytes
    requires FitsHeader(f)
  {
    HeaderBytes(HeaderOf(f)) + if f.Data? then f.payload else []
  }

  /** The wire format: a flag byte, three zeros, the length or count with its highest byte first, the payload. */
  lemma FrameLayout(f: Frame)
    requires FitsHeader(f)
    ensures var b := FrameBytes(f);
            && |b| >= 8 && b[1] == b[2] == b[3] == 0
            && b[0] == (match f case Data(_, more) => if more then 1 else 0 case Credit(_) => 2 case Fin => 4)
            && BigEndian(b[4..8]) == (match f case Data(p, _) => |p| case Credit(n) => n case Fin => 0)
            && b[8..] == (if f.Data? then f.payload else [])
  {
    var v := HeaderOf(f).value;
    assert v / 0x1_0000 == v / 0x100_0000 * 256 + v / 0x1_0000 % 256;
    assert v / 0x100 == v / 0x1_0000 * 256 + v / 0x100 % 256;
    assert FrameBytes(f)[4..8] == [v / 0x100_0000, v / 0x1_0000 % 256, v / 0x100 % 256, v % 256];
    FourBytes(v / 0x100_0000, v / 0x1_0000 % 256, v / 0x100 % 256, v % 256);
  }

  lemma FourBytes(a: byte, b: byte, c: byte, d: byte)
    ensures BigEndian([a, b, c, d]) == ((a as int * 256 + b) * 256 + c) * 256 + d
  {
    assert [a, b, c, d][..3] == [a, b, c] && [a, b, c][..2] == [a, b] && [a, b][..1] == [a] && [a][..0] == [];
    assert BigEndian([a]) == a && BigEndian([a, b]) == a as int * 256 + b;
  }

  /** The number written with its highest byte first. */
  function BigEndian(b: Bytes): nat {
    if b == [] then 0 else 256 * BigEndian(b[..|b| - 1]) + b[|b| - 1] as int
  }

  // ---------------------------------------------------------- fragmentation

  /** Frames needed for a message; an empty message still takes one. */
  function FragmentCount(msgLen: nat, chunk: int): (r: nat)
    ensures (chunk > 0) == (r > 0)
  {
    if chunk <= 0 then 0
    else if msgLen == 0 then 1
    else
      DivideUp(msgLen, chunk);
      (msgLen + chunk - 1) / chunk
  }

  lemma DivideUp(n: nat, d: nat)
    requires n > 0 && d > 0
    ensures var r := (n + d - 1) / d; r >= 1 && (r - 1) * d < n <= r * d
  {
    var r := (n + d - 1) / d;
    assert r * d <= n + d - 1 < r * d + d;
    assert (r - 1) * d == r * d - d;
  }

  /** The count is the least one: it covers the message and one frame fewer would not. */
  lemma FragmentCountIsLeast(msgLen: nat, chunk: nat)
    requires chunk > 0
    ensures var r := FragmentCount(msgLen, chunk);
            (r - 1) * chunk <= msgLen <= r * chunk && (r > 1 ==> (r - 1) * chunk < msgLen)
  {
    if msgLen > 0 { DivideUp(msgLen, chunk); }
  }

  /** Fragment `i` of a message. */
  function Fragment(m: Bytes, chunk: nat, i: nat): Frame
    requires chunk > 0 && i < FragmentCount(|m|, chunk)
  {
    FragmentBounds(m, chunk, i);
    var end := if (i + 1) * chunk > |m| then |m| else (i + 1) * chunk;
    Data(m[i * chunk..end], i < FragmentCount(|m|, chunk) - 1)
  }

  lemma FragmentBounds(m: Bytes, chunk: nat, i: nat)
    requires chunk > 0 && i < FragmentCount(|m|, chunk)
    ensures 0 <= i * chunk <= |m|
    ensures i * chunk <= (i + 1) * chunk
    ensures i < FragmentCount(|m|, chunk) - 1 ==> (i + 1) * chunk <= |m|
    ensures i == FragmentCount(|m|, chunk) - 1 ==> (i + 1) * chunk >= |m|
  {
    var n := FragmentCount(|m|, chunk);
    FragmentCountIsLeast(|m|, chunk);
    MulMonotone(i, n - 1, chunk);
    if i < n - 1 { MulMonotone(i + 1, n - 1, chunk); }
    assert (i + 1) * chunk == i * chunk + chunk;
  }

  lemma MulMonotone(a: nat, b: nat, c: nat)
    requires a <= b
    ensures 0 <= a * c <= b * c
  {
    assert b * c == a * c + (b - a) * c;
  }

  /** All frames of one message, in order. */
  function FramesOf(m: Bytes, chunk: nat): (r: seq<Frame>)
    requires chunk > 0
    ensures |r| == FragmentCount(|m|, chunk) >= 1
  {
    seq(FragmentCount(|m|, chunk), i requires 0 <= i < FragmentCount(|m|, chunk) => Fragment(m, chunk, i))
  }

  /** All frames of a list of messages. */
  function AllFrames(msgs: seq<Bytes>, chunk: nat): seq<Frame>
    requires chunk > 0
  {
    if msgs == [] then []
    else AllFrames(msgs[..|msgs| - 1], chunk) + FramesOf(msgs[|msgs| - 1], chunk)
  }

  // ------------------------------------------------------------- reassembly

  datatype Reasm = Reasm(buf: Bytes, active: bool)
  datatype Added = Incomplete | Complete(msg: Bytes) | TooLarge

  /** One `add`: the new accumulator and what the call returns. A `max` of zero or less is no limit. */
  function AddFragment(r: Reasm, max: int, payload: Bytes, more: bool): (Reasm, Added) {
    if max > 0 && |r.buf| + |payload| > max then (Reasm([], false), TooLarge)
    else if more then (Reasm(r.buf + payload, true), Incomplete)
    else (Reasm([], false), Complete(r.buf + payload))
  }

  /** The inbound fragment accumulator. */
  class Reassembler {
    var buf: Bytes
    const max: int
    var active: bool

    constructor (max: int)
      ensures this.max == max && State() == Reasm([], false)
    {
      this.max := max;
      buf, active := [], false;
    }

    function State(): Reasm
      reads this
    {
      Reasm(buf, active)
    }

    method Add(payload: Bytes, more: bool) returns (r: Added)
      modifies this
      ensures (State(), r) == AddFragment(old(State()), max, payload, more)
      ensures r.TooLarge? <==> max > 0 && |old(buf)| + |payload| > max
      ensures if r.Incomplete? then more && active && buf == old(buf) + payload else !active && buf == []
      ensures r.Complete? ==> !more && r.msg == old(buf) + payload
    {
      if max > 0 && |buf| + |payload| > max {
        buf := [];
        active := false;
        return TooLarge;
      }
      buf := buf + payload;
      active := true;
      if more {
        return Incomplete;
      }
      r := Complete(buf);
      buf := [];
      active := false;
    }
  }

  /** The messages completed by a sequence of data frames, and the accumulator left over. */
  datatype Assembly = Assembly(msgs: seq<Bytes>, rest: Reasm)

  function Assemble(fs: seq<Frame>): Assembly {
    if fs == [] then Assembly([], Reasm([], false))
    else AssembleNext(Assemble(fs[..|fs| - 1]), fs[|fs| - 1])
  }

  function AssembleNext(a: Assembly, f: Frame): Assembly {
    if !f.Data? then a
    else if f.more then a.(rest := Reasm(a.rest.buf + f.payload, true))
    else Assembly(a.msgs + [a.rest.buf + f.payload], Reasm([], false))
  }

  lemma AssembleSnoc(fs: seq<Frame>, f: Frame)
    ensures Assemble(fs + [f]) == AssembleNext(Assemble(fs), f)
  {
    assert (fs + [f])[..|fs|] == fs;
  }

  lemma AllFramesSnoc(msgs: seq<Bytes>, m: Bytes, chunk: nat)
    requires chunk > 0
    ensures AllFrames(msgs + [m], chunk) == AllFrames(msgs, chunk) + FramesOf(m, chunk)
  {
    assert (msgs + [m])[..|msgs|] == msgs;
  }

  lemma {:induction false} AllFramesConcat(a: seq<Bytes>, b: seq<Bytes>, chunk: nat)
    requires chunk > 0
    ensures AllFrames(a + b, chunk) == AllFrames(a, chunk) + AllFrames(b, chunk)
  {
    if b == [] {
      assert a + b == a;
    } else {
      var init, m := b[..|b| - 1], b[|b| - 1];
      AllFramesConcat(a, init, chunk);
      assert b == init + [m];
      AllFramesConcatSnoc(a, init, m, chunk);
    }
  }

  lemma AllFramesConcatSnoc(a: seq<Bytes>, b: seq<Bytes>, m: Bytes, chunk: nat)
    requires chunk > 0 && AllFrames(a + b, chunk) == AllFrames(a, chunk) + AllFrames(b, chunk)
    ensures AllFrames(a + (b + [m]), chunk) == AllFrames(a, chunk) + AllFrames(b + [m], chunk)
  {
    hide AllFrames, FramesOf;
    assert a + (b + [m]) == (a + b) + [m];
    AllFramesSnoc(a + b, m, chunk);
    AllFramesSnoc(b, m, chunk);
  }

  /** One more fragment extends the bytes received by exactly that fragment's bytes. */
  lemma FragmentExtends(m: Bytes, chunk: nat, k: nat)
    requires chunk > 0 && k < FragmentCount(|m|, chunk)
    ensures 0 <= k * chunk <= |m|
    ensures var f := Fragment(m, chunk, k);
            && f.Data? && (f.more <==> k + 1 < FragmentCount(|m|, chunk))
            && (f.more ==> (k + 1) * chunk <= |m|)
            && m[..k * chunk] + f.payload == if f.more then m[..(k + 1) * chunk] else m
  {
    FragmentBounds(m, chunk, k);
  }

  /** What reassembling `k` fragments of `m` leaves, after `before` with nothing left over. */
  function Partial(before: Assembly, m: Bytes, chunk: nat, k: nat): Assembly
    requires chunk > 0 && k <= FragmentCount(|m|, chunk)
  {
    if k == FragmentCount(|m|, chunk) then Assembly(before.msgs + [m], Reasm([], false))
    else
      FragmentExtends(m, chunk, k);
      Assembly(before.msgs, Reasm(m[..k * chunk], k > 0))
  }

  /** Feeding the first `k` fragments of `m` after complete messages leaves exactly the bytes sent so far. */
  lemma {:induction false} AssembleWithin(fs: seq<Frame>, m: Bytes, chunk: nat, k: nat)
    requires chunk > 0 && k <= FragmentCount(|m|, chunk)
    requires Assemble(fs).rest == Reasm([], false)
    ensures Assemble(fs + FramesOf(m, chunk)[..k]) == Partial(Assemble(fs), m, chunk, k)
  {
    hide Assemble, FragmentCount, Fragment;
    if k == 0 {
      assert fs + FramesOf(m, chunk)[..0] == fs;
      assert m[..0 * chunk] == [];
    } else {
      AssembleWithin(fs, m, chunk, k - 1);
      FragmentExtends(m, chunk, k - 1);
      var f := Fragment(m, chunk, k - 1);
      var sofar := fs + FramesOf(m, chunk)[..k - 1];
      assert fs + FramesOf(m, chunk)[..k] == sofar + [f];
      AssembleSnoc(sofar, f);
    }
  }

  /** An assembly that has got through some of `msgs` and holds a prefix of the next one. */
  predicate Within(a: Assembly, msgs: seq<Bytes>) {
    && a.msgs <= msgs
    && (!a.rest.active ==> a.rest.buf == [])
    && (a.rest.active ==> |a.msgs| < |msgs| && a.rest.buf <= msgs[|a.msgs|])
  }

  lemma PartialWithin(init: seq<Bytes>, m: Bytes, chunk: nat, k: nat)
    requires chunk > 0 && k <= FragmentCount(|m|, chunk)
    ensures Within(Partial(Assembly(init, Reasm([], false)), m, chunk, k), init + [m])
    ensures k == FragmentCount(|m|, chunk) ==>
              Partial(Assembly(init, Reasm([], false)), m, chunk, k) == Assembly(init + [m], Reasm([], false))
  {
    hide FragmentCount;
    if k < FragmentCount(|m|, chunk) { FragmentExtends(m, chunk, k); }
  }

  lemma NoFrames(chunk: nat)
    requires chunk > 0
    ensures AllFrames([], chunk) == [] && Assemble([]) == Assembly([], Reasm([], false))
  {}

  /**
   * Any prefix of the frames of `msgs` reassembles to a prefix of `msgs`; what is left over is a
   * proper prefix of the next message, cut at a fragment boundary.
   */
  lemma {:induction false} AssemblePrefix(msgs: seq<Bytes>, chunk: nat, fs: seq<Frame>)
    requires chunk > 0
    requires fs <= AllFrames(msgs, chunk)
    ensures Within(Assemble(fs), msgs)
    ensures fs == AllFrames(msgs, chunk) ==> Assemble(fs) == Assembly(msgs, Reasm([], false))
  {
    hide Assemble, AllFrames, FramesOf, FragmentCount, Partial;
    NoFrames(chunk);
    if msgs != [] {
      var init, m := msgs[..|msgs| - 1], msgs[|msgs| - 1];
      var before := AllFrames(init, chunk);
      assert msgs == init + [m];
      AllFramesSnoc(init, m, chunk);
      if |fs| < |before| {
        assert fs <= before;
        AssemblePrefix(init, chunk, fs);
      } else {
        var k := |fs| - |before|;
        AssemblePrefix(init, chunk, before);
        assert fs == before + FramesOf(m, chunk)[..k];
        AssembleWithin(before, m, chunk, k);
        PartialWithin(init, m, chunk, k);
      }
    }
  }

  /** Fragmenting and reassembling any list of messages, empty ones included, is the identity. */
  lemma ReassemblyRoundTrip(msgs: seq<Bytes>, chunk: nat)
    requires chunk > 0
    ensures Assemble(AllFrames(msgs, chunk)) == Assembly(msgs, Reasm([], false))
  {
    AssemblePrefix(msgs, chunk, AllFrames(msgs, chunk));
  }

  /** The size guard never trips on the frames of messages that respect the limit. */
  lemma GuardNeverTrips(msgs: seq<Bytes>, chunk: nat, fs: seq<Frame>, f: Frame, max: int)
    requires chunk > 0 && f.Data?
    requires fs + [f] <= AllFrames(msgs, chunk)
    requires forall m :: m in msgs ==> |m| <= max
    ensures AddFragment(Assemble(fs).rest, max, f.payload, f.more).1 != TooLarge
    ensures AddFragment(Assemble(fs).rest, max, f.payload, f.more).0 == Assemble(fs + [f]).rest
    ensures Assemble(fs + [f]).msgs ==
            Assemble(fs).msgs + if f.more then [] else [Assemble(fs).rest.buf + f.payload]
  {
    AssemblePrefix(msgs, chunk, fs + [f]);
    AssembleSnoc(fs, f);
    var a := Assemble(fs);
    if f.more {
      assert a.rest.buf + f.payload <= msgs[|a.msgs|];
    } else {
      assert a.msgs + [a.rest.buf + f.payload] <= msgs;
      assert msgs[|a.msgs|] == a.rest.buf + f.payload;
    }
  }

  /** Reassembling more frames only adds messages. */
  lemma {:induction false} AssembleMonotone(a: seq<Frame>, b: seq<Frame>)
    ensures Assemble(a).msgs <= Assemble(a + b).msgs
  {
    if b == [] {
      assert a + b == a;
    } else {
      var k := |b| - 1;
      AssembleMonotone(a, b[..k]);
      assert a + b == (a + b[..k]) + [b[k]];
      AssembleSnoc(a + b[..k], b[k]);
    }
  }

  /** A stream that starts with all frames of some messages has delivered them. */
  lemma AssembleCovers(msgs: seq<Bytes>, chunk: nat, fs: seq<Frame>)
    requires chunk > 0 && AllFrames(msgs, chunk) <= fs
    ensures msgs <= Assemble(fs).msgs
  {
    var first := AllFrames(msgs, chunk);
    ReassemblyRoundTrip(msgs, chunk);
    AssembleMonotone(first, fs[|first|..]);
    assert fs == first + fs[|first|..];
  }

  // ------------------------------------------------- projections of streams

  /** The data frames of a stream. */
  function DataOf(fs: seq<Frame>): (r: seq<Frame>)
    ensures |r| <= |fs|
    ensures forall f :: f in r ==> f.Data?
  {
    if fs == [] then []
    else DataOf(fs[..|fs| - 1]) + if fs[|fs| - 1].Data? then [fs[|fs| - 1]] else []
  }

  /** `a` is `b` with some of its elements left out. */
  ghost predicate Subsequence<T>(a: seq<T>, b: seq<T>)
    decreases |b|
  {
    a == []
    || (b != [] && (Subsequence(a, b[..|b| - 1])
                    || (a[|a| - 1] == b[|b| - 1] && Subsequence(a[..|a| - 1], b[..|b| - 1]))))
  }

  lemma SubsequenceSkip<T>(a: seq<T>, b: seq<T>, x: T)
    requires Subsequence(a, b)
    ensures Subsequence(a, b + [x])
  {
    assert (b + [x])[..|b|] == b;
  }

  lemma SubsequenceBoth<T>(a: seq<T>, b: seq<T>, x: T)
    requires Subsequence(a, b)
    ensures Subsequence(a + [x], b + [x])
  {
    assert (b + [x])[..|b|] == b && (a + [x])[..|a|] == a;
  }

  lemma {:induction false} SubsequenceIn<T>(a: seq<T>, b: seq<T>, x: T)
    requires Subsequence(a, b) && x in a
    ensures x in b
    decreases |b|
  {
    var init := b[..|b| - 1];
    assert b == init + [b[|b| - 1]];
    if Subsequence(a, init) {
      SubsequenceIn(a, init, x);
    } else if x != b[|b| - 1] {
      assert a == a[..|a| - 1] + [a[|a| - 1]];
      SubsequenceIn(a[..|a| - 1], init, x);
    }
  }

  lemma {:induction false} SubsequenceConcat<T>(a: seq<T>, b: seq<T>, c: seq<T>)
    requires Subsequence(a, b)
    ensures Subsequence(a + c, b + c)
    decreases |c|
  {
    if c == [] {
      assert a + c == a && b + c == b;
    } else {
      var init, x := c[..|c| - 1], c[|c| - 1];
      SubsequenceConcat(a, b, init);
      SubsequenceBoth(a + init, b + init, x);
      assert c == init + [x] && a + init + [x] == a + c && b + init + [x] == b + c;
    }
  }

  lemma {:induction false} SubsequenceTrans<T>(a: seq<T>, b: seq<T>, c: seq<T>)
    requires Subsequence(a, b) && Subsequence(b, c)
    ensures Subsequence(a, c)
    decreases |b| + |c|
  {
    if a != [] {
      var init := c[..|c| - 1];
      if Subsequence(b, init) {
        SubsequenceTrans(a, b, init);
      } else if Subsequence(a, b[..|b| - 1]) {
        SubsequenceTrans(a, b[..|b| - 1], init);
      } else {
        SubsequenceTrans(a[..|a| - 1], b[..|b| - 1], init);
      }
    }
  }

  /** Leaving out the end as well. */
  lemma {:induction false} SubsequencePrefix<T>(a: seq<T>, q: seq<T>, b: seq<T>)
    requires Subsequence(a + q, b)
    ensures Subsequence(a, b)
    decreases |q| + |b|
  {
    if q == [] {
      assert a + q == a;
    } else {
      var init := b[..|b| - 1];
      if Subsequence(a + q, init) {
        SubsequencePrefix(a, q, init);
      } else {
        assert (a + q)[..|a + q| - 1] == a + q[..|q| - 1];
        SubsequencePrefix(a, q[..|q| - 1], init);
      }
    }
  }

  lemma {:induction false} SubsequenceOfLonger<T>(a: seq<T>, b: seq<T>, c: seq<T>)
    requires Subsequence(a, b) && b <= c
    ensures Subsequence(a, c)
    decreases |c|
  {
    if |b| < |c| {
      SubsequenceOfLonger(a, b, c[..|c| - 1]);
    } else {
      assert b == c;
    }
  }

  /** The credits carried by a stream. */
  function CreditSum(fs: seq<Frame>): nat {
    if fs == [] then 0
    else CreditSum(fs[..|fs| - 1]) + if fs[|fs| - 1].Credit? then fs[|fs| - 1].n else 0
  }

  lemma {:induction false} ProjectConcat(a: seq<Frame>, b: seq<Frame>)
    ensures DataOf(a + b) == DataOf(a) + DataOf(b)
    ensures CreditSum(a + b) == CreditSum(a) + CreditSum(b)
  {
    if b == [] {
      assert a + b == a;
    } else {
      hide DataOf, CreditSum;
      var init, f := b[..|b| - 1], b[|b| - 1];
      assert b == init + [f] && a + b == (a + init) + [f];
      ProjectConcat(a, init);
      ProjectSnoc(init, f);
      ProjectSnoc(a + init, f);
    }
  }

  /** What one more frame, or one frame fewer, changes. */
  lemma ProjectSnoc(a: seq<Frame>, f: Frame)
    ensures DataOf(a + [f]) == DataOf(a) + if f.Data? then [f] else []
    ensures CreditSum(a + [f]) == CreditSum(a) + if f.Credit? then f.n else 0
  {
    assert (a + [f])[..|a|] == a;
  }

  lemma ProjectHead(a: seq<Frame>)
    requires a != []
    ensures DataOf(a) == (if a[0].Data? then [a[0]] else []) + DataOf(a[1..])
    ensures CreditSum(a) == (if a[0].Credit? then a[0].n else 0) + CreditSum(a[1..])
  {
    assert a == [a[0]] + a[1..];
    ProjectConcat([a[0]], a[1..]);
    ProjectSnoc([], a[0]);
    assert [] + [a[0]] == [a[0]];
  }
}
