/**
 * The registered bounce-buffer rings: byte arrays cut into slots of equal size, and what it means for
 * them to hold frames (rdmanet/transport_linux.go, lines 399-423 and 527-547 write them; lines 293-307
 * and 574-577 read them).
 */
module Rings {
  import opened Words

  import opened Framing

  /** Slot `i` starts with the bytes of `f`; what follows them in the slot is stale. */
  ghost predicate Holds(buf: Bytes, size: nat, i: nat, f: Frame) {
    && FitsHeader(f) && |FrameBytes(f)| <= size
    && 0 <= i * size && i * size + size <= |buf|
    && buf[i * size..i * size + |FrameBytes(f)|] == FrameBytes(f)
  }

  ghost predicate Ring(buf: Bytes, size: nat, mem: seq<Frame>) {
    && |buf| == |mem| * size
    && forall i :: 0 <= i < |mem| ==> Holds(buf, size, i, mem[i])
  }

  /** Slots do not overlap. */
  lemma SlotSpan(i: nat, j: nat, size: nat)
    requires i < j
    ensures 0 <= i * size && i * size + size <= j * size
  {
    MulMonotone(i + 1, j, size);
    assert (i + 1) * size == i * size + size;
  }

  function Splice(buf: Bytes, off: nat, p: Bytes): (r: Bytes)
    requires off + |p| <= |buf|
    ensures |r| == |buf|
  {
    buf[..off] + p + buf[off + |p|..]
  }

  lemma SpliceSplice(buf: Bytes, off: nat, p: Bytes, q: Bytes)
    requires off + |p| + |q| <= |buf|
    ensures Splice(Splice(buf, off, p), off + |p|, q) == Splice(buf, off, p + q)
  {}

  lemma HoldsSpliced(buf: Bytes, size: nat, i: nat, f: Frame, j: nat, g: Frame)
    requires Holds(buf, size, i, f) && i != j
    requires FitsHeader(g) && |FrameBytes(g)| <= size && 0 <= j * size && j * size + size <= |buf|
    ensures Holds(Splice(buf, j * size, FrameBytes(g)), size, i, f)
  {
    if i < j { SlotSpan(i, j, size); } else { SlotSpan(j, i, size); }
    var b := Splice(buf, j * size, FrameBytes(g));
    var lo, hi := i * size, i * size + |FrameBytes(f)|;
    assert forall k :: lo <= k < hi ==> b[k] == buf[k];
    assert b[lo..hi] == buf[lo..hi];
  }

  /** Writing a frame at the start of a slot changes that slot and no other. */
  lemma RingWrite(buf: Bytes, size: nat, mem: seq<Frame>, j: nat, g: Frame)
    requires Ring(buf, size, mem) && j < |mem| && FitsHeader(g) && |FrameBytes(g)| <= size
    ensures 0 <= j * size && j * size + size <= |buf|
    ensures Ring(Splice(buf, j * size, FrameBytes(g)), size, mem[j := g])
  {
    SlotSpan(j, |mem|, size);
    var b := Splice(buf, j * size, FrameBytes(g));
    var mem' := mem[j := g];
    assert b[j * size..j * size + |FrameBytes(g)|] == FrameBytes(g);
    forall i | 0 <= i < |mem|
      ensures Holds(b, size, i, mem'[i])
    {
      if i != j { HoldsSpliced(buf, size, i, mem[i], j, g); }
    }
  }

  /** What the poller decodes at the start of a slot, and what the receiver slices out behind it. */
  lemma RingRead(buf: Bytes, size: nat, mem: seq<Frame>, i: nat)
    requires Ring(buf, size, mem) && i < |mem|
    ensures 0 <= i * size && i * size + size <= |buf| && FitsHeader(mem[i])
    ensures DecodeHeader(buf[i * size..]) == Decoded(HeaderOf(mem[i]))
    ensures buf[i * size..i * size + |FrameBytes(mem[i])|] == FrameBytes(mem[i])
    ensures HEADER_SIZE <= |FrameBytes(mem[i])| <= size
    ensures mem[i].Data? ==> var lo := i * size + HEADER_SIZE;
                             lo + |mem[i].payload| <= |buf| && buf[lo..lo + |mem[i].payload|] == mem[i].payload
  {
    assert Holds(buf, size, i, mem[i]);
    var f, off := mem[i], i * size;
    var n := |FrameBytes(f)|;
    var rest: Bytes := (if f.Data? then f.payload else []) + buf[off + n..];
    assert buf[off..] == buf[off..off + n] + buf[off + n..];
    assert buf[off..] == HeaderBytes(HeaderOf(f)) + rest;
    HeaderRoundTrip(HeaderOf(f), rest);
    if f.Data? {
      assert f.payload == FrameBytes(f)[HEADER_SIZE..];
      assert buf[off + HEADER_SIZE..off + n] == buf[off..off + n][HEADER_SIZE..];
    }
  }

  /** A fresh, zeroed ring reads as empty data frames. */
  lemma RingZero(buf: Bytes, size: nat, n: nat)
    requires size >= HEADER_SIZE && |buf| == n * size && forall k :: 0 <= k < |buf| ==> buf[k] == 0
    ensures Ring(buf, size, Blank(n))
  {
    var f := Data([], false);
    assert FrameBytes(f) == [0, 0, 0, 0, 0, 0, 0, 0];
    forall i | 0 <= i < n
      ensures Holds(buf, size, i, f)
    {
      SlotSpan(i, n, size);
      assert buf[i * size..i * size + HEADER_SIZE] == FrameBytes(f);
    }
  }

  /** What zeroed slots read as. */
  ghost function Blank(n: nat): seq<Frame> { seq(n, _ => Data([], false)) }

  /** Registering a ring hands out zeroed memory. */
  method NewRing(n: nat, size: nat) returns (a: array<byte>)
    requires size >= HEADER_SIZE
    ensures fresh(a) && Ring(a[..], size, Blank(n))
  {
    MulMonotone(0, n, size);
    a := new byte[n * size](_ => 0);
    RingZero(a[..], size, n);
  }

  /** `copy`. */
  method Copy(p: Bytes, buf: array<byte>, off: nat)
    requires off + |p| <= buf.Length
    modifies buf
    ensures buf[..] == Splice(old(buf[..]), off, p)
  {
    forall k | 0 <= k < |p| {
      buf[off + k] := p[k];
    }
  }

  /** Header and payload of one frame, written in place. */
  method WriteFrame(h: Header, payload: Bytes, buf: array<byte>, off: nat)
    requires off + HEADER_SIZE + |payload| <= buf.Length
    modifies buf
    ensures buf[..] == Splice(old(buf[..]), off, HeaderBytes(h) + payload)
  {
    ghost var before := buf[..];
    Encode(h, buf, off);
    assert buf[..] == Splice(before, off, HeaderBytes(h));
    Copy(payload, buf, off + HEADER_SIZE);
    SpliceSplice(before, off, HeaderBytes(h), payload);
  }
}
