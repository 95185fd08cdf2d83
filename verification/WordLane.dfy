/**
 * The sentinel byte seen through the aligned 32-bit word that contains it (perftest/write.go, lines 53-82),
 * on a little-endian host.
 */
module WordLane {

  /** Byte `lane` of a word: shift by `8 * lane`, keep the low byte. */
  function Lane(word: bv32, lane: nat): bv32
    requires lane < 4
  {
    match lane
    case 0 => word & 0xff
    case 1 => (word >> 8) & 0xff
    case 2 => (word >> 16) & 0xff
    case _ => (word >> 24) & 0xff
  }

  /** The word with that byte cleared, then set to `v`. */
  function WithLane(word: bv32, lane: nat, v: bv32): bv32
    requires lane < 4
  {
    match lane
    case 0 => (word & 0xffff_ff00) | v
    case 1 => (word & 0xffff_00ff) | (v << 8)
    case 2 => (word & 0xff00_ffff) | (v << 16)
    case _ => (word & 0x00ff_ffff) | (v << 24)
  }

  /** Reading back what was written gives it, and the other three bytes of the word are kept. */
  lemma LaneRoundTrip(word: bv32, lane: nat, other: nat, v: bv32)
    requires lane < 4 && other < 4 && v <= 0xff
    ensures Lane(WithLane(word, lane, v), lane) == v
    ensures other != lane ==> Lane(WithLane(word, lane, v), other) == Lane(word, other)
  {
    hide Lane, WithLane;
    if lane == 0 { LaneZero(word, v); }
    if lane == 1 { LaneOne(word, v); }
    if lane == 2 { LaneTwo(word, v); }
    if lane == 3 { LaneThree(word, v); }
    assert other == 0 || other == 1 || other == 2 || other == 3;
  }

  /** Lane 0 is the lowest byte, as on a little-endian host. */
  lemma LanesMakeWord(word: bv32)
    ensures word == Lane(word, 0) | (Lane(word, 1) << 8) | (Lane(word, 2) << 16) | (Lane(word, 3) << 24)
    ensures forall lane :: 0 <= lane < 4 ==> Lane(word, lane) <= 0xff
  {}

  lemma LaneZero(word: bv32, v: bv32)
    requires v <= 0xff
    ensures var w := WithLane(word, 0, v);
            Lane(w, 0) == v && Lane(w, 1) == Lane(word, 1) && Lane(w, 2) == Lane(word, 2) && Lane(w, 3) == Lane(word, 3)
  {}

  lemma LaneOne(word: bv32, v: bv32)
    requires v <= 0xff
    ensures var w := WithLane(word, 1, v);
            Lane(w, 1) == v && Lane(w, 0) == Lane(word, 0) && Lane(w, 2) == Lane(word, 2) && Lane(w, 3) == Lane(word, 3)
  {}

  lemma LaneTwo(word: bv32, v: bv32)
    requires v <= 0xff
    ensures var w := WithLane(word, 2, v);
            Lane(w, 2) == v && Lane(w, 0) == Lane(word, 0) && Lane(w, 1) == Lane(word, 1) && Lane(w, 3) == Lane(word, 3)
  {}

  lemma LaneThree(word: bv32, v: bv32)
    requires v <= 0xff
    ensures var w := WithLane(word, 3, v);
            Lane(w, 3) == v && Lane(w, 0) == Lane(word, 0) && Lane(w, 1) == Lane(word, 1) && Lane(w, 2) == Lane(word, 2)
  {}

  /** `last &^ 3` and `last & 3`: the aligned word of the last byte of `size`, and the byte within it. */
  function WordIndex(size: nat): nat
    requires size > 0
  {
    (size - 1) / 4 * 4
  }

  function RoundedUp(size: nat): nat { (size + 3) / 4 * 4 }

  /** The checks of `RunWriteLat` on the buffer. */
  method CheckBuffer(size: int, length: nat) returns (ok: bool)
    ensures ok <==> size >= 1 && RoundedUp(size) <= length
  {
    if length < size || size < 1 {
      return false;
    }
    WordEnd(size);
    ok := WordIndex(size) + 4 <= length;
  }

  /** The word ends where the size rounded up to four does, so any buffer that long will do, whatever the size. */
  lemma WordEnd(size: nat)
    requires size > 0
    ensures WordIndex(size) + 4 == RoundedUp(size) && WordIndex(size) <= size - 1 < WordIndex(size) + 4
    ensures size <= RoundedUp(size) < size + 4 && RoundedUp(size) % 4 == 0
  {}

  /** The shared word; the peer's device may overwrite it at any moment. */
  class Word {
    var value: bv32
    ghost var landed: seq<bv32> // the peer's writes so far

    constructor (value: bv32)
      ensures this.value == value && landed == []
    {
      this.value := value;
      landed := [];
    }

    method GetSentinel(lane: nat) returns (b: bv32)
      requires lane < 4
      ensures b == Lane(value, lane)
    {
      b := Lane(value, lane);
    }

    method CompareAndSwap(old0: bv32, new0: bv32) returns (ok: bool)
      modifies this`value
      ensures ok == (old(value) == old0)
      ensures value == if ok then new0 else old(value)
    {
      ok := value == old0;
      if ok { value := new0; }
    }

    /** The peer's next write lands, if there is one. */
    method Land(writes: seq<bv32>) returns (rest: seq<bv32>)
      modifies this
      ensures rest == (if writes == [] then [] else writes[1..])
      ensures landed == old(landed) + writes[..|writes| - |rest|]
      ensures value == if writes == [] then old(value) else writes[0]
    {
      rest := [];
      if writes != [] {
        value := writes[0];
        rest := writes[1..];
        landed := landed + [value];
      }
    }

    /** The word as the last of the writes that have landed since left it. */
    twostate predicate AsLanded(word: bv32)
      reads this
    {
      && old(landed) <= landed
      && word == if |landed| > |old(landed)| then landed[|landed| - 1] else old(value)
    }

    /** Whether the byte of the word, or of some write to come, is the one awaited. */
    ghost predicate Comes(lane: nat, awaited: bv32, writes: seq<bv32>)
      requires lane < 4
      reads this
    {
      Lane(value, lane) == awaited || exists w :: w in writes && Lane(w, lane) == awaited
    }

    /**
     * One round of the server: spin until the peer's write brings the awaited byte, then echo the next one.
     * The spin ends exactly if such a write comes, and the echo then sets that byte and no other.
     */
    method Echo(lane: nat, awaited: bv32, writes: seq<bv32>)
      returns (done: bool, rest: seq<bv32>, ghost base: bv32)
      requires lane < 4 && awaited <= 0xff
      modifies this
      ensures done == old(Comes(lane, awaited, writes))
      ensures AsLanded(base) && landed + rest == old(landed) + writes
      ensures done ==> value == WithLane(base, lane, (awaited + 1) & 0xff)
      ensures done ==> Lane(value, lane) == (awaited + 1) & 0xff
      ensures !done ==> rest == [] && value == base
    {
      hide Lane, WithLane;
      rest := writes;
      var b := GetSentinel(lane);
      while b != awaited
        invariant b == Lane(value, lane) && AsLanded(value)
        invariant Comes(lane, awaited, rest) == old(Comes(lane, awaited, writes))
        invariant landed + rest == old(landed) + writes
        decreases |rest|
      {
        if rest == [] {
          return false, rest, value;
        }
        ghost var was := rest;
        rest := Land(rest);
        assert was == [value] + rest && was[..1] == [value];
        b := GetSentinel(lane);
      }
      ghost var before := landed;
      rest, base := SetSentinel(lane, (awaited + 1) & 0xff, rest);
      LaneRoundTrip(base, lane, lane, (awaited + 1) & 0xff);
      done := true;
    }

    /**
     * The loop of `setSentinel`; `writes` are the peer's writes that land between a load and the swap. The
     * byte ends up set, and every other byte is that of the word as the last write to land left it: none is lost.
     */
    method SetSentinel(lane: nat, v: bv32, writes: seq<bv32>) returns (rest: seq<bv32>, ghost base: bv32)
      requires lane < 4
      modifies this
      ensures value == WithLane(base, lane, v) && AsLanded(base)
      ensures landed + rest == old(landed) + writes
    {
      hide WithLane;
      rest := writes;
      while true
        invariant AsLanded(value) && landed + rest == old(landed) + writes
        decreases |rest|
      {
        var old0 := value;
        var next := WithLane(old0, lane, v);
        var none := rest == [];
        ghost var was := rest;
        rest := Land(rest);
        assert was != [] ==> was == [value] + rest && was[..1] == [value];
        var before := value;
        var ok := CompareAndSwap(old0, next);
        if ok {
          return rest, before;
        }
        assert !none;
      }
    }
  }
}
