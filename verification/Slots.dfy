/** Queues of slot numbers: how often a slot occurs in one, and the frames it leads to. */
module Slots {
  import opened Framing
  import opened Endpoint

  /** How often a slot occurs in a queue. */
  function Count(q: seq<nat>, x: nat): nat {
    if q == [] then 0 else Count(q[..|q| - 1], x) + if q[|q| - 1] == x then 1 else 0
  }

  lemma CountSnoc(q: seq<nat>, y: nat, x: nat)
    ensures Count(q + [y], x) == Count(q, x) + if x == y then 1 else 0
  {
    assert (q + [y])[..|q|] == q;
  }

  lemma {:induction false} CountHead(q: seq<nat>, x: nat)
    requires q != []
    ensures Count(q, x) == Count(q[1..], x) + if x == q[0] then 1 else 0
  {
    var k := |q| - 1;
    if k == 0 {
      assert q[..0] == [] && q[1..] == [];
    } else {
      CountHead(q[..k], x);
      assert q[..k][1..] == q[1..][..k - 1];
    }
  }

  lemma {:induction false} CountIn(q: seq<nat>, x: nat)
    ensures x in q <==> Count(q, x) > 0
  {
    if q != [] {
      CountIn(q[..|q| - 1], x);
      assert q == q[..|q| - 1] + [q[|q| - 1]];
    }
  }

  lemma {:induction false} CountConcat(p: seq<nat>, q: seq<nat>, x: nat)
    ensures Count(p + q, x) == Count(p, x) + Count(q, x)
  {
    if q == [] {
      assert p + q == p;
    } else {
      var k := |q| - 1;
      assert (p + q)[..|p + q| - 1] == p + q[..k];
      CountConcat(p, q[..k], x);
    }
  }

  lemma CountOne(y: nat, x: nat)
    ensures Count([y], x) == if x == y then 1 else 0
    ensures Count([], x) == 0
  {
    CountSnoc([], y, x);
    assert [] + [y] == [y];
  }

  lemma RangeOnce(lo: nat, hi: nat, x: nat)
    requires lo <= hi
    ensures Count(Range(lo, hi), x) == if lo <= x < hi then 1 else 0
    decreases hi
  {
    if lo < hi {
      assert Range(lo, hi) == Range(lo, hi - 1) + [hi - 1];
      RangeOnce(lo, hi - 1, x);
    } else {
      assert Range(lo, hi) == [];
    }
  }

  /** The frames held by a list of slots. */
  function FramesAt(q: seq<nat>, mem: seq<Frame>): (r: seq<Frame>)
    ensures |r| == |q|
  {
    seq(|q|, i requires 0 <= i < |q| => if q[i] < |mem| then mem[q[i]] else Fin)
  }

  lemma FramesAtSnoc(q: seq<nat>, x: nat, mem: seq<Frame>)
    requires x < |mem|
    ensures FramesAt(q + [x], mem) == FramesAt(q, mem) + [mem[x]]
  {}

  lemma FramesAtHead(q: seq<nat>, mem: seq<Frame>)
    requires q != [] && q[0] < |mem|
    ensures FramesAt(q, mem) == [mem[q[0]]] + FramesAt(q[1..], mem)
    ensures FramesAt(q, mem)[0] == mem[q[0]] && FramesAt(q, mem)[1..] == FramesAt(q[1..], mem)
  {}

  /** Writing a slot changes nothing for a queue it is not in. */
  lemma FramesAtOther(q: seq<nat>, mem: seq<Frame>, x: nat, f: Frame)
    requires x < |mem| && x !in q
    ensures FramesAt(q, mem[x := f]) == FramesAt(q, mem)
  {}
}
