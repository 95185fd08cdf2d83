/** The byte stream laid over messages (rdmanet/stream.go). */
module Stream {
  import opened Words

  import opened Framing

  /** What `recv` gives: a message, or an error. */
  datatype Fetch = Message(msg: Bytes) | Failed(error: nat)

  /** What one `read` gives back: the bytes put into the caller's slice, or the error of `recv`. */
  datatype Got = Got(bytes: Bytes) | Error(error: nat)

  /** One read: leftover before, size of the slice, and what `recv` would return; `fetched` says it was called. */
  datatype Outcome = Outcome(got: Got, left: Bytes, fetched: bool)

  function ReadSpec(left: Bytes, size: nat, next: Fetch): Outcome {
    if size == 0 then Outcome(Got([]), left, false)
    else if left == [] && next.Failed? then Outcome(Error(next.error), left, true)
    else
      var from := if left == [] then next.msg else left;
      var n := if size < |from| then size else |from|;
      Outcome(Got(from[..n]), from[n..], left == [])
  }

  class StreamReader {
    var buf: Bytes

    constructor ()
      ensures buf == []
    {
      buf := [];
    }

    method Read(p: array<byte>, next: Fetch) returns (n: nat, err: Got, fetched: bool)
      modifies this, p
      ensures var o := ReadSpec(old(buf), p.Length, next);
              && buf == o.left && fetched == o.fetched
              && (o.got.Error? ==> err == o.got && n == 0 && p[..] == old(p[..]))
              && (o.got.Got? ==> err.Got? && n <= p.Length && p[..n] == o.got.bytes && p[n..] == old(p[n..]))
    {
      err, fetched := Got([]), false;
      if p.Length == 0 {
        return 0, err, false;
      }
      if |buf| == 0 {
        fetched := true;
        if next.Failed? {
          return 0, Error(next.error), true;
        }
        buf := next.msg;
      }
      n := if p.Length < |buf| then p.Length else |buf|;
      forall k | 0 <= k < n {
        p[k] := buf[k];
      }
      assert p[..n] == buf[..n];
      buf := buf[n..];
    }
  }

  /** Any series of reads of any sizes: what each call would fetch, and what all of them did. */
  datatype Call = Call(size: nat, next: Fetch)
  datatype Session = Session(left: Bytes, read: Bytes, messages: seq<Bytes>)

  function Step(s: Session, c: Call): Session {
    var o := ReadSpec(s.left, c.size, c.next);
    Session(o.left, s.read + (if o.got.Got? then o.got.bytes else []),
            s.messages + (if o.fetched && c.next.Message? then [c.next.msg] else []))
  }

  function Run(calls: seq<Call>): Session {
    if calls == [] then Session([], [], []) else Step(Run(calls[..|calls| - 1]), calls[|calls| - 1])
  }

  function Join(ms: seq<Bytes>): Bytes {
    if ms == [] then [] else Join(ms[..|ms| - 1]) + ms[|ms| - 1]
  }

  lemma JoinSnoc(ms: seq<Bytes>, m: Bytes)
    ensures Join(ms + [m]) == Join(ms) + m
  {
    assert (ms + [m])[..|ms|] == ms;
  }

  lemma StepConserves(s: Session, c: Call)
    requires s.read + s.left == Join(s.messages)
    ensures Step(s, c).read + Step(s, c).left == Join(Step(s, c).messages)
  {
    hide Join;
    var o, s' := ReadSpec(s.left, c.size, c.next), Step(s, c);
    if o.fetched && c.next.Message? {
      JoinSnoc(s.messages, c.next.msg);
      assert s.read == s.read + s.left;
      assert s'.read + s'.left == s.read + c.next.msg;
    } else {
      assert s'.messages == s.messages;
      assert s'.read + s'.left == s.read + s.left;
    }
  }

  /** The bytes read, and then the leftover, are the messages fetched, joined: nothing lost, added or reordered. */
  lemma {:induction false} BytesConserved(calls: seq<Call>)
    ensures Run(calls).read + Run(calls).left == Join(Run(calls).messages)
  {
    if calls != [] {
      BytesConserved(calls[..|calls| - 1]);
      StepConserves(Run(calls[..|calls| - 1]), calls[|calls| - 1]);
    }
  }

  lemma {:induction false} JoinPrefix(a: seq<Bytes>, b: seq<Bytes>)
    requires a <= b
    ensures Join(a) <= Join(b)
  {
    if |a| < |b| {
      JoinPrefix(a, b[..|b| - 1]);
    } else {
      assert a == b;
    }
  }

  /** The sizes of the reads do not matter: over the same messages two readers see the same byte stream. */
  lemma SizesDoNotMatter(xs: seq<Call>, ys: seq<Call>)
    requires Run(xs).messages <= Run(ys).messages
    ensures Run(xs).read <= Join(Run(ys).messages) && Run(ys).read <= Join(Run(ys).messages)
    ensures Run(xs).messages == Run(ys).messages && Run(xs).left == Run(ys).left ==> Run(xs).read == Run(ys).read
  {
    BytesConserved(xs);
    BytesConserved(ys);
    JoinPrefix(Run(xs).messages, Run(ys).messages);
    var x, y := Run(xs), Run(ys);
    assert x.read == (x.read + x.left)[..|x.read|];
    assert y.read == (y.read + y.left)[..|y.read|];
  }

  /**
   * No read crosses a message boundary; each gives all that is left of its message, or fills the slice. `recv`
   * is called exactly when nothing is left over and the slice is not empty, and a read into a non-empty slice
   * gives no byte without an error exactly when the message it fetched was empty.
   */
  lemma ReadBoundaries(left: Bytes, size: nat, next: Fetch)
    ensures var o := ReadSpec(left, size, next);
            && (o.fetched <==> size > 0 && left == [])
            && (o.got.Got? && size > 0 ==> o.got.bytes + o.left == if left == [] then next.msg else left)
            && (o.got.Got? && size > 0 ==>
                  var from := if left == [] then next.msg else left;
                  |o.got.bytes| <= size && |o.got.bytes| <= |from|
                  && (|o.got.bytes| == size || |o.got.bytes| == |from|))
            && (o.got.Got? && size == 0 ==> o.got.bytes == [] && o.left == left)
            && (o.got.Error? <==> size > 0 && left == [] && next.Failed?)
            && (o.got.Error? ==> o.got.error == next.error && o.left == [])
            && (size > 0 && o.got == Got([]) <==> size > 0 && left == [] && next == Message([]))
  {
    if size > 0 && !(left == [] && next.Failed?) {
      var from := if left == [] then next.msg else left;
      var n := if size < |from| then size else |from|;
      assert from[..n] + from[n..] == from;
      assert |from[..n]| == n;
    }
  }
}
