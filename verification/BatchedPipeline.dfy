/**
 * The batched loop over the batched post against the plain loop over the plain post (rdmanet/rawconn.go,
 * postwr_linux.go): what reaches the device.
 */
module BatchedPipeline {
  import opened Pipeline
  import opened PostSend

  function Built(build: nat -> SendWR, ids: seq<nat>): (r: seq<SendWR>)
    ensures |r| == |ids|
  {
    seq(|ids|, i requires 0 <= i < |ids| => build(ids[i]))
  }

  /** What a series of batches puts on the device. */
  function BatchesOnDevice(build: nat -> SendWR, bs: seq<seq<nat>>): seq<DeviceWR> {
    if bs == [] then []
    else BatchesOnDevice(build, bs[..|bs| - 1]) + Batched(Built(build, bs[|bs| - 1]))
  }

  /** Every request built is admitted by `PostSendBatch`, and all are signaled, or none. */
  predicate Fits(build: nat -> SendWR, op: Opcode, signaled: bool, iters: nat) {
    && (op.OpSend? || op.OpWrite? || op.OpRead?)
    && forall i :: 0 <= i < iters ==> Plain(build(i), op) && build(i).signaled == signaled
  }

  lemma BatchFits(build: nat -> SendWR, op: Opcode, signaled: bool, iters: nat, ids: seq<nat>)
    requires Fits(build, op, signaled, iters) && forall i :: i in ids ==> i < iters
    ensures Batchable(Built(build, ids)) && Batched(Built(build, ids)) == Singles(Built(build, ids))
  {
    var ws := Built(build, ids);
    forall w | w in ws ensures Plain(w, op) && w.signaled == signaled {
      var i :| 0 <= i < |ws| && ws[i] == w;
      assert ids[i] in ids;
    }
    if ws != [] { assert ws[0] in ws; }
    BatchMatchesSingles(ws);
  }

  lemma {:induction false} BatchesAreSingles(build: nat -> SendWR, op: Opcode, signaled: bool, iters: nat,
                                             bs: seq<seq<nat>>)
    requires Fits(build, op, signaled, iters) && forall i :: i in Concat(bs) ==> i < iters
    ensures BatchesOnDevice(build, bs) == Singles(Built(build, Concat(bs)))
  {
    hide Single, Fits, Built, Singles, Batched;
    NoneBuilt(build);
    if bs != [] {
      var init, b := bs[..|bs| - 1], bs[|bs| - 1];
      assert Concat(bs) == Concat(init) + b;
      forall i | i in Concat(init) || i in b ensures i < iters { assert i in Concat(bs); }
      BatchesAreSingles(build, op, signaled, iters, init);
      BatchFits(build, op, signaled, iters, b);
      SinglesConcat(build, Concat(init), b);
    }
  }

  lemma NoneBuilt(build: nat -> SendWR)
    ensures Singles(Built(build, [])) == []
  {}

  lemma SinglesConcat(build: nat -> SendWR, a: seq<nat>, b: seq<nat>)
    ensures Singles(Built(build, a + b)) == Singles(Built(build, a)) + Singles(Built(build, b))
  {
    hide Single;
  }

  /** What has reached the device in the end: the batches accepted, and of a refused one what it had taken. */
  function OnDeviceAtEnd(build: nat -> SendWR, bs: seq<seq<nat>>, refused: seq<nat>, takes: nat): seq<DeviceWR> {
    BatchesOnDevice(build, bs) + AtMost(Batched(Built(build, refused)), takes)
  }

  lemma AtEndIsSingles(build: nat -> SendWR, op: Opcode, signaled: bool, iters: nat,
                       bs: seq<seq<nat>>, refused: seq<nat>, takes: nat)
    requires Fits(build, op, signaled, iters) && forall i :: i in Concat(bs) + refused ==> i < iters
    ensures OnDeviceAtEnd(build, bs, refused, takes)
            == Singles(Built(build, Concat(bs) + refused[..Min(takes, |refused|)]))
  {
    hide Single, Concat, BatchesOnDevice;
    forall i | i in Concat(bs) || i in refused ensures i < iters { assert i in Concat(bs) + refused; }
    BatchesAreSingles(build, op, signaled, iters, bs);
    BatchFits(build, op, signaled, iters, refused);
    var taken := refused[..Min(takes, |refused|)];
    assert AtMost(Singles(Built(build, refused)), takes) == Singles(Built(build, taken));
    assert Built(build, Concat(bs) + taken) == Built(build, Concat(bs)) + Built(build, taken);
  }

  /**
   * Under one poll script and the same failing post, the plain loop and the batched one hand the device the
   * same sequence of work requests: of a refused batch, the part up to the request that fails. If the device
   * stops short of it, or a completion fails, the batched loop may have handed it fewer, and then a prefix;
   * in any case one of the two sequences is a prefix of the other.
   */
  lemma SameOnDevice(iters: nat, txDepth: int, polls: seq<Poll>, limit: nat,
                     r: Result, completed: nat, log: seq<Event>,
                     batches: seq<seq<nat>>, refused: seq<nat>, takes: nat,
                     build: nat -> SendWR, op: Opcode, signaled: bool)
    requires iters > 0 && Fits(build, op, signaled, iters)
    requires Ran(iters, Depth(iters, txDepth), iters, polls, limit, r, completed, log)
    requires Concat(batches) == Submitted(iters, Depth(iters, txDepth), limit, polls)
    requires refused == Refused(iters, Depth(iters, txDepth), limit, polls)
    ensures var plain := Singles(Built(build, Ids(log)));
            var batched := OnDeviceAtEnd(build, batches, refused, takes);
            && (batched <= plain || plain <= batched)
            && (!r.BadCompletion? && !r.PostFailed? ==> batched == plain)
            && (refused != [] && |Concat(batches)| + takes == limit ==> batched == plain)
            && (refused == [] || |Concat(batches)| + takes <= limit ==> batched <= plain)
  {
    hide Ran, Single, Concat, Submitted, Refused, OnDeviceAtEnd, Singles, Ids;
    BatchIsPrefix(iters, txDepth, polls, limit, r, completed, log);
    RefusedIds(iters, txDepth, polls, limit, r, completed, log);
    TakenIds(Ids(log), Concat(batches), refused, takes);
    InRange(Concat(batches) + refused, iters);
    AtEndIsSingles(build, op, signaled, iters, batches, refused, takes);
    var reached := Concat(batches) + refused[..Min(takes, |refused|)];
    PrefixOnDevice(build, reached, Ids(log));
    PrefixOnDevice(build, Ids(log), reached);
  }

  lemma InRange(ids: seq<nat>, iters: nat)
    requires |ids| <= iters && ids == Upto(|ids|)
    ensures forall i :: i in ids ==> i < iters
  {
    assert forall k :: 0 <= k < |ids| ==> ids[k] == Upto(|ids|)[k];
  }

  /** The ids that reach the device against those of the plain loop: both count up from zero. */
  lemma TakenIds(ids: seq<nat>, before: seq<nat>, refused: seq<nat>, takes: nat)
    requires ids == Upto(|ids|) && before + refused == Upto(|before + refused|)
    ensures var reached := before + refused[..Min(takes, |refused|)];
            && |reached| == |before| + Min(takes, |refused|)
            && (reached <= ids || ids <= reached) && (|reached| == |ids| ==> reached == ids)
            && (|reached| <= |ids| ==> reached <= ids)
  {
    var reached := before + refused[..Min(takes, |refused|)];
    assert reached <= before + refused;
    assert forall k :: 0 <= k < |reached| ==> reached[k] == Upto(|before + refused|)[k];
    assert forall k :: 0 <= k < |ids| ==> ids[k] == Upto(|ids|)[k];
  }

  lemma PrefixOnDevice(build: nat -> SendWR, a: seq<nat>, b: seq<nat>)
    ensures a <= b ==> Singles(Built(build, a)) <= Singles(Built(build, b))
  {
    hide Single;
  }
}
