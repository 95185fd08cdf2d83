/**
 * The throughput loops (rdmanet/rawconn.go, perftest/send.go) over an adversarial poll script: each poll
 * answers with an error or with completions, never more than are in flight or fit the slice. Posts with
 * ids below `limit` are accepted, the first one at `limit` fails.
 */
module Pipeline {

  datatype Completion = Completion(ok: bool, wrid: nat)
  datatype Poll = PollError | Batch(cs: seq<Completion>)

  /** `Starved` is a loop still polling when the script has run out. */
  datatype Result = Done | PostFailed | PollFailed | BadCompletion(wrid: nat) | Starved

  datatype Event = Posted(id: nat) | Completed

  function Min(a: int, b: int): int { if a < b then a else b }

  /** The id of the `k`-th post when ids run round a ring of `m`. */
  function SlotId(k: nat, m: nat): nat
    requires m > 0
  {
    k % m
  }

  /** `txDepth` as `pipeline`, `pipelineBatch` and `drain` use it. */
  function Depth(iters: nat, txDepth: int): nat {
    if txDepth < 1 then Min(1, iters) else Min(txDepth, iters)
  }

  /** Work requests posted after `c` completions. */
  function Window(iters: nat, d: nat, c: nat): nat { Min(iters, d + c) }

  /** What a poll hands over after `c` completions. */
  function Taken(iters: nat, d: nat, c: nat, cs: seq<Completion>): (r: seq<Completion>)
    requires c <= iters
    ensures c + |r| <= iters && r <= cs
    ensures c + |cs| <= iters && |cs| <= d ==> r == cs
  {
    cs[..Min(|cs|, Window(iters, d, c) - c)]
  }

  function Leading(cs: seq<Completion>): (n: nat)
    ensures n <= |cs| && (n < |cs| ==> !cs[n].ok) && forall i :: 0 <= i < n ==> cs[i].ok
  {
    if cs == [] || !cs[0].ok then 0
    else
      var n := Leading(cs[1..]);
      assert forall i :: 0 < i < n + 1 ==> cs[i] == cs[1..][i - 1];
      n + 1
  }

  /** How a loop ends, after how many completions, and how many there were when the last batch began. */
  datatype Ending = Ending(r: Result, completed: nat, atBatch: nat)

  /** A loop that posts after each completion, from the `c`-th on. */
  function Walk(iters: nat, d: nat, limit: nat, polls: seq<Poll>, c: nat): (e: Ending)
    requires c <= iters && Window(iters, d, c) <= limit
    ensures c <= e.atBatch <= e.completed <= iters
    ensures e.r.Done? ==> e.completed == iters == e.atBatch
    ensures !e.r.BadCompletion? && !e.r.PostFailed? ==> e.atBatch == e.completed
    ensures e.r.PostFailed? ==> d <= limit < iters && e.completed == limit - d + 1
    ensures !e.r.PostFailed? ==> Window(iters, d, e.completed) <= limit
    ensures Window(iters, d, e.atBatch) <= limit
    decreases |polls|
  {
    if c == iters then Ending(Done, c, c)
    else if polls == [] then Ending(Starved, c, c)
    else if polls[0].PollError? then Ending(PollFailed, c, c)
    else
      var cs := Taken(iters, d, c, polls[0].cs);
      var n := Leading(cs);
      if Window(iters, d, c + n) > limit then Ending(PostFailed, limit - d + 1, c)
      else if n < |cs| then Ending(BadCompletion(cs[n].wrid), c + n, c)
      else Walk(iters, d, limit, polls[1..], c + n)
  }

  /** The whole loop, its first `d` posts included. */
  function Ends(iters: nat, d: nat, limit: nat, polls: seq<Poll>): Ending
    requires d <= iters
  {
    if limit < d then Ending(PostFailed, 0, 0) else Walk(iters, d, limit, polls, 0)
  }

  /** A loop that posts once per poll: a bad completion comes before the post, a failed post loses the batch. */
  function WalkBatches(iters: nat, d: nat, limit: nat, polls: seq<Poll>, c: nat): (e: Ending)
    requires c <= iters && Window(iters, d, c) <= limit
    ensures c <= e.atBatch <= e.completed <= iters && Window(iters, d, e.atBatch) <= limit
    ensures e.r.PostFailed? ==> Window(iters, d, e.completed) > limit
    decreases |polls|
  {
    if c == iters then Ending(Done, c, c)
    else if polls == [] then Ending(Starved, c, c)
    else if polls[0].PollError? then Ending(PollFailed, c, c)
    else
      var cs := Taken(iters, d, c, polls[0].cs);
      var n := Leading(cs);
      if n < |cs| then Ending(BadCompletion(cs[n].wrid), c + n, c)
      else if Window(iters, d, c + n) > limit then Ending(PostFailed, c + n, c)
      else WalkBatches(iters, d, limit, polls[1..], c + n)
  }

  function EndsBatched(iters: nat, d: nat, limit: nat, polls: seq<Poll>): Ending
    requires d <= iters
  {
    if limit < d then Ending(PostFailed, 0, 0) else WalkBatches(iters, d, limit, polls, 0)
  }

  /** What the batched loop has submitted when it ends. */
  function Submitted(iters: nat, d: nat, limit: nat, polls: seq<Poll>): seq<nat>
    requires d <= iters
  {
    if limit < d then [] else Upto(Window(iters, d, EndsBatched(iters, d, limit, polls).atBatch))
  }

  /** The batch that was refused, if that is how the loop ended. */
  function Refused(iters: nat, d: nat, limit: nat, polls: seq<Poll>): seq<nat>
    requires d <= iters
  {
    var e := EndsBatched(iters, d, limit, polls);
    if e.r.PostFailed? then Upto(Window(iters, d, e.completed))[|Submitted(iters, d, limit, polls)|..] else []
  }

  /**
   * The events of a loop that has seen `c` completions: `d` posts to begin with, then one after each
   * completion while there are any left. The `k`-th post has id `SlotId(k, m)`.
   */
  function History(iters: nat, d: nat, m: nat, c: nat): seq<Event>
    requires m > 0
  {
    if c == 0 then seq(Min(iters, d), i requires i >= 0 => Posted(SlotId(i, m)))
    else History(iters, d, m, c - 1) + [Completed] + if d + c - 1 < iters then [Posted(SlotId(d + c - 1, m))] else []
  }

  function Ids(log: seq<Event>): (r: seq<nat>)
    ensures |r| <= |log|
  {
    if log == [] then []
    else Ids(log[..|log| - 1]) + if log[|log| - 1].Posted? then [log[|log| - 1].id] else []
  }

  function Completions(log: seq<Event>): nat {
    if log == [] then 0
    else Completions(log[..|log| - 1]) + if log[|log| - 1].Completed? then 1 else 0
  }

  // ------------------------------------------------------------ the loops

  /** The events up to an ending: a failed post follows what it was meant to follow, and is not among them. */
  function LogOf(iters: nat, d: nat, m: nat, limit: nat, e: Ending): seq<Event>
    requires m > 0
  {
    if !e.r.PostFailed? then History(iters, d, m, e.completed)
    else if e.completed == 0 then seq(limit, i requires i >= 0 => Posted(SlotId(i, m)))
    else History(iters, d, m, e.completed - 1) + [Completed]
  }

  /** How a loop has run. */
  ghost predicate Ran(iters: nat, d: nat, m: nat, polls: seq<Poll>, limit: nat,
                      r: Result, completed: nat, log: seq<Event>)
    requires m > 0 && d <= iters
  {
    var e := Ends(iters, d, limit, polls);
    r == e.r && completed == e.completed && log == LogOf(iters, d, m, limit, e)
  }

  /** What one polled batch comes to; `Starved` means poll again. */
  function Reaped(iters: nat, d: nat, limit: nat, cs: seq<Completion>, seen: nat): (e: Ending)
    requires Window(iters, d, seen) <= limit
    ensures e.r.Starved? ==> Leading(cs) == |cs| == e.completed - seen && Window(iters, d, e.completed) <= limit
  {
    var n := Leading(cs);
    if Window(iters, d, seen + n) > limit then Ending(PostFailed, limit - d + 1, seen)
    else Ending(if n < |cs| then BadCompletion(cs[n].wrid) else Starved, seen + n, seen)
  }

  /** One poll of a walk. */
  lemma WalkAt(iters: nat, d: nat, limit: nat, polls: seq<Poll>, p: nat, c: nat)
    requires c <= iters && p <= |polls| && Window(iters, d, c) <= limit
    ensures var e := Walk(iters, d, limit, polls[p..], c);
            if c == iters then e == Ending(Done, c, c)
            else if p == |polls| then e == Ending(Starved, c, c)
            else if polls[p].PollError? then e == Ending(PollFailed, c, c)
            else
              var reaped := Reaped(iters, d, limit, Taken(iters, d, c, polls[p].cs), c);
              if reaped.r.Starved? then e == Walk(iters, d, limit, polls[p + 1..], reaped.completed) else e == reaped
  {
    hide Leading, Taken;
    if p < |polls| {
      assert polls[p..][0] == polls[p] && polls[p..][1..] == polls[p + 1..];
    }
  }

  /** The loop that fills the window. */
  method Prime(iters: nat, d: nat, m: nat, limit: nat) returns (ok: bool, log: seq<Event>)
    requires d <= iters && m > 0
    ensures ok <==> d <= limit
    ensures log == if ok then History(iters, d, m, 0) else LogOf(iters, d, m, limit, Ending(PostFailed, 0, 0))
  {
    log := [];
    var posted := 0;
    while posted < d
      invariant posted <= d && posted <= limit && log == seq(posted, i requires i >= 0 => Posted(SlotId(i, m)))
    {
      if posted == limit {
        return false, log;
      }
      log := log + [Posted(SlotId(posted, m))];
      posted := posted + 1;
    }
    ok := true;
  }

  /** The loop over one polled batch: one completion, one post. */
  method Reap(iters: nat, d: nat, m: nat, cs: seq<Completion>, limit: nat, seen: nat, sofar: seq<Event>)
    returns (r: Result, completed: nat, log: seq<Event>)
    requires d <= iters && m > 0 && seen + |cs| <= iters && Window(iters, d, seen) <= limit
    requires sofar == History(iters, d, m, seen)
    ensures var e := Reaped(iters, d, limit, cs, seen);
            && r == e.r && completed == e.completed && (completed > 0 || !r.PostFailed?)
            && log == LogOf(iters, d, m, limit, e)
  {
    hide SlotId;
    log, completed := sofar, seen;
    var posted := Window(iters, d, seen);
    for i := 0 to |cs|
      invariant completed == seen + i && log == History(iters, d, m, completed)
      invariant posted == Window(iters, d, completed) <= limit
      invariant forall j :: 0 <= j < i ==> cs[j].ok
    {
      if !cs[i].ok {
        return BadCompletion(cs[i].wrid), completed, log;
      }
      completed := completed + 1;
      log := log + [Completed];
      if posted < iters {
        if posted == limit {
          return PostFailed, completed, log;
        }
        log := log + [Posted(SlotId(posted, m))];
        posted := posted + 1;
      }
    }
    r := Starved;
  }

  /** The polling loop, until `iters` have completed. */
  method Refill(iters: nat, d: nat, m: nat, polls: seq<Poll>, limit: nat, primed: seq<Event>)
    returns (r: Result, completed: nat, log: seq<Event>)
    requires d <= iters && m > 0 && d <= limit && primed == History(iters, d, m, 0)
    ensures Ran(iters, d, m, polls, limit, r, completed, log)
  {
    hide Walk, History, Taken, Reaped;
    log, completed := primed, 0;
    assert polls[0..] == polls;
    var p := 0;
    while completed < iters
      invariant completed <= iters && p <= |polls|
      invariant log == History(iters, d, m, completed) && Window(iters, d, completed) <= limit
      invariant Walk(iters, d, limit, polls, 0) == Walk(iters, d, limit, polls[p..], completed)
      decreases |polls| - p
    {
      WalkAt(iters, d, limit, polls, p, completed);
      if p == |polls| {
        return Starved, completed, log;
      }
      if polls[p].PollError? {
        return PollFailed, completed, log;
      }
      var cs := Taken(iters, d, completed, polls[p].cs);
      r, completed, log := Reap(iters, d, m, cs, limit, completed, log);
      if !r.Starved? {
        return;
      }
      p := p + 1;
    }
    WalkAt(iters, d, limit, polls, p, completed);
    r := Done;
  }

  /** `pipeline`: ids count up from zero. */
  method RunPipeline(iters: int, txDepth: int, polls: seq<Poll>, limit: nat)
    returns (r: Result, completed: nat, log: seq<Event>)
    ensures iters <= 0 ==> r == Done && completed == 0 && log == []
    ensures iters > 0 ==> Ran(iters, Depth(iters, txDepth), iters, polls, limit, r, completed, log)
    ensures iters > 0 ==>
              Ids(log) == Upto(if r.PostFailed? then limit else Min(iters, AtLeastOne(txDepth) + completed))
  {
    hide Ran, Depth;
    if iters <= 0 {
      return Done, 0, [];
    }
    r, completed, log := Drive(iters, txDepth, iters, polls, limit);
    IdsOf(iters, txDepth, iters, polls, limit, r, completed, log);
    SlotsUpto(|Ids(log)|, iters);
  }

  /** `drain`: receive ids are the ring slots `0 .. txDepth - 1` over and over. */
  method RunDrain(iters: int, txDepth: int, polls: seq<Poll>, limit: nat)
    returns (r: Result, completed: nat, log: seq<Event>)
    ensures iters <= 0 ==> r == Done && completed == 0 && log == []
    ensures iters > 0 ==>
              var d := Depth(iters, txDepth);
              Ran(iters, d, d, polls, limit, r, completed, log)
    ensures iters > 0 ==>
              && |Ids(log)| == (if r.PostFailed? then limit else Min(iters, AtLeastOne(txDepth) + completed))
              && forall k :: 0 <= k < |Ids(log)| ==> Ids(log)[k] == k % Min(iters, AtLeastOne(txDepth))
  {
    hide Ran;
    if iters <= 0 {
      return Done, 0, [];
    }
    r, completed, log := Drive(iters, txDepth, Depth(iters, txDepth), polls, limit);
    IdsOf(iters, txDepth, Depth(iters, txDepth), polls, limit, r, completed, log);
  }

  function AtLeastOne(n: int): nat { if n < 1 then 1 else n }

  /** How many posts there are, and which ids they have. */
  lemma IdsOf(iters: nat, txDepth: int, m: nat, polls: seq<Poll>, limit: nat,
              r: Result, completed: nat, log: seq<Event>)
    requires iters > 0 && m > 0 && Ran(iters, Depth(iters, txDepth), m, polls, limit, r, completed, log)
    ensures Ids(log) == Slots(if r.PostFailed? then limit else Min(iters, AtLeastOne(txDepth) + completed), m)
    ensures |Ids(log)| <= iters
  {
    hide SlotId, Ids, Walk;
    SuccessIsComplete(iters, Depth(iters, txDepth), m, polls, limit, r, completed, log);
  }

  method Drive(iters: nat, txDepth: int, m: nat, polls: seq<Poll>, limit: nat)
    returns (r: Result, completed: nat, log: seq<Event>)
    requires iters > 0 && m > 0
    ensures Ran(iters, Depth(iters, txDepth), m, polls, limit, r, completed, log)
  {
    hide Walk, History;
    var d := txDepth;
    if d < 1 { d := 1; }
    if d > iters { d := iters; }
    var ok;
    ok, log := Prime(iters, d, m, limit);
    if !ok {
      return PostFailed, 0, log;
    }
    r, completed, log := Refill(iters, d, m, polls, limit, log);
  }

  /** `runBWPipeline`: the same loops, with `txDepth` taken as it is; at zero nothing is ever posted. */
  method RunBW(iters: int, txDepth: nat, polls: seq<Poll>, limit: nat)
    returns (r: Result, completed: nat, log: seq<Event>)
    ensures iters <= 0 ==> r == Done && completed == 0 && log == []
    ensures iters > 0 ==> Ran(iters, Min(txDepth, iters), iters, polls, limit, r, completed, log)
  {
    hide Walk, History;
    if iters <= 0 {
      return Done, 0, [];
    }
    var ok;
    ok, log := Prime(iters, Min(txDepth, iters), iters, limit);
    if !ok {
      return PostFailed, 0, log;
    }
    r, completed, log := Refill(iters, Min(txDepth, iters), iters, polls, limit, log);
  }

  /** All the completions the polls answer with, up to the first poll that fails. */
  function Answers(polls: seq<Poll>): seq<Completion> {
    if polls == [] || polls[0].PollError? then [] else polls[0].cs + Answers(polls[1..])
  }

  /** No poll answers with more than is in flight. */
  predicate Possible(iters: nat, d: nat, polls: seq<Poll>, c: nat) {
    polls != [] && polls[0].Batch? ==>
      c + |polls[0].cs| <= Min(iters, d + c) && Possible(iters, d, polls[1..], c + |polls[0].cs|)
  }

  /** The `k`-th post carries the id `k` while the window is filled, and then that of the `k - d`-th completion. */
  predicate Reposts(log: seq<Event>, d: nat, seen: seq<Completion>) {
    && |Ids(log)| <= d + |seen|
    && forall k :: 0 <= k < |Ids(log)| ==> Ids(log)[k] == if k < d then k else seen[k - d].wrid
  }

  /** With the completions the polls answer with. */
  predicate Reposted(iters: nat, d: nat, polls: seq<Poll>, got: nat, log: seq<Event>) {
    Possible(iters, d, polls, 0) ==> got <= |Answers(polls)| && Reposts(log, d, Answers(polls)[..got])
  }

  lemma RepostsOn(log: seq<Event>, d: nat, seen: seq<Completion>, x: Completion)
    requires Reposts(log, d, seen)
    ensures Reposts(log + [Completed], d, seen + [x])
    ensures |Ids(log)| == d + |seen| ==> Reposts(log + [Completed] + [Posted(x.wrid)], d, seen + [x])
    ensures |Ids(log + [Completed])| == |Ids(log)|
    ensures |Ids(log + [Completed] + [Posted(x.wrid)])| == |Ids(log)| + 1
  {
    hide Ids;
    LogSnoc(log, Completed);
    LogSnoc(log + [Completed], Posted(x.wrid));
    assert Ids(log) + [] == Ids(log);
  }

  /** The log with every id forgotten. */
  function Erased(log: seq<Event>): seq<Event> {
    seq(|log|, i requires 0 <= i < |log| => if log[i].Posted? then Posted(0) else Completed)
  }

  /** The `k`-th completion of the run is that of the `k`-th receive, whose id is its ring slot. */
  predicate InOrder(iters: nat, d: nat, m: nat, polls: seq<Poll>, c: nat)
    requires c <= iters && m > 0
    decreases |polls|
  {
    if c == iters || polls == [] || polls[0].PollError? then true
    else
      var cs := Taken(iters, d, c, polls[0].cs);
      Ordered(cs, m, c) && (Leading(cs) == |cs| ==> InOrder(iters, d, m, polls[1..], c + |cs|))
  }

  predicate Ordered(cs: seq<Completion>, m: nat, c: nat)
    requires m > 0
  {
    forall i :: 0 <= i < |cs| ==> cs[i].wrid == SlotId(c + i, m)
  }

  lemma InOrderAt(iters: nat, d: nat, m: nat, polls: seq<Poll>, p: nat, c: nat)
    requires c < iters && m > 0 && p < |polls| && polls[p].Batch? && InOrder(iters, d, m, polls[p..], c)
    ensures var cs := Taken(iters, d, c, polls[p].cs);
            Ordered(cs, m, c) && (Leading(cs) == |cs| ==> InOrder(iters, d, m, polls[p + 1..], c + |cs|))
  {
    hide Leading, Ordered;
    assert polls[p..][0] == polls[p] && polls[p..][1..] == polls[p + 1..];
  }

  /**
   * The server loop of `RunSendBW`: reposts the id that completed while `got + txDepth <= iters`. Its window
   * is that of the other loops; with in-order completions its ids are those of `drain`.
   */
  method RunSendServer(iters: nat, txDepth: nat, polls: seq<Poll>, limit: nat)
    returns (r: Result, got: nat, log: seq<Event>)
    ensures var d := Min(txDepth, iters); var e := Ends(iters, d, limit, polls);
            && r == e.r && got == e.completed && Erased(log) == LogOf(iters, d, 1, limit, e)
            && (txDepth > 0 && InOrder(iters, d, txDepth, polls, 0) ==> log == LogOf(iters, d, txDepth, limit, e))
            && Reposted(iters, d, polls, got, log)
  {
    hide Walk, InOrder, History, Erased, SlotId, Ids, Reposts;
    var ok;
    ok, log := PrimeServer(iters, Min(txDepth, iters), txDepth, limit);
    ComesFirst(iters, Min(txDepth, iters), polls, log);
    if !ok {
      return PostFailed, 0, log;
    }
    r, got, log := RefillServer(iters, txDepth, polls, limit, log);
  }

  /** Its polling loop. */
  method RefillServer(iters: nat, txDepth: nat, polls: seq<Poll>, limit: nat, primed: seq<Event>)
    returns (r: Result, got: nat, log: seq<Event>)
    requires var d := Min(txDepth, iters);
             && d <= limit && Erased(primed) == History(iters, d, 1, 0)
             && (txDepth > 0 ==> primed == History(iters, d, txDepth, 0))
             && Reposts(primed, d, []) && |Ids(primed)| == d
    ensures var d := Min(txDepth, iters); var e := Walk(iters, d, limit, polls, 0);
            && r == e.r && got == e.completed && Erased(log) == LogOf(iters, d, 1, limit, e)
            && (txDepth > 0 && InOrder(iters, d, txDepth, polls, 0) ==> log == LogOf(iters, d, txDepth, limit, e))
            && Reposted(iters, d, polls, got, log)
  {
    hide Walk, InOrder, History, Leading, Erased, Ordered, Taken, Reaped;
    hide Answers, Possible, Reposts, Ids, Comes, Reposted;
    var d := Min(txDepth, iters);
    got, log := 0, primed;
    assert polls[0..] == polls;
    ghost var inOrder := txDepth > 0 && InOrder(iters, d, txDepth, polls, 0);
    ghost var seen: seq<Completion> := [];
    ComesFirst(iters, d, polls, log);
    var p := 0;
    while got < iters
      invariant got <= iters && p <= |polls| && Window(iters, d, got) <= limit
      invariant Erased(log) == History(iters, d, 1, got)
      invariant Walk(iters, d, limit, polls, 0) == Walk(iters, d, limit, polls[p..], got)
      invariant inOrder ==> InOrder(iters, d, txDepth, polls[p..], got) && log == History(iters, d, txDepth, got)
      invariant Reposts(log, d, seen) && |seen| == got && |Ids(log)| == Window(iters, d, got)
      invariant Comes(iters, d, polls, p, seen) && Reposted(iters, d, polls, got, log)
      decreases |polls| - p
    {
      WalkAt(iters, d, limit, polls, p, got);
      if p == |polls| {
        return Starved, got, log;
      }
      if polls[p].PollError? {
        return PollFailed, got, log;
      }
      var cs := Taken(iters, d, got, polls[p].cs);
      if inOrder { InOrderAt(iters, d, txDepth, polls, p, got); }
      ghost var before := got;
      r, got, log := ReapServer(iters, txDepth, cs, limit, got, log, seen);
      ComesNext(iters, d, polls, p, seen, got - before, log);
      seen := seen + cs[..got - before];
      if !r.Starved? {
        return;
      }
      p := p + 1;
    }
    WalkAt(iters, d, limit, polls, p, got);
    r := Done;
  }

  /** Of all the answers `seen` come first, and those of the polls from `p` on next. */
  predicate Comes(iters: nat, d: nat, polls: seq<Poll>, p: nat, seen: seq<Completion>)
    requires p <= |polls|
  {
    Possible(iters, d, polls, 0) ==>
      Possible(iters, d, polls[p..], |seen|) && Answers(polls) == seen + Answers(polls[p..])
  }

  lemma ComesFirst(iters: nat, d: nat, polls: seq<Poll>, log: seq<Event>)
    requires Reposts(log, d, [])
    ensures Comes(iters, d, polls, 0, []) && Reposted(iters, d, polls, 0, log)
  {
    assert polls[0..] == polls;
    assert [] + Answers(polls) == Answers(polls);
  }

  lemma ComesNext(iters: nat, d: nat, polls: seq<Poll>, p: nat, seen: seq<Completion>, n: nat, log: seq<Event>)
    requires |seen| <= iters && p < |polls| && polls[p].Batch? && Comes(iters, d, polls, p, seen)
    requires n <= |Taken(iters, d, |seen|, polls[p].cs)|
    requires Reposts(log, d, seen + Taken(iters, d, |seen|, polls[p].cs)[..n])
    ensures var cs := Taken(iters, d, |seen|, polls[p].cs);
            && Reposted(iters, d, polls, |seen| + n, log)
            && (n == |cs| ==> Comes(iters, d, polls, p + 1, seen + cs[..n]))
  {
    hide Reposts;
    var all, cs := polls[p].cs, Taken(iters, d, |seen|, polls[p].cs);
    assert polls[p..][0] == polls[p] && polls[p..][1..] == polls[p + 1..];
    if Possible(iters, d, polls, 0) {
      assert cs == all && Answers(polls) == seen + (all + Answers(polls[p + 1..]));
      assert seen + (all + Answers(polls[p + 1..])) == seen + all[..n] + (all[n..] + Answers(polls[p + 1..]));
      assert all[..|all|] == all;
      assert Answers(polls)[..|seen| + n] == seen + all[..n];
    }
  }

  method PrimeServer(iters: nat, d: nat, m: nat, limit: nat) returns (ok: bool, log: seq<Event>)
    requires d <= iters && d <= m
    ensures ok <==> d <= limit
    ensures var e := Ending(if ok then Starved else PostFailed, 0, 0);
            Erased(log) == LogOf(iters, d, 1, limit, e) && (m > 0 ==> log == LogOf(iters, d, m, limit, e))
    ensures Reposts(log, d, []) && |Ids(log)| == |log| && (ok ==> |log| == d)
  {
    hide SlotId, Ids;
    log := [];
    assert Ids([]) == [];
    forall k | 0 <= k < d ensures SlotId(k, 1) == 0 && (m > 0 ==> SlotId(k, m) == k) {
      var _ := DivMod(k, 1);
      SlotSmall(k, m);
    }
    for i := 0 to d
      invariant |log| == i <= limit && forall k :: 0 <= k < i ==> log[k] == Posted(k)
      invariant |Ids(log)| == i && forall k :: 0 <= k < i ==> Ids(log)[k] == k
    {
      if i == limit {
        return false, log;
      }
      LogSnoc(log, Posted(i));
      log := log + [Posted(i)];
    }
    ok := true;
  }

  /** One completion and what is posted after it. */
  lemma ServerStep(iters: nat, txDepth: nat, log: seq<Event>, got: nat, wrid: nat)
    requires got < iters && Erased(log) == History(iters, Min(txDepth, iters), 1, got)
    ensures var d, log' := Min(txDepth, iters), log + [Completed] + [Posted(wrid)]; var m := txDepth;
            && History(iters, d, 1, got + 1) == Erased(if d + got < iters then log' else log + [Completed])
            && Erased(log + [Completed]) == History(iters, d, 1, got) + [Completed]
            && (m > 0 && log == History(iters, d, m, got) && wrid == SlotId(got, m) ==>
                  History(iters, d, m, got + 1) == if d + got < iters then log' else log + [Completed])
  {
    hide SlotId, Erased;
    var d := Min(txDepth, iters);
    var _ := DivMod(d + got, 1);
    if txDepth > 0 { SlotShift(got, txDepth); }
    ErasedSnoc(log, Completed);
    ErasedSnoc(log + [Completed], Posted(wrid));
  }

  lemma LogOfIs(iters: nat, d: nat, m: nat, limit: nat, e: Ending)
    requires m > 0
    ensures !e.r.PostFailed? ==> LogOf(iters, d, m, limit, e) == History(iters, d, m, e.completed)
    ensures e.r.PostFailed? && e.completed > 0 ==>
              LogOf(iters, d, m, limit, e) == History(iters, d, m, e.completed - 1) + [Completed]
  {}

  /** The loop over one polled batch. */
  method ReapServer(iters: nat, txDepth: nat, cs: seq<Completion>, limit: nat, seen: nat, sofar: seq<Event>,
                    ghost past: seq<Completion>)
    returns (r: Result, got: nat, log: seq<Event>)
    requires seen + |cs| <= iters && Window(iters, Min(txDepth, iters), seen) <= limit
    requires Erased(sofar) == History(iters, Min(txDepth, iters), 1, seen)
    requires Reposts(sofar, Min(txDepth, iters), past)
    requires |past| == seen && |Ids(sofar)| == Window(iters, Min(txDepth, iters), seen)
    ensures var d := Min(txDepth, iters); var e := Reaped(iters, d, limit, cs, seen);
            && r == e.r && got == e.completed && (got > 0 || !r.PostFailed?)
            && Erased(log) == LogOf(iters, d, 1, limit, e)
            && (txDepth > 0 && Ordered(cs, txDepth, seen) && sofar == History(iters, d, txDepth, seen) ==>
                  log == LogOf(iters, d, txDepth, limit, e))
            && seen <= got <= seen + |cs| && Reposts(log, d, past + cs[..got - seen])
            && (!r.PostFailed? ==> |Ids(log)| == Window(iters, d, got))
  {
    hide SlotId, Ids, Reposts, Erased, History, LogOf, Leading;
    LogOfIs(iters, Min(txDepth, iters), 1, limit, Reaped(iters, Min(txDepth, iters), limit, cs, seen));
    if txDepth > 0 {
      LogOfIs(iters, Min(txDepth, iters), txDepth, limit, Reaped(iters, Min(txDepth, iters), limit, cs, seen));
    }
    assert past + cs[..0] == past;
    log, got := sofar, seen;
    var d := Min(txDepth, iters);
    for i := 0 to |cs|
      invariant got == seen + i && Window(iters, d, got) <= limit && Erased(log) == History(iters, d, 1, got)
      invariant forall j :: 0 <= j < i ==> cs[j].ok
      invariant txDepth > 0 && Ordered(cs, txDepth, seen) && sofar == History(iters, d, txDepth, seen) ==>
                  log == History(iters, d, txDepth, got)
      invariant Reposts(log, d, past + cs[..i]) && |Ids(log)| == Window(iters, d, got)
    {
      if !cs[i].ok {
        return BadCompletion(cs[i].wrid), got, log;
      }
      RepostsOn(log, d, past + cs[..i], cs[i]);
      assert past + cs[..i] + [cs[i]] == past + cs[..i + 1];
      ServerStep(iters, txDepth, log, got, cs[i].wrid);
      got := got + 1;
      log := log + [Completed];
      if got + txDepth <= iters {
        if txDepth + got - 1 == limit {
          return PostFailed, got, log;
        }
        log := log + [Posted(cs[i].wrid)];
      }
    }
    r := Starved;
  }

  lemma ErasedSnoc(log: seq<Event>, e: Event)
    ensures Erased(log + [e]) == Erased(log) + [if e.Posted? then Posted(0) else Completed]
  {}

  lemma {:induction false} ErasedCounts(log: seq<Event>)
    ensures |Ids(Erased(log))| == |Ids(log)| && Completions(Erased(log)) == Completions(log)
  {
    if log != [] {
      var k := |log| - 1;
      ErasedCounts(log[..k]);
      assert Erased(log)[..k] == Erased(log[..k]);
    }
  }

  /**
   * Any ids: after `got` completions the server has posted exactly `min(iters, txDepth + got)` receives,
   * unless a post was refused, and then the `limit` before it.
   */
  lemma ServerWindow(iters: nat, txDepth: nat, polls: seq<Poll>, limit: nat, log: seq<Event>)
    requires Erased(log) == LogOf(iters, Min(txDepth, iters), 1, limit, Ends(iters, Min(txDepth, iters), limit, polls))
    ensures var e := Ends(iters, Min(txDepth, iters), limit, polls);
            && Completions(log) == e.completed
            && |Ids(log)| == if e.r.PostFailed? then limit else Min(iters, txDepth + e.completed)
  {
    var d := Min(txDepth, iters);
    var e := Ends(iters, d, limit, polls);
    SuccessIsComplete(iters, d, 1, polls, limit, e.r, e.completed, Erased(log));
    ErasedCounts(log);
  }

  /** `pipelineBatch`: refills go out in one call per poll; `limit` rejects the batch that reaches it. */
  method RunPipelineBatch(iters: int, txDepth: int, polls: seq<Poll>, limit: nat)
    returns (r: Result, completed: nat, batches: seq<seq<nat>>, refused: seq<nat>)
    ensures iters <= 0 ==> r == Done && completed == 0 && batches == [] && refused == []
    ensures iters > 0 ==>
              var d := Depth(iters, txDepth); var e := EndsBatched(iters, d, limit, polls);
              && r == e.r && completed == e.completed
              && Concat(batches) == Submitted(iters, d, limit, polls) && refused == Refused(iters, d, limit, polls)
    ensures iters > 0 && !r.PostFailed? && !r.BadCompletion? ==>
              Concat(batches) == Upto(Min(iters, AtLeastOne(txDepth) + completed))
    ensures |batches| <= 1 + |polls| && forall i :: 0 <= i < |batches| ==> batches[i] != []
    ensures batches != [] ==> batches[0] == Upto(Min(iters, AtLeastOne(txDepth)))
    ensures batches == [] <==> iters <= 0 || limit < Min(iters, AtLeastOne(txDepth))
  {
    hide WalkBatches, Leading, Upto;
    if iters <= 0 {
      return Done, 0, [], [];
    }
    var d := Depth(iters, txDepth);
    if d > limit {
      return PostFailed, 0, [], Upto(d);
    }
    r, completed, batches, refused := RefillBatches(iters, d, polls, limit);
    SameWalk(iters, d, limit, polls, 0);
  }

  /** One poll of a batched walk. */
  lemma WalkBatchesAt(iters: nat, d: nat, limit: nat, polls: seq<Poll>, p: nat, c: nat)
    requires c <= iters && p <= |polls| && Window(iters, d, c) <= limit
    ensures var e := WalkBatches(iters, d, limit, polls[p..], c);
            if c == iters then e == Ending(Done, c, c)
            else if p == |polls| then e == Ending(Starved, c, c)
            else if polls[p].PollError? then e == Ending(PollFailed, c, c)
            else
              var cs := Taken(iters, d, c, polls[p].cs); var n := Leading(cs);
              if n < |cs| then e == Ending(BadCompletion(cs[n].wrid), c + n, c)
              else if Window(iters, d, c + n) > limit then e == Ending(PostFailed, c + n, c)
              else e == WalkBatches(iters, d, limit, polls[p + 1..], c + n)
  {
    hide Leading, Taken;
    if p < |polls| {
      assert polls[p..][0] == polls[p] && polls[p..][1..] == polls[p + 1..];
    }
  }

  /** The polling loop, entered with the priming batch submitted. */
  method RefillBatches(iters: nat, d: nat, polls: seq<Poll>, limit: nat)
    returns (r: Result, completed: nat, batches: seq<seq<nat>>, refused: seq<nat>)
    requires d <= iters && d <= limit
    ensures var e := WalkBatches(iters, d, limit, polls, 0);
            && r == e.r && completed == e.completed && Concat(batches) == Upto(Window(iters, d, e.atBatch))
            && if r.PostFailed? then Upto(Window(iters, d, completed)) == Concat(batches) + refused else refused == []
    ensures 1 <= |batches| <= 1 + |polls| && batches[0] == Upto(d) && forall i :: 0 < i < |batches| ==> batches[i] != []
  {
    hide WalkBatches, Leading, Upto, Concat, Taken;
    completed, batches, refused := 0, [Upto(d)], [];
    ConcatSnoc([], Upto(d));
    assert polls[0..] == polls;
    var p := 0;
    while completed < iters
      invariant completed <= iters && p <= |polls|
      invariant Concat(batches) == Upto(Window(iters, d, completed)) && Window(iters, d, completed) <= limit
      invariant 1 <= |batches| <= 1 + p && batches[0] == Upto(d) && forall i :: 0 < i < |batches| ==> batches[i] != []
      invariant WalkBatches(iters, d, limit, polls, 0) == WalkBatches(iters, d, limit, polls[p..], completed)
      decreases |polls| - p
    {
      WalkBatchesAt(iters, d, limit, polls, p, completed);
      if p == |polls| {
        return Starved, completed, batches, [];
      }
      if polls[p].PollError? {
        return PollFailed, completed, batches, [];
      }
      var cs := Taken(iters, d, completed, polls[p].cs);
      var batch;
      var before := Window(iters, d, completed);
      r, completed, batch := ReapBatch(iters, d, cs, completed);
      if r.BadCompletion? {
        return;
      }
      ConcatSnoc(batches, batch);
      if batch != [] {
        if before + |batch| > limit {
          return PostFailed, completed, batches, batch;
        }
        batches := batches + [batch];
      }
      p := p + 1;
    }
    WalkBatchesAt(iters, d, limit, polls, p, completed);
    r := Done;
  }

  /** The ids of a series of batches, in the order in which they are submitted. */
  function Concat(bs: seq<seq<nat>>): seq<nat> {
    if bs == [] then [] else Concat(bs[..|bs| - 1]) + bs[|bs| - 1]
  }

  lemma ConcatSnoc(bs: seq<seq<nat>>, b: seq<nat>)
    ensures Concat(bs + [b]) == Concat(bs) + b
    ensures b == [] ==> Concat(bs) + b == Concat(bs)
    ensures bs == [] ==> Concat([b]) == b
  {
    assert (bs + [b])[..|bs|] == bs;
    assert bs == [] ==> bs + [b] == [b];
  }

  method ReapBatch(iters: nat, d: nat, cs: seq<Completion>, seen: nat)
    returns (r: Result, completed: nat, batch: seq<nat>)
    requires seen + |cs| <= iters
    ensures completed == seen + Leading(cs)
    ensures r == if Leading(cs) < |cs| then BadCompletion(cs[Leading(cs)].wrid) else Starved
    ensures Upto(Window(iters, d, completed)) == Upto(Window(iters, d, seen)) + batch
  {
    completed, batch := seen, [];
    var posted := Window(iters, d, seen);
    for i := 0 to |cs|
      invariant completed == seen + i && posted == Window(iters, d, completed)
      invariant Upto(posted) == Upto(Window(iters, d, seen)) + batch
      invariant forall j :: 0 <= j < i ==> cs[j].ok
    {
      if !cs[i].ok {
        return BadCompletion(cs[i].wrid), completed, batch;
      }
      completed := completed + 1;
      if posted < iters {
        assert Upto(posted + 1) == Upto(posted) + [posted];
        batch := batch + [posted];
        posted := posted + 1;
      }
    }
    r := Starved;
  }

  // ------------------------------------------------- what the histories say

  function Upto(n: nat): (r: seq<nat>)
    ensures |r| == n
  {
    seq(n, i requires i >= 0 => i)
  }

  /** The ids of the first `n` posts. */
  function Slots(n: nat, m: nat): (r: seq<nat>)
    requires m > 0
    ensures |r| == n
  {
    seq(n, i requires i >= 0 => SlotId(i, m))
  }

  lemma LogSnoc(log: seq<Event>, e: Event)
    ensures Ids(log + [e]) == Ids(log) + if e.Posted? then [e.id] else []
    ensures Completions(log + [e]) == Completions(log) + if e.Completed? then 1 else 0
  {
    assert (log + [e])[..|log|] == log;
  }

  lemma NoEvents()
    ensures Ids([]) == [] && Completions([]) == 0
  {}

  lemma {:induction false} PrimeCounts(n: nat, m: nat)
    requires m > 0
    ensures var log := seq(n, i requires i >= 0 => Posted(SlotId(i, m)));
            Ids(log) == Slots(n, m) && Completions(log) == 0
  {
    hide SlotId, Ids, Completions;
    NoEvents();
    if n > 0 {
      PrimeCounts(n - 1, m);
      var a := seq(n, i requires i >= 0 => Posted(SlotId(i, m)));
      var b := seq(n - 1, i requires i >= 0 => Posted(SlotId(i, m)));
      assert a == b + [Posted(SlotId(n - 1, m))];
      LogSnoc(b, Posted(SlotId(n - 1, m)));
    }
  }

  /** After `c` completions exactly `min(iters, d + c)` requests have been posted, ids in order, once each. */
  lemma {:induction false} HistoryCounts(iters: nat, d: nat, m: nat, c: nat)
    requires m > 0 && d <= iters && c <= iters
    ensures var log := History(iters, d, m, c);
            Ids(log) == Slots(Window(iters, d, c), m) && Completions(log) == c
  {
    hide SlotId, Ids, Completions;
    if c == 0 {
      PrimeCounts(Min(iters, d), m);
    } else {
      HistoryCounts(iters, d, m, c - 1);
      var log := History(iters, d, m, c - 1);
      LogSnoc(log, Completed);
      assert Ids(log + [Completed]) == Ids(log);
      LogSnoc(log + [Completed], Posted(SlotId(d + c - 1, m)));
      assert log + [Completed] + [] == log + [Completed];
    }
  }

  /** At every moment of a run at most `d` requests are in flight, and the posts so far are the first ones. */
  lemma {:induction false} WindowHeld(iters: nat, d: nat, m: nat, c: nat, log: seq<Event>)
    requires m > 0 && d <= iters && c <= iters && log <= History(iters, d, m, c)
    ensures Ids(log) == Slots(|Ids(log)|, m)
    ensures Completions(log) <= c && |Ids(log)| <= Window(iters, d, Completions(log))
  {
    hide History, SlotId, Ids, Completions, Slots;
    HistoryStep(iters, d, m, c, log);
    if c > 0 {
      var before := History(iters, d, m, c - 1);
      if log <= before {
        WindowHeld(iters, d, m, c - 1, log);
      } else {
        HistoryCounts(iters, d, m, c - 1);
        HistoryCounts(iters, d, m, c);
        LogSnoc(before, Completed);
        assert Ids(before) + [] == Ids(before);
      }
    }
  }

  /** A prefix of a history: of the priming, of the history before the last completion, or one of its last two. */
  lemma HistoryStep(iters: nat, d: nat, m: nat, c: nat, log: seq<Event>)
    requires m > 0 && d <= iters && log <= History(iters, d, m, c)
    ensures c == 0 ==> Ids(log) == Slots(|log|, m) && Completions(log) == 0 && |log| <= d
    ensures c > 0 ==> var before := History(iters, d, m, c - 1);
                      log <= before || log == before + [Completed] || log == History(iters, d, m, c)
  {
    hide Ids, Completions, SlotId;
    if c == 0 {
      PrimePrefix(d, m, log);
    } else {
      var before, full := History(iters, d, m, c - 1), History(iters, d, m, c);
      assert |log| <= |before| ==> log <= before;
      assert |log| == |before| + 1 ==> log == before + [Completed];
      assert |log| == |full| ==> log == full;
    }
  }

  lemma PrimePrefix(n: nat, m: nat, log: seq<Event>)
    requires m > 0 && log <= seq(n, i requires i >= 0 => Posted(SlotId(i, m)))
    ensures Ids(log) == Slots(|log|, m) && Completions(log) == 0
  {
    hide SlotId;
    assert log == seq(|log|, i requires i >= 0 => Posted(SlotId(i, m)));
    PrimeCounts(|log|, m);
  }

  /**
   * The log always holds one completion for each counted, and its posts are the first ones in order: as many
   * as the window allows, or the `limit` before a refused post. Success means all `iters` of both.
   */
  lemma SuccessIsComplete(iters: nat, d: nat, m: nat, polls: seq<Poll>, limit: nat,
                          r: Result, completed: nat, log: seq<Event>)
    requires m > 0 && d <= iters && Ran(iters, d, m, polls, limit, r, completed, log)
    ensures Completions(log) == completed
    ensures Ids(log) == Slots(if r.PostFailed? then limit else Window(iters, d, completed), m)
    ensures r.Done? ==> Ids(log) == Slots(iters, m) && completed == iters
  {
    hide SlotId, Ids, Completions;
    if !r.PostFailed? {
      HistoryCounts(iters, d, m, completed);
    } else if completed == 0 {
      PrimeCounts(limit, m);
    } else {
      HistoryCounts(iters, d, m, completed - 1);
      var log' := History(iters, d, m, completed - 1);
      LogSnoc(log', Completed);
      assert Ids(log') + [] == Ids(log');
    }
  }

  lemma LeadingConcat(a: seq<Completion>, b: seq<Completion>)
    ensures Leading(a + b) == if Leading(a) < |a| then Leading(a) else |a| + Leading(b)
  {
    var l := if Leading(a) < |a| then Leading(a) else |a| + Leading(b);
    assert l < |a + b| ==> !(a + b)[l].ok;
  }

  /**
   * An ending told from the completions `cs` still to come after `c`, however polls cut them into batches: they
   * count up to the first bad one, which ends the loop, or until there are enough, or a poll fails, or a post
   * does before that.
   */
  predicate Told(e: Ending, iters: nat, d: nat, limit: nat, c: nat, cs: seq<Completion>, fails: bool) {
    var good := c + Leading(cs);
    match e.r
    case Done => e.completed == iters == good
    case BadCompletion(wrid) => e.completed == good < c + |cs| && wrid == cs[good - c].wrid
    case PostFailed => e.completed == limit - d + 1 <= good
    case PollFailed => e.completed == good == c + |cs| < iters && fails
    case Starved => e.completed == good == c + |cs| < iters && !fails
  }

  lemma ToldLater(e: Ending, iters: nat, d: nat, limit: nat, c: nat, cs: seq<Completion>, later: seq<Completion>,
                  fails: bool)
    requires Leading(cs) == |cs| && Told(e, iters, d, limit, c + |cs|, later, fails)
    ensures Told(e, iters, d, limit, c, cs + later, fails)
  {
    hide Leading;
    LeadingConcat(cs, later);
  }

  lemma ToldNow(iters: nat, d: nat, limit: nat, c: nat, cs: seq<Completion>, later: seq<Completion>, fails: bool)
    requires Window(iters, d, c) <= limit && !Reaped(iters, d, limit, cs, c).r.Starved?
    ensures Told(Reaped(iters, d, limit, cs, c), iters, d, limit, c, cs + later, fails)
  {
    hide Leading;
    LeadingConcat(cs, later);
  }

  /** That is how every loop ends. */
  lemma {:induction false} EndsByAnswers(iters: nat, d: nat, limit: nat, polls: seq<Poll>, c: nat)
    requires c <= iters && Window(iters, d, c) <= limit && Possible(iters, d, polls, c)
    ensures Told(Walk(iters, d, limit, polls, c), iters, d, limit, c, Answers(polls), PollError in polls)
    decreases |polls|
  {
    hide Leading, Walk, Reaped, Told;
    WalkAt(iters, d, limit, polls, 0, c);
    assert polls[0..] == polls;
    if c == iters || polls == [] || polls[0].PollError? {
      if c == iters { AnsweredOut(iters, d, polls, c); }
      ToldAtOnce(Walk(iters, d, limit, polls, c), iters, d, limit, c, PollError in polls);
    } else {
      var cs, later := polls[0].cs, Answers(polls[1..]);
      assert Taken(iters, d, c, cs) == cs && polls == [polls[0]] + polls[1..];
      if Reaped(iters, d, limit, cs, c).r.Starved? {
        EndsByAnswers(iters, d, limit, polls[1..], c + |cs|);
        ToldLater(Walk(iters, d, limit, polls, c), iters, d, limit, c, cs, later, PollError in polls);
      } else {
        ToldNow(iters, d, limit, c, cs, later, PollError in polls);
      }
    }
  }

  lemma ToldAtOnce(e: Ending, iters: nat, d: nat, limit: nat, c: nat, fails: bool)
    requires e.completed == c <= iters
    requires e.r == if c == iters then Done else if fails then PollFailed else Starved
    ensures Told(e, iters, d, limit, c, [], fails)
  {}

  lemma {:induction false} AnsweredOut(iters: nat, d: nat, polls: seq<Poll>, c: nat)
    requires c == iters && Possible(iters, d, polls, c)
    ensures Answers(polls) == []
    decreases |polls|
  {
    if polls != [] && polls[0].Batch? { AnsweredOut(iters, d, polls[1..], c); }
  }

  /** Good polls: no errors, and something in each of them. */
  predicate Good(polls: seq<Poll>) {
    forall i :: 0 <= i < |polls| ==>
      polls[i].Batch? && polls[i].cs != [] && forall x :: x in polls[i].cs ==> x.ok
  }

  lemma GoodPoll(iters: nat, d: nat, polls: seq<Poll>, c: nat)
    requires 1 <= d && c < iters && polls != [] && Good(polls)
    ensures polls[0].Batch? && Good(polls[1..])
    ensures var cs := Taken(iters, d, c, polls[0].cs); Leading(cs) == |cs| >= 1
  {
    var cs := Taken(iters, d, c, polls[0].cs);
    assert forall i :: 0 <= i < |cs| ==> cs[i] in polls[0].cs;
  }

  /** A loop with a window finishes once there are enough good polls, however small the batches are. */
  lemma {:induction false} EnoughPolls(iters: nat, d: nat, limit: nat, polls: seq<Poll>, c: nat)
    requires 1 <= d && c <= iters <= limit && |polls| >= iters - c && Good(polls)
    ensures Walk(iters, d, limit, polls, c).r.Done? && WalkBatches(iters, d, limit, polls, c).r.Done?
    decreases |polls|
  {
    hide Leading, Good;
    if c < iters {
      GoodPoll(iters, d, polls, c);
      EnoughPolls(iters, d, limit, polls[1..], c + |Taken(iters, d, c, polls[0].cs)|);
    }
  }

  /** Without a window nothing is ever posted, and the bandwidth loop never ends. */
  lemma {:induction false} NoWindowNeverEnds(iters: nat, limit: nat, polls: seq<Poll>)
    requires iters > 0
    ensures var e := Walk(iters, 0, limit, polls, 0);
            (e.r.Starved? || e.r.PollFailed?) && LogOf(iters, 0, iters, limit, e) == [] && e.completed == 0
    decreases |polls|
  {
    if polls != [] && polls[0].Batch? {
      assert Taken(iters, 0, 0, polls[0].cs) == [];
      NoWindowNeverEnds(iters, limit, polls[1..]);
    }
  }

  lemma SlotsUpto(n: nat, m: nat)
    requires n <= m && m > 0
    ensures Slots(n, m) == Upto(n)
  {
    forall i | 0 <= i < n ensures SlotId(i, m) == i { SlotSmall(i, m); }
  }

  /**
   * The two loops side by side: they part only inside a batch. A failed completion may come after posts of
   * the plain loop that the batched one has not made, and may keep the batched one from a post that fails.
   */
  lemma {:induction false} SameWalk(iters: nat, d: nat, limit: nat, polls: seq<Poll>, c: nat)
    requires d <= iters && c <= iters && Window(iters, d, c) <= limit
    ensures var e, b := Walk(iters, d, limit, polls, c), WalkBatches(iters, d, limit, polls, c);
            && e.atBatch == b.atBatch
            && (e.r == b.r || (e.r.PostFailed? && b.r.BadCompletion?))
            && (!e.r.PostFailed? ==> e.completed == b.completed)
            && (!b.r.PostFailed? && !b.r.BadCompletion? ==> b.atBatch == b.completed)
    decreases |polls|
  {
    hide Leading, Taken;
    if c < iters && polls != [] && polls[0].Batch? {
      var cs := Taken(iters, d, c, polls[0].cs);
      var n := Leading(cs);
      if Window(iters, d, c + n) <= limit && n == |cs| {
        SameWalk(iters, d, limit, polls[1..], c + n);
      }
    }
  }

  /**
   * Under one poll script and the same failing post the batched loop submits the ids of the plain one; after
   * a failed completion or post it may be short of those the plain loop had posted in the middle of that
   * batch. Both end alike, unless the batch holds a failed completion behind a post that fails.
   */
  lemma BatchIsPrefix(iters: nat, txDepth: int, polls: seq<Poll>, limit: nat,
                      r: Result, completed: nat, log: seq<Event>)
    requires iters > 0 && Ran(iters, Depth(iters, txDepth), iters, polls, limit, r, completed, log)
    ensures var d := Depth(iters, txDepth); var b := EndsBatched(iters, d, limit, polls);
            && (r == b.r || (r.PostFailed? && b.r.BadCompletion?))
            && (!r.PostFailed? ==> completed == b.completed)
            && Submitted(iters, d, limit, polls) <= Ids(log)
            && (!r.BadCompletion? && !r.PostFailed? ==> Submitted(iters, d, limit, polls) == Ids(log))
  {
    hide SlotId, History, Walk, WalkBatches, Ids, Completions;
    var d := Depth(iters, txDepth);
    var e := Ends(iters, d, limit, polls);
    SuccessIsComplete(iters, d, iters, polls, limit, r, completed, log);
    if d <= limit { SameWalk(iters, d, limit, polls, 0); }
    SlotsUpto(if r.PostFailed? then limit else Window(iters, d, completed), iters);
  }

  /** Both loops submit `0, 1, ...`; a refused batch goes on from there, past the post that fails in the plain loop. */
  lemma RefusedIds(iters: nat, txDepth: int, polls: seq<Poll>, limit: nat, r: Result, completed: nat, log: seq<Event>)
    requires iters > 0 && Ran(iters, Depth(iters, txDepth), iters, polls, limit, r, completed, log)
    ensures var d := Depth(iters, txDepth);
            var before, refused := Submitted(iters, d, limit, polls), Refused(iters, d, limit, polls);
            && Ids(log) == Upto(|Ids(log)|)
            && |before + refused| <= iters && before + refused == Upto(|before + refused|)
            && (refused != [] ==> r.PostFailed? && |Ids(log)| == limit < |before + refused|)
  {
    hide SlotId, History, Walk, WalkBatches, Ids, Completions;
    var d := Depth(iters, txDepth);
    SuccessIsComplete(iters, d, iters, polls, limit, r, completed, log);
    if d <= limit { SameWalk(iters, d, limit, polls, 0); }
    SlotsUpto(if r.PostFailed? then limit else Window(iters, d, completed), iters);
  }

  // ------------------------------------------------------------ ring slots

  lemma MulAtLeast(k: int, d: nat)
    requires k >= 1
    ensures k * d >= d
  {
    assert k * d == (k - 1) * d + d;
  }

  lemma SameQuotient(q: int, r: int, q': int, r': int, d: nat)
    requires 0 <= r < d && 0 <= r' < d && q * d + r == q' * d + r'
    ensures q == q' && r == r'
  {
    if q < q' {
      assert q' * d - q * d == (q' - q) * d;
      MulAtLeast(q' - q, d);
    } else if q > q' {
      assert q * d - q' * d == (q - q') * d;
      MulAtLeast(q - q', d);
    }
  }

  lemma DivMod(x: nat, d: nat) returns (q: nat)
    requires d > 0
    ensures x == q * d + SlotId(x, d) && SlotId(x, d) < d
  {
    q := x / d;
  }

  lemma SlotDistinct(i: nat, j: nat, d: nat)
    requires i < j < i + d
    ensures SlotId(i, d) != SlotId(j, d)
  {
    hide SlotId;
    var a := DivMod(i, d);
    var b := DivMod(j, d);
    if SlotId(i, d) == SlotId(j, d) {
      var r := j - i;
      assert b * d + 0 == a * d + r;
      SameQuotient(b, 0, a, r, d);
    }
  }

  lemma SlotShift(k: nat, d: nat)
    requires d > 0
    ensures SlotId(d + k, d) == SlotId(k, d)
  {
    hide SlotId;
    var a := DivMod(k, d);
    var b := DivMod(d + k, d);
    assert (a + 1) * d == a * d + d;
    SameQuotient(b, SlotId(d + k, d), a + 1, SlotId(k, d), d);
  }

  lemma SlotSmall(k: nat, m: nat)
    requires k < m
    ensures SlotId(k, m) == k
  {
    hide SlotId;
    var q := DivMod(k, m);
    assert 0 * m == 0;
    SameQuotient(q, SlotId(k, m), 0, k, m);
  }

  /**
   * In `drain`, when receives complete in order, the slot reposted is the one that just completed, and at
   * every moment the outstanding receives hold different slots.
   */
  lemma DrainSlots(iters: nat, d: nat, c: nat, log: seq<Event>, i: nat, j: nat)
    requires 0 < d <= iters && c <= iters && log <= History(iters, d, d, c)
    requires Completions(log) <= i < j < |Ids(log)|
    ensures Ids(log)[i] != Ids(log)[j] && Ids(log)[i] < d
    ensures c < iters && d + c < iters ==>
              History(iters, d, d, c + 1) == History(iters, d, d, c) + [Completed, Posted(SlotId(c, d))]
  {
    WindowHeld(iters, d, d, c, log);
    SlotDistinct(i, j, d);
    SlotShift(c, d);
    var _ := DivMod(i, d);
  }

  /** The buffer regions of two different slots are disjoint and inside the registered memory. */
  lemma RegionsDisjoint(a: nat, b: nat, txDepth: nat, size: nat)
    requires a < b < txDepth
    ensures var x, y := SlotId(a, txDepth) * size, SlotId(b, txDepth) * size;
            0 <= x && x + size <= y && y + size <= txDepth * size
  {
    hide SlotId;
    SlotSmall(a, txDepth);
    SlotSmall(b, txDepth);
    MulAtLeast(b - a, size);
    MulAtLeast(txDepth - b, size);
    assert b * size - a * size == (b - a) * size;
    assert txDepth * size - b * size == (txDepth - b) * size;
    assert a * size >= 0;
  }
}
