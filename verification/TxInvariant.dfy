/** What every step keeps on the sending half of one side, whatever the peer does. */
module TxInvariant {
  import opened Words

  import opened Framing
  import opened Endpoint
  import opened Slots

  function Wire(t: Tx): seq<Frame> { FramesAt(t.sq, t.mem) }
  function Finishing(t: Tx): seq<Frame> { FramesAt(t.cq, t.mem) }
  function HeldSlot(s: Sender): seq<nat> { if s.SPost? then [s.slot] else [] }

  /** Data sends posted whose completion the poller has not handled. */
  function InFlight(t: Tx): nat { |DataOf(Wire(t))| + |DataOf(Finishing(t))| }

  predicate Active(s: Sender) { s.SDrain? || s.SAcquire? || s.SSlot? || s.SPost? }
  function Todo(s: Sender): seq<Frame> { if Active(s) then s.task.todo else [] }

  /** The data frames posted, and those the running call still has to post. */
  function Committed(t: Tx): seq<Frame> { DataOf(t.log.stream) + Todo(t.sender) }

  /** Tokens the running send call still has to see. */
  function Owed(s: Sender): int {
    match s
    case SIdle => 0
    case SWait(left) => left
    case _ => s.task.posted - s.task.done
  }

  /** Tokens queued, the token in the poller's hand, and sends that will each yield one. */
  function Tokens(t: Tx): nat { t.tokens + (if t.pushing then 1 else 0) + InFlight(t) }

  /** In how many places of the send ring a slot is found. */
  function Places(t: Tx, x: nat): nat {
    Count(t.free, x) + Count(t.ctrlFree, x) + Count(HeldSlot(t.sender), x) + Count(t.sq, x)
    + Count(t.cq, x) + Count(t.log.lostData, x) + Count(t.log.lostCtrl, x)
  }

  // ------------------------------------------------------------ invariants

  /** Every slot of the send ring is in exactly one place. */
  ghost predicate Partitioned(cfg: Config, t: Tx) {
    && |t.mem| == cfg.SendSlots()
    && forall x: nat :: Places(t, x) == if x < cfg.SendSlots() then 1 else 0
  }

  /** A frame the transport may post. */
  predicate FrameOk(cfg: Config, f: Frame) {
    match f
    case Data(p, _) => |p| <= cfg.chunk && |p| <= MAX_MESSAGE
    case Credit(n) => 1 <= n <= cfg.Threshold()
    case Fin => true
  }

  ghost predicate SlotKind(cfg: Config, mem: seq<Frame>, slot: nat) {
    slot < |mem| && (slot < cfg.depth <==> mem[slot].Data?) && FrameOk(cfg, mem[slot])
  }

  /** Data slots carry data frames, credit slots control frames, and each pool holds its own kind. */
  ghost predicate Kinds(cfg: Config, t: Tx) {
    && (forall s :: s in t.sq ==> SlotKind(cfg, t.mem, s))
    && (forall s :: s in t.cq ==> SlotKind(cfg, t.mem, s))
    && (forall s :: s in t.free ==> s < cfg.depth)
    && (t.sender.SPost? ==> t.sender.slot < cfg.depth)
    && (forall s :: s in t.ctrlFree ==> cfg.depth <= s < cfg.SendSlots())
    && (forall f :: f in Todo(t.sender) ==> f.Data? && FrameOk(cfg, f))
  }

  /** The partition in numbers: no pool channel can be full when the poller sends on it. */
  ghost predicate Counted(cfg: Config, t: Tx, closed: bool) {
    && |t.free| + |HeldSlot(t.sender)| + InFlight(t) + |t.log.lostData| == cfg.depth
    && |t.ctrlFree| + (|t.sq| + |t.cq| - InFlight(t)) + |t.log.lostCtrl| == CREDIT_SLOTS
    && (!closed ==> t.log.lostData == [] && t.log.lostCtrl == [] && !t.log.aborted && t.log.leak == 0)
    && (t.shut ==> closed)
  }

  /**
   * On an open side a call owes exactly the tokens that are queued or will still arrive; close may lose
   * some, so from then on it owes at least those, until a call gives up.
   */
  ghost predicate TokensMatch(cfg: Config, t: Tx, closed: bool) {
    && (cfg.atomicDispatch ==> !t.pushing)
    && t.tokens <= cfg.depth
    && (!closed ==> Tokens(t) == Owed(t.sender))
    && (!t.log.aborted ==> Tokens(t) <= Owed(t.sender))
    && (!closed && Active(t.sender) && !t.sender.SDrain? ==>
          Tokens(t) <= cfg.depth + if cfg.atomicDispatch then 0 else 1)
  }

  /**
   * The frames posted are those of the accepted messages, in order, and without a gap until a call has left
   * some of its frames unposted and a later one has posted behind them.
   */
  ghost predicate InSequence(cfg: Config, t: Tx)
    requires cfg.Valid()
  {
    var posted, all := DataOf(t.log.stream), AllFrames(t.log.accepted, cfg.chunk);
    && Subsequence(posted + Todo(t.sender), all)
    && (!t.log.torn ==> posted + Todo(t.sender) == all)
    && (t.log.sound < 0 ==> posted <= all)
    && (t.log.sound >= 0 ==> t.log.torn && t.log.sound <= |posted| && posted[..t.log.sound] <= all)
  }

  /** The data frames posted with no gap before them. */
  function Sound(t: Tx): seq<Frame> {
    var posted := DataOf(t.log.stream);
    if 0 <= t.log.sound <= |posted| then posted[..t.log.sound] else posted
  }

  /** How a call that gave up with frames unposted leaves things: a credit is lost, or the tracker closed. */
  ghost predicate GivenUp(t: Tx, closed: bool) {
    && (t.log.torn ==> t.log.aborted) && (t.log.aborted ==> closed)
    && (t.log.aborted && Active(t.sender) ==> t.log.again) && (t.log.sound >= 0 ==> t.log.torn && t.log.again)
    && (t.log.torn ==> t.log.leak >= 1 || (t.shut && !t.sender.SSlot? && !t.sender.SPost?))
  }

  ghost predicate Posting(cfg: Config, t: Tx, closed: bool)
    requires cfg.Valid()
  {
    && (forall m :: m in t.log.accepted ==> |m| <= MAX_MESSAGE)
    && (Active(t.sender) ==> Todo(t.sender) != [] && t.sender.task.posted <= |DataOf(t.log.stream)|)
    && t.log.finished <= |t.log.accepted|
    && AllFrames(t.log.accepted[..t.log.finished], cfg.chunk) <= DataOf(t.log.stream)
    && InSequence(cfg, t) && GivenUp(t, closed)
  }

  /** FIN stands behind every message whose call had returned, and is last if posted between calls. */
  ghost predicate FinPosted(cfg: Config, t: Tx)
    requires cfg.Valid()
  {
    && -1 <= t.log.finAt <= t.log.finished <= |t.log.accepted|
    && (t.log.finAt < 0 ==> Fin !in t.log.stream)
    && (t.log.finClean ==> t.log.finAt >= 0 && t.sender.SIdle? && !t.log.aborted)
    && (forall i :: 0 <= i < |t.log.stream| && t.log.stream[i] == Fin ==> FinBehind(cfg, t.log, i))
  }

  ghost predicate FinBehind(cfg: Config, log: TxLog, i: nat)
    requires cfg.Valid() && i <= |log.stream| && log.finAt <= |log.accepted|
  {
    && log.finAt >= 0
    && AllFrames(log.accepted[..log.finAt], cfg.chunk) <= DataOf(log.stream[..i])
    && (log.finClean ==> DataOf(log.stream[..i]) == DataOf(log.stream))
    && (log.sound >= 0 ==> |DataOf(log.stream[..i])| <= log.sound)
  }

  ghost predicate TxInv(cfg: Config, t: Tx, closed: bool)
    requires cfg.Valid()
  {
    && Partitioned(cfg, t) && Kinds(cfg, t) && Counted(cfg, t, closed) && TokensMatch(cfg, t, closed)
    && Posting(cfg, t, closed) && FinPosted(cfg, t)
  }

  // ------------------------------------------------------------- partition

  /** A send slot in one place is in no other one: what is posted cannot be overwritten. */
  lemma SlotOnce(cfg: Config, t: Tx, x: nat)
    requires Partitioned(cfg, t)
    ensures x in HeldSlot(t.sender) || x in t.ctrlFree ==> x !in t.sq && x !in t.cq
  {
    assert Places(t, x) <= 1;
    CountIn(HeldSlot(t.sender), x);
    CountIn(t.ctrlFree, x);
    CountIn(t.sq, x);
    CountIn(t.cq, x);
  }

  lemma PlacesTakeSlot(t: Tx, x: nat)
    requires CanTakeSlot(t)
    ensures Places(DoTakeSlot(t), x) == Places(t, x)
  {
    CountHead(t.free, x);
    CountOne(t.free[0], x);
  }

  lemma PlacesPostData(t: Tx, x: nat)
    requires CanPostData(t)
    ensures Places(DoPostData(t), x) == Places(t, x)
  {
    CountSnoc(t.sq, t.sender.slot, x);
    CountOne(t.sender.slot, x);
  }

  lemma PlacesPostControl(t: Tx, f: Frame, x: nat)
    requires CanPostControl(t)
    ensures Places(PostControl(t, f), x) == Places(t, x)
  {
    CountHead(t.ctrlFree, x);
    CountSnoc(t.sq, t.ctrlFree[0], x);
  }

  lemma PlacesPollSend(cfg: Config, t: Tx, x: nat)
    requires t.cq != []
    ensures Places(DoPollSend(cfg, t), x) == Places(t, x)
  {
    hide Count;
    CountHead(t.cq, x);
    CountSnoc(t.free, t.cq[0], x);
    CountSnoc(t.ctrlFree, t.cq[0], x);
  }

  lemma PlacesDropSend(cfg: Config, t: Tx, x: nat)
    requires t.cq != []
    ensures Places(DoDropSend(cfg, t), x) == Places(t, x)
  {
    hide Count;
    CountHead(t.cq, x);
    if t.cq[0] < cfg.depth { CountSnoc(t.log.lostData, t.cq[0], x); } else { CountSnoc(t.log.lostCtrl, t.cq[0], x); }
  }

  lemma PlacesAccepted(t: Tx, x: nat)
    requires t.sq != []
    ensures Places(Accepted(t), x) == Places(t, x)
  {
    CountHead(t.sq, x);
    CountSnoc(t.cq, t.sq[0], x);
  }

  lemma PlacesKept(cfg: Config, t: Tx, closed: bool, s: TxStep, x: nat)
    requires cfg.Valid() && TxEnabled(cfg, t, closed, s)
    ensures Places(TxApply(cfg, t, closed, s), x) == Places(t, x)
  {
    hide Count;
    match s {
      case TakeSlot => PlacesTakeSlot(t, x);
      case PostData => PlacesPostData(t, x);
      case PostFin => PlacesPostControl(t, Fin, x);
      case PollSend => PlacesPollSend(cfg, t, x);
      case DropSend => PlacesDropSend(cfg, t, x);
      case _ =>
    }
  }

  // ------------------------------------------------- what a step does to the wire

  lemma WirePost(t: Tx, slot: nat, f: Frame)
    requires slot < |t.mem| && slot !in t.sq && slot !in t.cq
    ensures var t' := PostFrame(t, slot, f);
            && Wire(t') == Wire(t) + [f] && Finishing(t') == Finishing(t)
            && InFlight(t') == InFlight(t) + if f.Data? then 1 else 0
  {
    FramesAtOther(t.sq, t.mem, slot, f);
    FramesAtOther(t.cq, t.mem, slot, f);
    FramesAtSnoc(t.sq, slot, t.mem[slot := f]);
    ProjectSnoc(Wire(t), f);
  }

  /** What a step that only takes the head of the send completions does to the in-flight count. */
  lemma WirePoll(t: Tx, t': Tx)
    requires t.cq != [] && t.cq[0] < |t.mem|
    requires t'.cq == t.cq[1..] && t'.mem == t.mem && t'.sq == t.sq
    ensures Wire(t') == Wire(t) && InFlight(t') == InFlight(t) - if t.mem[t.cq[0]].Data? then 1 else 0
  {
    FramesAtHead(t.cq, t.mem);
    ProjectHead(Finishing(t));
  }

  lemma WireAccepted(t: Tx)
    requires t.sq != [] && t.sq[0] < |t.mem|
    ensures Wire(t) == [t.mem[t.sq[0]]] + Wire(Accepted(t)) && InFlight(Accepted(t)) == InFlight(t)
    ensures |DataOf(Wire(t))| == |DataOf(Wire(Accepted(t)))| + if t.mem[t.sq[0]].Data? then 1 else 0
  {
    var f := t.mem[t.sq[0]];
    FramesAtHead(t.sq, t.mem);
    FramesAtSnoc(t.cq, t.sq[0], t.mem);
    ProjectHead(Wire(t));
    ProjectSnoc(Finishing(t), f);
  }

  // ------------------------------------------------------------------ kinds

  lemma {:induction false} FramesFit(cfg: Config, msgs: seq<Bytes>)
    requires cfg.Valid() && forall m :: m in msgs ==> |m| <= MAX_MESSAGE
    ensures forall f :: f in AllFrames(msgs, cfg.chunk) ==> f.Data? && FrameOk(cfg, f)
  {
    if msgs != [] {
      var m := msgs[|msgs| - 1];
      FramesFit(cfg, msgs[..|msgs| - 1]);
      forall i | 0 <= i < FragmentCount(|m|, cfg.chunk)
        ensures FrameOk(cfg, Fragment(m, cfg.chunk, i))
      {
        FragmentBounds(m, cfg.chunk, i);
        assert (i + 1) * cfg.chunk == i * cfg.chunk + cfg.chunk;
      }
    }
  }

  lemma KindsPost(cfg: Config, t: Tx, slot: nat, f: Frame)
    requires Kinds(cfg, t) && Partitioned(cfg, t)
    requires slot in HeldSlot(t.sender) || slot in t.ctrlFree
    requires slot < |t.mem| && (slot < cfg.depth <==> f.Data?) && FrameOk(cfg, f)
    ensures Kinds(cfg, PostFrame(t, slot, f))
  {
    SlotOnce(cfg, t, slot);
  }

  lemma KindsMove(cfg: Config, t: Tx)
    requires Kinds(cfg, t)
    ensures t.free != [] ==> t.free[0] < cfg.depth && forall s :: s in t.free[1..] ==> s < cfg.depth
    ensures t.ctrlFree != [] ==>
              && cfg.depth <= t.ctrlFree[0] < cfg.SendSlots()
              && forall s :: s in t.ctrlFree[1..] ==> cfg.depth <= s < cfg.SendSlots()
    ensures t.cq != [] ==> SlotKind(cfg, t.mem, t.cq[0]) && forall s :: s in t.cq[1..] ==> SlotKind(cfg, t.mem, s)
    ensures t.sq != [] ==> SlotKind(cfg, t.mem, t.sq[0]) && forall s :: s in t.sq[1..] ==> SlotKind(cfg, t.mem, s)
  {
    if t.free != [] {
      assert t.free[0] in t.free;
      forall s | s in t.free[1..] ensures s < cfg.depth { assert s in t.free; }
    }
    if t.ctrlFree != [] {
      assert t.ctrlFree[0] in t.ctrlFree;
      forall s | s in t.ctrlFree[1..] ensures cfg.depth <= s < cfg.SendSlots() { assert s in t.ctrlFree; }
    }
    if t.cq != [] { assert t.cq[0] in t.cq; }
    if t.sq != [] { assert t.sq[0] in t.sq; }
  }

  lemma KindsPostData(cfg: Config, t: Tx)
    requires Kinds(cfg, t) && Partitioned(cfg, t) && CanPostData(t)
    ensures Kinds(cfg, DoPostData(t))
  {
    var task := t.sender.task;
    assert task.todo[0] in Todo(t.sender);
    KindsPost(cfg, t, t.sender.slot, task.todo[0]);
  }

  lemma KindsPostControl(cfg: Config, t: Tx, f: Frame)
    requires Kinds(cfg, t) && Partitioned(cfg, t) && CanPostControl(t) && !f.Data? && FrameOk(cfg, f)
    ensures Kinds(cfg, PostControl(t, f))
  {
    KindsMove(cfg, t);
    KindsPost(cfg, t, t.ctrlFree[0], f);
  }

  lemma KindsPoll(cfg: Config, t: Tx)
    requires Kinds(cfg, t) && t.cq != [] && |t.mem| == cfg.SendSlots()
    ensures Kinds(cfg, DoPollSend(cfg, t))
    ensures Kinds(cfg, DoDropSend(cfg, t))
  {
    KindsMove(cfg, t);
  }

  lemma KindsAccepted(cfg: Config, t: Tx)
    requires Kinds(cfg, t) && t.sq != []
    ensures Kinds(cfg, Accepted(t))
  {
    KindsMove(cfg, t);
  }

  lemma KindsKept(cfg: Config, t: Tx, closed: bool, s: TxStep)
    requires cfg.Valid() && Kinds(cfg, t) && Partitioned(cfg, t) && TxEnabled(cfg, t, closed, s)
    ensures Kinds(cfg, TxApply(cfg, t, closed, s))
  {
    match s {
      case SendCall(msgs) => FramesFit(cfg, msgs);
      case TakeSlot => KindsMove(cfg, t);
      case PostData => KindsPostData(cfg, t);
      case PostFin => KindsPostControl(cfg, t, Fin);
      case PollSend => KindsPoll(cfg, t);
      case DropSend => KindsPoll(cfg, t);
      case _ =>
    }
  }

  // ---------------------------------------------------------------- numbers

  /** What a step adds to the number of data sends in flight. */
  function Delta(cfg: Config, t: Tx, s: TxStep): int {
    if s.PostData? then 1
    else if (s.PollSend? || s.DropSend?) && t.cq != [] && t.cq[0] < cfg.depth then -1
    else 0
  }

  lemma InFlightDelta(cfg: Config, t: Tx, closed: bool, s: TxStep)
    requires cfg.Valid() && Kinds(cfg, t) && Partitioned(cfg, t) && TxEnabled(cfg, t, closed, s)
    ensures InFlight(TxApply(cfg, t, closed, s)) == InFlight(t) + Delta(cfg, t, s)
  {
    hide Count;
    match s {
      case PostData =>
        SlotOnce(cfg, t, t.sender.slot);
        assert t.sender.task.todo[0] in Todo(t.sender);
        WirePost(t, t.sender.slot, t.sender.task.todo[0]);
      case PostFin =>
        SlotOnce(cfg, t, t.ctrlFree[0]);
        WirePost(t, t.ctrlFree[0], Fin);
      case PollSend =>
        KindsMove(cfg, t);
        WirePoll(t, DoPollSend(cfg, t));
      case DropSend =>
        KindsMove(cfg, t);
        WirePoll(t, DoDropSend(cfg, t));
      case _ =>
    }
  }

  lemma CountedKept(cfg: Config, t: Tx, closed: bool, s: TxStep)
    requires cfg.Valid() && TxEnabled(cfg, t, closed, s) && Counted(cfg, t, closed)
    requires InFlight(TxApply(cfg, t, closed, s)) == InFlight(t) + Delta(cfg, t, s)
    ensures Counted(cfg, TxApply(cfg, t, closed, s), closed)
  {
    hide InFlight, AllFrames;
  }

  lemma TokensKept(cfg: Config, t: Tx, closed: bool, s: TxStep)
    requires cfg.Valid() && TxEnabled(cfg, t, closed, s) && TokensMatch(cfg, t, closed)
    requires InFlight(TxApply(cfg, t, closed, s)) == InFlight(t) + Delta(cfg, t, s)
    requires Counted(cfg, t, closed)
    ensures TokensMatch(cfg, TxApply(cfg, t, closed, s), closed)
  {
    hide InFlight, AllFrames;
  }

  lemma NumbersKept(cfg: Config, t: Tx, closed: bool, s: TxStep)
    requires cfg.Valid() && TxEnabled(cfg, t, closed, s)
    requires InFlight(TxApply(cfg, t, closed, s)) == InFlight(t) + Delta(cfg, t, s)
    requires Counted(cfg, t, closed) && TokensMatch(cfg, t, closed)
    ensures Counted(cfg, TxApply(cfg, t, closed, s), closed)
    ensures TokensMatch(cfg, TxApply(cfg, t, closed, s), closed)
  {
    hide Counted, TokensMatch, TxEnabled, TxApply, InFlight, Delta;
    CountedKept(cfg, t, closed, s);
    TokensKept(cfg, t, closed, s);
  }

  // ---------------------------------------------------------------- streams

  /** What leaves the posted data and the call alone. */
  lemma SequenceSame(cfg: Config, t: Tx, t': Tx)
    requires cfg.Valid() && InSequence(cfg, t)
    requires DataOf(t'.log.stream) == DataOf(t.log.stream) && Todo(t'.sender) == Todo(t.sender)
    requires t'.log.accepted == t.log.accepted && t'.log.torn == t.log.torn && t'.log.sound == t.log.sound
    ensures InSequence(cfg, t')
  {
    hide AllFrames, DataOf, Subsequence, Todo;
  }

  lemma SequenceSendCall(cfg: Config, t: Tx, msgs: seq<Bytes>)
    requires cfg.Valid() && InSequence(cfg, t) && CanSendCall(t, msgs)
    ensures InSequence(cfg, DoSendCall(cfg, t, msgs))
  {
    hide AllFrames, DataOf, Subsequence;
    var posted, all, more := DataOf(t.log.stream), AllFrames(t.log.accepted, cfg.chunk), AllFrames(msgs, cfg.chunk);
    AllFramesConcat(t.log.accepted, msgs, cfg.chunk);
    assert posted + [] == posted;
    SubsequenceConcat(posted, all, more);
    assert all <= all + more;
  }

  lemma PostingSendCall(cfg: Config, t: Tx, closed: bool, msgs: seq<Bytes>)
    requires cfg.Valid() && Posting(cfg, t, closed) && CanSendCall(t, msgs)
    ensures Posting(cfg, DoSendCall(cfg, t, msgs), closed)
  {
    hide AllFrames, DataOf, InSequence;
    SequenceSendCall(cfg, t, msgs);
    AllFramesConcat(t.log.accepted, msgs, cfg.chunk);
    assert (t.log.accepted + msgs)[..t.log.finished] == t.log.accepted[..t.log.finished];
    AllFramesNonEmpty(msgs, cfg.chunk);
  }

  lemma SequencePost(cfg: Config, t: Tx)
    requires cfg.Valid() && CanPostData(t) && t.sender.task.todo[0].Data? && InSequence(cfg, t)
    ensures InSequence(cfg, DoPostData(t))
  {
    hide AllFrames, DataOf, Subsequence;
    var todo, t' := t.sender.task.todo, DoPostData(t);
    var posted := DataOf(t.log.stream);
    ProjectSnoc(t.log.stream, todo[0]);
    ShiftOne(posted, todo);
    assert Todo(t'.sender) == todo[1..] && DataOf(t'.log.stream) == posted + [todo[0]];
    assert posted <= posted + todo;
    assert (posted + [todo[0]])[..|posted|] == posted;
    if 0 <= t.log.sound { assert (posted + [todo[0]])[..t.log.sound] == posted[..t.log.sound]; }
  }

  lemma PostingPostData(cfg: Config, t: Tx, closed: bool)
    requires cfg.Valid() && t.sender.SPost? && t.sender.task.todo != [] && t.sender.task.todo[0].Data?
    requires Posting(cfg, t, closed) && CanPostData(t)
    ensures Posting(cfg, DoPostData(t), closed)
  {
    hide AllFrames, DataOf, InSequence;
    var todo := t.sender.task.todo;
    ProjectSnoc(t.log.stream, todo[0]);
    SequencePost(cfg, t);
    assert Todo(DoPostData(t).sender) == todo[1..];
  }

  lemma ShiftOne(a: seq<Frame>, b: seq<Frame>)
    requires b != []
    ensures a + b == (a + [b[0]]) + b[1..]
  {}

  lemma PostingPostFin(cfg: Config, t: Tx, closed: bool)
    requires cfg.Valid() && Posting(cfg, t, closed) && CanPostFin(t, closed)
    ensures Posting(cfg, DoPostFin(t), closed)
  {
    hide AllFrames, DataOf, InSequence;
    ProjectSnoc(t.log.stream, Fin);
    assert DataOf(t.log.stream) + [] == DataOf(t.log.stream);
    SequenceSame(cfg, t, DoPostFin(t));
  }

  lemma PostingReturn(cfg: Config, t: Tx, closed: bool)
    requires cfg.Valid() && Posting(cfg, t, closed) && CanSendReturn(t)
    ensures Posting(cfg, DoSendReturn(t), closed)
  {
    hide AllFrames, DataOf, Subsequence;
    assert t.log.accepted[..|t.log.accepted|] == t.log.accepted;
    assert DataOf(t.log.stream) + [] == DataOf(t.log.stream);
  }

  lemma SequenceAbort(cfg: Config, t: Tx)
    requires cfg.Valid() && InSequence(cfg, t) && CanSendAbort(t, true)
    ensures InSequence(cfg, DoSendAbort(t))
  {
    hide AllFrames, DataOf, Subsequence;
    var posted := DataOf(t.log.stream);
    SubsequencePrefix(posted, Todo(t.sender), AllFrames(t.log.accepted, cfg.chunk));
    assert posted + [] == posted && posted <= posted + Todo(t.sender);
  }

  lemma PostingAbort(cfg: Config, t: Tx)
    requires cfg.Valid() && Posting(cfg, t, true) && CanSendAbort(t, true)
    ensures Posting(cfg, DoSendAbort(t), true)
  {
    hide AllFrames, DataOf, InSequence;
    SequenceAbort(cfg, t);
  }

  lemma PostingKept(cfg: Config, t: Tx, closed: bool, s: TxStep)
    requires cfg.Valid() && Kinds(cfg, t) && Posting(cfg, t, closed) && TxEnabled(cfg, t, closed, s)
    ensures Posting(cfg, TxApply(cfg, t, closed, s), closed)
  {
    hide AllFrames, DataOf, Posting;
    match s {
      case SendCall(msgs) => PostingSendCall(cfg, t, closed, msgs);
      case PostData =>
        assert t.sender.task.todo[0] in Todo(t.sender);
        PostingPostData(cfg, t, closed);
      case PostFin => PostingPostFin(cfg, t, closed);
      case SendReturn => PostingReturn(cfg, t, closed);
      case SendAbort => PostingAbort(cfg, t);
      case _ => PostingQuiet(cfg, t, closed, s);
    }
  }

  /** The steps that neither post nor start or end a call. */
  lemma PostingQuiet(cfg: Config, t: Tx, closed: bool, s: TxStep)
    requires cfg.Valid() && Posting(cfg, t, closed) && TxEnabled(cfg, t, closed, s)
    requires !s.SendCall? && !s.PostData? && !s.PostFin? && !s.SendReturn? && !s.SendAbort?
    ensures Posting(cfg, TxApply(cfg, t, closed, s), closed)
  {
    hide AllFrames, DataOf, InSequence;
    SequenceSame(cfg, t, TxApply(cfg, t, closed, s));
  }

  lemma AllFramesNonEmpty(msgs: seq<Bytes>, chunk: nat)
    requires chunk > 0 && msgs != []
    ensures AllFrames(msgs, chunk) != []
  {}

  lemma FinPostedKept(cfg: Config, t: Tx, closed: bool, s: TxStep)
    requires cfg.Valid() && Kinds(cfg, t) && Posting(cfg, t, closed) && FinPosted(cfg, t)
    requires TxEnabled(cfg, t, closed, s)
    ensures FinPosted(cfg, TxApply(cfg, t, closed, s))
  {
    hide AllFrames, DataOf;
    var t' := TxApply(cfg, t, closed, s);
    match s {
      case PostData =>
        assert t.sender.task.todo[0] in Todo(t.sender);
        FinBehindSnoc(cfg, t, t'.log, t.sender.task.todo[0]);
      case PostFin => FinBehindFin(cfg, t, closed);
      case _ => FinBehindSame(cfg, t, t'.log);
    }
  }

  lemma FinBehindFin(cfg: Config, t: Tx, closed: bool)
    requires cfg.Valid() && Posting(cfg, t, closed) && FinPosted(cfg, t) && CanPostFin(t, closed)
    ensures FinPosted(cfg, DoPostFin(t))
  {
    hide AllFrames, DataOf;
    var t' := DoPostFin(t);
    forall i | 0 <= i < |t'.log.stream| && t'.log.stream[i] == Fin
      ensures FinBehind(cfg, t'.log, i)
    {
      if i < |t.log.stream| {
        assert false;
      }
      assert t'.log.stream[..i] == t.log.stream;
      ProjectSnoc(t.log.stream, Fin);
      assert t.log.sound < 0;
    }
  }

  lemma FinBehindSame(cfg: Config, t: Tx, log': TxLog)
    requires cfg.Valid() && FinPosted(cfg, t)
    requires log'.stream == t.log.stream && log'.finAt == t.log.finAt && (log'.finClean ==> t.log.finClean)
    requires t.log.accepted <= log'.accepted && log'.sound == t.log.sound
    ensures forall i :: 0 <= i < |log'.stream| && log'.stream[i] == Fin ==> FinBehind(cfg, log', i)
  {
    hide AllFrames, DataOf;
    forall i | 0 <= i < |log'.stream| && log'.stream[i] == Fin
      ensures FinBehind(cfg, log', i)
    {
      assert FinBehind(cfg, t.log, i);
      assert log'.accepted[..t.log.finAt] == t.log.accepted[..t.log.finAt];
    }
  }

  /** Posting a frame that is not FIN keeps every FIN where it is. */
  lemma FinBehindSnoc(cfg: Config, t: Tx, log': TxLog, f: Frame)
    requires cfg.Valid() && FinPosted(cfg, t) && f != Fin
    requires log'.stream == t.log.stream + [f] && log'.finAt == t.log.finAt && log'.finClean == t.log.finClean
    requires log'.accepted == t.log.accepted && (t.log.finClean ==> !f.Data?)
    requires log'.sound == t.log.sound || (t.log.sound < 0 && log'.sound == |DataOf(t.log.stream)|)
    ensures forall i :: 0 <= i < |log'.stream| && log'.stream[i] == Fin ==> FinBehind(cfg, log', i)
  {
    hide AllFrames, DataOf;
    ProjectSnoc(t.log.stream, f);
    forall i | 0 <= i < |log'.stream| && log'.stream[i] == Fin
      ensures FinBehind(cfg, log', i)
    {
      assert FinBehind(cfg, t.log, i);
      assert log'.stream[..i] == t.log.stream[..i];
      DataWithin(t.log.stream, i);
    }
  }

  lemma DataWithin(fs: seq<Frame>, i: nat)
    requires i <= |fs|
    ensures |DataOf(fs[..i])| <= |DataOf(fs)|
  {
    ProjectConcat(fs[..i], fs[i..]);
    assert fs == fs[..i] + fs[i..];
  }

  // ------------------------------------------------------------------ all steps

  lemma TxKept(cfg: Config, t: Tx, closed: bool, s: TxStep)
    requires cfg.Valid() && TxInv(cfg, t, closed) && TxEnabled(cfg, t, closed, s)
    ensures TxInv(cfg, TxApply(cfg, t, closed, s), closed)
  {
    var t' := TxApply(cfg, t, closed, s);
    assert Partitioned(cfg, t') by {
      forall x: nat
        ensures Places(t', x) == if x < cfg.SendSlots() then 1 else 0
      {
        PlacesKept(cfg, t, closed, s, x);
      }
    }
    KindsKept(cfg, t, closed, s);
    InFlightDelta(cfg, t, closed, s);
    NumbersKept(cfg, t, closed, s);
    PostingKept(cfg, t, closed, s);
    FinPostedKept(cfg, t, closed, s);
  }

  // ------------------------------------- the steps that come from elsewhere

  lemma PostControlNumbers(cfg: Config, t: Tx, closed: bool, f: Frame)
    requires Partitioned(cfg, t) && CanPostControl(t) && !f.Data?
    requires Counted(cfg, t, closed) && TokensMatch(cfg, t, closed)
    ensures Counted(cfg, PostControl(t, f), closed) && TokensMatch(cfg, PostControl(t, f), closed)
    ensures Wire(PostControl(t, f)) == Wire(t) + [f]
  {
    hide Count, DataOf;
    SlotOnce(cfg, t, t.ctrlFree[0]);
    WirePost(t, t.ctrlFree[0], f);
  }

  lemma PostControlStreams(cfg: Config, t: Tx, closed: bool, n: nat)
    requires cfg.Valid() && CanPostControl(t) && Posting(cfg, t, closed) && FinPosted(cfg, t)
    ensures Posting(cfg, PostControl(t, Credit(n)), closed) && FinPosted(cfg, PostControl(t, Credit(n)))
  {
    hide AllFrames, DataOf, InSequence;
    ProjectSnoc(t.log.stream, Credit(n));
    assert DataOf(t.log.stream) + [] == DataOf(t.log.stream);
    SequenceSame(cfg, t, PostControl(t, Credit(n)));
    FinBehindSnoc(cfg, t, PostControl(t, Credit(n)).log, Credit(n));
  }

  lemma TxKeptByPostControl(cfg: Config, t: Tx, closed: bool, n: nat)
    requires cfg.Valid() && TxInv(cfg, t, closed) && CanPostControl(t) && 1 <= n <= cfg.Threshold()
    ensures TxInv(cfg, PostControl(t, Credit(n)), closed)
    ensures Wire(PostControl(t, Credit(n))) == Wire(t) + [Credit(n)]
  {
    hide Count, AllFrames, DataOf;
    var f := Credit(n);
    var t' := PostControl(t, f);
    assert Partitioned(cfg, t') by {
      forall x: nat
        ensures Places(t', x) == if x < cfg.SendSlots() then 1 else 0
      {
        PlacesPostControl(t, f, x);
      }
    }
    KindsPostControl(cfg, t, f);
    PostControlNumbers(cfg, t, closed, f);
    PostControlStreams(cfg, t, closed, n);
  }

  lemma TxKeptByAccepted(cfg: Config, t: Tx, closed: bool)
    requires cfg.Valid() && TxInv(cfg, t, closed) && t.sq != []
    ensures TxInv(cfg, Accepted(t), closed)
    ensures t.sq[0] < |t.mem| && FrameOk(cfg, t.mem[t.sq[0]])
    ensures Wire(t) == [t.mem[t.sq[0]]] + Wire(Accepted(t))
  {
    hide Count, AllFrames, DataOf;
    var t' := Accepted(t);
    KindsMove(cfg, t);
    assert Partitioned(cfg, t') by {
      forall x: nat
        ensures Places(t', x) == if x < cfg.SendSlots() then 1 else 0
      {
        PlacesAccepted(t, x);
      }
    }
    KindsAccepted(cfg, t);
    WireAccepted(t);
  }

  lemma TxKeptByRelease(cfg: Config, t: Tx, closed: bool, f: Frame)
    requires cfg.Valid() && TxInv(cfg, t, closed)
    ensures TxInv(cfg, Released(t, f), closed)
    ensures Wire(Released(t, f)) == Wire(t)
  {
    hide Count, AllFrames, DataOf;
    var t' := Released(t, f);
    forall x: nat
      ensures Places(t', x) == Places(t, x)
    {}
    assert forall i :: 0 <= i < |t.log.stream| && t.log.stream[i] == Fin ==> FinBehind(cfg, t.log, i);
  }

  lemma TxKeptByClose(cfg: Config, t: Tx, closed: bool)
    requires cfg.Valid() && TxInv(cfg, t, closed)
    ensures TxInv(cfg, t, true)
  {
    hide Count, AllFrames, DataOf;
  }

  lemma TxKeptByShut(cfg: Config, t: Tx)
    requires cfg.Valid() && TxInv(cfg, t, true)
    ensures TxInv(cfg, t.(shut := true), true) && Wire(t.(shut := true)) == Wire(t)
  {
    hide Count, AllFrames, DataOf;
    var t' := t.(shut := true);
    forall x: nat
      ensures Places(t', x) == Places(t, x)
    {}
    SequenceSame(cfg, t, t');
    hide InSequence;
    assert forall i :: 0 <= i < |t.log.stream| && t.log.stream[i] == Fin ==> FinBehind(cfg, t.log, i);
  }

  lemma TxInit(cfg: Config, e: End, sendMem: seq<Frame>, recvMem: seq<Frame>)
    requires cfg.Valid() && |sendMem| == cfg.SendSlots() && e == InitEnd(cfg, sendMem, recvMem)
    ensures TxInv(cfg, e.tx, false)
  {
    var t := e.tx;
    forall x: nat
      ensures Places(t, x) == if x < cfg.SendSlots() then 1 else 0
    {
      RangeOnce(0, cfg.depth, x);
      RangeOnce(cfg.depth, cfg.SendSlots(), x);
    }
    assert t.log.accepted[..0] == [];
  }
}
