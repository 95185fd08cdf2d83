# A model of the rdmanet transport and its drivers

This project models the RC message transport of `rdmanet` (framing, credit flow control, bounce-buffer
rings, completion poller, graceful end), the throughput loops of `RawConn` and `perftest`, the batched
post, the RDMA-write ping-pong, the address text form, the byte stream and the buffer lifecycle, and
proves what they promise.

## How it is built

- `Words`, `Framing`, `Credit`: bytes and words, headers, fragments, reassembly, the credit tracker.
- `Endpoint`: one side of a connection as a value, and one function for each atomic step of its
  goroutines, of the poller and of the device. `TxInvariant`, `RxInvariant`: what each step keeps.
- `Protocol`: two sides and two wires, every interleaving; the invariant of every run. `Guarantees`,
  `Progress`: what follows for every reachable state. `Runs`, `Calm`: runs from one state to another, the
  symmetry of the two sides, and pairs with nothing under way. `Wedge`, `Corners`, `Headroom`: where a
  promise fails, with the exact condition under which it does. `Closing`: the same for what `close` does
  to messages under way.
- `Rings`, `Transport`: the object on its byte arrays, with channels as queues and posted work requests.
  Each method is one select, channel operation or post; `view` is its abstract state, `Valid` ties every
  field and every byte of both rings to it, and `past` says that it got there by steps of `Endpoint`.
- `Scheduling`: who can take which step, and when a call is blocked. `Interleaving`, `SendCalls`,
  `ReceiveCalls`: the calls with their loops, interrupted at every point where others can act; a plan says
  what they do there, and the contracts hold for every plan. `Ran` says that what has happened is the plan,
  as far as it is used, around the call's own steps; `Stuck` is a call still blocked when it is used up.
- `Connection`: two such objects and the bytes between them. Under any schedule their states are a
  reachable state of `Protocol`, so all its theorems hold of them.
- `WakeUp`, `Pipeline`, `PostSend`, `BatchedPipeline`, `WriteLat`, `WordLane`, `AddrText`, `Stream`,
  `BufferState`: the other parts, each with its own theorems.

## What is assumed

- The wire of each direction is in order and lossless; its head frame waits until a receive is posted;
  a send completes when the peer has taken its frame. Send and receive completions come out in any
  interleaving. These are properties of the device, not of this code.
- Both ends use the same depth and slot size, and the depth is below 2^32, so that work-request ids of
  data and credit slots do not meet. The peer sends only frames this transport could have sent.
- In the transport no post and no completion fails. (After a failed post the code loses the credit it had
  acquired, and in the middle of a message leaves a partial one at the peer.)
- The host is little-endian (the lane of the sentinel byte).
- A step is what one goroutine does between two points at which others can interfere. `dispatch` of a
  data send is two steps, as in the code (`atomicDispatch` false, always so in `Transport`), or one step
  where a property needs it and says so. In the one-step form, a dispatch that meets a closed transport
  either does both channel operations or neither.

## Where the code and what is said of it differ

- `drainSendDone` is meant to keep the token channel from blocking the poller (rdmanet/transport_linux.go:357-359,
  425-428). Because the slot is freed before its token is pushed, one more token can be owed than the
  channel holds. If the sender then waits for a credit, poller and sender wait for each other for good.
  This can happen exactly to calls of at least depth + 2 frames, to each of them (`Wedge.WedgeExactly`).
- Control frames need no credit because the receive ring is "sized with headroom" (rdmanet/transport_linux.go:523-526).
  It has exactly depth slots. A control frame awaiting dispatch holds one of them, so at every depth data
  on the wire can outnumber the posted receives, by up to the depth (`Headroom.DataOutnumbersReceives`); the
  exact balance is `Guarantees.ReceivesCoverData`. A side can rely on its data fitting exactly as long as it
  has received nothing and posted no FIN (`Headroom.DataFitsWhile`). The largest excess of the whole wire is
  depth + 1 frames (`Headroom.LargestExcess`), so it stays within four exactly up to depth three
  (`Headroom.ExcessAtMostFour`), and at any depth once the poller has handled the control frames that
  arrived (`Guarantees.RingNotOverrun`). Frames then wait for a receive; none is lost.
- `shutdown` while a message is being sent lets the peer report a plain end of file inside it, exactly if
  it takes two or more frames (`Corners.EofInsideMessage`, `Corners.EofInsideHistory`). A FIN posted between calls is safe.
- A receive that runs while its own side closes may miss a frame and take the next one: `dispatch` drops what
  loses to `closed` (rdmanet/transport_linux.go:308-311), and the selects of the receive calls do not prefer it.
  It can then skip a message, cut one or glue two without an error, report the end with a finished message
  missing, or trip the size guard. `close` also closes the channel first and the credit tracker second
  (rdmanet/transport_linux.go:321-326). A send call that waits for its slot in between gives up; the next
  one can still get a credit and post behind the frames left unposted, and the peer, though open, sees the same.
  Exactly when delivery, the end and the guard can be relied on: `Closing.DeliveredWhile`,
  `Closing.EndTrueWhile`, `Closing.GuardHoldsWhile`. What always holds is `Closing.TakenInOrder`.
- A read into a non-empty slice is said to return at least one byte (rdmanet/stream.go:14-16). It returns none,
  without an error, exactly for an empty message (`Stream.ReadBoundaries`).
- A failed batch is said to be rejected whole (postwr_linux.go:223-224). The code does nothing to that
  end, so the model lets the device take a prefix of the chain.
- The sentinel word is said to need a size of at least four (perftest/write.go:65). The check asks less: the
  buffer must hold the size rounded up to four (`WordLane.CheckBuffer`).

## Model

| member | source | states |
|---|---|---|
| `Framing.Encode` | rdmanet/framing.go:46-55 | writes exactly the eight header bytes at the offset and leaves every other byte of the ring as it was |
| `Framing.HeaderRoundTrip` | rdmanet/framing.go:46-66 | decoding an encoded header gives it back, whatever bytes follow |
| `Framing.FrameLayout` | rdmanet/framing.go:14-66 | the bytes of every frame: flags 1, 2 or 4, three zeros, the length or count with its highest byte first, then the payload |
| `Framing.FragmentCountIsLeast` | rdmanet/framing.go:115-126 | the count is the least number of chunks that covers the message; an empty message takes one |
| `Framing.AllFramesConcat` | rdmanet/transport_linux.go:672-677 | the frames of a list of messages are the concatenation of the frames of its parts |
| `Framing.Reassembler.Add` | rdmanet/framing.go:92-113 | trips exactly if the limit is passed, and drops the partial message; otherwise appends, and gives the whole message and starts anew exactly on the last fragment |
| `Framing.AssembleWithin` | rdmanet/framing.go:92-113 | feeding the first k fragments of a message leaves exactly the bytes sent so far, or the message |
| `Framing.AssemblePrefix` | rdmanet/framing.go:77-113 | any prefix of the frames of a list of messages reassembles to a prefix of the list, with a prefix of the next message left over |
| `Framing.ReassemblyRoundTrip` | rdmanet/framing.go:77-126 | fragmenting and reassembling any list of messages, empty ones included, is the identity |
| `Framing.GuardNeverTrips` | rdmanet/framing.go:94-102 | the size guard never trips on frames of messages within the limit |
| `Framing.AssembleMonotone` | rdmanet/framing.go:92-113 | more frames only add messages |
| `Credit.CreditTracker.Acquire` | rdmanet/credit.go:26-39 | waits out any bursts of what other goroutines do, until the first look that finds a credit or a closed tracker; the tracker is then what those bursts and that look make of it |
| `Credit.NobodySleepsOn` | rdmanet/credit.go:26-65 | no lost wake-up: in any run an acquirer is asleep only while it would wait again, or until a broadcast still to come, which wakes all |
| `Credit.CreditTracker.Release` | rdmanet/credit.go:41-50 | adds n credits, and nothing for n <= 0 |
| `Credit.Balanced` | rdmanet/credit.go:5-65 | under any interleaving of acquire, release and close no credit is made or lost, and a closed tracker grants none |
| `Rings.RingWrite` | rdmanet/transport_linux.go:399-406 | writing a frame at the start of a slot changes that slot of the ring and no other |
| `Rings.RingRead` | rdmanet/transport_linux.go:293-307 | the header decoded and the payload sliced at a slot are those of the frame the slot holds |
| `Rings.WriteFrame` | rdmanet/transport_linux.go:400-406 | header and payload are spliced into the ring; every other byte is kept |
| `TxInvariant.TxKept` | rdmanet/transport_linux.go:265-460 | every step of the sending half keeps its invariant: slot partition, kinds, token accounting, frames posted in order, position of the FIN |
| `TxInvariant.PlacesKept` | rdmanet/transport_linux.go:285-292 | no step moves a send slot into two places or loses one |
| `TxInvariant.NumbersKept` | rdmanet/transport_linux.go:285-292 | the counts of slots and tokens stay exact |
| `RxInvariant.RxKept` | rdmanet/transport_linux.go:574-662 | every step of the receiving half keeps its invariant: slot partition, queued headers backed by ring bytes, batched credits, routing |
| `RxInvariant.BackedLanded` | rdmanet/transport_linux.go:168-174 | a landing frame overwrites no slot whose frame is still to be read |
| `OneSide.MoveKeeps` | rdmanet/transport_linux.go:248-314 | whatever a conforming peer and the device do, each move of one side keeps both invariants |
| `OneSide.PoolsHaveRoom` | rdmanet/transport_linux.go:263-314 | no slot pool and no receive queue is full when the poller sends on it |
| `Scheduling.BlockedExactly` | rdmanet/transport_linux.go:383-460 | a call is blocked, by what its channels and the credit tracker hold, if and only if no step of its own can be taken |
| `Protocol.ActKeeps` | rdmanet/transport_linux.go:43-47 | every action of either side and of the wire keeps the invariant of the pair |
| `Protocol.RunInv` | rdmanet/transport_linux.go:43-47 | the invariant holds at the end of every run, however long |
| `Protocol.WireKept` | rdmanet/transport_linux.go:383-423 | a step of the sending half extends wire and stream by exactly the frame it posts |
| `Protocol.PollCredits` | rdmanet/transport_linux.go:299-302 | dispatching an arrived frame moves it and its credits on, and loses neither |
| `Protocol.FinHandled` | rdmanet/transport_linux.go:549-569 | a FIN the poller has handled stands behind all frames of every call that had returned before it was posted |
| `Guarantees.InOrderExactlyOnce` | rdmanet/transport_linux.go:335-349 | what a receiver has delivered is a prefix of what the peer's calls accepted, message by message and byte for byte, and what it holds back is a prefix of the next one, as long as no frame was dropped or left out; so in every reachable state of two open sides |
| `Guarantees.GuardHolds` | rdmanet/transport_linux.go:341-344 | so long a message accepted by a send call never trips the receiver's guard |
| `Guarantees.CreditConservation` | rdmanet/transport_linux.go:82-88 | the credits of a direction, over all the places they can be, add up to the depth in every reachable state; those dropped are a place of their own, empty while the side is open |
| `Guarantees.CreditsNeverExceedDepth` | rdmanet/transport_linux.go:383-397 | with closed sides credits can only be lost |
| `Guarantees.CreditFrameSize` | rdmanet/transport_linux.go:150-153 | every credit frame carries between 1 and max(1, depth / 2) credits |
| `Guarantees.CreditsFlushed` | rdmanet/transport_linux.go:589-633 | credits go back with half the window, or one; or all of them when a receive finds the queue empty or a batch is full: a blocked receive and a batch that has returned hold none back, any other fewer than half the window |
| `Guarantees.ReceivesCoverData` | rdmanet/transport_linux.go:571-588 | in every reachable state posted receives plus receives taken by control frames awaiting dispatch exceed the data frames on the wire by exactly the credits that are elsewhere, less the slots dropped |
| `Guarantees.RingNotOverrun` | rdmanet/transport_linux.go:335-340 | hence in every reachable state, closed sides included, data fits the posted receives, and the wire exceeds them by at most the four credit slots, once the poller has handled the control frames that arrived |
| `Guarantees.PollerNeverBlocksOnPools` | rdmanet/transport_linux.go:263-314 | the poller never finds `sendFree`, `creditFree` or `recvQ` full |
| `Guarantees.OutstandingSends` | rdmanet/transport_linux.go:116-117 | at most depth + 4 sends are outstanding, at most depth of them data |
| `Guarantees.SendSlotsPartitioned` | rdmanet/transport_linux.go:154-164 | each send slot is in exactly one of: free, in hand, posted, completed, or dropped since a close |
| `Guarantees.RecvSlotsPartitioned` | rdmanet/transport_linux.go:154-161 | each receive slot is in exactly one of: posted, completed, queued or in hand, or dropped since a close |
| `Guarantees.PostedBytesUntouched` | rdmanet/transport_linux.go:376-382 | no action writes a send slot between post and completion, nor a receive slot between completion and reassembly |
| `Guarantees.SendReturnsClean` | rdmanet/transport_linux.go:351-374 | when a send call returns, and on a closed transport no call has given up, no data send is in flight, no token is queued and all data slots are free but those dropped since a close |
| `Guarantees.TokensAfterDrain` | rdmanet/transport_linux.go:425-439 | after a drain, on an open transport or a closed one, queued tokens and sends in flight are at most depth with one-step dispatch, and at most depth + 1 with two |
| `Guarantees.EofIsSafe` | rdmanet/transport_linux.go:643-657 | io.EOF on an open transport, or on one that has dropped no frame, means every message whose call had returned before the FIN was delivered, and the reassembler holds exactly what is left of the frames handled |
| `Guarantees.EofIsComplete` | rdmanet/transport_linux.go:784-794 | if the FIN was posted between calls, none of them cut short, and none followed, everything accepted was delivered and nothing is left over |
| `Guarantees.EofLasts` | rdmanet/transport_linux.go:643-657 | what EOF vouched for stays delivered in every later state |
| `Closing.TakenInOrder` | rdmanet/transport_linux.go:308-311 | in every reachable state, whoever has closed, the frames reassembled are among those of the messages accepted, in their order, none twice |
| `Closing.DropsOne` | rdmanet/transport_linux.go:308-311 | at every depth of two or more: a run in which the receiver's side closes, [0], [1], [2] are sent and [1] alone is delivered |
| `Closing.LeavesGap` | rdmanet/transport_linux.go:321-326 | at every depth of two or more: a run in which a call made between the two halves of `close`, after one that gave up, has its message delivered in place of the one left unposted, to an open receiver |
| `Closing.DeliveredWhile` | rdmanet/transport_linux.go:611-662 | what is delivered is a prefix of what was sent in every state, if and only if the receiver's side has not closed and the sender has made no call after one that gave up, or the depth is one |
| `Closing.EndsEarly` | rdmanet/transport_linux.go:643-657 | at every depth of two or more: a run in which io.EOF is returned on a closed side with a message missing whose call had returned before the FIN |
| `Closing.GluesDropped` | rdmanet/framing.go:94-102 | at every depth of two or more, unless a slot holds the largest message: a run in which frames on both sides of a dropped one are glued past the size limit |
| `Closing.GluesGap` | rdmanet/framing.go:94-102 | and one in which the frames of a call that gave up and of the next are, at an open receiver |
| `Closing.EndTrueWhile` | rdmanet/transport_linux.go:643-657 | io.EOF means that all finished before the FIN is delivered, if and only if the side that returns it has not closed, or the depth is one |
| `Closing.GuardHoldsWhile` | rdmanet/framing.go:94-102 | the size guard never trips on what the sides exchange, if and only if the receiver's side has not closed and the sender has made no call after one that gave up, or the depth is one, or every message fits in one frame |
| `Progress.WorkDrops` | rdmanet/transport_linux.go:616-662 | every working step lowers a measure of the work left |
| `Progress.WorkRunsOut` | rdmanet/transport_linux.go:616-662 | no livelock: from any state of the invariant the number of working steps is bounded by that measure |
| `Progress.StuckIsWedged` | rdmanet/transport_linux.go:523-547 | a reachable pair of open transports in which nobody can step, with any dispatch and calls of any size, is done (calls returned, wires empty, credits home, everything delivered) if and only if neither side is wedged |
| `Progress.NoStuckStates` | rdmanet/transport_linux.go:523-547 | with receivers active and one-step dispatch (or calls of at most depth + 1 frames) a reachable state of two open transports where nobody can step, FINs posted or not, has every call returned, both wires empty, all credits home and everything delivered |
| `Progress.WorkCompletes` | rdmanet/transport_linux.go:335-349 | so every schedule that goes on until nobody can go on delivers every message of both directions, from any reachable state of two open sides |
| `Runs.Mirrored` | rdmanet/transport_linux.go:43-47 | the two sides are interchangeable: what one can reach, the other can |
| `Calm.Settle` | rdmanet/transport_linux.go:335-349 | from every reachable state of two such sides there is a way to one with nothing under way, and the calls accepted and the FINs posted stay as they are |
| `Calm.CalmReceiver` | rdmanet/transport_linux.go:571-609 | with all credits home and all receives posted everything accepted has been delivered and the reassembler is empty |
| `Progress.SenderRests` | rdmanet/transport_linux.go:383-397 | with credits and slots to hand a quiet sender has nothing to do |
| `Wedge.WedgedForever` | rdmanet/transport_linux.go:285-292 | poller stuck on a full token channel and sender waiting for a credit: nothing but closing that transport ends it |
| `Wedge.WedgedIsLarge` | rdmanet/transport_linux.go:425-428 | such a state needs two-step dispatch and a call of at least depth + 2 frames |
| `Wedge.LargeCallCanWedge` | rdmanet/transport_linux.go:357-359 | for every configuration, from every reachable state with nothing under way and for every call of that size there is a run that reaches it |
| `Wedge.WedgeExactly` | rdmanet/transport_linux.go:285-292 | from any such state, sending a list of messages can wedge either side if and only if a call for them posts at least depth + 2 frames |
| `Wedge.TokensExactly` | rdmanet/transport_linux.go:425-439 | a drain can end with depth + 1 tokens queued or still to come if and only if a call for the messages posts at least depth + 2 frames: the bound of `Guarantees.TokensAfterDrain` is reached |
| `Corners.BrokenIsLong` | rdmanet/transport_linux.go:643-657 | in any reachable state, in either direction, a plain EOF with a partial message means that a message accepted takes two or more frames; unless the sender has left a gap it is the next to deliver that is cut off |
| `Corners.EofInsideMessage` | rdmanet/transport_linux.go:784-795 | after any history, from a state with nothing under way and no FIN posted, closing while the next messages are being sent can give the peer a plain EOF inside one, if and only if one of them takes two or more frames |
| `Corners.EofInsideHistory` | rdmanet/transport_linux.go:784-795 | over whole histories: a plain EOF inside a message is possible for a list of accepted messages if and only if one of them takes two or more frames |
| `Headroom.RunOneFin` | rdmanet/transport_linux.go:552-569 | at most one FIN is ever posted |
| `Headroom.ControlBound` | rdmanet/transport_linux.go:523-547 | control frames of one direction not yet handled are at most depth + 1 |
| `Headroom.DataOutnumbersReceives` | rdmanet/transport_linux.go:524-526 | at every depth and for every n up to it there is a run after which data frames on the wire exceed the posted receives by n |
| `Headroom.DataFitsExactly` | rdmanet/transport_linux.go:335-340 | in a given state data fits the posted receives if and only if the control frames awaiting dispatch are no more than the credits not on the wire |
| `Headroom.DataFitsWhile` | rdmanet/transport_linux.go:335-340 | what a side can tell from its own calls: its data fits the posted receives in every state exactly as long as it has received no data and posted no FIN |
| `Headroom.LargestExcess` | rdmanet/transport_linux.go:524-526 | the wire can exceed the posted receives by n frames if and only if n is at most depth + 1 |
| `Headroom.ExcessAtMostFour` | rdmanet/transport_linux.go:524-526 | so it never does by more than four if and only if the depth is at most three |
| `Transport.Transport.constructor` | rdmanet/transport_linux.go:112-166 | every send slot free, every receive slot posted, depth credits, on zeroed rings |
| `Transport.Transport.Create` | rdmanet/transport_linux.go:112-115 | refuses slots without room for payload and empty rings, and only those |
| `Transport.WridRoutes` | rdmanet/transport_linux.go:29-37 | the id of a send completion tells data slots from credit slots and gives the slot back |
| `Transport.Transport.TrySendDone` | rdmanet/transport_linux.go:429-439 | the non-blocking select takes one token or ends the drain |
| `Transport.Transport.AcquireCredit` | rdmanet/transport_linux.go:386-392 | a credit, a refusal on a closed transport, or a wait |
| `Transport.Transport.TakeSendSlot` | rdmanet/transport_linux.go:393-398 | a free slot, or the closed branch |
| `Transport.Transport.PostFrame` | rdmanet/transport_linux.go:400-423 | the bytes of the frame are in the slot's part of the ring, the work request covers exactly them, all other slots are kept |
| `Transport.Transport.WaitSendDone` | rdmanet/transport_linux.go:452-458 | one token, or the closed branch |
| `Transport.Transport.SendFin` | rdmanet/transport_linux.go:552-569 | the FIN goes out in a credit slot |
| `Transport.Transport.ReturnCredit` | rdmanet/transport_linux.go:527-547 | the credit frame goes out in a credit slot; on a closed transport the credits are dropped |
| `Transport.Transport.TryFrame` | rdmanet/transport_linux.go:618-633 | takes a queued frame or flushes the pending credits |
| `Transport.Transport.SelectFrame` | rdmanet/transport_linux.go:634-660 | a frame, the peer's FIN, or close; it waits only if none is there |
| `Transport.Transport.SelectAfterFin` | rdmanet/transport_linux.go:643-657 | a frame that raced in ahead of the FIN, otherwise the end |
| `Transport.Transport.ConsumeFrame` | rdmanet/transport_linux.go:574-609 | reassembles the payload bytes of the slot, reposts it, counts the credit and starts a flush at the threshold |
| `Transport.Transport.DispatchSend` | rdmanet/transport_linux.go:269-292 | routes a send completion to its pool; only close makes it drop a slot |
| `Transport.Transport.PushSendDone` | rdmanet/transport_linux.go:289-292 | the token follows in a step of its own and waits while the channel is full |
| `Transport.Transport.DispatchRecv` | rdmanet/transport_linux.go:293-312 | decodes the header in the ring and routes by its flags |
| `Transport.Transport.HeaderAt` | rdmanet/transport_linux.go:293-307 | the header decoded from the slot has the flags, in the order in which they are tested, and the length or count of the frame that landed there |
| `Transport.Transport.Close` | rdmanet/transport_linux.go:321-324 | the first half of `close`: the channel |
| `Transport.Transport.CloseCredits` | rdmanet/transport_linux.go:321-326 | the second half, a step of its own: the credit tracker |
| `Transport.Transport.SendHead` | rdmanet/transport_linux.go:408-413 | the device reads exactly the bytes of the frame posted first |
| `Transport.Transport.Land` | rdmanet/transport_linux.go:168-174 | an inbound frame lands in the oldest posted receive and touches no other slot |
| `Transport.CarryHead` | rdmanet/transport_linux.go:43-47 | what one transport posted lands in the other as the same frame |
| `Interleaving.StepKeepsOthers` | rdmanet/transport_linux.go:43-47 | no step of anyone else disturbs a running send or receive call |
| `Interleaving.Others` | rdmanet/transport_linux.go:43-47 | in any burst of other activity everyone has a turn, in order, and takes a step if one can be taken; the transport stays valid and the running call as it was |
| `SendCalls.DrainSendDone` | rdmanet/transport_linux.go:425-439 | takes the queued tokens, counts them, and leaves the call as it was |
| `SendCalls.SendFrame` | rdmanet/transport_linux.go:376-423 | posts the frame and nothing else, or refuses on a closed transport with nothing posted; it stops short only with the plan used up, blocked |
| `SendCalls.PostFrames` | rdmanet/transport_linux.go:353-374 | posts exactly the fragments of one message, in order, under any interleaving; stops short only on a closed transport, or blocked with none of them lost |
| `SendCalls.WaitSends` | rdmanet/transport_linux.go:441-460 | on success n tokens are gone, and unless an earlier call gave up every send posted has completed and no token is left; gives up only on a closed transport, and stops short only blocked for a token; nothing to wait for when n <= 0 |
| `SendCalls.SendMsg` | rdmanet/transport_linux.go:341-349 | what happens is the plan, as far as it is used, around the call's own steps. On success exactly the frames of the message have been added to the stream; unless an earlier call gave up each has completed, and no token is left behind, even if the transport has closed since. An oversized message changes nothing; an error comes only from a closed transport; and the call is stuck only with the plan used up, blocked, and no frame lost |
| `SendCalls.SendBatch` | rdmanet/transport_linux.go:678-705 | the same for the frames of all the messages, in order; if any message is oversized nothing changes |
| `ReceiveCalls.NextMessage` | rdmanet/transport_linux.go:611-662 | returns the next delivered message, the end only with nothing queued after the FIN, an error only when closed or when a frame went past the limit; stuck only with the plan used up, blocked on an empty queue or for a credit slot |
| `ReceiveCalls.TryNextMessage` | rdmanet/transport_linux.go:739-759 | the same without waiting; none only after the queue was found empty, and then the credits are flushed |
| `ReceiveCalls.RecvMsg` | rdmanet/transport_linux.go:664-670 | one message, or the way it ended, likewise; what happens is the plan around the call's own steps |
| `ReceiveCalls.RecvMsgBuf` | rdmanet/transport_linux.go:761-775 | the whole message in the caller's slice and the rest of it untouched, or `ErrShortBuffer` with the slice untouched and exactly that one message consumed; otherwise what `recvMsg` failed with |
| `ReceiveCalls.RecvBatch` | rdmanet/transport_linux.go:707-737 | between one and max(1, max) messages, exactly those delivered, fewer only after the queue was found empty, a partial one carried over and no credit held back; stuck only with the plan used up, blocked for the first message or for a credit slot |
| `ReceiveCalls.BatchIsConsecutive` | rdmanet/transport_linux.go:707-737 | a batch and any series of single receives over the same frames return the same messages; over fewer frames, a prefix |
| `Connection.Open` | rdmanet/transport_linux.go:108-166 | two fresh transports form a reachable state of the protocol |
| `Connection.Happen` | rdmanet/transport_linux.go:43-47 | whatever happens next, who can take a step takes one, the wire carries a frame if it can, and the pair of transports on their byte rings stays a reachable state of the protocol |
| `Connection.Play` | rdmanet/transport_linux.go:335-349 | under any schedule, played event by event, the frames reassembled are among those of the messages accepted, in order, and as long as none was dropped or left out the messages delivered are a prefix of those accepted |
| `WakeUp.NoLostWakeUp` | rdmanet/transport_linux.go:198-233 | in any run a poller waiting for an event can wake, or has handled everything that arrived and the next completion will wake it |
| `WakeUp.StepKeeps` | rdmanet/transport_linux.go:198-233 | every arrival and every step of the poller keeps that |
| `WakeUp.Poller.DrainOnce` | rdmanet/transport_linux.go:248-261 | takes as many completions off the queue as there are and the slice holds, and handles them in order up to the first failed one: all before it, none from it on; fails exactly on such a one or a broken device |
| `WakeUp.Poller.EventTurn` | rdmanet/transport_linux.go:198-233 | arms, drains, waits only after an empty drain; a close does not end the wait, tearing down the channel does |
| `WakeUp.Poller.Poll` | rdmanet/transport_linux.go:190-246 | the completions handled are the first k, in order, once each: all that come when the loop rests, with the queue armed or in busy mode; all before the first failed one when that ends it. It leaves only when the transport has closed, fails it only on a failed completion or a broken device, and falls back to busy mode only without a channel |
| `Pipeline.RunPipeline` | rdmanet/rawconn.go:33-74 | for every poll script and every failing post, ending, count and log are those of the specification, the failed post included; the ids posted are 0, 1, ... up to min(iters, max(1, txDepth) + completed), or up to the failed one |
| `Pipeline.RunDrain` | rdmanet/rawconn.go:139-180 | the same loop, as many posts, the k-th with ring slot k mod min(iters, max(1, txDepth)) for its id |
| `Pipeline.RunBW` | perftest/send.go:41-98 | the same loop with the depth taken as it is |
| `Pipeline.RunSendServer` | perftest/send.go:106-134 | for every poll script and every failing receive post: ending, count and, up to ids, log of the other loops; each receive reposted has the id of the completion it follows; with in-order completions the ids of `drain` |
| `Pipeline.RunPipelineBatch` | rdmanet/rawconn.go:82-133 | for every poll script and every rejected batch: ending, count, the ids submitted in order and those of the batch refused, which go on where they end; the first batch fills the window min(iters, max(1, txDepth)), then at most one per poll, none empty |
| `Pipeline.HistoryCounts` | rdmanet/rawconn.go:48-73 | after c completions exactly min(iters, d + c) requests have been posted, ids in order, once each |
| `Pipeline.WindowHeld` | rdmanet/rawconn.go:48-73 | at every moment at most d requests are in flight |
| `Pipeline.SuccessIsComplete` | rdmanet/rawconn.go:48-74 | however the loop ends, the log holds one completion for each counted and the first posts in order: the window's, or those before the failed one; success means all iters of both |
| `Pipeline.EnoughPolls` | rdmanet/rawconn.go:55-72 | with a window both loops end after at most iters non-empty good polls |
| `Pipeline.EndsByAnswers` | rdmanet/rawconn.go:55-74 | how a loop ends depends on the completions alone, not on how polls cut them into batches: they count up to the first failed one, whose id the error carries, or until there are iters, or a poll or a post fails |
| `Pipeline.NoWindowNeverEnds` | perftest/send.go:44-60 | with a depth of zero the bandwidth loop posts nothing and never succeeds |
| `Pipeline.ServerWindow` | perftest/send.go:110-130 | after c completions the server has posted min(iters, txDepth + c) receives, whatever ids come back, or those before the failed post |
| `Pipeline.DrainSlots` | rdmanet/rawconn.go:161-178 | outstanding receives hold different slots, and with in-order completions the slot reposted is the one that just completed |
| `Pipeline.RegionsDisjoint` | cmd/go_rdmanet_bw/main.go:350-369 | the buffer regions of two slots are disjoint and inside the registered memory |
| `Pipeline.BatchIsPrefix` | rdmanet/rawconn.go:76-133 | under one poll script and the same failing post the batched loop ends like the plain one and submits its ids; after a failed completion or post perhaps only a prefix |
| `PostSend.QP.Ensure` | postwr_linux.go:152-169 | room for n entries; the arrays are kept or all six are new |
| `PostSend.QP.Post` | postwr_linux.go:15-55 | exactly this request reaches the device, field by field, or nothing does: a remote address for writes and reads only, the datagram's handle, number and key each in its place if there is a handle, the immediate value with its highest byte first in memory |
| `PostSend.QP.PostBatch` | postwr_linux.go:225-272 | a batch outside the shape touches nothing, and which error says why; an admitted one reaches the device as a chain, field by field with the signaled bit of the first, of which a failing device may have taken a prefix |
| `PostSend.QP.BuildChain` | postwr_linux.go:68-106 | the chain built from the scratch is the batch, in order, whatever stale rows follow |
| `PostSend.ChainWhole` | postwr_linux.go:86-100 | following the links visits every entry once, in order |
| `PostSend.BatchMatchesSingles` | postwr_linux.go:216-224 | an admitted batch puts on the device what single posts would if and only if it is uniformly signaled |
| `BatchedPipeline.SameOnDevice` | rdmanet/rawconn.go:76-133 | and both hand the device the same work requests, counting of a refused batch the part the device took; one of the two is always a prefix of the other |
| `WriteLat.StepKeeps` | perftest/write.go:95-134 | every step of the two sides and of the wire keeps the pairing of rounds and bytes, across the wrap of the byte |
| `WriteLat.LockStep` | perftest/write.go:95-134 | rounds of client and server differ by at most one |
| `WriteLat.SpinReleased` | perftest/write.go:98-132 | a spin ends only after the other side's write of the same round |
| `WriteLat.RoundBytes` | perftest/write.go:98-132 | in round k the client writes 2k + 1 and the server echoes 2k + 2, modulo 256 |
| `WriteLat.FirstByteMatters` | perftest/write.go:98-102 | that holds in all runs if and only if the server's first byte is not 1 |
| `WriteLat.Progress` | perftest/write.go:95-134 | every step lowers the steps left, and somebody can step until both are done |
| `WriteLat.BothFinish` | perftest/write.go:95-134 | a run that cannot go on has both sides through exactly iters rounds |
| `WriteLat.RunClient` | perftest/write.go:115-134 | the client's loop, with the other side and the device doing anything at every point: what happened is the plan around its own steps, and a run of the two sides, in lock-step; it is done exactly after iters rounds and stops before only with the plan used up, at a wait for its completion or for an echo that is not there |
| `WriteLat.RunServer` | perftest/write.go:95-113 | the server's loop likewise |
| `WriteLat.Play` | perftest/write.go:95-134 | both loops under any schedule |
| `WordLane.LaneRoundTrip` | perftest/write.go:73-82 | the byte read back is the one written, the other three bytes of the word are kept |
| `WordLane.LanesMakeWord` | perftest/write.go:67-82 | the four bytes make up the word, the first one lowest |
| `WordLane.CheckBuffer` | perftest/write.go:53-71 | the buffer is accepted if and only if the size is positive and, rounded up to four, fits |
| `WordLane.WordEnd` | perftest/write.go:67-71 | the word that holds the last byte ends where the size rounded up to a multiple of four does |
| `WordLane.Word.SetSentinel` | perftest/write.go:74-82 | the compare-and-swap loop sets its byte and keeps the others of the word as the last write to land left it: whatever lands in between, no write is lost |
| `WordLane.Word.Echo` | perftest/write.go:98-103 | a round of the server on the shared word: the spin ends exactly if a write brings the awaited byte, and the echo sets the next value and no other byte, with no write lost |
| `AddrText.ParseGid` | rdmanet/addr.go:109-128 | the loop over the groups computes the sixteen bytes, or fails on the first bad group |
| `AddrText.GidRoundTrip` | types.go:9-13 | parsing a printed GID gives it back |
| `AddrText.GidText` | rdmanet/addr.go:109-128 | exactly which texts are GIDs: eight groups of hex digits between colons, each a number of two bytes, its high byte first |
| `AddrText.Uint32RoundTrip` | rdmanet/addr.go:95-107 | parsing a printed hex number gives it back |
| `AddrText.NumberText` | rdmanet/addr.go:95-107 | exactly which texts are numbers, and their value digit by digit: hex of either case behind 0x or 0X, decimal otherwise, below 2^32 |
| `AddrText.FormatText` | rdmanet/addr.go:41-46 | numbers are printed in lower case with no zero in front |
| `AddrText.PrintResolves` | rdmanet/addr.go:30-93 | for every address parsing what was printed recovers GID, QPN and effective Q_Key |
| `AddrText.ResolveText` | rdmanet/addr.go:49-93 | for any text of the three parts, what it resolves to or which error comes first |
| `AddrText.Stable` | rdmanet/addr.go:49-93 | whatever text an address came from, printing and parsing again is stable |
| `AddrText.SameKey` | rdmanet/packet_linux.go:201-224 | two addresses share a cache key if and only if GID, QPN and effective Q_Key agree |
| `Stream.StreamReader.Read` | rdmanet/stream.go:17-34 | bytes, leftover and error of one read |
| `Stream.BytesConserved` | rdmanet/stream.go:17-34 | over any reads of any sizes, bytes read and leftover are the messages fetched, joined |
| `Stream.SizesDoNotMatter` | rdmanet/stream.go:3-8 | over the same messages two readers see the same byte stream |
| `Stream.ReadBoundaries` | rdmanet/stream.go:14-34 | no read crosses a message, and each gives all that is left of it or fills the slice; `recv` is called exactly with nothing left over; no byte and no error exactly for an empty message |
| `BufferState.InstrKeeps` | rdmanet/buffer.go:41-73 | every atomic instruction of every thread keeps the invariant |
| `BufferState.OneOwner` | rdmanet/buffer.go:41-58 | at most one thread owns the buffer at any time |
| `BufferState.ReleasedForGood` | rdmanet/buffer.go:66-73 | released is never left, no send begins after it, and exactly one release succeeds |
| `BufferState.RereadExact` | rdmanet/buffer.go:50-56 | the error after a lost race is right |
| `BufferState.Buffer.BeginSend` | rdmanet/buffer.go:41-58 | with any interference between its instructions: success means sole ownership, an error means none and says released exactly if the buffer is; an idle buffer nobody interferes with is got |
| `BufferState.Buffer.CompleteSend` | rdmanet/buffer.go:60-64 | back to idle unless released meanwhile |
| `BufferState.Buffer.ReleaseBuffer` | rdmanet/buffer.go:66-73 | released; an error exactly if it was already |

## Left out

- Failed posts and failed completions in the transport, and what they leave behind; `fail` and `closedErr` with their errors.
- `sendBuffer` and the completion tokens of zero-copy sends; only the lifecycle word of the buffer is modelled.
- The cgo wrappers (device, context, protection domain, memory region, queue pair, completion queue, address handle, rdma_cm): what they do is the device of this model.
- Releasing the rings in `shutdown`, and use of their memory after it.
- Whether a queue pair has room for the sends posted on it; the bound the code gives is depth + 4 (`Guarantees.OutstandingSends`).
- The data path of `PacketConn`, except its cache key and the default of its Q_Key.
- The TCP handshake, the registry server and deadlines.
- Timing probes, statistics, histograms and printed reports; flags, options and command mains, except the slot arithmetic of the bandwidth server.
- Frames from a peer that does not conform.
- `RunSendLat`, `RunWriteBW` and the unreliable-datagram offsets, which would only add easy members.
- `ReceiveCalls.RecvBatch`: makes its last flush inside the step that ends the batch, not as a call of its own.
- `Guarantees.EofIsSafe`: does not promise an empty reassembler, because the code does not; `Corners.EofInsideMessage` says when it can fail.
- `Transport.Transport.PostFrame`: does not model the branch of a failed post, which gives the slot back.
- `Transport.Transport.ReturnCredit`: does not model the branch of a failed post, which gives the slot back and fails the transport.
- `Transport.Transport.ConsumeFrame`: does not model the error of a failed repost.
- `SendCalls.SendFrame`: does not model the branch of a failed post.
- `WriteLat.RunClient`: does not model failing posts and polls, nor the bytes of the payload other than the last.
- `WriteLat.RunServer`: likewise.
- `Progress.NoStuckStates`: does not cover larger calls with two-step dispatch, because `Wedge.LargeCallCanWedge` shows them stuck; `Progress.StuckIsWedged` covers every call.
- `WakeUp.Poller.Poll`: takes batches as large as the slice allows, while `WakeUp.NoLostWakeUp` allows any; what `dispatch` does with a completion is in `Transport`.
- `WriteLat.Play`: does not model the bytes of the payload other than the last, nor failing posts and polls.
- `PostSend.QP.Post`: does not model the reused scratch of its scatter list, which is filled and read in one call.
- `AddrText.PrintResolves`: does not cover the text of a nil address.
