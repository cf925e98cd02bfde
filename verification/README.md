# Telefunc's channel wire protocol, modelled and proved

Telefunc carries channels between a page and a server over WebSocket or SSE wires that may drop at any time. This Dafny
project models the code that keeps those channels whole and proves what it is for: nothing lost, doubled or reordered
across wires, frames in pieces put back together byte for byte, and credit that neither overruns nor deadlocks.

| part | files |
|---|---|
| bytes, tags, headers, frames and messages | `Bytes`, `Tags`, `Header`, `Frames` |
| the replay, and its queues in place | `Replay`, `ReplayBuffer` |
| the send gate, what it lets go, a page's runs, and the classes | `Gate`, `GateFlow`, `Page`, `Fifo`, `ChannelTable`, `SendGate`, `ClientConnection` |
| one channel over wires that die, and the exchange that reattaches all of them | `Reattach`, `ReattachSafety`, `ReattachAnswers`, `ReattachProgress`, `Attaching`, `AttachExchange` |
| frames in pieces: both ends as values, their safety, counters and runs, and the classes | `Pieces`, `PieceSteps`, `PieceSafety`, `PieceCounters`, `PieceRuns`, `PieceProgress`, `PieceChoices`, `PieceMisfits`, `PieceReceiver`, `SocketMessages`, `PieceSender`, `AckSchedule` |
| credit: spending, granting, both in one run, and the classes | `Credit`, `Granting`, `Urgency`, `CreditRuns`, `ReplayFits`, `BdpEstimator`, `ReceiveCredit`, `SendCredit` |
| fast structures against plain ones, and Redis publishes | `SendWaits`, `Deliveries`, `SseEvents`, `BodyReader`, `Redis`, `RedisTransport` |

Each stateful class is a Dafny class whose methods equate its new abstract value with a step function of the old one.
What the code promises is proved about those steps, and then over every run of them. Sockets, clocks, timers and tasks
are steps and parameters: a microtask is a step of its own, time a real that does not go back, headroom and rates
arbitrary numbers.

Some promises of the code or its comments do not hold of every input. Each has an input that breaks it, and the exact
condition under which it holds.

- A lowered replay budget is said to trim no frame a reconnect needs (`ReplayBuffer.ts:33`). A frame issued after the
  lowering can be trimmed: `LoweringEvictsLaterFrame` is one, and `AcknowledgeEvicts` says exactly when.
- A PIECES_ACK passes a rest that waits (`pieces.ts:180`). If it is cut itself while a piece of the rest went, the peer
  takes it for a violation, as in the run of `CutAckBreaks`: `AckBesideRest` says exactly when.
- An announcement's closing ANNOUNCE names its bytes in 32 bits, so it matches exactly below 2^32: `ClosesExactly`, and
  `LargeBreaks` for a run past that. `EveryRunIsTakenExactly` says of whole runs that these two are all that can break.
- A limit is a signed difference mod 2^32 (`SendCredit.ts:92`). A sender past its limit by about 2^31 bytes, as one that
  does not await its sends may be, takes a newer limit for a stale one and may wait for ever: `OutOfReachDeadlocks`, and
  `LimitsAreExact` for the condition.
- A channel is given up as lost where its replay dropped a frame. An answer behind what was acknowledged ends it too
  (`LostExactly`), though the server has every frame. An answer taken on its own wire never is behind
  (`EndsForDroppedOnly`), but where an old wire still delivers, one kept for its RECONCILED may be overtaken:
  `OvertakenEnds`.

`dafny verify dfyconfig.toml` checks the whole project.

## Model

| member | source | states |
|---|---|---|
| `Tags.CountedIsBudgeted` | `packages/telefunc/wire-protocol/wire/tags.ts:96-126` | whatever credit counts is sequenced data, in a replay queue a byte budget bounds, and never passes data that waits |
| `Header.U16RoundTrip` | `packages/telefunc/wire-protocol/wire/header.ts:31-45` | a u16 written anywhere in a buffer is read back as its low 16 bits |
| `Header.U32RoundTrip` | `packages/telefunc/wire-protocol/wire/header.ts:36-61` | a u32 written anywhere in a buffer is read back as its low 32 bits |
| `Header.U64RoundTrip` | `packages/telefunc/wire-protocol/wire/header.ts:47-65` | a number below 2^53 written as two u32s is read back whole |
| `Header.WriteU16` | `packages/telefunc/wire-protocol/wire/header.ts:31-34` | writing a u16 changes its two bytes of the buffer and no other |
| `Header.WriteU32` | `packages/telefunc/wire-protocol/wire/header.ts:36-41` | writing a u32 changes its four bytes of the buffer and no other |
| `Header.WriteHeader` | `packages/telefunc/wire-protocol/wire/header.ts:25-29` | the header goes in the 7 bytes at its place, and no other byte changes |
| `Header.SeqNearRecovers` | `packages/telefunc/wire-protocol/wire/seq.ts:5-11` | a seq cut to 32 bits is recovered exactly when it is in (expected - 2^31, expected + 2^31], or further ahead but still below 2^32; both directions |
| `Header.SeqThroughRecovers` | `packages/telefunc/wire-protocol/wire/seq.ts:13-17` | an acknowledged seq cut to 32 bits is recovered exactly when it is in (sent - 2^32, sent], or past `sent` and still below 2^32; both directions |
| `Frames.MessageHasItsBytes` | `packages/telefunc/wire-protocol/wire/frame.ts:272-287` | the bytes a message is allocated with are exactly those its frames and LENGTHs fill |
| `Frames.EncodeMessage` | `packages/telefunc/wire-protocol/wire/frame.ts:272-287` | the loop that fills the buffer leaves in it the frames, with a LENGTH ahead of each of no fixed size but the last |
| `Frames.SplitMessage` | `packages/telefunc/wire-protocol/wire/frame.ts:401-419` | the advancing-offset loop gives just the frames of the recursive reading, or the same violation, on any bytes |
| `Frames.MessageRoundTrip` | `packages/telefunc/wire-protocol/wire/frame.ts:272-287` | for any well-formed frames, splitting the message gives back exactly them, and the message reads as one frame if and only if there is one |
| `Frames.SplitConserves` | `packages/telefunc/wire-protocol/wire/frame.ts:395-419` | on any bytes that split, well-formed or not, the frames account for every byte but the LENGTHs, fewer than the frames |
| `Frames.PingsRoundTrip` | `packages/telefunc/wire-protocol/wire/frame.ts:471-479` | any list of PING entries reads back, each field as wide as its place on the wire |
| `Frames.PongsRoundTrip` | `packages/telefunc/wire-protocol/wire/frame.ts:480-489` | any list of PONG entries reads back, an entry not held as none |
| `Frames.FrameRoundTrip` | `packages/telefunc/wire-protocol/wire/frame.ts:426-500` | decoding an encoded frame, of every modelled kind, gives its fields as the wire holds them: seqs and counts at 32 bits, the sentinels for no backlog and no round trip, nothing else lost |
| `Frames.EncodedIsWellFormed` | `packages/telefunc/wire-protocol/wire/frame.ts:367-387` | a frame of a tag with fixed bytes is encoded in just those bytes, so an encoded frame always rides a message |
| `Replays.GetAfterExact` | `packages/telefunc/wire-protocol/channel/ReplayBuffer.ts:72-81` | when seqs were pushed consecutively, the frames after `a` through `t` come out exactly, in seq order across the three queues, and none is the answer exactly when one of them is no longer held |
| `Replays.MergeMerges` | `packages/telefunc/wire-protocol/channel/ReplayBuffer.ts:118-137` | merging two runs of distinct seqs gives one in strictly increasing order with the entries of both and no others |
| `Replays.PushTracks` | `packages/telefunc/wire-protocol/channel/ReplayBuffer.ts:50-58` | pushing the next seq keeps every queue sorted, within its budget, of its kind, and of frames really sent |
| `Replays.AcknowledgeTracks` | `packages/telefunc/wire-protocol/channel/ReplayBuffer.ts:60-70` | an acknowledgement, with a pending lowering it may apply, keeps the same |
| `Replays.SetLimitsTracks` | `packages/telefunc/wire-protocol/channel/ReplayBuffer.ts:33-43` | new budgets keep the same, and evict nothing while a frame is unacknowledged |
| `Replays.RunTracks` | `packages/telefunc/wire-protocol/channel/ReplayBuffer.ts:12-107` | over every run of issues, pushes, acknowledgements and limit changes the replay tracks what was pushed |
| `Replays.AcknowledgeEvicts` | `packages/telefunc/wire-protocol/channel/ReplayBuffer.ts:60-70` | an acknowledgement evicts a frame past it if and only if it applies a pending lowering some queue does not fit |
| `Replays.PendingKeepsItsSeq` | `packages/telefunc/wire-protocol/channel/ReplayBuffer.ts:34-43` | a pending lowering waits for what was issued when the first one came, so what it may evict was issued after |
| `Replays.LoweringEvictsLaterFrame` | `packages/telefunc/wire-protocol/channel/ReplayBuffer.ts:33-43` | an input where the lowered budget evicts an unacknowledged frame: one issued after the lowering |
| `Replays.PushKeeps` | `packages/telefunc/wire-protocol/channel/ReplayBuffer.ts:161-169` | a frame within its budget is held, and evicts no other while they fit together |
| `Replays.PushEvictsTheOldest` | `packages/telefunc/wire-protocol/channel/ReplayBuffer.ts:161-169` | a push evicts only the oldest of its kind, and no more than it must: with the last one evicted the rest would still be over the budget; a frame over it by itself is not stored and evicts none |
| `Replays.LastLimitsApply` | `packages/telefunc/wire-protocol/channel/ReplayBuffer.ts:33-43` | over every run the budgets are never below the last limits given, and are exactly those once all issued is acknowledged, so a pending lowering always applies |
| `ReplayBuffers.MergeBySeq` | `packages/telefunc/wire-protocol/channel/ReplayBuffer.ts:118-137` | the array-filling loop is the merge |
| `ReplayBuffers.ReplayQueue.Push` | `packages/telefunc/wire-protocol/channel/ReplayBuffer.ts:161-169` | the moving-head arrays hold what the queue as a sequence does: the entry stored and the oldest evicted while over budget |
| `ReplayBuffers.ReplayQueue.Acknowledge` | `packages/telefunc/wire-protocol/channel/ReplayBuffer.ts:171-174` | the entries through the seq go and the others stay, compaction included |
| `ReplayBuffers.ReplayQueue.SetBudget` | `packages/telefunc/wire-protocol/channel/ReplayBuffer.ts:176-179` | the oldest go till the new budget holds |
| `ReplayBuffers.ReplayQueue.GetAfter` | `packages/telefunc/wire-protocol/channel/ReplayBuffer.ts:181-189` | the two scans give the entries of the span |
| `ReplayBuffers.ReplayQueue.Compact` | `packages/telefunc/wire-protocol/channel/ReplayBuffer.ts:212-227` | dropping dead slots changes nothing that is held |
| `ReplayBuffers.ReplayBuffer.NextSeq` | `packages/telefunc/wire-protocol/channel/ReplayBuffer.ts:45-48` | hands out the next seq and changes nothing else |
| `ReplayBuffers.ReplayBuffer.Push` | `packages/telefunc/wire-protocol/channel/ReplayBuffer.ts:50-58` | the buffer, its queues made at their first frame, takes the step of the value proved above |
| `ReplayBuffers.ReplayBuffer.Acknowledge` | `packages/telefunc/wire-protocol/channel/ReplayBuffer.ts:60-70` | the three in-place queues and the pending lowering take the acknowledgement step of the value |
| `ReplayBuffers.ReplayBuffer.SetLimits` | `packages/telefunc/wire-protocol/channel/ReplayBuffer.ts:33-43` | the in-place budgets and the pending lowering take the limit step of the value |
| `ReplayBuffers.ReplayBuffer.GetAfter` | `packages/telefunc/wire-protocol/channel/ReplayBuffer.ts:72-81` | the array scans and merges answer what the value answers |
| `ReplayBuffers.ReplayBuffer.Dispose` | `packages/telefunc/wire-protocol/channel/ReplayBuffer.ts:95-101` | nothing is held and every count starts over |
| `Gates.SendWaitingOf` | `packages/telefunc/wire-protocol/channel/client/SendGate.ts:86-99` | on every channel, what goes as headroom allows is the front of what waited, pushed to its replay in order, the rest still queued |
| `Gates.SendOf` | `packages/telefunc/wire-protocol/channel/client/SendGate.ts:60-75` | a send puts its frame behind all its channel has queued, and at most lets a front of that queue go |
| `Gates.DrainOf` | `packages/telefunc/wire-protocol/channel/client/SendGate.ts:116-149` | a drain takes a releasable channel's held frames out behind those waiting, keeps another's held, and reorders neither |
| `Gates.HoldOf` | `packages/telefunc/wire-protocol/channel/client/SendGate.ts:61-65` | a held frame joins the end of its channel's queue, what waited for headroom moving ahead of what is held |
| `Gates.CarriesFirst` | `packages/telefunc/wire-protocol/channel/client/SendGate.ts:106-114` | `carriedFrom` gets, for each channel that may send, the seq of its first held frame |
| `Gates.SendUsed` | `packages/telefunc/wire-protocol/channel/client/SendGate.ts:60-75` | a send queues only frames of listed channels and brings back none of a dropped one |
| `GateFlows.DrainsExactly` | `packages/telefunc/wire-protocol/channel/client/SendGate.ts:116-149` | every frame, with a seq or without: what channels not releasable held stays, in order; of what is due, each limit a later one replaces left out, all before the cut go, and past it those without a seq go and the others wait behind what waited; the cut is at the first seq that finds the headroom used up, or some waiting already |
| `GateFlows.PlainDrains` | `packages/telefunc/wire-protocol/channel/client/SendGate.ts:116-149` | of a releasable channel the frames without a seq that go are exactly those held, in order, less each WINDOW or MSG_WINDOW that a later one of its tag follows; another channel's stay held |
| `GateFlows.PlainSettles` | `packages/telefunc/wire-protocol/channel/client/SendGate.ts:198-222` | what a channel holds without a seq is lost only with the channel's queue |
| `GateFlows.StaysPut` | `packages/telefunc/wire-protocol/channel/client/SendGate.ts:129-132` | of a channel not releasable no frame of any kind goes, is dropped or changes place, and its replay is as it was |
| `GateFlows.SendsExactly` | `packages/telefunc/wire-protocol/channel/client/SendGate.ts:60-99` | where sends are open and its channel not awaited, a frame without a seq goes at once; one with a seq goes right behind what waited if all of that goes and headroom is left, else waits behind it; what waited goes till the headroom is used up, and no further |
| `GateFlows.HoldsLast` | `packages/telefunc/wire-protocol/channel/client/SendGate.ts:61-65` | a frame that may not go yet is the last held, behind what waited for headroom where sends are held back, whether it has a seq or not |
| `GateFlows.SettlesExactly` | `packages/telefunc/wire-protocol/channel/client/SendGate.ts:198-222` | exactly the dropped channels' frames go, and while sends are held back what waited moves ahead of what is held, both in order |
| `GateFlows.DropsSubscriptions` | `packages/telefunc/wire-protocol/channel/client/SendGate.ts:151-157` | only a subscribing channel's SUB and UNSUB frames go, every other stays, in order |
| `Pages.LiveStep` | `packages/telefunc/wire-protocol/channel/client/SendGate.ts:36-222` | every step keeps each live channel's order: what went out, what waits, what is held is what was issued |
| `Pages.EveryRunIsInOrder` | `packages/telefunc/wire-protocol/channel/client/SendGate.ts:60-149` | over every run of sends, drains, wire losses, attaches, closes and releases, a channel's seqs are 1, 2, 3..., each frame exactly once, first those that went out and were pushed to its replay, then those waiting for headroom, then those held; nothing is held once it may send |
| `Pages.EveryReplayIsWhatWent` | `packages/telefunc/wire-protocol/channel/client/SendGate.ts:86-99` | over the same runs a replay after any seq that went out is exactly the frames that went out after it, or reports that one was dropped |
| `Pages.EveryFrameGoes` | `packages/telefunc/wire-protocol/channel/client/SendGate.ts:86-104` | after every run, reopening sends and then headroom for what waits let out every frame issued, of every channel neither lost nor awaited |
| `Pages.NothingAfterEnd` | `packages/telefunc/wire-protocol/channel/client/SendGate.ts:167-178` | after every run, once a channel is lost or released no frame of it goes out any more, with a seq or without, whatever it had queued and whatever follows |
| `SendGates.NewestLimits` | `packages/telefunc/wire-protocol/channel/client/SendGate.ts:119-124` | the map of newest limits says which held WINDOW or MSG_WINDOW a later one supersedes |
| `SendGates.FirstCarried` | `packages/telefunc/wire-protocol/channel/client/SendGate.ts:107-112` | the loop records each channel's first held seq |
| `SendGates.SendGate.Send` | `packages/telefunc/wire-protocol/channel/client/SendGate.ts:60-75` | the gate, its queues and its byte count updated in place, takes the step proved above; the byte count stays the bytes waiting |
| `SendGates.SendGate.SendUnsequenced` | `packages/telefunc/wire-protocol/channel/client/SendGate.ts:77-84` | a frame without a seq takes the gate step of the value in place: it goes at once or is the last held |
| `SendGates.SendGate.SendWaiting` | `packages/telefunc/wire-protocol/channel/client/SendGate.ts:86-99` | the Fifo of frames waiting is drained as far as the headroom goes, as the value's step says |
| `SendGates.SendGate.Drain` | `packages/telefunc/wire-protocol/channel/client/SendGate.ts:116-149` | the drain that compacts the buffer in place with a read and a write index is the drain of the value, which `DrainsExactly` pins frame by frame |
| `SendGates.SendGate.DrainSendable` | `packages/telefunc/wire-protocol/channel/client/SendGate.ts:101-104` | drains every channel the server does not await |
| `SendGates.SendGate.DrainForReconcile` | `packages/telefunc/wire-protocol/channel/client/SendGate.ts:106-114` | drains every channel not awaited, and records the first held seq of each |
| `SendGates.SendGate.DropQueues` | `packages/telefunc/wire-protocol/channel/client/SendGate.ts:209-222` | the dropped channels' frames go in one pass, and the byte count with them |
| `SendGates.SendGate.SettleQueue` | `packages/telefunc/wire-protocol/channel/client/SendGate.ts:198-207` | while sends are held back what waited for headroom moves ahead of what is held |
| `SendGates.SendGate.DropSubscriptionFrames` | `packages/telefunc/wire-protocol/channel/client/SendGate.ts:151-157` | only the subscribing channels' SUB and UNSUB frames go |
| `SendGates.SendGate.QueuedIxes` | `packages/telefunc/wire-protocol/channel/client/SendGate.ts:159-165` | the channels with a frame held or waiting, every one still listed |
| `SendGates.SendGate.Idle` | `packages/telefunc/wire-protocol/channel/client/SendGate.ts:55-58` | true exactly when nothing is held or waits |
| `SendGates.SendGate.Release` | `packages/telefunc/wire-protocol/channel/client/SendGate.ts:167-178` | the record goes and its frames are dropped at the next read |
| `SendGates.SendGate.WaitingBytes` | `packages/telefunc/wire-protocol/channel/client/SendGate.ts:50-53` | the counter is the bytes of the frames waiting for headroom |
| `Fifos.Fifo.Push` | `packages/telefunc/utils/Fifo.ts:12-14` | the item goes to the end of the contents |
| `Fifos.Fifo.Shift` | `packages/telefunc/utils/Fifo.ts:24-33` | the first item comes out and the others stay in order, compaction included |
| `Fifos.Fifo.Peek` | `packages/telefunc/utils/Fifo.ts:16-18` | the first item, if there is one |
| `Connections.ClientConnection.SendSequenced` | `packages/telefunc/wire-protocol/channel/client/ClientConnection.ts:187-210` | a frame is encoded at the next seq and only then takes it: a refused frame uses none, any other is queued at exactly it |
| `Connections.ClientConnection.SendAckRes` | `packages/telefunc/wire-protocol/channel/client/ClientConnection.ts:212-226` | an answer too large goes as an error at the same seq, so no seq is left without a frame |
| `Connections.ClientConnection.SendClosing` | `packages/telefunc/wire-protocol/channel/client/ClientConnection.ts:234-254` | an ABORT, CLOSE or CLOSE_ACK takes the next seq as data does |
| `ChannelTables.ChannelTable.Add` | `packages/telefunc/wire-protocol/channel/client/ChannelTable.ts:109-122` | a channel starts pending, undeclared, and unknown to the server |
| `ChannelTables.ChannelTable.OpenChannel` | `packages/telefunc/wire-protocol/channel/client/ChannelTable.ts:124-127` | only the state changes |
| `ChannelTables.ChannelTable.Close` | `packages/telefunc/wire-protocol/channel/client/ChannelTable.ts:129-135` | it sends no more but stays listed, and stays initial if no RECONCILED attached it |
| `ChannelTables.ChannelTable.ServerHas` | `packages/telefunc/wire-protocol/channel/client/ChannelTable.ts:137-142` | a closed channel is delivered once the server has the last seq issued, and not before |
| `ChannelTables.ChannelTable.Release` | `packages/telefunc/wire-protocol/channel/client/ChannelTable.ts:154-161` | all it held goes, and a declared one is told to the server: what the server lists is unchanged |
| `ChannelTables.ChannelTable.TakeReleased` | `packages/telefunc/wire-protocol/channel/client/ChannelTable.ts:90-95` | once told, the server lists just the declared channels |
| `ChannelTables.ChannelTable.MarkDeclared` | `packages/telefunc/wire-protocol/channel/client/ChannelTable.ts:85-88` | declaring adds the channel to what the server lists |
| `ChannelTables.ChannelTable.SentThrough` | `packages/telefunc/wire-protocol/channel/client/ChannelTable.ts:97-100` | the seq the low bits stand for, from the last one issued |
| `ChannelTables.ChannelTable.ServerHasThrough` | `packages/telefunc/wire-protocol/channel/client/ChannelTable.ts:102-105` | the channel's replay lets go, an unlisted one changes nothing |
| `ChannelTables.ChannelTable.StopAwaiting` | `packages/telefunc/wire-protocol/channel/client/ChannelTable.ts:163-166` | no record waits, and nothing else of any changes |
| `ReattachSafety.AcceptedIsPrefix` | `packages/telefunc/wire-protocol/channel/client/AttachExchange.ts:222-245` | over every run of sends, deliveries, acknowledgements, lost wires, late deliveries from old wires and reattaches, what the server acted on is exactly the first frames the page issued, in order, each once |
| `ReattachSafety.LiveLosesNothing` | `packages/telefunc/wire-protocol/channel/client/AttachExchange.ts:399-414` | whenever the channel is live on a wire that has not refused it, delivering what the wire carries leaves the server with every frame that went out |
| `ReattachSafety.LostExactly` | `packages/telefunc/wire-protocol/channel/client/AttachExchange.ts:406-422` | a channel ends as LOST if and only if a frame past what was acknowledged is no longer held, or the answer is behind what the page already knew was received |
| `ReattachProgress.ReconnectDelivers` | `packages/telefunc/wire-protocol/channel/client/AttachExchange.ts:222-245` | after every run, where neither side gave the channel up, a next wire that delivers brings the server every frame the page issued if and only if the replay holds what the server lacks; else the channel ends as lost |
| `ReattachProgress.ReconnectedExactly` | `packages/telefunc/wire-protocol/channel/client/AttachExchange.ts:399-414` | a wire lost, a RECONCILE, and its RECONCILED leave the channel live exactly where the replay gives what the server lacks, and lost exactly where not |
| `ReattachAnswers.EndsForDroppedOnly` | `packages/telefunc/wire-protocol/channel/client/AttachExchange.ts:406-422` | over every run that takes nothing from a wire left, an answer that names its seq ends a channel as lost if and only if a frame past that seq was dropped: it is never behind what was acknowledged |
| `ReattachAnswers.OvertakenEnds` | `packages/telefunc/wire-protocol/channel/client/AttachExchange.ts:201-218` | a run, with nothing taken from a wire left, where an ATTACH_RESULT kept for its RECONCILED is overtaken by an acknowledgement, so the channel ends as lost though the server has every frame |
| `ReattachAnswers.DeliveredIsAccepted` | `packages/telefunc/wire-protocol/channel/client/ChannelTable.ts:137-161` | over every run, once the server names the last seq issued, as it must before a closed channel's record is let go, it acted on every frame, the closing one included |
| `ReattachAnswers.EveryFrameRecovers` | `packages/telefunc/wire-protocol/channel/server/ServerChannel.ts:476-491` | over every run the next frame of a wire is never ahead of the seq the server expects, and its low 32 bits name it if and only if it is less than 2^31 behind that |
| `ReattachAnswers.EveryAnswerRecovers` | `packages/telefunc/wire-protocol/channel/client/ChannelTable.ts:97-105` | over every run a seq the server names is never past the last one issued, and its low 32 bits name it if and only if fewer than 2^32 frames were issued since |
| `ReattachSafety.StepKept` | `packages/telefunc/wire-protocol/channel/client/AttachExchange.ts:167-272` | every step of page, server or wires keeps the invariant: no gap on any wire, the server's last seq acknowledged at most, and a live or carrying wire covers all that went out |
| `ReattachSafety.ReplayToKept` | `packages/telefunc/wire-protocol/channel/client/AttachExchange.ts:406-414` | replaying what the server lacks, or ending the channel, keeps it |
| `ReattachSafety.NameFlows` | `packages/telefunc/wire-protocol/channel/client/AttachExchange.ts:136-147` | frames carried behind a RECONCILE leave no gap: the server, or the wire to it, has all that went before them |
| `ReattachSafety.ServerTakesKept` | `packages/telefunc/wire-protocol/channel/server/ServerChannel.ts:476-491` | the server's rule, a frame newer than its last and no other, keeps it on a channel attached, waiting or settling |
| `ReattachSafety.SettleKept` | `packages/telefunc/wire-protocol/channel/server/AwaitedChannels.ts:87-93` | dispatching what the server held and then answering keeps it |
| `ReattachSafety.LeaveKept` | `packages/telefunc/wire-protocol/channel/client/AttachExchange.ts:129-134` | leaving a wire, which may still deliver, keeps it |
| `Attaching.ReconciledIsTheStep` | `packages/telefunc/wire-protocol/channel/client/AttachExchange.ts:201-245` | for a channel the server may still lack frames of, closed or not, settling the answers and attaching it is exactly the protocol step the safety results are about: same replay, same frames again, and awaited, live, lost or gone just when that says; omitted if gone and open, let go if gone and closed; what it held drains if and only if it ends up live or lost, never while awaited |
| `Attaching.AttachResultIsTheStep` | `packages/telefunc/wire-protocol/channel/client/AttachExchange.ts:247-272` | an awaited channel's ATTACH_RESULT, closed or not, is exactly the step of the protocol |
| `Attaching.AttachOneMore` | `packages/telefunc/wire-protocol/channel/client/AttachExchange.ts:228-243` | the named channels can be brought up in any order: each comes to what it comes to alone |
| `Attaching.DrainsAllUnawaited` | `packages/telefunc/wire-protocol/channel/client/AttachExchange.ts:184-190` | with no channel left for a next RECONCILE and none deferred, the drain releases every listed channel the server does not await, which is what sends need before they reopen; `WithheldStays` is the other half |
| `Attaching.WithheldStays` | `packages/telefunc/wire-protocol/channel/client/AttachExchange.ts:183-190` | of a channel the server awaits, of one no RECONCILE named yet, and of one named and not attached, the drain lets no frame go; one still listed keeps every frame it had queued, and its record but for what the answers settled |
| `Attaching.InitialTillAttached` | `packages/telefunc/wire-protocol/channel/client/AttachExchange.ts:339-377` | a channel is listed as initial till the server attached it: of the answers to a RECONCILE, just an attach changes that |
| `AttachExchanges.AttachExchange.ForgetWire` | `packages/telefunc/wire-protocol/channel/client/AttachExchange.ts:129-134` | nothing is in flight or awaited once the wire goes |
| `AttachExchanges.AttachExchange.SettleAnswers` | `packages/telefunc/wire-protocol/channel/client/AttachExchange.ts:201-218` | an initial channel is awaited exactly when neither the RECONCILED nor an ATTACH_RESULT answered for it; the RECONCILED's seq wins over the ATTACH_RESULT's |
| `AttachExchanges.AttachExchange.AttachNamed` | `packages/telefunc/wire-protocol/channel/client/AttachExchange.ts:220-245` | the loop over the named channels: per channel what goes again, which are let go, which omitted, and whose queues are dropped |
| `AttachExchanges.AttachExchange.AttachRecord` | `packages/telefunc/wire-protocol/channel/client/AttachExchange.ts:399-404` | the record comes to the server's state, and its replay goes from there |
| `AttachExchanges.AttachExchange.ReplayTo` | `packages/telefunc/wire-protocol/channel/client/AttachExchange.ts:406-414` | what the server lacks goes again, or an ERROR, or nothing for a channel the server ended |
| `AttachExchanges.AttachExchange.LoseChannel` | `packages/telefunc/wire-protocol/channel/client/AttachExchange.ts:416-422` | the queue goes, the channel closes and the ERROR takes its next seq |
| `AttachExchanges.AttachExchange.HandleAttachResult` | `packages/telefunc/wire-protocol/channel/client/AttachExchange.ts:247-272` | kept for the RECONCILED in flight, ignored, closing the channel, or its replay and then what it held: each in exactly its case, all else unchanged |
| `AttachExchanges.AttachExchange.CloseUnacknowledged` | `packages/telefunc/wire-protocol/channel/client/AttachExchange.ts:274-282` | exactly the channels named go, with their queues |
| `AttachExchanges.AttachExchange.TakeAnswers` | `packages/telefunc/wire-protocol/channel/client/AttachExchange.ts:173-190` | the answers settled, the named channels brought up, those omitted closed unless deferred, and then the drain of every channel the server has; no frame of an awaited, undeclared, or named and not attached channel is drained, and one still listed keeps its queue |
| `AttachExchanges.AttachExchange.BringUp` | `packages/telefunc/wire-protocol/channel/client/AttachExchange.ts:173-181` | the records, queues and undeclared channels the drain finds: answers settled, named channels brought up, those omitted closed unless deferred |
| `AttachExchanges.AttachExchange.ApplyReconciled` | `packages/telefunc/wire-protocol/channel/client/AttachExchange.ts:165-199` | a RECONCILE follows exactly when a channel registered meanwhile and no barrier goes next; else none is in flight and the state is that of the answers taken; either way no drained frame is of a channel the server may not have |
| `AttachExchanges.AttachExchange.DeclareOpenEntries` | `packages/telefunc/wire-protocol/channel/client/AttachExchange.ts:339-377` | exactly the records not done with, nor skipped, are listed, each with its last seq and whether as initial; those done with are let go |
| `AttachExchanges.AttachExchange.BuildReconcile` | `packages/telefunc/wire-protocol/channel/client/AttachExchange.ts:320-337` | a server that took every RECONCILE of the wire so far, and takes this one of what changed, lists exactly the channels the page does; on another wire the RECONCILE lists them all |
| `AttachExchanges.AttachExchange.StageReconcileBatch` | `packages/telefunc/wire-protocol/channel/client/AttachExchange.ts:136-139` | behind the RECONCILE goes what the channels not awaited held, from the seqs recorded as carried |
| `AttachExchanges.AttachExchange.StageInitialReconcileBatch` | `packages/telefunc/wire-protocol/channel/client/AttachExchange.ts:141-147` | a new wire's first batch carries frames only where no session was had and no replay holds one, so a replay never comes second |
| `AttachExchanges.AttachExchange.BuildBarrier` | `packages/telefunc/wire-protocol/channel/client/AttachExchange.ts:155-163` | the barrier lists all but the channels no RECONCILE named yet |
| `Pieces.TakesRiders` | `packages/telefunc/wire-protocol/flowControl/pieces.ts:673-679` | frames riding ahead of a message's last are delivered in order, each counted with its LENGTH |
| `PieceSteps.AnnouncedSizes` | `packages/telefunc/wire-protocol/flowControl/pieces.ts:385-395` | the sizes of an announced frame's messages, the last two rebalanced, add up to what was left |
| `PieceSafety.AnnouncedInPace` | `packages/telefunc/wire-protocol/flowControl/pieces.ts:37-41` | every announced message is at most what may follow the one before, after the rebalance in thirds too |
| `PieceSafety.PiecesBytes` | `packages/telefunc/wire-protocol/flowControl/pieces.ts:300-306` | the bytes counted for a cut are exactly those of the pieces it hands |
| `PieceSafety.PassTaken` | `packages/telefunc/wire-protocol/flowControl/pieces.ts:227-240` | passing a frame, whole, gathered, cut or waiting, leaves the receiver with just what went, and the frame next in line |
| `PieceSafety.CutTaken` | `packages/telefunc/wire-protocol/flowControl/pieces.ts:289-308` | cutting a frame to the headroom leaves the receiver with exactly the part handed, as far as `CutGoesTo` says |
| `PieceSafety.BehindTaken` | `packages/telefunc/wire-protocol/flowControl/pieces.ts:329-345` | a frame sent behind an announcement, its probe included, is taken whole |
| `PieceSafety.SendProbeTaken` | `packages/telefunc/wire-protocol/flowControl/pieces.ts:356-374` | a probe's empty piece and first two are taken, and the rest of the frame behind them |
| `PieceSafety.SendAnnouncedTaken` | `packages/telefunc/wire-protocol/flowControl/pieces.ts:376-406` | announced messages are taken in pace, and count toward what the closing ANNOUNCE names |
| `PieceSafety.SendTaken` | `packages/telefunc/wire-protocol/flowControl/pieces.ts:170-190` | any send a task may make keeps the line: delivered, gathered, waiting is what was given |
| `PieceSafety.SendWaitingTaken` | `packages/telefunc/wire-protocol/flowControl/pieces.ts:523-539` | what waits goes in order as headroom comes, as far as `SendWaitingGoesTo` says, and keeps the line |
| `PieceSafety.ClosesExactly` | `packages/telefunc/wire-protocol/flowControl/pieces.ts:347-354` | the peer takes a closing ANNOUNCE if and only if the announcement's bytes are below 2^32, and else that very message breaks the protocol |
| `PieceSafety.AckBesideRest` | `packages/telefunc/wire-protocol/flowControl/pieces.ts:180-181` | a PIECES_ACK passing a rest that waits is taken if and only if no piece of the rest went yet or it goes whole, and else one of the messages it is cut into breaks the protocol |
| `PieceSafety.PeerTakesBytes` | `packages/telefunc/wire-protocol/wire/frame.ts:401-419` | what the receiver takes frame by frame is what it takes of the bytes of the messages |
| `PieceCounters.SendCounted` | `packages/telefunc/wire-protocol/flowControl/pieces.ts:74-81` | a send keeps `waitingBytes` the rest and the queue behind it |
| `PieceCounters.SendWaitingCounted` | `packages/telefunc/wire-protocol/flowControl/pieces.ts:523-539` | what goes when headroom comes keeps `waitingBytes` the rest and the queue behind it |
| `PieceCounters.SendGrows` | `packages/telefunc/wire-protocol/flowControl/pieces.ts:74-81` | a send only adds to what was transmitted, and keeps the three `end` queues in order past what is acknowledged |
| `PieceCounters.AcknowledgeOrdered` | `packages/telefunc/wire-protocol/flowControl/pieces.ts:455-474` | an acknowledgement drops every entry it reaches and the probe, and keeps the order |
| `PieceCounters.AcknowledgesExactly` | `packages/telefunc/wire-protocol/flowControl/pieces.ts:455-464` | the low 32 bits of a count less than 2^32 past the last acknowledge exactly that count |
| `PieceCounters.HeartbeatExactly` | `packages/telefunc/wire-protocol/flowControl/pieces.ts:499-504` | the low 32 bits of a count less than 2^31 either way of the last one name exactly that count |
| `PieceRuns.EveryRunIsTaken` | `packages/telefunc/wire-protocol/flowControl/pieces.ts:71-551` | over every run whose steps fit, on a socket that keeps order, the receiver fed the bytes raises no violation, took exactly what the sender counts as handed, was never sent a message out of pace, and with what is gathered or waits has every frame given, byte for byte, as often as given, data in the order given |
| `PieceRuns.EveryRunIsTakenExactly` | `packages/telefunc/wire-protocol/flowControl/pieces.ts:71-551` | over every run, the receiver takes the bytes handed so far after each step if and only if each step fits: no PIECES_ACK is cut beside a rest of which some went, and no announcement closes at 2^32 bytes |
| `PieceRuns.StepTakenExactly` | `packages/telefunc/wire-protocol/flowControl/pieces.ts:170-354` | from any state a run reaches, the bytes of one more step are a violation if and only if it does not fit |
| `PieceMisfits.CutAckBreaks` | `packages/telefunc/wire-protocol/flowControl/pieces.ts:180-181` | a run from a new sender, its rate falling while a frame of 50 bytes waits in part, whose PIECES_ACK the receiver takes for a violation |
| `PieceMisfits.LargeBreaks` | `packages/telefunc/wire-protocol/flowControl/pieces.ts:347-354` | a run from a new sender, two frames of 2^31 bytes in one task, whose closing ANNOUNCE the receiver takes for a violation |
| `PieceMisfits.AckFitsExactly` | `packages/telefunc/wire-protocol/flowControl/pieces.ts:427-444` | the sizes the rates give let a PIECES_ACK go whole if and only if no rate is measured or the fastest carries its 19 bytes in an eighth of the ping interval |
| `PieceRuns.EveryRunCounts` | `packages/telefunc/wire-protocol/flowControl/pieces.ts:74-81` | over the same runs the counters agree between calls: waiting bytes, ordered ends, no rest means nothing waits, and an open announcement means nothing waits and nothing is gathered, so the assertion in `hand` holds |
| `PieceRuns.AllArrived` | `packages/telefunc/wire-protocol/flowControl/pieces.ts:71-551` | over the same runs, once nothing waits or is gathered, the receiver delivered exactly the frames given and holds nothing of another |
| `PieceProgress.CutGoesTo` | `packages/telefunc/wire-protocol/flowControl/pieces.ts:289-308` | from any offset, data that is cut is handed as far as the whole bytes of the headroom reach, any other frame to its end, and exactly the rest waits |
| `PieceProgress.PassGoesTo` | `packages/telefunc/wire-protocol/flowControl/pieces.ts:227-240` | a frame sent with no rest ahead of it goes just so far: to the headroom where it is cut, whole while there is headroom where not, whole too before a rate is measured; the rest waits, and all counted as handed is taken off the headroom |
| `PieceProgress.SendWaitingGoesTo` | `packages/telefunc/wire-protocol/flowControl/pieces.ts:523-539` | the rest goes on by exactly the headroom left past the carried frames, and `waitingBytes` falls by just that; where none of it is left the frames behind go too, in order, till one leaves a rest |
| `PieceProgress.EnoughGoes` | `packages/telefunc/wire-protocol/flowControl/pieces.ts:523-539` | with headroom for what waits, its pieces' headers and what is carried, nothing waits any more |
| `PieceProgress.EnoughArrives` | `packages/telefunc/wire-protocol/flowControl/pieces.ts:523-551` | after every run whose steps fit, one `sendWaiting` with enough headroom and a flush leave the receiver with every frame given, its data in order, and nothing of another |
| `PieceChoices.AnnouncedAreFewest` | `packages/telefunc/wire-protocol/flowControl/pieces.ts:385-395` | no sizes that keep the pace carry as many bytes in fewer messages, and the last message is no smaller than the one before |
| `PieceChoices.PiecesAreFull` | `packages/telefunc/wire-protocol/flowControl/pieces.ts:300-306` | each piece but the last carries exactly the piece size, and they follow on from one another |
| `PieceChoices.HandsPieces` | `packages/telefunc/wire-protocol/flowControl/pieces.ts:300-306` | one message a piece, in order, the first with what was carried; the piece size is the whole bytes of what goes whole, at least one |
| `PieceChoices.AnnouncesExactly` | `packages/telefunc/wire-protocol/flowControl/pieces.ts:181-212` | with no rest and no announcement open, exactly which frames open one: those behind a probe, and before a rate is measured the large ones that do not fit the send-ahead and the headroom left |
| `PieceChoices.QueuesExactly` | `packages/telefunc/wire-protocol/flowControl/pieces.ts:181-189` | behind a rest a frame waits exactly where it may not pass data or would be cut, an acknowledgement never, and what waited stays |
| `PieceChoices.ProbesExactly` | `packages/telefunc/wire-protocol/flowControl/pieces.ts:343-374` | one probe at a time: a frame is the probe exactly where none is out, no rate is measured and it is larger than goes whole, and it ends behind its first two pieces |
| `PieceChoices.TracksExactly` | `packages/telefunc/wire-protocol/flowControl/pieces.ts:238-238` | exactly the frames the receiver acknowledges are tracked, by where they end |
| `PieceChoices.AcknowledgeDrops` | `packages/telefunc/wire-protocol/flowControl/pieces.ts:455-497` | an acknowledgement drops exactly the entries it reaches from each queue, and the probe exactly where it reaches its end |
| `PieceChoices.SizesMean` | `packages/telefunc/wire-protocol/flowControl/pieces.ts:426-444` | a whole frame takes an eighth of the ping interval at the fastest rate measured; unmeasured, an unannounced one goes within the deadline at the floor past the probe's first piece; a gathered message is within both |
| `PieceChoices.GathersWithin` | `packages/telefunc/wire-protocol/flowControl/pieces.ts:242-259` | a gathered message is within the limit unless one frame is all of it, and data joins only where it is not timed and nothing there goes at once |
| `PieceReceivers.PieceReceiver.Arrived` | `packages/telefunc/wire-protocol/flowControl/pieces.ts:673-679` | the receiver in place takes the step of the value |
| `PieceReceivers.PieceReceiver.Announce` | `packages/telefunc/wire-protocol/flowControl/pieces.ts:681-694` | opening and closing, and the violation exactly where the value has it |
| `PieceReceivers.PieceReceiver.Add` | `packages/telefunc/wire-protocol/flowControl/pieces.ts:721-754` | a piece joins the growing buffer; the frame comes out whole with its last piece; a probe's two pieces, and no other, are acknowledged at once |
| `PieceReceivers.PieceReceiver.Grow` | `packages/telefunc/wire-protocol/flowControl/pieces.ts:734-738` | the buffer doubles, never past the frame, and keeps what arrived |
| `SocketMessagesOf.SocketMessages.Gather` | `packages/telefunc/wire-protocol/flowControl/pieces.ts:574-579` | the message in place takes the step of the value |
| `SocketMessagesOf.SocketMessages.Add` | `packages/telefunc/wire-protocol/flowControl/pieces.ts:581-586` | with the LENGTH the frame before it now needs counted |
| `SocketMessagesOf.SocketMessages.Hand` | `packages/telefunc/wire-protocol/flowControl/pieces.ts:588-595` | what is carried rides ahead of it in one message |
| `SocketMessagesOf.SocketMessages.Flush` | `packages/telefunc/wire-protocol/flowControl/pieces.ts:597-608` | all it holds goes as one message of exactly its bytes, and it holds nothing |
| `PieceSenders.SizesOf` | `packages/telefunc/wire-protocol/flowControl/pieces.ts:385-395` | the loop and the rebalance give the sizes |
| `PieceSenders.PieceSender.Send` | `packages/telefunc/wire-protocol/flowControl/pieces.ts:170-190` | the sender in place, its queues Fifos, takes the step of the value proved above |
| `PieceSenders.PieceSender.Pass` | `packages/telefunc/wire-protocol/flowControl/pieces.ts:227-240` | passing a frame in place is the step of the value |
| `PieceSenders.PieceSender.Gather` | `packages/telefunc/wire-protocol/flowControl/pieces.ts:242-259` | gathering a frame in place is the step of the value |
| `PieceSenders.PieceSender.Cut` | `packages/telefunc/wire-protocol/flowControl/pieces.ts:289-308` | cutting a frame in place is the step of the value, which hands data from any offset as far as the headroom: `CutGoesTo` |
| `PieceSenders.PieceSender.SendBehindAnnouncement` | `packages/telefunc/wire-protocol/flowControl/pieces.ts:329-345` | a frame behind an announcement in place is the step of the value |
| `PieceSenders.PieceSender.CloseAnnouncement` | `packages/telefunc/wire-protocol/flowControl/pieces.ts:347-354` | closing the announcement in place is the step of the value |
| `PieceSenders.PieceSender.SendProbe` | `packages/telefunc/wire-protocol/flowControl/pieces.ts:356-374` | a probe in place is the step of the value |
| `PieceSenders.PieceSender.SendAnnounced` | `packages/telefunc/wire-protocol/flowControl/pieces.ts:376-406` | the loops over announced messages hand what the recursive step of the value hands |
| `PieceSenders.PieceSender.SendWaiting` | `packages/telefunc/wire-protocol/flowControl/pieces.ts:523-539` | the loop over the waiting Fifo is the recursive step of the value, one frame after another |
| `PieceSenders.PieceSender.Acknowledged` | `packages/telefunc/wire-protocol/flowControl/pieces.ts:455-474` | refused exactly where it acknowledges nothing sent or more than was sent, else the three queues drop what it reaches |
| `PieceSenders.PieceSender.Heartbeat` | `packages/telefunc/wire-protocol/flowControl/pieces.ts:499-507` | refused exactly where it says more than was sent |
| `PieceSenders.PieceSender.EndTask` | `packages/telefunc/wire-protocol/flowControl/pieces.ts:261-265` | what the task gathered goes |
| `PieceSenders.PieceSender.TakeCarried` | `packages/telefunc/wire-protocol/flowControl/pieces.ts:541-550` | the carried frames are counted and go ahead of what is sent next |
| `AckSchedules.AcksAreApart` | `packages/telefunc/wire-protocol/flowControl/client/ClientPieceReceiver.ts:6-27` | over every run acknowledgements but a probe's come at least 50 ms apart, each reports no less than the one before and no more than was taken |
| `AckSchedules.OwedGoes` | `packages/telefunc/wire-protocol/flowControl/client/ClientPieceReceiver.ts:9-27` | over every run whatever the page owes goes by the gap after the last one: with the next message, or with none for an announcement's close |
| `AckSchedules.AsksAreAnswered` | `packages/telefunc/wire-protocol/flowControl/client/ClientPieceReceiver.ts:9-27` | over every run each frame over 16 KiB, whole or made whole, each probe and each announcement's close is acknowledged or still owed, and each acknowledgement reports more than the one before, so none goes that nothing asked for |
| `AckSchedules.StepKept` | `packages/telefunc/wire-protocol/flowControl/pieces.ts:762-803` | every arrival, timer and message keeps what is owed scheduled |
| `AckSchedules.AckSchedule.Arm` | `packages/telefunc/wire-protocol/flowControl/pieces.ts:846-853` | a timer due sooner stays |
| `AckSchedules.AckSchedule.Carry` | `packages/telefunc/wire-protocol/flowControl/pieces.ts:857-862` | false exactly if it was carried already |
| `AckSchedules.ClientPieceReceiver.TookFrame` | `packages/telefunc/wire-protocol/flowControl/client/ClientPieceReceiver.ts:10-14` | the policy in place takes the step of the value |
| `AckSchedules.ClientPieceReceiver.TookPiece` | `packages/telefunc/wire-protocol/flowControl/client/ClientPieceReceiver.ts:16-18` | the policy for a piece in place is the step of the value |
| `AckSchedules.ClientPieceReceiver.TookClose` | `packages/telefunc/wire-protocol/flowControl/client/ClientPieceReceiver.ts:20-23` | the policy for an announcement's close in place is the step of the value |
| `AckSchedules.ClientPieceReceiver.Fired` | `packages/telefunc/wire-protocol/flowControl/pieces.ts:871-875` | the timer in place is the step of the value |
| `Credits.RaiseIsExact` | `packages/telefunc/wire-protocol/flowControl/SendCredit.ts:92-110` | a limit sent as its low 32 bits raises the sender's to exactly the larger of the two if and only if the distance does not wrap |
| `Credits.RaiseIsWithin` | `packages/telefunc/wire-protocol/flowControl/SendCredit.ts:92-110` | whatever a limit less than 2^31 behind raises the sender's to, however far ahead it is, is at most the larger of the two |
| `Credits.ReplayWindow` | `packages/telefunc/wire-protocol/flowControl/credit.ts:21-24` | never 0; past 1, twice the window and a frame's overhead fit the smaller of the two replay queues, and one more would not |
| `CreditRuns.NeverPastGranted` | `packages/telefunc/wire-protocol/flowControl/SendCredit.ts:92-110` | over every run, whatever the sizes sent, limits lost, repeated, or late by less than 2^31, the sender's byte limit never passes what was granted, nor its message limit what was consumed and a window, though only low 32 bits come |
| `CreditRuns.NeverDeadlocks` | `packages/telefunc/wire-protocol/flowControl/ReceiveCredit.ts:204-248` | over every run in which the sender stays in reach of its limits, once all sent is consumed and the newest byte limit and message limit were delivered, or just the newest of those that go at once, whichever others were lost, late or still wait for a message, it has credit left in bytes and in messages: no side waits for the other's next message |
| `CreditRuns.AwaitedNeverDeadlocks` | `packages/telefunc/wire-protocol/flowControl/SendCredit.ts:74-110` | so it has over every run whose sends wait for credit, of frames that with the largest window are below 2^31 bytes: the senders the credit is for |
| `CreditRuns.LimitsGoAtOnce` | `packages/telefunc/wire-protocol/flowControl/ReceiveCredit.ts:204-248` | over every run a limit sent as a quarter of a window is consumed, a window grows or a wire is new never waits for a message to ride, but for a message limit right before a byte limit that does not ride |
| `Urgencies.AdvertisesBytesSoon` | `packages/telefunc/wire-protocol/flowControl/ReceiveCredit.ts:217-237` | a byte limit is urgent if and only if more than half the window was consumed since the last urgent one, else as soon as it was asked for; a message limit rides right before it only where the byte limit does not ride itself |
| `CreditRuns.LimitsAreExact` | `packages/telefunc/wire-protocol/flowControl/SendCredit.ts:92-110` | over every run a limit that comes raises the sender's to exactly the larger of the two if and only if it is less than 2^31 ahead, as it always is of a sender in reach of its limits |
| `CreditRuns.AwaitedStaysInReach` | `packages/telefunc/wire-protocol/flowControl/SendCredit.ts:74-90` | a sender that waits for credit before each send is never past its limits by more than one frame |
| `CreditRuns.OutOfReachDeadlocks` | `packages/telefunc/wire-protocol/flowControl/SendCredit.ts:92-102` | a run of one frame of 2^31 bytes, consumed and every limit delivered, after which the sender waits for ever: it takes the byte limit for a stale one |
| `CreditRuns.StepKept` | `packages/telefunc/wire-protocol/flowControl/ReceiveCredit.ts:95-175` | every step keeps it: sends, arrivals, consumption, limits taken, heartbeats, answers, probes, attaches, batch raises and their undoing |
| `ReplayFits.ReconnectLosesNothing` | `packages/telefunc/wire-protocol/flowControl/credit.ts:21-24` | a sender that awaits each counted send of at most half its replay buffer, fitted to it, can give every frame after whatever seq the peer reports, though its limits come as their low 32 bits, lost or late by less than 2^31 |
| `ReplayFits.SendKept` | `packages/telefunc/wire-protocol/flowControl/SendCredit.ts:76-90` | a send with credit left fits on top of all not acknowledged before it |
| `ReplayFits.PushHolds` | `packages/telefunc/wire-protocol/channel/ReplayBuffer.ts:161-169` | a frame that fits evicts none |
| `Grantings.RunSound` | `packages/telefunc/wire-protocol/flowControl/BdpEstimator.ts:90-254` | over every run the byte window stays positive and within its cap, the message window and the probe interval within their bounds |
| `Grantings.GrowsOnEvidence` | `packages/telefunc/wire-protocol/flowControl/BdpEstimator.ts:128-159` | an answer never lowers the byte window, at most doubles it, and grows it only if it answers the ping in flight and at least two thirds of the window arrived since that ping |
| `Grantings.MessagesGrowOnEvidence` | `packages/telefunc/wire-protocol/flowControl/BdpEstimator.ts:192-197` | the message window never shrinks, at most doubles, and grows only on two thirds of the window it is measured against: starved, the one before its last growth |
| `Grantings.GrowsExactly` | `packages/telefunc/wire-protocol/flowControl/BdpEstimator.ts:128-216` | the byte window grows if and only if its ping in flight is answered, it is below its cap, this side is not busy, two thirds arrived in the part of the round the path and the waits explain, and the path's round trip is known or the sender starved by a window that did not just grow: to twice its size, or by half as much again as arrived where the round waited, within the cap |
| `Grantings.MessagesGrowExactly` | `packages/telefunc/wire-protocol/flowControl/BdpEstimator.ts:192-208` | the message window doubles within its bound if and only if its ping is answered and two thirds of the window it is measured against arrived |
| `Grantings.PacesExactly` | `packages/telefunc/wire-protocol/flowControl/BdpEstimator.ts:199-208` | the next ping comes soonest after a round that may grow a window, as late as before after one only a window just grown filled, and twice as late after any other |
| `Grantings.PathIs` | `packages/telefunc/wire-protocol/flowControl/BdpEstimator.ts:161-185` | the path's round trip is known exactly where an end measured one or a round bounds it: the shortest measured, but no shorter than the bound |
| `Grantings.BoundIs` | `packages/telefunc/wire-protocol/flowControl/BdpEstimator.ts:161-177` | a round bounds the path's round trip exactly where it was held back by nothing but the window, or is shorter than the bound so far |
| `Grantings.UndoRestores` | `packages/telefunc/wire-protocol/flowControl/BdpEstimator.ts:218-232` | a raise taken back, once or after another, leaves the window as it was before the first; one a growth followed is kept |
| `BdpEstimators.BdpEstimator.OnReceive` | `packages/telefunc/wire-protocol/flowControl/BdpEstimator.ts:90-100` | a ping goes out if and only if none is in flight, the interval since the last has passed and a window may still grow, and its counts are taken before the frame that opens the round |
| `BdpEstimators.BdpEstimator.OnPingAck` | `packages/telefunc/wire-protocol/flowControl/BdpEstimator.ts:128-159` | a verdict comes only of the answer to the ping in flight, once, settling sizes no window, and it says to grow exactly where the window may: both directions, bytes and messages |
| `BdpEstimators.BdpEstimator.GrowBytes` | `packages/telefunc/wire-protocol/flowControl/BdpEstimator.ts:210-216` | the window never shrinks, at most doubles and stays within its cap |
| `BdpEstimators.BdpEstimator.RaiseByteWindow` | `packages/telefunc/wire-protocol/flowControl/BdpEstimator.ts:218-225` | the window becomes the larger of what it was and what the cap lets it be raised to |
| `BdpEstimators.BdpEstimator.CapByteWindow` | `packages/telefunc/wire-protocol/flowControl/BdpEstimator.ts:234-238` | the window is within the cap, the cap within the largest window, and neither is raised |
| `BdpEstimators.BdpEstimator.Reset` | `packages/telefunc/wire-protocol/flowControl/BdpEstimator.ts:246-254` | no ping is in flight and nothing arrived in the round; the windows and the pace are kept |
| `BdpEstimators.BdpEstimator.ProbeAttach` | `packages/telefunc/wire-protocol/flowControl/BdpEstimator.ts:102-112` | exactly the stale wires' probes are dropped, and the attach's is pending under the next number |
| `ReceiveCredits.ReceiveCredit.OnConsumed` | `packages/telefunc/wire-protocol/flowControl/ReceiveCredit.ts:98-101` | less than a quarter of either window is used up since its limit went, the limits sent being those of the value |
| `ReceiveCredits.ReceiveCredit.Refresh` | `packages/telefunc/wire-protocol/flowControl/ReceiveCredit.ts:210-215` | less than a quarter of either window is used up since its limit went |
| `ReceiveCredits.ReceiveCredit.AdvertiseBytes` | `packages/telefunc/wire-protocol/flowControl/ReceiveCredit.ts:217-237` | the last limit sent is a window past what was consumed, urgent exactly where more than half the window was consumed since the last urgent one and else as asked; what was granted never lowers and covers it, and every limit sent before stays |
| `ReceiveCredits.ReceiveCredit.AdvertiseMessages` | `packages/telefunc/wire-protocol/flowControl/ReceiveCredit.ts:239-248` | exactly one limit is sent, a window past the messages consumed, urgent exactly where more than half the window was consumed since the last urgent one |
| `ReceiveCredits.ReceiveCredit.OnPingAck` | `packages/telefunc/wire-protocol/flowControl/ReceiveCredit.ts:121-136` | neither window shrinks nor more than doubles, each grows exactly on the evidence `GrowsExactly` and `MessagesGrowExactly` name, and a window that grew is granted |
| `ReceiveCredits.ReceiveCredit.AttachOnNewWire` | `packages/telefunc/wire-protocol/flowControl/ReceiveCredit.ts:163-175` | on another wire than the last both limits go, of all consumed; the windows are kept and no ping is in flight; on the first, what is granted covers the window and what arrived is acknowledged |
| `ReceiveCredits.ReceiveCredit.OnReceivedUncounted` | `packages/telefunc/wire-protocol/flowControl/ReceiveCredit.ts:103-108` | less than a quarter of a window arrived uncounted and unacknowledged, and no credit is consumed by it |
| `SendCredits.SendCredit.Decrement` | `packages/telefunc/wire-protocol/flowControl/SendCredit.ts:74-90` | the frame is counted first; the caller waits exactly where credit ran out or others wait, behind the one released, and once shut down its wait is over at once |
| `SendCredits.SendCredit.OnPeerByteWindow` | `packages/telefunc/wire-protocol/flowControl/SendCredit.ts:92-102` | a limit ahead raises by exactly the difference and wakes at most one waiter; a stale one changes nothing |
| `SendCredits.SendCredit.OnPeerMessageWindow` | `packages/telefunc/wire-protocol/flowControl/SendCredit.ts:104-110` | a message limit ahead raises by exactly the difference and wakes at most one waiter; a stale one changes nothing |
| `SendCredits.SendCredit.OnPing` | `packages/telefunc/wire-protocol/flowControl/SendCredit.ts:112-118` | answers the least backlog and starts over |
| `SendCredits.SendCredit.PassTurnOn` | `packages/telefunc/wire-protocol/flowControl/SendCredit.ts:162-167` | a turn not taken by the next macrotask goes to the next waiter, a newer turn or a send since leaving it |
| `SendCredits.SendCredit.Shutdown` | `packages/telefunc/wire-protocol/flowControl/SendCredit.ts:120-124` | every wait ends, oldest first, with the error if there is one, and so does any to come |
| `SendWaitHistory.SendWaits.NoteWait` | `packages/telefunc/wire-protocol/flowControl/SendWaits.ts:20-28` | the stack keeps covering every wait of the last 60 s, for waits not negative at times that do not go back |
| `SendWaitHistory.SendWaits.Since` | `packages/telefunc/wire-protocol/flowControl/SendWaits.ts:30-40` | the binary search gives the longest of all waits ever noted at or after the time, for any time within the 60 s |
| `SendWaitHistory.LongestSince` | `packages/telefunc/wire-protocol/flowControl/SendWaits.ts:15-15` | the plain maximum over the whole history: a bound on every wait since, and one of them or 0 |
| `SendWaitHistory.FirstIsLongest` | `packages/telefunc/wire-protocol/flowControl/SendWaits.ts:30-40` | of a stack that descends and covers, the first entry since a time is the longest of all noted |
| `DeliveryRing.Deliveries.NoteDelivery` | `packages/telefunc/wire-protocol/flowControl/Deliveries.ts:30-35` | the ring of prefix sums holds the last 32 of the history |
| `DeliveryRing.Deliveries.Before` | `packages/telefunc/wire-protocol/flowControl/Deliveries.ts:37-51` | where nothing was overwritten, or a kept delivery is older than the span, the plain sum over the whole history; else the kept ones' rate, or busy |
| `DeliveryRing.AllSince` | `packages/telefunc/wire-protocol/flowControl/Deliveries.ts:44-48` | the scan's difference of two prefix sums is the sum of the deliveries within the span |
| `SseEventsOf.TakeSplits` | `packages/telefunc/wire-protocol/channel/client/SseEvents.ts:12-32` | reading two texts one after the other is reading them as one |
| `SseEventsOf.CutsDoNotMatter` | `packages/telefunc/wire-protocol/channel/client/SseEvents.ts:5-6` | any way of cutting a body into reads gives the same events |
| `SseEventsOf.EventsArrive` | `packages/telefunc/wire-protocol/channel/server/sse.ts:80-83` | however the events a server sends are cut into reads, the events read are exactly those sent, in order, and nothing is left |
| `SseEventsOf.SseEvents.Push` | `packages/telefunc/wire-protocol/channel/client/SseEvents.ts:12-32` | the scanning loop, its line kept in parts, gives what reading character by character does |
| `BodyReaders.BodyReader.ReadExact` | `packages/telefunc/wire-protocol/wire/BodyReader.ts:186-201` | exactly the next bytes of the body, whatever its chunks, or truncated where it ends first |
| `BodyReaders.BodyReader.ReadExactOrNull` | `packages/telefunc/wire-protocol/wire/BodyReader.ts:203-211` | the end of the body where nothing at all is left |
| `BodyReaders.BodyReader.ReadLengthPrefixed` | `packages/telefunc/wire-protocol/wire/BodyReader.ts:62-69` | a prefixed chunk, the end, a truncation or one too large, as what is left of the body alone decides |
| `BodyReaders.BodyReader.SkipBytes` | `packages/telefunc/wire-protocol/wire/BodyReader.ts:213-224` | exactly so many bytes are dropped, or the body ends first |
| `BodyReaders.BodyReader.ReadFile` | `packages/telefunc/wire-protocol/wire/BodyReader.ts:109-143` | a file's pulls together are exactly its bytes |
| `BodyReaders.BodyReader.StartFile` | `packages/telefunc/wire-protocol/wire/BodyReader.ts:89-108` | earlier files not read are skipped by their sizes, and one already read is refused |
| `RedisOrder.IssuedInOrder` | `packages/redis/src/index.ts:165-188` | over every run publishes are issued in the order of their calls, and none while a SUBSCRIBE sent before it is pending |
| `RedisOrder.RejectsExactly` | `packages/redis/src/index.ts:124-130` | a failed SUBSCRIBE rejects exactly the waiting publishes that came after it and changes nothing else |
| `RedisOrder.EachEndsOnce` | `packages/redis/src/index.ts:107-188` | over every run each publish is issued, refused, resuming or waiting, and just once; with no SUBSCRIBE pending none waits, and once all resumed each was issued or refused |
| `RedisOrder.NoneBehindAFailed` | `packages/redis/src/index.ts:113-130` | after any run, once a SUBSCRIBE fails no publish called after it is issued, nor any called later, till its channel is withdrawn |
| `RedisOrder.ReleaseKept` | `packages/redis/src/index.ts:141-145` | releasing waiters keeps their order, and leaves the oldest waiting for a SUBSCRIBE still pending |
| `RedisOrder.RunKept` | `packages/redis/src/index.ts:107-145` | every subscribe, settlement, unsubscribe and publish keeps it |
| `RedisTransports.RedisTransport.SubscribeTo` | `packages/redis/src/index.ts:107-111` | the transport in place takes the step of the value, and what the order of publishes rests on is kept |
| `RedisTransports.RedisTransport.SettleSubscribe` | `packages/redis/src/index.ts:113-132` | the two release loops are the recursive ones of the value, and the order is kept; a SUBSCRIBE withdrawn meanwhile changes nothing |
| `RedisTransports.RedisTransport.UnsubscribeFrom` | `packages/redis/src/index.ts:134-139` | withdrawing a SUBSCRIBE releases just what the value releases, and the order is kept |
| `RedisTransports.RedisTransport.TakePublish` | `packages/redis/src/index.ts:165-183` | a publish is issued, refused or queued as the value has it, and the order is kept |

## Left out

- `WireLifecycle`, `Upgrade` and the transports are not part of this model: what they owe the gate and the exchange is the guard of each step in `Page.dfy` and `Reattach.dfy`. Sends reopen only after a drain of every channel not awaited, a wire that awaits its RECONCILED carries only what its RECONCILE does, and an index is given out once.
- The server side is the rule it follows on one channel (`ServerChannel.ts:476-491`, `AwaitedChannels.ts`), not its classes.
- Reattach follows one channel. A closed one is a channel whose page issues nothing after its closing frame, till its record is let go (`DeliveredIsAccepted`). A lost channel's later RECONCILEs, which only repeat that it is lost, and an upgrade's handoff of one channel between two live wires are left out of the runs; `AttachExchange` has what the page does for them.
- The answers and acknowledgements a page may get in `Reattach` are those of any wire, old ones included, any number of times: more than real wires deliver.
- Seqs in `Reattach`, `Pages` and the replay are whole numbers. What the wire keeps of one is its low 32 bits: `EveryFrameRecovers` and `EveryAnswerRecovers` say of every run exactly when the whole one is read back.
- Channel records hold their replay as a value in the table's map, so two records sharing one replay object are not modelled.
- AttachExchanges.AttachExchange.ApplyReconciled: states the whole new state only where no RECONCILE follows; what a following one does is the contract of `StageReconcileBatch`. Probes and timers of the exchange are left out, and the order of frames across channels.
- PieceRuns.EveryRunIsTaken: for frames below 2^32 bytes less a piece's header, and carried frames that are PIECES_ACKs, as all a receiver has carried are; a sender after `close()`, which hands nothing more, is left out. That each step fits is exactly what a run needs, by `EveryRunIsTakenExactly`.
- The rates `PieceRate` measures, the sizes `setWholeUpTo` takes from them and `expectedBy` are arbitrary sizes in each run.
- AckSchedules.OwedGoes: for the page's receiver; the server's, which acknowledges by bytes taken, is left out, and a timer fires no earlier than it is due.
- CreditRuns.NeverPastGranted: both ends keep one cap, so one lowered and raised again around a batch raise is left out; a limit that comes behind a later one is behind all sent by less than 2^31 and a window.
- ReplayFits.ReconnectLosesNothing: for the frames credit counts; ack requests and their answers, which it does not count, take room of the same queues as they please, and nothing bounds them there: they are left out of these runs.
- Credits.Estimator.Share: takes round trips and waits that are not negative.
- `SendCredit` waiters are numbers in a queue; that a waiter is always released in the end is not claimed, as a released sender that never sends again can leave the others waiting when the queue it left was empty.
- The widened window, publishes' credit, the downlink's callbacks and `RoundTrips` are left out: nothing waits on them.
- Frames.FrameRoundTrip: payloads are bytes; JSON, UTF-8, base64 and the publish envelope are left out.
- SSE text is what the decoder gives, and an event is its data before base64.
- `BodyReader.readMetadata`, the queue that serializes two files read at once and a cancelled file are left out; a source that throws is one that ended.
- The bytes a `Deliveries` ring extrapolates are real numbers, with no rounding.
- Redis: the callback delivery and key naming are left out, and a command is issued as its publish resumes.
- Shield validators, RPC, bundler plugins, broadcast fan-out and Cloudflare storage.
