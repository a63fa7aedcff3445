# A verified model of Blockchain-Comm-Sim

Blockchain-Comm-Sim simulates several chains that exchange packets through relayers, in the manner of
IBC.  A chain numbers the packets it sends on a channel; an event bus hands each one to every relayer;
a relayer tries once to post its copy to the destination's mailbox; a transport with a pool of workers
delivers it after a delay, in any order; a node works through its inbox and passes packets to the chain;
and the chain accepts exactly the next number and publishes an acknowledgement, which travels back the
same way.  Nothing is ever retransmitted.  This project models that machinery and proves what it
guarantees and where its guarantees stop.

## What is where

| file | subject |
|---|---|
| `Basics`, `Bits`, `Decimal`, `TextKey`, `Codec`, `Envelope` | machine integers, exclusive-or, number printing and parsing, keys with a colon, packet text, node envelope |
| `Channel`, `Arrivals` | the ordered channel, and what it makes of any stream of arrivals |
| `ConcurrentQueue`, `EventBus`, `Router` | the containers the components are built from |
| `Blockchain`, `Node`, `Relayer`, `Transport` | the components, one module per source file |
| `Protocol`, `ProtocolInvariants`, `ProtocolTheorems` | chains, relayers, transport and nodes as one step system over packets, what each step keeps, and what holds in every run |
| `Stalls`, `Possibility` | when a channel can no longer move, and that in all other cases it can |
| `Handling` | which messages, acknowledgements included, a node can still take up |
| `FanIn`, `Witnesses` | the one kind of step that breaks ordered delivery, and reachable states in which things go wrong |
| `WireProtocol` | the same system over the bytes it really moves, and its refinement |
| `Subscribers` | the event bus and the step system: the handler calls are the publication |
| `Announcements` | the events of whole runs: each acknowledgement taken up and each packet accepted is announced once |
| `Deployment`, `DeployedDelivery`, `DeployedHandling` | the byte-level system with the worker-pool transport inside it, that it loses nothing on the way to an open inbox, and that what is queued can be handled |
| `Blocks`, `Voting`, `PoW` | block ids and state roots, PBFT and PoS tallies, proof of work |
| `JsonLog` | JSON string escaping and one-record-per-line files |

`dafny verify dfyconfig.toml` checks everything.

## How to read it

* What the source changes in place is a class with the same fields; loops stay loops.  Each method is
  proved equal to a function on values (`View()` maps the object to its value), and the theorems are
  lemmas about those functions, mostly over all runs, that is, over all sequences of steps.
* What happens under one lock is one step.  A blockchain operation is one step, because every such
  operation holds one process-wide mutex (`src/core/Blockchain.cpp:10-14`).  A relayer's round is five
  steps and a transport worker's delivery is five steps, and other threads may run between any two.
* A few steps join two critical sections whose order against other threads does not show at the chains: a
  node takes a message and hands it to its chain; stopping a relayer or a node clears its flag and closes
  its queues; in the deployed system a relayer's attempt checks the endpoint and pushes the task, which
  the transport on its own keeps apart as drafts (`TransportRuns` shows it is the two steps in a row).
* A stopped relayer or node may be started again and then works off what its closed queues still hold
  (`src/ibc/Relayer.cpp:139-148`, `src/core/Node.cpp:63-85`), so the loops may always take another turn.
* Drops, latencies, thread interleavings and the clock are choices in a step's label, or parameters of a
  method: a theorem over all runs is a theorem over all of these choices.
* Some values carry histories beside the source's fields: a channel its log of issued and accepted packets,
  a queue what was pushed and taken, the system what was published, handled and lost.
* A `char` stands for a byte.  Machine integers wrap where the source's wrap (`Increment`, the quorums,
  `stoull` of a negative number).

The main results are, for the protocol, `PrefixDelivery` with the exact guard of the step that breaks it,
`OrderBreaksExactly`; `AcksAreEarned`, `HandledAtMostOncePerRelayer`, `DeliveryIsGreedy` and
`CopiesAreConserved`; `Stall`, and `NextExactly` and `StallExactly`, which say exactly which packets can
still be accepted and which channels have stalled; `HandledExactly`, which says it of any message and its
being handled; `EveryRunIsAnnounced`; `RunRefines` and `RunMatches`, which carry the protocol over to bytes
and to worker threads (`WirePrefixDelivery` and the `Deployed` theorems), with `SentHasArrived` and
`QueuedCanBeHandled` there; `RoundTrip`, `DeserializeExactly`, `SplitJoinExactly`, `CanonicalExactly` and
`WirePath` for the encodings; `Conservation`, `HandlersAreCalled`, `DrainedMeansCalled`, `DrainedExactly` and
`WaitReturns` for the transport; `EveryRunOk` and `MapOnPairs` for a single chain; `FinalExactly`,
`OneNodeFinalizesExactly`, `BlockIdAliasExactly`, `LineageIdsDiffer`, `VouchedExactly`, `RootIgnoresOrder`
and `LeadingZerosExactly` for consensus.

The protocol theorems assume of a run that relayers' routes lead to the right chain (`WellWired`, which the
wiring in `src/sim/SimulationController.cpp:38-66` establishes) and that no channel counter has wrapped
(`Fits`).  Ordered delivery needs a destination channel that only receives, because sending and receiving
share one counter (`src/ibc/IBCChannel.cpp:56-74`); `Lockstep`, `Competition` and `OrderBreaksExactly` say
what holds without it.

## Findings

* A packet whose copies are lost, or can no longer get anywhere, stops its channel for ever, whatever is
  sent afterwards; while one copy can still come first, some run delivers it (`Stall`, `NextExactly`,
  `StallExactly`).  One loss at the only relayer is enough (`LossStalls`).
* With two senders to one channel each number can be delivered for one of them only (`Competition`).  The
  order with respect to one sender breaks exactly when a node takes up another sender's packet that carries
  the awaited number (`OrderBreaksExactly`), and such a run is reachable (`FanInBreaksOrder`).  The traffic
  generator does send from several chains to one channel (`src/sim/SimulationController.cpp:336-364`).
* An engine that proposes under one node id sees two voters at most, its own and `remote`.  So a PBFT engine
  can finalize blocks only for `f = 0`, or for the one `f` whose quorum wraps (`PbftAloneExactly`), and a PoS
  engine only for at most two validators, or for the counts just past 2^63 whose double wraps
  (`PosAloneExactly`); at all other sizes nothing is ever final (`PbftNeverFinal`, `PosNeverFinal`).
* PoW finality does not mean that work was done: after a block is accepted, the same block with any other
  state root is final too (`AnyStateRootIsFinal`).  Work is vouched for exactly when the history holds the
  same hashed text (`VouchedExactly`).
* The state root of a block is blind to the order of its transactions, and a transaction included twice leaves
  no trace in it (`RootIgnoresOrder`, `RootForgetsPairs`).
* Text keys alias: `port:channel` as soon as a name holds a colon (`TextKey.AliasExactly`), and a block id
  exactly when a segment of the chain id other than its first, or of the previous hash other than its
  last, reads as a height (`BlockIdAliasExactly`).
* A relayer whose name holds a pipe is mute: no node can read any of its letters (`WirePath`).
* `closeChannel` only removes the binding; the channel stays open and keeps its counter, contrary to its name
  (`CloseOnOk`).
* The repository's own README announces multi-phase PBFT commits; prepare and commit votes are in fact always
  the same set, as the invariant of the class `Voting.PBFT` states.

## Model

| member | source | states |
|---|---|---|
| `Decimal.StoullPrint` | src/ibc/IBCTypes.cpp:76-107 | every 64-bit number printed into a packet is read back by `stoull` as itself |
| `Decimal.StoiPrint` | src/ibc/IBCTypes.cpp:69-95 | every 32-bit integer printed into a packet is read back by `stoi` as itself, negative ones included |
| `Decimal.ReadExactly` | src/ibc/IBCTypes.cpp:92-107 | of any text the number readers take white space, at most one sign, and the digits that follow, and ignore the rest; without a digit there is no number |
| `Codec.EscapeLoop` | src/ibc/IBCTypes.cpp:10-22 | the loop's result unescapes to its input |
| `Codec.UnescapeLoop` | src/ibc/IBCTypes.cpp:25-39 | the flag-carrying loop drops each backslash that is not itself escaped, keeps whatever follows it, and drops one at the very end |
| `Codec.UnescapeIsUnescaped` | src/ibc/IBCTypes.cpp:25-39 | the two-state reading is that of the flag-free definition, which takes a backslash and what it escapes in one go, for every string |
| `Codec.UnescapeEscape` | src/ibc/IBCTypes.cpp:10-39 | unescaping undoes escaping for every string |
| `Codec.SplitLoop` | src/ibc/IBCTypes.cpp:42-63 | the parts the loop produces, joined by the delimiter, give the input back |
| `Codec.JoinSplit` | src/ibc/IBCTypes.cpp:42-63 | joining what split produced gives back every string |
| `Codec.SplitJoinExactly` | src/ibc/IBCTypes.cpp:42-63 | splitting a join gives back the parts if and only if no part holds an unescaped delimiter and none but the last ends inside an escape |
| `Codec.SplitJoinEscaped` | src/ibc/IBCTypes.cpp:10-63 | a non-empty list of arbitrary strings, escaped and joined, splits into exactly the escaped strings |
| `Codec.SplitFromSeparable` | src/ibc/IBCTypes.cpp:42-63 | whatever the input, split only produces lists of parts that a join keeps apart |
| `Codec.SerializeIsJoin` | src/ibc/IBCTypes.cpp:66-81 | the text of a packet is the join of its nine fields, escaped or printed |
| `Codec.FieldsSeparable` | src/ibc/IBCTypes.cpp:66-81 | no field of a serialized packet can swallow or fake a delimiter |
| `Codec.RoundTrip` | src/ibc/IBCTypes.cpp:66-117 | deserializing a serialized packet gives back that packet, for all strings, types and 64-bit numbers |
| `Codec.FieldsInOrder` | src/ibc/IBCTypes.cpp:66-81 | on the wire a packet is nine parts: type, both chains, the source's port and channel, the destination's, number and payload, in this order, the texts escaped |
| `Codec.DeserializeExactly` | src/ibc/IBCTypes.cpp:84-117 | a text parses to p if and only if it splits into nine parts of which the first and eighth read as p's numbers and the others unescape to p's texts; all else throws |
| `Codec.SerializeInjective` | src/ibc/IBCTypes.cpp:66-81 | different packets have different texts |
| `Codec.EscapedTextExactly` | src/ibc/IBCTypes.cpp:10-39 | re-escaping an unescaped text returns it if and only if it holds no bare pipe, no idle escape and no cut-off escape |
| `Codec.CanonicalForm` | src/ibc/IBCTypes.cpp:66-117 | printing a parsed text again keeps its meaning and reaches a fixed point in one pass, however lenient the parse was |
| `Codec.CanonicalExactly` | src/ibc/IBCTypes.cpp:66-117 | a text that parses is its own canonical form if and only if its numbers are printed plainly and its escapes are those the encoder writes |
| `Envelope.UnwrapWrapExactly` | src/core/Node.cpp:8-27 | an envelope is read back as it was written if and only if the sender's name has no pipe; the body may hold anything |
| `Envelope.UnwrapReads` | src/core/Node.cpp:16-27 | of any text the sender is what stands before the first pipe, the kind what `stoi` reads before the second, the body all the rest, later pipes included; without two pipes or a number there is no message |
| `Envelope.WirePath` | src/ibc/Relayer.cpp:79-90 | a relayer's letter yields its name and the unchanged packet at the node if and only if the name has no pipe, and is readable at all under the same condition |
| `Envelope.PipedNameIsMute` | src/core/Node.cpp:16-27 | under a name with a pipe no letter can be read: its kind does not parse, or its packet has too many fields |
| `Channel.IBCChannel.constructor` | src/ibc/IBCChannel.cpp:10-11 | a new channel is in state Init, its first number is 1 |
| `Channel.IBCChannel.OpenIt` | src/ibc/IBCChannel.cpp:13-26 | only an Init channel opens; an open or closed one is left alone, with its own error |
| `Channel.IBCChannel.CloseIt` | src/ibc/IBCChannel.cpp:28-37 | any channel not yet closed closes, and keeps its counter |
| `Channel.IBCChannel.Make` | src/ibc/IBCChannel.cpp:39-59 | an open channel issues a data packet from itself to the given end under its number, steps the number, 2^64 - 1 to 0, and logs it; any other issues nothing and does not change |
| `Channel.IBCChannel.Accept` | src/ibc/IBCChannel.cpp:61-76 | an open channel accepts exactly the next number, steps it and logs the packet; a closed one and another number are refused with their own errors and leave it unchanged |
| `Channel.ClosedIsFinal` | src/ibc/IBCChannel.cpp:13-76 | a closed channel refuses opening, closing, sending and receiving, and never changes again |
| `Channel.NumberedKept` | src/ibc/IBCChannel.cpp:13-76 | every operation keeps the numbers used equal to 1 .. nextSeq - 1 in order, sent and received together, until the counter wraps |
| `Arrivals.ProgressExactly` | src/ibc/IBCChannel.cpp:61-76 | a receiver that only takes the next number gets to k if and only if 1 .. k is a subsequence of the arrivals |
| `Arrivals.ChannelIsGreedy` | src/ibc/IBCChannel.cpp:61-76 | a fresh open channel accepts exactly as many packets as the longest 1 .. k hidden in the arriving numbers: numbers 1 .. k in order, each from among the arrivals |
| `Arrivals.RedundantStreams` | src/ibc/IBCChannel.cpp:61-76 | of any interleaving of in-order streams 1, 2, 3, ... the receiver is always exactly as far as the most advanced one |
| `Arrivals.ChannelFollowsFastest` | src/ibc/IBCChannel.cpp:61-76 | fed by redundant in-order relayers, the channel's counter stands right after the greatest progress of any of them, and it accepted each number up to there once, in order |
| `ConcurrentQueue.FifoKept` | src/util/ConcurrentQueue.h:12-54 | what was pushed is always what was taken followed by what is queued, a pop takes the oldest, and a closed queue takes nothing more |
| `ConcurrentQueue.ConcurrentQueue.PushItem` | src/util/ConcurrentQueue.h:12-21 | an open queue keeps the item at its end; a closed one refuses it and does not change |
| `ConcurrentQueue.ConcurrentQueue.TryPop` | src/util/ConcurrentQueue.h:23-33 | the oldest item is removed and returned, even after closing; an empty queue returns nothing |
| `ConcurrentQueue.ConcurrentQueue.CloseQueue` | src/util/ConcurrentQueue.h:49-54 | closing keeps what is queued |
| `EventBus.WithoutToken` | src/core/EventBus.cpp:26-36 | removing a token removes just that token, and the list shrinks exactly when it was there: the test the early exit relies on |
| `EventBus.RemovedFromOneList` | src/core/EventBus.cpp:23-37 | as a token lives under one kind only, removing it from that list removes it everywhere |
| `EventBus.WithoutExactly` | src/core/EventBus.cpp:28-35 | the one subscription with the token goes, and those before and behind it keep their handlers and their order |
| `EventBus.EventBus.Subscribe` | src/core/EventBus.cpp:15-21 | the new handler goes last under its kind, with a token no other handler has |
| `EventBus.EventBus.Unsubscribe` | src/core/EventBus.cpp:23-37 | though the loop stops at the first list that shrinks, and meets the kinds in any order, the token is gone from every list and nothing else is |
| `EventBus.EventBus.Publish` | src/core/EventBus.cpp:39-51 | each handler subscribed to the event's kind is called once, in order of subscription, and no other |
| `Router.RouterIsASet` | src/ibc/IBCRouter.cpp:8-46 | the duplicate-free list acts as a set: bind adds one pair or fails if present, unbind removes one pair or fails if absent |
| `Router.IBCRouter.Bind` | src/ibc/IBCRouter.cpp:8-21 | the class binds as the set does |
| `Router.IBCRouter.Unbind` | src/ibc/IBCRouter.cpp:23-36 | the class unbinds as the set does |
| `Router.IBCRouter.IsBound` | src/ibc/IBCRouter.cpp:38-46 | the search finds a pair if and only if it is bound |
| `Blockchain.OpenOnOk` | src/core/Blockchain.cpp:63-88 | opening succeeds if and only if the pair was not bound, and then binds just that pair; a refusal is an invalid state and changes nothing; no existing channel is touched |
| `Blockchain.CloseOnOk` | src/core/Blockchain.cpp:90-103 | closing succeeds if and only if the pair was bound, and then unbinds just that pair; a refusal is `NotFound` and changes nothing; no channel is touched |
| `Blockchain.SendOk` | src/core/Blockchain.cpp:105-152 | sending never fails on a chain whose channels are in order, bound or not; the packet carries the caller's destination and payload, the chain's own end, and the channel's current number, or 1 on a channel not used before |
| `Blockchain.ReceiveOk` | src/core/Blockchain.cpp:154-230 | a packet is accepted if and only if it carries the number its destination channel is at, 1 on a channel not used before, and is refused as an invalid state otherwise; either way the chain's channels stay in order |
| `Blockchain.EveryRunOk` | src/core/Blockchain.cpp:39-230 | in every run of open, close, send and receive, bound pairs have channels, channels are open between calls, and each channel has used the numbers below its counter exactly once each, sent and received together, until it wraps |
| `Blockchain.PortsKept` | src/core/Blockchain.cpp:44-61 | no operation gives an existing channel another port, and a new one has the port the operation named |
| `TextKey.AliasExactly` | src/core/Blockchain.cpp:39-42 | a port and channel pair shares its text key with another pair if and only if one of its names holds a colon |
| `Blockchain.MapOnPairs` | src/core/Blockchain.cpp:39-61 | when no port has a colon, the text-keyed map finds for a pair only the channel made for that very pair |
| `Blockchain.Blockchain.GetOrCreateChannel` | src/core/Blockchain.cpp:44-61 | the channel under the pair's key is returned, made in state Init if there was none; no other channel changes |
| `Blockchain.Blockchain.OpenPort` | src/core/Blockchain.cpp:63-88 | binding, channel and status change as the value-level operation says, with the channel opened or found open |
| `Blockchain.Blockchain.ClosePort` | src/core/Blockchain.cpp:90-103 | only the router changes |
| `Blockchain.Blockchain.SendIBC` | src/core/Blockchain.cpp:105-152 | one channel issues its next number; every handler of packet sends is called once, in order, with the text of the very packet issued, and no other handler is called |
| `Blockchain.Blockchain.OnIBCPacket` | src/core/Blockchain.cpp:154-230 | one channel decides; on acceptance, and only then, the handlers of receipts and then those of acknowledgements are called, these with the ends swapped, the number kept and the payload `ack_` with the number |
| `Blockchain.Blockchain.OnIBCAck` | src/core/Blockchain.cpp:232-258 | every handler of acknowledgement receipts is called once, in order, without any check or change of channels |
| `Node.NodeImpl.OnBytesFromTransport` | src/core/Node.cpp:123-134 | what unwraps goes to the end of an open inbox, whatever its kind; anything else, and everything once the inbox is closed, vanishes |
| `Node.NodeImpl.RunTurn` | src/core/Node.cpp:136-256 | one turn takes the oldest message: an acknowledgement leaves the chain as it is and is announced to every handler of acknowledgement receipts; a data packet is received, and announced exactly when accepted; anything else does nothing |
| `Relayer.RelayerImpl.OnIBCPacketSendEvent` | src/ibc/Relayer.cpp:270-288 | a data packet parsed from the event is queued; anything else, or a closed queue, changes nothing |
| `Relayer.RelayerImpl.OnIBCAckSendEvent` | src/ibc/Relayer.cpp:290-307 | an acknowledgement parsed from the event is queued; anything else, or a closed queue, changes nothing |
| `Relayer.RelayerImpl.Relay` | src/ibc/Relayer.cpp:54-131 | packets and acknowledgements alike are sent exactly when their chain is connected, its mailbox registered, and neither drop occurs; then the transport holds one letter more, due after the latency, and counts it; failures have their own errors, in the source's order, and change nothing |
| `Relayer.AttemptExactly` | src/ibc/Relayer.cpp:54-131 | what an attempt does to the transport, for any state, packet and luck: one letter more, or nothing |
| `Relayer.RelayerImpl.RunLoop` | src/ibc/Relayer.cpp:165-268 | while running, each round tries the oldest packet once and then the oldest acknowledgement once, and counts each outcome |
| `Relayer.RelayerImpl.StartIt` | src/ibc/Relayer.cpp:139-148 | the relayer runs afterwards; starting it twice is an error |
| `Relayer.RelayerImpl.StopIt` | src/ibc/Relayer.cpp:150-163 | stopping a running relayer closes both queues and keeps what is in them; stopping one that does not run leaves its queues open |
| `Relayer.RoundsDrain` | src/ibc/Relayer.cpp:165-268 | n rounds take the first n items of each queue in order; once both are empty, relayed and failed add up to everything ever queued |
| `Relayer.RoundCounts` | src/ibc/Relayer.cpp:174-268 | in one round a packet that gets through counts as relayed and one that does not as a failure, an acknowledgement likewise under its own count, and the transport accepts just as many letters |
| `Relayer.EveryRunAccounted` | src/ibc/Relayer.cpp:150-307 | at every step all items ever queued are still queued, in hand, or counted once as relayed or failed, and both queues are first-in first-out |
| `Relayer.NothingAfterStop` | src/ibc/Relayer.cpp:150-163 | once the queues are closed no continuation queues anything again |
| `Relayer.StopIsFinal` | src/ibc/Relayer.cpp:150-163 | stopping a running relayer, whatever happened before, closes both queues, loses nothing queued, and no continuation queues anything again |
| `Transport.TransportImpl.Send` | src/net/Transport.cpp:70-110 | an unknown endpoint or a drop changes nothing; otherwise one task, due after the latency, is added and counted |
| `Transport.TransportImpl.PopReady` | src/net/Transport.cpp:153-190 | a task of least delivery time is taken if it is due; if none is taken, none was due |
| `Transport.TransportImpl.CountPoppedTask` | src/net/Transport.cpp:192-199 | the popped task moves from the pending to the in-flight count |
| `Transport.TransportImpl.LookUpHandler` | src/net/Transport.cpp:201-209 | a handler is found exactly for registered addresses |
| `Transport.TransportImpl.FinishDelivery` | src/net/Transport.cpp:217-225 | the task leaves the in-flight count, and waiters are notified exactly when both counts are zero |
| `Transport.TransportImpl.RegisterEndpoint` | src/net/Transport.cpp:59-68 | a second registration fails and keeps the first |
| `Transport.TransportImpl.UnregisterEndpoint` | src/net/Transport.cpp:119-127 | an endpoint is removed, or the call fails if there was none |
| `Transport.EveryRun` | src/net/Transport.cpp:96-227 | in every interleaving pending is queued plus popped-but-uncounted, in-flight is what workers deliver, nothing held or called is early, and no waiter sleeps through a drained state |
| `Transport.Conservation` | src/net/Transport.cpp:70-227 | at every moment an accepted task is queued, held by a worker or finished, in exactly one of these, and no other task is anywhere |
| `Transport.CallsOnceOnTime` | src/net/Transport.cpp:153-215 | a task's handler is called at most once, only after an accepted send, and never before its delivery time; `HandlersAreCalled` says when it is called |
| `Transport.HandlersAreCalled` | src/net/Transport.cpp:201-215 | in every interleaving a handler is called only for an address that was registered while the task was under way, and as long as that address stays registered every delivery that is over has been a call of it |
| `Transport.RegisteredAreCalled` | src/net/Transport.cpp:201-225 | for an address that is never unregistered, a task's calls number exactly its finished deliveries and those whose worker is back from the call |
| `Transport.DrainedMeansCalled` | src/net/Transport.cpp:129-225 | without unregistering, whenever the transport is drained the handler of every accepted send has been called exactly once, and no other |
| `Transport.EndpointsExactly` | src/net/Transport.cpp:59-127 | in every run an address has a handler if and only if its last registration has not been taken back |
| `Transport.DrainedExactly` | src/net/Transport.cpp:129-134 | neither counter goes below zero, and both are zero if and only if the heap is empty and no worker holds anything; then every accepted send is finished |
| `Transport.WaitReturns` | src/net/Transport.cpp:129-134 | waiting returns only when every send accepted so far is finished |
| `Transport.DrainNotifies` | src/net/Transport.cpp:217-225 | only a finishing worker can drain the transport, and that step wakes every sleeping waiter and disturbs no other |
| `Transport.WaiterMovesExactly` | src/net/Transport.cpp:129-134 | a step leaves a waiter asleep if and only if it slept and nothing woke it, or it asked before all was drained, and done if and only if it asked with all drained, or was done and did not ask |
| `Transport.TransportIsABag` | src/net/Transport.cpp:70-215 | seen from outside a send puts a task in and a handler call takes out one that is due; no other step of any thread changes what is outstanding |
| `ProtocolInvariants.NextEffect` | src/core/Blockchain.cpp:105-230 | each step of the whole system appends at most one entry to one channel's log, and publishes exactly what that entry gives rise to |
| `ProtocolInvariants.NextConserved` | src/ibc/Relayer.cpp:165-307 | no step of any component makes, merges or silently drops a copy of a packet |
| `ProtocolInvariants.NotYetPublished` | src/ibc/IBCChannel.cpp:39-76 | a channel's next number has never been on the bus, so what carries it is published for the first time |
| `ProtocolInvariants.NextInv` | src/core/Blockchain.cpp:105-258 | every step keeps bus and logs in agreement, messages routed, and copies conserved |
| `ProtocolInvariants.RunLogsGrow` | src/ibc/IBCChannel.cpp:39-76 | no continuation rewrites history: logs and bus only grow |
| `ProtocolInvariants.PortSteps` | src/core/Blockchain.cpp:63-103 | in the whole system opening a port binds it and supplies it with a channel, and closing it only unbinds it |
| `ProtocolInvariants.StoppedIsDeaf` | src/ibc/Relayer.cpp:139-163 | in every continuation a relayer that was stopped while running is handed nothing that is published later, even if it is started again |
| `ProtocolInvariants.ClosedTakesNothing` | src/core/Node.cpp:63-134 | a closed inbox takes no message ever after |
| `ProtocolTheorems.Lockstep` | src/ibc/IBCChannel.cpp:39-76 | with any senders and receivers on either channel, a packet is accepted only at the position of the accepting log at which it stands in the sending log |
| `ProtocolTheorems.PrefixDelivery` | src/core/Blockchain.cpp:105-230 | a receive-only channel addressed by one source has always accepted a prefix of what that source sent, all fields alike and none twice, whatever relayers copy or lose and the transport reorders |
| `ProtocolTheorems.PrefixExactly` | src/core/Blockchain.cpp:105-230 | looking back, a receive-only channel holds a prefix of what c sent if and only if it has accepted from c alone |
| `FanIn.OrderBreaksExactly` | src/ibc/IBCChannel.cpp:61-76 | from a reachable state in order, a step breaks the order with respect to c if and only if it is a node's turn over a data packet for the channel that carries the awaited number and does not come from c |
| `FanIn.IntruderCanWin` | src/ibc/IBCChannel.cpp:61-76 | whenever the packet of another sender is awaited and has a live copy, some continuation breaks the order with respect to c |
| `Witnesses.FanInBreaksOrder` | src/sim/SimulationController.cpp:336-364 | a reachable state in which two chains have sent to one channel, the second one was accepted, and the first is out of order |
| `ProtocolTheorems.Competition` | src/ibc/IBCChannel.cpp:68-75 | of two different packets with one target and number at most one is ever accepted |
| `ProtocolTheorems.AcksAreEarned` | src/core/Blockchain.cpp:192-258 | an acknowledgement under way to a node or handled there answers a packet with its ends swapped and its number kept, which the node's chain sent and the acknowledging channel accepted, each at that number |
| `ProtocolTheorems.HandledAtMostOncePerRelayer` | src/core/Blockchain.cpp:232-258 | no relayer's message is handled twice, so one acceptance leads to at most as many handled acknowledgements as there are relayers, though nobody checks for duplicates |
| `Stalls.NextNoCopy` | src/ibc/Relayer.cpp:174-215 | a packet with no copy left in any queue, hand, transport or inbox never has one again, as nothing retransmits |
| `Stalls.MovingShrinks` | src/ibc/Relayer.cpp:165-215 | a copy that was lost or reached an inbox never moves again |
| `Stalls.NextDead` | src/ibc/Relayer.cpp:165-215 | while its channel stays where it is, an awaited packet without a live copy does not get one |
| `Stalls.DeadRun` | src/ibc/IBCChannel.cpp:61-76 | an awaited packet without a live copy is never the next one its channel accepts, whoever else sends |
| `Stalls.Stall` | src/ibc/Relayer.cpp:174-215 | once the packet a receive-only channel waits for has no live copy, no continuation moves the channel again; copies without a route, bound for a closed inbox, or behind a rival are not live |
| `Possibility.ReachHand` | src/ibc/Relayer.cpp:165-215 | a relayer's loop can get to any item of its queues |
| `Possibility.NextExactly` | src/ibc/Relayer.cpp:165-215 | in every reachable state an awaited packet can still be the next its channel accepts if and only if it has a live copy |
| `Possibility.StallExactly` | src/ibc/Relayer.cpp:165-215 | a receive-only channel with one source has stalled for good if and only if the packet it waits for has no live copy |
| `Handling.HandledExactly` | src/ibc/Relayer.cpp:165-268 | in every reachable state, a published packet or acknowledgement can still be taken up by way of a relayer with a route for it if and only if it waits in the inbox, or a copy is under way and the inbox is open |
| `Possibility.SoleRelayerCanLose` | src/ibc/Relayer.cpp:174-215 | from any state in which the only relayer has the awaited packet queued, some continuation stalls the channel |
| `Witnesses.LossStalls` | src/ibc/Relayer.cpp:174-215 | a reachable state in which the only relayer has lost the only packet sent, and the channel has stalled |
| `ProtocolTheorems.ArrivalsDecide` | src/ibc/IBCChannel.cpp:61-76 | in every run a receive-only channel is exactly as far as the numbers handled for it allow |
| `ProtocolTheorems.DeliveryIsGreedy` | src/ibc/IBCChannel.cpp:61-76 | a receive-only channel has accepted k packets or more if and only if 1 .. k is a subsequence of what was handled for it, over all relayers |
| `ProtocolTheorems.OneGoodRelayerSuffices` | src/ibc/Relayer.cpp:165-215 | if one relayer alone brings 1 .. k in order, the channel accepts at least k, whatever the other relayers do |
| `ProtocolTheorems.CopiesAreConserved` | src/ibc/Relayer.cpp:165-307 | at every step each relayer's copy of each published packet is in exactly one place: queued, in hand, lost, in transit, in an inbox, refused or handled |
| `WireProtocol.PublishRefines` | src/core/EventBus.cpp:39-51 | the text of an event makes each relayer queue exactly the packet that was published |
| `Subscribers.RelayerSubscribes` | src/ibc/Relayer.cpp:27-31 | a new relayer that subscribes to both kinds leaves each relayer with one handler of each kind, under its own kind |
| `Subscribers.EventsAreHeard` | src/core/EventBus.cpp:39-51 | with the relayers so subscribed, the handler calls the bus makes for any list of events leave the relayers just as the step system does |
| `WireProtocol.DeliverRefines` | src/core/Node.cpp:123-134 | delivering bytes to a node means delivering the message they carry, and losing them means losing it |
| `WireProtocol.ProcessRefines` | src/core/Node.cpp:196-256 | what a node's turn does with bytes is what the chain does with the packet in them |
| `WireProtocol.StepRefines` | src/ibc/Relayer.cpp:54-131 | with pipe-free relayer names every step over bytes is the same step over packets, and all bytes stay readable |
| `WireProtocol.RunRefines` | src/ibc/Relayer.cpp:54-131 | every run over bytes means the same run over packets |
| `WireProtocol.WirePrefixDelivery` | src/core/Node.cpp:196-256 | ordered prefix delivery holds for the system that exchanges nothing but text |
| `Announcements.EveryRunIsAnnounced` | src/core/Blockchain.cpp:192-258 | in every run and for every chain, the acknowledgement receipts it announces number exactly the acknowledgements its nodes took up, and its packet receipts, like the acknowledgements it sends, exactly the packets it accepted |
| `Deployment.AttemptMatches` | src/ibc/Relayer.cpp:165-255 | a relayer's attempt against the real transport is a relay of the protocol, sent exactly when the status is Ok |
| `Deployment.ThreadKeepsParcels` | src/net/Transport.cpp:153-227 | no step of a worker, waiter or endpoint takes a parcel off its way, save the handler call for it |
| `Deployment.StepMatches` | src/net/Transport.cpp:153-227 | every step of the deployed system is one step of the byte-level protocol, or none |
| `Deployment.RunMatches` | src/net/Transport.cpp:70-227 | every run with worker threads is matched by a run of the byte-level protocol whose transit is what the transport holds |
| `Deployment.TransportRuns` | src/net/Transport.cpp:70-227 | the transport inside the deployed system only ever does what the transport does on its own |
| `Deployment.DeployedPrefixDelivery` | src/ibc/IBCChannel.cpp:39-76 | ordered prefix delivery holds with text, drops, delays and worker threads in place |
| `Deployment.DeployedAcksAreEarned` | src/core/Blockchain.cpp:192-258 | every acknowledgement of the deployed system, those in the transport included, answers a packet sent and accepted at its number |
| `Deployment.DeployedHandledOnce` | src/core/Blockchain.cpp:232-258 | no node of the deployed system handles one relayer's message twice, nor one packet more often than there are relayers |
| `Deployment.DeployedDeliveryIsGreedy` | src/ibc/IBCChannel.cpp:61-76 | with worker threads in place k packets or more are accepted if and only if 1 .. k is a subsequence of what was handled |
| `Deployment.DeployedStall` | src/net/Transport.cpp:70-227 | once the awaited packet has no live copy, those the transport holds included, nothing that chains, relayers, nodes or threads do moves the channel again |
| `Deployment.DrainedCopies` | src/net/Transport.cpp:129-134 | whenever the drain condition holds, each relayer's copy of each published packet is queued, in hand, in an inbox, handled or lost, in exactly one of these |
| `DeployedDelivery.NothingIsLost` | src/net/Transport.cpp:153-227 | as long as an address stays registered and its inbox open, no parcel for it is lost, whatever the threads do |
| `DeployedDelivery.SentHasArrived` | src/net/Transport.cpp:129-227 | so, when the transport is drained, a relayer's copy of a published packet that has left the relayer for such an address waits in the inbox or has been handled, exactly once |
| `DeployedHandling.QueuedCanBeHandled` | src/ibc/Relayer.cpp:165-268 | whatever is queued at a relayer with a route to a registered address and an open inbox, acknowledgements included, some continuation of relayer, worker and node takes up there |
| `Blocks.BlockIdInjective` | src/consensus/PBFT.cpp:91-97 | among colon-free chain ids the block id determines chain, height and previous hash |
| `Blocks.BlockIdAliasExactly` | src/consensus/PBFT.cpp:91-97 | another chain, height or previous hash goes by the same id if and only if a colon-delimited segment of the chain id other than its first, or of the previous hash other than its last, is a plainly printed 64-bit number |
| `Blocks.BlockIdCollides` | src/consensus/PBFT.cpp:91-97 | a witness: one concrete pair of different blocks with one id |
| `Blocks.NextHeaderFollows` | src/consensus/PBFT.cpp:23-34 | a proposal is one higher than its predecessor, modulo 2^64, names that block's state root as its previous hash, and belongs to the given chain |
| `Blocks.LineageHeight` | src/consensus/PBFT.cpp:23-34 | the i-th block proposed on top of a first one is i higher, modulo 2^64 |
| `Blocks.LineageIdsDiffer` | src/consensus/PBFT.cpp:23-97 | the proposals of one chain with a colon-free id have pairwise different ids until heights repeat |
| `Decimal.PrintValue` | src/consensus/PBFT.cpp:95 | a digit string without a leading zero is what its value prints as, so the segments that read as heights can be recognised |
| `Blocks.ComputeStateRoot` | src/consensus/PBFT.cpp:100-109 | the loop prints the exclusive-or of all transactions' hashes, which `RootOfOne` and `RootLast` determine |
| `Blocks.RootOfOne` | src/consensus/PBFT.cpp:100-109 | the root of no transaction is 0, and that of one is the hash of sender, receiver and payload, one after the other |
| `Blocks.RootLast` | src/consensus/PBFT.cpp:100-109 | one transaction more changes just the bits its hash has |
| `Blocks.RootIgnoresOrder` | src/consensus/PBFT.cpp:100-109 | the root does not depend on the order of the transactions |
| `Blocks.RootForgetsPairs` | src/consensus/PBFT.cpp:100-109 | a transaction included twice leaves no trace in the root |
| `Bits.XorBit` | src/consensus/PBFT.cpp:106 | a bit of the exclusive-or is set exactly where the operands differ |
| `Voting.FinalExactly` | src/consensus/PBFT.cpp:36-75 | after any history of votes an id is final if and only if its distinct voters reach the quorum |
| `Voting.ReplayChangesNothing` | src/consensus/PBFT.cpp:50-68 | a vote recorded before, repeated at any time, changes neither tally nor finality |
| `Voting.OneNodeFinalizesExactly` | src/consensus/PBFT.cpp:18-68 | the callers of an engine that proposes under one node id can get a given block finalized if and only if the quorum is no more than the number of distinct names among that id and `remote` |
| `Voting.PbftAloneExactly` | src/consensus/PBFT.cpp:18-89 | for PBFT that is f = 0, or f = 2^63, whose quorum wraps to 1, and no other |
| `Voting.PosAloneExactly` | src/consensus/PoS.cpp:17-84 | for PoS that is as many validators as there are names, at most two, or 2^63 plus as many, whose double wraps, and no others |
| `Voting.PbftNeverFinal` | src/consensus/PBFT.cpp:70-89 | at a PBFT engine of any other f that has only seen one node id, no block is final |
| `Voting.PosNeverFinal` | src/consensus/PoS.cpp:66-84 | at a PoS engine of any other validator count that has only seen one node id, no block is final |
| `Voting.PbftQuorumsIntersect` | src/consensus/PBFT.cpp:89 | two quorums among 3f + 1 voters share f + 1, for every f whose quorum does not wrap |
| `Voting.PosQuorumsIntersect` | src/consensus/PoS.cpp:84 | two quorums among n validators share more than a third, for every n whose double does not wrap |
| `Voting.PbftQuorumIsLeast` | src/consensus/PBFT.cpp:89 | with any smaller quorum two sets of voters that reach it may share no more than f |
| `Voting.PosQuorumIsLeast` | src/consensus/PoS.cpp:84 | with any smaller quorum two sets of validators that reach it may share a third or less |
| `Voting.PBFT.Propose` | src/consensus/PBFT.cpp:18-48 | the block proposed is one higher than the previous one, modulo 2^64, names its state root, carries the given chain id and transactions, and its proposer's vote is recorded under its id |
| `Voting.PBFT.OnRemoteBlock` | src/consensus/PBFT.cpp:50-68 | a remote block adds the one vote `remote` |
| `Voting.PBFT.IsFinal` | src/consensus/PBFT.cpp:70-75 | final if and only if the distinct voters in the engine's history reach the quorum |
| `Voting.PoS.Propose` | src/consensus/PoS.cpp:17-46 | the block proposed is one higher than the previous one, modulo 2^64, names its state root, carries the given chain id and transactions, and its proposer's signature is recorded under its id |
| `Voting.PoS.OnRemoteBlock` | src/consensus/PoS.cpp:48-64 | a remote block adds the one signature `remote` |
| `Voting.PoS.IsFinal` | src/consensus/PoS.cpp:66-71 | final if and only if the distinct signers in the engine's history reach the quorum |
| `PoW.HasLeadingZeros` | src/consensus/PoW.cpp:136-144 | true if and only if the text is long enough and its first digits are all zero |
| `PoW.LeadingZerosExactly` | src/consensus/PoW.cpp:123-144 | the sixteen printed digits of h begin with d zeros if and only if d <= 16 and h < 16^(16 - d) |
| `PoW.AcceptExactly` | src/consensus/PoW.cpp:57-77 | a remote block is accepted if and only if its nonce can be read and its hash is below the target |
| `PoW.MinedIsPortable` | src/consensus/PoW.cpp:21-92 | a mined block is accepted, and final, at every engine of equal or lower difficulty |
| `PoW.PoWEngine.Search` | src/consensus/PoW.cpp:37-50 | the search returns the least passing nonce up to 1000000, or nothing exactly when none passes |
| `PoW.PoWEngine.Propose` | src/consensus/PoW.cpp:21-55 | a proposed block is one higher than the previous one, modulo 2^64, names its state root, carries the least passing nonce and is final at once; a failed search leaves the engine unchanged |
| `PoW.PoWEngine.OnRemoteBlock` | src/consensus/PoW.cpp:57-77 | an unreadable nonce is an invalid state and a failing hash a consensus fault, and neither records anything; a passing block is recorded with its nonce |
| `PoW.PoWEngine.IsFinal` | src/consensus/PoW.cpp:79-92 | a block is final if and only if its nonce can be read and the engine has accepted work with that very nonce for a block of the same id |
| `PoW.MinedIdExactly` | src/consensus/PoW.cpp:103-108 | two entries on file are the same if and only if both nonces and block ids are |
| `PoW.VouchedExactly` | src/consensus/PoW.cpp:57-133 | at difficulties 1 to 16, whatever the hash, a history of passing work vouches for the work of a header and nonce if and only if it holds the same hashed text |
| `PoW.AnyStateRootIsFinal` | src/consensus/PoW.cpp:57-108 | after a block is accepted, the same block with any other state root is final, whether or not its own hash passes |
| `PoW.HashInputHasRoot` | src/consensus/PoW.cpp:124-133 | blocks that differ in nothing but the state root are never hashed over the same text |
| `PoW.OtherRootIsNotVouched` | src/consensus/PoW.cpp:79-133 | and so the work for one of them does not vouch for the other, final though it is |
| `JsonLog.EscapeJsonString` | src/util/DetailedLogger.cpp:10-53 | the loop's result reads back as the input under section 7 of RFC 8259 |
| `JsonLog.DecodeEscape` | src/util/DetailedLogger.cpp:10-53 | every byte string survives escaping and reading |
| `JsonLog.EscapedIsContained` | src/util/DetailedLogger.cpp:10-53 | the escaped text holds no raw control byte, and the first quote that closes the string is the one written after it |
| `JsonLog.IbcEventOneLine` | src/util/DetailedLogger.cpp:237-261 | no packet, time or relayer name can put a line break into an event record |
| `JsonLog.IbcEventInjective` | src/util/DetailedLogger.cpp:237-261 | an event's record determines its time, name and relayer and every field of the packet but its type |
| `JsonLog.RecordsComeBack` | src/util/DetailedLogger.cpp:96-101 | a file of records splits at its newlines into exactly those records |
| `JsonLog.LogStream.Write` | src/util/DetailedLogger.cpp:96-101 | the file is always the records written so far, in order, one per line |

## Left out

* Counters past 2^64: the wrap is in the model (`Increment`), but the protocol theorems hold up to it. The relayer's counts, the transport's two counters, tokens and the PoW difficulty are unbounded here.
* Threads are steps at lock boundaries. The process-wide mutex, the memory model, and the unlocked access to the mempool, to `head()` and to the drop rates are not modelled.
* Shutdown of the transport and joining of threads: `running_` changes outside the task lock, so no claim is made that a waiter or a worker ever ends, nor any other liveness claim.
* Publishing runs the handlers inside the chain's critical section, so a chain operation and the queueing at all relayers are one step; a queue that closes between two relayers' handlers is seen as closing before or after.
* Drop probabilities and random numbers: any attempt may be dropped. The range of `uniform_real_distribution(1.0, 1.0)` is not reasoned about.
* The set of relayers and their routes do not change during a run; `connectChainMailbox` is modelled on its own class only.
* Transaction messages, the mempool, the block ledger (`appendBlock`, `registerNodeId`), snapshots, topology, configuration, the controller and the traffic generator: they do not touch channels or packets.
* Console log, metrics, timestamps, status message texts, and the order of log records, which are written after the event they describe.
* `IBCPacketRecv`, `IBCAckRecv` and `BlockFinalized` events have no subscriber among relayers; their handlers are not modelled.
* The binary heap of the standard library is a sequence from which a task of least delivery time is taken; which of several equally early tasks comes first is open.
* Condition variables: a worker waiting for work is simply not scheduled; only the drain condition's sleepers and wake-ups are modelled.
* Hashes are arbitrary functions to 64 bits; nothing is said about collisions. The block id leaves out the state root, so no agreement on block contents is claimed.
* JSON: `\u` escapes for surrogates are not read, and the floating-point latency member is not written.
* That a channel with a live copy does move on, and not only can, would need fairness of the threads and is not claimed.
