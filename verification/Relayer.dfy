/** The relayer of ibc/Relayer.cpp: event handlers that queue packets and acknowledgements, and a loop
    that takes one of each per round, tries once to send it, and counts the outcome. */
module Relayer {
  import opened Basics
  import opened ConcurrentQueue
  import opened Envelope
  import opened Transport
  import Codec

  /** Where the loop is: about to check whether it should go on, about to look for a packet, holding one,
      about to look for an acknowledgement, or holding one. */
  datatype Phase = AtLoop | AtPackets | HasPacket(packet: Packet) | AtAcks | HasAck(packet: Packet)

  datatype Relayer = Relayer(packets: Queue<Packet>, acks: Queue<Packet>, phase: Phase, running: bool,
                             packetsRelayed: nat, acksRelayed: nat, failures: nat)

  function NewRelayer(): Relayer {
    Relayer(EmptyQueue(), EmptyQueue(), AtLoop, false, 0, 0, 0)
  }

  function QueuePacket(r: Relayer, p: Packet): Relayer {
    r.(packets := Push(r.packets, p))
  }

  function QueueAck(r: Relayer, p: Packet): Relayer {
    r.(acks := Push(r.acks, p))
  }

  /** onIBCPacketSendEvent: the packet in the event's text, if it is Data.  A text that does not parse and
      a closed queue throw, and both are swallowed. */
  function OnPacketEvent(r: Relayer, detail: string): Relayer {
    match Codec.Deserialize(detail)
    case Some(p) => if p.kind == DATA then QueuePacket(r, p) else r
    case None => r
  }

  /** onIBCAckSendEvent. */
  function OnAckEvent(r: Relayer, detail: string): Relayer {
    match Codec.Deserialize(detail)
    case Some(p) => if p.kind == ACK then QueueAck(r, p) else r
    case None => r
  }

  /** The running check at the top of the loop. */
  function BeginRound(r: Relayer): Relayer {
    if r.phase == AtLoop && r.running then r.(phase := AtPackets) else r
  }

  function TakePacket(r: Relayer): Relayer {
    if r.phase != AtPackets then r
    else
      var (q, item) := Pop(r.packets);
      match item
      case Some(p) => r.(packets := q, phase := HasPacket(p))
      case None => r.(phase := AtAcks)
  }

  function FinishPacket(r: Relayer, sent: bool): Relayer {
    if !r.phase.HasPacket? then r
    else if sent then r.(phase := AtAcks, packetsRelayed := r.packetsRelayed + 1)
    else r.(phase := AtAcks, failures := r.failures + 1)
  }

  function TakeAck(r: Relayer): Relayer {
    if r.phase != AtAcks then r
    else
      var (q, item) := Pop(r.acks);
      match item
      case Some(p) => r.(acks := q, phase := HasAck(p))
      case None => r.(phase := AtLoop)
  }

  function FinishAck(r: Relayer, sent: bool): Relayer {
    if !r.phase.HasAck? then r
    else if sent then r.(phase := AtLoop, acksRelayed := r.acksRelayed + 1)
    else r.(phase := AtLoop, failures := r.failures + 1)
  }

  function StartLoop(r: Relayer): Relayer {
    r.(running := true)
  }

  /** stop: a relayer that is not running is left alone, and so are its queues. */
  function StopLoop(r: Relayer): Relayer {
    if !r.running then r
    else r.(running := false, packets := Close(r.packets), acks := Close(r.acks))
  }

  // ---------------------------------------------------------------- conservation

  datatype Step = SeePacket(detail: string) | SeeAck(detail: string) | StepBeginRound
                | StepTakePacket | StepFinishPacket(sent: bool)
                | StepTakeAck | StepFinishAck(sent: bool) | StepStart | StepStop

  function Do(r: Relayer, step: Step): Relayer {
    match step
    case SeePacket(detail) => OnPacketEvent(r, detail)
    case SeeAck(detail) => OnAckEvent(r, detail)
    case StepBeginRound => BeginRound(r)
    case StepTakePacket => TakePacket(r)
    case StepFinishPacket(sent) => FinishPacket(r, sent)
    case StepTakeAck => TakeAck(r)
    case StepFinishAck(sent) => FinishAck(r, sent)
    case StepStart => StartLoop(r)
    case StepStop => StopLoop(r)
  }

  function DoAll(steps: seq<Step>): Relayer {
    if steps == [] then NewRelayer() else Do(DoAll(steps[..|steps| - 1]), steps[|steps| - 1])
  }

  function InHand(r: Relayer): nat {
    if r.phase.HasPacket? || r.phase.HasAck? then 1 else 0
  }

  /** Both queues are first-in first-out, the item in hand is the last one taken, and every item ever
      queued is still queued, in hand, or counted once. */
  ghost predicate Accounted(r: Relayer) {
    && Fifo(r.packets) && Fifo(r.acks)
    && (r.phase.HasPacket? ==> r.packets.taken != [] && r.packets.taken[|r.packets.taken| - 1] == r.phase.packet)
    && (r.phase.HasAck? ==> r.acks.taken != [] && r.acks.taken[|r.acks.taken| - 1] == r.phase.packet)
    && |r.packets.pushed| + |r.acks.pushed| ==
       |r.packets.items| + |r.acks.items| + InHand(r) + r.packetsRelayed + r.acksRelayed + r.failures
  }

  lemma DoAccounted(r: Relayer, step: Step)
    requires Accounted(r)
    ensures Accounted(Do(r, step))
  {
    var any := Packet(DATA, "", "", "", "", "", "", 0, "");
    match step
    case SeePacket(detail) =>
      match Codec.Deserialize(detail) {
        case Some(p) => FifoKept(r.packets, p);
        case None =>
      }
    case SeeAck(detail) =>
      match Codec.Deserialize(detail) {
        case Some(p) => FifoKept(r.acks, p);
        case None =>
      }
    case StepTakePacket => FifoKept(r.packets, any);
    case StepTakeAck => FifoKept(r.acks, any);
    case _ =>
  }

  lemma DoAfterClose(r: Relayer, step: Step)
    ensures r.packets.closed ==> Do(r, step).packets.pushed == r.packets.pushed && Do(r, step).packets.closed
    ensures r.acks.closed ==> Do(r, step).acks.pushed == r.acks.pushed && Do(r, step).acks.closed
  {
  }

  lemma {:induction false} EveryRunAccounted(steps: seq<Step>)
    ensures Accounted(DoAll(steps))
  {
    if steps != [] {
      EveryRunAccounted(steps[..|steps| - 1]);
      DoAccounted(DoAll(steps[..|steps| - 1]), steps[|steps| - 1]);
    }
  }

  /** Once a relayer has been stopped nothing is ever queued again. */
  lemma {:induction false} NothingAfterStop(steps: seq<Step>, more: seq<Step>)
    requires DoAll(steps).packets.closed && DoAll(steps).acks.closed
    ensures DoAll(steps + more).packets.pushed == DoAll(steps).packets.pushed && DoAll(steps + more).packets.closed
    ensures DoAll(steps + more).acks.pushed == DoAll(steps).acks.pushed && DoAll(steps + more).acks.closed
  {
    if more == [] {
      assert steps + more == steps;
    } else {
      var before := more[..|more| - 1];
      NothingAfterStop(steps, before);
      assert (steps + more)[..|steps + more| - 1] == steps + before;
      DoAfterClose(DoAll(steps + before), more[|more| - 1]);
    }
  }

  /** Stopping a running relayer closes both its queues and loses nothing that is in them; and whatever
      happens next, nothing is queued again. */
  lemma StopIsFinal(steps: seq<Step>, more: seq<Step>)
    requires DoAll(steps).running
    ensures var r, s := DoAll(steps), DoAll(steps + [StepStop]);
            && !s.running && s.packets.closed && s.acks.closed
            && s.packets.items == r.packets.items && s.acks.items == r.acks.items && s.phase == r.phase
    ensures var r, t := DoAll(steps), DoAll(steps + [StepStop] + more);
            && t.packets.pushed == r.packets.pushed && t.acks.pushed == r.acks.pushed
            && t.packets.closed && t.acks.closed
  {
    assert (steps + [StepStop])[..|steps|] == steps;
    NothingAfterStop(steps + [StepStop], more);
  }

  // ---------------------------------------------------------------- rounds

  /** What the environment decides about one attempt to send. */
  datatype Luck = Luck(routeDrop: bool, networkDrop: bool, now: nat, latency: nat)

  /** The transport after a relayer's attempt, and the status it got. */
  function Attempt(net: Net, name: string, chainAddr: map<string, string>, p: Packet, luck: Luck): (Net, ErrorCode) {
    if p.dstChain !in chainAddr then (net, NotFound)
    else if luck.routeDrop then (net, NetworkDrop)
    else if chainAddr[p.dstChain] !in net.endpoints then (net, NotFound)
    else if luck.networkDrop then (net, NetworkDrop)
    else (PushTask(net, luck.now + luck.latency, chainAddr[p.dstChain], Letter(name, p)), Ok)
  }

  /** What has to come together for p, of whatever kind, to be sent. */
  predicate GetsThrough(net: Net, chainAddr: map<string, string>, p: Packet, luck: Luck) {
    p.dstChain in chainAddr && chainAddr[p.dstChain] in net.endpoints && !luck.routeDrop && !luck.networkDrop
  }

  /** The transport with one more letter, due after the latency. */
  predicate OneLetterMore(net: Net, after: Net, name: string, to: string, p: Packet, due: nat) {
    && after.tasks == net.tasks + [Task(|net.accepted|, due, to, Letter(name, p))]
    && after.accepted == net.accepted + [Task(|net.accepted|, due, to, Letter(name, p))]
    && after.pending == net.pending + 1 && after.inflight == net.inflight && after.endpoints == net.endpoints
  }

  /** Packets and acknowledgements alike are sent exactly when the destination is connected, its mailbox is
      registered and neither drop occurs; then the transport holds just one letter more. */
  lemma AttemptExactly(net: Net, name: string, chainAddr: map<string, string>, p: Packet, luck: Luck)
    ensures var (after, code) := Attempt(net, name, chainAddr, p, luck);
            && (code == Ok <==> GetsThrough(net, chainAddr, p, luck))
            && (code == Ok ==> OneLetterMore(net, after, name, chainAddr[p.dstChain], p, luck.now + luck.latency))
            && (code != Ok ==> after == net)
  {
  }

  /** The first half of a round of runLoop: at most one packet, tried once. */
  function PacketHalf(r: Relayer, net: Net, name: string, chainAddr: map<string, string>, luck: Luck): (Relayer, Net) {
    var taken := TakePacket(r);
    match taken.phase
    case HasPacket(p) =>
      var (after, code) := Attempt(net, name, chainAddr, p, luck);
      (FinishPacket(taken, code == Ok), after)
    case _ => (taken, net)
  }

  /** The second half: at most one acknowledgement. */
  function AckHalf(r: Relayer, net: Net, name: string, chainAddr: map<string, string>, luck: Luck): (Relayer, Net) {
    var taken := TakeAck(r);
    match taken.phase
    case HasAck(p) =>
      var (after, code) := Attempt(net, name, chainAddr, p, luck);
      (FinishAck(taken, code == Ok), after)
    case _ => (taken, net)
  }

  function Round(r: Relayer, net: Net, name: string, chainAddr: map<string, string>, luck: (Luck, Luck))
    : (Relayer, Net)
  {
    var (r1, net1) := PacketHalf(BeginRound(r), net, name, chainAddr, luck.0);
    AckHalf(r1, net1, name, chainAddr, luck.1)
  }

  function Rounds(r: Relayer, net: Net, name: string, chainAddr: map<string, string>, lucks: seq<(Luck, Luck)>)
    : (Relayer, Net)
  {
    if lucks == [] then (r, net)
    else
      var (r1, net1) := Rounds(r, net, name, chainAddr, lucks[..|lucks| - 1]);
      Round(r1, net1, name, chainAddr, lucks[|lucks| - 1])
  }

  lemma RoundsStep(r: Relayer, net: Net, name: string, chainAddr: map<string, string>, lucks: seq<(Luck, Luck)>, i: nat)
    requires i < |lucks|
    ensures var (r1, net1) := Rounds(r, net, name, chainAddr, lucks[..i]);
            Rounds(r, net, name, chainAddr, lucks[..i + 1]) == Round(r1, net1, name, chainAddr, lucks[i])
  {
    assert lucks[..i + 1][..i] == lucks[..i];
  }

  /** What one round leaves of a queue. */
  function Shorter(items: seq<Packet>): seq<Packet> {
    if items == [] then [] else items[1..]
  }

  function One(b: bool): nat {
    if b then 1 else 0
  }

  /** How one round counts: a packet that gets through is relayed, and one that does not is a failure, and so
      it is with acknowledgements, under a count of their own. */
  lemma RoundCounts(r: Relayer, net: Net, name: string, chainAddr: map<string, string>, luck: (Luck, Luck))
    requires r.phase == AtLoop && r.running
    ensures var (after, netAfter) := Round(r, net, name, chainAddr, luck);
            var packet := r.packets.items != [] && GetsThrough(net, chainAddr, r.packets.items[0], luck.0);
            var ack := r.acks.items != [] && GetsThrough(net, chainAddr, r.acks.items[0], luck.1);
            && after.packetsRelayed == r.packetsRelayed + One(packet)
            && after.acksRelayed == r.acksRelayed + One(ack)
            && after.failures == r.failures + One(r.packets.items != [] && !packet) + One(r.acks.items != [] && !ack)
            && |netAfter.accepted| == |net.accepted| + One(packet) + One(ack)
            && netAfter.endpoints == net.endpoints
  {
    var begun := BeginRound(r);
    PacketHalfCounts(begun, net, name, chainAddr, luck.0);
    var (r1, net1) := PacketHalf(begun, net, name, chainAddr, luck.0);
    AckHalfCounts(r1, net1, name, chainAddr, luck.1);
  }

  lemma PacketHalfCounts(r: Relayer, net: Net, name: string, chainAddr: map<string, string>, luck: Luck)
    requires r.phase == AtPackets
    ensures var (after, netAfter) := PacketHalf(r, net, name, chainAddr, luck);
            var packet := r.packets.items != [] && GetsThrough(net, chainAddr, r.packets.items[0], luck);
            && after.packetsRelayed == r.packetsRelayed + One(packet) && after.acksRelayed == r.acksRelayed
            && after.failures == r.failures + One(r.packets.items != [] && !packet)
            && |netAfter.accepted| == |net.accepted| + One(packet) && netAfter.endpoints == net.endpoints
            && after.phase == AtAcks && after.acks == r.acks
  {
    if r.packets.items != [] {
      AttemptExactly(net, name, chainAddr, r.packets.items[0], luck);
    }
  }

  lemma AckHalfCounts(r: Relayer, net: Net, name: string, chainAddr: map<string, string>, luck: Luck)
    requires r.phase == AtAcks
    ensures var (after, netAfter) := AckHalf(r, net, name, chainAddr, luck);
            var ack := r.acks.items != [] && GetsThrough(net, chainAddr, r.acks.items[0], luck);
            && after.acksRelayed == r.acksRelayed + One(ack) && after.packetsRelayed == r.packetsRelayed
            && after.failures == r.failures + One(r.acks.items != [] && !ack)
            && |netAfter.accepted| == |net.accepted| + One(ack) && netAfter.endpoints == net.endpoints
  {
    if r.acks.items != [] {
      AttemptExactly(net, name, chainAddr, r.acks.items[0], luck);
    }
  }

  lemma PacketHalfTakesOne(r: Relayer, net: Net, name: string, chainAddr: map<string, string>, luck: Luck)
    requires Accounted(r) && r.phase == AtPackets
    ensures var after := PacketHalf(r, net, name, chainAddr, luck).0;
            && Accounted(after) && after.phase == AtAcks && after.running == r.running && after.acks == r.acks
            && after.packets.pushed == r.packets.pushed && after.packets.items == Shorter(r.packets.items)
  {
    DoAccounted(r, StepTakePacket);
  }

  lemma AckHalfTakesOne(r: Relayer, net: Net, name: string, chainAddr: map<string, string>, luck: Luck)
    requires Accounted(r) && r.phase == AtAcks
    ensures var after := AckHalf(r, net, name, chainAddr, luck).0;
            && Accounted(after) && after.phase == AtLoop && after.running == r.running && after.packets == r.packets
            && after.acks.pushed == r.acks.pushed && after.acks.items == Shorter(r.acks.items)
  {
    DoAccounted(r, StepTakeAck);
  }

  lemma RoundTakesOneOfEach(r: Relayer, net: Net, name: string, chainAddr: map<string, string>, luck: (Luck, Luck))
    requires Accounted(r) && r.phase == AtLoop && r.running
    ensures var after := Round(r, net, name, chainAddr, luck).0;
            && Accounted(after) && after.phase == AtLoop && after.running
            && after.packets.pushed == r.packets.pushed && after.acks.pushed == r.acks.pushed
            && after.packets.items == Shorter(r.packets.items) && after.acks.items == Shorter(r.acks.items)
  {
    var begun := r.(phase := AtPackets);
    PacketHalfTakesOne(begun, net, name, chainAddr, luck.0);
    var (r1, net1) := PacketHalf(begun, net, name, chainAddr, luck.0);
    AckHalfTakesOne(r1, net1, name, chainAddr, luck.1);
  }

  /** While it runs, each round takes the head of each queue and accounts for it; so enough rounds empty
      both queues, with every item relayed or counted as a failure. */
  lemma {:induction false} RoundsDrain(r: Relayer, net: Net, name: string, chainAddr: map<string, string>,
      lucks: seq<(Luck, Luck)>)
    requires Accounted(r) && r.phase == AtLoop && r.running
    ensures var after := Rounds(r, net, name, chainAddr, lucks).0;
            var n := |lucks|;
            && Accounted(after) && after.phase == AtLoop && after.running
            && after.packets.pushed == r.packets.pushed && after.acks.pushed == r.acks.pushed
            && after.packets.items == (if n <= |r.packets.items| then r.packets.items[n..] else [])
            && after.acks.items == (if n <= |r.acks.items| then r.acks.items[n..] else [])
            && (n >= |r.packets.items| && n >= |r.acks.items| ==>
                  after.packetsRelayed + after.acksRelayed + after.failures == |r.packets.pushed| + |r.acks.pushed|)
  {
    if lucks != [] {
      var before := lucks[..|lucks| - 1];
      RoundsDrain(r, net, name, chainAddr, before);
      var (r1, net1) := Rounds(r, net, name, chainAddr, before);
      RoundTakesOneOfEach(r1, net1, name, chainAddr, lucks[|lucks| - 1]);
    }
  }

  lemma {:induction false} RoundsStopped(r: Relayer, net: Net, name: string, chainAddr: map<string, string>,
      lucks: seq<(Luck, Luck)>)
    requires !r.running && r.phase == AtLoop
    ensures Rounds(r, net, name, chainAddr, lucks) == (r, net)
  {
    if lucks != [] {
      RoundsStopped(r, net, name, chainAddr, lucks[..|lucks| - 1]);
    }
  }

  /** A loop that stopped after i rounds, of a relayer that ran out of rounds or was not running, did all
      it had to do. */
  lemma RoundsOver(r: Relayer, net: Net, name: string, chainAddr: map<string, string>, lucks: seq<(Luck, Luck)>, i: nat)
    requires i <= |lucks| && r.phase == AtLoop && (r.running ==> i == |lucks|)
    ensures Rounds(r, net, name, chainAddr, lucks[..i]) == Rounds(r, net, name, chainAddr, lucks)
  {
    if r.running {
      assert lucks[..i] == lucks;
    } else {
      RoundsStopped(r, net, name, chainAddr, lucks[..i]);
      RoundsStopped(r, net, name, chainAddr, lucks);
    }
  }

  // ---------------------------------------------------------------- the class

  class RelayerImpl {
    const name: string
    const transport: TransportImpl
    const pendingPackets: ConcurrentQueue<Packet>
    const pendingAcks: ConcurrentQueue<Packet>
    var chainAddr: map<string, string>
    var running: bool
    var packetsRelayed: nat
    var acksRelayed: nat
    var failures: nat

    ghost predicate Valid() {
      pendingPackets != pendingAcks
    }

    /** The relayer between two rounds of its loop. */
    ghost function View(): Relayer
      reads this, pendingPackets, pendingAcks
    {
      Relayer(pendingPackets.View(), pendingAcks.View(), AtLoop, running, packetsRelayed, acksRelayed, failures)
    }

    constructor (name: string, transport: TransportImpl)
      ensures Valid() && View() == NewRelayer() && chainAddr == map[]
      ensures this.name == name && this.transport == transport
    {
      this.name, this.transport := name, transport;
      pendingPackets := new ConcurrentQueue();
      pendingAcks := new ConcurrentQueue();
      chainAddr, running := map[], false;
      packetsRelayed, acksRelayed, failures := 0, 0, 0;
    }

    method ConnectChainMailbox(chainId: string, address: string)
      modifies this`chainAddr
      ensures chainAddr == old(chainAddr)[chainId := address]
    {
      chainAddr := chainAddr[chainId := address];
    }

    method OnIBCPacketSendEvent(detail: string)
      requires Valid()
      modifies pendingPackets
      ensures View() == OnPacketEvent(old(View()), detail)
      ensures forall p :: Codec.Deserialize(detail) == Some(p) && p.kind == DATA && !pendingPackets.closed ==>
                pendingPackets.items == old(pendingPackets.items) + [p]
      ensures (forall p :: Codec.Deserialize(detail) == Some(p) ==> p.kind != DATA) || pendingPackets.closed ==>
                pendingPackets.items == old(pendingPackets.items)
      ensures pendingPackets.closed == old(pendingPackets.closed)
    {
      var parsed := Codec.Deserialize(detail);
      if parsed.Some? && parsed.value.kind == DATA {
        var _ := pendingPackets.PushItem(parsed.value);
      }
    }

    method OnIBCAckSendEvent(detail: string)
      requires Valid()
      modifies pendingAcks
      ensures View() == OnAckEvent(old(View()), detail)
      ensures forall p :: Codec.Deserialize(detail) == Some(p) && p.kind == ACK && !pendingAcks.closed ==>
                pendingAcks.items == old(pendingAcks.items) + [p]
      ensures (forall p :: Codec.Deserialize(detail) == Some(p) ==> p.kind != ACK) || pendingAcks.closed ==>
                pendingAcks.items == old(pendingAcks.items)
      ensures pendingAcks.closed == old(pendingAcks.closed)
    {
      var parsed := Codec.Deserialize(detail);
      if parsed.Some? && parsed.value.kind == ACK {
        var _ := pendingAcks.PushItem(parsed.value);
      }
    }

    /** relayPacket and relayAck, which are the same code. */
    method Relay(p: Packet, luck: Luck) returns (code: ErrorCode)
      modifies transport
      ensures (transport.View(), code) == Attempt(old(transport.View()), name, chainAddr, p, luck)
      ensures code == Ok <==>
                && p.dstChain in chainAddr && chainAddr[p.dstChain] in old(transport.endpoints)
                && !luck.routeDrop && !luck.networkDrop
      ensures code == Ok ==>
                var task :=
                  Task(|old(transport.accepted)|, luck.now + luck.latency, chainAddr[p.dstChain], Letter(name, p));
                && transport.tasks == old(transport.tasks) + [task]
                && transport.accepted == old(transport.accepted) + [task]
                && transport.pendingCount == old(transport.pendingCount) + 1
                && transport.inflightCount == old(transport.inflightCount)
                && transport.endpoints == old(transport.endpoints)
      ensures code != Ok ==> transport.View() == old(transport.View())
      ensures p.dstChain !in chainAddr ==> code == NotFound
      ensures p.dstChain in chainAddr && luck.routeDrop ==> code == NetworkDrop
      ensures p.dstChain in chainAddr && !luck.routeDrop && chainAddr[p.dstChain] !in old(transport.endpoints) ==>
                code == NotFound
      ensures code == Ok || code == NotFound || code == NetworkDrop
    {
      if p.dstChain !in chainAddr {
        return NotFound;
      }
      if luck.routeDrop {
        return NetworkDrop;
      }
      code := transport.Send(chainAddr[p.dstChain], Letter(name, p), luck.now, luck.latency, luck.networkDrop);
    }

    method PacketTurn(luck: Luck)
      requires Valid()
      modifies this`packetsRelayed, this`failures, pendingPackets, transport
      ensures var (r, net) :=
                PacketHalf(old(View()).(phase := AtPackets), old(transport.View()), name, chainAddr, luck);
              View().(phase := AtAcks) == r && transport.View() == net
    {
      var taken := pendingPackets.TryPop();
      if taken.Some? {
        var code := Relay(taken.value, luck);
        if code == Ok {
          packetsRelayed := packetsRelayed + 1;
        } else {
          failures := failures + 1;
        }
      }
    }

    method AckTurn(luck: Luck)
      requires Valid()
      modifies this`acksRelayed, this`failures, pendingAcks, transport
      ensures (View(), transport.View()) ==
              AckHalf(old(View()).(phase := AtAcks), old(transport.View()), name, chainAddr, luck)
    {
      var taken := pendingAcks.TryPop();
      if taken.Some? {
        var code := Relay(taken.value, luck);
        if code == Ok {
          acksRelayed := acksRelayed + 1;
        } else {
          failures := failures + 1;
        }
      }
    }

    method RoundTurn(luck: (Luck, Luck))
      requires Valid() && running
      modifies this`packetsRelayed, this`acksRelayed, this`failures, pendingPackets, pendingAcks, transport
      ensures (View(), transport.View()) == Round(old(View()), old(transport.View()), name, chainAddr, luck)
    {
      PacketTurn(luck.0);
      AckTurn(luck.1);
    }

    method NextRound(lucks: seq<(Luck, Luck)>, i: nat, ghost r: Relayer, ghost net: Net)
      requires Valid() && running && i < |lucks|
      requires (View(), transport.View()) == Rounds(r, net, name, chainAddr, lucks[..i])
      modifies this`packetsRelayed, this`acksRelayed, this`failures, pendingPackets, pendingAcks, transport
      ensures (View(), transport.View()) == Rounds(r, net, name, chainAddr, lucks[..i + 1])
    {
      RoundsStep(r, net, name, chainAddr, lucks, i);
      RoundTurn(lucks[i]);
    }

    /** runLoop, for as many rounds as the environment has decided on. */
    method RunLoop(lucks: seq<(Luck, Luck)>)
      requires Valid()
      modifies this`packetsRelayed, this`acksRelayed, this`failures, pendingPackets, pendingAcks, transport
      ensures (View(), transport.View()) == Rounds(old(View()), old(transport.View()), name, chainAddr, lucks)
    {
      ghost var r, net := View(), transport.View();
      var i := 0;
      assert lucks[..i] == [];
      while running && i < |lucks|
        invariant i <= |lucks| && running == r.running
        invariant (View(), transport.View()) == Rounds(r, net, name, chainAddr, lucks[..i])
      {
        NextRound(lucks, i, r, net);
        i := i + 1;
      }
      RoundsOver(r, net, name, chainAddr, lucks, i);
    }

    method StartIt() returns (code: ErrorCode)
      modifies this`running
      ensures View() == StartLoop(old(View())) && code == if old(running) then InvalidState else Ok
      ensures running
    {
      if running {
        return InvalidState;
      }
      running := true;
      return Ok;
    }

    method StopIt()
      requires Valid()
      modifies this`running, pendingPackets, pendingAcks
      ensures View() == StopLoop(old(View()))
      ensures !running
      ensures old(running) ==> pendingPackets.closed && pendingAcks.closed
      ensures !old(running) ==> pendingPackets.closed == old(pendingPackets.closed)
      ensures !old(running) ==> pendingAcks.closed == old(pendingAcks.closed)
      ensures pendingPackets.items == old(pendingPackets.items) && pendingAcks.items == old(pendingAcks.items)
    {
      if !running {
        return;
      }
      running := false;
      pendingPackets.CloseQueue();
      pendingAcks.CloseQueue();
    }
  }
}
