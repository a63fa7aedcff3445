/** The IBC half of core/Blockchain.cpp: channels kept under the text key `port:channel`, the router,
    and the events published on the bus.  Every operation runs under one process-wide mutex, so each
    is one step. */
module Blockchain {
  import opened Basics
  import opened Channel
  import opened Router
  import opened EventBus
  import opened TextKey
  import Codec
  import Decimal

  datatype ChainState = ChainState(chainId: string, bindings: seq<Binding>, channels: map<string, Channel>)

  function Genesis(chainId: string): ChainState {
    ChainState(chainId, [], map[])
  }

  /** getOrCreateChannel, as the state it leaves behind. */
  function GetOrCreate(s: ChainState, port: string, chan: string): ChainState {
    var key := MakeKey(port, chan);
    if key in s.channels then s
    else s.(channels := s.channels[key := NewChannel(s.chainId, port, chan)])
  }

  /** Fetch a channel and open it; an already open channel is as good. */
  function Ensure(s: ChainState, port: string, chan: string): (ChainState, ErrorCode) {
    var key := MakeKey(port, chan);
    var s1 := GetOrCreate(s, port, chan);
    var (c, code) := OpenChannel(s1.channels[key]);
    (s1.(channels := s1.channels[key := c]), if code == InvalidState then Ok else code)
  }

  function OpenOn(s: ChainState, port: string, chan: string): (ChainState, ErrorCode) {
    var (bindings, code) := BindKey(s.bindings, (port, chan));
    if code != Ok then (s, code) else Ensure(s.(bindings := bindings), port, chan)
  }

  /** closeChannel only unbinds: the channel itself stays open. */
  function CloseOn(s: ChainState, port: string, chan: string): (ChainState, ErrorCode) {
    var (bindings, code) := UnbindKey(s.bindings, (port, chan));
    (s.(bindings := bindings), code)
  }

  /** sendIBC: None stands for an error status. */
  function Send(s: ChainState, port: string, chan: string,
                dstChain: string, dstPort: string, dstChan: string, payload: string): (ChainState, Option<Packet>)
  {
    var key := MakeKey(port, chan);
    var (s1, code) := Ensure(s, port, chan);
    if code != Ok then (s1, None)
    else
      var (c, made) := MakePacket(s1.channels[key], dstChain, dstPort, dstChan, payload);
      (s1.(channels := s1.channels[key := c]), made)
  }

  /** onIBCPacket. */
  function Receive(s: ChainState, p: Packet): (ChainState, ErrorCode) {
    var key := MakeKey(p.dstPort, p.dstChannel);
    var (s1, code) := Ensure(s, p.dstPort, p.dstChannel);
    if code != Ok then (s1, code)
    else
      var (c, verdict) := AcceptPacket(s1.channels[key], p);
      (s1.(channels := s1.channels[key := c]), verdict)
  }

  /** The acknowledgement a chain publishes for a packet it accepts: the ends swapped, the number kept. */
  function AckFor(p: Packet): Packet {
    Packet(ACK, p.dstChain, p.srcChain, p.dstPort, p.dstChannel, p.srcPort, p.srcChannel,
           p.sequence, "ack_" + Decimal.Print(p.sequence))
  }

  function SendEvents(chainId: string, made: Option<Packet>): seq<Event> {
    match made
    case None => []
    case Some(p) => [Event(IBCPacketSend, chainId, Codec.Serialize(p))]
  }

  function ReceiveEvents(chainId: string, p: Packet, verdict: ErrorCode): seq<Event> {
    if verdict != Ok then []
    else [Event(IBCPacketRecv, chainId, "IBC packet received"),
          Event(IBCAckSend, chainId, Codec.Serialize(AckFor(p)))]
  }

  /** What accepting p sets off on the bus: the receipt, and then the acknowledgement, which swaps the ends
      and keeps the number. */
  function ReceiptCalls<H>(subs: Subscriptions<H>, chainId: string, p: Packet): seq<(H, Event)> {
    var ack := Packet(ACK, p.dstChain, p.srcChain, p.dstPort, p.dstChannel, p.srcPort, p.srcChannel,
                      p.sequence, "ack_" + Decimal.Print(p.sequence));
    CallsOn(subs, Event(IBCPacketRecv, chainId, "IBC packet received")) +
    CallsOn(subs, Event(IBCAckSend, chainId, Codec.Serialize(ack)))
  }

  /** The handler calls that publishing a list of events makes. */
  function Published<H>(subs: Subscriptions<H>, events: seq<Event>): seq<(H, Event)> {
    if events == [] then []
    else CallsOn(subs, events[0]) + Published(subs, events[1..])
  }

  // ---------------------------------------------------------------- invariant

  /** What entry e may look like in channel c. */
  predicate EntryFits(c: Channel, e: Entry) {
    match e
    case Issued(p) => p.kind == DATA && p.srcChain == c.chainId && p.srcPort == c.port && p.srcChannel == c.chan
    case Accepted(p) => MakeKey(p.dstPort, p.dstChannel) == MakeKey(c.port, c.chan)
  }

  ghost predicate ChannelOk(chainId: string, key: string, c: Channel) {
    && c.chainId == chainId && MakeKey(c.port, c.chan) == key
    && c.state == Open
    && Numbered(c)
    && forall i :: 0 <= i < |c.log| ==> EntryFits(c, c.log[i])
  }

  ghost predicate ChainOk(s: ChainState) {
    && Distinct(s.bindings)
    && (forall b :: b in s.bindings ==> MakeKey(b.0, b.1) in s.channels)
    && (forall key :: key in s.channels ==> ChannelOk(s.chainId, key, s.channels[key]))
  }

  lemma EnsureOk(s: ChainState, port: string, chan: string)
    requires ChainOk(s)
    ensures ChainOk(Ensure(s, port, chan).0) && Ensure(s, port, chan).1 == Ok
    ensures MakeKey(port, chan) in Ensure(s, port, chan).0.channels
  {
  }

  lemma OpenOnOk(s: ChainState, port: string, chan: string)
    requires ChainOk(s)
    ensures ChainOk(OpenOn(s, port, chan).0)
    ensures OpenOn(s, port, chan).1 == Ok <==> (port, chan) !in s.bindings
    ensures OpenOn(s, port, chan).1 != Ok ==> OpenOn(s, port, chan) == (s, InvalidState)
    ensures forall b :: b in OpenOn(s, port, chan).0.bindings <==> b in s.bindings || b == (port, chan)
    ensures forall key :: key in s.channels ==>
              key in OpenOn(s, port, chan).0.channels && OpenOn(s, port, chan).0.channels[key] == s.channels[key]
  {
    forall b ensures b in OpenOn(s, port, chan).0.bindings <==> b in s.bindings || b == (port, chan) {
      RouterIsASet(s.bindings, (port, chan), b);
    }
    RouterIsASet(s.bindings, (port, chan), (port, chan));
    var (bindings, code) := BindKey(s.bindings, (port, chan));
    var s1 := s.(bindings := bindings);
    var (s2, _) := Ensure(s1, port, chan);
    EnsureOk(s, port, chan);
    assert s2.channels == Ensure(s, port, chan).0.channels;
  }

  lemma CloseOnOk(s: ChainState, port: string, chan: string)
    requires ChainOk(s)
    ensures ChainOk(CloseOn(s, port, chan).0)
    ensures CloseOn(s, port, chan).1 == Ok <==> (port, chan) in s.bindings
    ensures CloseOn(s, port, chan).1 != Ok ==> CloseOn(s, port, chan) == (s, NotFound)
    ensures CloseOn(s, port, chan).0.channels == s.channels
    ensures forall b :: b in CloseOn(s, port, chan).0.bindings <==> b in s.bindings && b != (port, chan)
  {
    forall b ensures b in CloseOn(s, port, chan).0.bindings <==> b in s.bindings && b != (port, chan) {
      RouterIsASet(s.bindings, (port, chan), b);
    }
    RouterIsASet(s.bindings, (port, chan), (port, chan));
  }

  /** The number a channel is at, whether or not it exists yet. */
  function NextNumber(s: ChainState, port: string, chan: string): Uint64 {
    var key := MakeKey(port, chan);
    if key in s.channels then s.channels[key].nextSeq else 1
  }

  lemma SendOk(s: ChainState, port: string, chan: string, dstChain: string, dstPort: string, dstChan: string,
      payload: string)
    requires ChainOk(s)
    ensures ChainOk(Send(s, port, chan, dstChain, dstPort, dstChan, payload).0)
    ensures Send(s, port, chan, dstChain, dstPort, dstChan, payload).1.Some?
    ensures var p := Send(s, port, chan, dstChain, dstPort, dstChan, payload).1.value;
            && p.kind == DATA && p.payload == payload && p.sequence == NextNumber(s, port, chan)
            && p.dstChain == dstChain && p.dstPort == dstPort && p.dstChannel == dstChan
            && p.srcChain == s.chainId && MakeKey(p.srcPort, p.srcChannel) == MakeKey(port, chan)
  {
    EnsureOk(s, port, chan);
  }

  lemma ReceiveOk(s: ChainState, p: Packet)
    requires ChainOk(s)
    ensures ChainOk(Receive(s, p).0)
    ensures Receive(s, p).1 == if p.sequence == NextNumber(s, p.dstPort, p.dstChannel) then Ok else InvalidState
  {
    EnsureOk(s, p.dstPort, p.dstChannel);
  }

  // ---------------------------------------------------------------- runs of one chain

  datatype Op = OpOpen(port: string, chan: string)
              | OpClose(port: string, chan: string)
              | OpSend(port: string, chan: string, dstChain: string, dstPort: string, dstChan: string, payload: string)
              | OpReceive(packet: Packet)

  function Do(s: ChainState, op: Op): ChainState {
    match op
    case OpOpen(port, chan) => OpenOn(s, port, chan).0
    case OpClose(port, chan) => CloseOn(s, port, chan).0
    case OpSend(port, chan, dstChain, dstPort, dstChan, payload) =>
      Send(s, port, chan, dstChain, dstPort, dstChan, payload).0
    case OpReceive(p) => Receive(s, p).0
  }

  function DoAll(chainId: string, ops: seq<Op>): ChainState {
    if ops == [] then Genesis(chainId) else Do(DoAll(chainId, ops[..|ops| - 1]), ops[|ops| - 1])
  }

  function NumbersOf(log: seq<Entry>): seq<nat> {
    seq(|log|, i requires 0 <= i < |log| => log[i].packet.sequence as nat)
  }

  /** The channel used the numbers 1 .. nextSeq - 1, each exactly once, and no other. */
  ghost predicate NumbersUsedOnce(c: Channel) {
    forall n :: multiset(NumbersOf(c.log))[n] == if 1 <= n < c.nextSeq then 1 else 0
  }

  lemma {:induction false} CountUp(numbers: seq<nat>)
    requires forall i :: 0 <= i < |numbers| ==> numbers[i] == i + 1
    ensures forall n :: multiset(numbers)[n] == if 1 <= n <= |numbers| then 1 else 0
  {
    if numbers != [] {
      var before := numbers[..|numbers| - 1];
      CountUp(before);
      assert numbers == before + [|numbers|];
    }
  }

  lemma DoOk(s: ChainState, op: Op)
    requires ChainOk(s)
    ensures ChainOk(Do(s, op)) && Do(s, op).chainId == s.chainId
  {
    match op
    case OpOpen(port, chan) => OpenOnOk(s, port, chan);
    case OpClose(port, chan) => CloseOnOk(s, port, chan);
    case OpSend(port, chan, dstChain, dstPort, dstChan, payload) =>
      SendOk(s, port, chan, dstChain, dstPort, dstChan, payload);
    case OpReceive(p) => ReceiveOk(s, p);
  }

  /** In every run every bound pair has a channel and every channel is open between calls; and until
      its counter wraps, a channel has issued or accepted each number below nextSeq exactly once. */
  lemma {:induction false} EveryRunOk(chainId: string, ops: seq<Op>)
    ensures ChainOk(DoAll(chainId, ops)) && DoAll(chainId, ops).chainId == chainId
    ensures forall key :: key in DoAll(chainId, ops).channels && |DoAll(chainId, ops).channels[key].log| < MAX64 ==>
              NumbersUsedOnce(DoAll(chainId, ops).channels[key])
  {
    if ops != [] {
      var s := DoAll(chainId, ops[..|ops| - 1]);
      EveryRunOk(chainId, ops[..|ops| - 1]);
      DoOk(s, ops[|ops| - 1]);
    }
    var s := DoAll(chainId, ops);
    forall key | key in s.channels && |s.channels[key].log| < MAX64 ensures NumbersUsedOnce(s.channels[key]) {
      assert ChannelOk(chainId, key, s.channels[key]);
      CountUp(NumbersOf(s.channels[key].log));
    }
  }

  // ---------------------------------------------------------------- the map on pairs

  function PortOf(op: Op): string {
    match op
    case OpOpen(port, _) => port
    case OpClose(port, _) => port
    case OpSend(port, _, _, _, _, _) => port
    case OpReceive(p) => p.dstPort
  }

  /** With colon-free ports the text-keyed map is a map on (port, channel) pairs: a pair that has a
      channel finds the one that was made for that very pair. */
  lemma {:induction false} MapOnPairs(chainId: string, ops: seq<Op>, port: string, chan: string)
    requires forall i :: 0 <= i < |ops| ==> ':' !in PortOf(ops[i])
    requires ':' !in port
    ensures var channels := DoAll(chainId, ops).channels;
            MakeKey(port, chan) in channels ==>
              channels[MakeKey(port, chan)].port == port && channels[MakeKey(port, chan)].chan == chan
  {
    EveryRunOk(chainId, ops);
    PortsColonFree(chainId, ops);
    var channels := DoAll(chainId, ops).channels;
    var key := MakeKey(port, chan);
    if key in channels {
      assert ChannelOk(chainId, key, channels[key]);
      ColonFreeFirst(port, chan, channels[key].port, channels[key].chan);
    }
  }

  lemma {:induction false} PortsColonFree(chainId: string, ops: seq<Op>)
    requires forall i :: 0 <= i < |ops| ==> ':' !in PortOf(ops[i])
    ensures forall key :: key in DoAll(chainId, ops).channels ==> ':' !in DoAll(chainId, ops).channels[key].port
  {
    if ops != [] {
      PortsColonFree(chainId, ops[..|ops| - 1]);
      PortsKept(DoAll(chainId, ops[..|ops| - 1]), ops[|ops| - 1]);
    }
  }

  /** An operation makes no channel but one of its own port. */
  lemma PortsKept(s: ChainState, op: Op)
    ensures var t := Do(s, op);
            forall key :: key in t.channels ==>
              t.channels[key].port == if key in s.channels then s.channels[key].port else PortOf(op)
  {
    match op
    case OpOpen(port, chan) => EnsureKeepsPorts(s.(bindings := BindKey(s.bindings, (port, chan)).0), port, chan);
    case OpClose(_, _) =>
    case OpSend(port, chan, _, _, _, _) => EnsureKeepsPorts(s, port, chan);
    case OpReceive(p) => EnsureKeepsPorts(s, p.dstPort, p.dstChannel);
  }

  lemma EnsureKeepsPorts(s: ChainState, port: string, chan: string)
    ensures var t := Ensure(s, port, chan).0;
            && MakeKey(port, chan) in t.channels
            && forall key :: key in t.channels ==>
                 t.channels[key].port == if key in s.channels then s.channels[key].port else port
  {
  }

  // ---------------------------------------------------------------- the class

  class Blockchain<H(==)> {
    const chainId: string
    const bus: EventBus<H>
    const router: IBCRouter
    var channels: map<string, IBCChannel>

    ghost predicate Valid()
      reads this
    {
      forall k, l :: k in channels && l in channels && k != l ==> channels[k] != channels[l]
    }

    ghost function View(): ChainState
      reads this, router, channels.Values
    {
      ChainState(chainId, router.bindings, map k | k in channels :: channels[k].View())
    }

    constructor (chainId: string, bus: EventBus<H>)
      ensures Valid() && View() == Genesis(chainId)
      ensures fresh(router) && this.bus == bus
    {
      this.chainId, this.bus := chainId, bus;
      router := new IBCRouter();
      channels := map[];
    }

    method GetOrCreateChannel(port: string, chan: string) returns (channel: IBCChannel)
      requires Valid()
      modifies this`channels
      ensures Valid() && View() == GetOrCreate(old(View()), port, chan)
      ensures MakeKey(port, chan) in channels && channel == channels[MakeKey(port, chan)]
      ensures fresh(channels.Values - old(channels.Values))
    {
      var key := MakeKey(port, chan);
      if key in channels {
        return channels[key];
      }
      channel := new IBCChannel(chainId, port, chan);
      channels := channels[key := channel];
    }

    /** A call on one channel changes that channel's entry of the view and no other. */
    method CallOpen(key: string) returns (code: ErrorCode)
      requires Valid() && key in channels
      modifies channels[key]
      ensures var (c, r) := OpenChannel(old(View()).channels[key]);
              View() == old(View()).(channels := old(View()).channels[key := c]) && code == r
    {
      code := channels[key].OpenIt();
      assert View().channels == old(View()).channels[key := channels[key].View()];
    }

    method CallMake(key: string, dstChain: string, dstPort: string, dstChan: string, payload: string)
      returns (made: Option<Packet>)
      requires Valid() && key in channels
      modifies channels[key]
      ensures var (c, r) := MakePacket(old(View()).channels[key], dstChain, dstPort, dstChan, payload);
              View() == old(View()).(channels := old(View()).channels[key := c]) && made == r
    {
      made := channels[key].Make(dstChain, dstPort, dstChan, payload);
      assert View().channels == old(View()).channels[key := channels[key].View()];
    }

    method CallAccept(key: string, p: Packet) returns (code: ErrorCode)
      requires Valid() && key in channels
      modifies channels[key]
      ensures var (c, r) := AcceptPacket(old(View()).channels[key], p);
              View() == old(View()).(channels := old(View()).channels[key := c]) && code == r
    {
      code := channels[key].Accept(p);
      assert View().channels == old(View()).channels[key := channels[key].View()];
    }

    /** The two calls every operation starts with. */
    method EnsureOpen(port: string, chan: string) returns (code: ErrorCode)
      requires Valid()
      modifies this`channels, channels.Values
      ensures Valid() && (View(), code) == Ensure(old(View()), port, chan)
      ensures MakeKey(port, chan) in channels
      ensures fresh(channels.Values - old(channels.Values))
    {
      var channel := GetOrCreateChannel(port, chan);
      code := CallOpen(MakeKey(port, chan));
      if code == InvalidState {
        code := Ok;
      }
    }

    method OpenPort(port: string, chan: string) returns (code: ErrorCode)
      requires Valid()
      modifies this`channels, router, channels.Values
      ensures Valid() && (View(), code) == OpenOn(old(View()), port, chan)
      ensures fresh(channels.Values - old(channels.Values))
    {
      code := router.Bind(port, chan);
      assert View().channels == old(View()).channels;
      if code != Ok {
        return;
      }
      code := EnsureOpen(port, chan);
    }

    method ClosePort(port: string, chan: string) returns (code: ErrorCode)
      requires Valid()
      modifies router
      ensures Valid() && (View(), code) == CloseOn(old(View()), port, chan)
    {
      code := router.Unbind(port, chan);
      assert View().channels == old(View()).channels;
    }

    method MakeOnChannel(port: string, chan: string, dstChain: string, dstPort: string, dstChan: string,
        payload: string)
      returns (made: Option<Packet>)
      requires Valid()
      modifies this`channels, channels.Values
      ensures Valid() && (View(), made) == Send(old(View()), port, chan, dstChain, dstPort, dstChan, payload)
      ensures fresh(channels.Values - old(channels.Values))
    {
      var code := EnsureOpen(port, chan);
      if code != Ok {
        return None;
      }
      made := CallMake(MakeKey(port, chan), dstChain, dstPort, dstChan, payload);
    }

    method SendIBC(port: string, chan: string, dstChain: string, dstPort: string, dstChan: string, payload: string)
      returns (made: Option<Packet>)
      requires Valid()
      modifies this`channels, channels.Values, bus`calls
      ensures Valid() && (View(), made) == Send(old(View()), port, chan, dstChain, dstPort, dstChan, payload)
      ensures bus.calls == old(bus.calls) + Published(bus.subs, SendEvents(chainId, made))
      ensures bus.calls == old(bus.calls) +
                if made == None then []
                else CallsOn(bus.subs, Event(IBCPacketSend, chainId, Codec.Serialize(made.value)))
      ensures fresh(channels.Values - old(channels.Values))
    {
      made := MakeOnChannel(port, chan, dstChain, dstPort, dstChan, payload);
      ghost var after := View();
      if made.Some? {
        PublishSent(made.value);
      }
      assert View().channels == after.channels;
    }

    method PublishSent(p: Packet)
      modifies bus`calls
      ensures bus.calls == old(bus.calls) + Published(bus.subs, SendEvents(chainId, Some(p)))
      ensures bus.calls == old(bus.calls) + CallsOn(bus.subs, Event(IBCPacketSend, chainId, Codec.Serialize(p)))
    {
      var e := Event(IBCPacketSend, chainId, Codec.Serialize(p));
      PublishedOne(bus.subs, e);
      bus.Publish(e);
    }

    method AcceptOnChannel(p: Packet) returns (code: ErrorCode)
      requires Valid()
      modifies this`channels, channels.Values
      ensures Valid() && (View(), code) == Receive(old(View()), p)
      ensures fresh(channels.Values - old(channels.Values))
    {
      code := EnsureOpen(p.dstPort, p.dstChannel);
      if code != Ok {
        return;
      }
      code := CallAccept(MakeKey(p.dstPort, p.dstChannel), p);
    }

    method OnIBCPacket(p: Packet) returns (code: ErrorCode)
      requires Valid()
      modifies this`channels, channels.Values, bus`calls
      ensures Valid() && (View(), code) == Receive(old(View()), p)
      ensures bus.calls == old(bus.calls) + Published(bus.subs, ReceiveEvents(chainId, p, code))
      ensures bus.calls == old(bus.calls) + if code == Ok then ReceiptCalls(bus.subs, chainId, p) else []
      ensures fresh(channels.Values - old(channels.Values))
    {
      code := AcceptOnChannel(p);
      ghost var after := View();
      if code == Ok {
        PublishAccepted(p);
      }
      assert View().channels == after.channels;
    }

    method PublishAccepted(p: Packet)
      modifies bus`calls
      ensures bus.calls == old(bus.calls) + Published(bus.subs, ReceiveEvents(chainId, p, Ok))
      ensures bus.calls == old(bus.calls) + ReceiptCalls(bus.subs, chainId, p)
    {
      var received := Event(IBCPacketRecv, chainId, "IBC packet received");
      var acked := Event(IBCAckSend, chainId, Codec.Serialize(AckFor(p)));
      PublishedTwo(bus.subs, received, acked);
      bus.Publish(received);
      bus.Publish(acked);
    }

    method OnIBCAck(ack: Packet)
      modifies bus`calls
      ensures bus.calls == old(bus.calls) + CallsOn(bus.subs, Event(IBCAckRecv, chainId, "IBC ack received"))
    {
      var e := Event(IBCAckRecv, chainId, "IBC ack received");
      bus.Publish(e);
    }
  }

  lemma PublishedTwo<H>(subs: Subscriptions<H>, e: Event, f: Event)
    ensures Published(subs, [e, f]) ==
            CallsOn(subs, e) + CallsOn(subs, f)
  {
    assert [e, f][1..] == [f];
    PublishedOne(subs, f);
  }

  lemma PublishedOne<H>(subs: Subscriptions<H>, e: Event)
    ensures Published(subs, [e]) == CallsOn(subs, e)
  {
    assert [e][1..] == [];
  }
}
