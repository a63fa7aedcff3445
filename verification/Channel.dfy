/** The ordered channel of ibc/IBCChannel.cpp.  Channel values carry, beside the two fields of
    IBCChannelImpl, the history of the packets the channel issued and accepted. */
module Channel {
  import opened Basics

  datatype ChannelState = Init | Open | Closed

  datatype Entry = Issued(packet: Packet) | Accepted(packet: Packet)

  datatype Channel = Channel(chainId: string, port: string, chan: string,
                             state: ChannelState, nextSeq: Uint64, log: seq<Entry>)

  function NewChannel(chainId: string, port: string, chan: string): Channel {
    Channel(chainId, port, chan, Init, 1, [])
  }

  function OpenChannel(c: Channel): (Channel, ErrorCode) {
    match c.state
    case Closed => (c, ChannelClosed)
    case Open => (c, InvalidState)
    case Init => (c.(state := Open), Ok)
  }

  function CloseChannel(c: Channel): (Channel, ErrorCode) {
    if c.state == Closed then (c, ChannelClosed) else (c.(state := Closed), Ok)
  }

  function NextPacket(c: Channel, dstChain: string, dstPort: string, dstChan: string, payload: string): Packet {
    Packet(DATA, c.chainId, dstChain, c.port, c.chan, dstPort, dstChan, c.nextSeq, payload)
  }

  /** makePacket: None stands for the status InvalidState. */
  function MakePacket(c: Channel, dstChain: string, dstPort: string, dstChan: string, payload: string)
    : (Channel, Option<Packet>)
  {
    if c.state != Open then (c, None)
    else
      var p := NextPacket(c, dstChain, dstPort, dstChan, payload);
      (c.(nextSeq := Increment(c.nextSeq), log := c.log + [Issued(p)]), Some(p))
  }

  function AcceptPacket(c: Channel, p: Packet): (Channel, ErrorCode) {
    if c.state != Open then (c, ChannelClosed)
    else if p.sequence != c.nextSeq then (c, InvalidState)
    else (c.(nextSeq := Increment(c.nextSeq), log := c.log + [Accepted(p)]), Ok)
  }

  /** Sending and receiving share one counter: until it wraps, entry i of the history carries number
      i + 1, so the numbers issued or accepted are exactly 1 .. nextSeq - 1, each once. */
  ghost predicate Numbered(c: Channel) {
    |c.log| < MAX64 ==>
      && c.nextSeq == |c.log| + 1
      && forall i :: 0 <= i < |c.log| ==> c.log[i].packet.sequence == i + 1
  }

  lemma NumberedKept(c: Channel, p: Packet, dstChain: string, dstPort: string, dstChan: string, payload: string)
    requires Numbered(c)
    ensures Numbered(NewChannel(c.chainId, c.port, c.chan))
    ensures Numbered(OpenChannel(c).0) && Numbered(CloseChannel(c).0)
    ensures Numbered(MakePacket(c, dstChain, dstPort, dstChan, payload).0)
    ensures Numbered(AcceptPacket(c, p).0)
  {
  }

  /** Once closed, a channel refuses everything and stays as it is. */
  lemma ClosedIsFinal(c: Channel, p: Packet, dstChain: string, dstPort: string, dstChan: string, payload: string)
    requires c.state == Closed
    ensures OpenChannel(c) == (c, ChannelClosed) && CloseChannel(c) == (c, ChannelClosed)
    ensures MakePacket(c, dstChain, dstPort, dstChan, payload) == (c, None)
    ensures AcceptPacket(c, p) == (c, ChannelClosed)
  {
  }

  class IBCChannel {
    const chainId: string
    const port: string
    const chan: string
    var state: ChannelState
    var nextSeq: Uint64
    ghost var log: seq<Entry>

    ghost function View(): Channel
      reads this
    {
      Channel(chainId, port, chan, state, nextSeq, log)
    }

    constructor (chainId: string, port: string, chan: string)
      ensures View() == NewChannel(chainId, port, chan)
      ensures state == Init && nextSeq == 1 && log == []
    {
      this.chainId, this.port, this.chan := chainId, port, chan;
      state, nextSeq, log := Init, 1, [];
    }

    method OpenIt() returns (code: ErrorCode)
      modifies this
      ensures (View(), code) == OpenChannel(old(View()))
      ensures code == match old(state) case Init => Ok case Open => InvalidState case Closed => ChannelClosed
      ensures state == (if old(state) == Init then Open else old(state)) && nextSeq == old(nextSeq) && log == old(log)
    {
      if state == Closed {
        return ChannelClosed;
      }
      if state == Open {
        return InvalidState;
      }
      state := Open;
      return Ok;
    }

    method CloseIt() returns (code: ErrorCode)
      modifies this
      ensures (View(), code) == CloseChannel(old(View()))
      ensures code == if old(state) == Closed then ChannelClosed else Ok
      ensures state == Closed && nextSeq == old(nextSeq) && log == old(log)
    {
      if state == Closed {
        return ChannelClosed;
      }
      state := Closed;
      return Ok;
    }

    method Make(dstChain: string, dstPort: string, dstChan: string, payload: string) returns (r: Option<Packet>)
      modifies this
      ensures (View(), r) == MakePacket(old(View()), dstChain, dstPort, dstChan, payload)
      ensures old(state) != Open ==> r == None && View() == old(View())
      ensures old(state) == Open ==>
                && r == Some(Packet(DATA, chainId, dstChain, port, chan, dstPort, dstChan, old(nextSeq), payload))
                && log == old(log) + [Issued(r.value)] && state == Open
                && nextSeq == (old(nextSeq) + 1) % 0x1_0000_0000_0000_0000
    {
      if state != Open {
        return None;
      }
      var p := Packet(DATA, chainId, dstChain, port, chan, dstPort, dstChan, nextSeq, payload);
      nextSeq := Increment(nextSeq);
      log := log + [Issued(p)];
      return Some(p);
    }

    method Accept(p: Packet) returns (code: ErrorCode)
      modifies this
      ensures (View(), code) == AcceptPacket(old(View()), p)
      ensures code ==
              if old(state) != Open then ChannelClosed else if p.sequence != old(nextSeq) then InvalidState else Ok
      ensures code != Ok ==> View() == old(View())
      ensures code == Ok ==>
                && log == old(log) + [Accepted(p)] && state == Open
                && nextSeq == (old(nextSeq) + 1) % 0x1_0000_0000_0000_0000
    {
      if state != Open {
        return ChannelClosed;
      }
      if p.sequence != nextSeq {
        return InvalidState;
      }
      nextSeq := Increment(nextSeq);
      log := log + [Accepted(p)];
      return Ok;
    }
  }
}
