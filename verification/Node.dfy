/** The receiving end, core/Node.cpp: bytes from the transport are unwrapped into the inbox, and the loop
    hands packets and acknowledgements to the chain. */
module Node {
  import opened Basics
  import opened Blockchain
  import opened ConcurrentQueue
  import opened Envelope
  import opened EventBus
  import Codec

  /** onBytes: what is no envelope, and what a closed inbox refuses, is thrown away. */
  function OnBytes(inbox: Queue<NodeMessage>, bytes: string): Queue<NodeMessage> {
    match Unwrap(bytes)
    case None => inbox
    case Some(m) => Push(inbox, m)
  }

  /** What one message does to the chain: only Data packets change it. */
  function Process(s: ChainState, m: NodeMessage): ChainState {
    if m.kind != IBC then s
    else match Codec.Deserialize(m.bytes)
      case None => s
      case Some(p) => if p.kind == DATA then Receive(s, p).0 else s
  }

  /** The events a message makes the chain publish. */
  function ProcessEvents(s: ChainState, m: NodeMessage): seq<Event> {
    if m.kind != IBC then []
    else match Codec.Deserialize(m.bytes)
      case None => []
      case Some(p) =>
        if p.kind == DATA then ReceiveEvents(s.chainId, p, Receive(s, p).1)
        else if p.kind == ACK then [Event(IBCAckRecv, s.chainId, "IBC ack received")]
        else []
  }

  /** The message is an IBC message and its bytes are those of p. */
  predicate Carries(m: NodeMessage, p: Packet) {
    m.kind == IBC && Codec.Deserialize(m.bytes) == Some(p)
  }

  class NodeImpl<H(==)> {
    const chain: Blockchain<H>
    const inbox: ConcurrentQueue<NodeMessage>

    constructor (chain: Blockchain<H>)
      ensures this.chain == chain && inbox.View() == EmptyQueue() && fresh(inbox)
    {
      this.chain := chain;
      inbox := new ConcurrentQueue();
    }

    method OnBytesFromTransport(bytes: string)
      modifies inbox
      ensures inbox.View() == OnBytes(old(inbox.View()), bytes)
      ensures forall m :: Unwrap(bytes) == Some(m) && !inbox.closed ==> inbox.items == old(inbox.items) + [m]
      ensures Unwrap(bytes) == None || inbox.closed ==> inbox.items == old(inbox.items)
      ensures inbox.closed == old(inbox.closed)
    {
      var m := Unwrap(bytes);
      if m.Some? {
        var _ := inbox.PushItem(m.value);
      }
    }

    /** One turn of runLoop, once waitPop has something to return. */
    method RunTurn()
      requires chain.Valid() && inbox.items != []
      modifies inbox, chain`channels, chain.channels.Values, chain.bus`calls
      ensures chain.Valid()
      ensures inbox.View() == Pop(old(inbox.View())).0
      ensures chain.View() == Process(old(chain.View()), old(inbox.items[0]))
      ensures chain.bus.calls ==
              old(chain.bus.calls) + Published(chain.bus.subs, ProcessEvents(old(chain.View()), old(inbox.items[0])))
      ensures forall p :: Carries(old(inbox.items[0]), p) && p.kind == ACK ==>
                && chain.View() == old(chain.View())
                && chain.bus.calls ==
                   old(chain.bus.calls) + CallsOn(chain.bus.subs, Event(IBCAckRecv, chain.chainId, "IBC ack received"))
      ensures forall p :: Carries(old(inbox.items[0]), p) && p.kind == DATA ==>
                var (after, code) := Receive(old(chain.View()), p);
                && chain.View() == after
                && chain.bus.calls ==
                   old(chain.bus.calls) + if code == Ok then ReceiptCalls(chain.bus.subs, chain.chainId, p) else []
      ensures (forall p :: Carries(old(inbox.items[0]), p) ==> p.kind != DATA && p.kind != ACK) ==>
                chain.View() == old(chain.View()) && chain.bus.calls == old(chain.bus.calls)
    {
      var m := inbox.TryPop();
      ghost var before := chain.View();
      assert before.channels == old(chain.View()).channels;
      HandleMessage(m.value);
    }

    method HandleMessage(m: NodeMessage)
      requires chain.Valid()
      modifies chain`channels, chain.channels.Values, chain.bus`calls
      ensures chain.Valid()
      ensures chain.View() == Process(old(chain.View()), m)
      ensures chain.bus.calls == old(chain.bus.calls) + Published(chain.bus.subs, ProcessEvents(old(chain.View()), m))
      ensures forall p :: Carries(m, p) && p.kind == ACK ==>
                && chain.View() == old(chain.View())
                && chain.bus.calls ==
                   old(chain.bus.calls) + CallsOn(chain.bus.subs, Event(IBCAckRecv, chain.chainId, "IBC ack received"))
      ensures forall p :: Carries(m, p) && p.kind == DATA ==>
                var (after, code) := Receive(old(chain.View()), p);
                && chain.View() == after
                && chain.bus.calls ==
                   old(chain.bus.calls) + if code == Ok then ReceiptCalls(chain.bus.subs, chain.chainId, p) else []
      ensures (forall p :: Carries(m, p) ==> p.kind != DATA && p.kind != ACK) ==>
                chain.View() == old(chain.View()) && chain.bus.calls == old(chain.bus.calls)
    {
      if m.kind == IBC {
        var parsed := Codec.Deserialize(m.bytes);
        if parsed.Some? {
          if parsed.value.kind == DATA {
            var code := chain.OnIBCPacket(parsed.value);
          } else if parsed.value.kind == ACK {
            chain.OnIBCAck(parsed.value);
            PublishedOne(chain.bus.subs, Event(IBCAckRecv, chain.chainId, "IBC ack received"));
            assert chain.View().channels == old(chain.View()).channels;
          }
        }
      }
    }
  }
}
