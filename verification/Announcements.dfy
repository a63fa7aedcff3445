/** The events on the bus, over whole runs: every acknowledgement a node takes up is announced once by its
    chain, and every packet a chain accepts is announced once as received and once as acknowledged. */
module Announcements {
  import opened Basics
  import opened Blockchain
  import opened Envelope
  import opened EventBus
  import opened Protocol
  import opened WireProtocol
  import Codec
  import ConcurrentQueue
  import Node

  /** How many events of a kind a chain has announced. */
  function Announced(events: seq<Event>, kind: EventKind, chain: string): nat {
    if events == [] then 0
    else
      var e := events[|events| - 1];
      Announced(events[..|events| - 1], kind, chain) + if e.kind == kind && e.chainId == chain then 1 else 0
  }

  lemma AnnouncedLast(events: seq<Event>, e: Event, kind: EventKind, chain: string)
    ensures Announced(events + [e], kind, chain) ==
            Announced(events, kind, chain) + if e.kind == kind && e.chainId == chain then 1 else 0
  {
    assert (events + [e])[..|events|] == events;
  }

  lemma AnnouncedTwo(events: seq<Event>, e: Event, f: Event, kind: EventKind, chain: string)
    ensures Announced(events + [e, f], kind, chain) ==
            Announced(events, kind, chain) + (if e.kind == kind && e.chainId == chain then 1 else 0)
            + (if f.kind == kind && f.chainId == chain then 1 else 0)
  {
    assert events + [e, f] == events + [e] + [f];
    AnnouncedLast(events + [e], f, kind, chain);
    AnnouncedLast(events, e, kind, chain);
  }

  /** The message is a serialized packet of this kind, taken up at a node of the chain. */
  predicate TakenUp(cfg: Config, h: (string, NodeMessage), kind: int, chain: string) {
    && h.0 in cfg.nodes && cfg.nodes[h.0] == chain && h.1.kind == IBC
    && Codec.Deserialize(h.1.bytes).Some? && Codec.Deserialize(h.1.bytes).value.kind == kind
  }

  /** How many packets of a kind the nodes of a chain have taken up. */
  function Turns(cfg: Config, handled: seq<(string, NodeMessage)>, kind: int, chain: string): nat {
    if handled == [] then 0
    else
      Turns(cfg, handled[..|handled| - 1], kind, chain) +
      if TakenUp(cfg, handled[|handled| - 1], kind, chain) then 1 else 0
  }

  lemma TurnsLast(cfg: Config, handled: seq<(string, NodeMessage)>, h: (string, NodeMessage), kind: int, chain: string)
    ensures Turns(cfg, handled + [h], kind, chain) ==
            Turns(cfg, handled, kind, chain) + if TakenUp(cfg, h, kind, chain) then 1 else 0
  {
    assert (handled + [h])[..|handled|] == handled;
  }

  /** Publishing announces just the events published, and touches no chain, inbox or history of messages. */
  lemma {:induction false} PublishingAnnounces(w: WireSys, events: seq<Event>)
    ensures var t := PublishEvents(w, events);
            t.announced == w.announced + events && t.chains == w.chains && t.handled == w.handled
    decreases |events|
  {
    if events != [] {
      PublishingAnnounces(PublishEvent(w, events[0]), events[1..]);
      assert w.announced + [events[0]] + events[1..] == w.announced + events;
    }
  }

  /** The chains are sound and keep their names. */
  ghost predicate Named(cfg: Config, w: WireSys) {
    w.chains.Keys == cfg.chains && forall c :: c in w.chains ==> w.chains[c].chainId == c && ChainOk(w.chains[c])
  }

  /** The step is a turn of one of the chain's nodes over a packet that carries its channel's number. */
  ghost predicate Accepts(cfg: Config, w: WireSys, l: Label, chain: string) {
    && l.Handle? && l.address in w.inboxes && w.inboxes[l.address].items != [] && chain in w.chains
    && var m := w.inboxes[l.address].items[0];
       && TakenUp(cfg, (l.address, m), DATA, chain)
       && var p := Codec.Deserialize(m.bytes).value;
          p.sequence == NextNumber(w.chains[chain], p.dstPort, p.dstChannel)
  }

  /** In how many steps of a run the chain accepted a packet. */
  ghost function Acceptances(cfg: Config, labels: seq<Label>, chain: string): nat {
    if labels == [] then 0
    else
      var before, l := labels[..|labels| - 1], labels[|labels| - 1];
      Acceptances(cfg, before, chain) + if Accepts(cfg, WireRun(cfg, before), l, chain) then 1 else 0
  }

  /** The accounts of one chain: acknowledgements taken up are announced, and each acceptance is announced
      as a receipt and as an acknowledgement. */
  ghost predicate Accounted(cfg: Config, w: WireSys, chain: string, acceptances: nat) {
    && Announced(w.announced, IBCAckRecv, chain) == Turns(cfg, w.handled, ACK, chain)
    && Announced(w.announced, IBCPacketRecv, chain) == acceptances
    && Announced(w.announced, IBCAckSend, chain) == acceptances
  }

  lemma SendAnnounces(cfg: Config, w: WireSys, l: Label, chain: string, n: nat)
    requires l.SendPacket? && Named(cfg, w) && Accounted(cfg, w, chain, n)
    ensures Named(cfg, WireSend(w, l)) && Accounted(cfg, WireSend(w, l), chain, n)
  {
    if l.chain in w.chains {
      var (c, made) := Send(w.chains[l.chain], l.port, l.chan, l.dstChain, l.dstPort, l.dstChan, l.payload);
      var w1 := w.(chains := w.chains[l.chain := c]);
      var events := SendEvents(l.chain, made);
      SendOk(w.chains[l.chain], l.port, l.chan, l.dstChain, l.dstPort, l.dstChan, l.payload);
      ReplacedIsNamed(cfg, w, l.chain, c);
      PublishingAnnounces(w1, events);
      AnnouncedLast(w.announced, events[0], IBCAckRecv, chain);
      AnnouncedLast(w.announced, events[0], IBCPacketRecv, chain);
      AnnouncedLast(w.announced, events[0], IBCAckSend, chain);
    }
  }

  function One(b: bool): nat {
    if b then 1 else 0
  }

  /** What the events of one turn add to the announcements. */
  lemma ProcessAnnounces(before: seq<Event>, c: ChainState, m: NodeMessage, chain: string)
    requires ChainOk(c)
    ensures var after := before + Node.ProcessEvents(c, m);
            var parsed := if m.kind == IBC then Codec.Deserialize(m.bytes) else None;
            var ack := parsed.Some? && parsed.value.kind == ACK && c.chainId == chain;
            var accepted :=
              && parsed.Some? && parsed.value.kind == DATA && c.chainId == chain
              && parsed.value.sequence == NextNumber(c, parsed.value.dstPort, parsed.value.dstChannel);
            && Announced(after, IBCAckRecv, chain) == Announced(before, IBCAckRecv, chain) + One(ack)
            && Announced(after, IBCPacketRecv, chain) == Announced(before, IBCPacketRecv, chain) + One(accepted)
            && Announced(after, IBCAckSend, chain) == Announced(before, IBCAckSend, chain) + One(accepted)
  {
    var events := Node.ProcessEvents(c, m);
    if m.kind == IBC && Codec.Deserialize(m.bytes).Some? {
      ReceiveOk(c, Codec.Deserialize(m.bytes).value);
    }
    FewAnnounced(before, events, IBCAckRecv, chain);
    FewAnnounced(before, events, IBCPacketRecv, chain);
    FewAnnounced(before, events, IBCAckSend, chain);
  }

  lemma FewAnnounced(before: seq<Event>, events: seq<Event>, kind: EventKind, chain: string)
    requires |events| <= 2
    ensures Announced(before + events, kind, chain) ==
            Announced(before, kind, chain)
            + One(|events| > 0 && events[0].kind == kind && events[0].chainId == chain)
            + One(|events| > 1 && events[1].kind == kind && events[1].chainId == chain)
  {
    if events == [] {
      assert before + events == before;
    } else if |events| == 1 {
      assert events == [events[0]];
      AnnouncedLast(before, events[0], kind, chain);
    } else {
      assert events == [events[0], events[1]];
      AnnouncedTwo(before, events[0], events[1], kind, chain);
    }
  }

  lemma ProcessKeepsNames(cfg: Config, w: WireSys, home: string, m: NodeMessage)
    requires Named(cfg, w) && home in w.chains
    ensures Named(cfg, w.(chains := w.chains[home := Node.Process(w.chains[home], m)]))
  {
    if m.kind == IBC && Codec.Deserialize(m.bytes).Some? {
      ReceiveOk(w.chains[home], Codec.Deserialize(m.bytes).value);
    }
  }

  lemma HandleAnnounces(cfg: Config, w: WireSys, l: Label, chain: string, n: nat)
    requires l.Handle? && WellWired(cfg) && Named(cfg, w) && Accounted(cfg, w, chain, n) && chain in cfg.chains
    ensures var t := WireHandle(cfg, w, l.address);
            Named(cfg, t) && Accounted(cfg, t, chain, n + One(Accepts(cfg, w, l, chain)))
  {
    var a := l.address;
    if a in w.inboxes && a in cfg.nodes && w.inboxes[a].items != [] {
      var (q, item) := ConcurrentQueue.Pop(w.inboxes[a]);
      var w1 := w.(inboxes := w.inboxes[a := q], handled := w.handled + [(a, item.value)]);
      TurnAnnounces(cfg, w1, cfg.nodes[a], item.value);
      TurnIsAccounted(cfg, w, WireHandle(cfg, w, a), l, chain, n);
    }
  }

  lemma TurnIsAccounted(cfg: Config, w: WireSys, t: WireSys, l: Label, chain: string, n: nat)
    requires Named(cfg, w) && Accounted(cfg, w, chain, n) && chain in w.chains
    requires l.Handle? && l.address in cfg.nodes && cfg.nodes[l.address] in w.chains
    requires l.address in w.inboxes && w.inboxes[l.address].items != []
    requires t.announced ==
             w.announced + Node.ProcessEvents(w.chains[cfg.nodes[l.address]], w.inboxes[l.address].items[0])
    requires t.handled == w.handled + [(l.address, w.inboxes[l.address].items[0])]
    ensures Accounted(cfg, t, chain, n + One(Accepts(cfg, w, l, chain)))
  {
    TurnCounts(cfg, w, l.address, w.inboxes[l.address].items[0], chain);
  }

  /** What a turn over m at address a adds to the counts of a chain. */
  lemma TurnCounts(cfg: Config, w: WireSys, a: string, m: NodeMessage, chain: string)
    requires Named(cfg, w) && a in cfg.nodes && cfg.nodes[a] in w.chains && chain in w.chains
    ensures var after := w.announced + Node.ProcessEvents(w.chains[cfg.nodes[a]], m);
            var accepted :=
              && TakenUp(cfg, (a, m), DATA, chain)
              && var p := Codec.Deserialize(m.bytes).value;
                 p.sequence == NextNumber(w.chains[chain], p.dstPort, p.dstChannel);
            && Announced(after, IBCAckRecv, chain) - Announced(w.announced, IBCAckRecv, chain) ==
               Turns(cfg, w.handled + [(a, m)], ACK, chain) - Turns(cfg, w.handled, ACK, chain)
            && Announced(after, IBCPacketRecv, chain) == Announced(w.announced, IBCPacketRecv, chain) + One(accepted)
            && Announced(after, IBCAckSend, chain) == Announced(w.announced, IBCAckSend, chain) + One(accepted)
  {
    ProcessAnnounces(w.announced, w.chains[cfg.nodes[a]], m, chain);
    TurnsLast(cfg, w.handled, (a, m), ACK, chain);
  }

  lemma TurnAnnounces(cfg: Config, w: WireSys, home: string, m: NodeMessage)
    requires Named(cfg, w) && home in w.chains
    ensures var t := WireProcess(w, home, m);
            && Named(cfg, t) && t.handled == w.handled
            && t.announced == w.announced + Node.ProcessEvents(w.chains[home], m)
  {
    ProcessKeepsNames(cfg, w, home, m);
    PublishingAnnounces(w.(chains := w.chains[home := Node.Process(w.chains[home], m)]),
                        Node.ProcessEvents(w.chains[home], m));
  }

  lemma PortsAnnounceNothing(cfg: Config, w: WireSys, l: Label)
    requires (l.OpenPort? || l.ClosePort?) && Named(cfg, w)
    ensures WireNext(cfg, w, l).announced == w.announced && WireNext(cfg, w, l).handled == w.handled
    ensures Named(cfg, WireNext(cfg, w, l))
  {
    if l.chain in w.chains {
      if l.OpenPort? {
        OpenOnOk(w.chains[l.chain], l.port, l.chan);
        ReplacedIsNamed(cfg, w, l.chain, OpenOn(w.chains[l.chain], l.port, l.chan).0);
      } else {
        CloseOnOk(w.chains[l.chain], l.port, l.chan);
        ReplacedIsNamed(cfg, w, l.chain, CloseOn(w.chains[l.chain], l.port, l.chan).0);
      }
    }
  }

  lemma ReplacedIsNamed(cfg: Config, w: WireSys, chain: string, c: ChainState)
    requires Named(cfg, w) && chain in w.chains && c.chainId == chain && ChainOk(c)
    ensures Named(cfg, w.(chains := w.chains[chain := c]))
  {
  }

  lemma OthersAnnounceNothing(cfg: Config, w: WireSys, l: Label)
    requires !l.SendPacket? && !l.Handle? && !l.OpenPort? && !l.ClosePort?
    ensures var t := WireNext(cfg, w, l);
            t.announced == w.announced && t.handled == w.handled && t.chains == w.chains
  {
    if l.FinishRelay? {
      FinishAnnouncesNothing(cfg, w, l.name, l.lucky);
    }
  }

  lemma FinishAnnouncesNothing(cfg: Config, w: WireSys, name: string, lucky: bool)
    ensures var t := WireFinish(cfg, w, name, lucky);
            t.announced == w.announced && t.handled == w.handled && t.chains == w.chains
  {
  }

  lemma NextAnnounces(cfg: Config, w: WireSys, l: Label, chain: string, n: nat)
    requires WellWired(cfg) && Named(cfg, w) && Accounted(cfg, w, chain, n) && chain in cfg.chains
    ensures Named(cfg, WireNext(cfg, w, l))
    ensures Accounted(cfg, WireNext(cfg, w, l), chain, n + One(Accepts(cfg, w, l, chain)))
  {
    if l.SendPacket? {
      SendAnnounces(cfg, w, l, chain, n);
    } else if l.Handle? {
      HandleAnnounces(cfg, w, l, chain, n);
    } else if l.OpenPort? || l.ClosePort? {
      PortsAnnounceNothing(cfg, w, l);
    } else {
      OthersAnnounceNothing(cfg, w, l);
    }
  }

  /** In every run, and for every chain: the receipts of acknowledgements it announces are as many as the
      acknowledgements its nodes took up; and the receipts of packets, and the acknowledgements, are as many
      as the packets it accepted. */
  lemma {:induction false} EveryRunIsAnnounced(cfg: Config, labels: seq<Label>, chain: string)
    requires WellWired(cfg) && chain in cfg.chains
    ensures Named(cfg, WireRun(cfg, labels))
    ensures Accounted(cfg, WireRun(cfg, labels), chain, Acceptances(cfg, labels, chain))
  {
    if labels != [] {
      var before := labels[..|labels| - 1];
      EveryRunIsAnnounced(cfg, before, chain);
      NextAnnounces(cfg, WireRun(cfg, before), labels[|labels| - 1], chain, Acceptances(cfg, before, chain));
    }
  }
}
