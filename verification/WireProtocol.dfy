/** The protocol with the bytes it really moves: events carry serialized packets, relayers parse them,
    wrap what they relay in an envelope, and nodes take envelope and packet apart again.  Under
    pipe-free relayer names it refines the protocol over whole packets, step by step. */
module WireProtocol {
  import opened Basics
  import opened Blockchain
  import opened ConcurrentQueue
  import opened EventBus
  import opened Envelope
  import opened Protocol
  import opened ProtocolTheorems
  import Codec
  import Node
  import R = Relayer

  datatype Parcel = Parcel(to: string, bytes: string)

  /** As Sys, but with texts and bytes in place of packets, and with a history of all events. */
  datatype WireSys = WireSys(chains: map<string, ChainState>, stations: map<string, Station>, transit: seq<Parcel>,
                             inboxes: map<string, Queue<NodeMessage>>,
                             published: seq<string>, handled: seq<(string, NodeMessage)>, undelivered: seq<Parcel>,
                             announced: seq<Event>)

  function WireInitial(cfg: Config): WireSys {
    WireSys(map c | c in cfg.chains :: Genesis(c), map r | r in cfg.routes :: Station(R.NewRelayer(), []), [],
            map a | a in cfg.nodes :: EmptyQueue(), [], [], [], [])
  }

  /** A relayer's handler for packets being sent; what a closed queue refuses is recorded as dropped. */
  function HearPacket(st: Station, detail: string): Station {
    match Codec.Deserialize(detail)
    case Some(p) =>
      Station(R.OnPacketEvent(st.relayer, detail),
              if p.kind == DATA && st.relayer.packets.closed then st.dropped + [p] else st.dropped)
    case None => st
  }

  /** Its handler for acknowledgements being sent. */
  function HearAck(st: Station, detail: string): Station {
    match Codec.Deserialize(detail)
    case Some(p) =>
      Station(R.OnAckEvent(st.relayer, detail),
              if p.kind == ACK && st.relayer.acks.closed then st.dropped + [p] else st.dropped)
    case None => st
  }

  function HearEvent(st: Station, e: Event): Station {
    if e.kind == IBCPacketSend then HearPacket(st, e.detail)
    else if e.kind == IBCAckSend then HearAck(st, e.detail)
    else st
  }

  /** Relayers subscribe to packets and acknowledgements being sent, and to nothing else. */
  function PublishEvent(w: WireSys, e: Event): WireSys {
    if e.kind != IBCPacketSend && e.kind != IBCAckSend then w.(announced := w.announced + [e])
    else w.(stations := map r | r in w.stations :: HearEvent(w.stations[r], e), published := w.published + [e.detail],
            announced := w.announced + [e])
  }

  function PublishEvents(w: WireSys, events: seq<Event>): WireSys
    decreases |events|
  {
    if events == [] then w else PublishEvents(PublishEvent(w, events[0]), events[1..])
  }

  function WireSend(w: WireSys, l: Label): WireSys
    requires l.SendPacket?
  {
    if l.chain !in w.chains then w
    else
      var (c, made) := Send(w.chains[l.chain], l.port, l.chan, l.dstChain, l.dstPort, l.dstChan, l.payload);
      PublishEvents(w.(chains := w.chains[l.chain := c]), SendEvents(l.chain, made))
  }

  function WireFinish(cfg: Config, w: WireSys, name: string, lucky: bool): WireSys {
    if name !in w.stations || name !in cfg.routes then w
    else
      var st := w.stations[name];
      if !st.relayer.phase.HasPacket? && !st.relayer.phase.HasAck? then w
      else
        var p := st.relayer.phase.packet;
        var routes := cfg.routes[name];
        var sent := lucky && p.dstChain in routes && routes[p.dstChain] in cfg.nodes;
        var relayer :=
          if st.relayer.phase.HasPacket? then R.FinishPacket(st.relayer, sent) else R.FinishAck(st.relayer, sent);
        if sent
        then w.(stations := w.stations[name := Station(relayer, st.dropped)],
                transit := w.transit + [Parcel(routes[p.dstChain], Letter(name, p))])
        else w.(stations := w.stations[name := Station(relayer, st.dropped + [p])])
  }

  /** The transport calls the node's onBytes: bytes that are no envelope are thrown away. */
  function WireDeliver(w: WireSys, at: nat): WireSys {
    if at >= |w.transit| then w
    else
      var x := w.transit[at];
      TakeIn(w.(transit := w.transit[..at] + w.transit[at + 1..]), x)
  }

  function TakeIn(w: WireSys, x: Parcel): WireSys {
    if x.to !in w.inboxes then w.(undelivered := w.undelivered + [x])
    else
      var q := Node.OnBytes(w.inboxes[x.to], x.bytes);
      if q == w.inboxes[x.to] then w.(undelivered := w.undelivered + [x])
      else w.(inboxes := w.inboxes[x.to := q])
  }

  /** The transport finds no handler. */
  function WireLose(w: WireSys, at: nat): WireSys {
    if at >= |w.transit| then w
    else w.(transit := w.transit[..at] + w.transit[at + 1..], undelivered := w.undelivered + [w.transit[at]])
  }

  /** One turn of a node's loop. */
  function WireHandle(cfg: Config, w: WireSys, address: string): WireSys {
    if address !in w.inboxes || address !in cfg.nodes || w.inboxes[address].items == [] then w
    else
      var (q, item) := Pop(w.inboxes[address]);
      WireProcess(w.(inboxes := w.inboxes[address := q], handled := w.handled + [(address, item.value)]),
                  cfg.nodes[address], item.value)
  }

  function WireProcess(w: WireSys, chain: string, m: NodeMessage): WireSys {
    if chain !in w.chains then w
    else PublishEvents(w.(chains := w.chains[chain := Node.Process(w.chains[chain], m)]),
                       Node.ProcessEvents(w.chains[chain], m))
  }

  function OnWireStation(w: WireSys, name: string, f: R.Relayer -> R.Relayer): WireSys {
    if name !in w.stations then w
    else w.(stations := w.stations[name := w.stations[name].(relayer := f(w.stations[name].relayer))])
  }

  function WireNext(cfg: Config, w: WireSys, l: Label): WireSys {
    match l
    case SendPacket(_, _, _, _, _, _, _) => WireSend(w, l)
    case OpenPort(chain, port, chan) =>
      if chain in w.chains then w.(chains := w.chains[chain := OpenOn(w.chains[chain], port, chan).0]) else w
    case ClosePort(chain, port, chan) =>
      if chain in w.chains then w.(chains := w.chains[chain := CloseOn(w.chains[chain], port, chan).0]) else w
    case StartRelayer(name) => OnWireStation(w, name, R.StartLoop)
    case StopRelayer(name) => OnWireStation(w, name, R.StopLoop)
    case BeginRound(name) => OnWireStation(w, name, R.BeginRound)
    case TakePacket(name) => OnWireStation(w, name, R.TakePacket)
    case TakeAck(name) => OnWireStation(w, name, R.TakeAck)
    case FinishRelay(name, lucky) => WireFinish(cfg, w, name, lucky)
    case Deliver(at) => WireDeliver(w, at)
    case Lose(at) => WireLose(w, at)
    case CloseInbox(a) => if a in w.inboxes then w.(inboxes := w.inboxes[a := Close(w.inboxes[a])]) else w
    case Handle(a) => WireHandle(cfg, w, a)
  }

  function WireRun(cfg: Config, labels: seq<Label>): WireSys {
    if labels == [] then WireInitial(cfg)
    else WireNext(cfg, WireRun(cfg, labels[..|labels| - 1]), labels[|labels| - 1])
  }

  // ---------------------------------------------------------------- reading the bytes

  const NONE: Packet := Packet(-1, "", "", "", "", "", "", 0, "")

  function ReadText(text: string): Packet {
    match Codec.Deserialize(text)
    case Some(p) => p
    case None => NONE
  }

  function ReadParcel(x: Parcel): Message {
    match ReadLetter(x.bytes)
    case Some((via, p)) => Message(via, x.to, p)
    case None => Message("", x.to, NONE)
  }

  function ReadMail(address: string, m: NodeMessage): Message {
    Message(m.from, address, ReadText(m.bytes))
  }

  function ReadTexts(texts: seq<string>): seq<Packet> {
    seq(|texts|, i requires 0 <= i < |texts| => ReadText(texts[i]))
  }

  function ReadParcels(xs: seq<Parcel>): seq<Message> {
    seq(|xs|, i requires 0 <= i < |xs| => ReadParcel(xs[i]))
  }

  function ReadMails(address: string, ms: seq<NodeMessage>): seq<Message> {
    seq(|ms|, i requires 0 <= i < |ms| => ReadMail(address, ms[i]))
  }

  function ReadHandled(hs: seq<(string, NodeMessage)>): seq<Message> {
    seq(|hs|, i requires 0 <= i < |hs| => ReadMail(hs[i].0, hs[i].1))
  }

  function ReadQueue(address: string, q: Queue<NodeMessage>): Queue<Message> {
    Queue(ReadMails(address, q.items), q.closed, ReadMails(address, q.pushed), ReadMails(address, q.taken))
  }

  /** The packet-level state behind a byte-level one. */
  function Meaning(w: WireSys): Sys {
    Sys(w.chains, w.stations, ReadParcels(w.transit), map a | a in w.inboxes :: ReadQueue(a, w.inboxes[a]),
        ReadTexts(w.published), ReadHandled(w.handled), ReadParcels(w.undelivered))
  }

  predicate Legible(m: NodeMessage) {
    m.kind == IBC && Codec.Deserialize(m.bytes).Some?
  }

  /** All bytes on the way can be read. */
  ghost predicate AllLegible(w: WireSys) {
    && (forall x :: x in w.transit ==> ReadLetter(x.bytes).Some?)
    && (forall a, m :: a in w.inboxes && m in w.inboxes[a].items ==> Legible(m))
  }

  ghost predicate PipeFree(cfg: Config) {
    forall r :: r in cfg.routes ==> Codec.PIPE !in r
  }

  // ---------------------------------------------------------------- refinement

  lemma PublishRefines(w: WireSys, e: Event, p: Packet)
    requires e.detail == Codec.Serialize(p)
    requires (e.kind == IBCPacketSend && p.kind == DATA) || (e.kind == IBCAckSend && p.kind == ACK)
    ensures Meaning(PublishEvent(w, e)) == Publish(Meaning(w), p)
    ensures AllLegible(w) ==> AllLegible(PublishEvent(w, e))
  {
    Codec.RoundTrip(p);
    var t := PublishEvent(w, e);
    assert t.stations == Publish(Meaning(w), p).stations;
    assert ReadTexts(t.published) == ReadTexts(w.published) + [p];
  }

  lemma PublishOne(w: WireSys, e: Event)
    ensures PublishEvents(w, [e]) == PublishEvent(w, e)
  {
    assert [e][1..] == [];
  }

  lemma PublishTwo(w: WireSys, e: Event, f: Event)
    ensures PublishEvents(w, [e, f]) == PublishEvent(PublishEvent(w, e), f)
  {
    assert [e, f][1..] == [f];
    PublishOne(PublishEvent(w, e), f);
  }

  lemma SentIsData(c: ChainState, l: Label)
    requires l.SendPacket?
    ensures match Send(c, l.port, l.chan, l.dstChain, l.dstPort, l.dstChan, l.payload).1
            case Some(p) => p.kind == DATA
            case None => true
  {
  }

  lemma SendRefines(w: WireSys, l: Label)
    requires l.SendPacket? && AllLegible(w)
    ensures Meaning(WireSend(w, l)) == DoSend(Meaning(w), l) && AllLegible(WireSend(w, l))
  {
    if l.chain in w.chains {
      var (c, made) := Send(w.chains[l.chain], l.port, l.chan, l.dstChain, l.dstPort, l.dstChan, l.payload);
      var w1 := w.(chains := w.chains[l.chain := c]);
      if made.Some? {
        var e := Event(IBCPacketSend, l.chain, Codec.Serialize(made.value));
        SentIsData(w.chains[l.chain], l);
        PublishRefines(w1, e, made.value);
        PublishOne(w1, e);
      }
    }
  }

  /** A node's turn over a legible message: a data packet goes to the chain, and nothing else changes. */
  lemma ProcessRefines(w: WireSys, chain: string, m: NodeMessage)
    requires AllLegible(w) && Legible(m)
    ensures var p := ReadText(m.bytes);
            Meaning(WireProcess(w, chain, m)) == if p.kind == DATA then ReceiveAt(Meaning(w), chain, p) else Meaning(w)
    ensures AllLegible(WireProcess(w, chain, m))
  {
    if chain in w.chains {
      var p := ReadText(m.bytes);
      var c := w.chains[chain];
      if p.kind == DATA {
        ReceiveRefines(w, chain, c.chainId, p);
      } else {
        assert w.chains[chain := c] == w.chains;
        PublishOne(w, Event(IBCAckRecv, c.chainId, "IBC ack received"));
      }
    }
  }

  lemma ReceiveRefines(w: WireSys, chain: string, chainId: string, p: Packet)
    requires AllLegible(w) && chain in w.chains
    ensures var (c, verdict) := Receive(w.chains[chain], p);
            var t := PublishEvents(w.(chains := w.chains[chain := c]), ReceiveEvents(chainId, p, verdict));
            Meaning(t) == ReceiveAt(Meaning(w), chain, p) && AllLegible(t)
  {
    var (c, verdict) := Receive(w.chains[chain], p);
    var w1 := w.(chains := w.chains[chain := c]);
    if verdict == Ok {
      var received := Event(IBCPacketRecv, chainId, "IBC packet received");
      var acked := Event(IBCAckSend, chainId, Codec.Serialize(AckFor(p)));
      PublishRefines(w1, acked, AckFor(p));
      PublishTwo(w1, received, acked);
    }
  }

  lemma FinishRefines(cfg: Config, w: WireSys, name: string, lucky: bool)
    requires AllLegible(w) && PipeFree(cfg)
    ensures Meaning(WireFinish(cfg, w, name, lucky)) == DoFinish(cfg, Meaning(w), name, lucky)
    ensures AllLegible(WireFinish(cfg, w, name, lucky))
  {
    if && name in w.stations && name in cfg.routes
       && (w.stations[name].relayer.phase.HasPacket? || w.stations[name].relayer.phase.HasAck?)
    {
      var p := w.stations[name].relayer.phase.packet;
      var routes := cfg.routes[name];
      if lucky && p.dstChain in routes && routes[p.dstChain] in cfg.nodes {
        ParcelRefines(w, name, routes[p.dstChain], p);
      }
    }
  }

  lemma ParcelAppended(xs: seq<Parcel>, x: Parcel)
    ensures ReadParcels(xs + [x]) == ReadParcels(xs) + [ReadParcel(x)]
  {
  }

  lemma ParcelRefines(w: WireSys, name: string, to: string, p: Packet)
    requires Codec.PIPE !in name
    ensures ReadParcels(w.transit + [Parcel(to, Letter(name, p))]) == ReadParcels(w.transit) + [Message(name, to, p)]
    ensures ReadLetter(Letter(name, p)).Some?
  {
    WirePath(name, p);
    ParcelAppended(w.transit, Parcel(to, Letter(name, p)));
  }

  lemma LetterOpens(bytes: string)
    requires ReadLetter(bytes).Some?
    ensures Unwrap(bytes).Some? && Legible(Unwrap(bytes).value)
    ensures forall to :: ReadMail(to, Unwrap(bytes).value) == ReadParcel(Parcel(to, bytes))
  {
  }

  lemma ParcelRemoved(xs: seq<Parcel>, at: nat)
    requires at < |xs|
    ensures ReadParcels(xs[..at] + xs[at + 1..]) == ReadParcels(xs)[..at] + ReadParcels(xs)[at + 1..]
  {
  }

  lemma InboxRefines(w: WireSys, a: string, q: Queue<NodeMessage>)
    requires a in w.inboxes
    ensures Meaning(w.(inboxes := w.inboxes[a := q])).inboxes == Meaning(w).inboxes[a := ReadQueue(a, q)]
  {
  }

  lemma DeliverRefines(w: WireSys, at: nat)
    requires AllLegible(w)
    ensures Meaning(WireDeliver(w, at)) == DoDeliver(Meaning(w), at) && AllLegible(WireDeliver(w, at))
    ensures Meaning(WireLose(w, at)) == DoLose(Meaning(w), at) && AllLegible(WireLose(w, at))
  {
    if at < |w.transit| {
      var x := w.transit[at];
      assert x in w.transit;
      LetterOpens(x.bytes);
      var m := Unwrap(x.bytes).value;
      ParcelRemoved(w.transit, at);
      ParcelAppended(w.undelivered, x);
      if x.to in w.inboxes && !w.inboxes[x.to].closed {
        PushRefines(x.to, w.inboxes[x.to], m);
        InboxRefines(w, x.to, Push(w.inboxes[x.to], m));
      }
    }
  }

  lemma PushRefines(address: string, q: Queue<NodeMessage>, m: NodeMessage)
    ensures ReadQueue(address, Push(q, m)) == Push(ReadQueue(address, q), ReadMail(address, m))
  {
    assert ReadMails(address, q.items + [m]) == ReadMails(address, q.items) + [ReadMail(address, m)];
    assert ReadMails(address, q.pushed + [m]) == ReadMails(address, q.pushed) + [ReadMail(address, m)];
  }

  lemma PopRefines(address: string, q: Queue<NodeMessage>)
    requires q.items != []
    ensures ReadQueue(address, Pop(q).0) == Pop(ReadQueue(address, q)).0
    ensures Pop(ReadQueue(address, q)).1 == Some(ReadMail(address, q.items[0]))
  {
    assert ReadMails(address, q.items[1..]) == ReadMails(address, q.items)[1..];
    assert ReadMails(address, q.taken + [q.items[0]]) == ReadMails(address, q.taken) + [ReadMail(address, q.items[0])];
  }

  lemma HandleRefines(cfg: Config, w: WireSys, a: string)
    requires AllLegible(w)
    ensures Meaning(WireHandle(cfg, w, a)) == DoHandle(cfg, Meaning(w), a) && AllLegible(WireHandle(cfg, w, a))
  {
    if a in w.inboxes && a in cfg.nodes && w.inboxes[a].items != [] {
      var q := Pop(w.inboxes[a]).0;
      var m := w.inboxes[a].items[0];
      var w1 := w.(inboxes := w.inboxes[a := q], handled := w.handled + [(a, m)]);
      assert m in w.inboxes[a].items && Legible(m);
      PopRefines(a, w.inboxes[a]);
      assert ReadHandled(w.handled + [(a, m)]) == ReadHandled(w.handled) + [ReadMail(a, m)];
      InboxRefines(w, a, q);
      assert AllLegible(w1);
      ProcessRefines(w1, cfg.nodes[a], m);
    }
  }

  lemma CloseRefines(cfg: Config, w: WireSys, a: string)
    requires AllLegible(w)
    ensures Meaning(WireNext(cfg, w, CloseInbox(a))) == Next(cfg, Meaning(w), CloseInbox(a))
    ensures AllLegible(WireNext(cfg, w, CloseInbox(a)))
  {
    if a in w.inboxes {
      assert Meaning(WireNext(cfg, w, CloseInbox(a))).inboxes == Meaning(w).inboxes[a := Close(Meaning(w).inboxes[a])];
    }
  }

  /** Every step over bytes is the same step over packets. */
  lemma StepRefines(cfg: Config, w: WireSys, l: Label)
    requires AllLegible(w) && PipeFree(cfg)
    ensures Meaning(WireNext(cfg, w, l)) == Next(cfg, Meaning(w), l) && AllLegible(WireNext(cfg, w, l))
  {
    if l.SendPacket? {
      SendRefines(w, l);
    } else if l.FinishRelay? {
      FinishRefines(cfg, w, l.name, l.lucky);
    } else if l.Deliver? || l.Lose? {
      DeliverRefines(w, l.at);
    } else if l.Handle? {
      HandleRefines(cfg, w, l.address);
    } else if l.CloseInbox? {
      CloseRefines(cfg, w, l.address);
    }
  }

  /** Every run over bytes means the same run over packets. */
  lemma {:induction false} RunRefines(cfg: Config, labels: seq<Label>)
    requires PipeFree(cfg)
    ensures Meaning(WireRun(cfg, labels)) == Reach(cfg, labels) && AllLegible(WireRun(cfg, labels))
  {
    if labels == [] {
      assert forall a :: ReadMails(a, []) == [];
      assert forall a :: ReadQueue(a, EmptyQueue()) == EmptyQueue<Message>();
      assert Meaning(WireInitial(cfg)).inboxes == Initial(cfg).inboxes;
    } else {
      RunRefines(cfg, labels[..|labels| - 1]);
      StepRefines(cfg, WireRun(cfg, labels[..|labels| - 1]), labels[|labels| - 1]);
    }
  }

  /** Ordered delivery over bytes: the chains that exchanged nothing but text accepted, field by field,
      a prefix of what was sent. */
  lemma WirePrefixDelivery(cfg: Config, labels: seq<Label>, d: ChannelName, c: ChannelName)
    requires PipeFree(cfg) && WellWired(cfg) && Fits(Meaning(WireRun(cfg, labels)))
    requires ReceiveOnly(LogOf(Meaning(WireRun(cfg, labels)), d))
    requires OnlySource(Meaning(WireRun(cfg, labels)), d, c)
    ensures AcceptedInOrder(Meaning(WireRun(cfg, labels)), d, c)
  {
    RunRefines(cfg, labels);
    PrefixDelivery(cfg, labels, d, c);
  }
}
