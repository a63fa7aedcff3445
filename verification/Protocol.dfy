/** Chains, relayers, transport and nodes as one step system over whole packets.  Any number of
    relayers each get a copy of every published packet; each tries a copy once and may lose it; the
    transport delivers what it was given in any order; each node works through its inbox in order. */
module Protocol {
  import opened Basics
  import opened Channel
  import opened Blockchain
  import opened ConcurrentQueue
  import opened TextKey
  import R = Relayer

  /** The chains; for each relayer the mailbox address it knows for each chain; and for each address
      the chain its node serves. */
  datatype Config = Config(chains: set<string>, routes: map<string, map<string, string>>, nodes: map<string, string>)

  /** Every mailbox a relayer knows belongs to a node of that chain. */
  ghost predicate WellWired(cfg: Config) {
    && (forall a :: a in cfg.nodes ==> cfg.nodes[a] in cfg.chains)
    && (forall r, c :: r in cfg.routes && c in cfg.routes[r] && cfg.routes[r][c] in cfg.nodes ==>
          cfg.nodes[cfg.routes[r][c]] == c)
  }

  /** A packet on its way to a node, with the name of the relayer that sent it. */
  datatype Message = Message(via: string, to: string, packet: Packet)

  /** A relayer, and the history of the packets that were lost at it. */
  datatype Station = Station(relayer: R.Relayer, dropped: seq<Packet>)

  /** The last three fields are histories: packets published on the bus, messages taken out of an
      inbox, and messages no inbox took. */
  datatype Sys = Sys(chains: map<string, ChainState>, stations: map<string, Station>, transit: seq<Message>,
                     inboxes: map<string, Queue<Message>>,
                     published: seq<Packet>, handled: seq<Message>, undelivered: seq<Message>)

  datatype Label = SendPacket(chain: string, port: string, chan: string,
                              dstChain: string, dstPort: string, dstChan: string, payload: string)
                 | OpenPort(chain: string, port: string, chan: string)
                 | ClosePort(chain: string, port: string, chan: string)
                 | StartRelayer(name: string)
                 | StopRelayer(name: string)
                 | BeginRound(name: string)
                 | TakePacket(name: string)
                 | TakeAck(name: string)
                 | FinishRelay(name: string, lucky: bool)
                 | Deliver(at: nat)
                 | Lose(at: nat)
                 | CloseInbox(address: string)
                 | Handle(address: string)

  function Initial(cfg: Config): Sys {
    Sys(map c | c in cfg.chains :: Genesis(c), map r | r in cfg.routes :: Station(R.NewRelayer(), []), [],
        map a | a in cfg.nodes :: EmptyQueue(), [], [], [])
  }

  /** What one relayer makes of a published packet: packets and acknowledgements go to their own queues,
      and a closed queue loses them. */
  function Offer(st: Station, p: Packet): Station {
    if p.kind == DATA then
      Station(R.QueuePacket(st.relayer, p), if st.relayer.packets.closed then st.dropped + [p] else st.dropped)
    else
      Station(R.QueueAck(st.relayer, p), if st.relayer.acks.closed then st.dropped + [p] else st.dropped)
  }

  function Publish(s: Sys, p: Packet): Sys {
    s.(stations := map r | r in s.stations :: Offer(s.stations[r], p), published := s.published + [p])
  }

  function DoSend(s: Sys, l: Label): Sys
    requires l.SendPacket?
  {
    if l.chain !in s.chains then s
    else
      var (c, made) := Send(s.chains[l.chain], l.port, l.chan, l.dstChain, l.dstPort, l.dstChan, l.payload);
      var s1 := s.(chains := s.chains[l.chain := c]);
      match made
      case None => s1
      case Some(p) => Publish(s1, p)
  }

  function DoFinish(cfg: Config, s: Sys, name: string, lucky: bool): Sys {
    if name !in s.stations || name !in cfg.routes then s
    else
      var st := s.stations[name];
      if !st.relayer.phase.HasPacket? && !st.relayer.phase.HasAck? then s
      else
        var p := st.relayer.phase.packet;
        var routes := cfg.routes[name];
        var sent := lucky && p.dstChain in routes && routes[p.dstChain] in cfg.nodes;
        var relayer :=
          if st.relayer.phase.HasPacket? then R.FinishPacket(st.relayer, sent) else R.FinishAck(st.relayer, sent);
        if sent
        then s.(stations := s.stations[name := Station(relayer, st.dropped)],
                transit := s.transit + [Message(name, routes[p.dstChain], p)])
        else s.(stations := s.stations[name := Station(relayer, st.dropped + [p])])
  }

  function DoDeliver(s: Sys, at: nat): Sys {
    if at >= |s.transit| then s
    else
      var m := s.transit[at];
      var s1 := s.(transit := s.transit[..at] + s.transit[at + 1..]);
      if m.to in s.inboxes && !s.inboxes[m.to].closed
      then s1.(inboxes := s.inboxes[m.to := Push(s.inboxes[m.to], m)])
      else s1.(undelivered := s.undelivered + [m])
  }

  /** The transport finds no handler for a message and lets it go. */
  function DoLose(s: Sys, at: nat): Sys {
    if at >= |s.transit| then s
    else s.(transit := s.transit[..at] + s.transit[at + 1..], undelivered := s.undelivered + [s.transit[at]])
  }

  /** The head of an inbox becomes a handled message. */
  function TakeMail(s: Sys, address: string): Sys
    requires address in s.inboxes && s.inboxes[address].items != []
  {
    var (q, item) := Pop(s.inboxes[address]);
    s.(inboxes := s.inboxes[address := q], handled := s.handled + [item.value])
  }

  function DoHandle(cfg: Config, s: Sys, address: string): Sys {
    if address !in s.inboxes || address !in cfg.nodes || s.inboxes[address].items == [] then s
    else
      var m := s.inboxes[address].items[0];
      var s1 := TakeMail(s, address);
      if m.packet.kind == DATA then ReceiveAt(s1, cfg.nodes[address], m.packet) else s1
  }

  function ReceiveAt(s: Sys, chain: string, p: Packet): Sys {
    if chain !in s.chains then s
    else
      var (c, verdict) := Receive(s.chains[chain], p);
      var s1 := s.(chains := s.chains[chain := c]);
      if verdict == Ok then Publish(s1, AckFor(p)) else s1
  }

  function OnStation(s: Sys, name: string, f: R.Relayer -> R.Relayer): Sys {
    if name !in s.stations then s
    else s.(stations := s.stations[name := s.stations[name].(relayer := f(s.stations[name].relayer))])
  }

  function Next(cfg: Config, s: Sys, l: Label): Sys {
    match l
    case SendPacket(_, _, _, _, _, _, _) => DoSend(s, l)
    case OpenPort(chain, port, chan) =>
      if chain in s.chains then s.(chains := s.chains[chain := OpenOn(s.chains[chain], port, chan).0]) else s
    case ClosePort(chain, port, chan) =>
      if chain in s.chains then s.(chains := s.chains[chain := CloseOn(s.chains[chain], port, chan).0]) else s
    case StartRelayer(name) => OnStation(s, name, R.StartLoop)
    case StopRelayer(name) => OnStation(s, name, R.StopLoop)
    case BeginRound(name) => OnStation(s, name, R.BeginRound)
    case TakePacket(name) => OnStation(s, name, R.TakePacket)
    case TakeAck(name) => OnStation(s, name, R.TakeAck)
    case FinishRelay(name, lucky) => DoFinish(cfg, s, name, lucky)
    case Deliver(at) => DoDeliver(s, at)
    case Lose(at) => DoLose(s, at)
    case CloseInbox(a) => if a in s.inboxes then s.(inboxes := s.inboxes[a := Close(s.inboxes[a])]) else s
    case Handle(a) => DoHandle(cfg, s, a)
  }

  function Run(cfg: Config, s: Sys, labels: seq<Label>): Sys {
    if labels == [] then s else Next(cfg, Run(cfg, s, labels[..|labels| - 1]), labels[|labels| - 1])
  }

  // ---------------------------------------------------------------- logs

  datatype ChannelName = ChannelName(chain: string, key: string)

  function Source(p: Packet): ChannelName {
    ChannelName(p.srcChain, MakeKey(p.srcPort, p.srcChannel))
  }

  function Target(p: Packet): ChannelName {
    ChannelName(p.dstChain, MakeKey(p.dstPort, p.dstChannel))
  }

  /** The history of a channel, empty while the channel does not exist. */
  function LogOf(s: Sys, d: ChannelName): seq<Entry> {
    if d.chain in s.chains && d.key in s.chains[d.chain].channels then s.chains[d.chain].channels[d.key].log else []
  }

  /** What a channel publishes when it adds an entry to its log. */
  function Emits(e: Entry): Packet {
    match e
    case Issued(p) => p
    case Accepted(p) => AckFor(p)
  }

  /** No counter has wrapped. */
  ghost predicate Fits(s: Sys) {
    forall d :: |LogOf(s, d)| < MAX64
  }

  /** A step that leaves logs and bus alone. */
  ghost predicate Quiet(s: Sys, t: Sys) {
    && t.published == s.published
    && forall d :: LogOf(t, d) == LogOf(s, d)
  }

  /** A step that appends e to the log of d and publishes what e emits. */
  ghost predicate Grows(s: Sys, t: Sys, d: ChannelName, e: Entry) {
    && t.published == s.published + [Emits(e)]
    && LogOf(t, d) == LogOf(s, d) + [e]
    && forall other :: other != d ==> LogOf(t, other) == LogOf(s, other)
  }

  ghost predicate ChainsOk(s: Sys) {
    forall c :: c in s.chains ==> s.chains[c].chainId == c && ChainOk(s.chains[c])
  }
}
