/** What every step of the protocol keeps. */
module ProtocolInvariants {
  import opened Basics
  import opened Channel
  import opened Blockchain
  import opened ConcurrentQueue
  import opened Protocol
  import opened TextKey
  import R = Relayer

  // ---------------------------------------------------------------- one chain

  function ChainLog(c: ChainState, key: string): seq<Entry> {
    if key in c.channels then c.channels[key].log else []
  }

  lemma SendLog(c: ChainState, port: string, chan: string, dstChain: string, dstPort: string, dstChan: string,
      payload: string)
    requires ChainOk(c)
    ensures var (after, made) := Send(c, port, chan, dstChain, dstPort, dstChan, payload);
            var key := MakeKey(port, chan);
            && ChainOk(after) && after.chainId == c.chainId && made.Some?
            && ChainLog(after, key) == ChainLog(c, key) + [Issued(made.value)]
            && (forall k :: k != key ==> ChainLog(after, k) == ChainLog(c, k))
            && made.value.kind == DATA && Source(made.value) == ChannelName(c.chainId, key)
            && Target(made.value) == ChannelName(dstChain, MakeKey(dstPort, dstChan))
            && (|ChainLog(c, key)| < MAX64 ==> made.value.sequence == |ChainLog(c, key)| + 1)
  {
    SendOk(c, port, chan, dstChain, dstPort, dstChan, payload);
    EnsureOk(c, port, chan);
  }

  lemma ReceiveLog(c: ChainState, p: Packet)
    requires ChainOk(c)
    ensures var (after, verdict) := Receive(c, p);
            var key := MakeKey(p.dstPort, p.dstChannel);
            && ChainOk(after) && after.chainId == c.chainId
            && ChainLog(after, key) == (if verdict == Ok then ChainLog(c, key) + [Accepted(p)] else ChainLog(c, key))
            && (forall k :: k != key ==> ChainLog(after, k) == ChainLog(c, k))
            && (|ChainLog(c, key)| < MAX64 ==> (verdict == Ok <==> p.sequence == |ChainLog(c, key)| + 1))
  {
    ReceiveOk(c, p);
    EnsureOk(c, p.dstPort, p.dstChannel);
  }

  lemma OpenCloseLog(c: ChainState, port: string, chan: string)
    requires ChainOk(c)
    ensures ChainOk(OpenOn(c, port, chan).0) && OpenOn(c, port, chan).0.chainId == c.chainId
    ensures ChainOk(CloseOn(c, port, chan).0) && CloseOn(c, port, chan).0.chainId == c.chainId
    ensures forall k :: ChainLog(OpenOn(c, port, chan).0, k) == ChainLog(c, k)
    ensures forall k :: ChainLog(CloseOn(c, port, chan).0, k) == ChainLog(c, k)
  {
    OpenOnOk(c, port, chan);
    CloseOnOk(c, port, chan);
  }

  // ---------------------------------------------------------------- invariants

  ghost predicate Shape(cfg: Config, s: Sys) {
    s.chains.Keys == cfg.chains && s.stations.Keys == cfg.routes.Keys && s.inboxes.Keys == cfg.nodes.Keys
  }

  /** The message was addressed by its relayer's routes. */
  predicate Routed(cfg: Config, m: Message) {
    && m.via in cfg.routes && m.packet.dstChain in cfg.routes[m.via]
    && m.to == cfg.routes[m.via][m.packet.dstChain] && m.to in cfg.nodes
  }

  ghost predicate MessagesRouted(cfg: Config, s: Sys) {
    && (forall m :: m in s.transit ==> Routed(cfg, m))
    && (forall a, m :: a in s.inboxes && m in s.inboxes[a].items ==> Routed(cfg, m) && m.to == a)
    && (forall m :: m in s.handled ==> Routed(cfg, m))
  }

  /** The published packet is what its source channel's log says at that number. */
  ghost predicate Backed(s: Sys, p: Packet) {
    1 <= p.sequence <= |LogOf(s, Source(p))| && Emits(LogOf(s, Source(p))[p.sequence - 1]) == p
  }

  /** Entry i of d's log carries number i + 1, was published, and is there by right. */
  ghost predicate EntryOk(s: Sys, d: ChannelName, i: int)
    requires 0 <= i < |LogOf(s, d)|
  {
    var e := LogOf(s, d)[i];
    && e.packet.sequence == i + 1 && e.packet.kind == DATA
    && Source(Emits(e)) == d && Emits(e) in s.published
    && (e.Accepted? ==> e.packet in s.published && Target(e.packet) == d)
  }

  /** Bus and logs tell the same story: every published packet is backed, none is published twice, and
      every log entry was published.  (The triggers keep the two quantifiers from feeding each other.) */
  ghost predicate Emitted(s: Sys) {
    && (forall p {:trigger Backed(s, p)} :: p in s.published ==> Backed(s, p))
    && (forall p :: multiset(s.published)[p] <= 1)
    && (forall d, i {:trigger EntryOk(s, d, i)} :: 0 <= i < |LogOf(s, d)| ==> EntryOk(s, d, i))
  }

  function Items(s: Sys, a: string): seq<Message> {
    if a in s.inboxes then s.inboxes[a].items else []
  }

  /** Copies of a message on the way, in its inbox, handled, or lost on arrival. */
  function MessageCount(s: Sys, m: Message): nat {
    multiset(s.transit)[m] + multiset(Items(s, m.to))[m] + multiset(s.handled)[m] + multiset(s.undelivered)[m]
  }

  function InHand(r: R.Relayer, p: Packet): nat {
    if (r.phase.HasPacket? || r.phase.HasAck?) && r.phase.packet == p then 1 else 0
  }

  /** Copies of a packet queued, in hand, or lost at one relayer. */
  function StationCount(st: Station, p: Packet): nat {
    multiset(st.dropped)[p] + multiset(st.relayer.packets.items)[p] + multiset(st.relayer.acks.items)[p] +
        InHand(st.relayer, p)
  }

  /** Every copy of p that exists, or is on record as lost or handled, by way of relayer r. */
  function Copies(cfg: Config, s: Sys, r: string, p: Packet): nat
    requires r in s.stations
  {
    StationCount(s.stations[r], p) + Away(cfg, s, r, p)
  }

  /** The copies that have left relayer r. */
  function Away(cfg: Config, s: Sys, r: string, p: Packet): nat {
    if r in cfg.routes && p.dstChain in cfg.routes[r]
    then MessageCount(s, Message(r, cfg.routes[r][p.dstChain], p))
    else 0
  }

  /** Each relayer accounts for each published packet exactly as often as it was published. */
  ghost predicate Conserved(cfg: Config, s: Sys) {
    forall r, p {:trigger Copies(cfg, s, r, p)} :: r in s.stations ==> Copies(cfg, s, r, p) == multiset(s.published)[p]
  }

  ghost predicate Inv(cfg: Config, s: Sys) {
    Shape(cfg, s) && ChainsOk(s) && MessagesRouted(cfg, s) && Emitted(s) && Conserved(cfg, s)
  }

  // ---------------------------------------------------------------- what a step publishes

  /** The entry, if any, that a step appends to some log. */
  function Emission(cfg: Config, s: Sys, l: Label): Option<(ChannelName, Entry)> {
    match l
    case SendPacket(chain, port, chan, dstChain, dstPort, dstChan, payload) =>
      if chain !in s.chains then None
      else
        (match Send(s.chains[chain], port, chan, dstChain, dstPort, dstChan, payload).1
         case None => None
         case Some(p) => Some((ChannelName(chain, MakeKey(port, chan)), Issued(p))))
    case Handle(a) =>
      if a !in cfg.nodes || Items(s, a) == [] || Items(s, a)[0].packet.kind != DATA then None
      else if cfg.nodes[a] !in s.chains then None
      else
        var p := Items(s, a)[0].packet;
        if Receive(s.chains[cfg.nodes[a]], p).1 != Ok then None
        else Some((ChannelName(cfg.nodes[a], MakeKey(p.dstPort, p.dstChannel)), Accepted(p)))
    case _ => None
  }

  /** A chain replaced by one with the same logs, or with one entry more. */
  lemma ReplaceChain(s: Sys, chain: string, c: ChainState)
    requires ChainsOk(s) && chain in s.chains && ChainOk(c) && c.chainId == chain
    ensures var t := s.(chains := s.chains[chain := c]);
            ChainsOk(t) && forall d :: LogOf(t, d) == if d.chain == chain then ChainLog(c, d.key) else LogOf(s, d)
  {
  }

  /** What the emission says about the step. */
  ghost predicate Effect(cfg: Config, s: Sys, l: Label) {
    var t := Next(cfg, s, l);
    && ChainsOk(t)
    && match Emission(cfg, s, l)
       case None => Quiet(s, t)
       case Some((d, e)) => Grows(s, t, d, e)
  }

  lemma PublishEffect(s: Sys, p: Packet)
    ensures var t := Publish(s, p);
            && t.chains == s.chains && t.published == s.published + [p]
            && forall d :: LogOf(t, d) == LogOf(s, d)
  {
  }

  lemma SendEffect(cfg: Config, s: Sys, l: Label)
    requires l.SendPacket? && ChainsOk(s)
    ensures Effect(cfg, s, l)
  {
    if l.chain in s.chains {
      var c := s.chains[l.chain];
      var (after, made) := Send(c, l.port, l.chan, l.dstChain, l.dstPort, l.dstChan, l.payload);
      SendLog(c, l.port, l.chan, l.dstChain, l.dstPort, l.dstChan, l.payload);
      ReplaceChain(s, l.chain, after);
      var s1 := s.(chains := s.chains[l.chain := after]);
      PublishEffect(s1, made.value);
    }
  }

  lemma ReceiveAtEffect(s: Sys, chain: string, p: Packet)
    requires ChainsOk(s) && chain in s.chains
    ensures var t := ReceiveAt(s, chain, p);
            && ChainsOk(t)
            && if Receive(s.chains[chain], p).1 == Ok
               then Grows(s, t, ChannelName(chain, MakeKey(p.dstPort, p.dstChannel)), Accepted(p))
               else Quiet(s, t)
  {
    var (after, verdict) := Receive(s.chains[chain], p);
    ReceiveLog(s.chains[chain], p);
    ReplaceChain(s, chain, after);
    var s1 := s.(chains := s.chains[chain := after]);
    if verdict == Ok {
      PublishEffect(s1, AckFor(p));
    }
  }

  lemma HandleEffect(cfg: Config, s: Sys, l: Label)
    requires l.Handle? && ChainsOk(s) && s.inboxes.Keys == cfg.nodes.Keys
    ensures Effect(cfg, s, l)
  {
    var a := l.address;
    if a in cfg.nodes && s.inboxes[a].items != [] {
      var m := s.inboxes[a].items[0];
      var s1 := TakeMail(s, a);
      assert Quiet(s, s1) && ChainsOk(s1);
      if m.packet.kind == DATA && cfg.nodes[a] in s.chains {
        ReceiveAtEffect(s1, cfg.nodes[a], m.packet);
      }
    }
  }

  lemma OpenCloseEffect(cfg: Config, s: Sys, l: Label)
    requires (l.OpenPort? || l.ClosePort?) && ChainsOk(s)
    ensures Effect(cfg, s, l)
  {
    if l.chain in s.chains {
      OpenCloseLog(s.chains[l.chain], l.port, l.chan);
      ReplaceChain(s, l.chain, OpenOn(s.chains[l.chain], l.port, l.chan).0);
      ReplaceChain(s, l.chain, CloseOn(s.chains[l.chain], l.port, l.chan).0);
    }
  }

  lemma OtherEffect(cfg: Config, s: Sys, l: Label)
    requires !l.SendPacket? && !l.Handle? && !l.OpenPort? && !l.ClosePort? && ChainsOk(s)
    ensures Effect(cfg, s, l)
  {
    if l.FinishRelay? {
      FinishLeavesChains(cfg, s, l.name, l.lucky);
    } else if l.Deliver? || l.Lose? || l.CloseInbox? {
      MailLeavesChains(cfg, s, l);
    } else {
      LoopLeavesChains(cfg, s, l);
    }
    SameLogs(s, Next(cfg, s, l));
  }

  lemma SameLogs(s: Sys, t: Sys)
    requires ChainsOk(s) && t.chains == s.chains && t.published == s.published
    ensures ChainsOk(t) && Quiet(s, t)
  {
  }

  lemma FinishLeavesChains(cfg: Config, s: Sys, name: string, lucky: bool)
    ensures var t := DoFinish(cfg, s, name, lucky);
            t.chains == s.chains && t.published == s.published
  {
  }

  lemma MailLeavesChains(cfg: Config, s: Sys, l: Label)
    requires l.Deliver? || l.Lose? || l.CloseInbox?
    ensures Next(cfg, s, l).chains == s.chains && Next(cfg, s, l).published == s.published
  {
  }

  lemma LoopLeavesChains(cfg: Config, s: Sys, l: Label)
    requires l.StartRelayer? || l.StopRelayer? || l.BeginRound? || l.TakePacket? || l.TakeAck?
    ensures Next(cfg, s, l).chains == s.chains && Next(cfg, s, l).published == s.published
  {
  }

  lemma NextEffect(cfg: Config, s: Sys, l: Label)
    requires ChainsOk(s) && s.inboxes.Keys == cfg.nodes.Keys
    ensures Effect(cfg, s, l)
  {
    if l.SendPacket? {
      SendEffect(cfg, s, l);
    } else if l.Handle? {
      HandleEffect(cfg, s, l);
    } else if l.OpenPort? || l.ClosePort? {
      OpenCloseEffect(cfg, s, l);
    } else {
      OtherEffect(cfg, s, l);
    }
  }

  // ---------------------------------------------------------------- conservation of copies

  lemma OfferCount(st: Station, p: Packet, q: Packet)
    ensures StationCount(Offer(st, p), q) == StationCount(st, q) + (if p == q then 1 else 0)
  {
  }

  lemma HeadCount<T>(items: seq<T>, x: T)
    requires items != []
    ensures multiset(items)[x] == multiset(items[1..])[x] + (if items[0] == x then 1 else 0)
  {
    assert items == [items[0]] + items[1..];
  }

  lemma TakePacketCount(st: Station, q: Packet)
    ensures StationCount(st.(relayer := R.TakePacket(st.relayer)), q) == StationCount(st, q)
  {
    if st.relayer.packets.items != [] {
      HeadCount(st.relayer.packets.items, q);
    }
  }

  lemma TakeAckCount(st: Station, q: Packet)
    ensures StationCount(st.(relayer := R.TakeAck(st.relayer)), q) == StationCount(st, q)
  {
    if st.relayer.acks.items != [] {
      HeadCount(st.relayer.acks.items, q);
    }
  }

  lemma PublishCopies(cfg: Config, s: Sys, p: Packet, r: string, q: Packet)
    requires r in s.stations
    ensures Copies(cfg, Publish(s, p), r, q) == Copies(cfg, s, r, q) + (if p == q then 1 else 0)
    ensures multiset(Publish(s, p).published)[q] == multiset(s.published)[q] + (if p == q then 1 else 0)
  {
    OfferCount(s.stations[r], p, q);
  }

  lemma DeliverMessages(s: Sys, at: nat, m: Message)
    ensures MessageCount(DoDeliver(s, at), m) == MessageCount(s, m)
    ensures MessageCount(DoLose(s, at), m) == MessageCount(s, m)
  {
    if at < |s.transit| {
      assert s.transit == s.transit[..at] + [s.transit[at]] + s.transit[at + 1..];
    }
  }

  /** Taking the head of an inbox out only moves that message to the handled ones. */
  lemma PopMessages(s: Sys, a: string, m: Message)
    requires a in s.inboxes && s.inboxes[a].items != [] && s.inboxes[a].items[0].to == a
    ensures MessageCount(TakeMail(s, a), m) == MessageCount(s, m)
  {
    HeadCount(s.inboxes[a].items, m);
  }

  lemma FinishCount(st: Station, sent: bool, q: Packet)
    requires st.relayer.phase.HasPacket? || st.relayer.phase.HasAck?
    ensures var p := st.relayer.phase.packet;
            var relayer :=
              if st.relayer.phase.HasPacket? then R.FinishPacket(st.relayer, sent) else R.FinishAck(st.relayer, sent);
            && StationCount(Station(relayer, st.dropped + [p]), q) == StationCount(st, q)
            && StationCount(Station(relayer, st.dropped), q) + (if p == q then 1 else 0) == StationCount(st, q)
  {
  }

  /** Whether finishing the relay in hand sends it. */
  predicate Sends(cfg: Config, s: Sys, name: string, lucky: bool)
    requires name in s.stations && name in cfg.routes
    requires s.stations[name].relayer.phase.HasPacket? || s.stations[name].relayer.phase.HasAck?
  {
    var p := s.stations[name].relayer.phase.packet;
    lucky && p.dstChain in cfg.routes[name] && cfg.routes[name][p.dstChain] in cfg.nodes
  }

  lemma FinishAtStation(cfg: Config, s: Sys, name: string, lucky: bool, r: string, q: Packet)
    requires r in s.stations && name in s.stations && name in cfg.routes
    requires s.stations[name].relayer.phase.HasPacket? || s.stations[name].relayer.phase.HasAck?
    ensures var t := DoFinish(cfg, s, name, lucky);
            var here := Sends(cfg, s, name, lucky) && r == name && s.stations[name].relayer.phase.packet == q;
            && r in t.stations
            && StationCount(t.stations[r], q) + (if here then 1 else 0) == StationCount(s.stations[r], q)
  {
    FinishCount(s.stations[name], Sends(cfg, s, name, lucky), q);
  }

  lemma FinishAway(cfg: Config, s: Sys, name: string, lucky: bool, r: string, q: Packet)
    requires name in s.stations && name in cfg.routes
    requires s.stations[name].relayer.phase.HasPacket? || s.stations[name].relayer.phase.HasAck?
    ensures var t := DoFinish(cfg, s, name, lucky);
            var here := Sends(cfg, s, name, lucky) && r == name && s.stations[name].relayer.phase.packet == q;
            Away(cfg, t, r, q) == Away(cfg, s, r, q) + (if here then 1 else 0)
  {
    var p := s.stations[name].relayer.phase.packet;
    if Sends(cfg, s, name, lucky) {
      AwayAfterSend(cfg, s, DoFinish(cfg, s, name, lucky), Message(name, cfg.routes[name][p.dstChain], p), r, q);
    }
  }

  lemma FinishCopies(cfg: Config, s: Sys, name: string, lucky: bool, r: string, q: Packet)
    requires r in s.stations
    ensures r in DoFinish(cfg, s, name, lucky).stations
    ensures Copies(cfg, DoFinish(cfg, s, name, lucky), r, q) == Copies(cfg, s, r, q)
  {
    if && name in s.stations && name in cfg.routes
       && (s.stations[name].relayer.phase.HasPacket? || s.stations[name].relayer.phase.HasAck?)
    {
      FinishAtStation(cfg, s, name, lucky, r, q);
      FinishAway(cfg, s, name, lucky, r, q);
    }
  }

  lemma AwayAfterSend(cfg: Config, s: Sys, t: Sys, m: Message, r: string, q: Packet)
    requires Routed(cfg, m)
    requires t == s.(stations := t.stations, transit := s.transit + [m])
    ensures Away(cfg, t, r, q) == Away(cfg, s, r, q) + (if m.via == r && m.packet == q then 1 else 0)
  {
    if r in cfg.routes && q.dstChain in cfg.routes[r] {
      AddMessage(s, m, Message(r, cfg.routes[r][q.dstChain], q));
    }
  }

  lemma AddMessage(s: Sys, m: Message, n: Message)
    ensures MessageCount(s.(transit := s.transit + [m]), n) == MessageCount(s, n) + (if m == n then 1 else 0)
  {
  }

  /** Steps that touch no copy at all. */
  lemma SameCopies(cfg: Config, s: Sys, t: Sys, r: string, q: Packet)
    requires r in s.stations && t.stations == s.stations && t.transit == s.transit && t.handled == s.handled
    requires t.undelivered == s.undelivered && forall a :: Items(t, a) == Items(s, a)
    ensures Copies(cfg, t, r, q) == Copies(cfg, s, r, q)
  {
  }

  /** A chain changes and, maybe, a packet is published. */
  lemma ChainCopies(cfg: Config, s: Sys, chain: string, c: ChainState, p: Option<Packet>, r: string, q: Packet)
    requires r in s.stations && Copies(cfg, s, r, q) == multiset(s.published)[q]
    ensures var s1 := s.(chains := s.chains[chain := c]);
            var t := match p case None => s1 case Some(out) => Publish(s1, out);
            r in t.stations && Copies(cfg, t, r, q) == multiset(t.published)[q]
  {
    var s1 := s.(chains := s.chains[chain := c]);
    SameCopies(cfg, s, s1, r, q);
    if p.Some? {
      PublishCopies(cfg, s1, p.value, r, q);
    }
  }

  lemma ReceiveCopies(cfg: Config, s: Sys, chain: string, p: Packet, r: string, q: Packet)
    requires r in s.stations && Copies(cfg, s, r, q) == multiset(s.published)[q]
    ensures var t := ReceiveAt(s, chain, p);
            r in t.stations && Copies(cfg, t, r, q) == multiset(t.published)[q]
  {
    if chain in s.chains {
      var (c, verdict) := Receive(s.chains[chain], p);
      ChainCopies(cfg, s, chain, c, if verdict == Ok then Some(AckFor(p)) else None, r, q);
    }
  }

  lemma SendCopies(cfg: Config, s: Sys, l: Label, r: string, q: Packet)
    requires l.SendPacket? && r in s.stations && Copies(cfg, s, r, q) == multiset(s.published)[q]
    ensures var t := DoSend(s, l);
            r in t.stations && Copies(cfg, t, r, q) == multiset(t.published)[q]
  {
    if l.chain in s.chains {
      var (c, made) := Send(s.chains[l.chain], l.port, l.chan, l.dstChain, l.dstPort, l.dstChan, l.payload);
      ChainCopies(cfg, s, l.chain, c, made, r, q);
    }
  }

  lemma HandleCopies(cfg: Config, s: Sys, a: string, r: string, q: Packet)
    requires r in s.stations && MessagesRouted(cfg, s)
    requires Copies(cfg, s, r, q) == multiset(s.published)[q]
    ensures var t := DoHandle(cfg, s, a);
            r in t.stations && Copies(cfg, t, r, q) == multiset(t.published)[q]
  {
    if a in s.inboxes && a in cfg.nodes && s.inboxes[a].items != [] {
      var m := s.inboxes[a].items[0];
      assert m in s.inboxes[a].items;
      var s1 := TakeMail(s, a);
      if r in cfg.routes && q.dstChain in cfg.routes[r] {
        PopMessages(s, a, Message(r, cfg.routes[r][q.dstChain], q));
      }
      assert Copies(cfg, s1, r, q) == Copies(cfg, s, r, q);
      if m.packet.kind == DATA {
        ReceiveCopies(cfg, s1, cfg.nodes[a], m.packet, r, q);
      }
    }
  }

  lemma OnStationCopies(cfg: Config, s: Sys, name: string, f: R.Relayer -> R.Relayer, r: string, q: Packet)
    requires r in s.stations
    requires StationCount(s.stations[r].(relayer := f(s.stations[r].relayer)), q) == StationCount(s.stations[r], q)
    ensures r in OnStation(s, name, f).stations
    ensures Copies(cfg, OnStation(s, name, f), r, q) == Copies(cfg, s, r, q)
  {
  }

  lemma RelayerCopies(cfg: Config, s: Sys, l: Label, r: string, q: Packet)
    requires l.StartRelayer? || l.StopRelayer? || l.BeginRound? || l.TakePacket? || l.TakeAck?
    requires r in s.stations
    ensures var t := Next(cfg, s, l);
            r in t.stations && Copies(cfg, t, r, q) == Copies(cfg, s, r, q) && t.published == s.published
  {
    if l.StartRelayer? {
      OnStationCopies(cfg, s, l.name, R.StartLoop, r, q);
    } else if l.StopRelayer? {
      OnStationCopies(cfg, s, l.name, R.StopLoop, r, q);
    } else if l.BeginRound? {
      OnStationCopies(cfg, s, l.name, R.BeginRound, r, q);
    } else if l.TakePacket? {
      TakePacketCount(s.stations[r], q);
      OnStationCopies(cfg, s, l.name, R.TakePacket, r, q);
    } else {
      TakeAckCount(s.stations[r], q);
      OnStationCopies(cfg, s, l.name, R.TakeAck, r, q);
    }
  }

  lemma DeliverCopies(cfg: Config, s: Sys, at: nat, r: string, q: Packet)
    requires r in s.stations
    ensures var t := DoDeliver(s, at);
            t.stations == s.stations && t.published == s.published && Copies(cfg, t, r, q) == Copies(cfg, s, r, q)
    ensures var t := DoLose(s, at);
            t.stations == s.stations && t.published == s.published && Copies(cfg, t, r, q) == Copies(cfg, s, r, q)
  {
    if r in cfg.routes && q.dstChain in cfg.routes[r] {
      DeliverMessages(s, at, Message(r, cfg.routes[r][q.dstChain], q));
    }
  }

  lemma NextCopies(cfg: Config, s: Sys, l: Label, r: string, q: Packet)
    requires r in s.stations && MessagesRouted(cfg, s)
    requires Copies(cfg, s, r, q) == multiset(s.published)[q]
    ensures var t := Next(cfg, s, l);
            r in t.stations && Copies(cfg, t, r, q) == multiset(t.published)[q]
  {
    if l.SendPacket? {
      SendCopies(cfg, s, l, r, q);
    } else if l.FinishRelay? {
      FinishCopies(cfg, s, l.name, l.lucky, r, q);
    } else if l.Deliver? || l.Lose? {
      DeliverCopies(cfg, s, l.at, r, q);
    } else if l.Handle? {
      HandleCopies(cfg, s, l.address, r, q);
    } else if l.OpenPort? || l.ClosePort? || l.CloseInbox? {
      SameCopies(cfg, s, Next(cfg, s, l), r, q);
    } else {
      RelayerCopies(cfg, s, l, r, q);
    }
  }

  lemma NextConserved(cfg: Config, s: Sys, l: Label)
    requires Shape(cfg, s) && MessagesRouted(cfg, s) && Conserved(cfg, s)
    ensures Shape(cfg, Next(cfg, s, l)) && Conserved(cfg, Next(cfg, s, l))
  {
    NextShape(cfg, s, l);
    forall r, q | r in s.stations ensures Copies(cfg, Next(cfg, s, l), r, q) == multiset(Next(cfg, s, l).published)[q] {
      assert Copies(cfg, s, r, q) == multiset(s.published)[q];
      NextCopies(cfg, s, l, r, q);
    }
  }

  lemma PublishShape(cfg: Config, s: Sys, p: Packet)
    requires Shape(cfg, s)
    ensures Shape(cfg, Publish(s, p))
  {
  }

  lemma HandleShape(cfg: Config, s: Sys, a: string)
    requires Shape(cfg, s)
    ensures Shape(cfg, DoHandle(cfg, s, a))
  {
    if a in s.inboxes && a in cfg.nodes && s.inboxes[a].items != [] {
      var s1 := TakeMail(s, a);
      var chain, p := cfg.nodes[a], s.inboxes[a].items[0].packet;
      if chain in s1.chains {
        PublishShape(cfg, s1.(chains := s1.chains[chain := Receive(s1.chains[chain], p).0]), AckFor(p));
      }
    }
  }

  lemma SendShape(cfg: Config, s: Sys, l: Label)
    requires Shape(cfg, s) && l.SendPacket?
    ensures Shape(cfg, DoSend(s, l))
  {
    if l.chain in s.chains {
      var (c, made) := Send(s.chains[l.chain], l.port, l.chan, l.dstChain, l.dstPort, l.dstChan, l.payload);
      if made.Some? {
        PublishShape(cfg, s.(chains := s.chains[l.chain := c]), made.value);
      }
    }
  }

  lemma NextShape(cfg: Config, s: Sys, l: Label)
    requires Shape(cfg, s)
    ensures Shape(cfg, Next(cfg, s, l))
  {
    if l.SendPacket? {
      SendShape(cfg, s, l);
    } else if l.Handle? {
      HandleShape(cfg, s, l.address);
    }
  }

  // ---------------------------------------------------------------- messages stay routed

  lemma NextRouted(cfg: Config, s: Sys, l: Label)
    requires MessagesRouted(cfg, s)
    ensures MessagesRouted(cfg, Next(cfg, s, l))
  {
    if l.SendPacket? {
      assert DoSend(s, l).transit == s.transit && DoSend(s, l).inboxes == s.inboxes &&
          DoSend(s, l).handled == s.handled;
    } else if l.Handle? {
      HandleRouted(cfg, s, l.address);
    } else if l.Deliver? || l.Lose? {
      DeliverRouted(cfg, s, l.at);
    } else if l.FinishRelay? {
      FinishRouted(cfg, s, l.name, l.lucky);
    } else {
      OtherRouted(cfg, s, l);
    }
  }

  lemma OtherRouted(cfg: Config, s: Sys, l: Label)
    requires !l.SendPacket? && !l.Handle? && !l.Deliver? && !l.Lose? && !l.FinishRelay?
    requires MessagesRouted(cfg, s)
    ensures MessagesRouted(cfg, Next(cfg, s, l))
  {
  }

  lemma FinishRouted(cfg: Config, s: Sys, name: string, lucky: bool)
    requires MessagesRouted(cfg, s)
    ensures MessagesRouted(cfg, DoFinish(cfg, s, name, lucky))
  {
  }

  lemma DeliverRouted(cfg: Config, s: Sys, at: nat)
    requires MessagesRouted(cfg, s)
    ensures MessagesRouted(cfg, DoDeliver(s, at)) && MessagesRouted(cfg, DoLose(s, at))
  {
    if at < |s.transit| {
      assert s.transit[at] in s.transit;
    }
  }

  lemma HandleRouted(cfg: Config, s: Sys, a: string)
    requires MessagesRouted(cfg, s)
    ensures MessagesRouted(cfg, DoHandle(cfg, s, a))
  {
    var t := DoHandle(cfg, s, a);
    if a in s.inboxes && a in cfg.nodes && s.inboxes[a].items != [] {
      var items := s.inboxes[a].items;
      assert items[0] in items && forall m :: m in items[1..] ==> m in items;
      assert t.transit == s.transit && t.handled == s.handled + [items[0]];
      assert t.inboxes == s.inboxes[a := Pop(s.inboxes[a]).0];
    }
  }

  // ---------------------------------------------------------------- bus and logs agree

  /** Whatever is in an inbox was published. */
  lemma InboxPublished(cfg: Config, s: Sys, a: string, m: Message)
    requires Shape(cfg, s) && MessagesRouted(cfg, s) && Conserved(cfg, s)
    requires m in Items(s, a)
    ensures m.packet in s.published && Routed(cfg, m) && m.to == a
  {
    assert Copies(cfg, s, m.via, m.packet) == multiset(s.published)[m.packet];
    assert m in multiset(Items(s, a));
    assert m.packet in multiset(s.published);
  }

  lemma ChainVerdict(s: Sys, p: Packet)
    requires ChainsOk(s) && p.dstChain in s.chains && Fits(s)
    ensures Receive(s.chains[p.dstChain], p).1 == Ok <==> p.sequence == |LogOf(s, Target(p))| + 1
  {
    ReceiveLog(s.chains[p.dstChain], p);
    assert LogOf(s, Target(p)) == ChainLog(s.chains[p.dstChain], Target(p).key);
    assert |LogOf(s, Target(p))| < MAX64;
  }

  lemma HeadAddressed(cfg: Config, s: Sys, a: string)
    requires WellWired(cfg) && Shape(cfg, s) && MessagesRouted(cfg, s) && Items(s, a) != []
    ensures a in cfg.nodes && cfg.nodes[a] == Items(s, a)[0].packet.dstChain && cfg.nodes[a] in s.chains
  {
    var m := Items(s, a)[0];
    assert m in s.inboxes[a].items;
    assert Routed(cfg, m) && m.to == a;
  }

  /** What the head of an inbox makes of its turn: a data packet with the right number is accepted where it
      is addressed, and anything else changes no log. */
  lemma HandleEmission(cfg: Config, s: Sys, l: Label)
    requires WellWired(cfg) && Inv(cfg, s) && Fits(s)
    requires l.Handle? && Items(s, l.address) != []
    ensures var p := Items(s, l.address)[0].packet;
            Emission(cfg, s, l) ==
            if p.kind == DATA && p.sequence == |LogOf(s, Target(p))| + 1 then Some((Target(p), Accepted(p))) else None
  {
    HeadEmission(cfg, s, l);
  }

  lemma HeadEmission(cfg: Config, s: Sys, l: Label)
    requires WellWired(cfg) && Shape(cfg, s) && ChainsOk(s) && MessagesRouted(cfg, s) && Fits(s)
    requires l.Handle? && Items(s, l.address) != []
    ensures var p := Items(s, l.address)[0].packet;
            Emission(cfg, s, l) ==
            if p.kind == DATA && p.sequence == |LogOf(s, Target(p))| + 1 then Some((Target(p), Accepted(p))) else None
  {
    HeadAddressed(cfg, s, l.address);
    ChainVerdict(s, Items(s, l.address)[0].packet);
  }

  lemma EmissionFacts(cfg: Config, s: Sys, l: Label)
    requires WellWired(cfg) && Inv(cfg, s) && Fits(s)
    requires Emission(cfg, s, l).Some?
    ensures var (d, e) := Emission(cfg, s, l).value;
            && Source(Emits(e)) == d && e.packet.kind == DATA && e.packet.sequence == |LogOf(s, d)| + 1
            && (e.Accepted? ==> e.packet in s.published && Target(e.packet) == d)
  {
    var (d, e) := Emission(cfg, s, l).value;
    assert |LogOf(s, d)| < MAX64;
    if l.SendPacket? {
      SendLog(s.chains[l.chain], l.port, l.chan, l.dstChain, l.dstPort, l.dstChan, l.payload);
    } else {
      var m := Items(s, l.address)[0];
      InboxPublished(cfg, s, l.address, m);
      ReceiveLog(s.chains[cfg.nodes[l.address]], m.packet);
    }
  }

  lemma EmittedQuiet(s: Sys, t: Sys)
    requires Emitted(s) && Quiet(s, t)
    ensures Emitted(t)
  {
    forall p | p in t.published ensures Backed(t, p) {
      assert Backed(s, p);
    }
    forall d, i | 0 <= i < |LogOf(t, d)| ensures EntryOk(t, d, i) {
      assert EntryOk(s, d, i);
    }
  }

  /** The next number of a log has never been used, so what carries it is new on the bus. */
  lemma NotYetPublished(s: Sys, d: ChannelName, e: Entry)
    requires Emitted(s) && Source(Emits(e)) == d && e.packet.sequence == |LogOf(s, d)| + 1
    ensures Emits(e) !in s.published
  {
    assert Emits(e) in s.published ==> Backed(s, Emits(e));
  }

  lemma EmittedGrows(s: Sys, t: Sys, d: ChannelName, e: Entry)
    requires Emitted(s) && Grows(s, t, d, e)
    requires Source(Emits(e)) == d && e.packet.kind == DATA && e.packet.sequence == |LogOf(s, d)| + 1
    requires e.Accepted? ==> e.packet in s.published && Target(e.packet) == d
    ensures Emitted(t)
  {
    var p := Emits(e);
    NotYetPublished(s, d, e);
    forall q | q in t.published ensures Backed(t, q) {
      if q != p {
        assert Backed(s, q);
      }
    }
    forall c, i | 0 <= i < |LogOf(t, c)| ensures EntryOk(t, c, i) {
      if i < |LogOf(s, c)| {
        assert EntryOk(s, c, i);
      }
    }
  }

  lemma NextInv(cfg: Config, s: Sys, l: Label)
    requires WellWired(cfg) && Inv(cfg, s) && Fits(s)
    ensures Inv(cfg, Next(cfg, s, l))
  {
    var t := Next(cfg, s, l);
    NextEffect(cfg, s, l);
    NextConserved(cfg, s, l);
    NextRouted(cfg, s, l);
    match Emission(cfg, s, l)
    case None => EmittedQuiet(s, t);
    case Some((d, e)) =>
      EmissionFacts(cfg, s, l);
      EmittedGrows(s, t, d, e);
  }

  lemma InitialInv(cfg: Config)
    ensures Inv(cfg, Initial(cfg))
  {
    var s := Initial(cfg);
    assert forall d :: LogOf(s, d) == [];
    forall r, p | r in s.stations ensures Copies(cfg, s, r, p) == 0 {
    }
  }

  /** Opening a port binds it and supplies it with a channel, and closing it only unbinds it. */
  lemma PortSteps(cfg: Config, s: Sys, chain: string, port: string, chan: string)
    requires ChainsOk(s) && chain in s.chains
    ensures var c := Next(cfg, s, OpenPort(chain, port, chan)).chains[chain];
            (port, chan) in c.bindings && MakeKey(port, chan) in c.channels
    ensures var c := Next(cfg, s, ClosePort(chain, port, chan)).chains[chain];
            (port, chan) !in c.bindings && c.channels == s.chains[chain].channels
  {
    OpenOnOk(s.chains[chain], port, chan);
    CloseOnOk(s.chains[chain], port, chan);
  }

  // ---------------------------------------------------------------- stopped components

  /** Both queues of the station are closed, and it has been handed no more than the relayer was. */
  ghost predicate Deaf(s: Sys, r: string, was: R.Relayer) {
    && r in s.stations && s.stations[r].relayer.packets.closed && s.stations[r].relayer.acks.closed
    && s.stations[r].relayer.packets.pushed == was.packets.pushed
    && s.stations[r].relayer.acks.pushed == was.acks.pushed
  }

  lemma PublishDeaf(s: Sys, p: Packet, r: string, was: R.Relayer)
    requires Deaf(s, r, was)
    ensures Deaf(Publish(s, p), r, was)
  {
  }

  /** Nothing is queued at a relayer whose queues are closed, and they stay closed. */
  lemma NextDeaf(cfg: Config, s: Sys, l: Label, r: string, was: R.Relayer)
    requires Deaf(s, r, was)
    ensures Deaf(Next(cfg, s, l), r, was)
  {
    match l
    case SendPacket(_, _, _, _, _, _, _) => SendDeaf(s, l, r, was);
    case Handle(a) => HandleDeaf(cfg, s, a, r, was);
    case _ =>
  }

  lemma SendDeaf(s: Sys, l: Label, r: string, was: R.Relayer)
    requires l.SendPacket? && Deaf(s, r, was)
    ensures Deaf(DoSend(s, l), r, was)
  {
    if l.chain in s.chains {
      var (c, made) := Send(s.chains[l.chain], l.port, l.chan, l.dstChain, l.dstPort, l.dstChan, l.payload);
      if made.Some? {
        PublishDeaf(s.(chains := s.chains[l.chain := c]), made.value, r, was);
      }
    }
  }

  lemma HandleDeaf(cfg: Config, s: Sys, a: string, r: string, was: R.Relayer)
    requires Deaf(s, r, was)
    ensures Deaf(DoHandle(cfg, s, a), r, was)
  {
    if a in s.inboxes && a in cfg.nodes && s.inboxes[a].items != [] {
      var p := s.inboxes[a].items[0].packet;
      var s1 := TakeMail(s, a);
      if p.kind == DATA && cfg.nodes[a] in s1.chains {
        var (c, verdict) := Receive(s1.chains[cfg.nodes[a]], p);
        PublishDeaf(s1.(chains := s1.chains[cfg.nodes[a] := c]), AckFor(p), r, was);
      }
    }
  }

  lemma {:induction false} RunDeaf(cfg: Config, s: Sys, labels: seq<Label>, r: string, was: R.Relayer)
    requires Deaf(s, r, was)
    ensures Deaf(Run(cfg, s, labels), r, was)
  {
    if labels != [] {
      RunDeaf(cfg, s, labels[..|labels| - 1], r, was);
      NextDeaf(cfg, Run(cfg, s, labels[..|labels| - 1]), labels[|labels| - 1], r, was);
    }
  }

  /** Once a running relayer is stopped it hears of nothing published later, even if it is started again. */
  lemma StoppedIsDeaf(cfg: Config, s: Sys, r: string, labels: seq<Label>)
    requires r in s.stations && s.stations[r].relayer.running
    ensures var t := Run(cfg, Next(cfg, s, StopRelayer(r)), labels);
            && r in t.stations
            && t.stations[r].relayer.packets.pushed == s.stations[r].relayer.packets.pushed
            && t.stations[r].relayer.acks.pushed == s.stations[r].relayer.acks.pushed
  {
    RunDeaf(cfg, Next(cfg, s, StopRelayer(r)), labels, r, s.stations[r].relayer);
  }

  lemma {:induction false} RunShut(cfg: Config, s: Sys, labels: seq<Label>, a: string)
    requires a in s.inboxes && s.inboxes[a].closed
    ensures var t := Run(cfg, s, labels);
            a in t.inboxes && t.inboxes[a].closed && t.inboxes[a].pushed == s.inboxes[a].pushed
  {
    if labels != [] {
      RunShut(cfg, s, labels[..|labels| - 1], a);
      NextShut(cfg, Run(cfg, s, labels[..|labels| - 1]), labels[|labels| - 1], a);
    }
  }

  lemma NextShut(cfg: Config, s: Sys, l: Label, a: string)
    requires a in s.inboxes && s.inboxes[a].closed
    ensures var t := Next(cfg, s, l);
            a in t.inboxes && t.inboxes[a].closed && t.inboxes[a].pushed == s.inboxes[a].pushed
  {
  }

  /** A closed inbox takes no message ever after. */
  lemma ClosedTakesNothing(cfg: Config, s: Sys, a: string, labels: seq<Label>)
    requires a in s.inboxes
    ensures var t := Run(cfg, Next(cfg, s, CloseInbox(a)), labels);
            a in t.inboxes && t.inboxes[a].pushed == s.inboxes[a].pushed
  {
    RunShut(cfg, Next(cfg, s, CloseInbox(a)), labels, a);
  }

  // ---------------------------------------------------------------- runs

  /** Logs and bus only ever grow. */
  lemma {:induction false} RunLogsGrow(cfg: Config, s: Sys, labels: seq<Label>)
    requires Shape(cfg, s) && ChainsOk(s)
    ensures var t := Run(cfg, s, labels);
            && Shape(cfg, t) && ChainsOk(t)
            && s.published <= t.published
            && forall d :: LogOf(s, d) <= LogOf(t, d)
  {
    if labels != [] {
      var before := labels[..|labels| - 1];
      RunLogsGrow(cfg, s, before);
      NextLogsGrow(cfg, Run(cfg, s, before), labels[|labels| - 1]);
    }
  }

  lemma NextLogsGrow(cfg: Config, s: Sys, l: Label)
    requires Shape(cfg, s) && ChainsOk(s)
    ensures var t := Next(cfg, s, l);
            && Shape(cfg, t) && ChainsOk(t)
            && s.published <= t.published
            && forall d :: LogOf(s, d) <= LogOf(t, d)
  {
    NextShape(cfg, s, l);
    NextEffect(cfg, s, l);
  }

  /** If no counter has wrapped by the end of a run, none wrapped on the way, and the invariant held all
      along. */
  lemma {:induction false} RunInv(cfg: Config, s: Sys, labels: seq<Label>)
    requires WellWired(cfg) && Inv(cfg, s) && Fits(Run(cfg, s, labels))
    ensures Inv(cfg, Run(cfg, s, labels)) && Fits(s)
  {
    if labels != [] {
      var before := labels[..|labels| - 1];
      var t := Run(cfg, s, before);
      RunLogsGrow(cfg, s, before);
      NextLogsGrow(cfg, t, labels[|labels| - 1]);
      assert Fits(t) by {
        forall d ensures |LogOf(t, d)| < MAX64 {
          assert LogOf(t, d) <= LogOf(Run(cfg, s, labels), d);
        }
      }
      RunInv(cfg, s, before);
      NextInv(cfg, t, labels[|labels| - 1]);
    }
  }
}
