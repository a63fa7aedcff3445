/** What holds in every run of the protocol, from the initial state, in which no channel's counter
    wraps. */
module ProtocolTheorems {
  import opened Basics
  import opened Channel
  import opened Blockchain
  import opened Protocol
  import opened ProtocolInvariants
  import opened Arrivals
  import Decimal

  function Reach(cfg: Config, labels: seq<Label>): Sys {
    Run(cfg, Initial(cfg), labels)
  }

  /** The wiring is right and no counter has wrapped. */
  ghost predicate Sound(cfg: Config, labels: seq<Label>) {
    WellWired(cfg) && Fits(Reach(cfg, labels))
  }

  lemma ReachInv(cfg: Config, labels: seq<Label>)
    requires Sound(cfg, labels)
    ensures Inv(cfg, Reach(cfg, labels))
  {
    InitialInv(cfg);
    RunInv(cfg, Initial(cfg), labels);
  }

  // ---------------------------------------------------------------- order

  /** A published data packet is the entry of its source channel at its number. */
  lemma SentEntry(cfg: Config, s: Sys, q: Packet)
    requires Inv(cfg, s) && q in s.published && q.kind == DATA
    ensures 1 <= q.sequence <= |LogOf(s, Source(q))| && LogOf(s, Source(q))[q.sequence - 1] == Issued(q)
  {
    assert Backed(s, q);
  }

  /** An accepted packet stands at its own number, and at the same place in its source's log. */
  lemma AcceptedEntry(cfg: Config, s: Sys, d: ChannelName, k: nat)
    requires Inv(cfg, s) && k < |LogOf(s, d)| && LogOf(s, d)[k].Accepted?
    ensures var q := LogOf(s, d)[k].packet;
            && Target(q) == d && q.sequence == k + 1 && q in s.published && q.kind == DATA
            && k < |LogOf(s, Source(q))| && LogOf(s, Source(q))[k] == Issued(q)
  {
    assert EntryOk(s, d, k);
    SentEntry(cfg, s, LogOf(s, d)[k].packet);
  }

  /** Whoever else sends to, or from, either channel: a packet is accepted only at the very position of
      the accepting channel's history at which it stands in the sending channel's history. */
  lemma Lockstep(cfg: Config, labels: seq<Label>, d: ChannelName, k: nat)
    requires Sound(cfg, labels)
    requires k < |LogOf(Reach(cfg, labels), d)| && LogOf(Reach(cfg, labels), d)[k].Accepted?
    ensures var s := Reach(cfg, labels);
            var q := LogOf(s, d)[k].packet;
            && Target(q) == d && q.sequence == k + 1
            && k < |LogOf(s, Source(q))| && LogOf(s, Source(q))[k] == Issued(q)
  {
    ReachInv(cfg, labels);
    AcceptedEntry(cfg, Reach(cfg, labels), d, k);
  }

  function AcceptedPackets(log: seq<Entry>): seq<Packet> {
    if log == [] then []
    else AcceptedPackets(log[..|log| - 1]) + (if log[|log| - 1].Accepted? then [log[|log| - 1].packet] else [])
  }

  function SentPackets(log: seq<Entry>): seq<Packet> {
    if log == [] then []
    else SentPackets(log[..|log| - 1]) + (if log[|log| - 1].Issued? then [log[|log| - 1].packet] else [])
  }

  ghost predicate ReceiveOnly(log: seq<Entry>) {
    forall i :: 0 <= i < |log| ==> log[i].Accepted?
  }

  /** Every packet published so far for channel d comes from channel c. */
  ghost predicate OnlySource(s: Sys, d: ChannelName, c: ChannelName) {
    forall p :: p in s.published && p.kind == DATA && Target(p) == d ==> Source(p) == c
  }

  lemma {:induction false} AcceptedAll(log: seq<Entry>)
    requires ReceiveOnly(log)
    ensures |AcceptedPackets(log)| == |log|
    ensures forall i :: 0 <= i < |log| ==> AcceptedPackets(log)[i] == log[i].packet
  {
    if log != [] {
      AcceptedAll(log[..|log| - 1]);
    }
  }

  lemma {:induction false} SentCount(log: seq<Entry>)
    ensures |SentPackets(log)| <= |log|
  {
    if log != [] {
      SentCount(log[..|log| - 1]);
    }
  }

  lemma {:induction false} SentFirst(log: seq<Entry>, n: nat)
    requires n <= |log| && forall i :: 0 <= i < n ==> log[i].Issued?
    ensures |SentPackets(log)| >= n
    ensures forall i :: 0 <= i < n ==> SentPackets(log)[i] == log[i].packet
  {
    if log != [] {
      var before := log[..|log| - 1];
      if n == |log| {
        SentFirst(before, n - 1);
        SentCount(before);
      } else {
        SentFirst(before, n);
      }
    }
  }

  ghost predicate AcceptedInOrder(s: Sys, d: ChannelName, c: ChannelName) {
    var accepted := AcceptedPackets(LogOf(s, d));
    && accepted <= SentPackets(LogOf(s, c))
    && forall i, j :: 0 <= i < j < |accepted| ==> accepted[i] != accepted[j]
  }

  ghost predicate AllFrom(log: seq<Entry>, c: ChannelName) {
    forall i :: 0 <= i < |log| && log[i].Accepted? ==> Source(log[i].packet) == c
  }

  lemma {:induction false} SentIsIssued(log: seq<Entry>, p: Packet)
    requires p in SentPackets(log)
    ensures Issued(p) in log
  {
    if log[|log| - 1] != Issued(p) {
      SentIsIssued(log[..|log| - 1], p);
    }
  }

  lemma InOrderGivesSource(cfg: Config, s: Sys, d: ChannelName, c: ChannelName)
    requires Inv(cfg, s) && ReceiveOnly(LogOf(s, d)) && AcceptedInOrder(s, d, c)
    ensures AllFrom(LogOf(s, d), c)
  {
    var log, sent := LogOf(s, d), SentPackets(LogOf(s, c));
    AcceptedAll(log);
    forall k | 0 <= k < |log| ensures Source(log[k].packet) == c {
      assert sent[k] == AcceptedPackets(log)[k];
      SentIsIssued(LogOf(s, c), log[k].packet);
      var i :| 0 <= i < |LogOf(s, c)| && LogOf(s, c)[i] == Issued(log[k].packet);
      assert EntryOk(s, c, i);
    }
  }

  lemma InvGivesOrder(cfg: Config, s: Sys, d: ChannelName, c: ChannelName)
    requires Inv(cfg, s) && ReceiveOnly(LogOf(s, d)) && AllFrom(LogOf(s, d), c)
    ensures AcceptedInOrder(s, d, c)
  {
    var log, sent := LogOf(s, d), LogOf(s, c);
    forall k | 0 <= k < |log|
      ensures k < |sent| && sent[k] == Issued(log[k].packet) && log[k].packet.sequence == k + 1
    {
      AcceptedEntry(cfg, s, d, k);
    }
    if log != [] {
      assert log[|log| - 1].Accepted?;
    }
    AcceptedAll(log);
    SentFirst(sent, |log|);
  }

  /** If channel d only receives and all packets for it come from channel c, then the packets d has
      accepted are a prefix of the packets c has sent, and none was accepted twice: relayers may copy
      and lose, and the transport may reorder, as they please. */
  lemma PrefixDelivery(cfg: Config, labels: seq<Label>, d: ChannelName, c: ChannelName)
    requires Sound(cfg, labels)
    requires ReceiveOnly(LogOf(Reach(cfg, labels), d)) && OnlySource(Reach(cfg, labels), d, c)
    ensures AcceptedInOrder(Reach(cfg, labels), d, c)
  {
    ReachInv(cfg, labels);
    forall k | 0 <= k < |LogOf(Reach(cfg, labels), d)| ensures Source(LogOf(Reach(cfg, labels), d)[k].packet) == c {
      AcceptedEntry(cfg, Reach(cfg, labels), d, k);
    }
    InvGivesOrder(cfg, Reach(cfg, labels), d, c);
  }

  /** With other senders about, a receive-only channel still holds a prefix of what c sent exactly when it
      has so far accepted from c alone: one packet of another sender breaks the order for good. */
  lemma PrefixExactly(cfg: Config, labels: seq<Label>, d: ChannelName, c: ChannelName)
    requires Sound(cfg, labels) && ReceiveOnly(LogOf(Reach(cfg, labels), d))
    ensures AcceptedInOrder(Reach(cfg, labels), d, c) <==> AllFrom(LogOf(Reach(cfg, labels), d), c)
  {
    ReachInv(cfg, labels);
    if AcceptedInOrder(Reach(cfg, labels), d, c) {
      InOrderGivesSource(cfg, Reach(cfg, labels), d, c);
    } else if AllFrom(LogOf(Reach(cfg, labels), d), c) {
      InvGivesOrder(cfg, Reach(cfg, labels), d, c);
    }
  }

  lemma OneWinner(cfg: Config, s: Sys, p: Packet, q: Packet)
    requires Inv(cfg, s)
    requires Target(p) == Target(q) && p.sequence == q.sequence && p != q
    ensures !(Accepted(p) in LogOf(s, Target(p)) && Accepted(q) in LogOf(s, Target(p)))
  {
    var log := LogOf(s, Target(p));
    if Accepted(p) in log && Accepted(q) in log {
      var i :| 0 <= i < |log| && log[i] == Accepted(p);
      var j :| 0 <= j < |log| && log[j] == Accepted(q);
      AcceptedEntry(cfg, s, Target(p), i);
      AcceptedEntry(cfg, s, Target(p), j);
    }
  }

  /** Where two channels send to one, they compete for each number: of any two packets with the same
      target and number, at most one is ever accepted. */
  lemma Competition(cfg: Config, labels: seq<Label>, p: Packet, q: Packet)
    requires Sound(cfg, labels)
    requires Target(p) == Target(q) && p.sequence == q.sequence && p != q
    ensures var log := LogOf(Reach(cfg, labels), Target(p));
            !(Accepted(p) in log && Accepted(q) in log)
  {
    ReachInv(cfg, labels);
    OneWinner(cfg, Reach(cfg, labels), p, q);
  }

  // ---------------------------------------------------------------- acknowledgements

  /** The message is on its way, waiting in an inbox, or handled. */
  predicate Seen(s: Sys, m: Message) {
    m in s.transit || m in Items(s, m.to) || m in s.handled
  }

  lemma SeenPublished(cfg: Config, s: Sys, m: Message)
    requires Inv(cfg, s) && Seen(s, m)
    ensures m.packet in s.published && Routed(cfg, m)
    ensures multiset(s.handled)[m] <= 1
  {
    assert Routed(cfg, m);
    assert Copies(cfg, s, m.via, m.packet) == multiset(s.published)[m.packet];
    assert m in multiset(s.transit) || m in multiset(Items(s, m.to)) || m in multiset(s.handled);
    assert m.packet in multiset(s.published);
  }

  /** The packet that acknowledgement a answers was accepted at a's source and sent by a's destination. */
  ghost predicate Answers(s: Sys, a: Packet, q: Packet) {
    && a.kind == ACK && Source(a) == Target(q) && Target(a) == Source(q) && a.sequence == q.sequence
    && a.srcPort == q.dstPort && a.srcChannel == q.dstChannel && a.dstPort == q.srcPort && a.dstChannel == q.srcChannel
    && a.payload == "ack_" + Decimal.Print(q.sequence)
    && 1 <= a.sequence <= |LogOf(s, Target(q))| && LogOf(s, Target(q))[a.sequence - 1] == Accepted(q)
    && a.sequence <= |LogOf(s, Source(q))| && LogOf(s, Source(q))[a.sequence - 1] == Issued(q)
  }

  ghost predicate Earned(cfg: Config, s: Sys, m: Message) {
    && m.to in cfg.nodes
    && exists q :: Answers(s, m.packet, q) && Source(q).chain == cfg.nodes[m.to]
  }

  /** A published acknowledgement comes from an accepted entry of its own source channel. */
  lemma AckEntry(cfg: Config, s: Sys, a: Packet) returns (q: Packet)
    requires Inv(cfg, s) && a in s.published && a.kind == ACK
    ensures a == AckFor(q)
    ensures 1 <= a.sequence <= |LogOf(s, Source(a))| && LogOf(s, Source(a))[a.sequence - 1] == Accepted(q)
  {
    assert Backed(s, a);
    assert EntryOk(s, Source(a), a.sequence - 1);
    q := LogOf(s, Source(a))[a.sequence - 1].packet;
  }

  lemma InvGivesEarned(cfg: Config, s: Sys, m: Message)
    requires WellWired(cfg) && Inv(cfg, s) && Seen(s, m) && m.packet.kind == ACK
    ensures Earned(cfg, s, m)
  {
    SeenPublished(cfg, s, m);
    var q := AckEntry(cfg, s, m.packet);
    AcceptedEntry(cfg, s, Source(m.packet), m.packet.sequence - 1);
    assert Answers(s, m.packet, q);
  }

  /** An acknowledgement on its way to a node, or handled there, answers a packet that the node's own
      chain sent before and that the acknowledging channel accepted before. */
  lemma AcksAreEarned(cfg: Config, labels: seq<Label>, m: Message)
    requires Sound(cfg, labels)
    requires Seen(Reach(cfg, labels), m) && m.packet.kind == ACK
    ensures Earned(cfg, Reach(cfg, labels), m)
  {
    ReachInv(cfg, labels);
    InvGivesEarned(cfg, Reach(cfg, labels), m);
  }

  function HandledCount(handled: seq<Message>, a: Packet): nat {
    if handled == [] then 0
    else HandledCount(handled[..|handled| - 1], a) + (if handled[|handled| - 1].packet == a then 1 else 0)
  }

  function Carriers(handled: seq<Message>, a: Packet): set<string> {
    set m | m in handled && m.packet == a :: m.via
  }

  lemma CarriersAppend(handled: seq<Message>, m: Message, a: Packet)
    ensures Carriers(handled + [m], a) == Carriers(handled, a) + (if m.packet == a then {m.via} else {})
  {
    assert forall n :: n in handled + [m] <==> n in handled || n == m;
  }

  /** If no relayer's copy of a is handled twice, each handling of a is due to a relayer of its own. */
  lemma {:induction false} OnePerCarrier(handled: seq<Message>, a: Packet)
    requires forall i, j :: 0 <= i < j < |handled| && handled[i].packet == a && handled[j].packet == a ==>
        handled[i].via != handled[j].via
    ensures HandledCount(handled, a) == |Carriers(handled, a)|
  {
    if handled != [] {
      var last := handled[|handled| - 1];
      var before := handled[..|handled| - 1];
      OnePerCarrier(before, a);
      assert handled == before + [last];
      CarriersAppend(before, last, a);
    }
  }

  lemma TwiceCounts(handled: seq<Message>, i: nat, j: nat)
    requires i < j < |handled| && handled[i] == handled[j]
    ensures multiset(handled)[handled[i]] >= 2
  {
    assert handled == handled[..j] + [handled[j]] + handled[j + 1..];
    assert handled[i] in handled[..j];
    assert handled[i] in multiset(handled[..j]);
  }

  lemma InvBoundsHandled(cfg: Config, s: Sys, a: Packet)
    requires Inv(cfg, s)
    ensures forall m :: multiset(s.handled)[m] <= 1
    ensures HandledCount(s.handled, a) <= |cfg.routes|
  {
    forall m ensures multiset(s.handled)[m] <= 1 {
      if m in s.handled {
        SeenPublished(cfg, s, m);
      }
    }
    forall i, j | 0 <= i < j < |s.handled| && s.handled[i].packet == a && s.handled[j].packet == a
      ensures s.handled[i].via != s.handled[j].via
    {
      assert Routed(cfg, s.handled[i]) && Routed(cfg, s.handled[j]);
      if s.handled[i] == s.handled[j] {
        TwiceCounts(s.handled, i, j);
      }
    }
    OnePerCarrier(s.handled, a);
    forall v | v in Carriers(s.handled, a) ensures v in cfg.routes.Keys {
      var m :| m in s.handled && m.packet == a && m.via == v;
      assert Routed(cfg, m);
    }
    SubsetSize(Carriers(s.handled, a), cfg.routes.Keys);
  }

  /** However many relayers bring it, a packet is handled at most once per relayer: so an acceptance leads
      to at most as many handled acknowledgements as there are relayers. */
  lemma HandledAtMostOncePerRelayer(cfg: Config, labels: seq<Label>, a: Packet)
    requires Sound(cfg, labels)
    ensures forall m :: multiset(Reach(cfg, labels).handled)[m] <= 1
    ensures HandledCount(Reach(cfg, labels).handled, a) <= |cfg.routes|
  {
    ReachInv(cfg, labels);
    InvBoundsHandled(cfg, Reach(cfg, labels), a);
  }

  // ---------------------------------------------------------------- arrivals

  lemma OnlyAccepts(s: Sys, t: Sys, d: ChannelName, e: Entry)
    requires Grows(s, t, d, e) && ReceiveOnly(LogOf(t, d))
    ensures e.Accepted?
  {
    assert LogOf(t, d)[|LogOf(s, d)|] == e;
  }

  /** A log that only grows stays receive-only backwards, and no counter below one that fits overflowed. */
  lemma Backwards(s: Sys, t: Sys, d: ChannelName)
    requires forall x :: LogOf(s, x) <= LogOf(t, x)
    ensures Fits(t) ==> Fits(s)
    ensures ReceiveOnly(LogOf(t, d)) ==> ReceiveOnly(LogOf(s, d))
  {
    if Fits(t) {
      forall x ensures |LogOf(s, x)| < MAX64 {
        assert |LogOf(s, x)| <= |LogOf(t, x)|;
      }
    }
    assert LogOf(s, d) == LogOf(t, d)[..|LogOf(s, d)|];
  }

  /** The numbers of the data packets handled for channel d, in order of arrival. */
  function ArrivalNumbers(handled: seq<Message>, d: ChannelName): seq<nat> {
    if handled == [] then []
    else
      var m := handled[|handled| - 1];
      ArrivalNumbers(handled[..|handled| - 1], d) +
      if m.packet.kind == DATA && Target(m.packet) == d then [m.packet.sequence as nat] else []
  }

  lemma ArrivalAppended(handled: seq<Message>, m: Message, d: ChannelName)
    ensures var before := Progress(ArrivalNumbers(handled, d));
            Progress(ArrivalNumbers(handled + [m], d)) ==
            before + if m.packet.kind == DATA && Target(m.packet) == d && m.packet.sequence == before + 1 then 1 else 0
  {
    assert (handled + [m])[..|handled|] == handled;
    var before := ArrivalNumbers(handled, d);
    assert before + [] == before;
    assert (before + [m.packet.sequence as nat])[..|before|] == before;
  }

  /** Nothing but a delivery can move a channel that only receives. */
  lemma NoArrival(cfg: Config, s: Sys, l: Label, d: ChannelName)
    requires Shape(cfg, s) && ChainsOk(s) && (l.Handle? ==> Items(s, l.address) == [])
    requires ReceiveOnly(LogOf(Next(cfg, s, l), d))
    ensures LogOf(Next(cfg, s, l), d) == LogOf(s, d) && Next(cfg, s, l).handled == s.handled
  {
    NextEffect(cfg, s, l);
    if l.SendPacket? && Emission(cfg, s, l).Some? && Emission(cfg, s, l).value.0 == d {
      OnlyAccepts(s, Next(cfg, s, l), d, Emission(cfg, s, l).value.1);
    }
  }

  lemma ReceiveAtLength(s: Sys, chain: string, p: Packet, d: ChannelName)
    requires ChainsOk(s) && chain in s.chains && chain == p.dstChain && |LogOf(s, Target(p))| < MAX64
    ensures |LogOf(ReceiveAt(s, chain, p), d)| ==
            |LogOf(s, d)| + if Target(p) == d && p.sequence == |LogOf(s, d)| + 1 then 1 else 0
    ensures ReceiveAt(s, chain, p).handled == s.handled
  {
    ReceiveAtEffect(s, chain, p);
    ReceiveLog(s.chains[chain], p);
    assert LogOf(s, Target(p)) == ChainLog(s.chains[chain], Target(p).key);
  }

  lemma HeadIsRouted(cfg: Config, s: Sys, a: string)
    requires WellWired(cfg) && Inv(cfg, s) && Items(s, a) != []
    ensures ChainsOk(s) && a in s.inboxes && a in cfg.nodes && cfg.nodes[a] in s.chains
    ensures cfg.nodes[a] == Items(s, a)[0].packet.dstChain
  {
    InboxPublished(cfg, s, a, Items(s, a)[0]);
  }

  /** A handled message moves the channel it is for if and only if it carries the number awaited there. */
  lemma HandleArrival(cfg: Config, s: Sys, l: Label, d: ChannelName)
    requires WellWired(cfg) && Inv(cfg, s) && Fits(s) && l.Handle? && Items(s, l.address) != []
    ensures var m := Items(s, l.address)[0];
            var t := Next(cfg, s, l);
            && t.handled == s.handled + [m]
            && |LogOf(t, d)| == |LogOf(s, d)| +
               if m.packet.kind == DATA && Target(m.packet) == d && m.packet.sequence == |LogOf(s, d)| + 1 then 1 else 0
  {
    HeadIsRouted(cfg, s, l.address);
    assert |LogOf(s, Target(Items(s, l.address)[0].packet))| < MAX64;
    RoutedArrival(cfg, s, l.address, d);
  }

  lemma RoutedArrival(cfg: Config, s: Sys, a: string, d: ChannelName)
    requires ChainsOk(s) && a in s.inboxes && a in cfg.nodes && cfg.nodes[a] in s.chains && s.inboxes[a].items != []
    requires var p := s.inboxes[a].items[0].packet; cfg.nodes[a] == p.dstChain && |LogOf(s, Target(p))| < MAX64
    ensures var m := s.inboxes[a].items[0];
            var t := DoHandle(cfg, s, a);
            && t.handled == s.handled + [m]
            && |LogOf(t, d)| == |LogOf(s, d)| +
               if m.packet.kind == DATA && Target(m.packet) == d && m.packet.sequence == |LogOf(s, d)| + 1 then 1 else 0
  {
    var p := s.inboxes[a].items[0].packet;
    LogsAfterTake(s, a);
    if p.kind == DATA {
      ReceiveAtLength(TakeMail(s, a), cfg.nodes[a], p, d);
    }
  }

  lemma LogsAfterTake(s: Sys, a: string)
    requires a in s.inboxes && s.inboxes[a].items != []
    ensures forall d :: LogOf(TakeMail(s, a), d) == LogOf(s, d)
  {
  }

  /** The channel's log is as long as its arrivals make it. */
  ghost predicate InStep(s: Sys, d: ChannelName) {
    |LogOf(s, d)| == Progress(ArrivalNumbers(s.handled, d))
  }

  lemma InStepKept(s: Sys, t: Sys, m: Message, d: ChannelName)
    requires InStep(s, d) && t.handled == s.handled + [m]
    requires |LogOf(t, d)| == |LogOf(s, d)| +
             if m.packet.kind == DATA && Target(m.packet) == d && m.packet.sequence == |LogOf(s, d)| + 1 then 1 else 0
    ensures InStep(t, d)
  {
    ArrivalAppended(s.handled, m, d);
  }

  lemma HandleInStep(cfg: Config, s: Sys, l: Label, d: ChannelName)
    requires WellWired(cfg) && Inv(cfg, s) && Fits(s) && InStep(s, d)
    requires l.Handle? && Items(s, l.address) != []
    ensures InStep(Next(cfg, s, l), d)
  {
    HandleArrival(cfg, s, l, d);
    InStepKept(s, Next(cfg, s, l), Items(s, l.address)[0], d);
  }

  lemma IdleInStep(cfg: Config, s: Sys, l: Label, d: ChannelName)
    requires Shape(cfg, s) && ChainsOk(s) && InStep(s, d) && (l.Handle? ==> Items(s, l.address) == [])
    requires ReceiveOnly(LogOf(Next(cfg, s, l), d))
    ensures InStep(Next(cfg, s, l), d)
  {
    NoArrival(cfg, s, l, d);
  }

  lemma {:induction false} ArrivalsDecide(cfg: Config, labels: seq<Label>, d: ChannelName)
    requires Sound(cfg, labels) && ReceiveOnly(LogOf(Reach(cfg, labels), d))
    ensures InStep(Reach(cfg, labels), d)
  {
    InitialInv(cfg);
    if labels != [] {
      var before, l := labels[..|labels| - 1], labels[|labels| - 1];
      var s := Reach(cfg, before);
      RunLogsGrow(cfg, Initial(cfg), before);
      NextLogsGrow(cfg, s, l);
      Backwards(s, Next(cfg, s, l), d);
      ArrivalsDecide(cfg, before, d);
      ReachInv(cfg, before);
      if l.Handle? && Items(s, l.address) != [] {
        HandleInStep(cfg, s, l, d);
      } else {
        IdleInStep(cfg, s, l, d);
      }
    }
  }

  /** A receive-only channel has accepted k packets or more exactly when 1 .. k is a subsequence of the
      numbers that arrived for it, from whatever relayers: one complete in-order stream is enough. */
  lemma DeliveryIsGreedy(cfg: Config, labels: seq<Label>, d: ChannelName, k: nat)
    requires Sound(cfg, labels) && ReceiveOnly(LogOf(Reach(cfg, labels), d))
    ensures k <= |LogOf(Reach(cfg, labels), d)| <==> CountsTo(k, ArrivalNumbers(Reach(cfg, labels).handled, d))
  {
    ArrivalsDecide(cfg, labels, d);
    ProgressExactly(ArrivalNumbers(Reach(cfg, labels).handled, d), k);
  }

  /** The numbers that arrived for d by way of one relayer. */
  function NumbersVia(handled: seq<Message>, d: ChannelName, r: string): seq<nat> {
    if handled == [] then []
    else
      var m := handled[|handled| - 1];
      NumbersVia(handled[..|handled| - 1], d, r) +
      if m.packet.kind == DATA && Target(m.packet) == d && m.via == r then [m.packet.sequence as nat] else []
  }

  lemma ProgressAppend(numbers: seq<nat>, n: nat)
    ensures Progress(numbers + [n]) == Progress(numbers) + (if n == Progress(numbers) + 1 then 1 else 0)
    ensures Progress(numbers + []) == Progress(numbers)
  {
    assert (numbers + [n])[..|numbers|] == numbers && numbers + [] == numbers;
  }

  lemma {:induction false} OneStreamIsSlower(handled: seq<Message>, d: ChannelName, r: string)
    ensures Progress(NumbersVia(handled, d, r)) <= Progress(ArrivalNumbers(handled, d))
  {
    if handled != [] {
      var before, m := handled[..|handled| - 1], handled[|handled| - 1];
      OneStreamIsSlower(before, d, r);
      ProgressAppend(NumbersVia(before, d, r), m.packet.sequence);
      ProgressAppend(ArrivalNumbers(before, d), m.packet.sequence);
    }
  }

  /** One relayer that brings 1 .. k in order is enough, whatever the others do. */
  lemma OneGoodRelayerSuffices(cfg: Config, labels: seq<Label>, d: ChannelName, r: string, k: nat)
    requires Sound(cfg, labels) && ReceiveOnly(LogOf(Reach(cfg, labels), d))
    requires CountsTo(k, NumbersVia(Reach(cfg, labels).handled, d, r))
    ensures k <= |LogOf(Reach(cfg, labels), d)|
  {
    ArrivalsDecide(cfg, labels, d);
    ProgressExactly(NumbersVia(Reach(cfg, labels).handled, d, r), k);
    OneStreamIsSlower(Reach(cfg, labels).handled, d, r);
  }

  // ---------------------------------------------------------------- conservation

  /** Each relayer accounts for each published packet exactly once: queued, in hand, lost, in transit, in
      an inbox, refused or handled, and in only one of these; and for no other packet at all. */
  lemma CopiesAreConserved(cfg: Config, labels: seq<Label>, r: string, p: Packet)
    requires Sound(cfg, labels) && r in Reach(cfg, labels).stations
    ensures Copies(cfg, Reach(cfg, labels), r, p) == if p in Reach(cfg, labels).published then 1 else 0
  {
    ReachInv(cfg, labels);
    InvGivesCopies(cfg, Reach(cfg, labels), r, p);
  }

  lemma InvGivesCopies(cfg: Config, s: Sys, r: string, p: Packet)
    requires Inv(cfg, s) && r in s.stations
    ensures Copies(cfg, s, r, p) == if p in s.published then 1 else 0
  {
    assert Copies(cfg, s, r, p) == multiset(s.published)[p];
    assert p in s.published <==> p in multiset(s.published);
  }
}
