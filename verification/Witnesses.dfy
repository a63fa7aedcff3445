/** Reachable states in which the two failures happen: two senders to one channel, and a packet that its
    only relayer loses. */
module Witnesses {
  import opened Basics
  import opened Channel
  import opened Blockchain
  import opened ConcurrentQueue
  import opened FanIn
  import opened Protocol
  import opened ProtocolInvariants
  import opened ProtocolTheorems
  import opened Possibility
  import opened Stalls
  import R = Relayer

  /** Chains A, B and C, and a relayer that knows C's mailbox. */
  function Wiring(): Config {
    Config({"A", "B", "C"}, map["r" := map["C" := "c"]], map["c" := "C"])
  }

  /** What chain `from` sends first to C's one channel. */
  function FirstSend(from: string): Label {
    SendPacket(from, "p", "x", "C", "q", "y", from)
  }

  function FirstPacket(from: string): Packet {
    Packet(DATA, from, "C", "p", "x", "q", "y", 1, from)
  }

  function SentOnce(chain: string): ChainState {
    Send(Genesis(chain), "p", "x", "C", "q", "y", chain).0
  }

  function Receiver(): ChannelName {
    Target(FirstPacket("A"))
  }

  function Queueing(items: seq<Packet>): R.Relayer {
    R.NewRelayer().(packets := Queue(items, false, items, []))
  }

  /** The state after the chains in froms have each made their first send. */
  ghost predicate HaveSent(s: Sys, froms: seq<string>) {
    var packets := seq(|froms|, i requires 0 <= i < |froms| => FirstPacket(froms[i]));
    && s.chains.Keys == {"A", "B", "C"} && s.published == packets
    && s.stations == map["r" := Station(Queueing(packets), [])]
    && s.inboxes == map["c" := EmptyQueue()]
    && (forall c :: c in s.chains ==> s.chains[c] == if c in froms then SentOnce(c) else Genesis(c))
  }

  lemma ShortLogs(s: Sys, froms: seq<string>)
    requires HaveSent(s, froms)
    ensures forall d :: |LogOf(s, d)| <= 1
    ensures Fits(s)
  {
    forall d ensures |LogOf(s, d)| <= 1 {
      if d.chain in froms {
        assert d.chain in s.chains ==> s.chains[d.chain] == SentOnce(d.chain);
      }
    }
    forall d ensures |LogOf(s, d)| < MAX64 {
      assert |LogOf(s, d)| <= 1;
    }
  }

  lemma NobodySent()
    ensures HaveSent(Initial(Wiring()), []) && WellWired(Wiring())
  {
    assert Initial(Wiring()).stations == map["r" := Station(Queueing([]), [])];
  }

  lemma OneMoreSent(s: Sys, froms: seq<string>, from: string)
    requires HaveSent(s, froms) && from !in froms && from in s.chains && "C" !in froms
    ensures HaveSent(Next(Wiring(), s, FirstSend(from)), froms + [from])
  {
    var p := FirstPacket(from);
    var t := Next(Wiring(), s, FirstSend(from));
    var (c, made) := Send(s.chains[from], "p", "x", "C", "q", "y", from);
    assert made == Some(p);
    assert t.published == s.published + [p];
    assert t.stations == map["r" := Offer(s.stations["r"], p)];
    assert Genesis(from).chainId == from;
  }

  lemma SendAfter(labels: seq<Label>, froms: seq<string>, from: string) returns (more: seq<Label>)
    requires HaveSent(Reach(Wiring(), labels), froms)
    requires from !in froms && (from == "A" || from == "B") && "C" !in froms
    ensures HaveSent(Reach(Wiring(), more), froms + [from]) && Sound(Wiring(), more)
  {
    var s := Reach(Wiring(), labels);
    more := labels + [FirstSend(from)];
    NobodySent();
    OneMoreSent(s, froms, from);
    RunLast(Wiring(), Initial(Wiring()), labels, FirstSend(from));
    ShortLogs(Next(Wiring(), s, FirstSend(from)), froms + [from]);
  }

  lemma OneSend(from: string) returns (labels: seq<Label>)
    requires from == "A" || from == "B"
    ensures HaveSent(Reach(Wiring(), labels), [from]) && Sound(Wiring(), labels)
  {
    NobodySent();
    labels := SendAfter([], [], from);
    assert [] + [from] == [from];
  }

  lemma TwoSends() returns (labels: seq<Label>)
    ensures HaveSent(Reach(Wiring(), labels), ["B", "A"]) && Sound(Wiring(), labels)
  {
    var first := OneSend("B");
    labels := SendAfter(first, ["B"], "A");
    assert ["B"] + ["A"] == ["B", "A"];
  }

  lemma FirstIsAwaited(s: Sys, froms: seq<string>, from: string)
    requires HaveSent(s, froms) && from in froms && "C" !in froms
    ensures Awaited(s, FirstPacket(from)) && LogOf(s, Receiver()) == []
    ensures Queued(s.stations["r"].relayer, FirstPacket(from), false)
  {
    var i :| 0 <= i < |froms| && froms[i] == from;
    assert s.published[i] == FirstPacket(from);
  }

  lemma FirstIsLive(s: Sys, froms: seq<string>, from: string)
    requires HaveSent(s, froms) && from in froms && "C" !in froms
    ensures Live(Wiring(), s, FirstPacket(from))
  {
    FirstIsAwaited(s, froms, from);
    var p := FirstPacket(from);
    assert p in multiset(s.stations["r"].relayer.packets.items);
    assert OnItsWay(Wiring(), s, "r", p);
  }

  /** A and B both send to C's channel, B's packet is delivered first, and from then on C is out of order
      with respect to A, whose own first packet can no longer be accepted. */
  lemma FanInBreaksOrder() returns (labels: seq<Label>)
    ensures var s := Reach(Wiring(), labels);
            && Sound(Wiring(), labels) && ReceiveOnly(LogOf(s, Receiver()))
            && FirstPacket("A") in s.published && !AcceptedInOrder(s, Receiver(), Source(FirstPacket("A")))
            && Accepted(FirstPacket("A")) !in LogOf(s, Receiver())
  {
    var sends := TwoSends();
    var s := Reach(Wiring(), sends);
    FirstIsAwaited(s, ["B", "A"], "B");
    FirstIsAwaited(s, ["B", "A"], "A");
    FirstIsLive(s, ["B", "A"], "B");
    var more := IntruderCanWin(Wiring(), sends, Source(FirstPacket("A")), FirstPacket("B"));
    labels := sends + more;
    StillPublished(sends, more, FirstPacket("A"));
    Competition(Wiring(), labels, FirstPacket("A"), FirstPacket("B"));
  }

  lemma StillPublished(labels: seq<Label>, more: seq<Label>, p: Packet)
    requires p in Reach(Wiring(), labels).published
    ensures p in Reach(Wiring(), labels + more).published
  {
    RunAppend(Wiring(), Initial(Wiring()), labels, more);
    InitialInv(Wiring());
    RunLogsGrow(Wiring(), Initial(Wiring()), labels);
    RunLogsGrow(Wiring(), Reach(Wiring(), labels), more);
  }

  /** A sends once, its only relayer loses the packet, and C's channel has stalled. */
  lemma LossStalls() returns (labels: seq<Label>)
    ensures Sound(Wiring(), labels) && Awaited(Reach(Wiring(), labels), FirstPacket("A"))
    ensures !Live(Wiring(), Reach(Wiring(), labels), FirstPacket("A"))
  {
    var send := OneSend("A");
    FirstIsAwaited(Reach(Wiring(), send), ["A"], "A");
    var more := SoleRelayerCanLose(Wiring(), send, "r", FirstPacket("A"), false);
    labels := send + more;
  }
}
