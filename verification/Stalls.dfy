/** When a channel can no longer move.  A packet that a channel waits for is dead once no copy of it can
    still be the first to reach the channel with its number; then no continuation accepts it. */
module Stalls {
  import opened Basics
  import opened Channel
  import opened ConcurrentQueue
  import opened Protocol
  import opened ProtocolInvariants
  import opened ProtocolTheorems

  // ---------------------------------------------------------------- copies left

  /** Copies of p that can still reach an inbox or be handled, by way of r. */
  function InPlay(cfg: Config, s: Sys, r: string, p: Packet): nat
    requires r in s.stations
  {
    var st := s.stations[r].relayer;
    multiset(st.packets.items)[p] + multiset(st.acks.items)[p] + InHand(st, p) +
    if r in cfg.routes && p.dstChain in cfg.routes[r] then
      var m := Message(r, cfg.routes[r][p.dstChain], p);
      multiset(s.transit)[m] + multiset(Items(s, m.to))[m]
    else 0
  }

  /** Copies of p that are over and done with, by way of r. */
  function Spent(cfg: Config, s: Sys, r: string, p: Packet): nat
    requires r in s.stations
  {
    multiset(s.stations[r].dropped)[p] +
    if r in cfg.routes && p.dstChain in cfg.routes[r] then
      var m := Message(r, cfg.routes[r][p.dstChain], p);
      multiset(s.handled)[m] + multiset(s.undelivered)[m]
    else 0
  }

  ghost predicate NoCopyLeft(cfg: Config, s: Sys, p: Packet) {
    forall r :: r in s.stations ==> InPlay(cfg, s, r, p) == 0
  }

  /** Nothing is ever struck off the record of lost and handled copies. */
  lemma HistoriesGrow(cfg: Config, s: Sys, l: Label, r: string)
    requires r in s.stations
    ensures var t := Next(cfg, s, l);
            && r in t.stations && s.stations[r].dropped <= t.stations[r].dropped
            && s.handled <= t.handled && s.undelivered <= t.undelivered
  {
    if l.SendPacket? {
      SendHistories(s, l, r);
    } else if l.Handle? {
      HandleHistories(cfg, s, l.address, r);
    }
  }

  lemma SendHistories(s: Sys, l: Label, r: string)
    requires l.SendPacket? && r in s.stations
    ensures var t := DoSend(s, l);
            && r in t.stations && s.stations[r].dropped <= t.stations[r].dropped
            && s.handled <= t.handled && s.undelivered <= t.undelivered
  {
  }

  lemma HandleHistories(cfg: Config, s: Sys, a: string, r: string)
    requires r in s.stations
    ensures var t := DoHandle(cfg, s, a);
            && r in t.stations && s.stations[r].dropped <= t.stations[r].dropped
            && s.handled <= t.handled && s.undelivered <= t.undelivered
  {
  }

  lemma NextSpent(cfg: Config, s: Sys, t: Sys, r: string, p: Packet)
    requires r in s.stations && r in t.stations && s.stations[r].dropped <= t.stations[r].dropped
    requires s.handled <= t.handled && s.undelivered <= t.undelivered
    ensures Spent(cfg, s, r, p) <= Spent(cfg, t, r, p)
  {
    PrefixCount(s.stations[r].dropped, t.stations[r].dropped, p);
    if r in cfg.routes && p.dstChain in cfg.routes[r] {
      var m := Message(r, cfg.routes[r][p.dstChain], p);
      PrefixCount(s.handled, t.handled, m);
      PrefixCount(s.undelivered, t.undelivered, m);
    }
  }

  lemma PrefixCount<T>(a: seq<T>, b: seq<T>, x: T)
    requires a <= b
    ensures multiset(a)[x] <= multiset(b)[x]
  {
    assert b == a + b[|a|..];
  }

  lemma CopiesSplit(cfg: Config, s: Sys, r: string, p: Packet)
    requires r in s.stations
    ensures Copies(cfg, s, r, p) == InPlay(cfg, s, r, p) + Spent(cfg, s, r, p)
  {
  }

  lemma NoCopyAt(cfg: Config, s: Sys, t: Sys, r: string, p: Packet)
    requires Inv(cfg, s) && Inv(cfg, t) && r in s.stations && r in t.stations && p in s.published
    requires Spent(cfg, s, r, p) <= Spent(cfg, t, r, p) && InPlay(cfg, s, r, p) == 0
    ensures InPlay(cfg, t, r, p) == 0
  {
    CopiesSplit(cfg, s, r, p);
    CopiesSplit(cfg, t, r, p);
    assert p in multiset(s.published);
    assert multiset(t.published)[p] <= 1;
  }

  /** As nothing is published twice, a packet with no copy left stays that way. */
  lemma NextNoCopy(cfg: Config, s: Sys, l: Label, p: Packet)
    requires Inv(cfg, s) && Inv(cfg, Next(cfg, s, l))
    requires p in s.published && NoCopyLeft(cfg, s, p)
    ensures NoCopyLeft(cfg, Next(cfg, s, l), p)
  {
    var t := Next(cfg, s, l);
    assert t.stations.Keys == s.stations.Keys;
    forall r | r in t.stations ensures InPlay(cfg, t, r, p) == 0 {
      HistoriesGrow(cfg, s, l, r);
      NextSpent(cfg, s, t, r, p);
      NoCopyAt(cfg, s, t, r, p);
    }
  }

  // ---------------------------------------------------------------- live copies

  /** p was sent, and its channel is at its number. */
  ghost predicate Awaited(s: Sys, p: Packet) {
    p in s.published && p.kind == DATA && p.sequence == |LogOf(s, Target(p))| + 1
  }

  /** Another packet that would take p's number at p's channel. */
  predicate Rival(p: Packet, q: Packet) {
    q.kind == DATA && Target(q) == Target(p) && q.sequence == p.sequence && q != p
  }

  predicate Clear(items: seq<Message>, p: Packet) {
    forall i :: 0 <= i < |items| ==> !Rival(p, items[i].packet)
  }

  /** p stands at position k of an inbox with no rival ahead of it. */
  predicate InLineAt(items: seq<Message>, k: nat, p: Packet) {
    k < |items| && items[k].packet == p && forall i :: 0 <= i < k ==> !Rival(p, items[i].packet)
  }

  ghost predicate InLine(s: Sys, a: string, p: Packet) {
    exists k :: InLineAt(Items(s, a), k, p)
  }

  /** Copies that have not reached an inbox: queued, in hand, or in transit, by way of r. */
  function Moving(cfg: Config, s: Sys, r: string, p: Packet): nat
    requires r in s.stations
  {
    var st := s.stations[r].relayer;
    multiset(st.packets.items)[p] + multiset(st.acks.items)[p] + InHand(st, p) +
    if r in cfg.routes && p.dstChain in cfg.routes[r]
    then multiset(s.transit)[Message(r, cfg.routes[r][p.dstChain], p)]
    else 0
  }

  /** Copies of a message that have come to the end of their way. */
  function Arrived(s: Sys, m: Message): nat {
    multiset(Items(s, m.to))[m] + multiset(s.handled)[m] + multiset(s.undelivered)[m]
  }

  /** Copies that are over with, or in an inbox, by way of r. */
  function Settled(cfg: Config, s: Sys, r: string, p: Packet): nat
    requires r in s.stations
  {
    multiset(s.stations[r].dropped)[p] +
    if r in cfg.routes && p.dstChain in cfg.routes[r] then Arrived(s, Message(r, cfg.routes[r][p.dstChain], p)) else 0
  }

  /** Where relayer r would take p is an open inbox with no rival in it. */
  ghost predicate WayIsFree(cfg: Config, s: Sys, r: string, p: Packet) {
    && r in cfg.routes && p.dstChain in cfg.routes[r]
    && var a := cfg.routes[r][p.dstChain];
       a in s.inboxes && !s.inboxes[a].closed && Clear(s.inboxes[a].items, p)
  }

  ghost predicate OnItsWay(cfg: Config, s: Sys, r: string, p: Packet) {
    r in s.stations && Moving(cfg, s, r, p) > 0 && WayIsFree(cfg, s, r, p)
  }

  /** Some copy of p can still be the first to bring its number: it is in an inbox ahead of all rivals, or
      it has not arrived and its way is free. */
  ghost predicate Live(cfg: Config, s: Sys, p: Packet) {
    (exists a :: InLine(s, a, p)) || (exists r :: OnItsWay(cfg, s, r, p))
  }

  lemma CopiesMoveAndSettle(cfg: Config, s: Sys, r: string, p: Packet)
    requires r in s.stations
    ensures Copies(cfg, s, r, p) == Moving(cfg, s, r, p) + Settled(cfg, s, r, p)
    ensures Moving(cfg, s, r, p) <= InPlay(cfg, s, r, p)
  {
  }

  /** With no copy left at all, nothing is live. */
  lemma NoCopyIsDead(cfg: Config, s: Sys, p: Packet)
    requires Inv(cfg, s) && NoCopyLeft(cfg, s, p)
    ensures !Live(cfg, s, p)
  {
    forall a ensures !InLine(s, a, p) {
      if k: nat :| InLineAt(Items(s, a), k, p) {
        InboxInPlay(cfg, s, a, Items(s, a)[k]);
      }
    }
    forall r ensures !OnItsWay(cfg, s, r, p) {
      if r in s.stations {
        CopiesMoveAndSettle(cfg, s, r, p);
      }
    }
  }

  lemma InboxInPlay(cfg: Config, s: Sys, a: string, m: Message)
    requires Inv(cfg, s) && m in Items(s, a)
    ensures m.via in s.stations && InPlay(cfg, s, m.via, m.packet) > 0
  {
    InboxPublished(cfg, s, a, m);
    assert m in multiset(Items(s, a));
  }

  // ---------------------------------------------------------------- the dead stay dead

  /** The inboxes after a step: unchanged, but for the one a message joins or leaves. */
  ghost predicate InboxesStep(s: Sys, t: Sys, l: Label) {
    && (forall a :: a in s.inboxes && s.inboxes[a].closed ==> a in t.inboxes && t.inboxes[a].closed)
    && forall a ::
         if l.Handle? && a == l.address && Items(s, a) != [] then Items(t, a) == Items(s, a)[1..]
         else if l.Deliver? && l.at < |s.transit| && s.transit[l.at].to == a && a in s.inboxes && !s.inboxes[a].closed
         then Items(t, a) == Items(s, a) + [s.transit[l.at]]
         else Items(t, a) == Items(s, a)
  }

  lemma NextInboxes(cfg: Config, s: Sys, l: Label)
    requires s.inboxes.Keys == cfg.nodes.Keys
    ensures InboxesStep(s, Next(cfg, s, l), l)
  {
    if l.Handle? {
      HandleInboxes(cfg, s, l);
    } else if l.Deliver? {
      DeliverInboxes(s, l);
    } else if l.CloseInbox? {
      CloseInboxes(cfg, s, l);
    } else {
      OtherInboxes(cfg, s, l);
      SameInboxes(s, Next(cfg, s, l), l);
    }
  }

  lemma SameInboxes(s: Sys, t: Sys, l: Label)
    requires !l.Handle? && !l.Deliver? && t.inboxes == s.inboxes
    ensures InboxesStep(s, t, l)
  {
  }

  lemma CloseInboxes(cfg: Config, s: Sys, l: Label)
    requires l.CloseInbox?
    ensures InboxesStep(s, Next(cfg, s, l), l)
  {
  }

  lemma OtherInboxes(cfg: Config, s: Sys, l: Label)
    requires !l.Handle? && !l.Deliver? && !l.CloseInbox?
    ensures Next(cfg, s, l).inboxes == s.inboxes
  {
    if l.SendPacket? {
      assert DoSend(s, l).inboxes == s.inboxes;
    } else if l.FinishRelay? {
      assert DoFinish(cfg, s, l.name, l.lucky).inboxes == s.inboxes;
    }
  }

  lemma DeliverInboxes(s: Sys, l: Label)
    requires l.Deliver?
    ensures InboxesStep(s, DoDeliver(s, l.at), l)
  {
  }

  lemma HandleInboxes(cfg: Config, s: Sys, l: Label)
    requires s.inboxes.Keys == cfg.nodes.Keys && l.Handle?
    ensures InboxesStep(s, DoHandle(cfg, s, l.address), l)
  {
    if l.address in s.inboxes && s.inboxes[l.address].items != [] {
      assert DoHandle(cfg, s, l.address).inboxes == s.inboxes[l.address := Pop(s.inboxes[l.address]).0];
    }
  }

  lemma ArrivedGrows(cfg: Config, s: Sys, l: Label, m: Message)
    requires Inv(cfg, s)
    ensures Arrived(s, m) <= Arrived(Next(cfg, s, l), m)
  {
    var t := Next(cfg, s, l);
    NextInboxes(cfg, s, l);
    if l.Handle? {
      HandleArrived(cfg, s, l, m);
    } else {
      HistoriesOfMail(cfg, s, l);
      PrefixCount(s.handled, t.handled, m);
      PrefixCount(s.undelivered, t.undelivered, m);
      PrefixCount(Items(s, m.to), Items(t, m.to), m);
    }
  }

  lemma HistoriesOfMail(cfg: Config, s: Sys, l: Label)
    ensures var t := Next(cfg, s, l);
            s.handled <= t.handled && s.undelivered <= t.undelivered
  {
    if l.SendPacket? {
      assert DoSend(s, l).handled == s.handled && DoSend(s, l).undelivered == s.undelivered;
    } else if l.Handle? {
      assert DoHandle(cfg, s, l.address).undelivered == s.undelivered;
    }
  }

  lemma HandleArrived(cfg: Config, s: Sys, l: Label, m: Message)
    requires Inv(cfg, s) && l.Handle?
    ensures Arrived(s, m) <= Arrived(DoHandle(cfg, s, l.address), m)
  {
    var a := l.address;
    if Items(s, a) != [] {
      var t := DoHandle(cfg, s, a);
      var head := Items(s, a)[0];
      HeadRouted(cfg, s, a);
      HeadCount(Items(s, a), m);
      HandleInboxes(cfg, s, l);
      assert t.handled == s.handled + [head] && t.undelivered == s.undelivered;
    }
  }

  lemma HeadRouted(cfg: Config, s: Sys, a: string)
    requires Inv(cfg, s) && Items(s, a) != []
    ensures Items(s, a)[0].to == a && a in cfg.nodes
  {
    InboxPublished(cfg, s, a, Items(s, a)[0]);
  }

  /** A copy that has settled does not move again. */
  lemma MovingShrinks(cfg: Config, s: Sys, l: Label, r: string, p: Packet)
    requires Inv(cfg, s) && Inv(cfg, Next(cfg, s, l)) && r in s.stations && p in s.published
    ensures r in Next(cfg, s, l).stations && Moving(cfg, Next(cfg, s, l), r, p) <= Moving(cfg, s, r, p)
  {
    var t := Next(cfg, s, l);
    HistoriesGrow(cfg, s, l, r);
    PrefixCount(s.stations[r].dropped, t.stations[r].dropped, p);
    if r in cfg.routes && p.dstChain in cfg.routes[r] {
      ArrivedGrows(cfg, s, l, Message(r, cfg.routes[r][p.dstChain], p));
    }
    MovingFromSettled(cfg, s, t, r, p);
  }

  lemma MovingFromSettled(cfg: Config, s: Sys, t: Sys, r: string, p: Packet)
    requires Inv(cfg, s) && Inv(cfg, t) && r in s.stations && r in t.stations && p in s.published
    requires Settled(cfg, s, r, p) <= Settled(cfg, t, r, p)
    ensures Moving(cfg, t, r, p) <= Moving(cfg, s, r, p)
  {
    CopiesMoveAndSettle(cfg, s, r, p);
    CopiesMoveAndSettle(cfg, t, r, p);
    assert p in multiset(s.published);
    assert multiset(t.published)[p] <= 1;
  }

  /** While p's channel stays where it is, no rival of p comes to the head of its inbox and is handled:
      it would have been accepted. */
  lemma HeadNoRival(cfg: Config, s: Sys, l: Label, p: Packet)
    requires WellWired(cfg) && Inv(cfg, s) && Fits(s) && Awaited(s, p)
    requires l.Handle? && Items(s, l.address) != []
    ensures LogOf(Next(cfg, s, l), Target(p)) == LogOf(s, Target(p)) ==> !Rival(p, Items(s, l.address)[0].packet)
  {
    HandleEmission(cfg, s, l);
    NextEffect(cfg, s, l);
  }

  /** How one inbox changes in a step that leaves p's channel alone: a head that is no rival leaves, or a
      message joins, or nothing happens. */
  lemma InboxCases(cfg: Config, s: Sys, l: Label, a: string, p: Packet)
    requires WellWired(cfg) && Inv(cfg, s) && Fits(s) && Awaited(s, p)
    requires LogOf(Next(cfg, s, l), Target(p)) == LogOf(s, Target(p))
    ensures var before, after := Items(s, a), Items(Next(cfg, s, l), a);
            || (before != [] && after == before[1..] && !Rival(p, before[0].packet))
            || (before <= after && (|after| > |before| ==> JoinsFrom(s, a, after[|before|]) && |after| == |before| + 1))
  {
    NextInboxes(cfg, s, l);
    if l.Handle? && a == l.address && Items(s, a) != [] {
      HeadNoRival(cfg, s, l, p);
    }
  }

  /** The message is in transit to an open inbox. */
  ghost predicate JoinsFrom(s: Sys, a: string, m: Message) {
    m in s.transit && m.to == a && a in s.inboxes && !s.inboxes[a].closed
  }

  lemma ClearBefore(before: seq<Message>, after: seq<Message>, p: Packet)
    requires before <= after || (before != [] && after == before[1..] && !Rival(p, before[0].packet))
    requires Clear(after, p)
    ensures Clear(before, p)
  {
    if before <= after {
      assert forall i :: 0 <= i < |before| ==> before[i] == after[i];
    } else {
      assert forall i :: 0 < i < |before| ==> before[i] == after[i - 1];
    }
  }

  lemma ClearAhead(before: seq<Message>, after: seq<Message>, k: nat, p: Packet)
    requires before <= after && |before| <= k && InLineAt(after, k, p)
    ensures Clear(before, p)
  {
    assert forall i :: 0 <= i < |before| ==> before[i] == after[i];
  }

  lemma InLineBefore(before: seq<Message>, after: seq<Message>, k: nat, p: Packet) returns (j: nat)
    requires (before <= after && k < |before|) || (before != [] && after == before[1..] && !Rival(p, before[0].packet))
    requires InLineAt(after, k, p)
    ensures InLineAt(before, j, p)
  {
    if before <= after && k < |before| {
      j := k;
      assert forall i :: 0 <= i < |before| ==> before[i] == after[i];
    } else {
      j := k + 1;
      assert forall i :: 0 < i < |before| ==> before[i] == after[i - 1];
    }
  }

  lemma WayWasFree(cfg: Config, s: Sys, l: Label, r: string, p: Packet)
    requires WellWired(cfg) && Inv(cfg, s) && Fits(s) && Awaited(s, p)
    requires LogOf(Next(cfg, s, l), Target(p)) == LogOf(s, Target(p))
    requires WayIsFree(cfg, Next(cfg, s, l), r, p)
    ensures WayIsFree(cfg, s, r, p)
  {
    var a := cfg.routes[r][p.dstChain];
    NextInboxes(cfg, s, l);
    NextShape(cfg, s, l);
    InboxCases(cfg, s, l, a, p);
    ClearBefore(Items(s, a), Items(Next(cfg, s, l), a), p);
  }

  lemma JoinerIsLive(cfg: Config, s: Sys, a: string, m: Message, p: Packet)
    requires Inv(cfg, s) && JoinsFrom(s, a, m) && m.packet == p && Clear(Items(s, a), p)
    ensures Live(cfg, s, p)
  {
    JustArrived(cfg, s, m, p);
  }

  lemma InLineIsLive(cfg: Config, s: Sys, a: string, k: nat, p: Packet)
    requires InLineAt(Items(s, a), k, p)
    ensures Live(cfg, s, p)
  {
    assert InLine(s, a, p);
  }

  /** What stands in line after a step stood there before, or has just joined a clear line. */
  lemma LineCases(s: Sys, a: string, after: seq<Message>, k: nat, p: Packet) returns (joined: bool, j: nat)
    requires var before := Items(s, a);
             || (before != [] && after == before[1..] && !Rival(p, before[0].packet))
             || (before <= after &&
                  (|after| > |before| ==> JoinsFrom(s, a, after[|before|]) && |after| == |before| + 1))
    requires InLineAt(after, k, p)
    ensures var before := Items(s, a);
            if joined then |before| < |after| && JoinsFrom(s, a, after[|before|]) && after[|before|].packet == p &&
                Clear(before, p)
            else InLineAt(before, j, p)
  {
    var before := Items(s, a);
    joined, j := before <= after && k >= |before|, 0;
    if joined {
      ClearAhead(before, after, k, p);
    } else {
      j := InLineBefore(before, after, k, p);
    }
  }

  lemma WasInLine(cfg: Config, s: Sys, l: Label, a: string, k: nat, p: Packet)
    requires WellWired(cfg) && Inv(cfg, s) && Fits(s) && Awaited(s, p)
    requires LogOf(Next(cfg, s, l), Target(p)) == LogOf(s, Target(p))
    requires InLineAt(Items(Next(cfg, s, l), a), k, p)
    ensures Live(cfg, s, p)
  {
    InboxCases(cfg, s, l, a, p);
    var after := Items(Next(cfg, s, l), a);
    var joined, j := LineCases(s, a, after, k, p);
    if joined {
      JoinerIsLive(cfg, s, a, after[|Items(s, a)|], p);
    } else {
      InLineIsLive(cfg, s, a, j, p);
    }
  }

  lemma JustArrived(cfg: Config, s: Sys, m: Message, p: Packet)
    requires Inv(cfg, s) && m in s.transit && m.packet == p
    requires m.to in s.inboxes && !s.inboxes[m.to].closed && Clear(s.inboxes[m.to].items, p)
    ensures Live(cfg, s, p)
  {
    assert Routed(cfg, m);
    assert m in multiset(s.transit);
    assert OnItsWay(cfg, s, m.via, p);
  }

  /** As long as its channel stays where it is, a dead packet stays dead. */
  lemma NextDead(cfg: Config, s: Sys, l: Label, p: Packet)
    requires WellWired(cfg) && Inv(cfg, s) && Fits(s) && Awaited(s, p) && !Live(cfg, s, p)
    requires LogOf(Next(cfg, s, l), Target(p)) == LogOf(s, Target(p))
    ensures !Live(cfg, Next(cfg, s, l), p)
  {
    var t := Next(cfg, s, l);
    NextInv(cfg, s, l);
    forall a ensures !InLine(t, a, p) {
      if k: nat :| InLineAt(Items(t, a), k, p) {
        WasInLine(cfg, s, l, a, k, p);
      }
    }
    forall r ensures !OnItsWay(cfg, t, r, p) {
      if OnItsWay(cfg, t, r, p) {
        assert t.stations.Keys == s.stations.Keys;
        MovingShrinks(cfg, s, l, r, p);
        WayWasFree(cfg, s, l, r, p);
        assert OnItsWay(cfg, s, r, p);
      }
    }
  }

  lemma AwaitedKept(s: Sys, t: Sys, p: Packet)
    requires Awaited(s, p) && s.published <= t.published && LogOf(t, Target(p)) == LogOf(s, Target(p))
    ensures Awaited(t, p)
  {
  }

  /** What brings a live packet to its channel. */
  lemma AcceptedWasLive(cfg: Config, s: Sys, l: Label, p: Packet)
    requires WellWired(cfg) && Inv(cfg, s) && Fits(s)
    requires Emission(cfg, s, l) == Some((Target(p), Accepted(p)))
    ensures Live(cfg, s, p)
  {
    HandleEmission(cfg, s, l);
    assert InLineAt(Items(s, l.address), 0, p);
    assert InLine(s, l.address, p);
  }

  /** A dead packet is never the next one its channel accepts. */
  lemma {:induction false} DeadRun(cfg: Config, s: Sys, more: seq<Label>, p: Packet)
    requires WellWired(cfg) && Inv(cfg, s) && Awaited(s, p) && !Live(cfg, s, p)
    requires Fits(Run(cfg, s, more)) && LogOf(Run(cfg, s, more), Target(p)) <= LogOf(s, Target(p)) + [Accepted(p)]
    ensures LogOf(Run(cfg, s, more), Target(p)) == LogOf(s, Target(p))
    ensures Awaited(Run(cfg, s, more), p) && !Live(cfg, Run(cfg, s, more), p)
  {
    if more != [] {
      var before, l := more[..|more| - 1], more[|more| - 1];
      var t := Run(cfg, s, before);
      RunLogsGrow(cfg, s, before);
      NextLogsGrow(cfg, t, l);
      Backwards(t, Next(cfg, t, l), Target(p));
      RunInv(cfg, s, before);
      assert LogOf(t, Target(p)) <= LogOf(Next(cfg, t, l), Target(p));
      DeadRun(cfg, s, before, p);
      DeadStep(cfg, t, l, p);
    }
  }

  lemma DeadStep(cfg: Config, s: Sys, l: Label, p: Packet)
    requires WellWired(cfg) && Inv(cfg, s) && Fits(s) && Awaited(s, p) && !Live(cfg, s, p)
    requires LogOf(Next(cfg, s, l), Target(p)) <= LogOf(s, Target(p)) + [Accepted(p)]
    ensures LogOf(Next(cfg, s, l), Target(p)) == LogOf(s, Target(p))
    ensures Awaited(Next(cfg, s, l), p) && !Live(cfg, Next(cfg, s, l), p)
  {
    var d, t := Target(p), Next(cfg, s, l);
    NextEffect(cfg, s, l);
    NextLogsGrow(cfg, s, l);
    if Emission(cfg, s, l).Some? && Emission(cfg, s, l).value.0 == d {
      var e := Emission(cfg, s, l).value.1;
      assert LogOf(t, d)[|LogOf(s, d)|] == e;
      assert (LogOf(s, d) + [Accepted(p)])[|LogOf(s, d)|] == Accepted(p);
      AcceptedWasLive(cfg, s, l, p);
    } else {
      NextDead(cfg, s, l, p);
      AwaitedKept(s, t, p);
    }
  }

  // ---------------------------------------------------------------- stalls

  /** Where all packets for d come from c, only p itself can follow. */
  lemma OnlyAwaited(cfg: Config, s: Sys, l: Label, c: ChannelName, p: Packet)
    requires WellWired(cfg) && Inv(cfg, s) && Fits(s) && Awaited(s, p) && OnlySource(s, Target(p), c)
    requires Emission(cfg, s, l).Some? && Emission(cfg, s, l).value.0 == Target(p)
    requires Emission(cfg, s, l).value.1.Accepted?
    ensures Emission(cfg, s, l).value.1 == Accepted(p)
  {
    EmissionFacts(cfg, s, l);
    SentEntry(cfg, s, p);
    SentEntry(cfg, s, Emission(cfg, s, l).value.1.packet);
  }

  lemma StallStep(cfg: Config, s: Sys, l: Label, c: ChannelName, p: Packet)
    requires WellWired(cfg) && Inv(cfg, s) && Fits(s) && Awaited(s, p) && !Live(cfg, s, p)
    requires OnlySource(s, Target(p), c) && ReceiveOnly(LogOf(Next(cfg, s, l), Target(p)))
    ensures LogOf(Next(cfg, s, l), Target(p)) == LogOf(s, Target(p))
    ensures Awaited(Next(cfg, s, l), p) && !Live(cfg, Next(cfg, s, l), p)
  {
    var d, t := Target(p), Next(cfg, s, l);
    NextEffect(cfg, s, l);
    if Emission(cfg, s, l).Some? && Emission(cfg, s, l).value.0 == d {
      OnlyAccepts(s, t, d, Emission(cfg, s, l).value.1);
      OnlyAwaited(cfg, s, l, c, p);
    }
    DeadStep(cfg, s, l, p);
  }

  lemma {:induction false} StallRun(cfg: Config, s: Sys, more: seq<Label>, c: ChannelName, p: Packet)
    requires WellWired(cfg) && Inv(cfg, s) && Awaited(s, p) && !Live(cfg, s, p)
    requires Fits(Run(cfg, s, more)) && OnlySource(Run(cfg, s, more), Target(p), c)
    requires ReceiveOnly(LogOf(Run(cfg, s, more), Target(p)))
    ensures LogOf(Run(cfg, s, more), Target(p)) == LogOf(s, Target(p))
    ensures Awaited(Run(cfg, s, more), p) && !Live(cfg, Run(cfg, s, more), p)
  {
    if more != [] {
      var before, l := more[..|more| - 1], more[|more| - 1];
      var t := Run(cfg, s, before);
      RunLogsGrow(cfg, s, before);
      NextLogsGrow(cfg, t, l);
      Backwards(t, Next(cfg, t, l), Target(p));
      RunInv(cfg, s, before);
      StallRun(cfg, s, before, c, p);
      StallStep(cfg, t, l, c, p);
    }
  }

  /** Permanent stall: once the packet a receive-only channel waits for has no live copy, no continuation
      moves the channel again, whatever else is sent. */
  lemma Stall(cfg: Config, labels: seq<Label>, more: seq<Label>, c: ChannelName, p: Packet)
    requires WellWired(cfg) && Awaited(Reach(cfg, labels), p) && !Live(cfg, Reach(cfg, labels), p)
    requires var t := Run(cfg, Reach(cfg, labels), more);
             Fits(t) && OnlySource(t, Target(p), c) && ReceiveOnly(LogOf(t, Target(p)))
    ensures LogOf(Run(cfg, Reach(cfg, labels), more), Target(p)) == LogOf(Reach(cfg, labels), Target(p))
  {
    InitialInv(cfg);
    RunLogsGrow(cfg, Initial(cfg), labels);
    RunLogsGrow(cfg, Reach(cfg, labels), more);
    Backwards(Reach(cfg, labels), Run(cfg, Reach(cfg, labels), more), Target(p));
    ReachInv(cfg, labels);
    StallRun(cfg, Reach(cfg, labels), more, c, p);
  }
}
