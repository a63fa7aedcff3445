/** Which messages can still be handled, packets and acknowledgements alike: exactly those that wait in an
    inbox, and those with a copy that has not arrived and an open inbox to arrive in. */
module Handling {
  import opened Basics
  import opened Protocol
  import opened ProtocolInvariants
  import opened ProtocolTheorems
  import opened Possibility
  import opened Stalls

  /** Relayer r knows where p goes. */
  predicate Bound(cfg: Config, r: string, p: Packet) {
    r in cfg.routes && p.dstChain in cfg.routes[r]
  }

  function MailOf(cfg: Config, r: string, p: Packet): Message
    requires Bound(cfg, r, p)
  {
    Message(r, cfg.routes[r][p.dstChain], p)
  }

  /** The inbox that r's copy of p is for is open. */
  predicate BoxOpen(cfg: Config, s: Sys, r: string, p: Packet)
    requires Bound(cfg, r, p)
  {
    var a := MailOf(cfg, r, p).to;
    a in s.inboxes && !s.inboxes[a].closed
  }

  /** The message waits in its inbox, or has a copy under way to an open one. */
  ghost predicate Arrivable(cfg: Config, s: Sys, r: string, p: Packet)
    requires Bound(cfg, r, p)
  {
    || MailOf(cfg, r, p) in Items(s, MailOf(cfg, r, p).to)
    || (r in s.stations && Moving(cfg, s, r, p) > 0 && BoxOpen(cfg, s, r, p))
  }

  function TimesHandled(s: Sys, m: Message): nat {
    multiset(s.handled)[m]
  }

  ghost predicate HandledBy(cfg: Config, s: Sys, more: seq<Label>, m: Message) {
    Fits(Run(cfg, s, more)) && TimesHandled(Run(cfg, s, more), m) > TimesHandled(s, m)
  }

  /** Some continuation in which no counter wraps has a node take the message up. */
  ghost predicate CanBeHandled(cfg: Config, s: Sys, m: Message) {
    exists more :: HandledBy(cfg, s, more, m)
  }

  // ---------------------------------------------------------------- it can

  /** t lies behind s, is sound, and what can be handled from t can be from s. */
  ghost predicate LeadsOn(cfg: Config, s: Sys, t: Sys, m: Message) {
    Inv(cfg, t) && Fits(t) && (CanBeHandled(cfg, t, m) ==> CanBeHandled(cfg, s, m))
  }

  lemma RunLeadsOn(cfg: Config, s: Sys, labels: seq<Label>, m: Message)
    requires Inv(cfg, Run(cfg, s, labels)) && Fits(Run(cfg, s, labels))
    requires TimesHandled(s, m) <= TimesHandled(Run(cfg, s, labels), m)
    ensures LeadsOn(cfg, s, Run(cfg, s, labels), m)
  {
    var t := Run(cfg, s, labels);
    if rest :| HandledBy(cfg, t, rest, m) {
      RunAppend(cfg, s, labels, rest);
      assert HandledBy(cfg, s, labels + rest, m);
    }
  }

  /** Apart from sends, no step of a sound state wraps a counter. */
  lemma StepFits(cfg: Config, s: Sys, l: Label)
    requires WellWired(cfg) && Inv(cfg, s) && Fits(s) && !l.SendPacket?
    ensures Inv(cfg, Next(cfg, s, l)) && Fits(Next(cfg, s, l))
  {
    NextInv(cfg, s, l);
    NextEffect(cfg, s, l);
    if l.Handle? && Items(s, l.address) != [] && Emission(cfg, s, l).Some? {
      TurnAccepts(cfg, s, l.address);
    } else {
      QuietFits(s, Next(cfg, s, l));
    }
  }

  lemma StepLeadsOn(cfg: Config, s: Sys, l: Label, m: Message)
    requires WellWired(cfg) && Inv(cfg, s) && Fits(s) && !l.SendPacket?
    ensures LeadsOn(cfg, s, Next(cfg, s, l), m)
  {
    StepFits(cfg, s, l);
    HistoriesOfMail(cfg, s, l);
    PrefixCount(s.handled, Next(cfg, s, l).handled, m);
    RunOne(cfg, s, l, []);
    RunLeadsOn(cfg, s, [l], m);
  }

  /** A turn takes the head of the inbox, whatever it is. */
  lemma TurnTakesHead(cfg: Config, s: Sys, a: string)
    requires Inv(cfg, s) && Items(s, a) != []
    ensures Next(cfg, s, Handle(a)).handled == s.handled + [Items(s, a)[0]]
    ensures Items(Next(cfg, s, Handle(a)), a) == Items(s, a)[1..]
  {
    HeadRouted(cfg, s, a);
    NextInboxes(cfg, s, Handle(a));
    assert DoHandle(cfg, s, a).handled == s.handled + [Items(s, a)[0]];
  }

  lemma HeadIsHandled(cfg: Config, s: Sys, a: string, m: Message)
    requires WellWired(cfg) && Inv(cfg, s) && Fits(s) && Items(s, a) != [] && Items(s, a)[0] == m
    ensures CanBeHandled(cfg, s, m)
  {
    StepFits(cfg, s, Handle(a));
    TurnTakesHead(cfg, s, a);
    OneStepHandles(cfg, s, Handle(a), m);
  }

  lemma OneStepHandles(cfg: Config, s: Sys, l: Label, m: Message)
    requires Fits(Next(cfg, s, l)) && Next(cfg, s, l).handled == s.handled + [m]
    ensures CanBeHandled(cfg, s, m)
  {
    RunOne(cfg, s, l, []);
    assert HandledBy(cfg, s, [l], m);
  }

  lemma OneForward(cfg: Config, s: Sys, a: string, k: nat, m: Message) returns (t: Sys, j: nat)
    requires WellWired(cfg) && Inv(cfg, s) && Fits(s) && 0 < k < |Items(s, a)| && Items(s, a)[k] == m
    ensures j < k && LeadsOn(cfg, s, t, m) && j < |Items(t, a)| && Items(t, a)[j] == m
  {
    j := k - 1;
    t := Next(cfg, s, Handle(a));
    TurnTakesHead(cfg, s, a);
    StepLeadsOn(cfg, s, Handle(a), m);
  }

  lemma {:induction false} InboxIsHandled(cfg: Config, s: Sys, a: string, k: nat, m: Message)
    requires WellWired(cfg) && Inv(cfg, s) && Fits(s) && k < |Items(s, a)| && Items(s, a)[k] == m
    ensures CanBeHandled(cfg, s, m)
    decreases k
  {
    if k == 0 {
      HeadIsHandled(cfg, s, a, m);
    } else {
      var t, j := OneForward(cfg, s, a, k, m);
      InboxIsHandled(cfg, t, a, j, m);
    }
  }

  lemma Delivered(cfg: Config, s: Sys, m: Message) returns (t: Sys, k: nat)
    requires WellWired(cfg) && Inv(cfg, s) && Fits(s) && m in s.transit && m.to in s.inboxes && !s.inboxes[m.to].closed
    ensures LeadsOn(cfg, s, t, m) && k < |Items(t, m.to)| && Items(t, m.to)[k] == m
  {
    k := |Items(s, m.to)|;
    var at :| 0 <= at < |s.transit| && s.transit[at] == m;
    t := Next(cfg, s, Deliver(at));
    DeliveryAppends(cfg, s, at);
    StepLeadsOn(cfg, s, Deliver(at), m);
  }

  lemma DeliveryAppends(cfg: Config, s: Sys, at: nat)
    requires Shape(cfg, s) && at < |s.transit|
    requires s.transit[at].to in s.inboxes && !s.inboxes[s.transit[at].to].closed
    ensures var m := s.transit[at];
            Items(Next(cfg, s, Deliver(at)), m.to) == Items(s, m.to) + [m]
  {
    NextInboxes(cfg, s, Deliver(at));
  }

  lemma TransitIsHandled(cfg: Config, s: Sys, m: Message)
    requires WellWired(cfg) && Inv(cfg, s) && Fits(s) && m in s.transit && m.to in s.inboxes && !s.inboxes[m.to].closed
    ensures CanBeHandled(cfg, s, m)
  {
    var t, k := Delivered(cfg, s, m);
    InboxIsHandled(cfg, t, m.to, k, m);
  }

  lemma Sent(cfg: Config, s: Sys, r: string, p: Packet) returns (t: Sys)
    requires WellWired(cfg) && Inv(cfg, s) && Fits(s) && Bound(cfg, r, p) && BoxOpen(cfg, s, r, p)
    requires r in s.stations && Holds(s.stations[r].relayer, p)
    ensures LeadsOn(cfg, s, t, MailOf(cfg, r, p)) && MailOf(cfg, r, p) in t.transit && BoxOpen(cfg, t, r, p)
  {
    t := Next(cfg, s, FinishRelay(r, true));
    StepLeadsOn(cfg, s, FinishRelay(r, true), MailOf(cfg, r, p));
    SendingAppends(cfg, s, r, p);
  }

  lemma SendingAppends(cfg: Config, s: Sys, r: string, p: Packet)
    requires Shape(cfg, s) && Bound(cfg, r, p) && BoxOpen(cfg, s, r, p)
    requires r in s.stations && Holds(s.stations[r].relayer, p)
    ensures var t := Next(cfg, s, FinishRelay(r, true));
            t.transit == s.transit + [MailOf(cfg, r, p)] && t.inboxes == s.inboxes
  {
  }

  lemma HandIsHandled(cfg: Config, s: Sys, r: string, p: Packet)
    requires WellWired(cfg) && Inv(cfg, s) && Fits(s) && Bound(cfg, r, p) && BoxOpen(cfg, s, r, p)
    requires r in s.stations && Holds(s.stations[r].relayer, p)
    ensures CanBeHandled(cfg, s, MailOf(cfg, r, p))
  {
    var t := Sent(cfg, s, r, p);
    TransitIsHandled(cfg, t, MailOf(cfg, r, p));
  }

  lemma Taken(cfg: Config, s: Sys, r: string, p: Packet, inAcks: bool) returns (t: Sys)
    requires WellWired(cfg) && Inv(cfg, s) && Fits(s) && Bound(cfg, r, p)
    requires r in s.stations && Queued(s.stations[r].relayer, p, inAcks)
    ensures LeadsOn(cfg, s, t, MailOf(cfg, r, p)) && OnlyStations(s, t) && Holds(t.stations[r].relayer, p)
  {
    var labels := ReachHand(cfg, s, r, p, inAcks);
    t := Run(cfg, s, labels);
    StationsKeep(s, t, p);
    RunInv(cfg, s, labels);
    RunLeadsOn(cfg, s, labels, MailOf(cfg, r, p));
  }

  lemma QueueIsHandled(cfg: Config, s: Sys, r: string, p: Packet, inAcks: bool)
    requires WellWired(cfg) && Inv(cfg, s) && Fits(s) && Bound(cfg, r, p) && BoxOpen(cfg, s, r, p)
    requires r in s.stations && Queued(s.stations[r].relayer, p, inAcks)
    ensures CanBeHandled(cfg, s, MailOf(cfg, r, p))
  {
    var t := Taken(cfg, s, r, p, inAcks);
    HandIsHandled(cfg, t, r, p);
  }

  lemma ArrivableIsHandled(cfg: Config, s: Sys, r: string, p: Packet)
    requires WellWired(cfg) && Inv(cfg, s) && Fits(s) && Bound(cfg, r, p)
    ensures Arrivable(cfg, s, r, p) ==> CanBeHandled(cfg, s, MailOf(cfg, r, p))
  {
    var m := MailOf(cfg, r, p);
    if m in Items(s, m.to) {
      var k: nat :| k < |Items(s, m.to)| && Items(s, m.to)[k] == m;
      InboxIsHandled(cfg, s, m.to, k, m);
    } else if Arrivable(cfg, s, r, p) {
      var st := s.stations[r].relayer;
      if Holds(st, p) {
        HandIsHandled(cfg, s, r, p);
      } else if p in st.packets.items {
        QueueIsHandled(cfg, s, r, p, false);
      } else if p in st.acks.items {
        QueueIsHandled(cfg, s, r, p, true);
      } else {
        assert multiset(s.transit)[m] > 0;
        TransitIsHandled(cfg, s, m);
      }
    }
  }

  // ---------------------------------------------------------------- or it cannot

  lemma NextUnarrivable(cfg: Config, s: Sys, l: Label, r: string, p: Packet)
    requires WellWired(cfg) && Inv(cfg, s) && Fits(s) && Bound(cfg, r, p) && p in s.published
    requires !Arrivable(cfg, s, r, p)
    ensures !Arrivable(cfg, Next(cfg, s, l), r, p)
    ensures TimesHandled(Next(cfg, s, l), MailOf(cfg, r, p)) == TimesHandled(s, MailOf(cfg, r, p))
  {
    NextInv(cfg, s, l);
    NotHandledNow(cfg, s, l, MailOf(cfg, r, p));
    StillNoMail(cfg, s, l, r, p);
    if r in Next(cfg, s, l).stations && BoxOpen(cfg, Next(cfg, s, l), r, p) {
      StillNotMoving(cfg, s, l, r, p);
    }
  }

  lemma StillNoMail(cfg: Config, s: Sys, l: Label, r: string, p: Packet)
    requires Inv(cfg, s) && Bound(cfg, r, p) && !Arrivable(cfg, s, r, p)
    ensures MailOf(cfg, r, p) !in Items(Next(cfg, s, l), MailOf(cfg, r, p).to)
  {
    NextInboxes(cfg, s, l);
    if l.Deliver? && l.at < |s.transit| && s.transit[l.at] == MailOf(cfg, r, p) {
      NotInTransit(cfg, s, r, p, l.at);
    }
  }

  lemma StillNotMoving(cfg: Config, s: Sys, l: Label, r: string, p: Packet)
    requires Inv(cfg, s) && Inv(cfg, Next(cfg, s, l)) && Bound(cfg, r, p) && p in s.published
    requires !Arrivable(cfg, s, r, p) && r in Next(cfg, s, l).stations && BoxOpen(cfg, Next(cfg, s, l), r, p)
    ensures Moving(cfg, Next(cfg, s, l), r, p) == 0
  {
    NextInboxes(cfg, s, l);
    assert Next(cfg, s, l).stations.Keys == s.stations.Keys && Next(cfg, s, l).inboxes.Keys == s.inboxes.Keys;
    MovingShrinks(cfg, s, l, r, p);
  }

  /** A message that is in no inbox is not handled in this step. */
  lemma NotHandledNow(cfg: Config, s: Sys, l: Label, m: Message)
    requires Inv(cfg, s) && m !in Items(s, m.to)
    ensures TimesHandled(Next(cfg, s, l), m) == TimesHandled(s, m)
  {
    if l.Handle? && Items(s, l.address) != [] {
      TurnTakesHead(cfg, s, l.address);
      HeadRouted(cfg, s, l.address);
    } else {
      HandledOnlyInTurns(cfg, s, l);
    }
  }

  lemma HandledOnlyInTurns(cfg: Config, s: Sys, l: Label)
    requires l.Handle? ==> Items(s, l.address) == []
    ensures Next(cfg, s, l).handled == s.handled
  {
    if l.SendPacket? {
      assert DoSend(s, l).handled == s.handled;
    } else if l.FinishRelay? {
      assert DoFinish(cfg, s, l.name, l.lucky).handled == s.handled;
    }
  }

  /** A copy in transit counts as moving. */
  lemma NotInTransit(cfg: Config, s: Sys, r: string, p: Packet, at: nat)
    requires Inv(cfg, s) && Bound(cfg, r, p) && at < |s.transit| && s.transit[at] == MailOf(cfg, r, p)
    ensures r in s.stations && Moving(cfg, s, r, p) > 0
  {
    assert MailOf(cfg, r, p) in multiset(s.transit);
  }

  lemma {:induction false} UnarrivableRun(cfg: Config, s: Sys, more: seq<Label>, r: string, p: Packet)
    requires WellWired(cfg) && Inv(cfg, s) && Bound(cfg, r, p) && p in s.published && !Arrivable(cfg, s, r, p)
    requires Fits(Run(cfg, s, more))
    ensures !Arrivable(cfg, Run(cfg, s, more), r, p)
    ensures TimesHandled(Run(cfg, s, more), MailOf(cfg, r, p)) == TimesHandled(s, MailOf(cfg, r, p))
  {
    if more != [] {
      var before, l := more[..|more| - 1], more[|more| - 1];
      var t := Run(cfg, s, before);
      RunLogsGrow(cfg, s, before);
      NextLogsGrow(cfg, t, l);
      Backwards(t, Next(cfg, t, l), Target(p));
      RunInv(cfg, s, before);
      UnarrivableRun(cfg, s, before, r, p);
      NextUnarrivable(cfg, t, l, r, p);
    }
  }

  /** In every reachable state, for every published packet or acknowledgement and every relayer with a route
      for it: a node can still take it up, by way of this relayer, exactly when it waits in the inbox, or a
      copy is under way and the inbox is open. */
  lemma HandledExactly(cfg: Config, labels: seq<Label>, r: string, p: Packet)
    requires Sound(cfg, labels) && Bound(cfg, r, p) && p in Reach(cfg, labels).published
    ensures CanBeHandled(cfg, Reach(cfg, labels), MailOf(cfg, r, p)) <==> Arrivable(cfg, Reach(cfg, labels), r, p)
  {
    var s := Reach(cfg, labels);
    ReachInv(cfg, labels);
    if Arrivable(cfg, s, r, p) {
      ArrivableIsHandled(cfg, s, r, p);
    } else if more :| HandledBy(cfg, s, more, MailOf(cfg, r, p)) {
      UnarrivableRun(cfg, s, more, r, p);
    }
  }
}
