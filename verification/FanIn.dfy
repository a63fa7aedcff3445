/** Two senders to one channel: the one kind of step that breaks ordered delivery, and a run in which it
    happens. */
module FanIn {
  import opened Basics
  import opened Channel
  import opened Protocol
  import opened ProtocolInvariants
  import opened ProtocolTheorems
  import opened Stalls
  import opened Possibility

  /** The step hands d a packet that fits, and that does not come from c. */
  predicate Intrudes(s: Sys, l: Label, d: ChannelName, c: ChannelName) {
    && l.Handle? && Items(s, l.address) != []
    && var p := Items(s, l.address)[0].packet;
       p.kind == DATA && Target(p) == d && p.sequence == |LogOf(s, d)| + 1 && Source(p) != c
  }

  lemma IntrusionBreaks(cfg: Config, s: Sys, l: Label, d: ChannelName, c: ChannelName)
    requires WellWired(cfg) && Inv(cfg, s) && Fits(s)
    requires Intrudes(s, l, d, c) && ReceiveOnly(LogOf(Next(cfg, s, l), d))
    ensures !AcceptedInOrder(Next(cfg, s, l), d, c)
  {
    var t := Next(cfg, s, l);
    HandleEmission(cfg, s, l);
    NextEffect(cfg, s, l);
    NextInv(cfg, s, l);
    assert LogOf(t, d)[|LogOf(s, d)|] == Accepted(Items(s, l.address)[0].packet);
    if AcceptedInOrder(t, d, c) {
      InOrderGivesSource(cfg, t, d, c);
    }
  }

  lemma AcceptedFromSource(cfg: Config, s: Sys, l: Label, d: ChannelName, c: ChannelName)
    requires WellWired(cfg) && Inv(cfg, s) && Fits(s) && !Intrudes(s, l, d, c)
    requires Emission(cfg, s, l).Some? && Emission(cfg, s, l).value.0 == d
    ensures Emission(cfg, s, l).value.1.Accepted? ==> Source(Emission(cfg, s, l).value.1.packet) == c
  {
    if l.Handle? {
      HandleEmission(cfg, s, l);
    }
  }

  lemma GrowsFrom(s: Sys, t: Sys, d: ChannelName, e: Entry, c: ChannelName)
    requires Grows(s, t, d, e) && AllFrom(LogOf(s, d), c) && (e.Accepted? ==> Source(e.packet) == c)
    ensures AllFrom(LogOf(t, d), c)
  {
  }

  lemma OthersKeepOrder(cfg: Config, s: Sys, l: Label, d: ChannelName, c: ChannelName)
    requires WellWired(cfg) && Inv(cfg, s) && Fits(s) && AcceptedInOrder(s, d, c)
    requires !Intrudes(s, l, d, c) && ReceiveOnly(LogOf(Next(cfg, s, l), d))
    ensures AcceptedInOrder(Next(cfg, s, l), d, c)
  {
    var t := Next(cfg, s, l);
    NextEffect(cfg, s, l);
    NextInv(cfg, s, l);
    if Emission(cfg, s, l).Some? && Emission(cfg, s, l).value.0 == d {
      AcceptedFromSource(cfg, s, l, d, c);
      OrderGrows(cfg, s, t, d, Emission(cfg, s, l).value.1, c);
    } else {
      assert LogOf(t, d) == LogOf(s, d);
      OrderSame(cfg, s, t, d, c);
    }
  }

  lemma OrderGrows(cfg: Config, s: Sys, t: Sys, d: ChannelName, e: Entry, c: ChannelName)
    requires Inv(cfg, s) && Inv(cfg, t) && Grows(s, t, d, e) && (e.Accepted? ==> Source(e.packet) == c)
    requires AcceptedInOrder(s, d, c) && ReceiveOnly(LogOf(t, d))
    ensures AcceptedInOrder(t, d, c)
  {
    assert LogOf(s, d) == LogOf(t, d)[..|LogOf(s, d)|];
    InOrderGivesSource(cfg, s, d, c);
    GrowsFrom(s, t, d, e, c);
    InvGivesOrder(cfg, t, d, c);
  }

  lemma OrderSame(cfg: Config, s: Sys, t: Sys, d: ChannelName, c: ChannelName)
    requires Inv(cfg, s) && Inv(cfg, t) && LogOf(t, d) == LogOf(s, d)
    requires AcceptedInOrder(s, d, c) && ReceiveOnly(LogOf(t, d))
    ensures AcceptedInOrder(t, d, c)
  {
    InOrderGivesSource(cfg, s, d, c);
    InvGivesOrder(cfg, t, d, c);
  }

  /** In any reachable state in which d, receiving only, is in order with respect to c, a step takes it out
      of order exactly when it is a node's turn over a packet for d that carries the awaited number and
      comes from elsewhere. */
  lemma OrderBreaksExactly(cfg: Config, labels: seq<Label>, l: Label, d: ChannelName, c: ChannelName)
    requires Sound(cfg, labels) && AcceptedInOrder(Reach(cfg, labels), d, c)
    requires ReceiveOnly(LogOf(Next(cfg, Reach(cfg, labels), l), d))
    ensures !AcceptedInOrder(Next(cfg, Reach(cfg, labels), l), d, c) <==> Intrudes(Reach(cfg, labels), l, d, c)
  {
    ReachInv(cfg, labels);
    if Intrudes(Reach(cfg, labels), l, d, c) {
      IntrusionBreaks(cfg, Reach(cfg, labels), l, d, c);
    } else {
      OthersKeepOrder(cfg, Reach(cfg, labels), l, d, c);
    }
  }

  /** A live packet of another sender is enough: some continuation has it accepted, and the order with
      respect to c is gone. */
  lemma IntruderCanWin(cfg: Config, labels: seq<Label>, c: ChannelName, p: Packet) returns (more: seq<Label>)
    requires Sound(cfg, labels) && ReceiveOnly(LogOf(Reach(cfg, labels), Target(p)))
    requires Awaited(Reach(cfg, labels), p) && Live(cfg, Reach(cfg, labels), p) && Source(p) != c
    ensures var t := Reach(cfg, labels + more);
            && Sound(cfg, labels + more) && ReceiveOnly(LogOf(t, Target(p)))
            && Accepted(p) in LogOf(t, Target(p)) && !AcceptedInOrder(t, Target(p), c)
  {
    ReachInv(cfg, labels);
    LiveIsDeliverable(cfg, Reach(cfg, labels), p);
    more :| DeliveredBy(cfg, Reach(cfg, labels), more, p);
    RunAppend(cfg, Initial(cfg), labels, more);
    DeliveredBreaks(cfg, Reach(cfg, labels), Reach(cfg, labels + more), c, p);
  }

  lemma DeliveredBreaks(cfg: Config, s: Sys, t: Sys, c: ChannelName, p: Packet)
    requires Delivered(cfg, s, t, p) && ReceiveOnly(LogOf(s, Target(p))) && Source(p) != c
    ensures ReceiveOnly(LogOf(t, Target(p)))
    ensures Accepted(p) in LogOf(t, Target(p)) && !AcceptedInOrder(t, Target(p), c)
  {
    var log := LogOf(t, Target(p));
    assert log[|log| - 1] == Accepted(p);
    if AcceptedInOrder(t, Target(p), c) {
      InOrderGivesSource(cfg, t, Target(p), c);
    }
  }
}
