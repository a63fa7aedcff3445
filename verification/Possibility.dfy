/** What can still happen: from any state with a live copy of an awaited packet there is a run in which the
    packet is accepted.  So the live packets are exactly those a channel can still accept next, and the
    stalls are exactly the states without one. */
module Possibility {
  import opened Basics
  import opened Channel
  import opened Protocol
  import opened ProtocolInvariants
  import opened ProtocolTheorems
  import opened Stalls
  import R = Relayer

  lemma {:induction false} RunAppend(cfg: Config, s: Sys, labels: seq<Label>, more: seq<Label>)
    ensures Run(cfg, s, labels + more) == Run(cfg, Run(cfg, s, labels), more)
  {
    if more == [] {
      assert labels + more == labels;
    } else {
      var last := |more| - 1;
      RunAppend(cfg, s, labels, more[..last]);
      assert (labels + more)[..|labels + more| - 1] == labels + more[..last];
    }
  }

  lemma RunLast(cfg: Config, s: Sys, labels: seq<Label>, l: Label)
    ensures Run(cfg, s, labels + [l]) == Next(cfg, Run(cfg, s, labels), l)
  {
    assert (labels + [l])[..|labels|] == labels;
  }

  lemma RunOne(cfg: Config, s: Sys, l: Label, more: seq<Label>)
    ensures Run(cfg, s, [l]) == Next(cfg, s, l)
    ensures Run(cfg, s, [l] + more) == Run(cfg, Next(cfg, s, l), more)
  {
    assert [l][..0] == [];
    RunAppend(cfg, s, [l], more);
  }

  // ---------------------------------------------------------------- a relayer's loop

  predicate Holds(r: R.Relayer, p: Packet) {
    (r.phase.HasPacket? || r.phase.HasAck?) && r.phase.packet == p
  }

  predicate Queued(r: R.Relayer, p: Packet, inAcks: bool) {
    p in (if inAcks then r.acks else r.packets).items
  }

  /** The relayer after its next move towards p: starting, looping, and losing what else it takes. */
  function Moved(r: R.Relayer): R.Relayer {
    match r.phase
    case AtLoop => if r.running then R.BeginRound(r) else R.StartLoop(r)
    case AtPackets => R.TakePacket(r)
    case HasPacket(_) => R.FinishPacket(r, false)
    case AtAcks => R.TakeAck(r)
    case HasAck(_) => R.FinishAck(r, false)
  }

  function MoveOf(r: R.Relayer, name: string): Label {
    match r.phase
    case AtLoop => if r.running then BeginRound(name) else StartRelayer(name)
    case AtPackets => TakePacket(name)
    case HasPacket(_) => FinishRelay(name, false)
    case AtAcks => TakeAck(name)
    case HasAck(_) => FinishRelay(name, false)
  }

  /** How many moves until the loop looks into the queue. */
  function Distance(r: R.Relayer, inAcks: bool): nat {
    match r.phase
    case AtPackets => if inAcks then 4 else 0
    case AtLoop => (if inAcks then 5 else 1) + (if r.running then 0 else 1)
    case HasAck(_) => if inAcks then 7 else 3
    case AtAcks => if inAcks then 0 else 4
    case HasPacket(_) => if inAcks then 1 else 5
  }

  function Backlog(r: R.Relayer): nat {
    |r.packets.items| + |r.acks.items|
  }

  lemma MovedCloser(r: R.Relayer, p: Packet, inAcks: bool)
    requires Queued(r, p, inAcks)
    ensures var t := Moved(r);
            && (Holds(t, p) || Queued(t, p, inAcks))
            && (Backlog(t) < Backlog(r) || (Backlog(t) == Backlog(r) && Distance(t, inAcks) < Distance(r, inAcks)))
  {
    var items := (if inAcks then r.acks else r.packets).items;
    assert items == [items[0]] + items[1..];
  }

  /** All but what goes on at the relayers is the same. */
  ghost predicate OnlyStations(s: Sys, t: Sys) {
    t == s.(stations := t.stations) && t.stations.Keys == s.stations.Keys
  }

  lemma MoveStation(cfg: Config, s: Sys, name: string)
    requires name in s.stations && name in cfg.routes
    ensures var t := Next(cfg, s, MoveOf(s.stations[name].relayer, name));
            OnlyStations(s, t) && t.stations[name].relayer == Moved(s.stations[name].relayer)
  {
  }

  /** The loop reaches any item of its queues. */
  lemma {:induction false} ReachHand(cfg: Config, s: Sys, name: string, p: Packet, inAcks: bool)
      returns (more: seq<Label>)
    requires name in s.stations && name in cfg.routes && Queued(s.stations[name].relayer, p, inAcks)
    ensures OnlyStations(s, Run(cfg, s, more)) && Holds(Run(cfg, s, more).stations[name].relayer, p)
    decreases Backlog(s.stations[name].relayer), Distance(s.stations[name].relayer, inAcks)
  {
    var r := s.stations[name].relayer;
    var l := MoveOf(r, name);
    var t := Next(cfg, s, l);
    MoveStation(cfg, s, name);
    MovedCloser(r, p, inAcks);
    if Holds(t.stations[name].relayer, p) {
      more := [l];
      RunOne(cfg, s, l, []);
    } else {
      var rest := ReachHand(cfg, t, name, p, inAcks);
      more := [l] + rest;
      RunOne(cfg, s, l, rest);
    }
  }

  // ---------------------------------------------------------------- getting p accepted

  /** Nothing but acknowledgements was published on the way. */
  ghost predicate NothingSent(s: Sys, t: Sys) {
    forall q :: q in t.published && q.kind == DATA ==> q in s.published
  }

  /** t is a sound state, at or after s, in which p is still awaited. */
  ghost predicate StillAwaited(cfg: Config, s: Sys, t: Sys, p: Packet) {
    && Inv(cfg, t) && Fits(t) && Awaited(t, p) && NothingSent(s, t)
    && LogOf(t, Target(p)) == LogOf(s, Target(p))
  }

  /** t is a sound state, after s, in which p has been accepted as the next packet. */
  ghost predicate Delivered(cfg: Config, s: Sys, t: Sys, p: Packet) {
    Inv(cfg, t) && Fits(t) && NothingSent(s, t) && LogOf(t, Target(p)) == LogOf(s, Target(p)) + [Accepted(p)]
  }

  lemma DeliveredLater(cfg: Config, s: Sys, t: Sys, u: Sys, p: Packet)
    requires StillAwaited(cfg, s, t, p) && Delivered(cfg, t, u, p)
    ensures Delivered(cfg, s, u, p)
  {
  }

  /** An accepted packet's number was used at its source before, so accepting wraps no counter. */
  lemma AcceptFits(cfg: Config, s: Sys, t: Sys, d: ChannelName, q: Packet)
    requires Inv(cfg, s) && Fits(s) && Grows(s, t, d, Accepted(q))
    requires q in s.published && q.kind == DATA && q.sequence == |LogOf(s, d)| + 1
    ensures Fits(t)
  {
    SentEntry(cfg, s, q);
    assert |LogOf(s, Source(q))| < MAX64;
    forall x ensures |LogOf(t, x)| < MAX64 {
      assert |LogOf(s, x)| < MAX64;
    }
  }

  lemma QuietFits(s: Sys, t: Sys)
    requires Fits(s) && Quiet(s, t)
    ensures Fits(t)
  {
    forall x ensures |LogOf(t, x)| < MAX64 {
      assert |LogOf(s, x)| < MAX64;
    }
  }

  /** A quiet step keeps p awaited. */
  lemma QuietKeeps(cfg: Config, s: Sys, l: Label, p: Packet)
    requires WellWired(cfg) && Inv(cfg, s) && Fits(s) && Awaited(s, p) && Emission(cfg, s, l) == None
    ensures StillAwaited(cfg, s, Next(cfg, s, l), p)
  {
    NextEffect(cfg, s, l);
    NextInv(cfg, s, l);
    QuietFits(s, Next(cfg, s, l));
  }

  /** t came of s by accepting q. */
  ghost predicate AcceptedStep(cfg: Config, s: Sys, t: Sys, q: Packet) {
    && Inv(cfg, s) && Fits(s) && Inv(cfg, t) && Fits(t) && Grows(s, t, Target(q), Accepted(q))
    && q.kind == DATA && q.sequence == |LogOf(s, Target(q))| + 1
  }

  lemma TurnAccepts(cfg: Config, s: Sys, a: string)
    requires WellWired(cfg) && Inv(cfg, s) && Fits(s) && Items(s, a) != [] && Emission(cfg, s, Handle(a)).Some?
    ensures AcceptedStep(cfg, s, Next(cfg, s, Handle(a)), Items(s, a)[0].packet)
  {
    var l, q := Handle(a), Items(s, a)[0].packet;
    HandleEmission(cfg, s, l);
    NextEffect(cfg, s, l);
    NextInv(cfg, s, l);
    InboxPublished(cfg, s, a, Items(s, a)[0]);
    AcceptFits(cfg, s, Next(cfg, s, l), Target(q), q);
  }

  lemma OtherAccepted(cfg: Config, s: Sys, t: Sys, q: Packet, p: Packet)
    requires AcceptedStep(cfg, s, t, q) && Awaited(s, p) && q != p && !Rival(p, q)
    ensures StillAwaited(cfg, s, t, p)
  {
  }

  /** A node's turn over a message that is neither p nor a rival of it keeps p awaited. */
  lemma TurnKeeps(cfg: Config, s: Sys, a: string, p: Packet)
    requires WellWired(cfg) && Inv(cfg, s) && Fits(s) && Awaited(s, p) && Items(s, a) != []
    requires Items(s, a)[0].packet != p && !Rival(p, Items(s, a)[0].packet)
    ensures StillAwaited(cfg, s, Next(cfg, s, Handle(a)), p)
  {
    if Emission(cfg, s, Handle(a)) == None {
      QuietKeeps(cfg, s, Handle(a), p);
    } else {
      TurnAccepts(cfg, s, a);
      OtherAccepted(cfg, s, Next(cfg, s, Handle(a)), Items(s, a)[0].packet, p);
    }
  }

  lemma ThisAccepted(cfg: Config, s: Sys, t: Sys, p: Packet)
    requires AcceptedStep(cfg, s, t, p)
    ensures Delivered(cfg, s, t, p)
  {
  }

  lemma TurnDelivers(cfg: Config, s: Sys, a: string, p: Packet)
    requires WellWired(cfg) && Inv(cfg, s) && Fits(s) && Awaited(s, p)
    requires Items(s, a) != [] && Items(s, a)[0].packet == p
    ensures Delivered(cfg, s, Next(cfg, s, Handle(a)), p)
  {
    HandleEmission(cfg, s, Handle(a));
    TurnAccepts(cfg, s, a);
    ThisAccepted(cfg, s, Next(cfg, s, Handle(a)), p);
  }

  /** A turn brings what is behind the head one place forward. */
  lemma TurnInLine(cfg: Config, s: Sys, a: string, k: nat, p: Packet)
    requires Inv(cfg, s) && InLineAt(Items(s, a), k, p) && k > 0
    ensures InLineAt(Items(Next(cfg, s, Handle(a)), a), k - 1, p)
    ensures !Rival(p, Items(s, a)[0].packet)
  {
    NextInboxes(cfg, s, Handle(a));
  }

  /** Some labels get p accepted as the next packet of its channel. */
  ghost predicate Deliverable(cfg: Config, s: Sys, p: Packet) {
    exists more :: DeliveredBy(cfg, s, more, p)
  }

  ghost predicate DeliveredBy(cfg: Config, s: Sys, more: seq<Label>, p: Packet) {
    Delivered(cfg, s, Run(cfg, s, more), p)
  }

  /** t lies behind s, p is still awaited there, and what can be delivered from t can be from s. */
  ghost predicate Leads(cfg: Config, s: Sys, t: Sys, p: Packet) {
    StillAwaited(cfg, s, t, p) && (Deliverable(cfg, t, p) ==> Deliverable(cfg, s, p))
  }

  lemma RunLeads(cfg: Config, s: Sys, labels: seq<Label>, p: Packet)
    requires StillAwaited(cfg, s, Run(cfg, s, labels), p)
    ensures Leads(cfg, s, Run(cfg, s, labels), p)
  {
    var t := Run(cfg, s, labels);
    if rest :| DeliveredBy(cfg, t, rest, p) {
      RunAppend(cfg, s, labels, rest);
      DeliveredLater(cfg, s, t, Run(cfg, t, rest), p);
      assert DeliveredBy(cfg, s, labels + rest, p);
    }
  }

  lemma StepLeads(cfg: Config, s: Sys, l: Label, p: Packet)
    requires StillAwaited(cfg, s, Next(cfg, s, l), p)
    ensures Leads(cfg, s, Next(cfg, s, l), p)
  {
    RunOne(cfg, s, l, []);
    RunLeads(cfg, s, [l], p);
  }

  /** One turn towards p, past a head that is neither p nor a rival. */
  lemma WorkOne(cfg: Config, s: Sys, a: string, k: nat, p: Packet)
    returns (t: Sys, j: nat)
    requires WellWired(cfg) && Inv(cfg, s) && Fits(s) && Awaited(s, p) && InLineAt(Items(s, a), k, p)
    requires Items(s, a)[0].packet != p
    ensures j < k && Leads(cfg, s, t, p) && InLineAt(Items(t, a), j, p)
  {
    j := k - 1;
    t := Next(cfg, s, Handle(a));
    TurnInLine(cfg, s, a, k, p);
    TurnKeeps(cfg, s, a, p);
    StepLeads(cfg, s, Handle(a), p);
  }

  lemma WorkHead(cfg: Config, s: Sys, a: string, p: Packet)
    requires WellWired(cfg) && Inv(cfg, s) && Fits(s) && Awaited(s, p)
    requires Items(s, a) != [] && Items(s, a)[0].packet == p
    ensures Deliverable(cfg, s, p)
  {
    TurnDelivers(cfg, s, a, p);
    RunOne(cfg, s, Handle(a), []);
    assert DeliveredBy(cfg, s, [Handle(a)], p);
  }

  /** From an inbox. */
  lemma {:induction false} WorkOff(cfg: Config, s: Sys, a: string, k: nat, p: Packet)
    requires WellWired(cfg) && Inv(cfg, s) && Fits(s) && Awaited(s, p) && InLineAt(Items(s, a), k, p)
    ensures Deliverable(cfg, s, p)
    decreases k
  {
    if Items(s, a)[0].packet == p {
      WorkHead(cfg, s, a, p);
    } else {
      var t, j := WorkOne(cfg, s, a, k, p);
      WorkOff(cfg, t, a, j, p);
    }
  }

  /** From the transport. */
  lemma FromTransit(cfg: Config, s: Sys, m: Message, p: Packet)
    requires WellWired(cfg) && Inv(cfg, s) && Fits(s) && Awaited(s, p)
    requires m in s.transit && m.packet == p && WayIsFree(cfg, s, m.via, p)
    ensures Deliverable(cfg, s, p)
  {
    var at :| 0 <= at < |s.transit| && s.transit[at] == m;
    var t := Arrive(cfg, s, at, p);
    WorkOff(cfg, t, m.to, |Items(s, m.to)|, p);
  }

  lemma Arrive(cfg: Config, s: Sys, at: nat, p: Packet) returns (t: Sys)
    requires WellWired(cfg) && Inv(cfg, s) && Fits(s) && Awaited(s, p)
    requires at < |s.transit| && s.transit[at].packet == p && WayIsFree(cfg, s, s.transit[at].via, p)
    ensures Leads(cfg, s, t, p)
    ensures InLineAt(Items(t, s.transit[at].to), |Items(s, s.transit[at].to)|, p)
  {
    t := Next(cfg, s, Deliver(at));
    DeliverInLine(cfg, s, at, p);
    QuietKeeps(cfg, s, Deliver(at), p);
    StepLeads(cfg, s, Deliver(at), p);
  }

  lemma DeliverInLine(cfg: Config, s: Sys, at: nat, p: Packet)
    requires Inv(cfg, s) && at < |s.transit| && s.transit[at].packet == p && WayIsFree(cfg, s, s.transit[at].via, p)
    ensures var m := s.transit[at];
            InLineAt(Items(Next(cfg, s, Deliver(at)), m.to), |Items(s, m.to)|, p)
  {
    var m := s.transit[at];
    assert Routed(cfg, m);
    NextInboxes(cfg, s, Deliver(at));
  }

  /** From a relayer's hand. */
  lemma FromHand(cfg: Config, s: Sys, r: string, p: Packet)
    requires WellWired(cfg) && Inv(cfg, s) && Fits(s) && Awaited(s, p)
    requires r in s.stations && Holds(s.stations[r].relayer, p) && WayIsFree(cfg, s, r, p)
    ensures Deliverable(cfg, s, p)
  {
    var l := FinishRelay(r, true);
    var t := Next(cfg, s, l);
    QuietKeeps(cfg, s, l, p);
    HandSends(cfg, s, r, p);
    StepLeads(cfg, s, l, p);
    FromTransit(cfg, t, Message(r, cfg.routes[r][p.dstChain], p), p);
  }

  lemma HandSends(cfg: Config, s: Sys, r: string, p: Packet)
    requires Inv(cfg, s) && r in s.stations && Holds(s.stations[r].relayer, p) && WayIsFree(cfg, s, r, p)
    ensures var t := Next(cfg, s, FinishRelay(r, true));
            Message(r, cfg.routes[r][p.dstChain], p) in t.transit && WayIsFree(cfg, t, r, p)
  {
    var t := Next(cfg, s, FinishRelay(r, true));
    var m := Message(r, cfg.routes[r][p.dstChain], p);
    assert t.transit == s.transit + [m] && t.inboxes == s.inboxes;
  }

  /** From a relayer's queue. */
  lemma FromQueue(cfg: Config, s: Sys, r: string, p: Packet, inAcks: bool)
    requires WellWired(cfg) && Inv(cfg, s) && Fits(s) && Awaited(s, p)
    requires r in s.stations && Queued(s.stations[r].relayer, p, inAcks) && WayIsFree(cfg, s, r, p)
    ensures Deliverable(cfg, s, p)
  {
    var labels := ReachHand(cfg, s, r, p, inAcks);
    var t := Run(cfg, s, labels);
    assert forall x :: LogOf(t, x) == LogOf(s, x);
    RunInv(cfg, s, labels);
    RunLeads(cfg, s, labels, p);
    FromHand(cfg, t, r, p);
  }

  /** From wherever, by way of a relayer. */
  lemma FromRelayer(cfg: Config, s: Sys, r: string, p: Packet)
    requires WellWired(cfg) && Inv(cfg, s) && Fits(s) && Awaited(s, p) && OnItsWay(cfg, s, r, p)
    ensures Deliverable(cfg, s, p)
  {
    var st := s.stations[r].relayer;
    var m := Message(r, cfg.routes[r][p.dstChain], p);
    if Holds(st, p) {
      FromHand(cfg, s, r, p);
    } else if p in st.packets.items {
      FromQueue(cfg, s, r, p, false);
    } else if p in st.acks.items {
      FromQueue(cfg, s, r, p, true);
    } else {
      assert multiset(s.transit)[m] > 0;
      FromTransit(cfg, s, m, p);
    }
  }

  /** From wherever a live copy is. */
  lemma LiveIsDeliverable(cfg: Config, s: Sys, p: Packet)
    requires WellWired(cfg) && Inv(cfg, s) && Fits(s) && Awaited(s, p)
    ensures Live(cfg, s, p) ==> Deliverable(cfg, s, p)
  {
    if a :| InLine(s, a, p) {
      var k: nat :| InLineAt(Items(s, a), k, p);
      WorkOff(cfg, s, a, k, p);
    } else if r :| OnItsWay(cfg, s, r, p) {
      FromRelayer(cfg, s, r, p);
    }
  }

  // ---------------------------------------------------------------- exactly the live packets

  /** Some continuation, in which no counter wraps, has p accepted as the channel's next packet. */
  ghost predicate CanBeNext(cfg: Config, s: Sys, p: Packet) {
    exists more :: BecomesNext(cfg, s, more, p)
  }

  ghost predicate BecomesNext(cfg: Config, s: Sys, more: seq<Label>, p: Packet) {
    var t := Run(cfg, s, more);
    Fits(t) && LogOf(t, Target(p)) == LogOf(s, Target(p)) + [Accepted(p)]
  }

  /** In every reachable state, whoever else sends: an awaited packet can still be the next its channel
      accepts exactly when it has a live copy. */
  lemma NextExactly(cfg: Config, labels: seq<Label>, p: Packet)
    requires Sound(cfg, labels) && Awaited(Reach(cfg, labels), p)
    ensures CanBeNext(cfg, Reach(cfg, labels), p) <==> Live(cfg, Reach(cfg, labels), p)
  {
    var s := Reach(cfg, labels);
    ReachInv(cfg, labels);
    if Live(cfg, s, p) {
      LiveIsDeliverable(cfg, s, p);
      var more :| DeliveredBy(cfg, s, more, p);
      assert BecomesNext(cfg, s, more, p);
    } else if more :| BecomesNext(cfg, s, more, p) {
      DeadRun(cfg, s, more, p);
    }
  }

  /** A continuation in which the channel still only receives, and from c alone. */
  ghost predicate Faithful(cfg: Config, s: Sys, more: seq<Label>, d: ChannelName, c: ChannelName) {
    var t := Run(cfg, s, more);
    Fits(t) && OnlySource(t, d, c) && ReceiveOnly(LogOf(t, d))
  }

  ghost predicate Stalled(cfg: Config, s: Sys, d: ChannelName, c: ChannelName) {
    forall more :: Faithful(cfg, s, more, d, c) ==> LogOf(Run(cfg, s, more), d) == LogOf(s, d)
  }

  lemma DeliveredFaithfully(cfg: Config, s: Sys, more: seq<Label>, c: ChannelName, p: Packet)
    requires Delivered(cfg, s, Run(cfg, s, more), p)
    requires OnlySource(s, Target(p), c) && ReceiveOnly(LogOf(s, Target(p)))
    ensures Faithful(cfg, s, more, Target(p), c) && LogOf(Run(cfg, s, more), Target(p)) != LogOf(s, Target(p))
  {
  }

  /** A receive-only channel with one source that waits for p has stalled for good exactly when p has no
      live copy. */
  lemma StallExactly(cfg: Config, labels: seq<Label>, c: ChannelName, p: Packet)
    requires Sound(cfg, labels) && Awaited(Reach(cfg, labels), p)
    requires OnlySource(Reach(cfg, labels), Target(p), c) && ReceiveOnly(LogOf(Reach(cfg, labels), Target(p)))
    ensures Stalled(cfg, Reach(cfg, labels), Target(p), c) <==> !Live(cfg, Reach(cfg, labels), p)
  {
    var s := Reach(cfg, labels);
    if Live(cfg, s, p) {
      ReachInv(cfg, labels);
      LiveIsDeliverable(cfg, s, p);
      var more :| DeliveredBy(cfg, s, more, p);
      DeliveredFaithfully(cfg, s, more, c, p);
    } else {
      forall more | Faithful(cfg, s, more, Target(p), c)
        ensures LogOf(Run(cfg, s, more), Target(p)) == LogOf(s, Target(p))
      {
        Stall(cfg, labels, more, c, p);
      }
    }
  }

  // ---------------------------------------------------------------- losing it

  lemma HandLoses(cfg: Config, s: Sys, r: string, p: Packet)
    requires Inv(cfg, s) && r in s.stations && Holds(s.stations[r].relayer, p)
    ensures var t := Next(cfg, s, FinishRelay(r, false));
            && OnlyStations(s, t) && t.stations[r].dropped == s.stations[r].dropped + [p]
  {
  }

  /** What was lost at the only relayer there is has no copy left. */
  lemma LostIsDead(cfg: Config, s: Sys, r: string, p: Packet)
    requires Inv(cfg, s) && cfg.routes.Keys == {r} && p in s.stations[r].dropped
    ensures !Live(cfg, s, p)
  {
    assert p in multiset(s.stations[r].dropped);
    InvGivesCopies(cfg, s, r, p);
    CopiesSplit(cfg, s, r, p);
    NoCopyIsDead(cfg, s, p);
  }

  /** A packet that waits at the only relayer can be lost there, and then its channel has stalled. */
  lemma SoleRelayerCanLose(cfg: Config, labels: seq<Label>, r: string, p: Packet, inAcks: bool)
      returns (more: seq<Label>)
    requires Sound(cfg, labels) && cfg.routes.Keys == {r} && Awaited(Reach(cfg, labels), p)
    requires r in Reach(cfg, labels).stations && Queued(Reach(cfg, labels).stations[r].relayer, p, inAcks)
    ensures Sound(cfg, labels + more)
    ensures Awaited(Reach(cfg, labels + more), p) && !Live(cfg, Reach(cfg, labels + more), p)
  {
    var s := Reach(cfg, labels);
    var first := ReachHand(cfg, s, r, p, inAcks);
    var l := FinishRelay(r, false);
    more := first + [l];
    RunAppend(cfg, Initial(cfg), labels, more);
    RunAppend(cfg, s, first, [l]);
    RunOne(cfg, Run(cfg, s, first), l, []);
    var t, u := Run(cfg, s, first), Next(cfg, Run(cfg, s, first), l);
    StationsKeep(s, t, p);
    ReachInv(cfg, labels);
    RunInv(cfg, s, first);
    HandLoses(cfg, t, r, p);
    StationsKeep(t, u, p);
    NextInv(cfg, t, l);
    assert p in u.stations[r].dropped;
    LostIsDead(cfg, u, r, p);
  }

  lemma StationsKeep(s: Sys, t: Sys, p: Packet)
    requires OnlyStations(s, t)
    ensures forall d :: LogOf(t, d) == LogOf(s, d)
    ensures Fits(s) ==> Fits(t)
    ensures Awaited(s, p) ==> Awaited(t, p)
  {
    if Fits(s) {
      forall d ensures |LogOf(t, d)| < MAX64 {
        assert |LogOf(s, d)| < MAX64;
      }
    }
  }
}
