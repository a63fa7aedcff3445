/** The whole system in one machine: the byte-level protocol with the worker-pool transport in the place
    of its idealised bag of parcels.  Relayers hand their letters to the transport, workers pop, count,
    look up and call in any interleaving, and a handler call is a node's onBytes.  Every run is matched
    by a run of the protocol, so what is proved of the protocol holds with the threads in place. */
module Deployment {
  import opened Arrivals
  import opened Basics
  import opened Blockchain
  import opened Envelope
  import opened Protocol
  import opened ProtocolInvariants
  import opened ProtocolTheorems
  import opened Possibility
  import opened Stalls
  import opened WireProtocol
  import ConcurrentQueue
  import EventBus
  import Node
  import R = Relayer
  import T = Transport

  /** The transit of wire stays empty: what is on its way is in the transport. */
  datatype Deployed = Deployed(wire: WireSys, net: T.System)

  /** A step of a chain, a relayer's loop or an inbox; a relayer's attempt to send what it holds; or a step
      of one of the transport's own threads. */
  datatype Step = Local(l: Label)
                | Attempt(name: string, routeDrop: bool, networkDrop: bool, latency: nat)
                | Thread(t: T.Label)

  predicate IsLocal(l: Label) {
    !l.FinishRelay? && !l.Deliver? && !l.Lose?
  }

  /** All sends come from relayers, and endpoints are registered by nodes. */
  predicate IsThread(cfg: Config, t: T.Label) {
    !t.BeginSend? && !t.FinishSend? && (t.Register? ==> t.address in cfg.nodes)
  }

  predicate Holding(r: R.Relayer) {
    r.phase.HasPacket? || r.phase.HasAck?
  }

  function Finished(st: Station, sent: bool): Station
    requires Holding(st.relayer)
  {
    Station(if st.relayer.phase.HasPacket? then R.FinishPacket(st.relayer, sent) else R.FinishAck(st.relayer, sent),
            if sent then st.dropped else st.dropped + [st.relayer.phase.packet])
  }

  function DoAttempt(cfg: Config, d: Deployed, name: string, luck: R.Luck): Deployed {
    if name !in d.wire.stations || name !in cfg.routes || !Holding(d.wire.stations[name].relayer) then d
    else
      var st := d.wire.stations[name];
      var (net, code) := R.Attempt(d.net.net, name, cfg.routes[name], st.relayer.phase.packet, luck);
      Deployed(d.wire.(stations := d.wire.stations[name := Finished(st, code == Ok)]), d.net.(net := net))
  }

  function ParcelOf(t: T.Task): Parcel {
    Parcel(t.to, t.data)
  }

  /** What a worker's call does to the node it reaches, or, with no handler found, to the parcel. */
  function DoCall(w: WireSys, x: Parcel, found: bool): WireSys {
    if found then TakeIn(w, x) else w.(undelivered := w.undelivered + [x])
  }

  ghost predicate Calls(s: T.System, t: T.Label) {
    t.CallHandler? && T.Enabled(s, t)
  }

  ghost function DoThread(d: Deployed, t: T.Label): Deployed {
    var wire :=
      if Calls(d.net, t)
      then DoCall(d.wire, ParcelOf(d.net.workers[t.worker].task), d.net.workers[t.worker].found)
      else d.wire;
    Deployed(wire, T.Next(d.net, t))
  }

  ghost function DeployNext(cfg: Config, d: Deployed, step: Step): Deployed {
    match step
    case Local(l) => if IsLocal(l) then d.(wire := WireNext(cfg, d.wire, l)) else d
    case Attempt(name, routeDrop, networkDrop, latency) =>
      DoAttempt(cfg, d, name, R.Luck(routeDrop, networkDrop, d.net.now, latency))
    case Thread(t) => if IsThread(cfg, t) then DoThread(d, t) else d
  }

  ghost function DeployRun(cfg: Config, workers: nat, waiters: nat, steps: seq<Step>): Deployed {
    if steps == [] then Deployed(WireInitial(cfg), T.Start(workers, waiters))
    else DeployNext(cfg, DeployRun(cfg, workers, waiters, steps[..|steps| - 1]), steps[|steps| - 1])
  }

  // ---------------------------------------------------------------- parcels on their way

  function ParcelsOf(tasks: seq<T.Task>): seq<Parcel> {
    seq(|tasks|, i requires 0 <= i < |tasks| => ParcelOf(tasks[i]))
  }

  function Carries(x: Parcel): T.Worker -> bool {
    (w: T.Worker) => !w.Idle? && !w.Called? && ParcelOf(w.task) == x
  }

  /** How often x is in the transport with its handler still to be called. */
  function OnTheWay(s: T.System, x: Parcel): nat {
    multiset(ParcelsOf(s.net.tasks))[x] + T.Count(s.workers, Carries(x))
  }

  lemma PopParcel(tasks: seq<T.Task>, i: nat, x: Parcel)
    requires i < |tasks|
    ensures multiset(ParcelsOf(tasks))[x] ==
            multiset(ParcelsOf(tasks[..i] + tasks[i + 1..]))[x] + (if ParcelOf(tasks[i]) == x then 1 else 0)
  {
    var all, rest := ParcelsOf(tasks), ParcelsOf(tasks[..i] + tasks[i + 1..]);
    assert all == all[..i] + [ParcelOf(tasks[i])] + all[i + 1..];
    assert rest == all[..i] + all[i + 1..];
  }

  /** No step of a thread but a handler call takes a parcel off its way. */
  lemma ThreadKeepsParcels(s: T.System, t: T.Label, x: Parcel)
    requires !t.BeginSend? && !t.FinishSend?
    ensures OnTheWay(s, x) ==
            OnTheWay(T.Next(s, t), x) + (if Calls(s, t) && ParcelOf(s.workers[t.worker].task) == x then 1 else 0)
  {
    T.NextCount(s, t, Carries(x));
    if t.PopTop? && T.Enabled(s, t) {
      PopParcel(s.net.tasks, t.at, x);
    }
  }

  lemma CalledWasOnTheWay(s: T.System, t: T.Label)
    requires Calls(s, t)
    ensures OnTheWay(s, ParcelOf(s.workers[t.worker].task)) > 0
  {
    var x := ParcelOf(s.workers[t.worker].task);
    T.CountZero(s.workers, Carries(x));
    assert Carries(x)(s.workers[t.worker]);
  }

  lemma PushParcel(s: T.System, deliverAt: nat, to: string, data: string, x: Parcel)
    ensures OnTheWay(s.(net := T.PushTask(s.net, deliverAt, to, data)), x) ==
            OnTheWay(s, x) + (if Parcel(to, data) == x then 1 else 0)
  {
    var t := T.Task(|s.net.accepted|, deliverAt, to, data);
    assert ParcelsOf(s.net.tasks + [t]) == ParcelsOf(s.net.tasks) + [Parcel(to, data)];
  }

  // ---------------------------------------------------------------- simulation

  /** w is d with the parcels of the transport, in some order, as its transit. */
  ghost predicate Matches(cfg: Config, d: Deployed, w: WireSys) {
    && d.wire == w.(transit := [])
    && d.net.net.endpoints <= cfg.nodes.Keys
    && forall x {:trigger OnTheWay(d.net, x)} :: multiset(w.transit)[x] == OnTheWay(d.net, x)
  }

  lemma {:induction false} EventsIgnoreTransit(w: WireSys, events: seq<EventBus.Event>, transit: seq<Parcel>)
    ensures PublishEvents(w.(transit := transit), events) == PublishEvents(w, events).(transit := transit)
    decreases |events|
  {
    if events != [] {
      EventsIgnoreTransit(PublishEvent(w, events[0]), events[1..], transit);
      assert PublishEvent(w.(transit := transit), events[0]) == PublishEvent(w, events[0]).(transit := transit);
    }
  }

  /** Local steps neither see nor touch what is on its way. */
  lemma LocalIgnoresTransit(cfg: Config, w: WireSys, l: Label, transit: seq<Parcel>)
    requires IsLocal(l)
    ensures WireNext(cfg, w.(transit := transit), l) == WireNext(cfg, w, l).(transit := transit)
  {
    if l.SendPacket? {
      SendIgnoresTransit(w, l, transit);
    } else if l.Handle? {
      HandleIgnoresTransit(cfg, w, l.address, transit);
    }
  }

  lemma SendIgnoresTransit(w: WireSys, l: Label, transit: seq<Parcel>)
    requires l.SendPacket?
    ensures WireSend(w.(transit := transit), l) == WireSend(w, l).(transit := transit)
  {
    if l.chain in w.chains {
      var (c, made) := Send(w.chains[l.chain], l.port, l.chan, l.dstChain, l.dstPort, l.dstChan, l.payload);
      EventsIgnoreTransit(w.(chains := w.chains[l.chain := c]), SendEvents(l.chain, made), transit);
    }
  }

  lemma HandleIgnoresTransit(cfg: Config, w: WireSys, a: string, transit: seq<Parcel>)
    ensures WireHandle(cfg, w.(transit := transit), a) == WireHandle(cfg, w, a).(transit := transit)
  {
    if a in w.inboxes && a in cfg.nodes && w.inboxes[a].items != [] {
      var (q, item) := ConcurrentQueue.Pop(w.inboxes[a]);
      var w1 := w.(inboxes := w.inboxes[a := q], handled := w.handled + [(a, item.value)]);
      var chain := cfg.nodes[a];
      if chain in w.chains {
        EventsIgnoreTransit(w1.(chains := w.chains[chain := Node.Process(w.chains[chain], item.value)]),
                            Node.ProcessEvents(w.chains[chain], item.value), transit);
      }
    }
  }

  lemma LocalMatches(cfg: Config, d: Deployed, w: WireSys, l: Label)
    requires Matches(cfg, d, w) && IsLocal(l)
    ensures Matches(cfg, DeployNext(cfg, d, Local(l)), WireNext(cfg, w, l))
  {
    LocalIgnoresTransit(cfg, w, l, []);
    LocalIgnoresTransit(cfg, w, l, w.transit);
    assert w.(transit := w.transit) == w;
  }

  lemma AttemptMatches(cfg: Config, d: Deployed, w: WireSys, name: string, luck: R.Luck)
    returns (sent: bool)
    requires Matches(cfg, d, w)
    ensures Matches(cfg, DoAttempt(cfg, d, name, luck), WireFinish(cfg, w, name, sent))
  {
    sent := false;
    if name in w.stations && name in cfg.routes && Holding(w.stations[name].relayer) {
      var p := w.stations[name].relayer.phase.packet;
      sent := R.Attempt(d.net.net, name, cfg.routes[name], p, luck).1 == Ok;
      if sent {
        var to := cfg.routes[name][p.dstChain];
        var e := DoAttempt(cfg, d, name, luck);
        forall x ensures multiset(w.transit + [Parcel(to, Letter(name, p))])[x] == OnTheWay(e.net, x) {
          PushParcel(d.net, luck.now + luck.latency, to, Letter(name, p), x);
          assert multiset(w.transit)[x] == OnTheWay(d.net, x);
        }
      }
    }
  }

  /** Taking the called parcel out of the transit keeps it equal to what is on its way. */
  lemma CallLeaves(s: T.System, t: T.Label, transit: seq<Parcel>, at: nat)
    requires Calls(s, t) && at < |transit| && transit[at] == ParcelOf(s.workers[t.worker].task)
    requires forall x {:trigger OnTheWay(s, x)} :: multiset(transit)[x] == OnTheWay(s, x)
    ensures forall x {:trigger OnTheWay(T.Next(s, t), x)} ::
              multiset(transit[..at] + transit[at + 1..])[x] == OnTheWay(T.Next(s, t), x)
  {
    assert transit == transit[..at] + [transit[at]] + transit[at + 1..];
    forall x ensures multiset(transit[..at] + transit[at + 1..])[x] == OnTheWay(T.Next(s, t), x) {
      ThreadKeepsParcels(s, t, x);
      assert multiset(transit)[x] == OnTheWay(s, x);
    }
  }

  lemma DeliverOrLose(cfg: Config, w: WireSys, at: nat, found: bool)
    requires at < |w.transit|
    ensures WireNext(cfg, w, if found then Deliver(at) else Lose(at)) ==
            DoCall(w.(transit := []), w.transit[at], found).(transit := w.transit[..at] + w.transit[at + 1..])
    ensures DoCall(w.(transit := []), w.transit[at], found).transit == []
  {
  }

  lemma CallMatches(cfg: Config, d: Deployed, w: WireSys, t: T.Label) returns (l: Label)
    requires Matches(cfg, d, w) && Calls(d.net, t)
    ensures Matches(cfg, DoThread(d, t), WireNext(cfg, w, l))
  {
    var worker := d.net.workers[t.worker];
    var x := ParcelOf(worker.task);
    CalledWasOnTheWay(d.net, t);
    assert multiset(w.transit)[x] == OnTheWay(d.net, x);
    assert x in multiset(w.transit);
    var at :| 0 <= at < |w.transit| && w.transit[at] == x;
    l := if worker.found then Deliver(at) else Lose(at);
    DeliverOrLose(cfg, w, at, worker.found);
    CallLeaves(d.net, t, w.transit, at);
  }

  lemma OtherThreadMatches(cfg: Config, d: Deployed, w: WireSys, t: T.Label)
    requires Matches(cfg, d, w) && IsThread(cfg, t) && !Calls(d.net, t)
    ensures Matches(cfg, DoThread(d, t), w)
  {
    forall x ensures multiset(w.transit)[x] == OnTheWay(T.Next(d.net, t), x) {
      ThreadKeepsParcels(d.net, t, x);
      assert multiset(w.transit)[x] == OnTheWay(d.net, x);
    }
  }

  /** Every step of the deployed system is a step of the protocol, or none. */
  lemma StepMatches(cfg: Config, d: Deployed, w: WireSys, step: Step) returns (l: Option<Label>)
    requires Matches(cfg, d, w)
    ensures Matches(cfg, DeployNext(cfg, d, step), if l.Some? then WireNext(cfg, w, l.value) else w)
  {
    l := None;
    match step
    case Local(m) =>
      if IsLocal(m) {
        LocalMatches(cfg, d, w, m);
        l := Some(m);
      }
    case Attempt(name, routeDrop, networkDrop, latency) =>
      var sent := AttemptMatches(cfg, d, w, name, R.Luck(routeDrop, networkDrop, d.net.now, latency));
      l := Some(FinishRelay(name, sent));
    case Thread(t) =>
      if IsThread(cfg, t) {
        if Calls(d.net, t) {
          var m := CallMatches(cfg, d, w, t);
          l := Some(m);
        } else {
          OtherThreadMatches(cfg, d, w, t);
        }
      }
  }

  lemma StartMatches(cfg: Config, workers: nat, waiters: nat)
    ensures Matches(cfg, DeployRun(cfg, workers, waiters, []), WireRun(cfg, []))
  {
    forall x ensures OnTheWay(T.Start(workers, waiters), x) == 0 {
      T.CountZero(T.Start(workers, waiters).workers, Carries(x));
    }
  }

  /** From matching states, whatever the deployed system does on is matched too. */
  lemma {:induction false} ContinuationMatches(cfg: Config, workers: nat, waiters: nat, steps: seq<Step>,
                                               labels: seq<Label>, more: seq<Step>)
    returns (rest: seq<Label>)
    requires Matches(cfg, DeployRun(cfg, workers, waiters, steps), WireRun(cfg, labels))
    ensures Matches(cfg, DeployRun(cfg, workers, waiters, steps + more), WireRun(cfg, labels + rest))
    decreases |more|
  {
    rest := [];
    if more == [] {
      assert steps + more == steps && labels + rest == labels;
    } else {
      var last := |more| - 1;
      rest := ContinuationMatches(cfg, workers, waiters, steps, labels, more[..last]);
      var so := OneMoreMatches(cfg, workers, waiters, steps + more[..last], labels + rest, more[last]);
      assert steps + more == steps + more[..last] + [more[last]];
      assert labels + (rest + so) == labels + rest + so;
      rest := rest + so;
    }
  }

  lemma OneMoreMatches(cfg: Config, workers: nat, waiters: nat, steps: seq<Step>, labels: seq<Label>, step: Step)
    returns (rest: seq<Label>)
    requires Matches(cfg, DeployRun(cfg, workers, waiters, steps), WireRun(cfg, labels))
    ensures Matches(cfg, DeployRun(cfg, workers, waiters, steps + [step]), WireRun(cfg, labels + rest))
  {
    var l := StepMatches(cfg, DeployRun(cfg, workers, waiters, steps), WireRun(cfg, labels), step);
    assert (steps + [step])[..|steps|] == steps;
    rest := if l.Some? then [l.value] else [];
    if l.Some? {
      assert (labels + rest)[..|labels|] == labels;
    } else {
      assert labels + rest == labels;
    }
  }

  /** Every run of the deployed system, threads and all, is matched by a run of the byte-level protocol. */
  lemma RunMatches(cfg: Config, workers: nat, waiters: nat, steps: seq<Step>) returns (labels: seq<Label>)
    ensures Matches(cfg, DeployRun(cfg, workers, waiters, steps), WireRun(cfg, labels))
  {
    StartMatches(cfg, workers, waiters);
    labels := ContinuationMatches(cfg, workers, waiters, [], [], steps);
    assert [] + steps == steps && [] + labels == labels;
  }

  // ---------------------------------------------------------------- theorems

  /** The packet-level state of the deployed system, but for what is in the transport. */
  ghost function State(cfg: Config, workers: nat, waiters: nat, steps: seq<Step>): Sys {
    Meaning(DeployRun(cfg, workers, waiters, steps).wire)
  }

  /** A state of the protocol that a matching state of the deployed system agrees with. */
  ghost predicate Agrees(s: Sys, t: Sys) {
    s == t.(transit := [])
  }

  lemma AgreementOfLogs(s: Sys, t: Sys)
    requires Agrees(s, t)
    ensures forall x :: LogOf(s, x) == LogOf(t, x)
    ensures Fits(s) <==> Fits(t)
    ensures forall d, c :: OnlySource(s, d, c) <==> OnlySource(t, d, c)
  {
    if Fits(s) {
      forall x ensures |LogOf(t, x)| < MAX64 {
        assert |LogOf(s, x)| < MAX64;
      }
    }
    if Fits(t) {
      forall x ensures |LogOf(s, x)| < MAX64 {
        assert |LogOf(t, x)| < MAX64;
      }
    }
  }

  lemma MatchesAgree(cfg: Config, d: Deployed, labels: seq<Label>)
    requires PipeFree(cfg) && Matches(cfg, d, WireRun(cfg, labels))
    ensures Agrees(Meaning(d.wire), Reach(cfg, labels))
  {
    RunRefines(cfg, labels);
    assert ReadParcels([]) == [];
  }

  /** The deployed system is, at every moment, in a state the protocol can reach. */
  lemma DeployedIsReached(cfg: Config, workers: nat, waiters: nat, steps: seq<Step>) returns (labels: seq<Label>)
    requires PipeFree(cfg) && WellWired(cfg) && Fits(State(cfg, workers, waiters, steps))
    ensures Matches(cfg, DeployRun(cfg, workers, waiters, steps), WireRun(cfg, labels))
    ensures Agrees(State(cfg, workers, waiters, steps), Reach(cfg, labels)) && Sound(cfg, labels)
  {
    labels := RunMatches(cfg, workers, waiters, steps);
    MatchesAgree(cfg, DeployRun(cfg, workers, waiters, steps), labels);
    AgreementOfLogs(State(cfg, workers, waiters, steps), Reach(cfg, labels));
  }

  /** Ordered delivery of the deployed system. */
  lemma DeployedPrefixDelivery(cfg: Config, workers: nat, waiters: nat, steps: seq<Step>, d: ChannelName,
      c: ChannelName)
    requires PipeFree(cfg) && WellWired(cfg) && Fits(State(cfg, workers, waiters, steps))
    requires ReceiveOnly(LogOf(State(cfg, workers, waiters, steps), d))
    requires OnlySource(State(cfg, workers, waiters, steps), d, c)
    ensures AcceptedInOrder(State(cfg, workers, waiters, steps), d, c)
  {
    var labels := DeployedIsReached(cfg, workers, waiters, steps);
    AgreementOfLogs(State(cfg, workers, waiters, steps), Reach(cfg, labels));
    PrefixDelivery(cfg, labels, d, c);
  }

  /** A parcel on its way in the transport reads as this message. */
  ghost predicate InTransport(net: T.System, m: Message) {
    exists x :: OnTheWay(net, x) > 0 && ReadParcel(x) == m
  }

  lemma InTransportExactly(cfg: Config, d: Deployed, w: WireSys, m: Message)
    requires Matches(cfg, d, w)
    ensures InTransport(d.net, m) <==> m in ReadParcels(w.transit)
  {
    if x :| OnTheWay(d.net, x) > 0 && ReadParcel(x) == m {
      assert multiset(w.transit)[x] == OnTheWay(d.net, x);
      assert x in multiset(w.transit);
      var i :| 0 <= i < |w.transit| && w.transit[i] == x;
      assert ReadParcels(w.transit)[i] == m;
    }
    if m in ReadParcels(w.transit) {
      var i :| 0 <= i < |w.transit| && ReadParcels(w.transit)[i] == m;
      assert w.transit[i] in multiset(w.transit);
      assert multiset(w.transit)[w.transit[i]] == OnTheWay(d.net, w.transit[i]);
    }
  }

  /** Acknowledgements of the deployed system are earned. */
  lemma DeployedAcksAreEarned(cfg: Config, workers: nat, waiters: nat, steps: seq<Step>, m: Message)
    requires PipeFree(cfg) && WellWired(cfg) && Fits(State(cfg, workers, waiters, steps))
    requires m.packet.kind == ACK
    requires Seen(State(cfg, workers, waiters, steps), m) || InTransport(DeployRun(cfg, workers, waiters, steps).net, m)
    ensures Earned(cfg, State(cfg, workers, waiters, steps), m)
  {
    var labels := DeployedIsReached(cfg, workers, waiters, steps);
    InTransportExactly(cfg, DeployRun(cfg, workers, waiters, steps), WireRun(cfg, labels), m);
    RunRefines(cfg, labels);
    AcksAreEarned(cfg, labels, m);
    EarnedAgrees(cfg, State(cfg, workers, waiters, steps), Reach(cfg, labels), m);
  }

  lemma EarnedAgrees(cfg: Config, s: Sys, t: Sys, m: Message)
    requires Agrees(s, t) && Earned(cfg, t, m)
    ensures Earned(cfg, s, m)
  {
    AgreementOfLogs(s, t);
    var q :| Answers(t, m.packet, q) && Source(q).chain == cfg.nodes[m.to];
    assert Answers(s, m.packet, q);
  }

  /** No node of the deployed system handles one relayer's message twice. */
  lemma DeployedHandledOnce(cfg: Config, workers: nat, waiters: nat, steps: seq<Step>, a: Packet)
    requires PipeFree(cfg) && WellWired(cfg) && Fits(State(cfg, workers, waiters, steps))
    ensures forall m :: multiset(State(cfg, workers, waiters, steps).handled)[m] <= 1
    ensures HandledCount(State(cfg, workers, waiters, steps).handled, a) <= |cfg.routes|
  {
    var labels := DeployedIsReached(cfg, workers, waiters, steps);
    HandledAtMostOncePerRelayer(cfg, labels, a);
  }

  /** Greedy delivery of the deployed system. */
  lemma DeployedDeliveryIsGreedy(cfg: Config, workers: nat, waiters: nat, steps: seq<Step>, d: ChannelName, k: nat)
    requires PipeFree(cfg) && WellWired(cfg) && Fits(State(cfg, workers, waiters, steps))
    requires ReceiveOnly(LogOf(State(cfg, workers, waiters, steps), d))
    ensures var s := State(cfg, workers, waiters, steps);
            k <= |LogOf(s, d)| <==> CountsTo(k, ArrivalNumbers(s.handled, d))
  {
    var labels := DeployedIsReached(cfg, workers, waiters, steps);
    AgreementOfLogs(State(cfg, workers, waiters, steps), Reach(cfg, labels));
    DeliveryIsGreedy(cfg, labels, d, k);
  }

  // ---------------------------------------------------------------- stalls

  /** The transport holds r's copy of p, and its way is free. */
  ghost predicate TransportCarries(cfg: Config, d: Deployed, r: string, p: Packet) {
    && r in d.wire.stations && WayIsFree(cfg, Meaning(d.wire), r, p)
    && InTransport(d.net, Message(r, cfg.routes[r][p.dstChain], p))
  }

  ghost predicate DeployedLive(cfg: Config, d: Deployed, p: Packet) {
    Live(cfg, Meaning(d.wire), p) || exists r :: TransportCarries(cfg, d, r, p)
  }

  lemma LiveIsDeployed(cfg: Config, d: Deployed, labels: seq<Label>, p: Packet)
    requires PipeFree(cfg) && Matches(cfg, d, WireRun(cfg, labels)) && Live(cfg, Reach(cfg, labels), p)
    ensures DeployedLive(cfg, d, p)
  {
    var s, t := Meaning(d.wire), Reach(cfg, labels);
    MatchesAgree(cfg, d, labels);
    RunRefines(cfg, labels);
    if a :| InLine(t, a, p) {
      var k: nat :| InLineAt(Items(t, a), k, p);
      assert Items(s, a) == Items(t, a);
      assert InLine(s, a, p);
    } else {
      var r :| OnItsWay(cfg, t, r, p);
      var m := Message(r, cfg.routes[r][p.dstChain], p);
      assert WayIsFree(cfg, s, r, p);
      if m in t.transit {
        InTransportExactly(cfg, d, WireRun(cfg, labels), m);
        assert TransportCarries(cfg, d, r, p);
      } else {
        assert OnItsWay(cfg, s, r, p);
      }
    }
  }

  /** Permanent stall of the deployed system: once the awaited packet has no live copy, the transport
      included, nothing that chains, relayers, nodes or threads do moves the channel again. */
  lemma DeployedStall(cfg: Config, workers: nat, waiters: nat, steps: seq<Step>, more: seq<Step>, c: ChannelName,
      p: Packet)
    requires PipeFree(cfg) && WellWired(cfg)
    requires Awaited(State(cfg, workers, waiters, steps), p) &&
        !DeployedLive(cfg, DeployRun(cfg, workers, waiters, steps), p)
    requires var t := State(cfg, workers, waiters, steps + more);
             Fits(t) && OnlySource(t, Target(p), c) && ReceiveOnly(LogOf(t, Target(p)))
    ensures LogOf(State(cfg, workers, waiters, steps + more), Target(p)) ==
            LogOf(State(cfg, workers, waiters, steps), Target(p))
  {
    var d := DeployRun(cfg, workers, waiters, steps);
    var labels := RunMatches(cfg, workers, waiters, steps);
    var rest := ContinuationMatches(cfg, workers, waiters, steps, labels, more);
    MatchesAgree(cfg, d, labels);
    MatchesAgree(cfg, DeployRun(cfg, workers, waiters, steps + more), labels + rest);
    RunAppend(cfg, Initial(cfg), labels, rest);
    AgreementOfLogs(State(cfg, workers, waiters, steps), Reach(cfg, labels));
    AgreementOfLogs(State(cfg, workers, waiters, steps + more), Reach(cfg, labels + rest));
    if Live(cfg, Reach(cfg, labels), p) {
      LiveIsDeployed(cfg, d, labels, p);
    }
    Stall(cfg, labels, rest, c, p);
  }

  /** A drained transport has nothing on its way. */
  lemma DrainedIsEmpty(s: T.System)
    requires T.CountersOk(s) && T.Drained(s.net)
    ensures forall x {:trigger OnTheWay(s, x)} :: OnTheWay(s, x) == 0
  {
    forall x ensures OnTheWay(s, x) == 0 {
      T.CountZero(s.workers, T.Uncounted());
      T.CountZero(s.workers, T.InFlight());
      assert forall w :: 0 <= w < |s.workers| ==> !T.Uncounted()(s.workers[w]) && !T.InFlight()(s.workers[w]);
      T.CountZero(s.workers, Carries(x));
    }
  }

  /** An attempt that reaches the transport is a send there, begun and finished. */
  lemma AttemptIsSend(s: T.System, name: string, chainAddr: map<string, string>, p: Packet, luck: R.Luck)
    requires luck.now == s.now && R.Attempt(s.net, name, chainAddr, p, luck).1 == Ok
    ensures var begin := T.BeginSend(chainAddr[p.dstChain], Letter(name, p), luck.latency);
            T.Next(T.Next(s, begin), T.FinishSend(|s.drafts|)) ==
                s.(net := R.Attempt(s.net, name, chainAddr, p, luck).0)
  {
    var d := T.Draft(s.now + luck.latency, chainAddr[p.dstChain], Letter(name, p));
    assert (s.drafts + [d])[..|s.drafts|] + (s.drafts + [d])[|s.drafts| + 1..] == s.drafts;
  }

  lemma RunLast(workers: nat, waiters: nat, labels: seq<T.Label>, t: T.Label)
    ensures T.Run(workers, waiters, labels + [t]) == T.Next(T.Run(workers, waiters, labels), t)
  {
    assert (labels + [t])[..|labels|] == labels;
  }

  lemma RunTwo(workers: nat, waiters: nat, labels: seq<T.Label>, t: T.Label, u: T.Label)
    ensures T.Run(workers, waiters, labels + [t]) == T.Next(T.Run(workers, waiters, labels), t)
    ensures T.Run(workers, waiters, labels + [t, u]) == T.Next(T.Next(T.Run(workers, waiters, labels), t), u)
  {
    RunLast(workers, waiters, labels, t);
    assert labels + [t, u] == labels + [t] + [u];
    RunLast(workers, waiters, labels + [t], u);
  }

  /** The transport inside the deployed system runs as the transport does on its own, so all that was
      proved of its counters, calls and waits holds here. */
  lemma {:induction false} TransportRuns(cfg: Config, workers: nat, waiters: nat, steps: seq<Step>)
      returns (labels: seq<T.Label>)
    ensures T.Run(workers, waiters, labels) == DeployRun(cfg, workers, waiters, steps).net
  {
    labels := [];
    if steps != [] {
      var d := DeployRun(cfg, workers, waiters, steps[..|steps| - 1]);
      labels := TransportRuns(cfg, workers, waiters, steps[..|steps| - 1]);
      match steps[|steps| - 1]
      case Local(_) =>
      case Attempt(name, routeDrop, networkDrop, latency) =>
        if name in d.wire.stations && name in cfg.routes && Holding(d.wire.stations[name].relayer) {
          var p := d.wire.stations[name].relayer.phase.packet;
          var luck := R.Luck(routeDrop, networkDrop, d.net.now, latency);
          if R.Attempt(d.net.net, name, cfg.routes[name], p, luck).1 == Ok {
            var begin := T.BeginSend(cfg.routes[name][p.dstChain], Letter(name, p), latency);
            AttemptIsSend(d.net, name, cfg.routes[name], p, luck);
            RunTwo(workers, waiters, labels, begin, T.FinishSend(|d.net.drafts|));
            labels := labels + [begin, T.FinishSend(|d.net.drafts|)];
          }
        }
      case Thread(t) =>
        if IsThread(cfg, t) {
          RunTwo(workers, waiters, labels, t, t);
          labels := labels + [t];
        }
    }
  }

  lemma NothingInTransit(w: WireSys)
    requires forall x :: multiset(w.transit)[x] == 0
    ensures w.transit == []
  {
    assert multiset(w.transit) == multiset{};
    assert |multiset(w.transit)| == |w.transit|;
  }

  /** Whenever the drain condition holds, every copy of every published packet is with its relayer, in an
      inbox, handled, or lost, and in only one of these: nothing is hidden in the transport. */
  lemma DrainedCopies(cfg: Config, workers: nat, waiters: nat, steps: seq<Step>, r: string, p: Packet)
    requires PipeFree(cfg) && WellWired(cfg) && Fits(State(cfg, workers, waiters, steps))
    requires T.Drained(DeployRun(cfg, workers, waiters, steps).net.net)
    requires r in State(cfg, workers, waiters, steps).stations
    ensures var s := State(cfg, workers, waiters, steps);
            && s.transit == []
            && Copies(cfg, s, r, p) == if p in s.published then 1 else 0
  {
    var labels := RunMatches(cfg, workers, waiters, steps);
    var d, w := DeployRun(cfg, workers, waiters, steps), WireRun(cfg, labels);
    var threads := TransportRuns(cfg, workers, waiters, steps);
    T.EveryRun(workers, waiters, threads);
    DrainedIsEmpty(d.net);
    forall x ensures multiset(w.transit)[x] == 0 {
      assert multiset(w.transit)[x] == OnTheWay(d.net, x);
    }
    NothingInTransit(w);
    assert d.wire == w;
    RunRefines(cfg, labels);
    CopiesAreConserved(cfg, labels, r, p);
  }
}
