/** What can still happen in the deployed system: a packet or acknowledgement queued at a relayer whose
    route leads to a registered address with an open inbox can be handled there, by way of the relayer's
    loop, the transport's worker and the node's loop. */
module DeployedHandling {
  import opened Announcements
  import opened Basics
  import opened Deployment
  import opened DeployedDelivery
  import opened Envelope
  import opened Handling
  import opened Possibility
  import opened Protocol
  import opened WireProtocol
  import Codec
  import ConcurrentQueue
  import Node
  import ProtocolInvariants
  import R = Relayer
  import T = Transport

  ghost function DeployFrom(cfg: Config, d: Deployed, steps: seq<Step>): Deployed {
    if steps == [] then d else DeployNext(cfg, DeployFrom(cfg, d, steps[..|steps| - 1]), steps[|steps| - 1])
  }

  lemma {:induction false} FromAppend(cfg: Config, d: Deployed, steps: seq<Step>, more: seq<Step>)
    ensures DeployFrom(cfg, d, steps + more) == DeployFrom(cfg, DeployFrom(cfg, d, steps), more)
  {
    if more == [] {
      assert steps + more == steps;
    } else {
      FromAppend(cfg, d, steps, more[..|more| - 1]);
      assert (steps + more)[..|steps + more| - 1] == steps + more[..|more| - 1];
    }
  }

  lemma {:induction false} RunGoesOn(cfg: Config, workers: nat, waiters: nat, steps: seq<Step>, more: seq<Step>)
    ensures DeployRun(cfg, workers, waiters, steps + more) ==
            DeployFrom(cfg, DeployRun(cfg, workers, waiters, steps), more)
  {
    if more == [] {
      assert steps + more == steps;
    } else {
      RunGoesOn(cfg, workers, waiters, steps, more[..|more| - 1]);
      assert (steps + more)[..|steps + more| - 1] == steps + more[..|more| - 1];
    }
  }

  /** Some steps lead from d to e. */
  ghost predicate Reaches(cfg: Config, d: Deployed, e: Deployed) {
    exists steps :: DeployFrom(cfg, d, steps) == e
  }

  lemma OneStep(cfg: Config, d: Deployed, step: Step)
    ensures Reaches(cfg, d, DeployNext(cfg, d, step))
  {
    assert [step][..0] == [];
    assert DeployFrom(cfg, d, [step]) == DeployNext(cfg, d, step);
  }

  lemma Onward(cfg: Config, d: Deployed, e: Deployed, f: Deployed)
    requires Reaches(cfg, d, e) && Reaches(cfg, e, f)
    ensures Reaches(cfg, d, f)
  {
    var steps :| DeployFrom(cfg, d, steps) == e;
    var more :| DeployFrom(cfg, e, more) == f;
    FromAppend(cfg, d, steps, more);
  }

  // ---------------------------------------------------------------- what stays in order on the way

  /** All bytes under way can be read. */
  ghost predicate Readable(net: T.System) {
    && (forall t :: t in net.net.tasks ==> ReadLetter(t.data).Some?)
    && (forall i :: 0 <= i < |net.workers| && !net.workers[i].Idle? && !net.workers[i].Called? ==>
          ReadLetter(net.workers[i].task.data).Some?)
  }

  ghost predicate Ready(cfg: Config, d: Deployed) {
    && PipeFree(cfg) && AllLegible(d.wire) && Readable(d.net) && |d.net.workers| > 0
    && d.wire.inboxes.Keys == cfg.nodes.Keys
  }

  /** The inbox at a is there and open, and the address registered. */
  ghost predicate Listening(d: Deployed, a: string) {
    a in d.wire.inboxes && !d.wire.inboxes[a].closed && a in d.net.net.endpoints
  }

  lemma RunIsReady(cfg: Config, workers: nat, waiters: nat, steps: seq<Step>)
    requires PipeFree(cfg) && workers > 0
    ensures Ready(cfg, DeployRun(cfg, workers, waiters, steps))
  {
    var d := DeployRun(cfg, workers, waiters, steps);
    var labels := RunMatches(cfg, workers, waiters, steps);
    var w := WireRun(cfg, labels);
    RunRefines(cfg, labels);
    WorkersStay(cfg, workers, waiters, steps);
    InboxesStay(cfg, labels);
    assert d.wire == w.(transit := []);
    MatchedIsReadable(cfg, d, w);
  }

  lemma MatchedIsReadable(cfg: Config, d: Deployed, w: WireSys)
    requires Matches(cfg, d, w) && AllLegible(w)
    ensures Readable(d.net)
  {
    forall t | t in d.net.net.tasks ensures ReadLetter(t.data).Some? {
      var i :| 0 <= i < |d.net.net.tasks| && d.net.net.tasks[i] == t;
      assert ParcelsOf(d.net.net.tasks)[i] == ParcelOf(t);
      assert ParcelOf(t) in multiset(ParcelsOf(d.net.net.tasks));
      UnderWayIsLegible(cfg, d, w, ParcelOf(t));
    }
    forall i | 0 <= i < |d.net.workers| && !d.net.workers[i].Idle? && !d.net.workers[i].Called?
      ensures ReadLetter(d.net.workers[i].task.data).Some?
    {
      var x := ParcelOf(d.net.workers[i].task);
      T.CountZero(d.net.workers, Carries(x));
      assert Carries(x)(d.net.workers[i]);
      UnderWayIsLegible(cfg, d, w, x);
    }
  }

  lemma UnderWayIsLegible(cfg: Config, d: Deployed, w: WireSys, x: Parcel)
    requires Matches(cfg, d, w) && AllLegible(w) && OnTheWay(d.net, x) > 0
    ensures ReadLetter(x.bytes).Some?
  {
    assert multiset(w.transit)[x] == OnTheWay(d.net, x);
    assert x in multiset(w.transit);
  }

  lemma {:induction false} WorkersStay(cfg: Config, workers: nat, waiters: nat, steps: seq<Step>)
    ensures |DeployRun(cfg, workers, waiters, steps).net.workers| == workers
  {
    if steps != [] {
      WorkersStay(cfg, workers, waiters, steps[..|steps| - 1]);
    }
  }

  lemma InboxesStay(cfg: Config, labels: seq<Label>)
    requires PipeFree(cfg)
    ensures WireRun(cfg, labels).inboxes.Keys == cfg.nodes.Keys
  {
    RunRefines(cfg, labels);
    ProtocolInvariants.InitialInv(cfg);
    ProtocolInvariants.RunLogsGrow(cfg, Initial(cfg), labels);
    assert Meaning(WireRun(cfg, labels)).inboxes.Keys == WireRun(cfg, labels).inboxes.Keys;
  }

  // ---------------------------------------------------------------- the relayer's loop

  /** The step of the deployed system for a move of the loop; what else it takes it loses. */
  function StepOf(r: R.Relayer, name: string): Step {
    if Holding(r) then Attempt(name, true, false, 0) else Local(MoveOf(r, name))
  }

  ghost predicate OnlyRelayers(d: Deployed, e: Deployed) {
    e == d.(wire := d.wire.(stations := e.wire.stations)) && e.wire.stations.Keys == d.wire.stations.Keys
  }

  lemma MoveDeployed(cfg: Config, d: Deployed, name: string)
    requires name in d.wire.stations && name in cfg.routes
    ensures var e := DeployNext(cfg, d, StepOf(d.wire.stations[name].relayer, name));
            OnlyRelayers(d, e) && e.wire.stations[name].relayer == Moved(d.wire.stations[name].relayer)
  {
    var r := d.wire.stations[name].relayer;
    if Holding(r) {
      R.AttemptExactly(d.net.net, name, cfg.routes[name], r.phase.packet, R.Luck(true, false, d.net.now, 0));
      assert d.net.(net := d.net.net) == d.net;
    }
  }

  lemma {:induction false} TakeInHand(cfg: Config, d: Deployed, name: string, p: Packet, inAcks: bool)
    returns (e: Deployed)
    requires name in d.wire.stations && name in cfg.routes && Queued(d.wire.stations[name].relayer, p, inAcks)
    ensures Reaches(cfg, d, e) && OnlyRelayers(d, e) && Holds(e.wire.stations[name].relayer, p)
    decreases Backlog(d.wire.stations[name].relayer), Distance(d.wire.stations[name].relayer, inAcks)
  {
    var r := d.wire.stations[name].relayer;
    var f := DeployNext(cfg, d, StepOf(r, name));
    OneStep(cfg, d, StepOf(r, name));
    MoveDeployed(cfg, d, name);
    MovedCloser(r, p, inAcks);
    if Holds(f.wire.stations[name].relayer, p) {
      e := f;
    } else {
      e := TakeInHand(cfg, f, name, p, inAcks);
      Onward(cfg, d, f, e);
    }
  }

  /** What an attempt without drops does to the system. */
  lemma AttemptPushes(cfg: Config, d: Deployed, name: string, p: Packet) returns (t: T.Task)
    requires Bound(cfg, name, p) && cfg.routes[name][p.dstChain] in d.net.net.endpoints
    requires name in d.wire.stations && Holds(d.wire.stations[name].relayer, p)
    ensures var e := DeployNext(cfg, d, Attempt(name, false, false, 0));
            && e.wire == d.wire.(stations := e.wire.stations) && e.net == d.net.(net := e.net.net)
            && e.net.net.tasks == d.net.net.tasks + [t] && e.net.net.endpoints == d.net.net.endpoints
    ensures ParcelOf(t) == Parcel(cfg.routes[name][p.dstChain], Letter(name, p))
  {
    var luck := R.Luck(false, false, d.net.now, 0);
    R.AttemptExactly(d.net.net, name, cfg.routes[name], p, luck);
    t := DeployNext(cfg, d, Attempt(name, false, false, 0)).net.net.tasks[|d.net.net.tasks|];
  }

  lemma PushReadable(net: T.System, after: T.System, t: T.Task)
    requires Readable(net) && after == net.(net := after.net) && after.net.tasks == net.net.tasks + [t]
    requires ReadLetter(t.data).Some?
    ensures Readable(after)
  {
  }

  /** An attempt without drops puts the letter into the transport. */
  lemma SendOff(cfg: Config, d: Deployed, name: string, p: Packet) returns (e: Deployed, t: T.Task)
    requires Ready(cfg, d) && Bound(cfg, name, p) && Listening(d, cfg.routes[name][p.dstChain])
    requires name in d.wire.stations && Holds(d.wire.stations[name].relayer, p)
    ensures Reaches(cfg, d, e) && Ready(cfg, e) && Listening(e, cfg.routes[name][p.dstChain])
    ensures e.wire.handled == d.wire.handled
    ensures t in e.net.net.tasks && ParcelOf(t) == Parcel(cfg.routes[name][p.dstChain], Letter(name, p))
  {
    e := DeployNext(cfg, d, Attempt(name, false, false, 0));
    OneStep(cfg, d, Attempt(name, false, false, 0));
    t := AttemptPushes(cfg, d, name, p);
    WirePath(name, p);
    PushReadable(d.net, e.net, t);
  }

  // ---------------------------------------------------------------- the worker

  /** What a step of a thread leaves alone: handled messages, routes, and what listens. */
  ghost predicate Ahead(cfg: Config, d: Deployed, e: Deployed, a: string) {
    && Reaches(cfg, d, e) && Ready(cfg, e) && Listening(e, a) && e.wire.handled == d.wire.handled
  }

  lemma AheadOnward(cfg: Config, d: Deployed, e: Deployed, f: Deployed, a: string)
    requires Ahead(cfg, d, e, a) && Ahead(cfg, e, f, a)
    ensures Ahead(cfg, d, f, a)
  {
    Onward(cfg, d, e, f);
  }

  /** No step of a thread brings in unreadable bytes. */
  lemma StaysReadable(net: T.System, l: T.Label)
    requires Readable(net) && !l.BeginSend? && !l.FinishSend?
    ensures Readable(T.Next(net, l)) && |T.Next(net, l).workers| == |net.workers|
    ensures !l.Unregister? ==> net.net.endpoints <= T.Next(net, l).net.endpoints
  {
  }

  /** A thread's step that is no call, and unregisters nothing, changes nothing but the transport. */
  lemma QuietThread(cfg: Config, d: Deployed, l: T.Label, a: string)
    requires Ready(cfg, d) && Listening(d, a)
    requires l.Tick? || l.PopTop? || l.CountIt? || l.LookUp? || l.Finish?
    ensures Ahead(cfg, d, DeployNext(cfg, d, Thread(l)), a)
    ensures DeployNext(cfg, d, Thread(l)).net == T.Next(d.net, l)
  {
    OneStep(cfg, d, Thread(l));
    StaysReadable(d.net, l);
  }

  /** What a call does to the inboxes: the one it is for gets the message, if there was a handler, and the
      others are as they were. */
  lemma CallOnWire(w: WireSys, x: Parcel, found: bool)
    requires AllLegible(w) && ReadLetter(x.bytes).Some?
    ensures var t := DoCall(w, x, found);
            && AllLegible(t) && t.handled == w.handled && t.inboxes.Keys == w.inboxes.Keys
            && (forall a :: a in w.inboxes ==> t.inboxes[a].closed == w.inboxes[a].closed)
            && (found && x.to in w.inboxes && !w.inboxes[x.to].closed ==>
                  t.inboxes[x.to].items == w.inboxes[x.to].items + [Unwrap(x.bytes).value])
  {
    LetterOpens(x.bytes);
    if x.to in w.inboxes && !w.inboxes[x.to].closed {
      TakenIn(w, x);
    }
  }

  /** A call keeps everything readable and every inbox open. */
  lemma CallKeepsReady(cfg: Config, d: Deployed, e: Deployed, a: string)
    requires Ready(cfg, d) && Listening(d, a) && d.net.workers[0].Calling?
    requires e.net == T.Next(d.net, T.CallHandler(0))
    requires e.wire == DoCall(d.wire, ParcelOf(d.net.workers[0].task), d.net.workers[0].found)
    ensures Ready(cfg, e) && Listening(e, a) && e.wire.handled == d.wire.handled
  {
    StaysReadable(d.net, T.CallHandler(0));
    CallOnWire(d.wire, ParcelOf(d.net.workers[0].task), d.net.workers[0].found);
  }

  lemma CallThread(cfg: Config, d: Deployed, a: string) returns (e: Deployed)
    requires Ready(cfg, d) && Listening(d, a) && d.net.workers[0].Calling?
    ensures Ahead(cfg, d, e, a) && e.net == T.Next(d.net, T.CallHandler(0))
    ensures e.wire == DoCall(d.wire, ParcelOf(d.net.workers[0].task), d.net.workers[0].found)
  {
    e := DeployNext(cfg, d, Thread(T.CallHandler(0)));
    OneStep(cfg, d, Thread(T.CallHandler(0)));
    CallKeepsReady(cfg, d, e, a);
  }

  /** t is in the heap, or worker 0 has it and will find its handler. */
  ghost predicate Coming(net: T.System, t: T.Task) {
    || t in net.net.tasks
    || (|net.workers| > 0
        && var w := net.workers[0];
           (w.Popped? || w.Counted? || (w.Calling? && w.found)) && w.task == t)
  }

  lemma PopComing(net: T.System, i: nat, t: T.Task)
    requires |net.workers| > 0 && net.workers[0].Idle? && t in net.net.tasks
    requires T.IsTop(net.net.tasks, i) && net.net.tasks[i].deliverAt <= net.now
    ensures var n := T.Next(net, T.PopTop(0, i));
            Coming(n, t) && |n.net.tasks| < |net.net.tasks|
  {
    TakenOrLeft(net.net.tasks, i, t);
  }

  lemma QuietComing(net: T.System, t: T.Task)
    requires |net.workers| > 0 && !net.workers[0].Idle? && !net.workers[0].Calling?
    requires Coming(net, t) && t.to in net.net.endpoints
    ensures var n := T.Next(net, NextOf(net.workers[0]));
            Coming(n, t) && n.net.tasks == net.net.tasks && Busy(n.workers[0]) < Busy(net.workers[0])
  {
  }

  lemma CallComing(net: T.System, t: T.Task)
    requires |net.workers| > 0 && net.workers[0].Calling? && Coming(net, t)
    ensures var n := T.Next(net, T.CallHandler(0));
            && n.net.tasks == net.net.tasks && n.workers[0].Called?
            && (Coming(n, t) || (net.workers[0].found && net.workers[0].task == t))
  {
  }

  /** How far worker 0 is from being free. */
  function Busy(w: T.Worker): nat {
    match w
    case Idle => 0
    case Called(_) => 1
    case Calling(_, _) => 2
    case Counted(_) => 3
    case Popped(_) => 4
  }

  lemma {:induction false} SomeTop(tasks: seq<T.Task>) returns (i: nat)
    requires tasks != []
    ensures i < |tasks| && T.IsTop(tasks, i)
  {
    if |tasks| == 1 {
      i := 0;
    } else {
      var before := SomeTop(tasks[..|tasks| - 1]);
      i := if tasks[|tasks| - 1].deliverAt < tasks[before].deliverAt then |tasks| - 1 else before;
    }
  }

  /** Worker 0, when free, takes the top of the heap if it is due. */
  lemma TakeDue(cfg: Config, d: Deployed, i: nat, t: T.Task) returns (e: Deployed)
    requires Ready(cfg, d) && Listening(d, t.to) && t in d.net.net.tasks && d.net.workers[0].Idle?
    requires T.IsTop(d.net.net.tasks, i) && d.net.net.tasks[i].deliverAt <= d.net.now
    ensures Ahead(cfg, d, e, t.to) && Coming(e.net, t) && |e.net.net.tasks| < |d.net.net.tasks|
  {
    QuietThread(cfg, d, T.PopTop(0, i), t.to);
    e := DeployNext(cfg, d, Thread(T.PopTop(0, i)));
    PopComing(d.net, i, t);
  }

  lemma TakenOrLeft(tasks: seq<T.Task>, i: nat, t: T.Task)
    requires i < |tasks| && t in tasks
    ensures tasks[i] == t || t in tasks[..i] + tasks[i + 1..]
  {
    var k :| 0 <= k < |tasks| && tasks[k] == t;
    if k < i {
      assert (tasks[..i] + tasks[i + 1..])[k] == t;
    } else if k > i {
      assert (tasks[..i] + tasks[i + 1..])[k - 1] == t;
    }
  }

  /** And with time it is. */
  lemma TakeTop(cfg: Config, d: Deployed, t: T.Task) returns (e: Deployed)
    requires Ready(cfg, d) && Listening(d, t.to) && t in d.net.net.tasks && d.net.workers[0].Idle?
    ensures Ahead(cfg, d, e, t.to) && Coming(e.net, t) && |e.net.net.tasks| < |d.net.net.tasks|
  {
    var i := SomeTop(d.net.net.tasks);
    var f := Wait(cfg, d, d.net.net.tasks[i].deliverAt, t.to);
    e := TakeDue(cfg, f, i, t);
    AheadOnward(cfg, d, f, e, t.to);
  }

  lemma Wait(cfg: Config, d: Deployed, elapsed: nat, a: string) returns (e: Deployed)
    requires Ready(cfg, d) && Listening(d, a)
    ensures Ahead(cfg, d, e, a) && e.net.net == d.net.net && e.net.workers == d.net.workers
    ensures e.net.now == d.net.now + elapsed
  {
    QuietThread(cfg, d, T.Tick(elapsed), a);
    e := DeployNext(cfg, d, Thread(T.Tick(elapsed)));
  }

  /** Worker 0's next step, when it is busy with something. */
  function NextOf(w: T.Worker): T.Label
    requires !w.Idle?
  {
    match w
    case Popped(_) => T.CountIt(0)
    case Counted(_) => T.LookUp(0)
    case Calling(_, _) => T.CallHandler(0)
    case Called(_) => T.Finish(0)
  }

  /** The task's message has arrived in its inbox. */
  ghost predicate InBox(d: Deployed, t: T.Task) {
    t.to in d.wire.inboxes && Unwrap(t.data).Some? && Unwrap(t.data).value in d.wire.inboxes[t.to].items
  }

  lemma CallOn(cfg: Config, d: Deployed, t: T.Task) returns (e: Deployed)
    requires Ready(cfg, d) && Listening(d, t.to) && Coming(d.net, t) && d.net.workers[0].Calling?
    requires ReadLetter(t.data).Some?
    ensures Ahead(cfg, d, e, t.to) && (InBox(e, t) || Coming(e.net, t))
    ensures |e.net.net.tasks| == |d.net.net.tasks| && Busy(e.net.workers[0]) < Busy(d.net.workers[0])
  {
    e := CallThread(cfg, d, t.to);
    CallOutcome(d, e, t);
  }

  lemma CallOutcome(d: Deployed, e: Deployed, t: T.Task)
    requires AllLegible(d.wire) && Listening(d, t.to) && Coming(d.net, t) && ReadLetter(t.data).Some?
    requires |d.net.workers| > 0 && d.net.workers[0].Calling? && e.net == T.Next(d.net, T.CallHandler(0))
    requires e.wire == DoCall(d.wire, ParcelOf(d.net.workers[0].task), d.net.workers[0].found)
    ensures InBox(e, t) || Coming(e.net, t)
    ensures |e.net.net.tasks| == |d.net.net.tasks| && Busy(e.net.workers[0]) < Busy(d.net.workers[0])
  {
    CallComing(d.net, t);
    if d.net.workers[0].found && d.net.workers[0].task == t {
      CallArrives(d, e, t);
    }
  }

  lemma CallArrives(d: Deployed, e: Deployed, t: T.Task)
    requires AllLegible(d.wire) && Listening(d, t.to) && ReadLetter(t.data).Some?
    requires e.wire == DoCall(d.wire, ParcelOf(t), true)
    ensures InBox(e, t)
  {
    CallOnWire(d.wire, ParcelOf(t), true);
    LetterOpens(t.data);
  }

  lemma QuietOn(cfg: Config, d: Deployed, t: T.Task) returns (e: Deployed)
    requires Ready(cfg, d) && Listening(d, t.to) && Coming(d.net, t)
    requires !d.net.workers[0].Idle? && !d.net.workers[0].Calling?
    ensures Ahead(cfg, d, e, t.to) && Coming(e.net, t)
    ensures |e.net.net.tasks| == |d.net.net.tasks| && Busy(e.net.workers[0]) < Busy(d.net.workers[0])
  {
    var l := NextOf(d.net.workers[0]);
    e := DeployNext(cfg, d, Thread(l));
    QuietThread(cfg, d, l, t.to);
    QuietComing(d.net, t);
  }

  lemma WorkOn(cfg: Config, d: Deployed, t: T.Task) returns (e: Deployed)
    requires Ready(cfg, d) && Listening(d, t.to) && Coming(d.net, t) && !d.net.workers[0].Idle?
    requires ReadLetter(t.data).Some?
    ensures Ahead(cfg, d, e, t.to) && (InBox(e, t) || Coming(e.net, t))
    ensures |e.net.net.tasks| == |d.net.net.tasks| && Busy(e.net.workers[0]) < Busy(d.net.workers[0])
  {
    if d.net.workers[0].Calling? {
      e := CallOn(cfg, d, t);
    } else {
      e := QuietOn(cfg, d, t);
    }
  }

  /** However many tasks come first, worker 0 gets to t and calls its handler. */
  lemma {:induction false} BringIn(cfg: Config, d: Deployed, t: T.Task) returns (e: Deployed)
    requires Ready(cfg, d) && Listening(d, t.to) && Coming(d.net, t) && ReadLetter(t.data).Some?
    ensures Ahead(cfg, d, e, t.to) && InBox(e, t)
    decreases |d.net.net.tasks|, Busy(d.net.workers[0])
  {
    var f: Deployed;
    if d.net.workers[0].Idle? {
      f := TakeTop(cfg, d, t);
    } else {
      f := WorkOn(cfg, d, t);
    }
    if InBox(f, t) {
      e := f;
    } else {
      e := BringIn(cfg, f, t);
      AheadOnward(cfg, d, f, e, t.to);
    }
  }

  // ---------------------------------------------------------------- the node's loop

  /** How often a node has taken this very message up. */
  function TimesTaken(w: WireSys, a: string, m: NodeMessage): nat {
    multiset(w.handled)[(a, m)]
  }

  lemma TurnTakes(cfg: Config, w: WireSys, a: string)
    requires w.inboxes.Keys == cfg.nodes.Keys && a in w.inboxes && w.inboxes[a].items != []
    ensures var t := WireHandle(cfg, w, a);
            && t.handled == w.handled + [(a, w.inboxes[a].items[0])]
            && t.inboxes.Keys == w.inboxes.Keys && t.inboxes[a].items == w.inboxes[a].items[1..]
  {
    var (q, item) := ConcurrentQueue.Pop(w.inboxes[a]);
    var w1 := w.(inboxes := w.inboxes[a := q], handled := w.handled + [(a, item.value)]);
    var chain := cfg.nodes[a];
    if chain in w.chains {
      var w2 := w1.(chains := w.chains[chain := Node.Process(w.chains[chain], item.value)]);
      PublishingAnnounces(w2, Node.ProcessEvents(w.chains[chain], item.value));
      EventsLeaveMail(w2, Node.ProcessEvents(w.chains[chain], item.value));
    }
  }

  lemma {:induction false} TakeUp(cfg: Config, d: Deployed, a: string, k: nat) returns (e: Deployed)
    requires d.wire.inboxes.Keys == cfg.nodes.Keys && a in d.wire.inboxes && k < |d.wire.inboxes[a].items|
    ensures Reaches(cfg, d, e)
    ensures TimesTaken(e.wire, a, d.wire.inboxes[a].items[k]) > TimesTaken(d.wire, a, d.wire.inboxes[a].items[k])
    decreases k
  {
    var f := DeployNext(cfg, d, Local(Handle(a)));
    OneStep(cfg, d, Local(Handle(a)));
    TurnTakes(cfg, d.wire, a);
    if k == 0 {
      e := f;
    } else {
      e := TakeUp(cfg, f, a, k - 1);
      Onward(cfg, d, f, e);
    }
  }

  // ---------------------------------------------------------------- all together

  /** Whatever is queued at a relayer, packet or acknowledgement, with a route to a registered address whose
      inbox is open, some continuation of the deployed system takes up there, in the relayer's letter. */
  lemma QueuedCanBeHandled(cfg: Config, workers: nat, waiters: nat, steps: seq<Step>,
      name: string, p: Packet, inAcks: bool)
    returns (more: seq<Step>)
    requires PipeFree(cfg) && workers > 0 && Bound(cfg, name, p)
    requires var d := DeployRun(cfg, workers, waiters, steps);
             && name in d.wire.stations && Queued(d.wire.stations[name].relayer, p, inAcks)
             && Listening(d, cfg.routes[name][p.dstChain])
    ensures var a, m := cfg.routes[name][p.dstChain], NodeMessage(name, IBC, Codec.Serialize(p));
            TimesTaken(DeployRun(cfg, workers, waiters, steps + more).wire, a, m) >
            TimesTaken(DeployRun(cfg, workers, waiters, steps).wire, a, m)
  {
    var d := DeployRun(cfg, workers, waiters, steps);
    var a, m := cfg.routes[name][p.dstChain], NodeMessage(name, IBC, Codec.Serialize(p));
    RunIsReady(cfg, workers, waiters, steps);
    var e := TakeInHand(cfg, d, name, p, inAcks);
    var f, t := SendOff(cfg, e, name, p);
    Onward(cfg, d, e, f);
    WirePath(name, p);
    UnwrapWrap(m);
    var g := BringIn(cfg, f, t);
    Onward(cfg, d, f, g);
    var k: nat :| k < |g.wire.inboxes[a].items| && g.wire.inboxes[a].items[k] == m;
    var h := TakeUp(cfg, g, a, k);
    Onward(cfg, d, g, h);
    more :| DeployFrom(cfg, d, more) == h;
    RunGoesOn(cfg, workers, waiters, steps, more);
  }
}
