/** Delivery in the deployed system: as long as a node's address stays registered and its inbox open, the
    transport loses nothing on the way to it. */
module DeployedDelivery {
  import opened Basics
  import opened Deployment
  import opened Envelope
  import opened Protocol
  import opened ProtocolInvariants
  import opened WireProtocol
  import Blockchain
  import EventBus
  import ConcurrentQueue
  import Node
  import R = Relayer
  import T = Transport

  /** No step takes the address off the transport or closes its inbox. */
  ghost predicate StaysOpen(steps: seq<Step>, a: string) {
    forall i :: 0 <= i < |steps| ==> steps[i] != Thread(T.Unregister(a)) && steps[i] != Local(CloseInbox(a))
  }

  /** a's mail is safe: its inbox is open, nothing for it is without a handler, and nothing was lost. */
  ghost predicate Safe(d: Deployed, a: string) {
    && (a in d.wire.inboxes ==> !d.wire.inboxes[a].closed)
    && (forall t :: t in d.net.net.tasks && t.to == a ==> a in d.net.net.endpoints)
    && (forall i :: 0 <= i < |d.net.workers| && !d.net.workers[i].Idle? && d.net.workers[i].task.to == a ==>
          a in d.net.net.endpoints && (d.net.workers[i].Calling? ==> d.net.workers[i].found))
    && (forall x :: x in d.wire.undelivered ==> x.to != a)
  }

  lemma {:induction false} EventsLeaveMail(w: WireSys, events: seq<EventBus.Event>)
    ensures PublishEvents(w, events).inboxes == w.inboxes && PublishEvents(w, events).undelivered == w.undelivered
    decreases |events|
  {
    if events != [] {
      EventsLeaveMail(PublishEvent(w, events[0]), events[1..]);
    }
  }

  /** Local steps lose nothing, and open and close nothing but the inbox they name. */
  ghost predicate MailKept(w: WireSys, t: WireSys, a: string) {
    && t.undelivered == w.undelivered && t.inboxes.Keys == w.inboxes.Keys
    && (a in w.inboxes ==> t.inboxes[a].closed == w.inboxes[a].closed)
  }

  lemma LocalKeepsMail(cfg: Config, w: WireSys, l: Label, a: string)
    requires IsLocal(l) && l != CloseInbox(a)
    ensures MailKept(w, WireNext(cfg, w, l), a)
  {
    if l.SendPacket? {
      SendKeepsMail(w, l, a);
    } else if l.Handle? {
      HandleKeepsMail(cfg, w, l.address, a);
    }
  }

  lemma SendKeepsMail(w: WireSys, l: Label, a: string)
    requires l.SendPacket?
    ensures MailKept(w, WireSend(w, l), a)
  {
    if l.chain in w.chains {
      var (c, made) :=
        Blockchain.Send(w.chains[l.chain], l.port, l.chan, l.dstChain, l.dstPort, l.dstChan, l.payload);
      EventsLeaveMail(w.(chains := w.chains[l.chain := c]), Blockchain.SendEvents(l.chain, made));
    }
  }

  lemma HandleKeepsMail(cfg: Config, w: WireSys, b: string, a: string)
    ensures MailKept(w, WireHandle(cfg, w, b), a)
  {
    if b in w.inboxes && b in cfg.nodes && w.inboxes[b].items != [] {
      var (q, item) := ConcurrentQueue.Pop(w.inboxes[b]);
      var w1 := w.(inboxes := w.inboxes[b := q], handled := w.handled + [(b, item.value)]);
      var chain := cfg.nodes[b];
      if chain in w.chains {
        EventsLeaveMail(w1.(chains := w.chains[chain := Node.Process(w.chains[chain], item.value)]),
                        Node.ProcessEvents(w.chains[chain], item.value));
      }
    }
  }

  lemma LocalIsSafe(cfg: Config, d: Deployed, l: Label, a: string)
    requires IsLocal(l) && l != CloseInbox(a) && Safe(d, a)
    ensures Safe(d.(wire := WireNext(cfg, d.wire, l)), a)
  {
    LocalKeepsMail(cfg, d.wire, l, a);
  }

  lemma AttemptIsSafe(cfg: Config, d: Deployed, name: string, luck: R.Luck, a: string)
    requires Safe(d, a)
    ensures Safe(DoAttempt(cfg, d, name, luck), a)
  {
  }

  /** A legible parcel for an open inbox is taken in. */
  lemma TakenIn(w: WireSys, x: Parcel)
    requires x.to in w.inboxes && !w.inboxes[x.to].closed && ReadLetter(x.bytes).Some?
    ensures TakeIn(w, x).undelivered == w.undelivered
    ensures TakeIn(w, x).inboxes == w.inboxes[x.to := ConcurrentQueue.Push(w.inboxes[x.to], Unwrap(x.bytes).value)]
  {
    var q := w.inboxes[x.to];
    assert ConcurrentQueue.Push(q, Unwrap(x.bytes).value).items != q.items;
  }

  lemma CallIsSafe(d: Deployed, t: T.Label, a: string)
    requires Safe(d, a) && Calls(d.net, t)
    requires var x := ParcelOf(d.net.workers[t.worker].task);
             x.to == a ==> a in d.wire.inboxes && ReadLetter(x.bytes).Some?
    ensures Safe(DoThread(d, t), a)
  {
    var x := ParcelOf(d.net.workers[t.worker].task);
    if x.to == a {
      TakenIn(d.wire, x);
    } else if d.net.workers[t.worker].found {
      assert TakeIn(d.wire, x).undelivered == d.wire.undelivered ||
          TakeIn(d.wire, x).undelivered == d.wire.undelivered + [x];
    }
  }

  lemma OtherThreadIsSafe(d: Deployed, t: T.Label, a: string)
    requires Safe(d, a) && !Calls(d.net, t) && t != T.Unregister(a) && !t.BeginSend? && !t.FinishSend?
    ensures Safe(DoThread(d, t), a)
  {
  }

  /** What a worker is about to hand over can be read, and its address is a node's. */
  lemma CalledIsLegible(cfg: Config, workers: nat, waiters: nat, steps: seq<Step>, t: T.Label)
    requires PipeFree(cfg) && Calls(DeployRun(cfg, workers, waiters, steps).net, t)
    ensures var d := DeployRun(cfg, workers, waiters, steps);
            var x := ParcelOf(d.net.workers[t.worker].task);
            ReadLetter(x.bytes).Some? && d.wire.inboxes.Keys == cfg.nodes.Keys && d.net.net.endpoints <= cfg.nodes.Keys
  {
    var d := DeployRun(cfg, workers, waiters, steps);
    var x := ParcelOf(d.net.workers[t.worker].task);
    var labels := RunMatches(cfg, workers, waiters, steps);
    var w := WireRun(cfg, labels);
    RunRefines(cfg, labels);
    CalledWasOnTheWay(d.net, t);
    assert multiset(w.transit)[x] == OnTheWay(d.net, x);
    assert x in multiset(w.transit);
    InitialInv(cfg);
    RunLogsGrow(cfg, Initial(cfg), labels);
    assert Meaning(w).inboxes.Keys == cfg.nodes.Keys;
  }

  /** If the step is a call, its parcel can be read and reaches a node. */
  ghost predicate CallIsLegible(cfg: Config, d: Deployed, step: Step) {
    step.Thread? && Calls(d.net, step.t) ==>
      && ReadLetter(ParcelOf(d.net.workers[step.t.worker].task).bytes).Some?
      && d.wire.inboxes.Keys == cfg.nodes.Keys && d.net.net.endpoints <= cfg.nodes.Keys
  }

  lemma StepIsSafe(cfg: Config, d: Deployed, step: Step, a: string)
    requires Safe(d, a) && CallIsLegible(cfg, d, step)
    requires step != Thread(T.Unregister(a)) && step != Local(CloseInbox(a))
    ensures Safe(DeployNext(cfg, d, step), a)
  {
    match step
    case Local(l) =>
      if IsLocal(l) {
        LocalIsSafe(cfg, d, l, a);
      }
    case Attempt(name, routeDrop, networkDrop, latency) =>
      AttemptIsSafe(cfg, d, name, R.Luck(routeDrop, networkDrop, d.net.now, latency), a);
    case Thread(t) =>
      if IsThread(cfg, t) {
        if Calls(d.net, t) {
          CallIsSafe(d, t, a);
        } else {
          OtherThreadIsSafe(d, t, a);
        }
      }
  }

  lemma {:induction false} EveryRunIsSafe(cfg: Config, workers: nat, waiters: nat, steps: seq<Step>, a: string)
    requires PipeFree(cfg) && StaysOpen(steps, a)
    ensures Safe(DeployRun(cfg, workers, waiters, steps), a)
  {
    if steps != [] {
      var before, step := steps[..|steps| - 1], steps[|steps| - 1];
      EveryRunIsSafe(cfg, workers, waiters, before, a);
      if step.Thread? && Calls(DeployRun(cfg, workers, waiters, before).net, step.t) {
        CalledIsLegible(cfg, workers, waiters, before, step.t);
      }
      StepIsSafe(cfg, DeployRun(cfg, workers, waiters, before), step, a);
    }
  }

  /** As long as an address stays registered and its inbox open, no parcel for it is lost, whatever the
      threads do. */
  lemma NothingIsLost(cfg: Config, workers: nat, waiters: nat, steps: seq<Step>, a: string, x: Parcel)
    requires PipeFree(cfg) && StaysOpen(steps, a)
    requires x in DeployRun(cfg, workers, waiters, steps).wire.undelivered
    ensures x.to != a
  {
    EveryRunIsSafe(cfg, workers, waiters, steps, a);
  }

  /** So, when the transport is drained, every published packet a relayer has sent off to such an address has
      arrived there, and waits in the inbox or has been handled. */
  lemma SentHasArrived(cfg: Config, workers: nat, waiters: nat, steps: seq<Step>, r: string, p: Packet)
    requires PipeFree(cfg) && WellWired(cfg) && Fits(State(cfg, workers, waiters, steps))
    requires T.Drained(DeployRun(cfg, workers, waiters, steps).net.net)
    requires r in cfg.routes && p.dstChain in cfg.routes[r] && StaysOpen(steps, cfg.routes[r][p.dstChain])
    requires var s := State(cfg, workers, waiters, steps);
             r in s.stations && p in s.published && StationCount(s.stations[r], p) == 0
    ensures var s := State(cfg, workers, waiters, steps);
            var m := Message(r, cfg.routes[r][p.dstChain], p);
            multiset(Items(s, m.to))[m] + multiset(s.handled)[m] == 1
  {
    var s := State(cfg, workers, waiters, steps);
    var m := Message(r, cfg.routes[r][p.dstChain], p);
    DrainedCopies(cfg, workers, waiters, steps, r, p);
    EveryRunIsSafe(cfg, workers, waiters, steps, m.to);
    var lost := DeployRun(cfg, workers, waiters, steps).wire.undelivered;
    forall i | 0 <= i < |s.undelivered| ensures s.undelivered[i] != m {
      assert s.undelivered[i] == ReadParcel(lost[i]) && lost[i] in lost;
    }
    assert m !in s.undelivered;
    assert m !in multiset(s.undelivered) && m !in multiset(s.transit);
  }
}
