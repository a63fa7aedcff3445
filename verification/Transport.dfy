/** The delayed-delivery transport of net/Transport.cpp.  Net is the state its locks protect; the
    system around it has any number of senders, workers and waiters, and each step is one critical
    section (or one stretch of code between two) of one thread. */
module Transport {
  import opened Basics

  /** A delivery task.  Its id, the number of sends accepted before it, only tells equal tasks apart. */
  datatype Task = Task(id: nat, deliverAt: nat, to: string, data: string)

  /** Endpoints, the task heap and the two counters; accepted is the history of successful sends. */
  datatype Net = Net(endpoints: set<string>, tasks: seq<Task>, pending: int, inflight: int, accepted: seq<Task>)

  function EmptyNet(): Net {
    Net({}, [], 0, 0, [])
  }

  function PushTask(n: Net, deliverAt: nat, to: string, data: string): Net {
    var t := Task(|n.accepted|, deliverAt, to, data);
    n.(tasks := n.tasks + [t], pending := n.pending + 1, accepted := n.accepted + [t])
  }

  /** Position i may be the top of the heap: nothing is due earlier. */
  ghost predicate IsTop(tasks: seq<Task>, i: int) {
    0 <= i < |tasks| && forall j :: 0 <= j < |tasks| ==> tasks[i].deliverAt <= tasks[j].deliverAt
  }

  function PopTask(n: Net, i: nat): Net
    requires i < |n.tasks|
  {
    n.(tasks := n.tasks[..i] + n.tasks[i + 1..])
  }

  function CountPopped(n: Net): Net {
    n.(pending := n.pending - 1, inflight := n.inflight + 1)
  }

  function CountDone(n: Net): Net {
    n.(inflight := n.inflight - 1)
  }

  /** The condition waitForPendingDeliveries waits for. */
  predicate Drained(n: Net) {
    n.pending == 0 && n.inflight == 0
  }

  // ---------------------------------------------------------------- the threads around it

  /** Where a worker is: waiting, holding a task it has not counted yet, about to look up the handler,
      about to call it, or back from the call and not yet uncounted. */
  datatype Worker = Idle | Popped(task: Task) | Counted(task: Task) | Calling(task: Task, found: bool)
      | Called(task: Task)

  datatype Waiter = Away | Blocked | Awake | Returned

  /** A send that passed the endpoint check and has not reached the heap. */
  datatype Draft = Draft(deliverAt: nat, to: string, data: string)

  datatype Call = Call(task: Task, at: nat)

  datatype System = System(net: Net, drafts: seq<Draft>, workers: seq<Worker>, waiters: seq<Waiter>,
                           now: nat, calls: seq<Call>, finished: seq<Task>)

  datatype Label = Register(address: string)
                 | Unregister(address: string)
                 | BeginSend(to: string, data: string, latency: nat)
                 | FinishSend(draft: nat)
                 | Tick(elapsed: nat)
                 | PopTop(worker: nat, at: nat)
                 | CountIt(worker: nat)
                 | LookUp(worker: nat)
                 | CallHandler(worker: nat)
                 | Finish(worker: nat)
                 | BeginWait(waiter: nat)
                 | Recheck(waiter: nat)
                 | SpuriousWake(waiter: nat)

  function NotifyAll(waiters: seq<Waiter>): seq<Waiter> {
    seq(|waiters|, k requires 0 <= k < |waiters| => if waiters[k] == Blocked then Awake else waiters[k])
  }

  ghost predicate Enabled(s: System, l: Label) {
    match l
    case Register(_) => true
    case Unregister(_) => true
    case BeginSend(to, _, _) => to in s.net.endpoints
    case FinishSend(k) => k < |s.drafts|
    case Tick(_) => true
    case PopTop(w, i) => w < |s.workers| && s.workers[w].Idle? && IsTop(s.net.tasks, i) &&
        s.net.tasks[i].deliverAt <= s.now
    case CountIt(w) => w < |s.workers| && s.workers[w].Popped?
    case LookUp(w) => w < |s.workers| && s.workers[w].Counted?
    case CallHandler(w) => w < |s.workers| && s.workers[w].Calling?
    case Finish(w) => w < |s.workers| && s.workers[w].Called?
    case BeginWait(k) => k < |s.waiters| && (s.waiters[k].Away? || s.waiters[k].Returned?)
    case Recheck(k) => k < |s.waiters| && s.waiters[k].Awake?
    case SpuriousWake(k) => k < |s.waiters| && s.waiters[k].Blocked?
  }

  function Move(s: System, w: nat, worker: Worker): System
    requires w < |s.workers|
  {
    s.(workers := s.workers[w := worker])
  }

  /** The state after a step; a step that is not enabled changes nothing. */
  ghost function Next(s: System, l: Label): System {
    if !Enabled(s, l) then s
    else match l
      case Register(a) => s.(net := s.net.(endpoints := s.net.endpoints + {a}))
      case Unregister(a) => s.(net := s.net.(endpoints := s.net.endpoints - {a}))
      case BeginSend(to, data, latency) => s.(drafts := s.drafts + [Draft(s.now + latency, to, data)])
      case FinishSend(k) =>
        var d := s.drafts[k];
        s.(drafts := s.drafts[..k] + s.drafts[k + 1..], net := PushTask(s.net, d.deliverAt, d.to, d.data))
      case Tick(elapsed) => s.(now := s.now + elapsed)
      case PopTop(w, i) => Move(s, w, Popped(s.net.tasks[i])).(net := PopTask(s.net, i))
      case CountIt(w) => Move(s, w, Counted(s.workers[w].task)).(net := CountPopped(s.net))
      case LookUp(w) => Move(s, w, Calling(s.workers[w].task, s.workers[w].task.to in s.net.endpoints))
      case CallHandler(w) =>
        var t := s.workers[w].task;
        Move(s, w, Called(t)).(calls := if s.workers[w].found then s.calls + [Call(t, s.now)] else s.calls)
      case Finish(w) =>
        var net := CountDone(s.net);
        Move(s, w, Idle).(net := net, finished := s.finished + [s.workers[w].task],
                          waiters := if Drained(net) then NotifyAll(s.waiters) else s.waiters)
      case BeginWait(k) => s.(waiters := s.waiters[k := if Drained(s.net) then Returned else Blocked])
      case Recheck(k) => s.(waiters := s.waiters[k := if Drained(s.net) then Returned else Blocked])
      case SpuriousWake(k) => s.(waiters := s.waiters[k := Awake])
  }

  function Start(workers: nat, waiters: nat): System {
    System(EmptyNet(), [], seq(workers, _ => Idle), seq(waiters, _ => Away), 0, [], [])
  }

  ghost function Run(workers: nat, waiters: nat, labels: seq<Label>): System {
    if labels == [] then Start(workers, waiters)
    else Next(Run(workers, waiters, labels[..|labels| - 1]), labels[|labels| - 1])
  }

  // ---------------------------------------------------------------- where tasks are

  /** How many workers satisfy p. */
  function Count(workers: seq<Worker>, p: Worker -> bool): nat {
    if workers == [] then 0
    else Count(workers[..|workers| - 1], p) + (if p(workers[|workers| - 1]) then 1 else 0)
  }

  function Uncounted(): Worker -> bool {
    (w: Worker) => w.Popped?
  }

  function InFlight(): Worker -> bool {
    (w: Worker) => !w.Idle? && !w.Popped?
  }

  function Holds(t: Task): Worker -> bool {
    (w: Worker) => !w.Idle? && w.task == t
  }

  function HasCalled(t: Task): Worker -> bool {
    (w: Worker) => w.Called? && w.task == t
  }

  function WillCall(t: Task): Worker -> bool {
    (w: Worker) => !w.Idle? && !w.Called? && w.task == t
  }

  lemma {:induction false} MoveCount(ws: seq<Worker>, w: nat, x: Worker, p: Worker -> bool)
    requires w < |ws|
    ensures Count(ws[w := x], p) + (if p(ws[w]) then 1 else 0) == Count(ws, p) + (if p(x) then 1 else 0)
  {
    var last := |ws| - 1;
    if w == last {
      assert ws[w := x][..last] == ws[..last];
    } else {
      assert ws[w := x][..last] == ws[..last][w := x];
      MoveCount(ws[..last], w, x, p);
    }
  }

  lemma {:induction false} CountZero(ws: seq<Worker>, p: Worker -> bool)
    ensures Count(ws, p) == 0 <==> forall w :: 0 <= w < |ws| ==> !p(ws[w])
  {
    if ws != [] {
      CountZero(ws[..|ws| - 1], p);
    }
  }

  lemma {:induction false} CountWeaker(ws: seq<Worker>, p: Worker -> bool, q: Worker -> bool)
    requires forall w :: p(w) ==> q(w)
    ensures Count(ws, p) <= Count(ws, q)
  {
    if ws != [] {
      CountWeaker(ws[..|ws| - 1], p, q);
    }
  }

  function CalledTasks(calls: seq<Call>): seq<Task> {
    seq(|calls|, i requires 0 <= i < |calls| => calls[i].task)
  }

  /** The places of one task add up to its acceptances. */
  ghost predicate Placed(s: System, t: Task) {
    multiset(s.net.accepted)[t] ==
    multiset(s.net.tasks)[t] + Count(s.workers, Holds(t)) + multiset(s.finished)[t]
  }

  /** A handler call is over, or its worker is still on the way to say so. */
  ghost predicate CallsCovered(s: System, t: Task) {
    multiset(CalledTasks(s.calls))[t] <= multiset(s.finished)[t] + Count(s.workers, HasCalled(t))
  }

  /** The counters mean what their names say. */
  ghost predicate CountersOk(s: System) {
    && s.net.pending == |s.net.tasks| + Count(s.workers, Uncounted())
    && s.net.inflight == Count(s.workers, InFlight())
  }

  ghost predicate OnTime(s: System) {
    && (forall i :: 0 <= i < |s.calls| ==> s.calls[i].task.deliverAt <= s.calls[i].at <= s.now)
    && (forall w :: 0 <= w < |s.workers| && !s.workers[w].Idle? ==> s.workers[w].task.deliverAt <= s.now)
  }

  ghost predicate Identified(s: System) {
    forall i :: 0 <= i < |s.net.accepted| ==> s.net.accepted[i].id == i
  }

  /** No waiter sleeps through a drained state. */
  ghost predicate NoLostWakeup(s: System) {
    Drained(s.net) ==> forall k :: 0 <= k < |s.waiters| ==> !s.waiters[k].Blocked?
  }

  /** The worker's next phase under a label of its own. */
  function Phase(s: System, l: Label): Worker
    requires l.PopTop? || l.CountIt? || l.LookUp? || l.CallHandler? || l.Finish?
    requires l.worker < |s.workers| && (l.PopTop? ==> l.at < |s.net.tasks|)
    requires !l.PopTop? ==> !s.workers[l.worker].Idle?
  {
    match l
    case PopTop(_, i) => Popped(s.net.tasks[i])
    case CountIt(w) => Counted(s.workers[w].task)
    case LookUp(w) => Calling(s.workers[w].task, s.workers[w].task.to in s.net.endpoints)
    case CallHandler(w) => Called(s.workers[w].task)
    case Finish(w) => Idle
  }

  /** The effect of any step on any count of workers. */
  lemma NextCount(s: System, l: Label, p: Worker -> bool)
    ensures if Enabled(s, l) && (l.PopTop? || l.CountIt? || l.LookUp? || l.CallHandler? || l.Finish?)
            then Count(Next(s, l).workers, p) + (if p(s.workers[l.worker]) then 1 else 0) ==
                 Count(s.workers, p) + (if p(Phase(s, l)) then 1 else 0)
            else Next(s, l).workers == s.workers
  {
    if Enabled(s, l) && (l.PopTop? || l.CountIt? || l.LookUp? || l.CallHandler? || l.Finish?) {
      MoveCount(s.workers, l.worker, Phase(s, l), p);
    }
  }

  lemma PopSplits(tasks: seq<Task>, i: nat, t: Task)
    requires i < |tasks|
    ensures multiset(tasks)[t] == multiset(tasks[..i] + tasks[i + 1..])[t] + (if tasks[i] == t then 1 else 0)
  {
    assert tasks == tasks[..i] + [tasks[i]] + tasks[i + 1..];
  }

  /** The tasks a step puts into the bag and takes out of it. */
  ghost function Arriving(s: System, l: Label): multiset<Task> {
    if l.FinishSend? && Enabled(s, l)
    then multiset{Task(|s.net.accepted|, s.drafts[l.draft].deliverAt, s.drafts[l.draft].to, s.drafts[l.draft].data)}
    else multiset{}
  }

  ghost function Leaving(s: System, l: Label): multiset<Task> {
    if l.CallHandler? && Enabled(s, l) then multiset{s.workers[l.worker].task} else multiset{}
  }

  /** The effect of any step on the three sequences of tasks. */
  lemma NextTasks(s: System, l: Label, t: Task)
    ensures multiset(Next(s, l).net.tasks)[t] +
            (if l.PopTop? && Enabled(s, l) && s.net.tasks[l.at] == t then 1 else 0) ==
            multiset(s.net.tasks)[t] + Arriving(s, l)[t]
    ensures multiset(Next(s, l).net.accepted)[t] == multiset(s.net.accepted)[t] + Arriving(s, l)[t]
    ensures multiset(Next(s, l).finished)[t] ==
            multiset(s.finished)[t] + (if l.Finish? && Enabled(s, l) && s.workers[l.worker].task == t then 1 else 0)
  {
    if Enabled(s, l) && l.PopTop? {
      PopSplits(s.net.tasks, l.at, t);
    }
  }

  lemma NextPlaced(s: System, l: Label, t: Task)
    requires Placed(s, t)
    ensures Placed(Next(s, l), t)
  {
    NextCount(s, l, Holds(t));
    NextTasks(s, l, t);
  }

  lemma NextCallsCovered(s: System, l: Label, t: Task)
    requires CallsCovered(s, t)
    ensures CallsCovered(Next(s, l), t)
  {
    NextCount(s, l, HasCalled(t));
    NextTasks(s, l, t);
    if Enabled(s, l) && l.CallHandler? {
      assert CalledTasks(s.calls + [Call(s.workers[l.worker].task, s.now)]) ==
          CalledTasks(s.calls) + [s.workers[l.worker].task];
    }
  }

  lemma NextCounters(s: System, l: Label)
    requires CountersOk(s)
    ensures CountersOk(Next(s, l))
  {
    NextCount(s, l, Uncounted());
    NextCount(s, l, InFlight());
  }

  lemma NextOnTime(s: System, l: Label)
    requires OnTime(s)
    ensures OnTime(Next(s, l))
  {
  }

  lemma NextWakeup(s: System, l: Label)
    requires CountersOk(s) && NoLostWakeup(s)
    ensures NoLostWakeup(Next(s, l))
    ensures !Drained(s.net) && Drained(Next(s, l).net) ==> l.Finish? && Enabled(s, l)
  {
    NextCounters(s, l);
    if Enabled(s, l) && l.CountIt? {
      NextCount(s, l, InFlight());
    }
  }

  /** Every run keeps the meaning of the counters, the delivery times, and every waiter awake. */
  lemma {:induction false} EveryRun(workers: nat, waiters: nat, labels: seq<Label>)
    ensures var s := Run(workers, waiters, labels);
            CountersOk(s) && OnTime(s) && Identified(s) && NoLostWakeup(s)
  {
    if labels == [] {
      CountZero(Start(workers, waiters).workers, Uncounted());
      CountZero(Start(workers, waiters).workers, InFlight());
    } else {
      var s := Run(workers, waiters, labels[..|labels| - 1]);
      var l := labels[|labels| - 1];
      EveryRun(workers, waiters, labels[..|labels| - 1]);
      NextCounters(s, l);
      NextOnTime(s, l);
      NextWakeup(s, l);
    }
  }

  lemma {:induction false} EveryRunPlaces(workers: nat, waiters: nat, labels: seq<Label>, t: Task)
    ensures Placed(Run(workers, waiters, labels), t) && CallsCovered(Run(workers, waiters, labels), t)
  {
    if labels == [] {
      CountZero(Start(workers, waiters).workers, Holds(t));
    } else {
      EveryRunPlaces(workers, waiters, labels[..|labels| - 1], t);
      NextPlaced(Run(workers, waiters, labels[..|labels| - 1]), labels[|labels| - 1], t);
      NextCallsCovered(Run(workers, waiters, labels[..|labels| - 1]), labels[|labels| - 1], t);
    }
  }

  lemma {:induction false} DistinctIds(accepted: seq<Task>)
    requires forall i :: 0 <= i < |accepted| ==> accepted[i].id == i
    ensures forall t :: multiset(accepted)[t] <= 1
  {
    if accepted != [] {
      var before := accepted[..|accepted| - 1];
      DistinctIds(before);
      assert accepted == before + [accepted[|accepted| - 1]];
    }
  }

  /** At every moment an accepted task is queued, held by a worker, or finished, and in only one of
      these, and a task that was never accepted is nowhere. */
  lemma Conservation(workers: nat, waiters: nat, labels: seq<Label>, t: Task)
    ensures var s := Run(workers, waiters, labels);
            multiset(s.net.tasks)[t] + Count(s.workers, Holds(t)) + multiset(s.finished)[t] ==
            if t in s.net.accepted then 1 else 0
  {
    EveryRun(workers, waiters, labels);
    EveryRunPlaces(workers, waiters, labels, t);
    DistinctIds(Run(workers, waiters, labels).net.accepted);
    assert t in multiset(Run(workers, waiters, labels).net.accepted) <==>
        t in Run(workers, waiters, labels).net.accepted;
  }

  /** The handler of a task is called at most once, only after an accepted send, and never early. */
  lemma CallsOnceOnTime(workers: nat, waiters: nat, labels: seq<Label>, t: Task)
    ensures var s := Run(workers, waiters, labels);
            && multiset(CalledTasks(s.calls))[t] <= (if t in s.net.accepted then 1 else 0)
            && forall c :: c in s.calls ==> c.task.deliverAt <= c.at
  {
    var s := Run(workers, waiters, labels);
    EveryRun(workers, waiters, labels);
    EveryRunPlaces(workers, waiters, labels, t);
    Conservation(workers, waiters, labels, t);
    CountWeaker(s.workers, HasCalled(t), Holds(t));
  }

  /** The drain condition holds exactly when the heap is empty and no worker holds anything; and then
      every accepted send has been dealt with. */
  lemma DrainedExactly(workers: nat, waiters: nat, labels: seq<Label>)
    ensures var s := Run(workers, waiters, labels);
            && (Drained(s.net) <==> s.net.tasks == [] && forall w :: 0 <= w < |s.workers| ==> s.workers[w].Idle?)
            && (Drained(s.net) ==> multiset(s.finished) == multiset(s.net.accepted))
            && s.net.pending >= 0 && s.net.inflight >= 0
  {
    var s := Run(workers, waiters, labels);
    EveryRun(workers, waiters, labels);
    CountZero(s.workers, Uncounted());
    CountZero(s.workers, InFlight());
    if Drained(s.net) {
      assert forall w :: 0 <= w < |s.workers| ==> !Uncounted()(s.workers[w]) && !InFlight()(s.workers[w]);
      forall t ensures multiset(s.finished)[t] == multiset(s.net.accepted)[t] {
        EveryRunPlaces(workers, waiters, labels, t);
        CountZero(s.workers, Holds(t));
      }
    }
  }

  /** waitForPendingDeliveries returns, at once or after sleeping, only when everything accepted so far
      is finished. */
  lemma WaitReturns(workers: nat, waiters: nat, labels: seq<Label>, l: Label)
    requires l.BeginWait? || l.Recheck?
    requires Enabled(Run(workers, waiters, labels), l)
    requires Next(Run(workers, waiters, labels), l).waiters[l.waiter] == Returned
    ensures var s := Run(workers, waiters, labels);
            s.net.tasks == [] && multiset(s.finished) == multiset(s.net.accepted)
  {
    DrainedExactly(workers, waiters, labels);
  }

  /** Only the last worker to finish can drain the transport, and then it wakes every sleeping waiter. */
  lemma DrainNotifies(workers: nat, waiters: nat, labels: seq<Label>, l: Label)
    ensures var s := Run(workers, waiters, labels);
            !Drained(s.net) && Drained(Next(s, l).net) ==>
              && l.Finish?
              && forall k :: 0 <= k < |s.waiters| ==>
                  Next(s, l).waiters[k] == if s.waiters[k].Blocked? then Awake else s.waiters[k]
  {
    EveryRun(workers, waiters, labels);
    NextWakeup(Run(workers, waiters, labels), l);
  }

  /** The step is a wait or a re-check by waiter k. */
  predicate Asks(s: System, l: Label, k: nat)
    requires k < |s.waiters|
  {
    (l == BeginWait(k) && (s.waiters[k].Away? || s.waiters[k].Returned?)) || (l == Recheck(k) && s.waiters[k].Awake?)
  }

  /** A waiter sleeps after a step if it slept before and nothing woke it, or if it asked and was told to wait;
      and it is done if it asked when all was drained, or was done before and did not ask. */
  lemma WaiterMovesExactly(s: System, l: Label, k: nat)
    requires k < |s.waiters|
    ensures var t := Next(s, l);
            && (t.waiters[k] == Blocked <==>
                  if s.waiters[k].Blocked? then l != SpuriousWake(k) && !(l.Finish? && Enabled(s, l) && Drained(t.net))
                  else Asks(s, l, k) && !Drained(s.net))
            && (t.waiters[k] == Returned <==>
                  if Asks(s, l, k) then Drained(s.net) else s.waiters[k].Returned?)
            && (t.waiters[k] == Away <==> s.waiters[k] == Away && !Asks(s, l, k))
  {
  }

  // ---------------------------------------------------------------- endpoints

  /** Some registration of the address has no later removal. */
  ghost predicate RegisteredLast(labels: seq<Label>, address: string) {
    exists i :: 0 <= i < |labels| && labels[i] == Register(address) && Unregister(address) !in labels[i..]
  }

  lemma RegisteredStep(labels: seq<Label>, l: Label, address: string)
    ensures RegisteredLast(labels + [l], address) <==>
            l == Register(address) || (RegisteredLast(labels, address) && l != Unregister(address))
  {
    var all := labels + [l];
    forall i | 0 <= i < |labels| ensures all[i..] == labels[i..] + [l] {
    }
    assert all[|labels|..] == [l];
    if RegisteredLast(labels, address) {
      var i :| 0 <= i < |labels| && labels[i] == Register(address) && Unregister(address) !in labels[i..];
      assert all[i] == Register(address);
    }
  }

  /** The endpoints are at any time those whose last registration has not been taken back. */
  lemma {:induction false} EndpointsExactly(workers: nat, waiters: nat, labels: seq<Label>, address: string)
    ensures address in Run(workers, waiters, labels).net.endpoints <==> RegisteredLast(labels, address)
  {
    if labels != [] {
      var before, last := labels[..|labels| - 1], labels[|labels| - 1];
      EndpointsExactly(workers, waiters, before, address);
      assert labels == before + [last];
      RegisteredStep(before, last, address);
    }
  }

  // ---------------------------------------------------------------- which handlers are called

  /** At the end of these steps t has been accepted and its address is registered, */
  ghost predicate ThereAfter(workers: nat, waiters: nat, labels: seq<Label>, t: Task) {
    var net := Run(workers, waiters, labels).net;
    t in net.accepted && t.to in net.endpoints
  }

  /** or is not. */
  ghost predicate AwayAfter(workers: nat, waiters: nat, labels: seq<Label>, t: Task) {
    var net := Run(workers, waiters, labels).net;
    t in net.accepted && t.to !in net.endpoints
  }

  /** At some moment of the run, after its acceptance, t's address was registered, */
  ghost predicate WasThere(workers: nat, waiters: nat, labels: seq<Label>, t: Task) {
    exists i :: 0 <= i <= |labels| && ThereAfter(workers, waiters, labels[..i], t)
  }

  /** or was not. */
  ghost predicate WasAway(workers: nat, waiters: nat, labels: seq<Label>, t: Task) {
    exists i :: 0 <= i <= |labels| && AwayAfter(workers, waiters, labels[..i], t)
  }

  lemma MomentsGrow(workers: nat, waiters: nat, labels: seq<Label>, l: Label, t: Task)
    ensures WasThere(workers, waiters, labels, t) ==> WasThere(workers, waiters, labels + [l], t)
    ensures WasAway(workers, waiters, labels, t) ==> WasAway(workers, waiters, labels + [l], t)
  {
    forall i | 0 <= i <= |labels| ensures (labels + [l])[..i] == labels[..i] {
    }
  }

  lemma LastMoment(workers: nat, waiters: nat, labels: seq<Label>, t: Task)
    ensures ThereAfter(workers, waiters, labels, t) ==> WasThere(workers, waiters, labels, t)
    ensures AwayAfter(workers, waiters, labels, t) ==> WasAway(workers, waiters, labels, t)
  {
    assert labels[..|labels|] == labels;
  }

  /** The state of a worker about to call, and the calls made, agree with what was registered; and unless t's
      address has been away, every delivery of t that is over, or nearly, has been a call. */
  ghost predicate CallsJust(s: System, t: Task, there: bool, away: bool) {
    && FoundJust(s, t, there, away)
    && (t in CalledTasks(s.calls) ==> there)
    && (!away ==> multiset(CalledTasks(s.calls))[t] == multiset(s.finished)[t] + Count(s.workers, HasCalled(t)))
  }

  /** Workers about to call have looked t up while its address was there, or away, as they found it. */
  ghost predicate FoundJust(s: System, t: Task, there: bool, away: bool) {
    forall w :: 0 <= w < |s.workers| && s.workers[w].Calling? && s.workers[w].task == t ==>
      if s.workers[w].found then there else away
  }

  lemma NextFoundJust(s: System, l: Label, t: Task, there: bool, away: bool)
    requires FoundJust(s, t, there, away)
    requires l.LookUp? && Enabled(s, l) && s.workers[l.worker].task == t ==>
               if t.to in s.net.endpoints then there else away
    ensures FoundJust(Next(s, l), t, there, away)
  {
  }

  lemma NextCallsJust(s: System, l: Label, t: Task, there: bool, away: bool)
    requires CallsJust(s, t, there, away)
    requires l.LookUp? && Enabled(s, l) && s.workers[l.worker].task == t ==>
               if t.to in s.net.endpoints then there else away
    ensures CallsJust(Next(s, l), t, there, away)
  {
    NextFoundJust(s, l, t, there, away);
    if Enabled(s, l) && l.CallHandler? {
      CallMade(s, l, t);
    }
    if !away {
      NextCallsCounted(s, l, t, there);
    }
  }

  lemma NextCallsCounted(s: System, l: Label, t: Task, there: bool)
    requires CallsJust(s, t, there, false)
    ensures var n := Next(s, l);
            multiset(CalledTasks(n.calls))[t] == multiset(n.finished)[t] + Count(n.workers, HasCalled(t))
  {
    NextCount(s, l, HasCalled(t));
    NextTasks(s, l, t);
    if Enabled(s, l) && l.CallHandler? {
      CallMade(s, l, t);
    }
  }

  lemma CallMade(s: System, l: Label, t: Task)
    requires l.CallHandler? && Enabled(s, l)
    ensures var task := s.workers[l.worker].task;
            CalledTasks(Next(s, l).calls) ==
            if s.workers[l.worker].found then CalledTasks(s.calls) + [task] else CalledTasks(s.calls)
  {
  }

  lemma CallsJustGrows(s: System, t: Task, there: bool, away: bool, thereNow: bool, awayNow: bool)
    requires CallsJust(s, t, there, away) && (there ==> thereNow) && (away ==> awayNow)
    ensures CallsJust(s, t, thereNow, awayNow)
  {
  }

  /** A task a worker looks up has been accepted. */
  lemma LookedUpWasAccepted(workers: nat, waiters: nat, labels: seq<Label>, l: Label)
    requires l.LookUp? && Enabled(Run(workers, waiters, labels), l)
    ensures Run(workers, waiters, labels).workers[l.worker].task in Run(workers, waiters, labels).net.accepted
  {
    var s := Run(workers, waiters, labels);
    var t := s.workers[l.worker].task;
    Conservation(workers, waiters, labels, t);
    CountZero(s.workers, Holds(t));
    assert Holds(t)(s.workers[l.worker]);
  }

  lemma LookUpMoment(workers: nat, waiters: nat, labels: seq<Label>, l: Label)
    requires l.LookUp? && Enabled(Run(workers, waiters, labels), l)
    ensures var s := Run(workers, waiters, labels);
            var t := s.workers[l.worker].task;
            if t.to in s.net.endpoints then WasThere(workers, waiters, labels, t)
            else WasAway(workers, waiters, labels, t)
  {
    LookedUpWasAccepted(workers, waiters, labels, l);
    LastMoment(workers, waiters, labels, Run(workers, waiters, labels).workers[l.worker].task);
  }

  lemma {:induction false} EveryRunCallsJust(workers: nat, waiters: nat, labels: seq<Label>, t: Task)
    ensures CallsJust(Run(workers, waiters, labels), t,
                      WasThere(workers, waiters, labels, t), WasAway(workers, waiters, labels, t))
  {
    if labels == [] {
      CountZero(Start(workers, waiters).workers, HasCalled(t));
    } else {
      var before, l := labels[..|labels| - 1], labels[|labels| - 1];
      var s := Run(workers, waiters, before);
      EveryRunCallsJust(workers, waiters, before, t);
      if l.LookUp? && Enabled(s, l) {
        LookUpMoment(workers, waiters, before, l);
      }
      NextCallsJust(s, l, t, WasThere(workers, waiters, before, t), WasAway(workers, waiters, before, t));
      assert labels == before + [l];
      MomentsGrow(workers, waiters, before, l, t);
      CallsJustGrows(Next(s, l), t, WasThere(workers, waiters, before, t), WasAway(workers, waiters, before, t),
                     WasThere(workers, waiters, labels, t), WasAway(workers, waiters, labels, t));
    }
  }

  /** A handler is only called for an address that was registered while the task was under way; and as long
      as the address stays registered, every delivery that is over has been a call of the handler. */
  lemma HandlersAreCalled(workers: nat, waiters: nat, labels: seq<Label>, t: Task)
    ensures var s := Run(workers, waiters, labels);
            && (t in CalledTasks(s.calls) ==> WasThere(workers, waiters, labels, t))
            && (!WasAway(workers, waiters, labels, t) ==>
                  multiset(CalledTasks(s.calls))[t] == multiset(s.finished)[t] + Count(s.workers, HasCalled(t)))
  {
    EveryRunCallsJust(workers, waiters, labels, t);
  }

  ghost predicate NeverUnregistered(labels: seq<Label>, address: string) {
    Unregister(address) !in labels
  }

  /** What is accepted, or past the check, for an address that is never unregistered finds it registered. */
  lemma {:induction false} StaysRegistered(workers: nat, waiters: nat, labels: seq<Label>, address: string)
    requires NeverUnregistered(labels, address)
    ensures var s := Run(workers, waiters, labels);
            && (forall t :: t in s.net.accepted && t.to == address ==> address in s.net.endpoints)
            && (forall d :: d in s.drafts && d.to == address ==> address in s.net.endpoints)
  {
    if labels != [] {
      StaysRegistered(workers, waiters, labels[..|labels| - 1], address);
      assert labels[|labels| - 1] != Unregister(address);
    }
  }

  lemma NeverAway(workers: nat, waiters: nat, labels: seq<Label>, t: Task)
    requires NeverUnregistered(labels, t.to)
    ensures !WasAway(workers, waiters, labels, t)
  {
    forall i | 0 <= i <= |labels| ensures !AwayAfter(workers, waiters, labels[..i], t) {
      assert forall l :: l in labels[..i] ==> l in labels;
      StaysRegistered(workers, waiters, labels[..i], t.to);
    }
  }

  /** Without unregistering, every delivery that is over, or nearly, has been a call; */
  lemma RegisteredAreCalled(workers: nat, waiters: nat, labels: seq<Label>, t: Task)
    requires NeverUnregistered(labels, t.to)
    ensures var s := Run(workers, waiters, labels);
            multiset(CalledTasks(s.calls))[t] == multiset(s.finished)[t] + Count(s.workers, HasCalled(t))
  {
    NeverAway(workers, waiters, labels, t);
    HandlersAreCalled(workers, waiters, labels, t);
  }

  /** and when the transport is drained, the handler of every accepted send has been called exactly once. */
  lemma DrainedMeansCalled(workers: nat, waiters: nat, labels: seq<Label>)
    requires forall address :: NeverUnregistered(labels, address)
    requires Drained(Run(workers, waiters, labels).net)
    ensures var s := Run(workers, waiters, labels);
            multiset(CalledTasks(s.calls)) == multiset(s.net.accepted)
    ensures forall t :: multiset(Run(workers, waiters, labels).net.accepted)[t] <= 1
  {
    var s := Run(workers, waiters, labels);
    DrainedExactly(workers, waiters, labels);
    EveryRun(workers, waiters, labels);
    DistinctIds(s.net.accepted);
    forall t ensures multiset(CalledTasks(s.calls))[t] == multiset(s.net.accepted)[t] {
      assert NeverUnregistered(labels, t.to);
      RegisteredAreCalled(workers, waiters, labels, t);
      CountZero(s.workers, HasCalled(t));
    }
  }

  // ---------------------------------------------------------------- the transport as a bag

  /** How often t is in the transport with its handler still to be called. */
  function Outstanding(s: System, t: Task): nat {
    multiset(s.net.tasks)[t] + Count(s.workers, WillCall(t))
  }

  /** Seen from outside, the transport is a bag: a completed send puts one task in, a handler call (or
      its omission, when the endpoint is gone) takes out one that is due, and no other step matters. */
  lemma TransportIsABag(s: System, l: Label, t: Task)
    requires OnTime(s)
    ensures Outstanding(Next(s, l), t) + Leaving(s, l)[t] == Outstanding(s, t) + Arriving(s, l)[t]
    ensures t in Leaving(s, l) ==> Outstanding(s, t) > 0 && t.deliverAt <= s.now
  {
    NextCount(s, l, WillCall(t));
    NextTasks(s, l, t);
    if Enabled(s, l) && l.CallHandler? {
      CountZero(s.workers, WillCall(t));
      assert WillCall(t)(s.workers[l.worker]) <==> s.workers[l.worker].task == t;
    }
  }

  // ---------------------------------------------------------------- the class

  class TransportImpl {
    var endpoints: set<string>
    var tasks: seq<Task>
    var pendingCount: int
    var inflightCount: int
    var accepted: seq<Task>  // history: every send that succeeded

    ghost function View(): Net
      reads this
    {
      Net(endpoints, tasks, pendingCount, inflightCount, accepted)
    }

    constructor ()
      ensures View() == EmptyNet()
    {
      endpoints, tasks, pendingCount, inflightCount, accepted := {}, [], 0, 0, [];
    }

    method RegisterEndpoint(address: string) returns (code: ErrorCode)
      modifies this
      ensures View() == old(View()).(endpoints := old(endpoints) + {address})
      ensures code == if address in old(endpoints) then InvalidState else Ok
    {
      if address in endpoints {
        return InvalidState;
      }
      endpoints := endpoints + {address};
      return Ok;
    }

    method UnregisterEndpoint(address: string) returns (code: ErrorCode)
      modifies this
      ensures View() == old(View()).(endpoints := old(endpoints) - {address})
      ensures code == if address in old(endpoints) then Ok else NotFound
    {
      if address !in endpoints {
        return NotFound;
      }
      endpoints := endpoints - {address};
      return Ok;
    }

    /** The clock, the latency and the random drop are the caller's to choose. */
    method Send(to: string, data: string, now: nat, latency: nat, dropped: bool) returns (code: ErrorCode)
      modifies this
      ensures code == if to !in old(endpoints) then NotFound else if dropped then NetworkDrop else Ok
      ensures View() == if code == Ok then PushTask(old(View()), now + latency, to, data) else old(View())
      ensures code == Ok ==>
                var task := Task(|old(accepted)|, now + latency, to, data);
                && tasks == old(tasks) + [task] && accepted == old(accepted) + [task]
                && pendingCount == old(pendingCount) + 1 && inflightCount == old(inflightCount)
                && endpoints == old(endpoints)
    {
      if to !in endpoints {
        return NotFound;
      }
      if dropped {
        return NetworkDrop;
      }
      var task := Task(|accepted|, now + latency, to, data);
      tasks := tasks + [task];
      pendingCount := pendingCount + 1;
      accepted := accepted + [task];
      return Ok;
    }

    /** The position of the heap's top. */
    method Top() returns (top: nat)
      requires tasks != []
      ensures IsTop(tasks, top)
    {
      top := 0;
      for i := 1 to |tasks|
        invariant top < |tasks|
        invariant forall j :: 0 <= j < i ==> tasks[top].deliverAt <= tasks[j].deliverAt
      {
        if tasks[i].deliverAt < tasks[top].deliverAt {
          top := i;
        }
      }
    }

    /** The first critical section of a worker: take the top task if it is due. */
    method PopReady(now: nat) returns (task: Option<Task>)
      modifies this`tasks
      ensures task == None ==>
                View() == old(View()) && forall i :: 0 <= i < |tasks| ==> tasks[i].deliverAt > now
      ensures task.Some? ==> exists i ::
                && IsTop(old(tasks), i) && old(tasks)[i] == task.value && task.value.deliverAt <= now
                && View() == PopTask(old(View()), i)
      ensures task.Some? ==>
                && task.value.deliverAt <= now
                && (forall t :: t in old(tasks) ==> task.value.deliverAt <= t.deliverAt)
                && multiset(old(tasks)) == multiset(tasks) + multiset{task.value}
    {
      if tasks == [] {
        return None;
      }
      var top := Top();
      task := Some(tasks[top]);
      if task.value.deliverAt <= now {
        ghost var before := tasks;
        tasks := tasks[..top] + tasks[top + 1..];
        assert IsTop(before, top);
        assert before == before[..top] + [task.value] + before[top + 1..];
      } else {
        task := None;
      }
    }

    method CountPoppedTask()
      modifies this
      ensures View() == CountPopped(old(View()))
      ensures pendingCount == old(pendingCount) - 1 && inflightCount == old(inflightCount) + 1
      ensures tasks == old(tasks) && endpoints == old(endpoints) && accepted == old(accepted)
    {
      pendingCount := pendingCount - 1;
      inflightCount := inflightCount + 1;
    }

    /** The critical section on the endpoints, in which a worker looks its task's handler up. */
    method LookUpHandler(to: string) returns (found: bool)
      ensures found <==> to in endpoints
    {
      found := to in endpoints;
    }

    /** The last critical section of a worker; notify tells whether it wakes the waiters. */
    method FinishDelivery() returns (notify: bool)
      modifies this
      ensures View() == CountDone(old(View())) && notify == Drained(View())
      ensures inflightCount == old(inflightCount) - 1 && pendingCount == old(pendingCount)
      ensures tasks == old(tasks) && endpoints == old(endpoints) && accepted == old(accepted)
      ensures notify <==> pendingCount == 0 && inflightCount == 0
    {
      inflightCount := inflightCount - 1;
      notify := pendingCount == 0 && inflightCount == 0;
    }
  }
}
