/** Where the event bus meets the step system: with one handler per relayer for packets and one for
    acknowledgements, the handler calls a chain's events give rise to are what the step system does to
    the relayers. */
module Subscribers {
  import opened Blockchain
  import opened EventBus
  import opened Protocol
  import opened WireProtocol

  /** The handlers on the bus: two of each relayer, and whatever others there are. */
  datatype Handler = PacketHandler(name: string) | AckHandler(name: string) | OtherHandler(id: nat)

  type Stations = map<string, Station>

  /** What a handler call does to the relayers. */
  function Called(stations: Stations, call: (Handler, Event)): Stations {
    match call.0
    case PacketHandler(name) =>
      if name in stations then stations[name := HearPacket(stations[name], call.1.detail)] else stations
    case AckHandler(name) =>
      if name in stations then stations[name := HearAck(stations[name], call.1.detail)] else stations
    case OtherHandler(_) => stations
  }

  function CalledAll(stations: Stations, calls: seq<(Handler, Event)>): Stations {
    if calls == [] then stations else Called(CalledAll(stations, calls[..|calls| - 1]), calls[|calls| - 1])
  }

  lemma {:induction false} CalledAppend(stations: Stations, calls: seq<(Handler, Event)>, more: seq<(Handler, Event)>)
    ensures CalledAll(stations, calls + more) == CalledAll(CalledAll(stations, calls), more)
  {
    if more == [] {
      assert calls + more == calls;
    } else {
      CalledAppend(stations, calls, more[..|more| - 1]);
      assert (calls + more)[..|calls + more| - 1] == calls + more[..|more| - 1];
    }
  }

  /** How often a handler is on a list. */
  function Times(list: seq<Subscription<Handler>>, h: Handler): nat {
    if list == [] then 0 else Times(list[..|list| - 1], h) + (if list[|list| - 1].handler == h then 1 else 0)
  }

  function ListOf(subs: Subscriptions<Handler>, kind: EventKind): seq<Subscription<Handler>> {
    if kind in subs then subs[kind] else []
  }

  /** A relayer has its two handlers on the bus once, under their own kinds, if it is among the named, and
      none otherwise. */
  ghost predicate OnceEach(subs: Subscriptions<Handler>, names: set<string>, kind: EventKind, name: string) {
    && Times(ListOf(subs, kind), PacketHandler(name)) == (if kind == IBCPacketSend && name in names then 1 else 0)
    && Times(ListOf(subs, kind), AckHandler(name)) == (if kind == IBCAckSend && name in names then 1 else 0)
  }

  ghost predicate Subscribed(subs: Subscriptions<Handler>, names: set<string>) {
    forall kind, name :: OnceEach(subs, names, kind, name)
  }

  function Added(subs: Subscriptions<Handler>, kind: EventKind, token: nat, handler: Handler): Subscriptions<Handler> {
    subs[kind := ListOf(subs, kind) + [Subscription(token, handler)]]
  }

  /** What a relayer's constructor makes of the bus: it subscribes to both kinds. */
  function Joined(subs: Subscriptions<Handler>, name: string, token: nat, next: nat): Subscriptions<Handler> {
    Added(Added(subs, IBCPacketSend, token, PacketHandler(name)), IBCAckSend, next, AckHandler(name))
  }

  lemma TimesAppend(list: seq<Subscription<Handler>>, s: Subscription<Handler>, h: Handler)
    ensures Times(list + [s], h) == Times(list, h) + (if s.handler == h then 1 else 0)
  {
    assert (list + [s])[..|list|] == list;
  }

  lemma AddedTimes(subs: Subscriptions<Handler>, kind: EventKind, token: nat, handler: Handler, k: EventKind,
      h: Handler)
    ensures Times(ListOf(Added(subs, kind, token, handler), k), h) ==
            Times(ListOf(subs, k), h) + (if k == kind && h == handler then 1 else 0)
  {
    TimesAppend(ListOf(subs, kind), Subscription(token, handler), h);
  }

  lemma JoinedTimes(subs: Subscriptions<Handler>, name: string, token: nat, next: nat, kind: EventKind, h: Handler)
    ensures Times(ListOf(Joined(subs, name, token, next), kind), h) ==
            Times(ListOf(subs, kind), h) + (if kind == IBCPacketSend && h == PacketHandler(name) then 1 else 0) +
            (if kind == IBCAckSend && h == AckHandler(name) then 1 else 0)
  {
    AddedTimes(subs, IBCPacketSend, token, PacketHandler(name), kind, h);
    AddedTimes(Added(subs, IBCPacketSend, token, PacketHandler(name)), IBCAckSend, next, AckHandler(name), kind, h);
  }

  lemma JoinedOnce(subs: Subscriptions<Handler>, names: set<string>, name: string, token: nat, next: nat,
      kind: EventKind, n: string)
    requires OnceEach(subs, names, kind, n) && name !in names
    ensures OnceEach(Joined(subs, name, token, next), names + {name}, kind, n)
  {
    JoinedTimes(subs, name, token, next, kind, PacketHandler(n));
    JoinedTimes(subs, name, token, next, kind, AckHandler(n));
  }

  /** A new relayer keeps the bus in this order. */
  lemma RelayerSubscribes(subs: Subscriptions<Handler>, names: set<string>, name: string, token: nat, next: nat)
    requires Subscribed(subs, names) && name !in names
    ensures Subscribed(Joined(subs, name, token, next), names + {name})
  {
    forall kind, n ensures OnceEach(Joined(subs, name, token, next), names + {name}, kind, n) {
      assert OnceEach(subs, names, kind, n);
      JoinedOnce(subs, names, name, token, next, kind, n);
    }
  }

  /** What a relayer becomes that was called so often by its two handlers: the counts that matter. */
  ghost predicate HeardTimes(before: Station, after: Station, packets: nat, acks: nat, detail: string) {
    && (packets == 0 && acks == 0 ==> after == before)
    && (packets == 1 && acks == 0 ==> after == HearPacket(before, detail))
    && (packets == 0 && acks == 1 ==> after == HearAck(before, detail))
  }

  /** One event to one list of handlers: a relayer listed once hears it once, one not listed does not. */
  lemma {:induction false} ListHears(stations: Stations, list: seq<Subscription<Handler>>, e: Event, name: string)
    requires name in stations
    ensures CalledAll(stations, CallsFor(list, e)).Keys == stations.Keys
    ensures HeardTimes(stations[name], CalledAll(stations, CallsFor(list, e))[name],
                       Times(list, PacketHandler(name)), Times(list, AckHandler(name)), e.detail)
  {
    if list != [] {
      ListHears(stations, list[..|list| - 1], e, name);
      LastCalled(stations, list, e);
    }
  }

  lemma {:induction false} SameRelayers(stations: Stations, calls: seq<(Handler, Event)>)
    ensures CalledAll(stations, calls).Keys == stations.Keys
  {
    if calls != [] {
      SameRelayers(stations, calls[..|calls| - 1]);
    }
  }

  lemma LastCalled(stations: Stations, list: seq<Subscription<Handler>>, e: Event)
    requires list != []
    ensures CalledAll(stations, CallsFor(list, e)) ==
            Called(CalledAll(stations, CallsFor(list[..|list| - 1], e)), (list[|list| - 1].handler, e))
  {
    assert CallsFor(list, e)[..|list| - 1] == CallsFor(list[..|list| - 1], e);
  }

  /** The calls that one event makes on the bus are the step system's publication of it. */
  lemma EventIsHeard(w: WireSys, subs: Subscriptions<Handler>, e: Event)
    requires Subscribed(subs, w.stations.Keys)
    ensures CalledAll(w.stations, Published(subs, [e])) == PublishEvent(w, e).stations
  {
    var list := ListOf(subs, e.kind);
    PublishedOne(subs, e);
    assert CallsFor<Handler>([], e) == [];
    assert Published(subs, [e]) == CallsFor(list, e);
    SameRelayers(w.stations, CallsFor(list, e));
    forall name | name in w.stations
      ensures CalledAll(w.stations, CallsFor(list, e))[name] == HearEvent(w.stations[name], e)
    {
      ListHears(w.stations, list, e, name);
      assert OnceEach(subs, w.stations.Keys, e.kind, name);
    }
  }

  lemma FirstCalled(stations: Stations, subs: Subscriptions<Handler>, events: seq<Event>)
    requires events != []
    ensures CalledAll(stations, Published(subs, events)) ==
            CalledAll(CalledAll(stations, Published(subs, [events[0]])), Published(subs, events[1..]))
  {
    var first, rest := Published(subs, [events[0]]), Published(subs, events[1..]);
    PublishedOne(subs, events[0]);
    assert Published(subs, events) == first + rest;
    CalledAppend(stations, first, rest);
  }

  /** And so are the calls that all the events of an operation make. */
  lemma {:induction false} EventsAreHeard(w: WireSys, subs: Subscriptions<Handler>, events: seq<Event>)
    requires Subscribed(subs, w.stations.Keys)
    ensures CalledAll(w.stations, Published(subs, events)) == PublishEvents(w, events).stations
    decreases |events|
  {
    if events != [] {
      EventIsHeard(w, subs, events[0]);
      assert PublishEvent(w, events[0]).stations.Keys == w.stations.Keys;
      EventsAreHeard(PublishEvent(w, events[0]), subs, events[1..]);
      FirstCalled(w.stations, subs, events);
    }
  }
}
