/** The publish/subscribe bus of core/EventBus.cpp.  A handler is known by an identity of type H, and
    calling it is recorded in calls. */
module EventBus {

  datatype EventKind = BlockFinalized | IBCPacketSend | IBCPacketRecv | IBCAckSend | IBCAckRecv

  datatype Event = Event(kind: EventKind, chainId: string, detail: string)

  datatype Subscription<H> = Subscription(token: nat, handler: H)

  type Subscriptions<H> = map<EventKind, seq<Subscription<H>>>

  function Without<H>(list: seq<Subscription<H>>, token: nat): seq<Subscription<H>> {
    if list == [] then []
    else (if list[0].token == token then [] else [list[0]]) + Without(list[1..], token)
  }

  function TokensOf<H>(list: seq<Subscription<H>>): set<nat> {
    if list == [] then {} else {list[0].token} + TokensOf(list[1..])
  }

  lemma {:induction false} TokensOfAppend<H>(list: seq<Subscription<H>>, s: Subscription<H>)
    ensures TokensOf(list + [s]) == TokensOf(list) + {s.token}
  {
    if list != [] {
      assert (list + [s])[1..] == list[1..] + [s];
      TokensOfAppend(list[1..], s);
    }
  }

  /** Removing a token removes it, keeps the others in their order, and shrinks the list exactly when
      the token was there. */
  lemma {:induction false} WithoutToken<H>(list: seq<Subscription<H>>, token: nat)
    ensures TokensOf(Without(list, token)) == TokensOf(list) - {token}
    ensures |Without(list, token)| <= |list|
    ensures |Without(list, token)| < |list| <==> token in TokensOf(list)
    ensures token !in TokensOf(list) ==> Without(list, token) == list
  {
    if list != [] {
      var rest := Without(list[1..], token);
      WithoutToken(list[1..], token);
      assert ([list[0]] + rest)[1..] == rest && [] + rest == rest;
      assert list == [list[0]] + list[1..];
    }
  }

  lemma {:induction false} WithoutAppend<H>(a: seq<Subscription<H>>, b: seq<Subscription<H>>, token: nat)
    ensures Without(a + b, token) == Without(a, token) + Without(b, token)
  {
    if a == [] {
      assert a + b == b;
    } else {
      assert (a + b)[1..] == a[1..] + b;
      WithoutAppend(a[1..], b, token);
    }
  }

  /** The one subscription with the token goes; all before and behind it stay as they are, in their order. */
  lemma WithoutExactly<H>(before: seq<Subscription<H>>, s: Subscription<H>, after: seq<Subscription<H>>)
    requires s.token !in TokensOf(before) && s.token !in TokensOf(after)
    ensures Without(before + [s] + after, s.token) == before + after
  {
    WithoutAppend(before + [s], after, s.token);
    WithoutAppend(before, [s], s.token);
    WithoutToken(before, s.token);
    WithoutToken(after, s.token);
    WithoutOne(s);
    assert before + [] == before;
  }

  lemma WithoutOne<H>(s: Subscription<H>)
    ensures Without([s], s.token) == []
  {
    assert [s][1..] == [];
  }

  /** No token is in use under two kinds, and all were handed out before next. */
  ghost predicate Tokens<H>(subs: Subscriptions<H>, next: nat) {
    && (forall k, t :: k in subs && t in TokensOf(subs[k]) ==> t < next)
    && (forall k, l :: k in subs && l in subs && k != l ==> TokensOf(subs[k]) !! TokensOf(subs[l]))
  }

  function Removed<H>(subs: Subscriptions<H>, token: nat): Subscriptions<H> {
    map k | k in subs :: Without(subs[k], token)
  }

  lemma RemovedKeepsTokens<H>(subs: Subscriptions<H>, next: nat, token: nat)
    requires Tokens(subs, next)
    ensures Tokens(Removed(subs, token), next)
  {
    forall k | k in subs ensures TokensOf(Removed(subs, token)[k]) == TokensOf(subs[k]) - {token} {
      WithoutToken(subs[k], token);
    }
  }

  /** As a token is used under one kind only, removing it there removes it everywhere. */
  lemma RemovedFromOneList<H>(subs: Subscriptions<H>, next: nat, token: nat, kind: EventKind)
    requires Tokens(subs, next) && kind in subs && token in TokensOf(subs[kind])
    ensures Removed(subs, token) == subs[kind := Without(subs[kind], token)]
  {
    forall k | k in subs && k != kind ensures Without(subs[k], token) == subs[k] {
      WithoutToken(subs[k], token);
    }
  }

  function CallsFor<H>(list: seq<Subscription<H>>, e: Event): (calls: seq<(H, Event)>)
    ensures |calls| == |list|
    ensures forall i :: 0 <= i < |list| ==> calls[i] == (list[i].handler, e)
  {
    seq(|list|, i requires 0 <= i < |list| => (list[i].handler, e))
  }

  /** The calls one event makes: every handler of its kind, once. */
  function CallsOn<H>(subs: Subscriptions<H>, e: Event): seq<(H, Event)> {
    if e.kind in subs then CallsFor(subs[e.kind], e) else []
  }

  class EventBus<H(==)> {
    var nextToken: nat
    var subs: Subscriptions<H>
    var calls: seq<(H, Event)>

    ghost predicate Valid()
      reads this
    {
      Tokens(subs, nextToken)
    }

    constructor ()
      ensures Valid() && subs == map[] && calls == []
    {
      nextToken, subs, calls := 1, map[], [];
    }

    method Subscribe(kind: EventKind, handler: H) returns (token: nat)
      requires Valid()
      modifies this`nextToken, this`subs
      ensures Valid()
      ensures token == old(nextToken) && nextToken == token + 1
      ensures var list := if kind in old(subs) then old(subs)[kind] else [];
              subs == old(subs)[kind := list + [Subscription(token, handler)]]
    {
      token := nextToken;
      nextToken := nextToken + 1;
      var list := if kind in subs then subs[kind] else [];
      TokensOfAppend(list, Subscription(token, handler));
      subs := subs[kind := list + [Subscription(token, handler)]];
    }

    /** The loop meets the kinds in no particular order and stops at the first list that shrinks.  The
        token is gone from every list all the same. */
    method Unsubscribe(token: nat)
      requires Valid()
      modifies this`subs
      ensures Valid()
      ensures subs == Removed(old(subs), token)
    {
      RemovedKeepsTokens(subs, nextToken, token);
      var unseen := subs.Keys;
      while unseen != {}
        invariant unseen <= subs.Keys && subs == old(subs)
        invariant forall k :: k in subs && k !in unseen ==> Without(subs[k], token) == subs[k]
        decreases |unseen|
      {
        var kind :| kind in unseen;
        var kept := Without(subs[kind], token);
        WithoutToken(subs[kind], token);
        if |kept| < |subs[kind]| {
          RemovedFromOneList(subs, nextToken, token, kind);
          subs := subs[kind := kept];
          return;
        }
        unseen := unseen - {kind};
      }
      assert subs == Removed(subs, token);
    }

    method Publish(e: Event)
      modifies this`calls
      ensures calls == old(calls) + CallsOn(subs, e)
    {
      if e.kind in subs {
        var handlers := subs[e.kind];
        for i := 0 to |handlers|
          invariant subs == old(subs)
          invariant calls == old(calls) + CallsFor(handlers, e)[..i]
        {
          calls := calls + [(handlers[i].handler, e)];
        }
        assert CallsFor(handlers, e)[..|handlers|] == CallsFor(handlers, e);
      }
    }
  }
}
