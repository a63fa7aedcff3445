/** The duplicate-free list of port and channel bindings of ibc/IBCRouter.cpp. */
module Router {
  import opened Basics

  type Binding = (string, string)

  ghost predicate Distinct(bindings: seq<Binding>) {
    forall i, j :: 0 <= i < j < |bindings| ==> bindings[i] != bindings[j]
  }

  /** The position of a binding, or |bindings| if it is absent: std::find_if. */
  function Find(bindings: seq<Binding>, key: Binding): (n: nat)
    ensures n <= |bindings|
    ensures n < |bindings| <==> key in bindings
    ensures n < |bindings| ==> bindings[n] == key
    ensures forall i :: 0 <= i < n ==> bindings[i] != key
  {
    if bindings == [] || bindings[0] == key then 0 else Find(bindings[1..], key) + 1
  }

  function BindKey(bindings: seq<Binding>, key: Binding): (seq<Binding>, ErrorCode) {
    if key in bindings then (bindings, InvalidState) else (bindings + [key], Ok)
  }

  function UnbindKey(bindings: seq<Binding>, key: Binding): (seq<Binding>, ErrorCode) {
    var n := Find(bindings, key);
    if n == |bindings| then (bindings, NotFound) else (bindings[..n] + bindings[n + 1..], Ok)
  }

  /** The list behaves as a set of bindings. */
  lemma RouterIsASet(bindings: seq<Binding>, key: Binding, other: Binding)
    requires Distinct(bindings)
    ensures var (after, code) := BindKey(bindings, key);
            && Distinct(after)
            && (other in after <==> other in bindings || other == key)
            && (code == Ok <==> key !in bindings)
    ensures var (after, code) := UnbindKey(bindings, key);
            && Distinct(after)
            && (other in after <==> other in bindings && other != key)
            && (code == Ok <==> key in bindings)
  {
    var n := Find(bindings, key);
    if n < |bindings| {
      assert bindings == bindings[..n] + [key] + bindings[n + 1..];
    }
  }

  class IBCRouter {
    var bindings: seq<Binding>

    constructor ()
      ensures bindings == []
    {
      bindings := [];
    }

    method Locate(key: Binding) returns (n: nat)
      ensures n == Find(bindings, key)
    {
      n := 0;
      while n < |bindings| && bindings[n] != key
        invariant n <= |bindings|
        invariant forall i :: 0 <= i < n ==> bindings[i] != key
      {
        n := n + 1;
      }
    }

    method Bind(port: string, chan: string) returns (code: ErrorCode)
      modifies this
      ensures (bindings, code) == BindKey(old(bindings), (port, chan))
      ensures code == if (port, chan) in old(bindings) then InvalidState else Ok
      ensures bindings == if code == Ok then old(bindings) + [(port, chan)] else old(bindings)
    {
      var n := Locate((port, chan));
      if n != |bindings| {
        return InvalidState;
      }
      bindings := bindings + [(port, chan)];
      return Ok;
    }

    method Unbind(port: string, chan: string) returns (code: ErrorCode)
      modifies this
      ensures (bindings, code) == UnbindKey(old(bindings), (port, chan))
      ensures code == if (port, chan) in old(bindings) then Ok else NotFound
      ensures if code == Ok then multiset(old(bindings)) == multiset(bindings) + multiset{(port, chan)}
              else bindings == old(bindings)
    {
      var n := Locate((port, chan));
      if n == |bindings| {
        return NotFound;
      }
      assert bindings == bindings[..n] + [(port, chan)] + bindings[n + 1..];
      bindings := bindings[..n] + bindings[n + 1..];
      return Ok;
    }

    method IsBound(port: string, chan: string) returns (bound: bool)
      ensures bound <==> (port, chan) in bindings
    {
      var n := Locate((port, chan));
      bound := n != |bindings|;
    }
  }
}
