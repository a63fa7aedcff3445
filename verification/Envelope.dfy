/** The outer text form of a NodeMessage, `from|kind|bytes`, as a relayer writes it and a node reads
    it, and the whole path of a packet through both encodings. */
module Envelope {
  import opened Basics
  import opened Decimal
  import opened Codec

  /** The NodeMessageKind a relayer stamps on its messages. */
  const IBC: Int32 := 2

  datatype NodeMessage = NodeMessage(from: string, kind: Int32, bytes: string)

  /** serializeNodeMessage. */
  function Wrap(m: NodeMessage): string {
    m.from + "|" + PrintInt(m.kind) + "|" + m.bytes
  }

  /** The position of the first pipe, or |s| (npos) if there is none. */
  function FindPipe(s: string): (n: nat)
    ensures n <= |s|
    ensures n < |s| ==> s[n] == PIPE
    ensures forall i :: 0 <= i < n ==> s[i] != PIPE
  {
    if s == "" || s[0] == PIPE then 0 else FindPipe(s[1..]) + 1
  }

  /** deserializeNodeMessage, with None where the source throws. */
  function Unwrap(s: string): Option<NodeMessage> {
    var first := FindPipe(s);
    if first == |s| then None
    else
      var rest := s[first + 1..];
      var second := FindPipe(rest);
      if second == |rest| then None
      else match Stoi(rest[..second])
        case None => None
        case Some(kind) => Some(NodeMessage(s[..first], kind, rest[second + 1..]))
  }

  lemma NoPipeInInt(n: Int32)
    ensures PIPE !in PrintInt(n)
  {
    var magnitude: int := if n < 0 then 0 - n else n;
    forall i | 0 <= i < |Print(magnitude)| ensures Print(magnitude)[i] != PIPE {
      assert IsDigit(Print(magnitude)[i]);
    }
  }

  lemma CutAtPipe(before: string, after: string)
    requires PIPE !in before
    ensures var s := before + "|" + after;
            FindPipe(s) == |before| < |s| && s[..|before|] == before && s[|before| + 1..] == after
  {
    var s := before + "|" + after;
    assert forall i :: 0 <= i < |before| ==> s[i] == before[i];
    assert s[|before|] == PIPE;
  }

  lemma UnwrapWrap(m: NodeMessage)
    requires PIPE !in m.from
    ensures Unwrap(Wrap(m)) == Some(m)
  {
    var rest := PrintInt(m.kind) + "|" + m.bytes;
    assert Wrap(m) == m.from + "|" + rest;
    CutAtPipe(m.from, rest);
    NoPipeInInt(m.kind);
    CutAtPipe(PrintInt(m.kind), m.bytes);
    StoiPrint(m.kind);
  }

  /** What a node makes of any text: the sender is what stands before the first pipe, the kind what `stoi`
      reads before the second, and the body all the rest; with fewer than two pipes there is no message. */
  lemma UnwrapReads(from: string, kind: string, body: string)
    requires PIPE !in from
    ensures PIPE !in kind ==>
              Unwrap(from + "|" + kind + "|" + body) ==
              match Stoi(kind) case None => None case Some(k) => Some(NodeMessage(from, k, body))
    ensures Unwrap(from) == None
    ensures PIPE !in kind ==> Unwrap(from + "|" + kind) == None
  {
    CutAtPipe(from, kind);
    if PIPE !in kind {
      assert from + "|" + kind + "|" + body == from + "|" + (kind + "|" + body);
      CutAtPipe(from, kind + "|" + body);
      CutAtPipe(kind, body);
    }
  }

  /** A message comes back unchanged exactly when its sender's name has no pipe. */
  lemma UnwrapWrapExactly(m: NodeMessage)
    ensures Unwrap(Wrap(m)) == Some(m) <==> PIPE !in m.from
  {
    if PIPE !in m.from {
      UnwrapWrap(m);
    }
  }

  /** The bytes a relayer called name puts on the wire for p. */
  function Letter(name: string, p: Packet): string {
    Wrap(NodeMessage(name, IBC, Serialize(p)))
  }

  /** What the IBC branch of a node's loop makes of the bytes it was handed: the relayer's name and
      the packet. */
  function ReadLetter(bytes: string): Option<(string, Packet)> {
    match Unwrap(bytes)
    case None => None
    case Some(m) =>
      if m.kind != IBC then None
      else match Deserialize(m.bytes)
        case None => None
        case Some(p) => Some((m.from, p))
  }

  // ---------------------------------------------------------------- names with a pipe

  /** Whether the split scanner ends inside an escape, delimiters passed over. */
  function EndsEscaped(s: string, escaped: bool): bool {
    if s == "" then escaped else EndsEscaped(s[1..], !escaped && s[0] == BACKSLASH)
  }

  lemma {:induction false} EndsPlain(s: string, c: char, escaped: bool)
    requires c != BACKSLASH
    ensures !EndsEscaped(s + [c], escaped)
  {
    if s != "" {
      assert (s + [c])[1..] == s[1..] + [c];
      EndsPlain(s[1..], c, !escaped && s[0] == BACKSLASH);
    }
  }

  /** Past a delimiter that is one, the parts of the rest are added. */
  lemma {:induction false} PartsAdd(s: string, t: string, escaped: bool, current: string)
    requires !EndsEscaped(s, escaped)
    ensures |SplitFrom(s + [PIPE] + t, PIPE, escaped, current)| ==
            |SplitFrom(s, PIPE, escaped, current)| + |SplitFrom(t, PIPE, false, "")|
    decreases |s|
  {
    var all := s + [PIPE] + t;
    if s == "" {
      assert all[0] == PIPE && all[1..] == t;
    } else {
      assert all[0] == s[0] && all[1..] == s[1..] + [PIPE] + t;
      if !escaped && s[0] == PIPE {
        PartsAdd(s[1..], t, false, "");
      } else {
        PartsAdd(s[1..], t, !escaped && s[0] == BACKSLASH, current + [s[0]]);
      }
    }
  }

  /** A packet's text behind anything that ends in the kind's digit has too many fields. */
  lemma TooManyFields(before: string, p: Packet)
    ensures Deserialize(before + "2|" + Serialize(p)) == None
  {
    EndsPlain(before, '2', false);
    PartsAdd(before + ['2'], Serialize(p), false, "");
    assert before + "2|" + Serialize(p) == before + ['2'] + [PIPE] + Serialize(p);
    SerializeIsJoin(p);
    FieldsSeparable(p);
    SplitJoin(Fields(p), PIPE);
  }

  lemma CutAgain(first: string, tail: string, body: string) returns (before: string)
    requires PIPE !in first
    ensures var s := first + "|" + (tail + "|" + body);
            Unwrap(s).Some? ==> Unwrap(s).value.bytes == before + body
  {
    CutAtPipe(first, tail + "|" + body);
    var j := FindPipe(tail);
    if j < |tail| {
      before := tail[j + 1..] + "|";
      assert tail + "|" + body == tail[..j] + "|" + (before + body);
      CutAtPipe(tail[..j], before + body);
    } else {
      before := "";
      CutAtPipe(tail, body);
    }
  }

  /** The second pipe of such a letter comes before its own: at the latest it is the one after the name. */
  lemma PipedBody(name: string, body: string) returns (before: string)
    requires PIPE in name
    ensures Unwrap(name + "|" + body).Some? ==> Unwrap(name + "|" + body).value.bytes == before + body
  {
    var i := FindPipe(name);
    before := CutAgain(name[..i], name[i + 1..], body);
    assert name == name[..i] + "|" + name[i + 1..];
    assert name + "|" + body == name[..i] + "|" + (name[i + 1..] + "|" + body);
  }

  lemma PipedNameIsMute(name: string, p: Packet)
    requires PIPE in name
    ensures ReadLetter(Letter(name, p)) == None
  {
    var body := "2|" + Serialize(p);
    assert PrintInt(IBC) == "2";
    assert Letter(name, p) == name + "|" + body;
    var before := PipedBody(name, body);
    assert before + body == before + "2|" + Serialize(p);
    TooManyFields(before, p);
  }

  /** Any packet in a relayer's envelope is read back unchanged, exactly for the pipe-free names; under
      any other name a relayer's letters are all unreadable. */
  lemma WirePath(name: string, p: Packet)
    ensures ReadLetter(Letter(name, p)) == Some((name, p)) <==> PIPE !in name
    ensures ReadLetter(Letter(name, p)).Some? <==> PIPE !in name
  {
    RoundTrip(p);
    if PIPE !in name {
      UnwrapWrap(NodeMessage(name, IBC, Serialize(p)));
    } else {
      PipedNameIsMute(name, p);
    }
  }
}
