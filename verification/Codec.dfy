/** The packet encoding of ibc/IBCTypes.cpp: pipe escaping, the escape-aware split, and the
    nine-field text form of a packet. */
module Codec {
  import opened Basics
  import opened Decimal

  const PIPE: char := '|'
  const BACKSLASH: char := '\\'

  // ---------------------------------------------------------------- escape and unescape

  function EscapeChar(c: char): string {
    if c == PIPE then [BACKSLASH, PIPE] else if c == BACKSLASH then [BACKSLASH, BACKSLASH] else [c]
  }

  function Escape(s: string): string {
    if s == "" then "" else EscapeChar(s[0]) + Escape(s[1..])
  }

  /** What unescape still has to produce for s when its flag is escaped. */
  function UnescapeFrom(s: string, escaped: bool): string {
    if s == "" then ""
    else if escaped then [s[0]] + UnescapeFrom(s[1..], false)
    else if s[0] == BACKSLASH then UnescapeFrom(s[1..], true)
    else [s[0]] + UnescapeFrom(s[1..], false)
  }

  function Unescape(s: string): string {
    UnescapeFrom(s, false)
  }

  lemma EscapeStep(result: string, str: string, i: nat)
    requires i < |str|
    ensures result + Escape(str[i..]) == result + EscapeChar(str[i]) + Escape(str[i + 1..])
  {
    assert str[i..][1..] == str[i + 1..];
    assert result + (EscapeChar(str[i]) + Escape(str[i + 1..])) == result + EscapeChar(str[i]) + Escape(str[i + 1..]);
  }

  method EscapeLoop(str: string) returns (result: string)
    ensures result == Escape(str)
    ensures Unescape(result) == str
  {
    result := "";
    for i := 0 to |str|
      invariant result + Escape(str[i..]) == Escape(str)
    {
      EscapeStep(result, str, i);
      var c := str[i];
      if c == PIPE {
        result := result + "\\|";
      } else if c == BACKSLASH {
        result := result + "\\\\";
      } else {
        result := result + [c];
      }
    }
    UnescapeEscape(str);
  }

  lemma UnescapeStep(result: string, str: string, i: nat, escaped: bool)
    requires i < |str|
    ensures result + UnescapeFrom(str[i..], escaped) ==
            if !escaped && str[i] == BACKSLASH then result + UnescapeFrom(str[i + 1..], true)
            else result + [str[i]] + UnescapeFrom(str[i + 1..], false)
  {
    assert str[i..][1..] == str[i + 1..];
    assert result + ([str[i]] + UnescapeFrom(str[i + 1..], false)) ==
        result + [str[i]] + UnescapeFrom(str[i + 1..], false);
  }

  /** Unescaping without a flag: a backslash gives way to whatever follows it, and to nothing at the end. */
  function Unescaped(s: string): string {
    if s == "" then ""
    else if s[0] != BACKSLASH then [s[0]] + Unescaped(s[1..])
    else if |s| == 1 then ""
    else [s[1]] + Unescaped(s[2..])
  }

  lemma {:induction false} UnescapeIsUnescaped(s: string)
    ensures Unescape(s) == Unescaped(s)
    decreases |s|
  {
    if s != "" {
      if s[0] != BACKSLASH {
        UnescapeIsUnescaped(s[1..]);
      } else if |s| == 1 {
        assert s[1..] == "";
      } else {
        UnescapeIsUnescaped(s[2..]);
        assert s[1..][0] == s[1] && s[1..][1..] == s[2..];
        assert UnescapeFrom(s, false) == UnescapeFrom(s[1..], true) == [s[1]] + UnescapeFrom(s[2..], false);
      }
    }
  }

  method UnescapeLoop(str: string) returns (result: string)
    ensures result == Unescape(str)
    ensures result == Unescaped(str)
  {
    UnescapeIsUnescaped(str);
    result := "";
    var escaped := false;
    for i := 0 to |str|
      invariant result + UnescapeFrom(str[i..], escaped) == Unescape(str)
    {
      UnescapeStep(result, str, i, escaped);
      var c := str[i];
      if escaped {
        result := result + [c];
        escaped := false;
      } else if c == BACKSLASH {
        escaped := true;
      } else {
        result := result + [c];
      }
    }
  }

  lemma {:induction false} UnescapeEscape(s: string)
    ensures Unescape(Escape(s)) == s
  {
    if s != "" {
      UnescapeEscape(s[1..]);
      var rest := Escape(s[1..]);
      var e := EscapeChar(s[0]) + rest;
      if |EscapeChar(s[0])| == 2 {
        assert e[1..] == [s[0]] + rest;
        assert e[1..][1..] == rest;
      } else {
        assert e[1..] == rest;
      }
      assert UnescapeFrom(e, false) == [s[0]] + UnescapeFrom(rest, false);
    }
  }

  // ---------------------------------------------------------------- split and join

  /** The state of the split scanner after reading s: its escaped flag, or None once an unescaped
      delimiter has been met. */
  function Scan(s: string, delimiter: char, escaped: bool): Option<bool> {
    if s == "" then Some(escaped)
    else if escaped then Scan(s[1..], delimiter, false)
    else if s[0] == BACKSLASH then Scan(s[1..], delimiter, true)
    else if s[0] == delimiter then None
    else Scan(s[1..], delimiter, false)
  }

  /** The parts split still has to produce for s, given its flag and the part being collected. */
  function SplitFrom(s: string, delimiter: char, escaped: bool, current: string): (parts: seq<string>)
    ensures |parts| > 0
  {
    if s == "" then [current]
    else if escaped then SplitFrom(s[1..], delimiter, false, current + [s[0]])
    else if s[0] == BACKSLASH then SplitFrom(s[1..], delimiter, true, current + [s[0]])
    else if s[0] == delimiter then [current] + SplitFrom(s[1..], delimiter, false, "")
    else SplitFrom(s[1..], delimiter, false, current + [s[0]])
  }

  function Split(s: string, delimiter: char): seq<string> {
    SplitFrom(s, delimiter, false, "")
  }

  method SplitLoop(str: string, delimiter: char) returns (result: seq<string>)
    ensures result == Split(str, delimiter)
    ensures Join(result, delimiter) == str
  {
    result := [];
    var current := "";
    var escaped := false;
    for i := 0 to |str|
      invariant result + SplitFrom(str[i..], delimiter, escaped, current) == Split(str, delimiter)
    {
      var c := str[i];
      assert str[i..][0] == c && str[i..][1..] == str[i + 1..];
      if escaped {
        current := current + [c];
        escaped := false;
      } else if c == BACKSLASH {
        escaped := true;
        current := current + [c];
      } else if c == delimiter {
        result := result + [current];
        current := "";
      } else {
        current := current + [c];
      }
    }
    assert str[|str|..] == "";
    result := result + [current];
    JoinSplit(str, delimiter);
  }

  function Join(parts: seq<string>, delimiter: char): string
    requires |parts| > 0
  {
    if |parts| == 1 then parts[0] else parts[0] + [delimiter] + Join(parts[1..], delimiter)
  }

  /** The lists of parts that can be told apart again: no part holds an unescaped delimiter, and no
      part but the last ends inside an escape. */
  predicate Separable(parts: seq<string>, delimiter: char) {
    && |parts| > 0
    && (forall i :: 0 <= i < |parts| ==> Scan(parts[i], delimiter, false).Some?)
    && (forall i :: 0 <= i < |parts| - 1 ==> Scan(parts[i], delimiter, false) == Some(false))
  }

  lemma {:induction false} JoinSplitFrom(s: string, delimiter: char, escaped: bool, current: string)
    ensures Join(SplitFrom(s, delimiter, escaped, current), delimiter) == current + s
    decreases |s|
  {
    if s != "" {
      var c := s[0];
      if !escaped && c != BACKSLASH && c == delimiter {
        var rest := SplitFrom(s[1..], delimiter, false, "");
        JoinSplitFrom(s[1..], delimiter, false, "");
        assert ([current] + rest)[1..] == rest;
        assert [c] + s[1..] == s;
      } else {
        JoinSplitFrom(s[1..], delimiter, !escaped && c == BACKSLASH, current + [c]);
        assert current + [c] + s[1..] == current + s;
      }
    }
  }

  lemma JoinSplit(s: string, delimiter: char)
    ensures Join(Split(s, delimiter), delimiter) == s
  {
    JoinSplitFrom(s, delimiter, false, "");
  }

  lemma {:induction false} ScanAppend(s: string, t: string, delimiter: char, escaped: bool)
    ensures Scan(s + t, delimiter, escaped) ==
            match Scan(s, delimiter, escaped)
            case None => None
            case Some(e) => Scan(t, delimiter, e)
  {
    if s == "" {
      assert s + t == t;
    } else {
      assert (s + t)[1..] == s[1..] + t;
      ScanAppend(s[1..], t, delimiter, if escaped then false else s[0] == BACKSLASH);
    }
  }

  /** A scanned prefix goes into the current part as it is. */
  lemma {:induction false} SplitPrefix(s: string, t: string, delimiter: char, escaped: bool, current: string)
    requires Scan(s, delimiter, escaped).Some?
    ensures SplitFrom(s + t, delimiter, escaped, current) ==
            SplitFrom(t, delimiter, Scan(s, delimiter, escaped).value, current + s)
  {
    if s == "" {
      assert s + t == t && current + s == current;
    } else {
      assert (s + t)[1..] == s[1..] + t;
      assert current + [s[0]] + s[1..] == current + s;
      SplitPrefix(s[1..], t, delimiter, if escaped then false else s[0] == BACKSLASH, current + [s[0]]);
    }
  }

  lemma {:induction false} SplitJoin(parts: seq<string>, delimiter: char)
    requires delimiter != BACKSLASH
    requires Separable(parts, delimiter)
    ensures Split(Join(parts, delimiter), delimiter) == parts
  {
    var first := parts[0];
    if |parts| == 1 {
      SplitPrefix(first, "", delimiter, false, "");
      assert first + "" == first && "" + first == first;
    } else {
      var rest := Join(parts[1..], delimiter);
      SplitJoin(parts[1..], delimiter);
      SplitPrefix(first, [delimiter] + rest, delimiter, false, "");
      assert first + [delimiter] + rest == first + ([delimiter] + rest);
      assert ([delimiter] + rest)[1..] == rest;
      assert "" + first == first;
    }
  }

  lemma {:induction false} SplitFromSeparable(s: string, delimiter: char, escaped: bool, current: string)
    requires Scan(current, delimiter, false) == Some(escaped)
    ensures Separable(SplitFrom(s, delimiter, escaped, current), delimiter)
    decreases |s|
  {
    if s != "" {
      var c := s[0];
      ScanAppend(current, [c], delimiter, false);
      if !escaped && c != BACKSLASH && c == delimiter {
        SplitFromSeparable(s[1..], delimiter, false, "");
      } else {
        SplitFromSeparable(s[1..], delimiter, !escaped && c == BACKSLASH, current + [c]);
      }
    }
  }

  /** Split and join are mutually inverse between all strings and exactly the separable lists. */
  lemma SplitJoinExactly(parts: seq<string>, delimiter: char)
    requires delimiter != BACKSLASH && |parts| > 0
    ensures Split(Join(parts, delimiter), delimiter) == parts <==> Separable(parts, delimiter)
  {
    if Separable(parts, delimiter) {
      SplitJoin(parts, delimiter);
    }
    SplitFromSeparable(Join(parts, delimiter), delimiter, false, "");
  }

  lemma ScanEscapeChar(c: char)
    ensures Scan(EscapeChar(c), PIPE, false) == Some(false)
  {
    var e := EscapeChar(c);
    if |e| == 2 {
      assert e[1..] == [c];
      assert Scan([c], PIPE, true) == Scan("", PIPE, false);
    } else {
      assert e[1..] == "";
    }
  }

  lemma {:induction false} ScanEscape(s: string)
    ensures Scan(Escape(s), PIPE, false) == Some(false)
  {
    if s != "" {
      ScanEscape(s[1..]);
      ScanAppend(EscapeChar(s[0]), Escape(s[1..]), PIPE, false);
      ScanEscapeChar(s[0]);
    }
  }

  lemma SplitJoinEscaped(parts: seq<string>)
    requires |parts| > 0
    ensures var escaped := seq(|parts|, i requires 0 <= i < |parts| => Escape(parts[i]));
            Split(Join(escaped, PIPE), PIPE) == escaped
  {
    forall i | 0 <= i < |parts| ensures Scan(Escape(parts[i]), PIPE, false) == Some(false) {
      ScanEscape(parts[i]);
    }
    SplitJoin(seq(|parts|, i requires 0 <= i < |parts| => Escape(parts[i])), PIPE);
  }

  lemma {:induction false} ScanDigits(s: string)
    requires AllDigits(s)
    ensures Scan(s, PIPE, false) == Some(false)
  {
    if s != "" {
      assert IsDigit(s[0]);
      ScanDigits(s[1..]);
    }
  }

  // ---------------------------------------------------------------- packets

  /** serializeIBCPacket. */
  function Serialize(p: Packet): string {
    PrintInt(p.kind) + "|" + Escape(p.srcChain) + "|" + Escape(p.dstChain) + "|"
    + Escape(p.srcPort) + "|" + Escape(p.srcChannel) + "|" + Escape(p.dstPort) + "|" + Escape(p.dstChannel) + "|"
    + Print(p.sequence) + "|" + Escape(p.payload)
  }

  /** The packet made of nine parts, or None where the source throws. */
  function FromParts(parts: seq<string>): Option<Packet> {
    if |parts| != 9 then None
    else match (Stoi(parts[0]), Stoull(parts[7]))
      case (Some(kind), Some(sequence)) =>
        Some(Packet(kind, Unescape(parts[1]), Unescape(parts[2]), Unescape(parts[3]), Unescape(parts[4]),
                    Unescape(parts[5]), Unescape(parts[6]), sequence, Unescape(parts[8])))
      case _ => None
  }

  /** deserializeIBCPacket. */
  function Deserialize(s: string): Option<Packet> {
    FromParts(Split(s, PIPE))
  }

  function Fields(p: Packet): seq<string> {
    [PrintInt(p.kind), Escape(p.srcChain), Escape(p.dstChain), Escape(p.srcPort), Escape(p.srcChannel),
     Escape(p.dstPort), Escape(p.dstChannel), Print(p.sequence), Escape(p.payload)]
  }

  lemma FieldsSeparable(p: Packet)
    ensures Separable(Fields(p), PIPE)
  {
    ScanEscape(p.srcChain);
    ScanEscape(p.dstChain);
    ScanEscape(p.srcPort);
    ScanEscape(p.srcChannel);
    ScanEscape(p.dstPort);
    ScanEscape(p.dstChannel);
    ScanEscape(p.payload);
    ScanDigits(Print(p.sequence));
    ScanInt(p.kind);
    NineSeparable(PrintInt(p.kind), Escape(p.srcChain), Escape(p.dstChain), Escape(p.srcPort), Escape(p.srcChannel),
                  Escape(p.dstPort), Escape(p.dstChannel), Print(p.sequence), Escape(p.payload));
  }

  predicate Closed(s: string) {
    Scan(s, PIPE, false) == Some(false)
  }

  lemma NineSeparable(a: string, b: string, c: string, d: string, e: string, f: string, g: string, h: string, i: string)
    requires Closed(a) && Closed(b) && Closed(c) && Closed(d) && Closed(e) && Closed(f) && Closed(g) && Closed(h) &&
        Closed(i)
    ensures Separable([a, b, c, d, e, f, g, h, i], PIPE)
  {
    var parts := [a, b, c, d, e, f, g, h, i];
    forall k | 0 <= k < |parts| ensures Closed(parts[k]) {
      if k < 3 {
        assert parts[k] == a || parts[k] == b || parts[k] == c;
      } else if k < 6 {
        assert parts[k] == d || parts[k] == e || parts[k] == f;
      } else {
        assert parts[k] == g || parts[k] == h || parts[k] == i;
      }
    }
  }

  lemma ScanInt(n: Int32)
    ensures Closed(PrintInt(n))
  {
    if n < 0 {
      var magnitude: int := 0 - n;
      ScanDigits(Print(magnitude));
      ScanAppend("-", Print(magnitude), PIPE, false);
      assert "-"[1..] == "";
    } else {
      ScanDigits(Print(n));
    }
  }

  lemma JoinStep(before: string, first: string, rest: seq<string>, all: seq<string>)
    requires |rest| > 0 && all == [first] + rest
    ensures before + "|" + Join(all, PIPE) == before + "|" + first + "|" + Join(rest, PIPE)
    ensures Join(all, PIPE) == first + "|" + Join(rest, PIPE)
  {
    assert all[1..] == rest;
    assert before + "|" + (first + "|" + Join(rest, PIPE)) == before + "|" + first + "|" + Join(rest, PIPE);
  }

  lemma JoinNine(a: string, b: string, c: string, d: string, e: string, f: string, g: string, h: string, i: string)
    ensures Join([a, b, c, d, e, f, g, h, i], PIPE) ==
            a + "|" + b + "|" + c + "|" + d + "|" + e + "|" + f + "|" + g + "|" + h + "|" + i
  {
    JoinStep("", a, [b, c, d, e, f, g, h, i], [a, b, c, d, e, f, g, h, i]);
    var ab := a + "|" + b;
    JoinStep(a, b, [c, d, e, f, g, h, i], [b, c, d, e, f, g, h, i]);
    JoinStep(ab, c, [d, e, f, g, h, i], [c, d, e, f, g, h, i]);
    var abcd := ab + "|" + c + "|" + d;
    JoinStep(ab + "|" + c, d, [e, f, g, h, i], [d, e, f, g, h, i]);
    JoinStep(abcd, e, [f, g, h, i], [e, f, g, h, i]);
    var abcdef := abcd + "|" + e + "|" + f;
    JoinStep(abcd + "|" + e, f, [g, h, i], [f, g, h, i]);
    JoinStep(abcdef, g, [h, i], [g, h, i]);
    JoinStep(abcdef + "|" + g, h, [i], [h, i]);
  }

  lemma SerializeIsJoin(p: Packet)
    ensures Serialize(p) == Join(Fields(p), PIPE)
  {
    JoinNine(PrintInt(p.kind), Escape(p.srcChain), Escape(p.dstChain), Escape(p.srcPort), Escape(p.srcChannel),
             Escape(p.dstPort), Escape(p.dstChannel), Print(p.sequence), Escape(p.payload));
  }

  /** Every packet survives the wire, whatever its strings hold. */
  lemma RoundTrip(p: Packet)
    ensures Deserialize(Serialize(p)) == Some(p)
  {
    SerializeIsJoin(p);
    FieldsSeparable(p);
    SplitJoin(Fields(p), PIPE);
    StoiPrint(p.kind);
    StoullPrint(p.sequence);
    UnescapeEscape(p.srcChain);
    UnescapeEscape(p.dstChain);
    UnescapeEscape(p.srcPort);
    UnescapeEscape(p.srcChannel);
    UnescapeEscape(p.dstPort);
    UnescapeEscape(p.dstChannel);
    UnescapeEscape(p.payload);
  }

  /** Where each field stands on the wire, and that it stands there escaped or in digits. */
  lemma FieldsInOrder(p: Packet)
    ensures var parts := Split(Serialize(p), PIPE);
            && |parts| == 9
            && Stoi(parts[0]) == Some(p.kind) && Stoull(parts[7]) == Some(p.sequence)
            && Unescaped(parts[1]) == p.srcChain && Unescaped(parts[2]) == p.dstChain
            && Unescaped(parts[3]) == p.srcPort && Unescaped(parts[4]) == p.srcChannel
            && Unescaped(parts[5]) == p.dstPort && Unescaped(parts[6]) == p.dstChannel
            && Unescaped(parts[8]) == p.payload
  {
    RoundTrip(p);
    JoinSplit(Serialize(p), PIPE);
    SplitFromSeparable(Serialize(p), PIPE, false, "");
    DeserializeExactly(Split(Serialize(p), PIPE), p);
  }

  /** What the lenient reader makes of any text, written as the parts a split finds in it: p if and only if
      there are nine, the first and the eighth read as p's numbers, and the others unescape to p's texts. */
  lemma DeserializeExactly(parts: seq<string>, p: Packet)
    requires Separable(parts, PIPE)
    ensures Deserialize(Join(parts, PIPE)) == Some(p) <==>
            && |parts| == 9
            && Stoi(parts[0]) == Some(p.kind) && Stoull(parts[7]) == Some(p.sequence)
            && Unescaped(parts[1]) == p.srcChain && Unescaped(parts[2]) == p.dstChain
            && Unescaped(parts[3]) == p.srcPort && Unescaped(parts[4]) == p.srcChannel
            && Unescaped(parts[5]) == p.dstPort && Unescaped(parts[6]) == p.dstChannel
            && Unescaped(parts[8]) == p.payload
  {
    SplitJoin(parts, PIPE);
    forall i | 0 <= i < |parts| ensures Unescape(parts[i]) == Unescaped(parts[i]) {
      UnescapeIsUnescaped(parts[i]);
    }
  }

  lemma SerializeInjective(p: Packet, q: Packet)
    requires Serialize(p) == Serialize(q)
    ensures p == q
  {
    RoundTrip(p);
    RoundTrip(q);
  }

  // ---------------------------------------------------------------- canonical texts

  /** Re-printing a parsed text; texts that do not parse are left alone. */
  function Canonical(s: string): string {
    match Deserialize(s)
    case Some(p) => Serialize(p)
    case None => s
  }

  /** Every escape is one that Escape writes, and none is cut off. */
  predicate EscapedText(s: string) {
    s == "" ||
    (if s[0] == BACKSLASH then |s| > 1 && (s[1] == PIPE || s[1] == BACKSLASH) && EscapedText(s[2..])
     else s[0] != PIPE && EscapedText(s[1..]))
  }

  lemma {:induction false} EscapedTextExactly(s: string)
    ensures Escape(Unescape(s)) == s <==> EscapedText(s)
    decreases |s|
  {
    if s == "" {
    } else if s[0] != BACKSLASH {
      EscapedTextExactly(s[1..]);
      assert Unescape(s) == [s[0]] + Unescape(s[1..]);
      assert Unescape(s)[1..] == Unescape(s[1..]);
      assert s == [s[0]] + s[1..];
      if s[0] != PIPE {
        assert Escape(Unescape(s))[1..] == Escape(Unescape(s[1..]));
      }
    } else if |s| > 1 {
      EscapedTextExactly(s[2..]);
      assert s[1..][1..] == s[2..];
      assert UnescapeFrom(s, false) == UnescapeFrom(s[1..], true) == [s[1]] + UnescapeFrom(s[2..], false);
      assert Unescape(s)[1..] == Unescape(s[2..]);
      assert s == [s[0], s[1]] + s[2..];
      if s[1] == PIPE || s[1] == BACKSLASH {
        assert Escape(Unescape(s))[2..] == Escape(Unescape(s[2..]));
      } else {
        assert Escape(Unescape(s))[0] == s[1];
      }
    } else {
      assert s[1..] == "";
    }
  }

  ghost predicate PrintedInt(s: string) {
    exists n: Int32 :: s == PrintInt(n)
  }

  ghost predicate PrintedUint(s: string) {
    exists n: Uint64 :: s == Print(n)
  }

  /** The positions of the seven escaped fields. */
  predicate TextPosition(i: int) {
    1 <= i < 9 && i != 7
  }

  /** The parts are just what Serialize would print for the packet they denote. */
  ghost predicate CanonicalParts(parts: seq<string>) {
    && |parts| == 9
    && PrintedInt(parts[0])
    && PrintedUint(parts[7])
    && (forall i :: TextPosition(i) ==> EscapedText(parts[i]))
  }

  /** A text that parses keeps its meaning when printed again, and one pass reaches the fixed point. */
  lemma CanonicalForm(s: string)
    ensures Deserialize(Canonical(s)) == Deserialize(s)
    ensures Canonical(Canonical(s)) == Canonical(s)
  {
    match Deserialize(s)
    case Some(p) => RoundTrip(p);
    case None =>
  }

  /** The texts printing returns unchanged are exactly those with canonical numbers and escapes. */
  lemma CanonicalExactly(s: string)
    requires Deserialize(s).Some?
    ensures Canonical(s) == s <==> CanonicalParts(Split(s, PIPE))
  {
    var p := Deserialize(s).value;
    var parts := Split(s, PIPE);
    JoinSplit(s, PIPE);
    SerializeIsJoin(p);
    FieldsSeparable(p);
    SplitJoin(Fields(p), PIPE);
    FieldsExactly(parts, p);
  }

  lemma FieldsExactly(parts: seq<string>, p: Packet)
    requires FromParts(parts) == Some(p)
    ensures Fields(p) == parts <==> CanonicalParts(parts)
  {
    NumbersExactly(parts, p);
    var f := Fields(p);
    assert f[1] == Escape(Unescape(parts[1])) && f[2] == Escape(Unescape(parts[2])) &&
        f[3] == Escape(Unescape(parts[3]));
    assert f[4] == Escape(Unescape(parts[4])) && f[5] == Escape(Unescape(parts[5])) &&
        f[6] == Escape(Unescape(parts[6]));
    assert f[8] == Escape(Unescape(parts[8]));
    SamePartsExactly(f, parts);
  }

  lemma SamePartsExactly(f: seq<string>, parts: seq<string>)
    requires |f| == 9 && |parts| == 9
    requires PrintedInt(parts[0]) <==> parts[0] == f[0]
    requires PrintedUint(parts[7]) <==> parts[7] == f[7]
    requires forall i :: TextPosition(i) ==> f[i] == Escape(Unescape(parts[i]))
    ensures f == parts <==> CanonicalParts(parts)
  {
    forall i | TextPosition(i) ensures f[i] == parts[i] <==> EscapedText(parts[i]) {
      EscapedTextExactly(parts[i]);
    }
    if CanonicalParts(parts) {
      forall i | 0 <= i < 9 ensures f[i] == parts[i] {
        assert i == 0 || i == 7 || TextPosition(i);
      }
    }
  }

  lemma NumbersExactly(parts: seq<string>, p: Packet)
    requires FromParts(parts) == Some(p)
    ensures PrintedInt(parts[0]) <==> parts[0] == PrintInt(p.kind)
    ensures PrintedUint(parts[7]) <==> parts[7] == Print(p.sequence)
  {
    if PrintedInt(parts[0]) {
      var kind: Int32 :| parts[0] == PrintInt(kind);
      StoiPrint(kind);
    }
    if PrintedUint(parts[7]) {
      var sequence: Uint64 :| parts[7] == Print(sequence);
      StoullPrint(sequence);
    }
  }
}
