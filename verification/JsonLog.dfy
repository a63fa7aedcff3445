/** The JSON lines of util/DetailedLogger.cpp: string escaping, read back by the rules of section 7 of
    RFC 8259, and one record per line. */
module JsonLog {
  import opened Basics
  import Decimal

  const QUOTE: char := '"'
  const BACKSLASH: char := '\\'
  const NEWLINE: char := '\n'

  predicate IsControl(c: char) {
    c < ' '
  }

  /** The value of a hex digit, in either case. */
  function HexValue(c: char): Option<nat> {
    if '0' <= c <= '9' then Some((c - '0') as nat)
    else if 'a' <= c <= 'f' then Some((c - 'a') as nat + 10)
    else if 'A' <= c <= 'F' then Some((c - 'A') as nat + 10)
    else None
  }

  /** The four hex digits std::hex prints with setw(4) and fill '0' for a control character. */
  function UnicodeEscape(c: char): string
    requires IsControl(c)
  {
    [BACKSLASH, 'u', '0', '0', HexChar(c as nat / 16), HexChar(c as nat % 16)]
  }

  function EscapeChar(c: char): string {
    if c == QUOTE then [BACKSLASH, QUOTE]
    else if c == BACKSLASH then [BACKSLASH, BACKSLASH]
    else if c == '\U{08}' then [BACKSLASH, 'b']
    else if c == '\U{0C}' then [BACKSLASH, 'f']
    else if c == '\n' then [BACKSLASH, 'n']
    else if c == '\r' then [BACKSLASH, 'r']
    else if c == '\t' then [BACKSLASH, 't']
    else if IsControl(c) then UnicodeEscape(c)
    else [c]
  }

  function Escape(s: string): string {
    if s == "" then "" else EscapeChar(s[0]) + Escape(s[1..])
  }

  /** escapeJsonString. */
  method EscapeJsonString(input: string) returns (ss: string)
    ensures ss == Escape(input)
    ensures DecodeString(ss) == Some(input)
  {
    ss := "";
    for i := 0 to |input|
      invariant ss + Escape(input[i..]) == Escape(input)
    {
      EscapeStep(ss, input, i);
      match input[i]
      case '\"' => ss := ss + "\\\"";
      case '\\' => ss := ss + "\\\\";
      case '\U{08}' => ss := ss + "\\b";
      case '\U{0C}' => ss := ss + "\\f";
      case '\n' => ss := ss + "\\n";
      case '\r' => ss := ss + "\\r";
      case '\t' => ss := ss + "\\t";
      case c =>
        if c < ' ' {
          ss := ss + UnicodeEscape(c);
        } else {
          ss := ss + [c];
        }
    }
    DecodeEscape(input);
  }

  lemma EscapeStep(ss: string, input: string, i: nat)
    requires i < |input|
    ensures ss + Escape(input[i..]) == ss + EscapeChar(input[i]) + Escape(input[i + 1..])
  {
    assert input[i..][1..] == input[i + 1..];
    assert ss + (EscapeChar(input[i]) + Escape(input[i + 1..])) == ss + EscapeChar(input[i]) + Escape(input[i + 1..]);
  }

  // ---------------------------------------------------------------- reading strings back

  /** The value of four hex digits. */
  function HexQuad(s: string): Option<nat>
    requires |s| == 4
  {
    match (HexValue(s[0]), HexValue(s[1]), HexValue(s[2]), HexValue(s[3]))
    case (Some(a), Some(b), Some(c), Some(d)) => Some(((a * 16 + b) * 16 + c) * 16 + d)
    case _ => None
  }

  /** The character behind a two-character escape. */
  function Short(c: char): Option<char> {
    match c
    case '"' => Some(QUOTE)
    case '\\' => Some(BACKSLASH)
    case '/' => Some('/')
    case 'b' => Some('\U{08}')
    case 'f' => Some('\U{0C}')
    case 'n' => Some('\n')
    case 'r' => Some('\r')
    case 't' => Some('\t')
    case _ => None
  }

  /** The first character of a JSON string body and what it takes up, or None if there is none: a raw
      control character or quote, or a broken escape.  Escapes for surrogates are not read. */
  function DecodeOne(s: string): (r: Option<(char, nat)>)
    requires s != ""
    ensures r.Some? ==> 0 < r.value.1 <= |s|
  {
    if IsControl(s[0]) || s[0] == QUOTE then None
    else if s[0] != BACKSLASH then Some((s[0], 1))
    else if |s| < 2 then None
    else if s[1] != 'u' then
      match Short(s[1])
      case Some(c) => Some((c, 2))
      case None => None
    else if |s| < 6 then None
    else
      match HexQuad(s[2..6])
      case Some(n) => if n < 0xD800 then Some((n as char, 6)) else None
      case None => None
  }

  /** The contents of a JSON string body. */
  function DecodeString(s: string): Option<string> {
    if s == "" then Some("")
    else
      match DecodeOne(s)
      case None => None
      case Some((c, n)) =>
        match DecodeString(s[n..])
        case None => None
        case Some(rest) => Some([c] + rest)
  }

  lemma DecodeUnicode(c: char, rest: string)
    requires IsControl(c)
    ensures DecodeOne(UnicodeEscape(c) + rest) == Some((c, 6))
  {
    var s := UnicodeEscape(c) + rest;
    assert s[2..6] == ['0', '0', HexChar(c as nat / 16), HexChar(c as nat % 16)];
    assert HexValue(HexChar(c as nat / 16)) == Some(c as nat / 16);
    assert HexValue(HexChar(c as nat % 16)) == Some(c as nat % 16);
  }

  lemma DecodeOneEscaped(c: char, rest: string)
    ensures DecodeOne(EscapeChar(c) + rest) == Some((c, |EscapeChar(c)|))
  {
    if IsControl(c) && |EscapeChar(c)| == 6 {
      DecodeUnicode(c, rest);
    } else {
      assert |EscapeChar(c)| == 2 ==> (EscapeChar(c) + rest)[1] == EscapeChar(c)[1];
    }
  }

  /** Every string survives escaping and reading back. */
  lemma {:induction false} DecodeEscape(s: string)
    ensures DecodeString(Escape(s)) == Some(s)
  {
    if s != "" {
      DecodeEscape(s[1..]);
      DecodeOneEscaped(s[0], Escape(s[1..]));
      var e := Escape(s);
      assert e == EscapeChar(s[0]) + Escape(s[1..]) && e[|EscapeChar(s[0])|..] == Escape(s[1..]);
      assert [s[0]] + s[1..] == s;
    }
  }

  lemma {:induction false} NoControlEscaped(s: string)
    ensures forall i :: 0 <= i < |Escape(s)| ==> !IsControl(Escape(s)[i])
  {
    if s != "" {
      var first, rest := EscapeChar(s[0]), Escape(s[1..]);
      NoControlEscaped(s[1..]);
      assert forall i :: 0 <= i < |first| ==> !IsControl(first[i]);
      assert Escape(s) == first + rest;
      forall i | 0 <= i < |Escape(s)| ensures !IsControl(Escape(s)[i]) {
        assert Escape(s)[i] == if i < |first| then first[i] else rest[i - |first|];
      }
    }
  }

  /** Where a JSON string ends: the first quote that is not escaped, or |s|. */
  function ClosingQuote(s: string, escaped: bool): nat {
    if s == "" then 0
    else if escaped then ClosingQuote(s[1..], false) + 1
    else if s[0] == QUOTE then 0
    else ClosingQuote(s[1..], s[0] == BACKSLASH) + 1
  }

  lemma {:induction false} ClosingAfterPlain(plain: string, rest: string)
    requires QUOTE !in plain && BACKSLASH !in plain
    ensures ClosingQuote(plain + rest, false) == |plain| + ClosingQuote(rest, false)
  {
    if plain == "" {
      assert plain + rest == rest;
    } else {
      ClosingAfterPlain(plain[1..], rest);
      assert (plain + rest)[1..] == plain[1..] + rest;
    }
  }

  lemma ClosingAfterChar(c: char, rest: string)
    ensures ClosingQuote(EscapeChar(c) + rest, false) == |EscapeChar(c)| + ClosingQuote(rest, false)
  {
    var s := EscapeChar(c) + rest;
    if |EscapeChar(c)| == 1 {
      assert s[1..] == rest;
    } else if |EscapeChar(c)| == 2 {
      assert s[1..] == [EscapeChar(c)[1]] + rest && s[1..][1..] == rest;
    } else {
      var digits := EscapeChar(c)[2..];
      ClosingAfterPlain(digits, rest);
      assert s[1..][1..] == digits + rest;
      assert ClosingQuote(s[1..], true) == ClosingQuote(digits + rest, false) + 1;
    }
  }

  /** Between quotes, the escaped text holds no raw control character and ends just where it should:
      no quote inside it closes the string. */
  lemma {:induction false} EscapedIsContained(s: string, rest: string)
    ensures forall i :: 0 <= i < |Escape(s)| ==> !IsControl(Escape(s)[i])
    ensures ClosingQuote(Escape(s) + [QUOTE] + rest, false) == |Escape(s)|
  {
    NoControlEscaped(s);
    if s == "" {
      assert Escape(s) + [QUOTE] + rest == [QUOTE] + rest;
    } else {
      EscapedIsContained(s[1..], rest);
      ClosingAfterChar(s[0], Escape(s[1..]) + [QUOTE] + rest);
      assert Escape(s) + [QUOTE] + rest == EscapeChar(s[0]) + (Escape(s[1..]) + [QUOTE] + rest);
    }
  }

  // ---------------------------------------------------------------- records

  /** One member of a record, whose value is logged as text or as an unsigned number. */
  datatype Field = Text(name: string, value: string) | Number(name: string, count: nat)

  function Member(f: Field): string {
    match f
    case Text(name, value) => [QUOTE] + name + [QUOTE, ':', QUOTE] + Escape(value) + [QUOTE]
    case Number(name, count) => [QUOTE] + name + [QUOTE, ':'] + Decimal.Print(count)
  }

  function Members(fields: seq<Field>): string {
    if fields == [] then ""
    else if |fields| == 1 then Member(fields[0])
    else Member(fields[0]) + "," + Members(fields[1..])
  }

  /** A record as the logger composes it. */
  function Record(fields: seq<Field>): string {
    "{" + Members(fields) + "}"
  }

  ghost predicate NamesOk(fields: seq<Field>) {
    forall i :: 0 <= i < |fields| ==> NEWLINE !in fields[i].name
  }

  lemma MemberOneLine(f: Field)
    requires NEWLINE !in f.name
    ensures NEWLINE !in Member(f)
  {
    match f
    case Text(_, value) =>
      NoControlEscaped(value);
      assert NEWLINE !in Escape(value);
    case Number(_, count) =>
      assert forall i :: 0 <= i < |Decimal.Print(count)| ==> Decimal.IsDigit(Decimal.Print(count)[i]);
  }

  lemma {:induction false} MembersOneLine(fields: seq<Field>)
    requires NamesOk(fields)
    ensures NEWLINE !in Members(fields)
  {
    if fields != [] {
      MemberOneLine(fields[0]);
      MembersOneLine(fields[1..]);
    }
  }

  lemma RecordOneLine(fields: seq<Field>)
    requires NamesOk(fields)
    ensures NEWLINE !in Record(fields)
  {
    MembersOneLine(fields);
  }

  /** The lines of a file, each ended by a newline; an unfinished last line does not count. */
  function Lines(file: string, current: string): seq<string> {
    if file == "" then []
    else if file[0] == NEWLINE then [current] + Lines(file[1..], "")
    else Lines(file[1..], current + [file[0]])
  }

  function Written(records: seq<string>): string {
    if records == [] then "" else Written(records[..|records| - 1]) + records[|records| - 1] + [NEWLINE]
  }

  lemma {:induction false} LinesPrefix(line: string, rest: string, current: string)
    requires NEWLINE !in line
    ensures Lines(line + [NEWLINE] + rest, current) == [current + line] + Lines(rest, "")
  {
    var file := line + [NEWLINE] + rest;
    if line == "" {
      assert file == [NEWLINE] + rest && file[1..] == rest && current + line == current;
    } else {
      assert file[1..] == line[1..] + [NEWLINE] + rest;
      assert current + [line[0]] + line[1..] == current + line;
      LinesPrefix(line[1..], rest, current + [line[0]]);
    }
  }

  lemma {:induction false} LinesAppend(records: seq<string>, tail: string)
    requires forall i :: 0 <= i < |records| ==> NEWLINE !in records[i]
    ensures Lines(Written(records) + tail, "") == records + Lines(tail, "")
  {
    if records == [] {
      assert Written(records) + tail == tail;
    } else {
      var before, last := records[..|records| - 1], records[|records| - 1];
      var rest := last + [NEWLINE] + tail;
      assert Written(records) + tail == Written(before) + rest;
      LinesAppend(before, rest);
      LinesPrefix(last, tail, "");
      assert "" + last == last;
      assert before + ([last] + Lines(tail, "")) == records + Lines(tail, "");
    }
  }

  /** A file of records splits at its newlines into exactly those records, whatever the values hold. */
  lemma RecordsComeBack(records: seq<seq<Field>>)
    requires forall i :: 0 <= i < |records| ==> NamesOk(records[i])
    ensures var lines := seq(|records|, i requires 0 <= i < |records| => Record(records[i]));
            Lines(Written(lines), "") == lines
  {
    var lines := seq(|records|, i requires 0 <= i < |records| => Record(records[i]));
    forall i | 0 <= i < |lines| ensures NEWLINE !in lines[i] {
      RecordOneLine(records[i]);
    }
    LinesAppend(lines, "");
    assert Written(lines) + "" == Written(lines);
    assert lines + [] == lines;
  }

  /** The members logIBCEvent writes, for an event without a latency. */
  function IbcFields(ts: string, event: string, p: Packet, relayer: string): seq<Field> {
    [Text("ts", ts), Text("event", event), Text("src_chain", p.srcChain), Text("dst_chain", p.dstChain),
     Text("src_port", p.srcPort), Text("src_channel", p.srcChannel), Text("dst_port", p.dstPort),
     Text("dst_channel", p.dstChannel), Number("sequence", p.sequence), Text("payload", p.payload)]
    + if relayer != "" then [Text("relayer_id", relayer)] else []
  }

  /** No packet, whatever its strings hold, can break the line structure of the event log. */
  lemma IbcEventOneLine(ts: string, event: string, p: Packet, relayer: string)
    ensures NEWLINE !in Record(IbcFields(ts, event, p, relayer))
  {
    IbcNames(ts, event, p, relayer);
    RecordOneLine(IbcFields(ts, event, p, relayer));
  }

  lemma IbcNames(ts: string, event: string, p: Packet, relayer: string)
    ensures NamesOk(IbcFields(ts, event, p, relayer))
  {
    assert NEWLINE !in "ts" && NEWLINE !in "event" && NEWLINE !in "src_chain" && NEWLINE !in "dst_chain";
    assert NEWLINE !in "src_port" && NEWLINE !in "src_channel" && NEWLINE !in "dst_port";
    assert NEWLINE !in "dst_channel" && NEWLINE !in "sequence" && NEWLINE !in "payload";
    assert NEWLINE !in "relayer_id";
  }

  // ---------------------------------------------------------------- records tell events apart

  lemma SameText(v: string, w: string, rest: string, other: string)
    requires Escape(v) + [QUOTE] + rest == Escape(w) + [QUOTE] + other
    ensures v == w && rest == other
  {
    EscapedIsContained(v, rest);
    EscapedIsContained(w, other);
    var s := Escape(v) + [QUOTE] + rest;
    assert s[..|Escape(v)|] == Escape(v) && s[..|Escape(w)|] == Escape(w);
    assert s[|Escape(v)| + 1..] == rest && s[|Escape(w)| + 1..] == other;
    DecodeEscape(v);
    DecodeEscape(w);
  }

  lemma SameNumber(m: nat, n: nat, rest: string, other: string)
    requires Decimal.Print(m) + rest == Decimal.Print(n) + other
    requires rest != "" && !Decimal.IsDigit(rest[0]) && other != "" && !Decimal.IsDigit(other[0])
    ensures m == n && rest == other
  {
    Decimal.LeadingDigitsBefore(Decimal.Print(m), rest);
    Decimal.LeadingDigitsBefore(Decimal.Print(n), other);
    Decimal.PrintInjective(m, n);
    var s := Decimal.Print(m) + rest;
    assert s[|Decimal.Print(m)|..] == rest && s[|Decimal.Print(n)|..] == other;
  }

  /** Two members of one name and kind. */
  predicate Alike(f: Field, g: Field) {
    f.name == g.name && f.Text? == g.Text?
  }

  /** What comes after a member: another one, or the end of the record. */
  predicate Closes(rest: string) {
    rest != "" && (rest[0] == ',' || rest[0] == '}')
  }

  lemma SameStart(start: string, a: string, b: string)
    requires start + a == start + b
    ensures a == b
  {
    assert (start + a)[|start|..] == a && (start + b)[|start|..] == b;
  }

  lemma TextMember(name: string, value: string, rest: string)
    ensures Member(Text(name, value)) + rest == [QUOTE] + name + [QUOTE, ':', QUOTE] + (Escape(value) + [QUOTE] + rest)
  {
  }

  lemma NumberMember(name: string, count: nat, rest: string)
    ensures Member(Number(name, count)) + rest == [QUOTE] + name + [QUOTE, ':'] + (Decimal.Print(count) + rest)
  {
  }

  lemma SameMember(f: Field, g: Field, rest: string, other: string)
    requires Alike(f, g) && Closes(rest) && Closes(other) && Member(f) + rest == Member(g) + other
    ensures f == g && rest == other
  {
    if f.Text? {
      TextMember(f.name, f.value, rest);
      TextMember(g.name, g.value, other);
      SameStart([QUOTE] + f.name + [QUOTE, ':', QUOTE],
                Escape(f.value) + [QUOTE] + rest, Escape(g.value) + [QUOTE] + other);
      SameText(f.value, g.value, rest, other);
    } else {
      NumberMember(f.name, f.count, rest);
      NumberMember(g.name, g.count, other);
      SameStart([QUOTE] + f.name + [QUOTE, ':'], Decimal.Print(f.count) + rest, Decimal.Print(g.count) + other);
      SameNumber(f.count, g.count, rest, other);
    }
  }

  ghost predicate AllAlike(fields: seq<Field>, other: seq<Field>) {
    forall i :: 0 <= i < |fields| && i < |other| ==> Alike(fields[i], other[i])
  }

  /** What is left of a record behind its first member. */
  function Behind(fields: seq<Field>): (rest: string)
    requires fields != []
    ensures Closes(rest)
  {
    if |fields| == 1 then "}" else "," + Members(fields[1..]) + "}"
  }

  lemma BehindFirst(fields: seq<Field>)
    requires fields != []
    ensures Members(fields) + "}" == Member(fields[0]) + Behind(fields)
  {
    if |fields| > 1 {
      FirstAndRest(Member(fields[0]), Members(fields[1..]));
    }
  }

  lemma FirstAndRest(first: string, rest: string)
    ensures first + "," + rest + "}" == first + ("," + rest + "}")
    ensures "," + rest + "}" == "," + (rest + "}")
  {
  }

  /** Two records that go on alike have the same members left. */
  lemma SameBehind(fields: seq<Field>, other: seq<Field>)
    requires |fields| > 0 && |other| > 0 && Behind(fields) == Behind(other)
    ensures |fields| == 1 <==> |other| == 1
    ensures |fields| > 1 ==> Members(fields[1..]) + "}" == Members(other[1..]) + "}"
  {
    if |fields| > 1 && |other| > 1 {
      FirstAndRest("", Members(fields[1..]));
      FirstAndRest("", Members(other[1..]));
      SameStart(",", Members(fields[1..]) + "}", Members(other[1..]) + "}");
    }
  }

  lemma FirstsSame(fields: seq<Field>, other: seq<Field>)
    requires |fields| > 0 && |other| > 0 && AllAlike(fields, other)
    requires Members(fields) + "}" == Members(other) + "}"
    ensures fields[0] == other[0] && Behind(fields) == Behind(other)
  {
    BehindFirst(fields);
    BehindFirst(other);
    SameMember(fields[0], other[0], Behind(fields), Behind(other));
  }

  lemma NotEmpty(fields: seq<Field>)
    requires fields != []
    ensures Members(fields) + "}" != Members([]) + "}"
  {
    BehindFirst(fields);
    assert (Members(fields) + "}")[0] == QUOTE;
  }

  lemma SameWhole(fields: seq<Field>, other: seq<Field>)
    requires fields != [] && other != [] && fields[0] == other[0] && fields[1..] == other[1..]
    ensures fields == other
  {
    assert fields == [fields[0]] + fields[1..] && other == [other[0]] + other[1..];
  }

  lemma {:induction false} MembersInjective(fields: seq<Field>, other: seq<Field>)
    requires AllAlike(fields, other) && Members(fields) + "}" == Members(other) + "}"
    ensures fields == other
  {
    if fields == [] || other == [] {
      if fields != [] {
        NotEmpty(fields);
      }
      if other != [] {
        NotEmpty(other);
      }
    } else {
      FirstsSame(fields, other);
      SameBehind(fields, other);
      if |fields| > 1 {
        assert AllAlike(fields[1..], other[1..]);
        MembersInjective(fields[1..], other[1..]);
      }
      SameWhole(fields, other);
    }
  }

  lemma OpenBrace(members: string)
    ensures "{" + members + "}" == "{" + (members + "}")
  {
  }

  lemma RecordInjective(fields: seq<Field>, other: seq<Field>)
    requires AllAlike(fields, other) && Record(fields) == Record(other)
    ensures fields == other
  {
    OpenBrace(Members(fields));
    OpenBrace(Members(other));
    SameStart("{", Members(fields) + "}", Members(other) + "}");
    MembersInjective(fields, other);
  }

  /** The record of an event tells its time, its name, every field of the packet but its type, and the
      relayer. */
  lemma IbcEventInjective(ts: string, event: string, p: Packet, r: string,
      ts1: string, event1: string, q: Packet, r1: string)
    requires Record(IbcFields(ts, event, p, r)) == Record(IbcFields(ts1, event1, q, r1))
    ensures ts == ts1 && event == event1 && r == r1 && p.(kind := q.kind) == q
  {
    AlikeEvents(ts, event, p, r, ts1, event1, q, r1);
    RecordInjective(IbcFields(ts, event, p, r), IbcFields(ts1, event1, q, r1));
    SameEvents(ts, event, p, r, ts1, event1, q, r1);
  }

  lemma AlikeEvents(ts: string, event: string, p: Packet, r: string, ts1: string, event1: string, q: Packet, r1: string)
    ensures AllAlike(IbcFields(ts, event, p, r), IbcFields(ts1, event1, q, r1))
  {
  }

  lemma SameEvents(ts: string, event: string, p: Packet, r: string, ts1: string, event1: string, q: Packet, r1: string)
    requires IbcFields(ts, event, p, r) == IbcFields(ts1, event1, q, r1)
    ensures ts == ts1 && event == event1 && r == r1 && p.(kind := q.kind) == q
  {
    var f, g := IbcFields(ts, event, p, r), IbcFields(ts1, event1, q, r1);
    assert f[0] == g[0] && f[1] == g[1] && f[2] == g[2] && f[3] == g[3] && f[4] == g[4];
    assert f[5] == g[5] && f[6] == g[6] && f[7] == g[7] && f[8] == g[8] && f[9] == g[9];
    assert |f| == |g|;
    if r != "" {
      assert f[10] == g[10];
    }
  }

  class LogStream {
    var file: string
    ghost var records: seq<string>

    ghost predicate Valid()
      reads this
    {
      file == Written(records)
    }

    constructor ()
      ensures Valid() && records == []
    {
      file, records := "", [];
    }

    method Write(line: string)
      requires Valid()
      modifies this
      ensures Valid() && records == old(records) + [line]
    {
      file := file + line + [NEWLINE];
      records := records + [line];
      assert records[..|records| - 1] == old(records);
    }
  }
}
