/** Decimal numbers as the C++ library prints and parses them: operator<< and std::to_string on one
    side, std::stoull and std::stoi on the other.  The parsers are lenient: they skip white space,
    take a sign, and ignore whatever follows the digits. */
module Decimal {
  import opened Basics

  predicate IsDigit(c: char) {
    '0' <= c <= '9'
  }

  function DigitChar(d: nat): (c: char)
    requires d < 10
    ensures IsDigit(c)
  {
    '0' + d as char
  }

  function DigitValue(c: char): nat
    requires IsDigit(c)
  {
    (c - '0') as nat
  }

  predicate AllDigits(s: string) {
    forall i :: 0 <= i < |s| ==> IsDigit(s[i])
  }

  /** What operator<< prints for an unsigned integer. */
  function Print(n: nat): (s: string)
    ensures |s| > 0 && AllDigits(s)
  {
    if n < 10 then [DigitChar(n)] else Print(n / 10) + [DigitChar(n % 10)]
  }

  /** What operator<< prints for an int. */
  function PrintInt(n: int): string {
    if n < 0 then "-" + Print(-n) else Print(n)
  }

  /** The number a digit string denotes. */
  function Value(s: string): nat
    requires AllDigits(s)
  {
    if s == "" then 0 else Value(s[..|s| - 1]) * 10 + DigitValue(s[|s| - 1])
  }

  lemma {:induction false} ValuePrint(n: nat)
    ensures Value(Print(n)) == n
  {
    if n >= 10 {
      ValuePrint(n / 10);
      assert Print(n)[..|Print(n)| - 1] == Print(n / 10);
    }
  }

  lemma {:induction false} PrintInjective(m: nat, n: nat)
    requires Print(m) == Print(n)
    ensures m == n
  {
    ValuePrint(m);
    ValuePrint(n);
  }

  /** The digit strings that Print writes for 64-bit numbers: no leading zero, and no overflow. */
  predicate Plain(s: string) {
    s != "" && AllDigits(s) && (|s| > 1 ==> s[0] != '0') && Value(s) <= MAX64
  }

  lemma {:induction false} PrintNoLeadingZero(n: nat)
    requires n > 0
    ensures Print(n)[0] != '0'
  {
    if n >= 10 {
      PrintNoLeadingZero(n / 10);
    }
  }

  lemma PrintIsPlain(n: Uint64)
    ensures Plain(Print(n))
  {
    ValuePrint(n);
    if n > 0 {
      PrintNoLeadingZero(n);
    }
  }

  lemma {:induction false} ValuePositive(s: string)
    requires s != "" && AllDigits(s) && s[0] != '0'
    ensures Value(s) > 0
  {
    if |s| > 1 {
      ValuePositive(s[..|s| - 1]);
    }
  }

  lemma {:induction false} PrintValue(s: string)
    requires s != "" && AllDigits(s) && (|s| > 1 ==> s[0] != '0')
    ensures Print(Value(s)) == s
  {
    if |s| > 1 {
      var most := s[..|s| - 1];
      ValuePositive(most);
      PrintValue(most);
      assert s == most + [s[|s| - 1]];
    } else {
      assert Value(s[..0]) == 0;
      assert s == [s[0]];
    }
  }

  lemma PlainPrinted(s: string) returns (n: Uint64)
    requires Plain(s)
    ensures s == Print(n)
  {
    PrintValue(s);
    n := Value(s);
  }

  predicate IsSpace(c: char) {
    c == ' ' || '\t' <= c <= '\r'
  }

  function SkipSpace(s: string): string {
    if s != "" && IsSpace(s[0]) then SkipSpace(s[1..]) else s
  }

  function LeadingDigits(s: string): (ds: string)
    ensures AllDigits(ds)
  {
    if s != "" && IsDigit(s[0]) then [s[0]] + LeadingDigits(s[1..]) else ""
  }

  lemma {:induction false} LeadingDigitsOfDigits(s: string)
    requires AllDigits(s)
    ensures LeadingDigits(s) == s
  {
    if s != "" {
      LeadingDigitsOfDigits(s[1..]);
    }
  }

  /** The sign and magnitude strtol and strtoull read, or None when there is no digit. */
  function ReadNumber(s: string): Option<(bool, nat)> {
    var t := SkipSpace(s);
    var negative := t != "" && t[0] == '-';
    var unsigned := if t != "" && (t[0] == '-' || t[0] == '+') then t[1..] else t;
    var digits := LeadingDigits(unsigned);
    if digits == "" then None else Some((negative, Value(digits)))
  }

  /** std::stoull: None stands for the exceptions invalid_argument and out_of_range.  A minus sign
      negates modulo 2^64, as strtoull does. */
  function Stoull(s: string): Option<Uint64> {
    match ReadNumber(s)
    case None => None
    case Some((negative, magnitude)) =>
      if magnitude > MAX64 then None
      else if negative && magnitude != 0 then Some(MAX64 + 1 - magnitude)
      else Some(magnitude)
  }

  /** std::stoi, again with None for an exception. */
  function Stoi(s: string): Option<Int32> {
    match ReadNumber(s)
    case None => None
    case Some((negative, magnitude)) =>
      var n: int := if negative then 0 - magnitude else magnitude;
      if -0x8000_0000 <= n < 0x8000_0000 then Some(n) else None
  }

  lemma {:induction false} SkipSpaces(spaces: string, rest: string)
    requires (forall i :: 0 <= i < |spaces| ==> IsSpace(spaces[i])) && (rest == "" || !IsSpace(rest[0]))
    ensures SkipSpace(spaces + rest) == rest
  {
    if spaces == "" {
      assert spaces + rest == rest;
    } else {
      assert (spaces + rest)[1..] == spaces[1..] + rest;
      SkipSpaces(spaces[1..], rest);
    }
  }

  lemma {:induction false} LeadingDigitsBefore(digits: string, junk: string)
    requires AllDigits(digits) && (junk == "" || !IsDigit(junk[0]))
    ensures LeadingDigits(digits + junk) == digits
  {
    if digits == "" {
      assert digits + junk == junk;
    } else {
      assert (digits + junk)[1..] == digits[1..] + junk;
      LeadingDigitsBefore(digits[1..], junk);
    }
  }

  /** What the lenient readers make of any text: white space, at most one sign, digits, and anything that
      does not go on with a digit. */
  lemma ReadExactly(spaces: string, sign: string, digits: string, junk: string)
    requires forall i :: 0 <= i < |spaces| ==> IsSpace(spaces[i])
    requires sign == "" || sign == "+" || sign == "-"
    requires AllDigits(digits) && (junk == "" || !IsDigit(junk[0]))
    requires sign == "" && digits == "" ==> junk == "" || !(IsSpace(junk[0]) || junk[0] == '+' || junk[0] == '-')
    ensures ReadNumber(spaces + sign + digits + junk) ==
            if digits == "" then None else Some((sign == "-", Value(digits)))
  {
    var rest := sign + digits + junk;
    assert spaces + sign + digits + junk == spaces + rest;
    SkipSpaces(spaces, rest);
    if sign == "" {
      assert rest == digits + junk;
    } else {
      assert rest[1..] == digits + junk;
    }
    LeadingDigitsBefore(digits, junk);
  }

  lemma ReadPrinted(n: nat)
    ensures ReadNumber(Print(n)) == Some((false, n))
    ensures ReadNumber("-" + Print(n)) == Some((true, n))
  {
    LeadingDigitsOfDigits(Print(n));
    ValuePrint(n);
    assert IsDigit(Print(n)[0]);
    assert ("-" + Print(n))[1..] == Print(n);
  }

  lemma StoullPrint(n: Uint64)
    ensures Stoull(Print(n)) == Some(n)
  {
    ReadPrinted(n);
  }

  lemma StoiPrint(n: Int32)
    ensures Stoi(PrintInt(n)) == Some(n)
  {
    var magnitude: int := if n < 0 then 0 - n else n;
    ReadPrinted(magnitude);
  }
}
