/**
  The string operations the path parsers use: decimal numbers, trimming,
  splitting and joining. Characters are bytes.
 */
module Text {
  import opened Bytes

  function Digit(n: nat): char
    requires n < 10
  {
    '0' + n as char
  }

  predicate IsDigit(c: char) {
    '0' <= c <= '9'
  }

  predicate AllDigits(s: string) {
    forall i | 0 <= i < |s| :: IsDigit(s[i])
  }

  /** Decimal digits, without leading zeros. */
  function Decimal(n: nat): (s: string)
    ensures |s| > 0 && AllDigits(s)
  {
    if n < 10 then [Digit(n)] else Decimal(n / 10) + [Digit(n % 10)]
  }

  /** Value of a string of digits. */
  function Number(s: string): nat
    requires AllDigits(s)
  {
    if s == "" then 0 else 10 * Number(s[..|s| - 1]) + (s[|s| - 1] - '0') as nat
  }

  lemma {:induction false} NumberInvertsDecimal(n: nat)
    ensures Number(Decimal(n)) == n
  {
    var s := Decimal(n);
    if n < 10 {
      assert s[..|s| - 1] == "";
    } else {
      NumberInvertsDecimal(n / 10);
      assert s[..|s| - 1] == Decimal(n / 10);
    }
  }

  /** Every character is one byte. */
  predicate IsBytes(s: string) {
    forall i | 0 <= i < |s| :: s[i] as int < 0x100
  }

  /** A signed decimal number; out-of-range values are left to the caller, who rejects them anyway. */
  function Atoi(s: string): Option<int> {
    if s == "" then None
    else if s[0] == '-' || s[0] == '+' then
      if |s| == 1 || !AllDigits(s[1..]) then None
      else Some(if s[0] == '-' then 0 - Number(s[1..]) as int else Number(s[1..]) as int)
    else if AllDigits(s) then Some(Number(s))
    else None
  }

  lemma {:induction false} AtoiInvertsDecimal(n: nat)
    ensures Atoi(Decimal(n)) == Some(n)
  {
    NumberInvertsDecimal(n);
    assert IsDigit(Decimal(n)[0]);
  }

  predicate IsSpace(c: char) {
    c in {' ', '\t', '\n', '\r', 11 as char, 12 as char, 0x85 as char, 0xA0 as char}
  }

  function TrimLeft(s: string): string {
    if s != "" && IsSpace(s[0]) then TrimLeft(s[1..]) else s
  }

  function TrimRight(s: string): string {
    if s != "" && IsSpace(s[|s| - 1]) then TrimRight(s[..|s| - 1]) else s
  }

  function TrimSpace(s: string): string {
    TrimRight(TrimLeft(s))
  }

  /** Neither end is a space. */
  predicate Trimmed(s: string) {
    s != "" && !IsSpace(s[0]) && !IsSpace(s[|s| - 1])
  }

  lemma {:induction false} TrimmedStays(s: string)
    requires Trimmed(s)
    ensures TrimSpace(s) == s
  {
  }

  /** The parts of a string between separators; always at least one. */
  function Split(s: string, sep: char): (parts: seq<string>)
    ensures |parts| > 0
  {
    if s == "" then [""]
    else
      var rest := Split(s[1..], sep);
      if s[0] == sep then [""] + rest else [[s[0]] + rest[0]] + rest[1..]
  }

  function Join(parts: seq<string>, sep: char): string {
    if parts == [] then "" else if |parts| == 1 then parts[0] else parts[0] + [sep] + Join(parts[1..], sep)
  }

  lemma {:induction false} SplitOne(s: string, sep: char)
    requires sep !in s
    ensures Split(s, sep) == [s]
  {
    if s != "" {
      SplitOne(s[1..], sep);
      assert s == [s[0]] + s[1..];
    }
  }

  lemma {:induction false} SplitAtFirst(s: string, sep: char, rest: string)
    requires sep !in s
    ensures Split(s + [sep] + rest, sep) == [s] + Split(rest, sep)
  {
    var whole := s + [sep] + rest;
    if s == "" {
      assert whole[1..] == rest;
    } else {
      assert whole[1..] == s[1..] + [sep] + rest;
      SplitAtFirst(s[1..], sep, rest);
      assert s == [s[0]] + s[1..];
    }
  }

  lemma {:induction false} SplitInvertsJoin(parts: seq<string>, sep: char)
    requires parts != [] && forall k | 0 <= k < |parts| :: sep !in parts[k]
    ensures Split(Join(parts, sep), sep) == parts
  {
    if |parts| == 1 {
      SplitOne(parts[0], sep);
    } else {
      SplitInvertsJoin(parts[1..], sep);
      SplitAtFirst(parts[0], sep, Join(parts[1..], sep));
    }
  }

  function TextBytes(s: string): (b: seq<Byte>)
    requires IsBytes(s)
    ensures |b| == |s|
  {
    seq<Byte>(|s|, i requires 0 <= i < |s| => s[i] as int)
  }

  function BytesText(b: seq<Byte>): (s: string)
    ensures |s| == |b|
  {
    seq(|b|, i requires 0 <= i < |b| => b[i] as char)
  }

  lemma {:induction false} TextRoundTrip(s: string)
    requires IsBytes(s)
    ensures BytesText(TextBytes(s)) == s
  {
  }
}
