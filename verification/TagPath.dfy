/**
  Logix tag paths: splitting "Program.Tag[5].Member" into names and indexes,
  and the symbolic and member segments that encode them.
 */
module TagPath {
  import opened Bytes
  import opened EPath
  import opened Text

  /** A string of the source: any bytes. */
  type ByteString = s: string | IsBytes(s)

  datatype Part = Name(name: ByteString) | Index(index: U32)

  const MAX_NAME: nat := 255

  // ---------------------------------------------------------------- splitting

  /** A name that ends here, unless it is empty. */
  function Flush(current: ByteString): seq<Part> {
    if current == "" then [] else [Name(current)]
  }

  /** Position of the first `]` from `i` on, or the end. */
  function Bracket(s: string, i: nat): (j: nat)
    requires i <= |s|
    ensures i <= j <= |s| && (j < |s| ==> s[j] == ']') && forall k | i <= k < j :: s[k] != ']'
    decreases |s| - i
  {
    if i == |s| || s[i] == ']' then i else Bracket(s, i + 1)
  }

  /** Value of the digits, in 32 bits; other characters are skipped. */
  function IndexValue(s: string): U32 {
    if s == "" then 0 else
      var before, c := IndexValue(s[..|s| - 1]), s[|s| - 1];
      if IsDigit(c) then (10 * before as int + (c - '0') as int) % 0x1_0000_0000 else before
  }

  function IndexPart(digits: string): seq<Part> {
    if digits == "" then [] else [Index(IndexValue(digits))]
  }

  /** A byte as the source appends it to a string: as a character, in UTF-8, so bytes from 0x80 on become two. */
  function Utf8(c: char): (s: ByteString)
    requires c as int < 0x100
    ensures |s| == if c as int < 0x80 then 1 else 2
  {
    if c as int < 0x80 then [c] else [(0xC0 + c as int / 0x40) as char, (0x80 + c as int % 0x40) as char]
  }

  /** What reading one character, or one bracket, does: parts it ends, where to go on, and the name so far. */
  datatype Step = Step(ended: seq<Part>, next: nat, current: ByteString)

  function StepAt(tag: ByteString, i: nat, current: ByteString): (step: Step)
    requires i < |tag|
    ensures i < step.next
  {
    match tag[i]
    case '.' => Step(Flush(current), i + 1, "")
    case '[' =>
      var j := Bracket(tag, i + 1);
      Step(Flush(current) + IndexPart(tag[i + 1..j]), j + 1, "")
    case ']' => Step([], i + 1, current)
    case c => Step([], i + 1, current + Utf8(c))
  }

  /** The parts from position `i` on, with `current` the name read so far. */
  function SplitFrom(tag: ByteString, i: nat, current: ByteString): seq<Part>
    decreases |tag| - i
  {
    if i >= |tag| then Flush(current) else
      var step := StepAt(tag, i, current);
      step.ended + SplitFrom(tag, step.next, step.current)
  }

  method SplitTagPath(tag: ByteString) returns (parts: seq<Part>)
    ensures parts == SplitFrom(tag, 0, "")
  {
    hide StepAt;
    parts := [];
    var current: ByteString := "";
    var i := 0;
    while i < |tag|
      invariant SplitFrom(tag, 0, "") == parts + SplitFrom(tag, i, current)
      decreases |tag| - i
    {
      var step := TakeStep(tag, i, current);
      parts, i, current := parts + step.ended, step.next, step.current;
    }
    parts := parts + Flush(current);
  }

  method TakeStep(tag: ByteString, i: nat, current: ByteString) returns (step: Step)
    requires i < |tag|
    ensures step == StepAt(tag, i, current)
  {
    match tag[i] {
      case '.' =>
        step := Step(Flush(current), i + 1, "");
      case '[' =>
        var j := i + 1;
        while j < |tag| && tag[j] != ']'
          invariant i + 1 <= j <= |tag| && Bracket(tag, i + 1) == Bracket(tag, j)
        {
          j := j + 1;
        }
        var parts := Flush(current);
        if j > i + 1 {
          var index := ParseIndex(tag[i + 1..j]);
          parts := parts + [Index(index)];
        }
        step := Step(parts, j + 1, "");
      case ']' =>
        step := Step([], i + 1, current);
      case c =>
        step := Step([], i + 1, current + Utf8(c));
    }
  }

  method ParseIndex(digits: string) returns (index: U32)
    ensures index == IndexValue(digits)
  {
    index := 0;
    for k := 0 to |digits|
      invariant index == IndexValue(digits[..k])
    {
      assert digits[..k + 1][..k] == digits[..k];
      if IsDigit(digits[k]) {
        index := (10 * index as int + (digits[k] - '0') as int) % 0x1_0000_0000;
      }
    }
    assert digits[..|digits|] == digits;
  }

  // ---------------------------------------------------------------- printing

  /** A non-empty name without the separators. */
  predicate ValidName(s: ByteString) {
    s != "" && forall k | 0 <= k < |s| :: s[k] !in {'.', '[', ']'}
  }

  predicate ValidPart(p: Part) {
    p.Name? ==> ValidName(p.name)
  }

  ghost predicate ValidParts(parts: seq<Part>) {
    forall k | 0 <= k < |parts| :: ValidPart(parts[k])
  }

  lemma {:induction false} DigitsAreBytes(s: string)
    requires AllDigits(s)
    ensures IsBytes(s)
  {
  }

  function PrintPart(p: Part, first: bool): ByteString {
    match p
    case Name(name) => if first then name else "." + name
    case Index(index) => DigitsAreBytes(Decimal(index)); "[" + Decimal(index) + "]"
  }

  function PrintRest(parts: seq<Part>): ByteString {
    if parts == [] then "" else PrintPart(parts[0], false) + PrintRest(parts[1..])
  }

  /** name.name[5].name */
  function Print(parts: seq<Part>): ByteString {
    if parts == [] then "" else PrintPart(parts[0], true) + PrintRest(parts[1..])
  }

  // ---------------------------------------------------------------- splitting inverts printing

  /** A name as splitting collects it: every byte re-encoded. */
  function Widen(name: ByteString): ByteString {
    if name == "" then "" else Utf8(name[0]) + Widen(name[1..])
  }

  function WidenPart(p: Part): Part {
    match p
    case Name(name) => Name(Widen(name))
    case Index(_) => p
  }

  function WidenAll(parts: seq<Part>): (r: seq<Part>)
    ensures |r| == |parts| && forall k | 0 <= k < |parts| :: r[k] == WidenPart(parts[k])
  {
    if parts == [] then [] else [WidenPart(parts[0])] + WidenAll(parts[1..])
  }

  predicate IsAscii(s: string) {
    forall k | 0 <= k < |s| :: s[k] as int < 0x80
  }

  /** Re-encoding changes a name exactly when it is not ASCII, and then makes it longer. */
  lemma {:induction false} WidenKeepsAscii(name: ByteString)
    ensures IsAscii(name) <==> Widen(name) == name
    ensures |Widen(name)| >= |name|
    ensures IsAscii(name) <==> |Widen(name)| == |name|
  {
    if name != "" {
      WidenKeepsAscii(name[1..]);
      assert name == [name[0]] + name[1..];
      assert IsAscii(name) <==> name[0] as int < 0x80 && IsAscii(name[1..]);
    }
  }

  lemma {:induction false} IndexOfDigits(s: string)
    requires AllDigits(s)
    ensures IndexValue(s) == Number(s) % 0x1_0000_0000
  {
    if s != "" {
      assert AllDigits(s[..|s| - 1]) && IsDigit(s[|s| - 1]);
      IndexOfDigits(s[..|s| - 1]);
      ModStep(Number(s[..|s| - 1]), (s[|s| - 1] - '0') as nat);
    }
  }

  lemma {:induction false} ModShift(a: nat, k: nat)
    ensures (a + 0x1_0000_0000 * k) % 0x1_0000_0000 == a % 0x1_0000_0000
  {
    if k > 0 {
      ModShift(a, k - 1);
      assert a + 0x1_0000_0000 * k == a + 0x1_0000_0000 * (k - 1) + 0x1_0000_0000;
    }
  }

  lemma {:induction false} ModStep(n: nat, d: nat)
    ensures (10 * (n % 0x1_0000_0000) + d) % 0x1_0000_0000 == (10 * n + d) % 0x1_0000_0000
  {
    var q, r := n / 0x1_0000_0000, n % 0x1_0000_0000;
    assert n == 0x1_0000_0000 * q + r;
    ModShift(10 * r + d, 10 * q);
  }

  lemma {:induction false} IndexRoundTrip(index: U32)
    ensures IndexValue(Decimal(index)) == index
  {
    IndexOfDigits(Decimal(index));
    NumberInvertsDecimal(index);
  }

  lemma {:induction false} ReadPlain(tag: ByteString, i: nat, current: ByteString)
    requires i < |tag| && tag[i] !in {'.', '[', ']'}
    ensures SplitFrom(tag, i, current) == SplitFrom(tag, i + 1, current + Utf8(tag[i]))
  {
    assert [] + SplitFrom(tag, i + 1, current + Utf8(tag[i])) == SplitFrom(tag, i + 1, current + Utf8(tag[i]));
  }

  /** Reading a plain name collects its bytes, re-encoded. */
  lemma {:induction false} ReadName(tag: ByteString, i: nat, name: ByteString, current: ByteString)
    requires i + |name| <= |tag| && tag[i..i + |name|] == name
    requires name != "" ==> ValidName(name)
    ensures SplitFrom(tag, i, current) == SplitFrom(tag, i + |name|, current + Widen(name))
    decreases |name|
  {
    hide SplitFrom, Widen, Utf8;
    WidenStep(name, current);
    if name != "" {
      var rest := name[1..];
      assert tag[i] == tag[i..i + |name|][0] == name[0];
      assert tag[i + 1..i + 1 + |rest|] == tag[i..i + |name|][1..] == rest;
      ReadPlain(tag, i, current);
      ReadName(tag, i + 1, rest, current + Utf8(name[0]));
    }
  }

  lemma {:induction false} WidenStep(name: ByteString, current: ByteString)
    ensures name == "" ==> current + Widen(name) == current
    ensures name != "" ==> current + Utf8(name[0]) + Widen(name[1..]) == current + Widen(name)
  {
  }

  /** A bracketed number ends the current name and adds its index. */
  lemma {:induction false} ReadIndex(tag: ByteString, i: nat, index: U32, current: ByteString)
    requires var text := PrintPart(Index(index), false); i + |text| <= |tag| && tag[i..i + |text|] == text
    ensures SplitFrom(tag, i, current) ==
            Flush(current) + [Index(index)] + SplitFrom(tag, i + |PrintPart(Index(index), false)|, "")
  {
    hide Decimal, Number, IndexValue, SplitFrom;
    var digits := Decimal(index);
    var text := PrintPart(Index(index), false);
    var j := i + 1 + |digits|;
    assert text == "[" + digits + "]";
    Middle(tag, i, digits);
    forall k | i + 1 <= k < j
      ensures tag[k] != ']'
    {
      assert tag[k] == digits[k - i - 1] && IsDigit(digits[k - i - 1]);
    }
    BracketAt(tag, i + 1, j);
    IndexRoundTrip(index);
    ReadBracket(tag, i, current);
  }

  /** Where the characters of a bracketed text stand. */
  lemma {:induction false} Middle(tag: ByteString, i: nat, digits: ByteString)
    requires i + |digits| + 2 <= |tag| && tag[i..i + (|digits| + 2)] == "[" + digits + "]"
    ensures tag[i] == '[' && tag[i + 1 + |digits|] == ']' && tag[i + 1..i + 1 + |digits|] == digits
  {
    var text := "[" + digits + "]";
    assert tag[i] == text[0] && tag[i + 1 + |digits|] == text[1 + |digits|];
    forall k | 0 <= k < |digits|
      ensures tag[i + 1 + k] == digits[k]
    {
      assert tag[i..i + (|digits| + 2)][1 + k] == text[1 + k];
    }
  }

  lemma {:induction false} ReadBracket(tag: ByteString, i: nat, current: ByteString)
    requires i < |tag| && tag[i] == '['
    ensures var j := Bracket(tag, i + 1);
            SplitFrom(tag, i, current) == Flush(current) + IndexPart(tag[i + 1..j]) + SplitFrom(tag, j + 1, "")
  {
    hide Flush, IndexPart, Bracket;
  }

  lemma {:induction false} BracketAt(s: string, i: nat, j: nat)
    requires i <= j < |s| && s[j] == ']' && forall k | i <= k < j :: s[k] != ']'
    ensures Bracket(s, i) == j
  {
  }

  lemma {:induction false} ReadDot(tag: ByteString, i: nat, current: ByteString)
    requires i < |tag| && tag[i] == '.'
    ensures SplitFrom(tag, i, current) == Flush(current) + SplitFrom(tag, i + 1, "")
  {
  }

  /** A printed part ends the current name; what follows goes on from it. */
  lemma {:induction false} ReadPart(tag: ByteString, i: nat, p: Part, current: ByteString)
    requires var text := PrintPart(p, false); i + |text| <= |tag| && tag[i..i + |text|] == text
    requires ValidPart(p)
    ensures SplitFrom(tag, i, current) ==
            Flush(current) + match p {
              case Index(_) => [p] + SplitFrom(tag, i + |PrintPart(p, false)|, "")
              case Name(name) => SplitFrom(tag, i + |PrintPart(p, false)|, Widen(name))
            }
  {
    hide SplitFrom, Flush, Decimal;
    var text := PrintPart(p, false);
    match p
    case Index(index) =>
      ReadIndex(tag, i, index, current);
      var rest := SplitFrom(tag, i + |text|, "");
      assert Flush(current) + [p] + rest == Flush(current) + ([p] + rest);
    case Name(name) =>
      assert tag[i] == text[0] && tag[i + 1..i + |text|] == text[1..] == name;
      ReadDot(tag, i, current);
      ReadName(tag, i + 1, name, "");
      assert "" + Widen(name) == Widen(name);
  }

  lemma {:induction false} CutFront(tag: string, i: nat, text: string, rest: string)
    requires i <= |tag| && tag[i..] == text + rest
    ensures i + |text| <= |tag| && tag[i..i + |text|] == text && tag[i + |text|..] == rest
  {
    assert |tag[i..]| == |text| + |rest|;
    assert tag[i..i + |text|] == tag[i..][..|text|];
    assert tag[i + |text|..] == tag[i..][|text|..];
  }

  /** From a part boundary on, the printed rest splits into its parts. */
  lemma {:induction false} SplitRest(tag: ByteString, i: nat, parts: seq<Part>, current: ByteString)
    requires i <= |tag| && tag[i..] == PrintRest(parts) && ValidParts(parts)
    ensures SplitFrom(tag, i, current) == Flush(current) + WidenAll(parts)
    decreases |parts|
  {
    hide SplitFrom, Flush, PrintPart, WidenAll;
    if parts == [] {
      SplitEnd(tag, i, current);
      assert Flush(current) + WidenAll(parts) == Flush(current);
    } else {
      var text, rest := PrintPart(parts[0], false), parts[1..];
      var next := i + |text|;
      CutFront(tag, i, text, PrintRest(rest));
      assert ValidPart(parts[0]) && parts == [parts[0]] + rest;
      ReadPart(tag, i, parts[0], current);
      SplitRest(tag, next, rest, if parts[0].Name? then Widen(parts[0].name) else "");
      FlushName(parts[0]);
      WidenFirst(parts);
      assert Flush("") + WidenAll(rest) == WidenAll(rest);
    }
  }

  lemma {:induction false} WidenFirst(parts: seq<Part>)
    requires parts != []
    ensures WidenAll(parts) == [WidenPart(parts[0])] + WidenAll(parts[1..])
  {
  }

  lemma {:induction false} SplitEnd(tag: ByteString, i: nat, current: ByteString)
    requires i >= |tag|
    ensures SplitFrom(tag, i, current) == Flush(current)
  {
  }

  lemma {:induction false} FlushName(p: Part)
    requires ValidPart(p)
    ensures p.Name? ==> Flush(Widen(p.name)) == [WidenPart(p)]
    ensures Flush("") == []
  {
    if p.Name? {
      WidenKeepsAscii(p.name);
    }
  }

  /**
    Printing a list of names and indexes and splitting the result gives the list
    with its names re-encoded, and so gives it back exactly when they are ASCII.
   */
  lemma {:induction false} SplitInvertsPrint(parts: seq<Part>)
    requires ValidParts(parts)
    ensures SplitFrom(Print(parts), 0, "") == WidenAll(parts)
    ensures WidenAll(parts) == parts <==> forall k | 0 <= k < |parts| && parts[k].Name? :: IsAscii(parts[k].name)
  {
    hide SplitFrom;
    FlushName(Index(0));
    var tag := Print(parts);
    if parts != [] && parts[0].Name? {
      var name, rest := parts[0].name, parts[1..];
      assert ValidPart(parts[0]);
      assert tag[0..|name|] == name && tag[|name|..] == PrintRest(rest);
      ReadName(tag, 0, name, "");
      assert "" + Widen(name) == Widen(name);
      SplitRest(tag, |name|, rest, Widen(name));
      assert WidenAll(parts) == [WidenPart(parts[0])] + WidenAll(rest);
    } else {
      assert tag == PrintRest(parts) && tag[0..] == tag;
      SplitRest(tag, 0, parts, "");
    }
    WidenAllKeepsAscii(parts);
  }

  lemma {:induction false} WidenAllKeepsAscii(parts: seq<Part>)
    ensures WidenAll(parts) == parts <==> forall k | 0 <= k < |parts| && parts[k].Name? :: IsAscii(parts[k].name)
  {
    forall k | 0 <= k < |parts|
      ensures WidenPart(parts[k]) == parts[k] <==> (parts[k].Name? ==> IsAscii(parts[k].name))
    {
      if parts[k].Name? {
        WidenKeepsAscii(parts[k].name);
      }
    }
    if WidenAll(parts) == parts {
      assert forall k | 0 <= k < |parts| :: WidenPart(parts[k]) == parts[k];
    }
  }

  // ---------------------------------------------------------------- encoding

  datatype SymbolError = NameTooLong(length: nat) | EmptyName

  /** An ANSI extended symbolic segment, padded to a whole word. */
  function SymbolicSegment(symbol: seq<Byte>): Result<seq<Byte>, SymbolError> {
    if |symbol| > MAX_NAME then Err(NameTooLong(|symbol|))
    else if symbol == [] then Err(EmptyName)
    else Ok(PadToWord([0x91, |symbol|] + symbol))
  }

  /** A member segment in the smallest format that holds the index. */
  function MemberSegment(index: U32): (s: seq<Byte>)
    ensures |s| > 0 && |s| % 2 == 0
  {
    if index <= 0xFF then [0x28, index]
    else if index <= 0xFFFF then [0x29, 0] + Le16(index)
    else [0x2A, 0] + Le32(index)
  }

  function EncodePart(p: Part): Result<seq<Byte>, SymbolError> {
    match p
    case Name(name) => SymbolicSegment(TextBytes(name))
    case Index(index) => Ok(MemberSegment(index))
  }

  /** The segments of all parts, or the first error. */
  function Encode(parts: seq<Part>): Result<seq<Byte>, SymbolError> {
    if parts == [] then Ok([]) else
      match EncodePart(parts[0])
      case Err(e) => Err(e)
      case Ok(segment) =>
        match Encode(parts[1..])
        case Err(e) => Err(e)
        case Ok(rest) => Ok(segment + rest)
  }

  datatype TakenPart = TakenPart(part: Part, rest: seq<Byte>)

  /** A reader of such segments, as a controller needs one. */
  function TakePart(s: seq<Byte>): (r: Option<TakenPart>)
    ensures r.Some? ==> |r.value.rest| < |s|
  {
    if |s| < 2 then None
    else if s[0] == 0x91 then
      var n := s[1] as int;
      if 2 + n + n % 2 > |s| then None else Some(TakenPart(Name(BytesText(s[2..2 + n])), s[2 + n + n % 2..]))
    else if s[0] == 0x28 then Some(TakenPart(Index(s[1]), s[2..]))
    else if s[0] == 0x29 && |s| >= 4 then Some(TakenPart(Index(GetLe16(s, 2)), s[4..]))
    else if s[0] == 0x2A && |s| >= 6 then Some(TakenPart(Index(GetLe32(s, 2)), s[6..]))
    else None
  }

  function Decode(s: seq<Byte>): Option<seq<Part>>
    decreases |s|
  {
    if s == [] then Some([]) else
      match TakePart(s)
      case None => None
      case Some(taken) =>
        match Decode(taken.rest)
        case None => None
        case Some(parts) => Some([taken.part] + parts)
  }

  lemma {:induction false} TakeMember(index: U32, rest: seq<Byte>)
    ensures TakePart(MemberSegment(index) + rest) == Some(TakenPart(Index(index), rest))
  {
    var s := MemberSegment(index) + rest;
    assert s[|MemberSegment(index)|..] == rest;
    if 0xFF < index <= 0xFFFF {
      assert s[2..4] == Le16(index);
      Le16RoundTrip(s, 2, index);
    } else if index > 0xFFFF {
      assert s[2..6] == Le32(index);
      Le32RoundTrip(s, 2, index);
    }
  }

  lemma {:induction false} TakeSymbol(name: ByteString, rest: seq<Byte>)
    requires 0 < |name| <= MAX_NAME
    ensures SymbolicSegment(TextBytes(name)).Ok?
    ensures var segment := SymbolicSegment(TextBytes(name)).value;
            |segment| % 2 == 0 && TakePart(segment + rest) == Some(TakenPart(Name(name), rest))
  {
    var symbol := TextBytes(name);
    var segment := SymbolicSegment(symbol).value;
    var s := segment + rest;
    assert |segment| == 2 + |name| + |name| % 2;
    assert s[0] == segment[0] && s[1] == segment[1];
    assert s[2..2 + |name|] == segment[2..2 + |name|] == symbol;
    assert s[|segment|..] == rest;
    TextRoundTrip(name);
  }

  /** Every name has from 1 to 255 bytes. */
  ghost predicate Encodable(parts: seq<Part>) {
    forall k | 0 <= k < |parts| && parts[k].Name? :: 0 < |parts[k].name| <= MAX_NAME
  }

  /** The encoding fails exactly on an empty name or one over 255 bytes; otherwise it is of even length and reads back as the parts. */
  lemma {:induction false} DecodeInvertsEncode(parts: seq<Part>)
    ensures Encode(parts).Ok? <==> Encodable(parts)
    ensures Encode(parts).Ok? ==> |Encode(parts).value| % 2 == 0 && Decode(Encode(parts).value) == Some(parts)
  {
    hide TakePart, SymbolicSegment, MemberSegment, TextBytes;
    if parts != [] {
      var rest := parts[1..];
      DecodeInvertsEncode(rest);
      assert parts == [parts[0]] + rest;
      assert forall k | 1 <= k < |parts| :: parts[k] == rest[k - 1];
      assert forall k | 0 <= k < |rest| :: rest[k] == parts[k + 1];
      match parts[0]
      case Index(index) =>
        if Encode(rest).Ok? {
          TakeMember(index, Encode(rest).value);
        }
      case Name(name) =>
        if 0 < |name| <= MAX_NAME {
          TakeSymbol(name, if Encode(rest).Ok? then Encode(rest).value else []);
        } else {
          BadName(name);
        }
    }
  }

  lemma {:induction false} BadName(name: ByteString)
    requires name == "" || |name| > MAX_NAME
    ensures SymbolicSegment(TextBytes(name)).Err?
  {
  }

  /** Different part lists never share an encoding. */
  lemma {:induction false} EncodeInjective(xs: seq<Part>, ys: seq<Part>)
    requires Encode(xs).Ok? && Encode(xs) == Encode(ys)
    ensures xs == ys
  {
    DecodeInvertsEncode(xs);
    DecodeInvertsEncode(ys);
  }

  /** Any tag splits into names without separators, none of them empty. */
  lemma {:induction false} SplitIsValid(tag: ByteString, i: nat, current: ByteString)
    requires current != "" ==> ValidName(current)
    ensures ValidParts(SplitFrom(tag, i, current))
    decreases |tag| - i
  {
    if i < |tag| {
      var step := StepAt(tag, i, current);
      SplitIsValid(tag, step.next, step.current);
    }
  }

  /** The builder's Symbol call: splits the tag and appends each part, stopping at the first error. */
  method Symbol(tag: ByteString) returns (r: Result<seq<Byte>, SymbolError>)
    ensures r == Encode(SplitFrom(tag, 0, ""))
    ensures r.Ok? <==> Encodable(SplitFrom(tag, 0, ""))
    ensures r.Ok? ==> |r.value| % 2 == 0 && Decode(r.value) == Some(SplitFrom(tag, 0, ""))
  {
    hide SplitFrom, EncodePart, Decode, Encodable;
    var parts := SplitTagPath(tag);
    DecodeInvertsEncode(parts);
    var path: seq<Byte> := [];
    FrontNothing(Encode(parts));
    assert parts[0..] == parts;
    for k := 0 to |parts|
      invariant Encode(parts) == Front(path, Encode(parts[k..]))
    {
      assert parts[k..][0] == parts[k] && parts[k..][1..] == parts[k + 1..];
      var segment := EncodePart(parts[k]);
      if segment.Err? {
        return Err(segment.error);
      }
      FrontMore(path, segment.value, Encode(parts[k + 1..]));
      path := path + segment.value;
    }
    assert path + [] == path;
    r := Ok(path);
  }

  function Front(path: seq<Byte>, r: Result<seq<Byte>, SymbolError>): Result<seq<Byte>, SymbolError> {
    match r
    case Err(e) => Err(e)
    case Ok(rest) => Ok(path + rest)
  }

  lemma {:induction false} FrontNothing(r: Result<seq<Byte>, SymbolError>)
    ensures Front([], r) == r
  {
    if r.Ok? {
      assert [] + r.value == r.value;
    }
  }

  lemma {:induction false} FrontMore(path: seq<Byte>, segment: seq<Byte>, r: Result<seq<Byte>, SymbolError>)
    ensures Front(path, Front(segment, r)) == Front(path + segment, r)
  {
    if r.Ok? {
      assert path + (segment + r.value) == (path + segment) + r.value;
    }
  }
}
