/**
  Route strings and port segments: the comma-separated form, the CIP port
  segments it stands for, and the adapter's Forward_Open path parser, which
  skips a route in front of the path proper.
 */
module Routes {
  import opened Bytes
  import opened EPath
  import opened Text

  /** One hop of a route: a numeric link address, or text such as an IP address. */
  datatype Hop = Numeric(port: Byte, address: Byte) | Dotted(port: Byte, text: string)

  /** Text that can stand between commas as it is. */
  predicate ValidText(text: string) {
    '.' in text && ',' !in text && Trimmed(text) && IsBytes(text)
  }

  predicate ValidHop(h: Hop) {
    h.port < 16 && (h.Dotted? ==> ValidText(h.text) && |h.text| < 0x100)
  }

  ghost predicate ValidRoute(hops: seq<Hop>) {
    forall k | 0 <= k < |hops| :: ValidHop(hops[k])
  }

  datatype RouteError = UnpairedTokens(count: nat) | InvalidPort(token: string) | InvalidAddress(token: string)

  // ---------------------------------------------------------------- meaning of a route

  /** The port segment of a hop, padded to a whole word. */
  function PortSegment(h: Hop): (s: seq<Byte>)
    requires ValidHop(h)
    ensures |s| > 0 && |s| % 2 == 0
  {
    match h
    case Numeric(port, address) => [port, address]
    case Dotted(port, text) => PadToWord([port + 0x10, |text|] + TextBytes(text))
  }

  function RouteBytes(hops: seq<Hop>): seq<Byte>
    requires ValidRoute(hops)
  {
    if hops == [] then [] else PortSegment(hops[0]) + RouteBytes(hops[1..])
  }

  function AddressText(h: Hop): string {
    match h
    case Numeric(_, address) => Decimal(address)
    case Dotted(_, text) => text
  }

  function Tokens(hops: seq<Hop>): (tokens: seq<string>)
    ensures |tokens| == 2 * |hops|
  {
    if hops == [] then [] else [Decimal(hops[0].port), AddressText(hops[0])] + Tokens(hops[1..])
  }

  function RouteText(hops: seq<Hop>): string {
    Join(Tokens(hops), ',')
  }

  // ---------------------------------------------------------------- parsing the string

  /** The segment a port and an address token stand for; the length byte of a long address wraps. */
  function ParsePair(portToken: string, addressToken: string): Result<seq<Byte>, RouteError> {
    var port := Atoi(portToken);
    if port.None? || port.value < 0 || port.value > 15 then Err(InvalidPort(portToken))
    else if '.' in addressToken && IsBytes(addressToken) then
      Ok(PadToWord([port.value + 0x10, |addressToken| % 0x100] + TextBytes(addressToken)))
    else
      var address := Atoi(addressToken);
      if address.None? || address.value < 0 || address.value > 255 then Err(InvalidAddress(addressToken))
      else Ok([port.value, address.value])
  }

  function ParsePairs(tokens: seq<string>): Result<seq<Byte>, RouteError>
    requires |tokens| % 2 == 0
  {
    if tokens == [] then Ok([]) else
      match ParsePair(tokens[0], tokens[1])
      case Err(e) => Err(e)
      case Ok(segment) => Prepended(segment, ParsePairs(tokens[2..]))
  }

  function Prepended(front: seq<Byte>, r: Result<seq<Byte>, RouteError>): Result<seq<Byte>, RouteError> {
    match r
    case Err(e) => Err(e)
    case Ok(rest) => Ok(front + rest)
  }

  lemma {:induction false} PrependTwice(a: seq<Byte>, b: seq<Byte>, r: Result<seq<Byte>, RouteError>)
    ensures Prepended(a, Prepended(b, r)) == Prepended(a + b, r)
    ensures Prepended([], r) == r
  {
    if r.Ok? {
      assert a + (b + r.value) == (a + b) + r.value;
      assert [] + r.value == r.value;
    }
  }

  function TrimAll(tokens: seq<string>): (trimmed: seq<string>)
    ensures |trimmed| == |tokens|
  {
    seq(|tokens|, i requires 0 <= i < |tokens| => TrimSpace(tokens[i]))
  }

  function ParseRoute(path: string): Result<seq<Byte>, RouteError> {
    var trimmed := TrimSpace(path);
    if trimmed == "" then Ok([]) else
      var tokens := TrimAll(Split(trimmed, ','));
      if |tokens| % 2 != 0 then Err(UnpairedTokens(|tokens|)) else ParsePairs(tokens)
  }

  method ParseConnectionPath(path: string) returns (r: Result<seq<Byte>, RouteError>)
    ensures r == ParseRoute(path)
  {
    hide ParsePair, Prepended, TrimSpace, Split;
    var trimmed := TrimSpace(path);
    if trimmed == "" {
      return Ok([]);
    }
    var tokens := TrimAll(Split(trimmed, ','));
    if |tokens| % 2 != 0 {
      return Err(UnpairedTokens(|tokens|));
    }
    var result: seq<Byte> := [];
    var i := 0;
    PrependTwice([], [], ParsePairs(tokens));
    assert tokens[0..] == tokens;
    while i < |tokens|
      invariant 0 <= i <= |tokens| && i % 2 == 0
      invariant ParsePairs(tokens) == Prepended(result, ParsePairs(tokens[i..]))
    {
      var segment := ParsePair(tokens[i], tokens[i + 1]);
      assert tokens[i..][0] == tokens[i] && tokens[i..][1] == tokens[i + 1] && tokens[i..][2..] == tokens[i + 2..];
      if segment.Err? {
        PrependError(result, segment.error);
        return Err(segment.error);
      }
      PrependTwice(result, segment.value, ParsePairs(tokens[i + 2..]));
      result := result + segment.value;
      i := i + 2;
    }
    PrependLast(result);
    r := Ok(result);
  }

  lemma {:induction false} PrependError(front: seq<Byte>, e: RouteError)
    ensures Prepended(front, Err(e)) == Err(e)
  {
  }

  lemma {:induction false} PrependLast(front: seq<Byte>)
    ensures Prepended(front, Ok([])) == Ok(front)
  {
    assert front + [] == front;
  }

  // ---------------------------------------------------------------- formatting the bytes

  datatype Part = Part(tokens: seq<string>, next: nat)

  /** Port and address tokens of the segment at `i`, and where the next one starts; nothing if it is incomplete. */
  function PartAt(data: seq<Byte>, i: nat): (part: Option<Part>)
    ensures part.Some? ==> part.value.next > i
  {
    if i + 2 > |data| then None
    else if data[i] / 0x10 % 2 == 1 then
      var n := data[i + 1] as int;
      if i + 2 + n > |data| then None
      else Some(Part([Decimal(data[i] % 0x10), BytesText(data[i + 2..i + 2 + n])], i + 2 + n + n % 2))
    else Some(Part([Decimal(data[i] % 0x10), Decimal(data[i + 1])], i + 2))
  }

  /** Tokens of the segments from `i` on; an incomplete segment ends the list. */
  function Parts(data: seq<Byte>, i: nat): seq<string>
    decreases |data| + 1 - i
  {
    if i > |data| then [] else
      var part := PartAt(data, i);
      if part.None? then [] else part.value.tokens + Parts(data, part.value.next)
  }

  method FormatConnectionPath(data: seq<Byte>) returns (text: string)
    ensures text == Join(Parts(data, 0), ',')
  {
    hide PartAt;
    var parts: seq<string> := [];
    var i := 0;
    while i < |data|
      invariant 0 <= i && Parts(data, 0) == parts + Parts(data, i)
      decreases |data| - i
    {
      var part := PartAt(data, i);
      if part.None? {
        break;
      }
      parts := parts + part.value.tokens;
      i := part.value.next;
    }
    PartsEnd(data, i);
    assert parts + [] == parts;
    text := Join(parts, ',');
  }

  lemma {:induction false} PartsEnd(data: seq<Byte>, i: nat)
    requires i >= |data| || PartAt(data, i).None?
    ensures Parts(data, i) == []
  {
  }

  // ---------------------------------------------------------------- the two are inverse

  lemma {:induction false} DottedPart(data: seq<Byte>, i: nat, port: Byte, text: string)
    requires port < 16 && IsBytes(text) && i + 2 + |text| <= |data|
    requires data[i] as int == port as int + 0x10 && data[i + 1] as int == |text|
    requires data[i + 2..i + 2 + |text|] == TextBytes(text)
    ensures PartAt(data, i) == Some(Part([Decimal(port), text], i + 2 + |text| + |text| % 2))
  {
    hide Decimal;
    TextRoundTrip(text);
    assert data[i] / 0x10 == 1 && data[i] % 0x10 == port;
  }

  lemma {:induction false} PartAtSegment(front: seq<Byte>, h: Hop, rest: seq<Byte>)
    requires ValidHop(h)
    ensures PartAt(front + PortSegment(h) + rest, |front|) ==
            Some(Part([Decimal(h.port), AddressText(h)], |front| + |PortSegment(h)|))
  {
    hide Decimal, ValidText, PartAt;
    var data, segment := front + PortSegment(h) + rest, PortSegment(h);
    var i := |front|;
    assert data[i..i + |segment|] == segment;
    assert data[i] == segment[0] && data[i + 1] == segment[1];
    if h.Dotted? {
      BytesOfText(h.text);
      assert segment[2..2 + |h.text|] == TextBytes(h.text);
      assert data[i + 2..i + 2 + |h.text|] == segment[2..2 + |h.text|];
      DottedPart(data, i, h.port, h.text);
    } else {
      NumericPart(data, i);
    }
  }

  lemma {:induction false} NumericPart(data: seq<Byte>, i: nat)
    requires i + 2 <= |data| && data[i] < 16
    ensures PartAt(data, i) == Some(Part([Decimal(data[i]), Decimal(data[i + 1])], i + 2))
  {
  }

  lemma {:induction false} BytesOfText(text: string)
    requires ValidText(text)
    ensures IsBytes(text)
  {
  }

  lemma {:induction false} PartsOfRoute(front: seq<Byte>, hops: seq<Hop>)
    requires ValidRoute(hops)
    ensures Parts(front + RouteBytes(hops), |front|) == Tokens(hops)
    decreases |hops|
  {
    hide PartAt, PortSegment, ValidHop, Decimal;
    if hops == [] {
      PartsEnd(front + RouteBytes(hops), |front|);
    } else {
      var segment, rest := PortSegment(hops[0]), RouteBytes(hops[1..]);
      PartAtSegment(front, hops[0], rest);
      PartsOfRoute(front + segment, hops[1..]);
      assert front + RouteBytes(hops) == front + segment + rest;
    }
  }

  /** Formatting a route's bytes gives its text. */
  lemma {:induction false} FormatRoute(hops: seq<Hop>)
    requires ValidRoute(hops)
    ensures Join(Parts(RouteBytes(hops), 0), ',') == RouteText(hops)
  {
    PartsOfRoute([], hops);
    assert [] + RouteBytes(hops) == RouteBytes(hops);
  }

  lemma {:induction false} DigitsArePlain(s: string)
    requires AllDigits(s) && s != ""
    ensures Trimmed(s) && ',' !in s && '.' !in s
  {
    assert IsDigit(s[0]) && IsDigit(s[|s| - 1]);
  }

  lemma {:induction false} ParsePairOfHop(h: Hop)
    requires ValidHop(h)
    ensures ParsePair(Decimal(h.port), AddressText(h)) == Ok(PortSegment(h))
  {
    hide Decimal, Atoi, Trimmed;
    AtoiInvertsDecimal(h.port);
    if h.Numeric? {
      AtoiInvertsDecimal(h.address);
      DigitsArePlain(Decimal(h.address));
    } else {
      assert |h.text| % 0x100 == |h.text|;
    }
  }

  lemma {:induction false} TokensArePlain(hops: seq<Hop>)
    requires ValidRoute(hops)
    ensures forall k | 0 <= k < 2 * |hops| :: Trimmed(Tokens(hops)[k]) && ',' !in Tokens(hops)[k]
  {
    hide Trimmed, Decimal;
    if hops != [] {
      TokensArePlain(hops[1..]);
      DigitsArePlain(Decimal(hops[0].port));
      if hops[0].Numeric? {
        DigitsArePlain(Decimal(hops[0].address));
      }
    }
  }

  lemma {:induction false} ParsePairsOfRoute(hops: seq<Hop>)
    requires ValidRoute(hops)
    ensures ParsePairs(Tokens(hops)) == Ok(RouteBytes(hops))
  {
    hide ParsePair, PortSegment, ValidHop, Decimal;
    if hops != [] {
      ParsePairOfHop(hops[0]);
      ParsePairsOfRoute(hops[1..]);
      assert Tokens(hops)[2..] == Tokens(hops[1..]);
    }
  }

  lemma {:induction false} JoinEnds(parts: seq<string>)
    requires parts != [] && forall k | 0 <= k < |parts| :: Trimmed(parts[k])
    ensures Trimmed(Join(parts, ','))
  {
    if |parts| > 1 {
      JoinEnds(parts[1..]);
    }
  }

  /** Parsing a route's text gives its bytes. */
  lemma {:induction false} ParseRouteText(hops: seq<Hop>)
    requires ValidRoute(hops)
    ensures ParseRoute(RouteText(hops)) == Ok(RouteBytes(hops))
  {
    hide ValidHop, Trimmed, Split, Tokens, RouteBytes, ParsePairs;
    if hops == [] {
      NoHops(hops);
    } else {
      var tokens := Tokens(hops);
      TokensArePlain(hops);
      JoinEnds(tokens);
      TrimmedStays(RouteText(hops));
      SplitInvertsJoin(tokens, ',');
      forall k | 0 <= k < |tokens|
        ensures TrimSpace(tokens[k]) == tokens[k]
      {
        TrimmedStays(tokens[k]);
      }
      assert TrimAll(tokens) == tokens;
      TrimmedNotEmpty(RouteText(hops));
      ParsePairsOfRoute(hops);
    }
  }

  lemma {:induction false} TrimmedNotEmpty(s: string)
    requires Trimmed(s)
    ensures s != ""
  {
  }

  lemma {:induction false} NoHops(hops: seq<Hop>)
    requires hops == []
    ensures ParseRoute(RouteText(hops)) == Ok(RouteBytes(hops))
  {
  }

  /** Both directions: neither loses anything a hop list says. */
  lemma {:induction false} FormatAndParseAreInverse(hops: seq<Hop>)
    requires ValidRoute(hops)
    ensures ParseRoute(Join(Parts(RouteBytes(hops), 0), ',')) == Ok(RouteBytes(hops))
    ensures ParseRoute(RouteText(hops)).Ok?
    ensures Join(Parts(ParseRoute(RouteText(hops)).value, 0), ',') == RouteText(hops)
  {
    hide ValidHop, RouteText, RouteBytes, ParseRoute, Parts, Join;
    FormatRoute(hops);
    ParseRouteText(hops);
  }
}
