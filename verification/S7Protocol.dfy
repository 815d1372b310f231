/**
  S7 read and write PDUs: the request a client builds, the reply layout a
  controller sends, and the reply parser. Error values keep their kind, not
  their text.
 */
module S7Protocol {
  import opened Bytes

  const PROTOCOL_ID: Byte := 0x32
  const MSG_JOB: Byte := 0x01
  const MSG_ACK: Byte := 0x02
  const MSG_ACK_DATA: Byte := 0x03
  const FUNC_READ: Byte := 0x04
  const FUNC_WRITE: Byte := 0x05
  const ITEM_SUCCESS: Byte := 0xFF
  const OCTET_STRING: Byte := 0x09

  const TS_BIT: Byte := 0x01
  const TS_BYTE: Byte := 0x02
  const TS_WORD: Byte := 0x04
  const TS_DWORD: Byte := 0x06
  const TS_REAL: Byte := 0x08

  datatype Error =
    | BadAddress
    | BadSize
    | LinkDown
    | TooShort
    | BadProtocol
    | UnexpectedMessage
    | S7Error(class_: Byte, code: Byte)
    | BadLengths
    | EndOfData
    | ShortHeader
    | Truncated
    | ItemError(code: Byte)
    | EmptyChunk
    | TooManyChunks

  // ---------------------------------------------------------------- replies

  /** The parser's verdict on one item: its bytes or an error, never both. */
  datatype Reply = Got(bytes: seq<Byte>) | Bad(error: Error)

  /** One item as a controller lays it out: a value with its own length code, or a bare return code. */
  datatype Item = Value(transport: Byte, length: U16, bytes: seq<Byte>) | Fault(code: Byte)

  /** Octet strings carry their length in bytes, everything else in bits, rounded up to bytes. */
  ghost predicate WellFormed(item: Item) {
    match item
    case Value(transport, length, bytes) =>
      |bytes| == if transport == OCTET_STRING then length else (length + 7) / 8
    case Fault(code) => code != ITEM_SUCCESS
  }

  /** A value is padded to an even length unless it is the last item. */
  function ItemBytes(item: Item, last: bool): seq<Byte> {
    match item
    case Value(transport, length, bytes) =>
      [ITEM_SUCCESS, transport] + Be16(length) + bytes + (if !last && |bytes| % 2 == 1 then [0] else [])
    case Fault(code) => [code]
  }

  function Layout(items: seq<Item>): seq<Byte> {
    if items == [] then [] else ItemBytes(items[0], |items| == 1) + Layout(items[1..])
  }

  /** An Ack-Data message: twelve header bytes, parameters, then the items. */
  function ReadResponse(pduRef: U16, params: seq<Byte>, data: seq<Byte>): seq<Byte>
    requires |params| < 0x1_0000 && |data| < 0x1_0000
  {
    [PROTOCOL_ID, MSG_ACK_DATA, 0, 0] + Be16(pduRef) + Be16(|params|) + Be16(|data|) + [0, 0] + params + data
  }

  function Verdict(item: Item): Reply {
    match item
    case Value(_, _, bytes) => Got(bytes)
    case Fault(code) => Bad(ItemError(code))
  }

  function Verdicts(items: seq<Item>): (rs: seq<Reply>)
    ensures |rs| == |items|
  {
    seq(|items|, i requires 0 <= i < |items| => Verdict(items[i]))
  }

  // ---------------------------------------------------------------- the parser

  /** Bytes announced by an item header; the bit count is rounded up in 16 bits. */
  function ByteLength(transport: Byte, length: U16): nat {
    if transport == OCTET_STRING then length else ToU16(length + 7) / 8
  }

  /** The rounding is exact unless the bit count is within seven of 65536. */
  lemma {:induction false} ByteLengthExact(transport: Byte, length: U16)
    ensures ByteLength(transport, length) == (if transport == OCTET_STRING then length as int else (length + 7) / 8)
            <==> transport == OCTET_STRING || length <= 0xFFF8
  {
    if length > 0xFFF8 {
      assert ToU16(length + 7) == length + 7 - 0x1_0000 < 8;
    }
  }

  function AllBad(n: nat, e: Error): (rs: seq<Reply>)
    ensures |rs| == n
  {
    seq(n, _ => Bad(e))
  }

  /** One look at the data: stop with an error for all items left, or a verdict and the next position. */
  datatype Step = Stop(error: Error) | One(reply: Reply, next: nat)

  function ReadItem(data: seq<Byte>, pos: nat, last: bool): Step {
    if pos >= |data| then Stop(EndOfData)
    else if data[pos] != ITEM_SUCCESS then One(Bad(ItemError(data[pos])), pos + 1)
    else if pos + 4 > |data| then Stop(ShortHeader)
    else
      var byteLen := ByteLength(data[pos + 1], GetBe16(data, pos + 2));
      var end := pos + 4 + byteLen;
      if end > |data| then Stop(Truncated)
      else One(Got(data[pos + 4..end]), if !last && byteLen % 2 == 1 then end + 1 else end)
  }

  /** Verdicts on items `i .. count` found from position `pos` on. */
  function ParseItems(data: seq<Byte>, pos: nat, i: nat, count: nat): (rs: seq<Reply>)
    requires i <= count
    ensures |rs| == count - i
    decreases count - i
  {
    if i == count then [] else
      match ReadItem(data, pos, i == count - 1)
      case Stop(e) => AllBad(count - i, e)
      case One(reply, next) => [reply] + ParseItems(data, next, i + 1, count)
  }

  /** Where the items start, or the error that condemns them all. */
  function Header(data: seq<Byte>): Result<nat, Error> {
    if |data| < 12 then Err(TooShort)
    else if data[0] != PROTOCOL_ID then Err(BadProtocol)
    else if data[1] != MSG_ACK_DATA then
      Err(if data[1] == MSG_ACK then S7Error(data[10], data[11]) else UnexpectedMessage)
    else if data[10] != 0 || data[11] != 0 then Err(S7Error(data[10], data[11]))
    else
      var dataStart, dataLen := 12 + GetBe16(data, 6), GetBe16(data, 8);
      if dataStart > |data| || dataLen > |data| - dataStart then Err(BadLengths) else Ok(dataStart)
  }

  function Parse(data: seq<Byte>, count: nat): (rs: seq<Reply>)
    ensures |rs| == count
  {
    match Header(data)
    case Err(e) => AllBad(count, e)
    case Ok(dataStart) => ParseItems(data, dataStart, 0, count)
  }

  /** What the two result slots of an item say, as one verdict. */
  predicate AgreesAt(r: Reply, result: Option<seq<Byte>>, error: Option<Error>) {
    match r
    case Got(bytes) => result == Some(bytes) && error == None
    case Bad(e) => result == None && error == Some(e)
  }

  ghost predicate Agrees(rs: seq<Reply>, results: seq<Option<seq<Byte>>>, errors: seq<Option<Error>>) {
    && |results| == |errors| == |rs|
    && forall i | 0 <= i < |rs| :: AgreesAt(rs[i], results[i], errors[i])
  }

  method FailFrom(errors: array<Option<Error>>, i: nat, e: Error)
    requires i <= errors.Length
    modifies errors
    ensures forall j | 0 <= j < errors.Length :: errors[j] == if j < i then old(errors[j]) else Some(e)
  {
    for j := i to errors.Length
      invariant forall k | 0 <= k < errors.Length :: errors[k] == if i <= k < j then Some(e) else old(errors[k])
    {
      errors[j] := Some(e);
    }
  }

  /** On any input every item ends with exactly one of data and error. */
  method ParseReadResponse(data: seq<Byte>, count: nat)
    returns (results: array<Option<seq<Byte>>>, errors: array<Option<Error>>)
    ensures fresh(results) && fresh(errors)
    ensures Agrees(Parse(data, count), results[..], errors[..])
    ensures forall i | 0 <= i < count :: results[i].Some? <==> errors[i].None?
  {
    results := new Option<seq<Byte>>[count](_ => None);
    errors := new Option<Error>[count](_ => None);
    match Header(data) {
      case Err(e) => FailFrom(errors, 0, e);
      case Ok(dataStart) => ParseAllItems(data, dataStart, results, errors);
    }
  }

  lemma {:induction false} NextVerdict(rs: seq<Reply>, i: nat, r: Reply, rest: seq<Reply>)
    requires i < |rs| && rs[i..] == [r] + rest
    ensures rs[i] == r && rs[i + 1..] == rest
  {
    assert rs[i] == rs[i..][0];
    assert rs[i + 1..] == rs[i..][1..];
  }

  lemma {:induction false} RestBad(rs: seq<Reply>, i: nat, e: Error)
    requires i <= |rs| && rs[i..] == AllBad(|rs| - i, e)
    ensures forall j | i <= j < |rs| :: rs[j] == Bad(e)
  {
    forall j | i <= j < |rs|
      ensures rs[j] == Bad(e)
    {
      assert rs[j] == rs[i..][j - i];
    }
  }

  method ParseAllItems(data: seq<Byte>, dataStart: nat, results: array<Option<seq<Byte>>>, errors: array<Option<Error>>)
    requires results.Length == errors.Length
    requires forall i | 0 <= i < results.Length :: results[i] == None && errors[i] == None
    modifies results, errors
    ensures Agrees(ParseItems(data, dataStart, 0, results.Length), results[..], errors[..])
  {
    var count := results.Length;
    var pos := dataStart;
    var i := 0;
    ghost var expected := ParseItems(data, dataStart, 0, count);
    while i < count
      invariant 0 <= i <= count && pos >= 0
      invariant forall j | 0 <= j < i :: AgreesAt(expected[j], results[j], errors[j])
      invariant forall j | i <= j < count :: results[j] == None && errors[j] == None
      invariant ParseItems(data, pos, i, count) == expected[i..]
    {
      match ReadItem(data, pos, i == count - 1) {
        case Stop(e) =>
          RestBad(expected, i, e);
          FailFrom(errors, i, e);
          return;
        case One(reply, next) =>
          NextVerdict(expected, i, reply, ParseItems(data, next, i + 1, count));
          match reply {
            case Got(bytes) => results[i] := Some(bytes);
            case Bad(e) => errors[i] := Some(e);
          }
          pos := next;
      }
      i := i + 1;
    }
  }

  // ---------------------------------------------------------------- the parser inverts the layout

  /** The parser reads every bit count of these items without wrapping. */
  ghost predicate Readable(items: seq<Item>) {
    forall item | item in items ::
      WellFormed(item) && (item.Value? && item.transport != OCTET_STRING ==> item.length <= 0xFFF8)
  }

  /** The header of a value after `pre` is read back. */
  lemma {:induction false} ValueHeader(data: seq<Byte>, pre: seq<Byte>, item: Item, post: seq<Byte>)
    requires item.Value? && data == pre + ItemBytes(item, true) + post
    ensures var pos := |pre|;
            && pos + 4 + |item.bytes| <= |data|
            && data[pos] == ITEM_SUCCESS && data[pos + 1] == item.transport && GetBe16(data, pos + 2) == item.length
            && data[pos + 4..pos + 4 + |item.bytes|] == item.bytes
  {
    var pos := |pre|;
    assert data[pos + 2..pos + 4] == Be16(item.length);
    Be16RoundTrip(data, pos + 2, item.length);
  }

  /** An item after `pre` is read back whole, and the parser goes on behind its padding. */
  lemma {:induction false} HeadItem(data: seq<Byte>, pre: seq<Byte>, item: Item, post: seq<Byte>, last: bool)
    requires Readable([item]) && data == pre + ItemBytes(item, last) + post
    ensures ReadItem(data, |pre|, last) == One(Verdict(item), |pre| + |ItemBytes(item, last)|)
  {
    assert item in [item];
    if item.Value? {
      var pad: seq<Byte> := if !last && |item.bytes| % 2 == 1 then [0] else [];
      assert data == pre + ItemBytes(item, true) + (pad + post);
      ValueHeader(data, pre, item, pad + post);
      ByteLengthExact(item.transport, item.length);
    }
  }

  lemma {:induction false} StepItems(data: seq<Byte>, pos: nat, i: nat, count: nat, reply: Reply, next: nat)
    requires i < count && ReadItem(data, pos, i == count - 1) == One(reply, next)
    ensures ParseItems(data, pos, i, count) == [reply] + ParseItems(data, next, i + 1, count)
  {
  }

  lemma {:induction false} VerdictsStep(items: seq<Item>)
    requires items != []
    ensures Verdicts(items) == [Verdict(items[0])] + Verdicts(items[1..])
  {
  }

  lemma {:induction false} Regroup(pre: seq<Byte>, head: seq<Byte>, rest: seq<Byte>, post: seq<Byte>)
    ensures pre + (head + rest) + post == pre + head + (rest + post)
    ensures pre + (head + rest) + post == (pre + head) + rest + post
  {
  }

  lemma {:induction false} ParseLayout(data: seq<Byte>, pre: seq<Byte>, items: seq<Item>, post: seq<Byte>,
                                       pos: nat, i: nat, count: nat)
    requires i + |items| == count && pos == |pre| && Readable(items) && data == pre + Layout(items) + post
    ensures ParseItems(data, pos, i, count) == Verdicts(items)
    decreases |items|
  {
    if items != [] {
      var item, rest := items[0], items[1..];
      var head := ItemBytes(item, i == count - 1);
      var next := pos + |head|;
      assert item in items && Readable([item]) && Readable(rest);
      Regroup(pre, head, Layout(rest), post);
      HeadItem(data, pre, item, Layout(rest) + post, i == count - 1);
      StepItems(data, pos, i, count, Verdict(item), next);
      ParseLayout(data, pre + head, rest, post, next, i + 1, count);
      VerdictsStep(items);
    }
  }

  /** The header fields lead the parser to the first item. */
  lemma {:induction false} ParseHeader(pduRef: U16, params: seq<Byte>, data: seq<Byte>, count: nat)
    requires |params| < 0x1_0000 && |data| < 0x1_0000
    ensures var pdu := ReadResponse(pduRef, params, data);
            |pdu| == 12 + |params| + |data| && pdu == pdu[..12 + |params|] + data
            && Parse(pdu, count) == ParseItems(pdu, 12 + |params|, 0, count)
  {
    var pdu := ReadResponse(pduRef, params, data);
    assert pdu[6..8] == Be16(|params|);
    Be16RoundTrip(pdu, 6, |params|);
    assert pdu[8..10] == Be16(|data|);
    Be16RoundTrip(pdu, 8, |data|);
  }

  /**
    Parsing a reply gives back the items it was made of, in order, whatever
    their number, lengths and mixture of values and faults.
   */
  lemma {:induction false} ParseInvertsLayout(pduRef: U16, params: seq<Byte>, items: seq<Item>)
    requires |params| < 0x1_0000 && |Layout(items)| < 0x1_0000 && Readable(items)
    ensures Parse(ReadResponse(pduRef, params, Layout(items)), |items|) == Verdicts(items)
  {
    var pdu := ReadResponse(pduRef, params, Layout(items));
    ParseHeader(pduRef, params, Layout(items), |items|);
    assert pdu == pdu[..12 + |params|] + Layout(items) + [];
    ParseLayout(pdu, pdu[..12 + |params|], items, [], 12 + |params|, 0, |items|);
  }

  /** A wrapped bit count reads as a value of no bytes. */
  lemma {:induction false} WrappedValue(pre: seq<Byte>, item: Item)
    requires item.Value? && item.transport != OCTET_STRING && item.length > 0xFFF8
    ensures ReadItem(pre + ItemBytes(item, true), |pre|, true) == One(Got([]), |pre| + 4)
  {
    var data := pre + ItemBytes(item, true);
    assert data + [] == data;
    ValueHeader(data, pre, item, []);
    assert data[|pre| + 4..|pre| + 4] == [];
    assert ByteLength(item.transport, item.length) == 0;
  }

  /** A single value comes back exactly when its bit count does not wrap while it is rounded up. */
  lemma {:induction false} SingleValueExact(pduRef: U16, params: seq<Byte>, item: Item)
    requires item.Value? && WellFormed(item) && |params| < 0x1_0000 && |Layout([item])| < 0x1_0000
    ensures Parse(ReadResponse(pduRef, params, Layout([item])), 1) == [Got(item.bytes)]
            <==> item.transport == OCTET_STRING || item.length <= 0xFFF8
  {
    if item.transport == OCTET_STRING || item.length <= 0xFFF8 {
      ParseInvertsLayout(pduRef, params, [item]);
      assert |[item]| == 1 && Verdicts([item]) == [Got(item.bytes)];
    } else {
      var pdu := ReadResponse(pduRef, params, Layout([item]));
      var pre := pdu[..12 + |params|];
      ParseHeader(pduRef, params, Layout([item]), 1);
      assert Layout([item]) == ItemBytes(item, true) + Layout([]) == ItemBytes(item, true);
      WrappedValue(pre, item);
      assert Parse(pdu, 1)[0] == Got([]) && |item.bytes| == 0x2000;
      assert Parse(pdu, 1)[0] != [Got(item.bytes)][0];
    }
  }
}
