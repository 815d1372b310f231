/**
  PCCC typed reads over CIP: the command layout with its compact fields, the
  controller's reply, and the parser that strips routing wrappers off it.
 */
module PcccCommand {
  import opened Bytes

  const EXECUTE_PCCC: Byte := 0x4B
  const EXECUTE_PCCC_REPLY: Byte := 0xCB
  const UNCONNECTED_SEND_REPLY: Byte := 0xD2
  const CMD_TYPED: Byte := 0x0F
  const CMD_TYPED_REPLY: Byte := 0x4F
  const FNC_READ: Byte := 0xA2
  const REQUESTER_ID_LENGTH: Byte := 7

  /** Path to class 0x67, instance 1. */
  const PCCC_OBJECT: seq<Byte> := [0x20, 0x67, 0x24, 0x01]

  /** A parsed data table address; `bit` is negative for a whole element. */
  datatype Address = Address(fileType: Byte, fileNumber: U16, element: U16, sub: U16, bit: int)

  datatype Error =
    | LinkDown
    | Rejected
    | CipTooShort
    | UnconnectedSend(status: Byte)
    | NoEmbeddedData
    | UnexpectedReply(service: Byte)
    | CipStatus(status: Byte, extended: Option<U16>)
    | NoPayload
    | NoRequesterId
    | RequesterIdTruncated
    | PcccTooShort
    | UnexpectedCommand(command: Byte)
    | PcccStatus(sts: Byte, extSts: Byte)
    | InvalidAddress

  // ---------------------------------------------------------------- compact values

  /** Values below 255 take one byte, the others a marker and two bytes. */
  function Compact(v: U16): (s: seq<Byte>)
    ensures |s| == 1 || |s| == 3
  {
    if v < 0xFF then [v] else [0xFF] + Le16(v)
  }

  datatype Taken = Taken(value: U16, rest: seq<Byte>)

  /** The controller's side of `Compact`. */
  function TakeCompact(s: seq<Byte>): Option<Taken> {
    if |s| >= 1 && s[0] < 0xFF then Some(Taken(s[0], s[1..]))
    else if |s| >= 3 then Some(Taken(GetLe16(s, 1), s[3..]))
    else None
  }

  /** The encoding is self-delimiting: whatever follows, the value and the rest come apart again. */
  lemma {:induction false} TakeInvertsCompact(v: U16, rest: seq<Byte>)
    ensures TakeCompact(Compact(v) + rest) == Some(Taken(v, rest))
  {
    var s := Compact(v) + rest;
    if v < 0xFF {
      assert s[1..] == rest;
    } else {
      assert s[1..3] == Le16(v);
      Le16RoundTrip(s, 1, v);
      assert s[3..] == rest;
    }
  }

  // ---------------------------------------------------------------- read command

  datatype ReadCommand = ReadCommand(tns: U16, byteCount: U16, fileNumber: U16, fileType: Byte, element: U16, sub: U16)

  /** The address and size fields of a typed read. */
  function Fields(c: ReadCommand): seq<Byte> {
    Compact(c.byteCount) + (Compact(c.fileNumber) + ([c.fileType] + (Compact(c.element) + Compact(c.sub))))
  }

  function Header(tns: U16): seq<Byte> {
    [CMD_TYPED, 0] + Le16(tns) + [FNC_READ]
  }

  function CommandFor(addr: Address, byteCount: nat, tns: U16): ReadCommand {
    ReadCommand(tns, ToU16(byteCount), addr.fileNumber, addr.fileType, addr.element, addr.sub)
  }

  /** Vendor and serial number of the requester. */
  datatype Requester = Requester(vendor: U16, serial: U32)

  function RequesterId(id: Requester): (s: seq<Byte>)
    ensures |s| == 7
  {
    [REQUESTER_ID_LENGTH] + Le16(id.vendor) + Le32(id.serial)
  }

  /** A typed read wrapped in the Execute PCCC service. */
  function BuildReadRequest(c: ReadCommand, id: Requester): seq<Byte> {
    [EXECUTE_PCCC, |PCCC_OBJECT| as int / 2] + PCCC_OBJECT + RequesterId(id) + (Header(c.tns) + Fields(c))
  }

  function DecodeFields(tns: U16, s: seq<Byte>): Option<ReadCommand> {
    match TakeCompact(s)
    case None => None
    case Some(byteCount) =>
      match TakeCompact(byteCount.rest)
      case None => None
      case Some(fileNumber) =>
        if fileNumber.rest == [] then None else
          match TakeCompact(fileNumber.rest[1..])
          case None => None
          case Some(element) =>
            match TakeCompact(element.rest)
            case None => None
            case Some(sub) =>
              if sub.rest != [] then None
              else Some(ReadCommand(tns, byteCount.value, fileNumber.value, fileNumber.rest[0], element.value, sub.value))
  }

  lemma {:induction false} DecodeInvertsFields(c: ReadCommand)
    ensures DecodeFields(c.tns, Fields(c)) == Some(c)
  {
    var afterElement := Compact(c.sub);
    var afterType := Compact(c.element) + afterElement;
    var afterNumber := [c.fileType] + afterType;
    TakeInvertsCompact(c.byteCount, Compact(c.fileNumber) + afterNumber);
    TakeInvertsCompact(c.fileNumber, afterNumber);
    assert afterNumber[1..] == afterType;
    TakeInvertsCompact(c.element, afterElement);
    assert afterElement == Compact(c.sub) + [];
    TakeInvertsCompact(c.sub, []);
  }

  /** A request the controller understood: the command, and the requester id it echoes. */
  datatype Understood = Understood(id: seq<Byte>, command: ReadCommand)

  function DecodeRequest(s: seq<Byte>): Option<Understood> {
    if |s| < 18 || s[0] != EXECUTE_PCCC || s[1] != 2 || s[2..6] != PCCC_OBJECT || s[6] != REQUESTER_ID_LENGTH
       || s[13..15] != [CMD_TYPED, 0] || s[17] != FNC_READ then None
    else
      match DecodeFields(GetLe16(s, 15), s[18..])
      case None => None
      case Some(c) => Some(Understood(s[6..13], c))
  }

  /** The controller reads back exactly the command that was built. */
  lemma {:induction false} DecodeInvertsBuild(c: ReadCommand, id: Requester)
    ensures DecodeRequest(BuildReadRequest(c, id)) == Some(Understood(RequesterId(id), c))
  {
    var s := BuildReadRequest(c, id);
    assert s[2..6] == PCCC_OBJECT;
    assert s[6..13] == RequesterId(id) && s[6] == RequesterId(id)[0];
    assert s[13..18] == Header(c.tns) && s[17] == Header(c.tns)[4];
    assert s[13..15] == s[13..18][0..2] && s[15..17] == s[13..18][2..4];
    assert Header(c.tns)[2..4] == Le16(c.tns);
    Le16RoundTrip(s, 15, c.tns);
    assert s[18..] == Fields(c);
    DecodeInvertsFields(c);
  }

  // ---------------------------------------------------------------- replies

  /** One routing wrapper around a reply: the reserved byte and the additional status words. */
  datatype Hop = Hop(reserved: Byte, extra: seq<Byte>)

  predicate ValidHop(h: Hop) {
    |h.extra| % 2 == 0 && |h.extra| < 0x200
  }

  function Wrap(h: Hop, reply: seq<Byte>): seq<Byte>
    requires ValidHop(h)
  {
    [UNCONNECTED_SEND_REPLY, h.reserved, 0, |h.extra| / 2] + h.extra + reply
  }

  /** A reply as it arrives over a route, outermost hop first. */
  function Wrapped(hops: seq<Hop>, reply: seq<Byte>): seq<Byte>
    requires forall h | h in hops :: ValidHop(h)
  {
    if hops == [] then reply else Wrap(hops[0], Wrapped(hops[1..], reply))
  }

  /** Strip routing wrappers and the Execute PCCC envelope. */
  function ParseExecute(data: seq<Byte>): Result<seq<Byte>, Error> {
    if |data| < 4 then Err(CipTooShort) else
      var service, status := data[0], data[2];
      var start := 4 + 2 * data[3] as int;
      if service == UNCONNECTED_SEND_REPLY then
        if status != 0 then Err(UnconnectedSend(status))
        else if start >= |data| then Err(NoEmbeddedData)
        else ParseExecute(data[start..])
      else if service != EXECUTE_PCCC_REPLY then Err(UnexpectedReply(service))
      else if status != 0 then
        Err(CipStatus(status, if data[3] >= 1 && |data| >= 6 then Some(GetLe16(data, 4)) else None))
      else if start >= |data| then Err(NoPayload)
      else StripRequester(data[start..])
  }

  function StripRequester(payload: seq<Byte>): Result<seq<Byte>, Error> {
    if |payload| < 7 then Err(NoRequesterId)
    else if |payload| < payload[0] as int then Err(RequesterIdTruncated)
    else Ok(payload[payload[0]..])
  }

  function ParseReadReply(data: seq<Byte>): Result<seq<Byte>, Error> {
    if |data| < 4 then Err(PcccTooShort)
    else if data[0] != CMD_TYPED_REPLY then Err(UnexpectedCommand(data[0]))
    else if data[1] != 0 then
      Err(PcccStatus(data[1], if data[1] / 0x10 == 0xF && |data| >= 5 then data[4] else 0))
    else Ok(data[4..])
  }

  function ParseReply(data: seq<Byte>): Result<seq<Byte>, Error> {
    match ParseExecute(data)
    case Err(e) => Err(e)
    case Ok(payload) => ParseReadReply(payload)
  }

  /** However many routers wrapped a reply, it parses as the reply itself. */
  lemma {:induction false} RoutingIsTransparent(hops: seq<Hop>, reply: seq<Byte>)
    requires forall h | h in hops :: ValidHop(h)
    requires reply != []
    ensures Wrapped(hops, reply) != []
    ensures ParseExecute(Wrapped(hops, reply)) == ParseExecute(reply)
  {
    if hops != [] {
      var inner := Wrapped(hops[1..], reply);
      RoutingIsTransparent(hops[1..], reply);
      var s := Wrap(hops[0], inner);
      assert s[4 + |hops[0].extra|..] == inner;
    }
  }

  /** What an accepted reply looks like inside its wrappers: an envelope of even-sized status words, an id, the payload. */
  ghost predicate Envelope(exec: seq<Byte>, payload: seq<Byte>) {
    && |exec| >= 4 && exec[0] == EXECUTE_PCCC_REPLY && exec[2] == 0
    && var start := 4 + 2 * exec[3] as int;
       |exec| >= start + 7 && |exec| >= start + exec[start] as int && payload == exec[start + exec[start] as int..]
  }

  /** Peeling the outermost wrapper off and putting it back. */
  lemma {:induction false} PeelWrap(data: seq<Byte>) returns (hop: Hop)
    requires |data| >= 4 && data[0] == UNCONNECTED_SEND_REPLY && data[2] == 0 && 4 + 2 * data[3] as int < |data|
    ensures ValidHop(hop) && data == Wrap(hop, data[4 + 2 * data[3] as int..])
  {
    var start := 4 + 2 * data[3] as int;
    hop := Hop(data[1], data[4..start]);
    assert data[..4] == [UNCONNECTED_SEND_REPLY, hop.reserved, 0, |hop.extra| / 2];
    assert data == data[..4] + data[4..start] + data[start..];
  }

  /** Nothing else is accepted: a parsed payload came in an envelope inside some number of successful wrappers. */
  lemma {:induction false} AcceptedIsWrapped(data: seq<Byte>) returns (hops: seq<Hop>, exec: seq<Byte>)
    requires ParseExecute(data).Ok?
    ensures forall h | h in hops :: ValidHop(h)
    ensures data == Wrapped(hops, exec) && Envelope(exec, ParseExecute(data).value)
    decreases |data|
  {
    hide Wrap, ValidHop, StripRequester;
    var start := 4 + 2 * data[3] as int;
    if data[0] == UNCONNECTED_SEND_REPLY {
      var hop := PeelWrap(data);
      var inner, last := AcceptedIsWrapped(data[start..]);
      hops, exec := [hop] + inner, last;
      assert hops[0] == hop && hops[1..] == inner;
    } else {
      hops, exec := [], data;
      InEnvelope(data);
    }
  }

  lemma {:induction false} InEnvelope(data: seq<Byte>)
    requires ParseExecute(data).Ok? && data[0] != UNCONNECTED_SEND_REPLY
    ensures Envelope(data, ParseExecute(data).value)
  {
    var start := 4 + 2 * data[3] as int;
    var payload := data[start..];
    assert payload[0] == data[start];
    assert payload[payload[0]..] == data[start + data[start] as int..];
  }

  /** A successful envelope without status words opens to its body. */
  lemma {:induction false} OpenEnvelope(id: Requester, body: seq<Byte>)
    ensures ParseExecute([EXECUTE_PCCC_REPLY, 0, 0, 0] + RequesterId(id) + body) == Ok(body)
  {
    var reply := [EXECUTE_PCCC_REPLY, 0, 0, 0] + RequesterId(id) + body;
    var payload := reply[4..];
    assert payload == RequesterId(id) + body;
    assert payload[0] == REQUESTER_ID_LENGTH && payload[7..] == body;
  }

  // ---------------------------------------------------------------- the controller

  /** Data file contents: file number, file type, byte offset. */
  type Memory = (U16, Byte, nat) -> Byte

  type Failure = b: int | 0 < b < 0x100 witness 1

  /**
    What happens to one exchange: the link drops; the encapsulation layer
    rejects it; a CIP or a PCCC error status; or at most `limit` data bytes.
   */
  datatype Outcome =
    | Lost
    | Refused
    | CipFailure(status: Failure)
    | PcccFailure(sts: Failure, extSts: Byte)
    | Passed(limit: nat)

  function ElementSize(fileType: Byte): (n: nat)
    ensures 2 <= n <= 84
  {
    if fileType in {0x86, 0x87, 0x88} then 6
    else if fileType in {0x8A, 0x91} then 4
    else if fileType == 0x8D then 84
    else if fileType == 0x92 then 50
    else if fileType == 0x93 then 46
    else 2
  }

  function Start(fileType: Byte, element: U16, sub: U16): nat {
    element * ElementSize(fileType) + 2 * sub
  }

  function FileBytes(mem: Memory, fileNumber: U16, fileType: Byte, start: nat, n: nat): (s: seq<Byte>)
    ensures |s| == n
  {
    seq<Byte>(n, k requires 0 <= k => mem(fileNumber, fileType, start + k))
  }

  /** The bytes a typed read names. */
  function Content(mem: Memory, c: ReadCommand): (s: seq<Byte>)
    ensures |s| == c.byteCount
  {
    FileBytes(mem, c.fileNumber, c.fileType, Start(c.fileType, c.element, c.sub), c.byteCount)
  }

  function Prefix(s: seq<Byte>, n: nat): seq<Byte> {
    if n < |s| then s[..n] else s
  }

  function ReplyBody(mem: Memory, outcome: Outcome, c: ReadCommand): seq<Byte>
    requires outcome.PcccFailure? || outcome.Passed?
  {
    if outcome.Passed? then [CMD_TYPED_REPLY, 0] + Le16(c.tns) + Prefix(Content(mem, c), outcome.limit)
    else [CMD_TYPED_REPLY, outcome.sts] + Le16(c.tns) + [outcome.extSts]
  }

  /** The controller's reply bytes, before routing. */
  function Respond(mem: Memory, outcome: Outcome, request: seq<Byte>): seq<Byte>
    requires !outcome.Lost? && !outcome.Refused?
  {
    match DecodeRequest(request)
    case None => [EXECUTE_PCCC_REPLY, 0, 0x08, 0]
    case Some(u) =>
      if outcome.CipFailure? then [EXECUTE_PCCC_REPLY, 0, outcome.status, 0]
      else [EXECUTE_PCCC_REPLY, 0, 0, 0] + u.id + ReplyBody(mem, outcome, u.command)
  }

  /** What one typed read gives the caller. */
  function Answer(mem: Memory, outcome: Outcome, c: ReadCommand): Result<seq<Byte>, Error> {
    match outcome
    case Lost => Err(LinkDown)
    case Refused => Err(Rejected)
    case CipFailure(status) => Err(CipStatus(status, None))
    case PcccFailure(sts, extSts) => Err(PcccStatus(sts, if sts / 0x10 == 0xF then extSts else 0))
    case Passed(limit) => Ok(Prefix(Content(mem, c), limit))
  }

  /** Build, route, answer and parse: the caller gets what the command names, or the failure that occurred. */
  lemma {:induction false} ReadThroughWire(mem: Memory, outcome: Outcome, c: ReadCommand, id: Requester, hops: seq<Hop>)
    requires forall h | h in hops :: ValidHop(h)
    requires !outcome.Lost? && !outcome.Refused?
    ensures ParseReply(Wrapped(hops, Respond(mem, outcome, BuildReadRequest(c, id)))) == Answer(mem, outcome, c)
  {
    hide ParseExecute, DecodeRequest, BuildReadRequest, Wrapped;
    DecodeInvertsBuild(c, id);
    var reply := Respond(mem, outcome, BuildReadRequest(c, id));
    RoutingIsTransparent(hops, reply);
    if outcome.CipFailure? {
      FailedEnvelope(outcome.status);
    } else {
      OpenEnvelope(id, ReplyBody(mem, outcome, c));
      ReplyBodyParses(mem, outcome, c);
    }
  }

  lemma {:induction false} FailedEnvelope(status: Failure)
    ensures ParseExecute([EXECUTE_PCCC_REPLY, 0, status, 0]) == Err(CipStatus(status, None))
  {
  }

  lemma {:induction false} ReplyBodyParses(mem: Memory, outcome: Outcome, c: ReadCommand)
    requires outcome.PcccFailure? || outcome.Passed?
    ensures ParseReadReply(ReplyBody(mem, outcome, c)) == Answer(mem, outcome, c)
  {
    var body := ReplyBody(mem, outcome, c);
    if outcome.Passed? {
      assert body[4..] == Prefix(Content(mem, c), outcome.limit);
    }
  }
}
