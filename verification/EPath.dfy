/**
  Padded EPATHs (CIP Volume 1, Appendix C): the fluent builder for logical
  segments, and the server's parser, which is its inverse.
 */
module EPath {
  import opened Bytes

  datatype PathError =
    | Truncated
    | ReservedFormat
    | UnsupportedLogicalType(kind: Byte)
    | UnsupportedSymbolic(segment: Byte)
    | UnsupportedSegment(kind: Byte)

  // Segment types, the top three bits of a segment's first byte.
  const PORT: Byte := 0
  const LOGICAL: Byte := 1
  const SYMBOLIC: Byte := 3

  // Logical types.
  const CLASS_ID: Byte := 0
  const INSTANCE_ID: Byte := 1
  const MEMBER_ID: Byte := 2
  const CONNECTION_POINT: Byte := 3
  const ATTRIBUTE_ID: Byte := 4

  function SegmentType(b: Byte): (t: Byte)
    ensures t < 8
  {
    b / 0x20
  }

  function LogicalType(b: Byte): (t: Byte)
    ensures t < 8
  {
    b / 4 % 8
  }

  // ---------------------------------------------------------------- builder

  datatype Call =
    | Class(id: Byte)
    | Instance(id: Byte)
    | Instance16(id16: U16)
    | Instance32(id32: U32)
    | Attribute(id: Byte)

  /** Logical type a call encodes. */
  function Kind(c: Call): Byte {
    match c
    case Class(_) => CLASS_ID
    case Attribute(_) => ATTRIBUTE_ID
    case _ => INSTANCE_ID
  }

  function IdOf(c: Call): U32 {
    match c
    case Instance16(id) => id
    case Instance32(id) => id
    case Class(id) => id
    case Instance(id) => id
    case Attribute(id) => id
  }

  /** First byte of a logical segment: type, logical type, and format 0, 1 or 2 for 8, 16 or 32 bits. */
  function LogicalHeader(kind: Byte, format: Byte): Byte
    requires kind < 8 && format < 4
  {
    0x20 * LOGICAL + 4 * kind + format
  }

  /** Format of a segment: 8, 16 or 32 bits. */
  datatype Width = Bits8 | Bits16 | Bits32

  predicate Fits(value: U32, width: Width) {
    match width
    case Bits8 => value < 0x100
    case Bits16 => value < 0x1_0000
    case Bits32 => true
  }

  /** A padded logical segment: a pad byte precedes 16- and 32-bit values. */
  function Encoded(kind: Byte, width: Width, value: U32): (s: seq<Byte>)
    requires kind < 8 && Fits(value, width)
    ensures |s| % 2 == 0 && |s| > 0
  {
    match width
    case Bits8 => [LogicalHeader(kind, 0), value]
    case Bits16 => [LogicalHeader(kind, 1), 0] + Le16(value)
    case Bits32 => [LogicalHeader(kind, 2), 0] + Le32(value)
  }

  function WidthOf(c: Call): Width {
    match c
    case Instance16(_) => Bits16
    case Instance32(_) => Bits32
    case _ => Bits8
  }

  /** The bytes one call appends. */
  function Segment(c: Call): (s: seq<Byte>)
    ensures |s| % 2 == 0 && |s| > 0
  {
    Encoded(Kind(c), WidthOf(c), IdOf(c))
  }

  function Built(calls: seq<Call>): (s: seq<Byte>)
    ensures |s| % 2 == 0
  {
    if calls == [] then [] else Segment(calls[0]) + Built(calls[1..])
  }

  function PadToWord(s: seq<Byte>): seq<Byte> {
    if |s| % 2 != 0 then s + [0] else s
  }

  function WordLen(path: seq<Byte>): Byte {
    |path| / 2 % 0x100
  }

  lemma {:induction false} BuiltAppend(calls: seq<Call>, c: Call)
    ensures Built(calls + [c]) == Built(calls) + Segment(c)
  {
    if calls == [] {
      assert [c][1..] == [];
    } else {
      assert (calls + [c])[1..] == calls[1..] + [c];
      BuiltAppend(calls[1..], c);
    }
  }

  class PathBuilder {
    var epath: seq<Byte>
    ghost var calls: seq<Call>

    constructor ()
      ensures calls == [] && Valid()
    {
      epath, calls := [], [];
    }

    ghost predicate Valid()
      reads this
    {
      epath == Built(calls)
    }

    method Add(c: Call)
      requires Valid()
      modifies this
      ensures Valid() && calls == old(calls) + [c]
    {
      epath := epath + Segment(c);
      BuiltAppend(calls, c);
      calls := calls + [c];
    }

    /** A padded copy; logical segments alone never need the pad. */
    method Build() returns (out: seq<Byte>)
      requires Valid()
      ensures out == Built(calls)
    {
      out := PadToWord(epath);
    }
  }

  /** The word count byte tells the length exactly up to 510 bytes. */
  lemma {:induction false} WordLenExact(calls: seq<Call>)
    ensures 2 * WordLen(Built(calls)) as int == |Built(calls)| <==> |Built(calls)| <= 510
  {
    var n := |Built(calls)| / 2;
    assert |Built(calls)| == 2 * n;
  }

  // ---------------------------------------------------------------- logical segments

  datatype LogicalSegment = LogicalSegment(kind: Byte, value: U32, rest: seq<Byte>)

  /** Reads the logical segment `s` starts with. */
  function TakeLogical(s: seq<Byte>): (r: Result<LogicalSegment, PathError>)
    requires s != []
    ensures r.Ok? ==> |r.value.rest| < |s|
  {
    var kind := LogicalType(s[0]);
    match s[0] % 4
    case 0 => if |s| < 2 then Err(Truncated) else Ok(LogicalSegment(kind, s[1], s[2..]))
    case 1 => if |s| < 4 then Err(Truncated) else Ok(LogicalSegment(kind, GetLe16(s, 2), s[4..]))
    case 2 => if |s| < 6 then Err(Truncated) else Ok(LogicalSegment(kind, GetLe32(s, 2), s[6..]))
    case _ => Err(ReservedFormat)
  }

  lemma {:induction false} HeaderFields(kind: Byte, format: Byte)
    requires kind < 8 && format < 4
    ensures SegmentType(LogicalHeader(kind, format)) == LOGICAL
    ensures LogicalType(LogicalHeader(kind, format)) == kind
    ensures LogicalHeader(kind, format) % 4 == format
  {
  }

  lemma {:induction false} TakeInvertsEncoded(kind: Byte, width: Width, value: U32, rest: seq<Byte>)
    requires kind < 8 && Fits(value, width)
    ensures TakeLogical(Encoded(kind, width, value) + rest) == Ok(LogicalSegment(kind, value, rest))
    ensures SegmentType((Encoded(kind, width, value) + rest)[0]) == LOGICAL
  {
    var s := Encoded(kind, width, value) + rest;
    assert s[|Encoded(kind, width, value)|..] == rest;
    match width
    case Bits8 =>
      HeaderFields(kind, 0);
    case Bits16 =>
      HeaderFields(kind, 1);
      assert s[2..4] == Le16(value);
      Le16RoundTrip(s, 2, value);
    case Bits32 =>
      HeaderFields(kind, 2);
      assert s[2..6] == Le32(value);
      Le32RoundTrip(s, 2, value);
  }

  lemma {:induction false} TakeInvertsSegment(c: Call, rest: seq<Byte>)
    ensures TakeLogical(Segment(c) + rest) == Ok(LogicalSegment(Kind(c), IdOf(c), rest))
    ensures SegmentType((Segment(c) + rest)[0]) == LOGICAL
  {
    TakeInvertsEncoded(Kind(c), WidthOf(c), IdOf(c), rest);
  }

  // ---------------------------------------------------------------- parser

  datatype ParsedPath = ParsedPath(class_: Option<U32>, instance: Option<U32>, attribute: Option<U32>,
                                   connectionPoint: Option<U32>, member: Option<U32>, symbolic: Option<seq<Byte>>,
                                   leftover: seq<Byte>)

  const NOTHING := ParsedPath(None, None, None, None, None, None, [])

  function Record(p: ParsedPath, kind: Byte, value: U32): Result<ParsedPath, PathError> {
    match kind
    case 0 => Ok(p.(class_ := Some(value)))
    case 1 => Ok(p.(instance := Some(value)))
    case 2 => Ok(p.(member := Some(value)))
    case 3 => Ok(p.(connectionPoint := Some(value)))
    case 4 => Ok(p.(attribute := Some(value)))
    case _ => Err(UnsupportedLogicalType(kind))
  }

  /**
    Parsing the rest of a path. The symbolic branch asks for 0x91, but the
    type bits of 0x91 are 4, so that byte never reaches the branch.
   */
  function ParseFrom(s: seq<Byte>, p: ParsedPath): Result<ParsedPath, PathError>
    decreases |s|
  {
    if s == [] then Ok(p)
    else if SegmentType(s[0]) == LOGICAL then
      match TakeLogical(s)
      case Err(e) => Err(e)
      case Ok(seg) =>
        match Record(p, seg.kind, seg.value)
        case Err(e) => Err(e)
        case Ok(q) => ParseFrom(seg.rest, q)
    else if SegmentType(s[0]) == SYMBOLIC then Err(UnsupportedSymbolic(s[0]))
    else if SegmentType(s[0]) == PORT then Ok(p.(leftover := s))
    else Err(UnsupportedSegment(SegmentType(s[0])))
  }

  method ParsePath(path: seq<Byte>) returns (r: Result<ParsedPath, PathError>)
    ensures r == ParseFrom(path, NOTHING)
  {
    var p := NOTHING;
    var i := 0;
    while i < |path|
      invariant 0 <= i <= |path|
      invariant ParseFrom(path, NOTHING) == ParseFrom(path[i..], p)
    {
      var kind := SegmentType(path[i]);
      assert path[i..][0] == path[i];
      if kind == LOGICAL {
        var seg := TakeLogical(path[i..]);
        if seg.Err? {
          return Err(seg.error);
        }
        var q := Record(p, seg.value.kind, seg.value.value);
        if q.Err? {
          return Err(q.error);
        }
        RestIsSuffix(path[i..]);
        p := q.value;
        assert path[i..][|path| - i - |seg.value.rest|..] == path[|path| - |seg.value.rest|..];
        i := |path| - |seg.value.rest|;
      } else if kind == SYMBOLIC {
        return Err(UnsupportedSymbolic(path[i]));
      } else if kind == PORT {
        return Ok(p.(leftover := path[i..]));
      } else {
        return Err(UnsupportedSegment(kind));
      }
    }
    r := Ok(p);
  }

  lemma {:induction false} RestIsSuffix(s: seq<Byte>)
    requires s != [] && TakeLogical(s).Ok?
    ensures TakeLogical(s).value.rest == s[|s| - |TakeLogical(s).value.rest|..]
  {
  }

  // ---------------------------------------------------------------- the parser inverts the builder

  /** The value the last call of a kind gave, if there was one. */
  function Last(calls: seq<Call>, kind: Byte): Option<U32> {
    if calls == [] then None
    else if Kind(calls[|calls| - 1]) == kind then Some(IdOf(calls[|calls| - 1]))
    else Last(calls[..|calls| - 1], kind)
  }

  function Over(later: Option<U32>, earlier: Option<U32>): Option<U32> {
    if later.Some? then later else earlier
  }

  lemma {:induction false} LastFromFront(calls: seq<Call>, kind: Byte)
    requires calls != []
    ensures Last(calls, kind) ==
            Over(Last(calls[1..], kind), if Kind(calls[0]) == kind then Some(IdOf(calls[0])) else None)
  {
    var last := calls[|calls| - 1];
    if |calls| > 1 {
      assert calls[1..][|calls| - 2] == last;
      assert calls[1..][..|calls| - 2] == calls[..|calls| - 1][1..];
      if Kind(last) != kind {
        LastFromFront(calls[..|calls| - 1], kind);
      }
    }
  }

  /** Nothing follows the logical segments but a route. */
  predicate StartsRoute(tail: seq<Byte>) {
    tail == [] || SegmentType(tail[0]) == PORT
  }

  lemma {:induction false} ParseBuilt(calls: seq<Call>, tail: seq<Byte>, p: ParsedPath)
    requires StartsRoute(tail) && p.leftover == []
    ensures ParseFrom(Built(calls) + tail, p) ==
            Ok(p.(class_ := Over(Last(calls, CLASS_ID), p.class_),
                  instance := Over(Last(calls, INSTANCE_ID), p.instance),
                  attribute := Over(Last(calls, ATTRIBUTE_ID), p.attribute),
                  leftover := tail))
  {
    if calls == [] {
      assert Built(calls) + tail == tail;
    } else {
      var rest := Built(calls[1..]) + tail;
      assert Built(calls) + tail == Segment(calls[0]) + rest;
      TakeInvertsSegment(calls[0], rest);
      var q := Record(p, Kind(calls[0]), IdOf(calls[0])).value;
      ParseBuilt(calls[1..], tail, q);
      LastFromFront(calls, CLASS_ID);
      LastFromFront(calls, INSTANCE_ID);
      LastFromFront(calls, ATTRIBUTE_ID);
    }
  }

  /** Any sequence of builder calls parses to the last value of each field, and a route after it is left over whole. */
  lemma {:induction false} ParseInvertsBuilder(calls: seq<Call>, route: seq<Byte>)
    requires StartsRoute(route)
    ensures ParseFrom(Built(calls) + route, NOTHING) ==
            Ok(NOTHING.(class_ := Last(calls, CLASS_ID), instance := Last(calls, INSTANCE_ID),
                        attribute := Last(calls, ATTRIBUTE_ID), leftover := route))
  {
    ParseBuilt(calls, route, NOTHING);
  }

  /** No path the parser accepts has a symbolic segment in front of its route. */
  lemma {:induction false} SymbolicRejected(calls: seq<Call>, rest: seq<Byte>, p: ParsedPath)
    ensures ParseFrom(Built(calls) + ([0x91] + rest), p) == Err(UnsupportedSegment(4))
  {
    if calls == [] {
      assert Built(calls) + ([0x91] + rest) == [0x91] + rest;
    } else {
      var tail := Built(calls[1..]) + ([0x91] + rest);
      assert Built(calls) + ([0x91] + rest) == Segment(calls[0]) + tail;
      TakeInvertsSegment(calls[0], tail);
      SymbolicRejected(calls[1..], rest, Record(p, Kind(calls[0]), IdOf(calls[0])).value);
    }
  }

  lemma {:induction false} NeverSymbolic(s: seq<Byte>, p: ParsedPath)
    requires p.symbolic == None && ParseFrom(s, p).Ok?
    ensures ParseFrom(s, p).value.symbolic == None
    decreases |s|
  {
    if s != [] && SegmentType(s[0]) == LOGICAL {
      var seg := TakeLogical(s).value;
      NeverSymbolic(seg.rest, Record(p, seg.kind, seg.value).value);
    }
  }
}
