/**
  The connection path of a Forward_Open: configuration, consume and produce
  assembly instances behind an optional route.
 */
module IOPath {
  import opened Bytes
  import opened EPath
  import Routes

  datatype Endpoints = Endpoints(config: U32, consume: U32, produce: U32)

  datatype IOError =
    | BadSegment(error: PathError)
    | TruncatedPort
    | NotAssembly(value: U32)
    | InstanceBeforeClass
    | NoClass
    | NoPoints
    | TooManyPoints(count: nat)

  /** What the scan has seen so far. */
  datatype Seen = Seen(classSet: bool, instanceSet: bool, config: U32, points: seq<U32>)

  const NONE := Seen(false, false, 0, [])

  const ASSEMBLY_CLASS: U32 := 4

  function Note(seen: Seen, kind: Byte, value: U32): Result<Seen, IOError> {
    match kind
    case 0 => if value != ASSEMBLY_CLASS then Err(NotAssembly(value)) else Ok(seen.(classSet := true))
    case 1 =>
      if !seen.classSet then Err(InstanceBeforeClass)
      else if seen.instanceSet then Ok(seen.(points := seen.points + [value]))
      else Ok(seen.(config := if value == 0x80 then 0 else value, instanceSet := true))
    case 3 => Ok(seen.(points := seen.points + [value]))
    case _ => Err(BadSegment(UnsupportedLogicalType(kind)))
  }

  /** Bytes a port segment takes, pad included. */
  function PortLength(s: seq<Byte>): Option<nat>
    requires s != []
  {
    if |s| < 2 then None
    else if s[0] / 0x10 % 2 == 1 then
      var n := 2 + s[1] as int + s[1] as int % 2;
      if n > |s| then None else Some(n)
    else Some(2)
  }

  function Scan(s: seq<Byte>, seen: Seen): Result<Seen, IOError>
    decreases |s|
  {
    if s == [] then Ok(seen)
    else if SegmentType(s[0]) == PORT then
      match PortLength(s)
      case None => Err(TruncatedPort)
      case Some(n) => Scan(s[n..], seen)
    else if SegmentType(s[0]) == LOGICAL then
      match TakeLogical(s)
      case Err(e) => Err(BadSegment(e))
      case Ok(seg) =>
        match Note(seen, seg.kind, seg.value)
        case Err(e) => Err(e)
        case Ok(next) => Scan(seg.rest, next)
    else Err(BadSegment(UnsupportedSegment(SegmentType(s[0]))))
  }

  /** One connection point produces; two consume and produce. */
  function Conclude(seen: Seen): Result<Endpoints, IOError> {
    if !seen.classSet then Err(NoClass)
    else match |seen.points|
      case 0 => Err(NoPoints)
      case 1 => Ok(Endpoints(seen.config, 0, seen.points[0]))
      case 2 => Ok(Endpoints(seen.config, seen.points[0], seen.points[1]))
      case n => Err(TooManyPoints(n))
  }

  function Parse(path: seq<Byte>): Result<Endpoints, IOError> {
    match Scan(path, NONE)
    case Err(e) => Err(e)
    case Ok(seen) => Conclude(seen)
  }

  method ParseIOConnectionPath(path: seq<Byte>) returns (r: Result<Endpoints, IOError>)
    ensures r == Parse(path)
  {
    hide Note, Conclude, PortLength;
    var seen := NONE;
    var i := 0;
    while i < |path|
      invariant 0 <= i <= |path|
      invariant Scan(path, NONE) == Scan(path[i..], seen)
    {
      var s := path[i..];
      if SegmentType(s[0]) == PORT {
        var n := PortLength(s);
        if n.None? {
          return Err(TruncatedPort);
        }
        PortFits(s);
        assert s[n.value..] == path[i + n.value..];
        i := i + n.value;
      } else if SegmentType(s[0]) == LOGICAL {
        var seg := TakeLogical(s);
        if seg.Err? {
          return Err(BadSegment(seg.error));
        }
        var next := Note(seen, seg.value.kind, seg.value.value);
        if next.Err? {
          return Err(next.error);
        }
        RestIsSuffix(s);
        assert s[|s| - |seg.value.rest|..] == path[|path| - |seg.value.rest|..];
        seen := next.value;
        i := |path| - |seg.value.rest|;
      } else {
        return Err(BadSegment(UnsupportedSegment(SegmentType(s[0]))));
      }
    }
    r := Conclude(seen);
  }

  lemma {:induction false} PortFits(s: seq<Byte>)
    requires s != [] && PortLength(s).Some?
    ensures 0 < PortLength(s).value <= |s|
  {
  }

  // ---------------------------------------------------------------- a route in front changes nothing

  lemma {:induction false} PortHeader(s: seq<Byte>, port: Byte, extended: bool)
    requires port < 16 && |s| >= 2 && s[0] as int == port as int + if extended then 0x10 else 0
    requires extended ==> 2 + s[1] as int + s[1] as int % 2 <= |s|
    ensures SegmentType(s[0]) == PORT
    ensures PortLength(s) == Some(if extended then 2 + s[1] as int + s[1] as int % 2 else 2)
  {
    assert s[0] / 0x10 == if extended then 1 else 0;
  }

  lemma {:induction false} PortSkipped(h: Routes.Hop, rest: seq<Byte>)
    requires Routes.ValidHop(h)
    ensures var s := Routes.PortSegment(h) + rest;
            SegmentType(s[0]) == PORT && PortLength(s) == Some(|Routes.PortSegment(h)|)
  {
    hide Routes.ValidText, PortLength, SegmentType;
    var segment := Routes.PortSegment(h);
    var s := segment + rest;
    assert s[0] == segment[0] && s[1] == segment[1];
    if h.Dotted? {
      assert segment[1] as int == |h.text| && |segment| == 2 + |h.text| + |h.text| % 2;
    }
    PortHeader(s, h.port, h.Dotted?);
  }

  lemma {:induction false} ScanSkipsRoute(hops: seq<Routes.Hop>, path: seq<Byte>, seen: Seen)
    requires Routes.ValidRoute(hops)
    ensures Scan(Routes.RouteBytes(hops) + path, seen) == Scan(path, seen)
    decreases |hops|
  {
    hide Routes.ValidHop, Routes.PortSegment, PortLength;
    if hops == [] {
      assert Routes.RouteBytes(hops) + path == path;
    } else {
      var rest := Routes.RouteBytes(hops[1..]) + path;
      assert Routes.RouteBytes(hops) + path == Routes.PortSegment(hops[0]) + rest;
      PortSkipped(hops[0], rest);
      ScanSkipsRoute(hops[1..], path, seen);
    }
  }

  /** Whatever route precedes it, a path parses as it does alone. */
  lemma {:induction false} RouteIsSkipped(hops: seq<Routes.Hop>, path: seq<Byte>)
    requires Routes.ValidRoute(hops)
    ensures Parse(Routes.RouteBytes(hops) + path) == Parse(path)
  {
    ScanSkipsRoute(hops, path, NONE);
  }

  // ---------------------------------------------------------------- what a path means

  /** A logical segment of the path, in any width that holds its value. */
  datatype Field = Field(kind: Byte, width: Width, value: U32)

  predicate ValidField(f: Field) {
    f.kind < 8 && Fits(f.value, f.width)
  }

  function EncodeField(f: Field): seq<Byte>
    requires ValidField(f)
  {
    Encoded(f.kind, f.width, f.value)
  }

  function Encode(fields: seq<Field>): seq<Byte>
    requires forall k | 0 <= k < |fields| :: ValidField(fields[k])
  {
    if fields == [] then [] else EncodeField(fields[0]) + Encode(fields[1..])
  }

  function ValuesOf(fields: seq<Field>): seq<U32> {
    seq<U32>(|fields|, k requires 0 <= k < |fields| => fields[k].value)
  }

  lemma {:induction false} ScanField(f: Field, rest: seq<Byte>, seen: Seen)
    requires ValidField(f)
    ensures Scan(EncodeField(f) + rest, seen) ==
            match Note(seen, f.kind, f.value) {
              case Err(e) => Err(e)
              case Ok(next) => Scan(rest, next)
            }
  {
    TakeInvertsEncoded(f.kind, f.width, f.value, rest);
  }

  /** Once class and configuration are known, connection points and further instances are collected in order. */
  lemma {:induction false} ScanPoints(points: seq<Field>, seen: Seen)
    requires seen.classSet && seen.instanceSet
    requires forall k | 0 <= k < |points| :: ValidField(points[k]) && points[k].kind in {INSTANCE_ID, CONNECTION_POINT}
    ensures Scan(Encode(points), seen) == Ok(seen.(points := seen.points + ValuesOf(points)))
    decreases |points|
  {
    if points == [] {
      assert seen.points + ValuesOf(points) == seen.points;
    } else {
      var rest := points[1..];
      ScanField(points[0], Encode(rest), seen);
      ScanPoints(rest, seen.(points := seen.points + [points[0].value]));
      assert ValuesOf(points) == [points[0].value] + ValuesOf(rest);
      assert seen.points + [points[0].value] + ValuesOf(rest) == seen.points + ValuesOf(points);
    }
  }

  /**
    Class 4, a configuration instance, and one or two points in any widths and
    spellings, behind any route, parse to those numbers; 0x80 stands for no
    configuration.
   */
  lemma {:induction false} PathMeaning(hops: seq<Routes.Hop>, class_: Field, config: Field, points: seq<Field>)
    requires Routes.ValidRoute(hops)
    requires ValidField(class_) && class_.kind == CLASS_ID && class_.value == ASSEMBLY_CLASS
    requires ValidField(config) && config.kind == INSTANCE_ID
    requires forall k | 0 <= k < |points| :: ValidField(points[k]) && points[k].kind in {INSTANCE_ID, CONNECTION_POINT}
    ensures Parse(Routes.RouteBytes(hops) + (EncodeField(class_) + (EncodeField(config) + Encode(points)))) ==
            var cfg := if config.value == 0x80 then 0 else config.value;
            match |points|
              case 0 => Err(NoPoints)
              case 1 => Ok(Endpoints(cfg, 0, points[0].value))
              case 2 => Ok(Endpoints(cfg, points[0].value, points[1].value))
              case n => Err(TooManyPoints(n))
  {
    hide Routes.RouteBytes, EncodeField, Encode, Scan, ValidField;
    var tail := EncodeField(config) + Encode(points);
    RouteIsSkipped(hops, EncodeField(class_) + tail);
    var s1 := NONE.(classSet := true);
    var s2 := s1.(config := if config.value == 0x80 then 0 else config.value, instanceSet := true);
    ScanField(class_, tail, NONE);
    ScanField(config, Encode(points), s1);
    ScanPoints(points, s2);
    assert s2.points + ValuesOf(points) == ValuesOf(points);
  }
}
