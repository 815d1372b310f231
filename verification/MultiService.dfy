/**
  The Multiple Service Packet: several CIP requests in one, found again by a
  table of 16-bit offsets, and the replies laid out the same way.
 */
module MultiService {
  import opened Bytes
  import EPath

  const MAX_REQUESTS: nat := 200

  datatype Request = Request(service: Byte, path: seq<Byte>, data: seq<Byte>)

  datatype BuildError = NoRequests | TooManyRequests

  datatype Response = Response(service: Byte, status: Byte, extStatus: seq<Byte>, data: seq<Byte>)

  /** What an unreadable entry is left as. */
  const BLANK := Response(0, 0, [], [])

  datatype ParseError = TooShort | TableTooShort | OverrunAt(index: nat)

  // ---------------------------------------------------------------- layout

  function RequestBytes(r: Request): seq<Byte> {
    [r.service, EPath.WordLen(r.path)] + r.path + r.data
  }

  function AllBytes(requests: seq<Request>): (bodies: seq<seq<Byte>>)
    ensures |bodies| == |requests|
  {
    seq(|requests|, i requires 0 <= i < |requests| => RequestBytes(requests[i]))
  }

  /** Where body `k` starts, before truncation to 16 bits. */
  function StartOf(bodies: seq<seq<Byte>>, k: nat): nat
    requires k <= |bodies|
  {
    2 + 2 * |bodies| + |Flatten(bodies[..k])|
  }

  function Offsets(bodies: seq<seq<Byte>>): (offsets: seq<U16>)
    ensures |offsets| == |bodies|
  {
    seq<U16>(|bodies|, k requires 0 <= k < |bodies| => ToU16(StartOf(bodies, k)))
  }

  /** Count, offset table, bodies. */
  function Packet(bodies: seq<seq<Byte>>): seq<Byte> {
    Le16(ToU16(|bodies|)) + LeWords(Offsets(bodies)) + Flatten(bodies)
  }

  // ---------------------------------------------------------------- building

  lemma {:induction false} StartStep(bodies: seq<seq<Byte>>, k: nat)
    requires k < |bodies|
    ensures StartOf(bodies, k + 1) == StartOf(bodies, k) + |bodies[k]|
    ensures ToU16(ToU16(StartOf(bodies, k)) as int + ToU16(|bodies[k]|) as int) == ToU16(StartOf(bodies, k + 1))
  {
    TakeOneMore(bodies, k);
    FlattenAppend(bodies[..k], bodies[k]);
  }

  /** Builds the request with a running 16-bit offset. */
  method BuildMultipleServiceRequest(requests: seq<Request>) returns (r: Result<seq<Byte>, BuildError>)
    ensures r == if requests == [] then Err(NoRequests)
                 else if |requests| > MAX_REQUESTS then Err(TooManyRequests)
                 else Ok(Packet(AllBytes(requests)))
  {
    if requests == [] {
      return Err(NoRequests);
    }
    if |requests| > MAX_REQUESTS {
      return Err(TooManyRequests);
    }
    var bodies := AllBytes(requests);
    var offsets := RunningOffsets(bodies);
    var result := Le16(ToU16(|requests|));
    for i := 0 to |offsets|
      invariant result == Le16(ToU16(|requests|)) + LeWords(offsets[..i])
    {
      LeWordsAppend(offsets[..i], offsets[i]);
      TakeOneMore(offsets, i);
      result := result + Le16(offsets[i]);
    }
    assert offsets[..|offsets|] == offsets;
    var services := Concatenate(bodies);
    r := Ok(result + services);
  }

  method RunningOffsets(bodies: seq<seq<Byte>>) returns (offsets: seq<U16>)
    requires 0 < |bodies| <= MAX_REQUESTS
    ensures offsets == Offsets(bodies)
  {
    offsets := [];
    var current: U16 := 2 + 2 * |bodies|;
    for i := 0 to |bodies|
      invariant offsets == Offsets(bodies)[..i]
      invariant current == ToU16(StartOf(bodies, i))
    {
      offsets := offsets + [current];
      StartStep(bodies, i);
      current := ToU16(current as int + ToU16(|bodies[i]|) as int);
    }
  }

  method Concatenate(bodies: seq<seq<Byte>>) returns (all: seq<Byte>)
    ensures all == Flatten(bodies)
  {
    all := [];
    for i := 0 to |bodies|
      invariant all == Flatten(bodies[..i])
    {
      TakeOneMore(bodies, i);
      FlattenAppend(bodies[..i], bodies[i]);
      all := all + bodies[i];
    }
    assert bodies[..|bodies|] == bodies;
  }

  // ---------------------------------------------------------------- cutting

  /** Start of entry `i` by the table. */
  function TableStart(packet: seq<Byte>, i: nat): nat
    requires 4 + 2 * i <= |packet|
  {
    GetLe16(packet, 2 + 2 * i)
  }

  /** End of entry `i` of `n`: the next start, or the end of the packet. */
  function TableEnd(packet: seq<Byte>, n: nat, i: nat): nat
    requires i < n && 2 + 2 * n <= |packet|
  {
    if i < n - 1 then TableStart(packet, i + 1) else |packet|
  }

  /** The bytes between the two, if they delimit any. */
  function Entry(packet: seq<Byte>, n: nat, i: nat): seq<Byte>
    requires i < n && 2 + 2 * n <= |packet|
  {
    var start, end := TableStart(packet, i), TableEnd(packet, n, i);
    if start >= end || end > |packet| then [] else packet[start..end]
  }

  /** The table tells where a body starts exactly when that is below 65536. */
  lemma {:induction false} TableHolds(bodies: seq<seq<Byte>>, k: nat)
    requires k < |bodies|
    ensures 4 + 2 * k <= |Packet(bodies)| && StartOf(bodies, k) <= |Packet(bodies)|
    ensures TableStart(Packet(bodies), k) == StartOf(bodies, k) <==> StartOf(bodies, k) < 0x1_0000
  {
    var packet, table := Packet(bodies), LeWords(Offsets(bodies));
    LeWordsAt(Offsets(bodies), k);
    assert packet[2 + 2 * k] == table[2 * k] && packet[3 + 2 * k] == table[2 * k + 1];
    SplitAt(bodies, k);
    PacketSize(bodies);
  }

  lemma {:induction false} PacketSize(bodies: seq<seq<Byte>>)
    ensures |Packet(bodies)| == StartOf(bodies, |bodies|)
  {
    assert bodies[..|bodies|] == bodies;
  }

  lemma {:induction false} SplitAt(bodies: seq<seq<Byte>>, k: nat)
    requires k <= |bodies|
    ensures Flatten(bodies) == Flatten(bodies[..k]) + Flatten(bodies[k..])
  {
    FlattenConcat(bodies[..k], bodies[k..]);
    assert bodies == bodies[..k] + bodies[k..];
  }

  lemma {:induction false} BodyAt(bodies: seq<seq<Byte>>, k: nat)
    requires k < |bodies|
    ensures StartOf(bodies, k) + |bodies[k]| <= |Packet(bodies)|
    ensures Packet(bodies)[StartOf(bodies, k)..StartOf(bodies, k) + |bodies[k]|] == bodies[k]
  {
    SplitAt(bodies, k);
    assert Flatten(bodies[k..]) == bodies[k] + Flatten(bodies[k..][1..]);
    var header := Le16(ToU16(|bodies|)) + LeWords(Offsets(bodies));
    assert Packet(bodies) == (header + Flatten(bodies[..k])) + (bodies[k] + Flatten(bodies[k..][1..]));
    assert |header + Flatten(bodies[..k])| == StartOf(bodies, k);
  }

  /** The last body starts within 65536 bytes, so every offset in the table is exact. */
  ghost predicate OffsetsFit(bodies: seq<seq<Byte>>) {
    bodies != [] ==> StartOf(bodies, |bodies| - 1) < 0x1_0000
  }

  lemma {:induction false} StartMonotone(bodies: seq<seq<Byte>>, j: nat, k: nat)
    requires j <= k <= |bodies|
    ensures StartOf(bodies, j) <= StartOf(bodies, k)
    decreases k - j
  {
    if j < k {
      StartMonotone(bodies, j, k - 1);
      StartStep(bodies, k - 1);
    }
  }

  /** When the offsets fit, cutting at the table gives each body back. */
  lemma {:induction false} CutGivesBody(bodies: seq<seq<Byte>>, k: nat)
    requires k < |bodies| && OffsetsFit(bodies)
    ensures 2 + 2 * |bodies| <= |Packet(bodies)|
    ensures Entry(Packet(bodies), |bodies|, k) == bodies[k]
  {
    hide Packet, StartOf, TableStart;
    StartMonotone(bodies, k, |bodies| - 1);
    TableHolds(bodies, k);
    BodyAt(bodies, k);
    PacketSize(bodies);
    StartStep(bodies, k);
    StartBounds(bodies);
    if k + 1 < |bodies| {
      StartMonotone(bodies, k + 1, |bodies| - 1);
      TableHolds(bodies, k + 1);
    }
  }

  lemma {:induction false} StartBounds(bodies: seq<seq<Byte>>)
    ensures StartOf(bodies, |bodies|) >= 2 + 2 * |bodies|
  {
  }

  /** Request `i` of a packet is found at entry `i`, byte for byte. */
  lemma {:induction false} RequestsArePositional(requests: seq<Request>, i: nat)
    requires i < |requests| <= MAX_REQUESTS
    requires OffsetsFit(AllBytes(requests))
    ensures Count(Packet(AllBytes(requests))) == |requests|
    ensures 2 + 2 * |requests| <= |Packet(AllBytes(requests))|
    ensures Entry(Packet(AllBytes(requests)), |requests|, i) == RequestBytes(requests[i])
  {
    hide Packet, StartOf, Entry, RequestBytes, OffsetsFit;
    var bodies := AllBytes(requests);
    PacketSize(bodies);
    CutGivesBody(bodies, i);
    PacketCount(bodies);
  }

  // ---------------------------------------------------------------- replies

  /** One reply; status words are only kept when they are all there. */
  function ParseEntry(s: seq<Byte>): Response {
    if |s| < 4 then BLANK else
      var dataStart := 4 + 2 * s[3] as int;
      Response(s[0], s[2], if dataStart > 4 && |s| >= dataStart then s[4..dataStart] else [],
               if dataStart < |s| then s[dataStart..] else [])
  }

  /**
    Entry `i` as the parser delimits it. The data is a slice with `spare` behind
    it in memory: an entry that ends past the data but within the capacity reads
    from there, and only one that ends past the capacity panics.
   */
  datatype Extent = Missing | Overrun | Found(bytes: seq<Byte>)

  function ExtentOf(data: seq<Byte>, spare: seq<Byte>, n: nat, i: nat): Extent
    requires i < n && 2 + 2 * n <= |data|
  {
    var start, end := TableStart(data, i), TableEnd(data, n, i);
    if start >= |data| || start >= end then Missing
    else if end > |data| + |spare| then Overrun
    else Found((data + spare)[start..end])
  }

  function ResponseOf(e: Extent): Response {
    if e.Found? then ParseEntry(e.bytes) else BLANK
  }

  /** The first entry from `i` on that ends past the capacity. */
  function FirstOverrun(data: seq<Byte>, spare: seq<Byte>, n: nat, i: nat): (first: Option<nat>)
    requires i <= n && 2 + 2 * n <= |data|
    ensures first.None? <==> forall k | i <= k < n :: !ExtentOf(data, spare, n, k).Overrun?
    ensures first.Some? ==>
              && i <= first.value < n && ExtentOf(data, spare, n, first.value).Overrun?
              && forall k | i <= k < first.value :: !ExtentOf(data, spare, n, k).Overrun?
    decreases n - i
  {
    if i == n then None
    else if ExtentOf(data, spare, n, i).Overrun? then Some(i)
    else FirstOverrun(data, spare, n, i + 1)
  }

  function Count(data: seq<Byte>): nat {
    if |data| < 2 then 0 else GetLe16(data, 0)
  }

  /** No entry ends past the data: every slice the parser takes stays inside it. */
  ghost predicate InRange(data: seq<Byte>) {
    2 + 2 * Count(data) <= |data| ==>
      forall i | 0 <= i < Count(data) :: !ExtentOf(data, [], Count(data), i).Overrun?
  }

  function Replies(data: seq<Byte>, spare: seq<Byte>): Result<seq<Response>, ParseError> {
    if |data| < 2 then Err(TooShort) else
      var n := GetLe16(data, 0) as nat;
      if n == 0 then Ok([])
      else if |data| < 2 + 2 * n then Err(TableTooShort)
      else
        var first := FirstOverrun(data, spare, n, 0);
        if first.Some? then Err(OverrunAt(first.value))
        else Ok(seq(n, i requires 0 <= i < n => ResponseOf(ExtentOf(data, spare, n, i))))
  }

  /** `OverrunAt` stands for the slice expression that panics. */
  method ParseMultipleServiceResponse(data: seq<Byte>, spare: seq<Byte>) returns (r: Result<seq<Response>, ParseError>)
    ensures r == Replies(data, spare)
  {
    if |data| < 2 {
      return Err(TooShort);
    }
    var n := GetLe16(data, 0) as nat;
    if n == 0 {
      return Ok([]);
    }
    if |data| < 2 + 2 * n {
      return Err(TableTooShort);
    }
    var offsets := ReadOffsets(data, n);
    var responses := new Response[n](_ => BLANK);
    for i := 0 to n
      invariant forall k | 0 <= k < i :: !ExtentOf(data, spare, n, k).Overrun?
      invariant forall k | 0 <= k < i :: responses[k] == ResponseOf(ExtentOf(data, spare, n, k))
      invariant forall k | i <= k < n :: responses[k] == BLANK
    {
      var start: nat := offsets[i];
      var end: nat := if i < n - 1 then offsets[i + 1] as int else |data|;
      assert start == TableStart(data, i) && end == TableEnd(data, n, i);
      if start < |data| && start < end {
        if end > |data| + |spare| {
          assert ExtentOf(data, spare, n, i).Overrun?;
          return Err(OverrunAt(i));
        }
        responses[i] := ParseEntry((data + spare)[start..end]);
      }
    }
    assert responses[..] == Replies(data, spare).value;
    r := Ok(responses[..]);
  }

  /**
    Unless an entry ends past the data, what lies behind it does not matter. If
    one does, the parser panics when nothing lies behind, and otherwise reads on.
   */
  lemma {:induction false} SpareMatters(data: seq<Byte>, spare: seq<Byte>)
    ensures InRange(data) ==> Replies(data, spare) == Replies(data, [])
    ensures !InRange(data) <==> Replies(data, []).Err? && Replies(data, []).error.OverrunAt?
  {
    if 2 + 2 * Count(data) <= |data| && InRange(data) {
      var n := Count(data);
      forall i | 0 <= i < n
        ensures ExtentOf(data, spare, n, i) == ExtentOf(data, [], n, i)
      {
        var start, end := TableStart(data, i), TableEnd(data, n, i);
        assert !ExtentOf(data, [], n, i).Overrun?;
        if start < |data| && start < end {
          assert (data + spare)[start..end] == data[start..end] == (data + [])[start..end];
        }
      }
      if n > 0 {
        assert Replies(data, spare).value == Replies(data, []).value;
      }
    }
  }

  method ReadOffsets(data: seq<Byte>, n: nat) returns (offsets: seq<U16>)
    requires 2 + 2 * n <= |data|
    ensures |offsets| == n && forall k | 0 <= k < n :: offsets[k] as int == TableStart(data, k)
  {
    offsets := [];
    for i := 0 to n
      invariant |offsets| == i && forall k | 0 <= k < i :: offsets[k] as int == TableStart(data, k)
    {
      offsets := offsets + [GetLe16(data, 2 + 2 * i)];
    }
  }

  function ReplyBytes(r: Response): seq<Byte>
    requires WellFormed(r)
  {
    [r.service, 0, r.status, |r.extStatus| / 2] + r.extStatus + r.data
  }

  predicate WellFormed(r: Response) {
    |r.extStatus| % 2 == 0 && |r.extStatus| < 0x200
  }

  function AllReplies(replies: seq<Response>): (bodies: seq<seq<Byte>>)
    requires forall k | 0 <= k < |replies| :: WellFormed(replies[k])
    ensures |bodies| == |replies|
  {
    seq(|replies|, i requires 0 <= i < |replies| => ReplyBytes(replies[i]))
  }

  lemma {:induction false} ParseInvertsReply(r: Response)
    requires WellFormed(r)
    ensures ParseEntry(ReplyBytes(r)) == r && |ReplyBytes(r)| >= 4
  {
    var s := ReplyBytes(r);
    assert s[4..4 + |r.extStatus|] == r.extStatus && s[4 + |r.extStatus|..] == r.data;
  }

  lemma {:induction false} FoundBody(bodies: seq<seq<Byte>>, spare: seq<Byte>, i: nat)
    requires i < |bodies| && OffsetsFit(bodies) && bodies[i] != []
    ensures 2 + 2 * |bodies| <= |Packet(bodies)|
    ensures ExtentOf(Packet(bodies), spare, |bodies|, i) == Found(bodies[i])
  {
    hide Packet, StartOf, TableStart, TableEnd, OffsetsFit;
    CutGivesBody(bodies, i);
    var data, n := Packet(bodies), |bodies|;
    assert Entry(data, n, i) != [];
    var start, end := TableStart(data, i), TableEnd(data, n, i);
    assert (data + spare)[start..end] == data[start..end];
  }

  lemma {:induction false} PacketCount(bodies: seq<seq<Byte>>)
    requires |bodies| < 0x1_0000
    ensures Count(Packet(bodies)) == |bodies|
  {
    assert Packet(bodies)[0..2] == Le16(|bodies|);
    Le16RoundTrip(Packet(bodies), 0, |bodies|);
  }

  /** Well-formed replies laid out in a packet parse to themselves, in order, whatever lies behind it. */
  lemma {:induction false} RepliesArePositional(replies: seq<Response>, spare: seq<Byte>)
    requires forall k | 0 <= k < |replies| :: WellFormed(replies[k])
    requires |replies| < 0x1_0000 && OffsetsFit(AllReplies(replies))
    ensures InRange(Packet(AllReplies(replies)))
    ensures Replies(Packet(AllReplies(replies)), spare) == Ok(replies)
  {
    hide Packet, StartOf, ExtentOf, ReplyBytes, ParseEntry, WellFormed, OffsetsFit;
    var bodies, n := AllReplies(replies), |replies|;
    var data := Packet(bodies);
    PacketSize(bodies);
    StartBounds(bodies);
    PacketCount(bodies);
    forall i | 0 <= i < n
      ensures ExtentOf(data, spare, n, i) == ExtentOf(data, [], n, i) == Found(bodies[i])
      ensures ResponseOf(ExtentOf(data, spare, n, i)) == replies[i]
    {
      ParseInvertsReply(replies[i]);
      FoundBody(bodies, spare, i);
      FoundBody(bodies, [], i);
    }
    if n > 0 {
      assert seq(n, i requires 0 <= i < n => ResponseOf(ExtentOf(data, spare, n, i))) == replies;
    }
  }
}
