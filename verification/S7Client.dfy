/**
  The S7 client's reads and writes over a link that may lose or shorten
  replies: single requests, chunked transfers, and the batch planner.
 */
module S7Client {
  import opened Bytes
  import opened S7Protocol
  import opened S7Request

  /** What the link does to one request: lose the reply, before or after the controller acted, or pass it. */
  datatype Outcome = Lost(acted: bool) | Served(limit: nat)

  /** Every request from `from` up to `to` was answered in full. */
  ghost predicate Flawless(outcome: nat -> Outcome, from: nat, to: nat) {
    forall k | from <= k < to :: outcome(k).Served? && outcome(k).limit >= 0x1_0000
  }

  /** The controller, what the link does to each request, and the PDU size the client works with. */
  datatype Link = Link(store: Store, policy: Policy, outcome: nat -> Outcome, pduSize: U16)

  class Transport {
    const pduSize: U16
    const policy: Policy
    const outcome: nat -> Outcome
    var store: Store
    var log: seq<seq<Byte>>

    ghost function View(): Link
      reads this
    {
      Link(store, policy, outcome, pduSize)
    }

    constructor (pduSize: U16, policy: Policy, outcome: nat -> Outcome, store: Store)
      ensures this.pduSize == pduSize && this.policy == policy && this.outcome == outcome
      ensures this.store == store && log == []
    {
      this.pduSize, this.policy, this.outcome, this.store, log := pduSize, policy, outcome, store, [];
    }

    method SendReceive(request: seq<Byte>) returns (r: Result<seq<Byte>, Error>)
      modifies this
      ensures log == old(log) + [request]
      ensures store == if outcome(old(|log|)) == Lost(false) then old(store) else Effect(old(store), policy, request)
      ensures r == match outcome(old(|log|)) {
                     case Lost(_) => Err(LinkDown)
                     case Served(limit) => Ok(Respond(old(store), policy, limit, request))
                   }
    {
      match outcome(|log|) {
        case Lost(acted) => r := Err(LinkDown);
        case Served(limit) => r := Ok(Respond(store, policy, limit, request));
      }
      if outcome(|log|) != Lost(false) {
        store := Effect(store, policy, request);
      }
      log := log + [request];
    }
  }

  // ---------------------------------------------------------------- what a read should return

  /** The verdicts on a request for `addrs`, as the link lets them through. */
  function ReadOutcome(store: Store, policy: Policy, outcome: Outcome, addrs: seq<Address>): Result<seq<Reply>, Error>
    requires forall a | a in addrs :: a.bitNum < 8
    ensures ReadOutcome(store, policy, outcome, addrs).Ok? ==>
              |ReadOutcome(store, policy, outcome, addrs).value| == |addrs|
  {
    match outcome
    case Lost(_) => Err(LinkDown)
    case Served(limit) => Ok(Replied(store, policy, limit, addrs))
  }

  /** One item's share of the verdicts. */
  function ItemResult(replies: Result<seq<Reply>, Error>, i: nat): Result<seq<Byte>, Error>
    requires replies.Ok? ==> i < |replies.value|
  {
    match replies
    case Err(e) => Err(e)
    case Ok(rs) =>
      match rs[i]
      case Got(bytes) => Ok(bytes)
      case Bad(e) => Err(e)
  }

  /** What item `i` of a request for several addresses comes back as. */
  function ItemRead(store: Store, policy: Policy, outcome: Outcome, addrs: seq<Address>, i: nat): Result<seq<Byte>, Error>
    requires i < |addrs| && forall a | a in addrs :: a.bitNum < 8
  {
    ItemResult(ReadOutcome(store, policy, outcome, addrs), i)
  }

  function OneRead(store: Store, policy: Policy, outcome: Outcome, addr: Address): Result<seq<Byte>, Error>
    requires addr.bitNum < 8
  {
    ItemRead(store, policy, outcome, [addr], 0)
  }

  const UNLIMITED := Served(0x1_0000)

  /** The largest data part of one read request. */
  function MaxReadPayload(pduSize: U16): (n: nat)
    ensures 20 <= n < 0x1_0000
  {
    if pduSize < 40 then 200 else pduSize - 20
  }

  /** `n` bytes of `addr`'s area, from `offset`, as byte elements. */
  function ChunkAddress(addr: Address, offset: nat, n: nat): Address {
    Address(addr.area, addr.dbNumber, offset, -1, 0x0002, n, n)
  }

  /** How one chunk is answered: the data, in full, or an error. */
  type Reader = (nat, nat) -> Result<seq<Byte>, Error>

  /** The answers a flawless link gives to reads of `n` bytes at `offset` in `addr`'s area. */
  function ChunkReader(store: Store, policy: Policy, addr: Address): Reader {
    (offset: nat, n: nat) => OneRead(store, policy, UNLIMITED, ChunkAddress(addr, offset, n))
  }

  /** Reading `remaining` bytes from `offset` on in full chunks, up to the first error. */
  function ReadChunks(read: Reader, maxPayload: nat, offset: nat, remaining: nat): Result<seq<Byte>, Error>
    requires maxPayload > 0
    decreases remaining
  {
    if remaining == 0 then Ok([]) else
      var n := Min(remaining, maxPayload);
      match read(offset, n)
      case Err(e) => Err(e)
      case Ok(chunk) =>
        match ReadChunks(read, maxPayload, offset + n, remaining - n)
        case Err(e) => Err(e)
        case Ok(rest) => Ok(chunk + rest)
  }

  datatype Range = Range(offset: nat, size: nat)

  /** The ranges those chunks ask for. */
  function ChunksAsked(read: Reader, maxPayload: nat, offset: nat, remaining: nat): seq<Range>
    requires maxPayload > 0
    decreases remaining
  {
    if remaining == 0 then [] else
      var n := Min(remaining, maxPayload);
      if read(offset, n).Err? then [Range(offset, n)]
      else [Range(offset, n)] + ChunksAsked(read, maxPayload, offset + n, remaining - n)
  }

  function ChunkAddresses(addr: Address, ranges: seq<Range>): (addrs: seq<Address>)
    ensures |addrs| == |ranges|
  {
    seq(|ranges|, i requires 0 <= i < |ranges| => ChunkAddress(addr, ranges[i].offset, ranges[i].size))
  }

  /** What a read of this address alone returns over a flawless link. */
  function OwnRead(store: Store, policy: Policy, maxPayload: nat, addr: Address): Result<seq<Byte>, Error>
    requires maxPayload > 0 && addr.bitNum < 8
  {
    if addr.size <= maxPayload then OneRead(store, policy, UNLIMITED, addr)
    else ReadChunks(ChunkReader(store, policy, addr), maxPayload, addr.offset, addr.size)
  }

  /** The addresses that read asks for, in order. */
  function OwnAsked(store: Store, policy: Policy, maxPayload: nat, addr: Address): seq<Address>
    requires maxPayload > 0 && addr.bitNum < 8
  {
    if addr.size <= maxPayload then [addr]
    else ChunkAddresses(addr, ChunksAsked(ChunkReader(store, policy, addr), maxPayload, addr.offset, addr.size))
  }

  // ---------------------------------------------------------------- reads over any link

  /** Requests it takes to move `n` bytes in full chunks. */
  function ChunkCount(n: nat, maxPayload: nat): nat
    requires maxPayload > 0
  {
    if n == 0 then 0 else 1 + ChunkCount(n - Min(n, maxPayload), maxPayload)
  }

  lemma {:induction false} ChunksBelow(n: nat, maxPayload: nat)
    requires maxPayload > 0 && n > 0
    ensures (ChunkCount(n, maxPayload) - 1) * maxPayload < n
  {
    if n > maxPayload {
      ChunksBelow(n - maxPayload, maxPayload);
      var before := ChunkCount(n - maxPayload, maxPayload);
      assert (before - 1) * maxPayload + maxPayload == before * maxPayload;
    } else {
      assert ChunkCount(0, maxPayload) == 0;
    }
  }

  /** Full chunks stay below the iteration guard. */
  lemma {:induction false} ChunkCountBound(n: nat, maxPayload: nat)
    requires maxPayload > 0
    ensures ChunkCount(n, maxPayload) <= n / maxPayload + 10
  {
    if n > 0 {
      ChunksBelow(n, maxPayload);
      var chunks := ChunkCount(n, maxPayload) - 1;
      GuardNeverFires(n, maxPayload, chunks * maxPayload, chunks);
    }
  }

  /** How a chunked read ends, and the ranges it asked for. */
  datatype Run = Run(result: Result<seq<Byte>, Error>, ranges: seq<Range>)

  function Prefixed(bytes: seq<Byte>, ranges: seq<Range>, run: Run): Run {
    Run(match run.result {
          case Err(e) => Err(e)
          case Ok(rest) => Ok(bytes + rest)
        },
        ranges + run.ranges)
  }

  /** What request `n` brings, if it is for this address alone. */
  function LinkRead(link: Link, n: nat, addr: Address): Result<seq<Byte>, Error>
    requires addr.bitNum < 8
  {
    OneRead(link.store, link.policy, link.outcome(n), addr)
  }

  /**
    Reading `remaining` bytes from `offset` on, the next request being the
    `n`th: a short chunk moves the next one up, an empty one ends the read, and
    so does one chunk too many.
   */
  function ChunkRun(link: Link, maxPayload: nat, maxChunks: nat, addr: Address, n: nat, offset: nat, remaining: int,
                    chunks: nat): Run
    requires maxPayload > 0
    decreases remaining
  {
    if remaining <= 0 then Run(Ok([]), [])
    else if chunks + 1 > maxChunks then Run(Err(TooManyChunks), [])
    else
      var size := Min(remaining, maxPayload);
      var chunk := LinkRead(link, n, ChunkAddress(addr, offset, size));
      if chunk.Err? then Run(Err(chunk.error), [Range(offset, size)])
      else if chunk.value == [] then Run(Err(EmptyChunk), [Range(offset, size)])
      else
        var got := |chunk.value|;
        Prefixed(chunk.value, [Range(offset, size)],
                 ChunkRun(link, maxPayload, maxChunks, addr, n + 1, offset + got, remaining - got, chunks + 1))
  }

  function ChunkedRead(link: Link, n: nat, addr: Address): Run {
    var maxPayload := MaxReadPayload(link.pduSize);
    ChunkRun(link, maxPayload, addr.size / maxPayload + 10, addr, n, addr.offset, addr.size, 0)
  }

  /** What a read of this address returns if its first request is the `n`th. */
  function ReadOver(link: Link, n: nat, addr: Address): Result<seq<Byte>, Error>
    requires addr.bitNum < 8
  {
    if addr.size <= MaxReadPayload(link.pduSize) then LinkRead(link, n, addr) else ChunkedRead(link, n, addr).result
  }

  /** The addresses it asks for, one request each. */
  function AskedOver(link: Link, n: nat, addr: Address): seq<Address> {
    if addr.size <= MaxReadPayload(link.pduSize) then [addr]
    else ChunkAddresses(addr, ChunkedRead(link, n, addr).ranges)
  }

  function Singles(addrs: seq<Address>): (asked: seq<seq<Address>>)
    ensures |asked| == |addrs|
  {
    seq(|addrs|, k requires 0 <= k < |addrs| => [addrs[k]])
  }

  // ---------------------------------------------------------------- what reads mean

  /** The 24-bit bit address and 16-bit block number hold every byte of this range. */
  predicate Addressable(addr: Address, offset: nat, n: nat) {
    offset + n <= 0x20_0000 && (addr.area == DB ==> addr.dbNumber < 0x1_0000)
  }

  function BlockOf(addr: Address): U16 {
    if addr.area == DB then ToU16(addr.dbNumber) else 0
  }

  /** Memory named by a byte range. */
  function RangeOf(store: Store, addr: Address, offset: nat, n: nat): seq<Byte> {
    BytesAt(store, AreaCode(addr.area), BlockOf(addr), offset, n)
  }

  /** A chunk's item names exactly its byte range, as long as the range can be addressed. */
  lemma {:induction false} ChunkContent(store: Store, addr: Address, offset: nat, n: nat)
    requires 0 < n < 0x1_0000 && Addressable(addr, offset, n)
    ensures Content(store, Wire(ChunkAddress(addr, offset, n))) == RangeOf(store, addr, offset, n)
  {
    var w := Wire(ChunkAddress(addr, offset, n));
    assert w.bitAddr == 8 * offset && w.bitAddr / 8 == offset;
  }

  /** Beyond the addressable range the item silently names another place. */
  lemma {:induction false} ChunkWraps(addr: Address, offset: nat, n: nat)
    requires 0 < n < 0x1_0000 && offset >= 0x20_0000
    ensures Wire(ChunkAddress(addr, offset, n)) == Wire(ChunkAddress(addr, offset - 0x20_0000, n))
  {
    assert 8 * offset == 8 * (offset - 0x20_0000) + 0x100_0000;
  }

  lemma {:induction false} RangeSplit(store: Store, addr: Address, offset: nat, n: nat, m: nat)
    ensures RangeOf(store, addr, offset, n + m) == RangeOf(store, addr, offset, n) + RangeOf(store, addr, offset + n, m)
  {
  }

  /** Data comes back as a prefix of what the item names, and whole if the link allows it. */
  lemma {:induction false} OneReadPrefix(store: Store, policy: Policy, outcome: Outcome, addr: Address)
    requires addr.bitNum < 8
    ensures OneRead(store, policy, outcome, addr).Ok? ==>
              OneRead(store, policy, outcome, addr).value <= Content(store, Wire(addr))
    ensures outcome.Served? && outcome.limit >= 0x1_0000 ==>
              OneRead(store, policy, outcome, addr) == OneRead(store, policy, UNLIMITED, addr)
  {
    hide Layout, Content, Wire;
    if outcome.Served? && outcome.limit >= 0x1_0000 {
      AmpleLimit(store, policy, outcome.limit, [addr]);
    }
  }

  /** From 65536 bytes on the limit makes no difference. */
  lemma {:induction false} AmpleLimit(store: Store, policy: Policy, limit: nat, addrs: seq<Address>)
    requires limit >= 0x1_0000 && forall a | a in addrs :: a.bitNum < 8
    ensures Replied(store, policy, limit, addrs) == Replied(store, policy, 0x1_0000, addrs)
  {
    hide Layout, Content;
    var ws := WireItems(addrs);
    assert Answers(store, policy, limit, ws) == Answers(store, policy, 0x1_0000, ws);
    assert ItemReplies(store, policy, limit, addrs) == ItemReplies(store, policy, 0x1_0000, addrs);
  }

  /** A chunked read that succeeds over a flawless link returns the range it was asked for. */
  lemma {:induction false} ReadChunksIsMemory(store: Store, policy: Policy, addr: Address, maxPayload: nat,
                                              offset: nat, remaining: nat)
    requires 0 < maxPayload < 0x1_0000 && Addressable(addr, offset, remaining)
    ensures var r := ReadChunks(ChunkReader(store, policy, addr), maxPayload, offset, remaining);
            r.Ok? ==> r.value == RangeOf(store, addr, offset, remaining)
    decreases remaining
  {
    hide Content, Wire, OneRead;
    if remaining > 0 {
      var n := Min(remaining, maxPayload);
      ChunkContent(store, addr, offset, n);
      OneReadPrefix(store, policy, UNLIMITED, ChunkAddress(addr, offset, n));
      ChunkWhole(store, policy, addr, offset, n);
      ReadChunksIsMemory(store, policy, addr, maxPayload, offset + n, remaining - n);
      RangeSplit(store, addr, offset, n, remaining - n);
    }
  }

  lemma {:induction false} ChunkWhole(store: Store, policy: Policy, addr: Address, offset: nat, n: nat)
    requires 0 < n < 0x1_0000
    ensures var r := OneRead(store, policy, UNLIMITED, ChunkAddress(addr, offset, n));
            r.Ok? ==> r.value == Content(store, Wire(ChunkAddress(addr, offset, n)))
  {
    ChunkLength(store, addr, offset, n);
  }

  /** What a read of the address names: the bit, for a bit read in one request, otherwise the byte range. */
  function Named(store: Store, maxPayload: nat, addr: Address): seq<Byte> {
    if TransportSize(addr.dataType, addr.bitNum >= 0) == TS_BIT && addr.size <= maxPayload then
      [BitOf(store(AreaCode(addr.area), BlockOf(addr), addr.offset), if addr.bitNum >= 0 then addr.bitNum else 0)]
    else RangeOf(store, addr, addr.offset, addr.size)
  }

  /**
    Over a flawless link a successful read, chunked or not, of a bit or of
    bytes, returns the memory the address names, as long as the address fits the
    wire's address field.
   */
  lemma {:induction false} OwnReadIsMemory(store: Store, policy: Policy, maxPayload: nat, addr: Address)
    requires 0 < maxPayload < 0x1_0000 && addr.bitNum < 8 && Typed(addr) && addr.size > 0
    requires Addressable(addr, addr.offset, addr.size)
    ensures var r := OwnRead(store, policy, maxPayload, addr);
            r.Ok? ==> r.value == Named(store, maxPayload, addr)
  {
    hide Layout;
    if addr.size <= maxPayload {
      var w := Wire(addr);
      var bit := if addr.bitNum >= 0 then addr.bitNum else 0;
      assert w.bitAddr == 8 * addr.offset + bit && w.bitAddr / 8 == addr.offset && w.bitAddr % 8 == bit;
      assert w.transport != TS_BIT ==> Width(w.transport) * w.count == addr.size;
    } else {
      ReadChunksIsMemory(store, policy, addr, maxPayload, addr.offset, addr.size);
    }
  }

  /** Over any link a chunked read that succeeds returns exactly the range it was asked for. */
  lemma {:induction false} ChunkRunIsMemory(link: Link, maxPayload: nat, maxChunks: nat, addr: Address, n: nat,
                                            offset: nat, remaining: nat, chunks: nat)
    requires 0 < maxPayload < 0x1_0000
    ensures var run := ChunkRun(link, maxPayload, maxChunks, addr, n, offset, remaining, chunks);
            && (run.result.Ok? && Addressable(addr, offset, remaining) ==>
                  run.result.value == RangeOf(link.store, addr, offset, remaining))
            && (forall k | 0 <= k < |run.ranges| :: 0 < run.ranges[k].size <= maxPayload)
    decreases remaining
  {
    hide Content, Wire, OneRead;
    if remaining > 0 && chunks + 1 <= maxChunks {
      var size := Min(remaining, maxPayload);
      var chunk := LinkRead(link, n, ChunkAddress(addr, offset, size));
      OneReadPrefix(link.store, link.policy, link.outcome(n), ChunkAddress(addr, offset, size));
      if chunk.Ok? && chunk.value != [] {
        var got := |chunk.value|;
        ChunkLength(link.store, addr, offset, size);
        ChunkRunIsMemory(link, maxPayload, maxChunks, addr, n + 1, offset + got, remaining - got, chunks + 1);
        if Addressable(addr, offset, remaining) {
          ChunkContent(link.store, addr, offset, size);
          RangeSplit(link.store, addr, offset, got, remaining - got);
          assert chunk.value == RangeOf(link.store, addr, offset, got);
        }
      }
    }
  }

  /**
    Whatever the link does, a read that succeeds returns either a prefix of what
    the one item names, or, in chunks, exactly the range it was asked for.
   */
  lemma {:induction false} ReadOverIsMemory(link: Link, n: nat, addr: Address)
    requires addr.bitNum < 8
    ensures var r := ReadOver(link, n, addr);
            r.Ok? ==>
              if addr.size <= MaxReadPayload(link.pduSize) then r.value <= Content(link.store, Wire(addr))
              else Addressable(addr, addr.offset, addr.size) ==>
                     r.value == RangeOf(link.store, addr, addr.offset, addr.size)
  {
    hide OneRead, ChunkRun, Content, Wire;
    var maxPayload := MaxReadPayload(link.pduSize);
    OneReadPrefix(link.store, link.policy, link.outcome(n), addr);
    ChunkRunIsMemory(link, maxPayload, addr.size / maxPayload + 10, addr, n, addr.offset, addr.size, 0);
  }

  /** Over a flawless link every chunk is full, and the guard never ends the read. */
  lemma {:induction false} FlawlessRun(link: Link, maxPayload: nat, maxChunks: nat, addr: Address, n: nat, offset: nat,
                                       remaining: nat, chunks: nat)
    requires 0 < maxPayload < 0x1_0000 && chunks + ChunkCount(remaining, maxPayload) <= maxChunks
    requires var run := ChunkRun(link, maxPayload, maxChunks, addr, n, offset, remaining, chunks);
             Flawless(link.outcome, n, n + |run.ranges|)
    ensures var read := ChunkReader(link.store, link.policy, addr);
            ChunkRun(link, maxPayload, maxChunks, addr, n, offset, remaining, chunks) ==
            Run(ReadChunks(read, maxPayload, offset, remaining), ChunksAsked(read, maxPayload, offset, remaining))
    decreases remaining
  {
    hide Content, Wire, OneRead;
    if remaining > 0 {
      var size := Min(remaining, maxPayload);
      var chunk := LinkRead(link, n, ChunkAddress(addr, offset, size));
      OneReadPrefix(link.store, link.policy, link.outcome(n), ChunkAddress(addr, offset, size));
      ChunkWhole(link.store, link.policy, addr, offset, size);
      ChunkLength(link.store, addr, offset, size);
      if chunk.Ok? {
        assert |chunk.value| == size;
        FlawlessRun(link, maxPayload, maxChunks, addr, n + 1, offset + size, remaining - size, chunks + 1);
      }
    }
  }

  /** Over a flawless link a read is the address's own read. */
  lemma {:induction false} FlawlessRead(link: Link, n: nat, addr: Address)
    requires addr.bitNum < 8 && Flawless(link.outcome, n, n + |AskedOver(link, n, addr)|)
    ensures ReadOver(link, n, addr) == OwnRead(link.store, link.policy, MaxReadPayload(link.pduSize), addr)
    ensures AskedOver(link, n, addr) == OwnAsked(link.store, link.policy, MaxReadPayload(link.pduSize), addr)
  {
    hide OneRead, ChunkRun, ReadChunks, ChunksAsked;
    var maxPayload := MaxReadPayload(link.pduSize);
    if addr.size <= maxPayload {
      OneReadPrefix(link.store, link.policy, link.outcome(n), addr);
    } else {
      ChunkCountBound(addr.size, maxPayload);
      FlawlessRun(link, maxPayload, addr.size / maxPayload + 10, addr, n, addr.offset, addr.size, 0);
    }
  }

  /** A read request leaves memory alone, and its reply parses to the controller's verdicts. */
  lemma {:induction false} ReadExchange(store: Store, policy: Policy, outcome: Outcome, addrs: seq<Address>, ref: U16)
    requires 0 < |addrs| < 0x100 && forall a | a in addrs :: a.bitNum < 8
    ensures Effect(store, policy, BuildReadRequest(addrs, ref)) == store
    ensures outcome.Served? ==>
              ReadOutcome(store, policy, outcome, addrs) ==
              Ok(Parse(Respond(store, policy, outcome.limit, BuildReadRequest(addrs, ref)), |addrs|))
  {
    hide Respond, Replied, Parse;
    assert BuildReadRequest(addrs, ref)[10] == FUNC_READ;
    if outcome.Served? {
      ReadThroughWire(store, policy, outcome.limit, addrs, ref);
    }
  }

  /** A request for one address that fits in one reply. */
  predicate IsChunk(addrs: seq<Address>, maxPayload: nat) {
    |addrs| == 1 && addrs[0].size <= maxPayload
  }

  lemma {:induction false} ChunkLength(store: Store, addr: Address, offset: nat, n: nat)
    requires 0 < n < 0x1_0000
    ensures |Content(store, Wire(ChunkAddress(addr, offset, n)))| == n
  {
    assert Wire(ChunkAddress(addr, offset, n)).count == n;
  }

  /** Every request of a read is for one address that fits in one reply. */
  lemma {:induction false} AskedInChunks(link: Link, n: nat, addr: Address)
    requires addr.bitNum < 8
    ensures forall k | 0 <= k < |Singles(AskedOver(link, n, addr))| ::
              IsChunk(Singles(AskedOver(link, n, addr))[k], MaxReadPayload(link.pduSize))
  {
    hide ChunkRun;
    var maxPayload := MaxReadPayload(link.pduSize);
    ChunkRunIsMemory(link, maxPayload, addr.size / maxPayload + 10, addr, n, addr.offset, addr.size, 0);
  }

  /** With full chunks the iteration guard is never reached. */
  lemma {:induction false} GuardNeverFires(total: nat, maxPayload: nat, done: nat, chunks: nat)
    requires maxPayload > 0 && done < total && chunks * maxPayload == done
    ensures chunks + 1 <= total / maxPayload + 10
  {
    if chunks > total / maxPayload {
      MulMonotone(total / maxPayload + 1, chunks, maxPayload);
      assert false;
    }
  }

  lemma {:induction false} PrefixedTwice(first: seq<Byte>, second: seq<Byte>, before: seq<Range>, range: Range, run: Run)
    ensures Prefixed(first, before, Prefixed(second, [range], run)) == Prefixed(first + second, before + [range], run)
  {
    if run.result.Ok? {
      assert first + (second + run.result.value) == (first + second) + run.result.value;
    }
    assert before + ([range] + run.ranges) == (before + [range]) + run.ranges;
  }

  lemma {:induction false} PrefixedByNothing(run: Run)
    ensures Prefixed([], [], run) == run
  {
    assert run.result.Ok? ==> [] + run.result.value == run.result.value;
    assert [] + run.ranges == run.ranges;
  }

  /** One more range asked for, in a request of its own. */
  lemma {:induction false} OneMoreAsked(before: seq<seq<Address>>, addr: Address, ranges: seq<Range>, range: Range)
    ensures before + Singles(ChunkAddresses(addr, ranges)) + [[ChunkAddress(addr, range.offset, range.size)]] ==
            before + Singles(ChunkAddresses(addr, ranges + [range]))
  {
  }

  // ---------------------------------------------------------------- the client

  function NextRef(ref: U16): U16 {
    if ref == 0xFFFF then 1 else ref + 1
  }

  class Client {
    const transport: Transport
    var pduRef: U16
    /** The addresses of each read request, in the order sent. */
    ghost var asked: seq<seq<Address>>

    constructor (transport: Transport)
      ensures this.transport == transport && pduRef == 0 && asked == []
    {
      this.transport, pduRef, asked := transport, 0, [];
    }

    method NextPDURef() returns (ref: U16)
      modifies `pduRef
      ensures ref == pduRef == NextRef(old(pduRef)) && ref != 0
    {
      pduRef := ToU16(pduRef + 1);
      if pduRef == 0 {
        pduRef := 1;
      }
      ref := pduRef;
    }

    /** The parser's two arrays as one list of verdicts. */
    method Collect(response: seq<Byte>, count: nat) returns (replies: seq<Reply>)
      ensures replies == Parse(response, count)
    {
      var results, errors := ParseReadResponse(response, count);
      replies := [];
      for i := 0 to count
        invariant replies == Parse(response, count)[..i]
      {
        assert AgreesAt(Parse(response, count)[i], results[i], errors[i]);
        replies := replies + [if errors[i].Some? then Bad(errors[i].value) else Got(results[i].value)];
      }
    }

    /** One read request for several addresses, and the verdicts in its reply. */
    method SendRead(addrs: seq<Address>) returns (r: Result<seq<Reply>, Error>)
      requires 0 < |addrs| < 0x100 && forall a | a in addrs :: a.bitNum < 8
      modifies this, transport
      ensures transport.log == old(transport.log) + [BuildReadRequest(addrs, pduRef)]
      ensures transport.store == old(transport.store) && asked == old(asked) + [addrs]
      ensures r == ReadOutcome(transport.store, transport.policy, transport.outcome(old(|transport.log|)), addrs)
    {
      var ref := NextPDURef();
      var request := BuildReadRequest(addrs, ref);
      ReadExchange(transport.store, transport.policy, transport.outcome(|transport.log|), addrs, ref);
      var response := transport.SendReceive(request);
      asked := asked + [addrs];
      if response.Err? {
        return Err(response.error);
      }
      var replies := Collect(response.value, |addrs|);
      r := Ok(replies);
    }

    method ReadAddressSingle(addr: Address) returns (r: Result<seq<Byte>, Error>)
      requires addr.bitNum < 8
      modifies this, transport
      ensures |transport.log| == old(|transport.log|) + 1 && old(transport.log) <= transport.log
      ensures transport.View() == old(transport.View()) && asked == old(asked) + [[addr]]
      ensures r == LinkRead(transport.View(), old(|transport.log|), addr)
    {
      var replies := SendRead([addr]);
      match replies {
        case Err(e) => r := Err(e);
        case Ok(rs) =>
          match rs[0] {
            case Got(bytes) => r := Ok(bytes);
            case Bad(e) => r := Err(e);
          }
      }
    }

    /** Large reads are split into chunks of the PDU's payload; a short chunk moves the next one up. */
    method ReadAddress(addr: Address) returns (r: Result<seq<Byte>, Error>)
      requires addr.bitNum < 8
      modifies this, transport
      ensures old(transport.log) <= transport.log && transport.View() == old(transport.View())
      ensures r == ReadOver(transport.View(), old(|transport.log|), addr)
      ensures asked == old(asked) + Singles(AskedOver(transport.View(), old(|transport.log|), addr))
      ensures |transport.log| - old(|transport.log|) == |asked| - old(|asked|)
    {
      hide ChunkRun, LinkRead;
      var maxPayload: int := transport.pduSize - 20;
      if maxPayload < 20 {
        maxPayload := 200;
      }
      if addr.size <= maxPayload {
        r := ReadAddressSingle(addr);
        assert Singles([addr]) == [[addr]];
      } else {
        r := ReadInChunks(addr);
      }
    }

    /** One byte-range chunk. */
    method ReadOneChunk(addr: Address, offset: nat, n: nat) returns (chunk: Result<seq<Byte>, Error>)
      requires 0 < n < 0x1_0000
      modifies this, transport
      ensures |transport.log| == old(|transport.log|) + 1 && old(transport.log) <= transport.log
      ensures transport.View() == old(transport.View()) && asked == old(asked) + [[ChunkAddress(addr, offset, n)]]
      ensures chunk == LinkRead(transport.View(), old(|transport.log|), ChunkAddress(addr, offset, n))
    {
      chunk := ReadAddressSingle(ChunkAddress(addr, offset, n));
    }

    method ReadInChunks(addr: Address) returns (r: Result<seq<Byte>, Error>)
      requires addr.size > MaxReadPayload(transport.pduSize) && addr.bitNum < 8
      modifies this, transport
      ensures old(transport.log) <= transport.log && transport.View() == old(transport.View())
      ensures var run := ChunkedRead(transport.View(), old(|transport.log|), addr);
              && r == run.result && asked == old(asked) + Singles(ChunkAddresses(addr, run.ranges))
              && |transport.log| == old(|transport.log|) + |run.ranges|
    {
      hide ChunkRun, Prefixed, LinkRead, Singles, ChunkAddresses;
      var maxPayload := MaxReadPayload(transport.pduSize);
      var result: seq<Byte> := [];
      var offset, remaining: int := addr.offset, addr.size;
      var maxChunks, chunkCount := addr.size / maxPayload + 10, 0;
      ghost var link, from, ranges := transport.View(), |transport.log|, [];
      ghost var whole := ChunkRun(link, maxPayload, maxChunks, addr, from, offset, remaining, 0);
      PrefixedByNothing(whole);
      NothingAsked(asked, addr);
      while remaining > 0
        invariant offset >= 0
        invariant old(transport.log) <= transport.log && transport.View() == link
        invariant |transport.log| == from + |ranges|
        invariant asked == old(asked) + Singles(ChunkAddresses(addr, ranges))
        invariant whole == Prefixed(result, ranges, ChunkRun(link, maxPayload, maxChunks, addr, |transport.log|, offset,
                                                             remaining, chunkCount))
      {
        ghost var n := |transport.log|;
        chunkCount := chunkCount + 1;
        if chunkCount > maxChunks {
          GuardEndsRun(link, maxPayload, maxChunks, addr, n, offset, remaining, chunkCount - 1, result, ranges);
          return Err(TooManyChunks);
        }
        var chunkSize := if remaining > maxPayload then maxPayload else remaining;
        var chunk := ReadOneChunk(addr, offset, chunkSize);
        OneMoreAsked(old(asked), addr, ranges, Range(offset, chunkSize));
        ChunkStep(link, maxPayload, maxChunks, addr, n, offset, remaining, chunkCount - 1, result, ranges);
        ranges := ranges + [Range(offset, chunkSize)];
        if chunk.Err? {
          return Err(chunk.error);
        }
        if |chunk.value| != chunkSize {
          if |chunk.value| == 0 {
            return Err(EmptyChunk);
          }
        }
        result := result + chunk.value;
        var bytesRead := |chunk.value|;
        offset := offset + bytesRead;
        remaining := remaining - bytesRead;
      }
      RunEnds(link, maxPayload, maxChunks, addr, |transport.log|, offset, remaining, chunkCount, result, ranges);
      r := Ok(result);
    }
  }

  lemma {:induction false} NothingAsked(asked: seq<seq<Address>>, addr: Address)
    ensures asked == asked + Singles(ChunkAddresses(addr, []))
  {
  }

  lemma {:induction false} GuardEndsRun(link: Link, maxPayload: nat, maxChunks: nat, addr: Address, n: nat, offset: nat,
                                        remaining: int, chunks: nat, result: seq<Byte>, ranges: seq<Range>)
    requires maxPayload > 0 && remaining > 0 && chunks + 1 > maxChunks
    ensures Prefixed(result, ranges, ChunkRun(link, maxPayload, maxChunks, addr, n, offset, remaining, chunks)) ==
            Run(Err(TooManyChunks), ranges)
  {
    assert ranges + [] == ranges;
  }

  lemma {:induction false} RunEnds(link: Link, maxPayload: nat, maxChunks: nat, addr: Address, n: nat, offset: nat,
                                   remaining: int, chunks: nat, result: seq<Byte>, ranges: seq<Range>)
    requires maxPayload > 0 && remaining <= 0
    ensures Prefixed(result, ranges, ChunkRun(link, maxPayload, maxChunks, addr, n, offset, remaining, chunks)) ==
            Run(Ok(result), ranges)
  {
    assert ranges + [] == ranges && result + [] == result;
  }

  /** What one more request makes of the read. */
  lemma {:induction false} ChunkStep(link: Link, maxPayload: nat, maxChunks: nat, addr: Address, n: nat, offset: nat,
                                     remaining: int, chunks: nat, result: seq<Byte>, ranges: seq<Range>)
    requires maxPayload > 0 && remaining > 0 && chunks + 1 <= maxChunks
    ensures var size := Min(remaining, maxPayload);
            var chunk := LinkRead(link, n, ChunkAddress(addr, offset, size));
            var more := ranges + [Range(offset, size)];
            var run := Prefixed(result, ranges, ChunkRun(link, maxPayload, maxChunks, addr, n, offset, remaining, chunks));
            if chunk.Err? then run == Run(Err(chunk.error), more)
            else if chunk.value == [] then run == Run(Err(EmptyChunk), more)
            else
              var got := |chunk.value|;
              run == Prefixed(result + chunk.value, more,
                              ChunkRun(link, maxPayload, maxChunks, addr, n + 1, offset + got, remaining - got, chunks + 1))
  {
    hide LinkRead;
    var size := Min(remaining, maxPayload);
    var chunk := LinkRead(link, n, ChunkAddress(addr, offset, size));
    if chunk.Ok? && chunk.value != [] {
      var got := |chunk.value|;
      PrefixedTwice(result, chunk.value, ranges, Range(offset, size),
                    ChunkRun(link, maxPayload, maxChunks, addr, n + 1, offset + got, remaining - got, chunks + 1));
    }
  }
}
