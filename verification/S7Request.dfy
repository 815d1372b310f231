/**
  S7 requests and the controller that answers them. The client's half builds
  read and write PDUs from addresses; the controller's half decodes those very
  bytes and reads or writes its memory.
 */
module S7Request {
  import opened Bytes
  import opened S7Protocol

  datatype Area = DB | I | Q | M | T | C

  /** A parsed address with the total size of what it names; `bitNum` is negative for byte access. */
  datatype Address =
    Address(area: Area, dbNumber: nat, offset: nat, bitNum: int, dataType: U16, size: nat, count: nat)

  type Bits24 = x: int | 0 <= x < 0x100_0000

  /** The fields of one S7ANY item as they stand on the wire. */
  datatype WireItem = WireItem(transport: Byte, count: U16, db: U16, area: Byte, bitAddr: Bits24)

  function AreaCode(area: Area): Byte {
    match area
    case DB => 0x84
    case I => 0x81
    case Q => 0x82
    case M => 0x83
    case T => 0x1D
    case C => 0x1C
  }

  function TransportSize(dataType: U16, isBit: bool): Byte {
    if isBit then TS_BIT else
      match dataType % 0x1000
      case 0x0001 => TS_BIT
      case 0x0002 | 0x0003 | 0x0004 => TS_BYTE
      case 0x0005 | 0x0006 | 0x000A | 0x0013 => TS_WORD
      case 0x0007 | 0x0008 | 0x000B | 0x000C => TS_DWORD
      case 0x0009 => TS_REAL
      case _ => TS_BYTE
  }

  /** The item an address becomes: each field keeps only the bits that fit. */
  function Wire(addr: Address): WireItem
    requires addr.bitNum < 8
  {
    var transport := TransportSize(addr.dataType, addr.bitNum >= 0);
    var count := if addr.bitNum >= 0 then 1
                 else if transport == TS_BYTE then addr.size
                 else if addr.count < 1 then 1 else addr.count;
    var bitAddr := addr.offset * 8 + (if addr.bitNum >= 0 then addr.bitNum else 0);
    WireItem(transport, ToU16(count), if addr.area == DB then ToU16(addr.dbNumber) else 0,
             AreaCode(addr.area), bitAddr % 0x100_0000)
  }

  function EncodeItem(w: WireItem): (s: seq<Byte>)
    ensures |s| == 12
  {
    [0x12, 0x0A, 0x10, w.transport] + Be16(w.count) + Be16(w.db)
    + [w.area, w.bitAddr / 0x1_0000, w.bitAddr / 0x100 % 0x100, w.bitAddr % 0x100]
  }

  function EncodeItems(ws: seq<WireItem>): (s: seq<Byte>)
    ensures |s| == 12 * |ws|
  {
    if ws == [] then [] else EncodeItem(ws[0]) + EncodeItems(ws[1..])
  }

  function WireItems(addrs: seq<Address>): (ws: seq<WireItem>)
    requires forall a | a in addrs :: a.bitNum < 8
    ensures |ws| == |addrs|
  {
    seq(|addrs|, i requires 0 <= i < |addrs| => Wire(addrs[i]))
  }

  function BuildReadRequest(addrs: seq<Address>, pduRef: U16): (s: seq<Byte>)
    requires forall a | a in addrs :: a.bitNum < 8
    ensures |s| == 12 + 12 * |addrs|
  {
    [PROTOCOL_ID, MSG_JOB, 0, 0] + Be16(pduRef) + Be16(ToU16(2 + 12 * |addrs|)) + [0, 0]
    + [FUNC_READ, |addrs| % 0x100] + EncodeItems(WireItems(addrs))
  }

  function BuildWriteRequest(addr: Address, data: seq<Byte>, pduRef: U16): seq<Byte>
    requires addr.bitNum < 8
  {
    var pad: seq<Byte> := if |data| % 2 == 1 then [0] else [];
    var bitLen := if addr.bitNum >= 0 then 1 else 8 * |data|;
    [PROTOCOL_ID, MSG_JOB, 0, 0] + Be16(pduRef) + Be16(14) + Be16(ToU16(4 + |data| + |pad|))
    + [FUNC_WRITE, 1] + EncodeItem(Wire(addr))
    + [0, if addr.bitNum >= 0 then 3 else 4] + Be16(ToU16(bitLen)) + data + pad
  }

  // ---------------------------------------------------------------- the controller

  type Store = (Byte, U16, nat) -> Byte

  /**
    How the controller treats items: refuse some with a return code, answer some
    as octet strings. It keeps the negotiated PDU size: it sends no read reply
    longer than `pduSize` and refuses the request instead.
   */
  datatype Policy = Policy(fault: WireItem -> Option<Byte>, octet: WireItem -> bool, pduSize: U16)

  function DecodeItem(s: seq<Byte>): WireItem
    requires |s| == 12
  {
    WireItem(s[3], GetBe16(s, 4), GetBe16(s, 6), s[8],
             0x1_0000 * s[9] as int + 0x100 * s[10] as int + s[11] as int)
  }

  function DecodeItems(s: seq<Byte>): (ws: seq<WireItem>)
    requires |s| % 12 == 0
    ensures |ws| == |s| / 12
  {
    if s == [] then [] else [DecodeItem(s[..12])] + DecodeItems(s[12..])
  }

  /** The items of a read request, if the bytes are one. */
  function DecodeRead(req: seq<Byte>): Option<seq<WireItem>> {
    if |req| >= 12 && req[0] == PROTOCOL_ID && req[1] == MSG_JOB && req[10] == FUNC_READ
       && |req| == 12 + 12 * req[11] as int && GetBe16(req, 6) == |req| - 10
    then Some(DecodeItems(req[12..])) else None
  }

  /** The item and data of a write request, if the bytes are one. */
  function DecodeWrite(req: seq<Byte>): Option<(WireItem, seq<Byte>)> {
    if |req| >= 28 && req[0] == PROTOCOL_ID && req[1] == MSG_JOB && req[10] == FUNC_WRITE && req[11] == 1
       && GetBe16(req, 6) == 14 && 28 + (GetBe16(req, 26) + 7) / 8 <= |req|
    then Some((DecodeItem(req[12..24]), req[28..28 + (GetBe16(req, 26) + 7) / 8])) else None
  }

  function Width(transport: Byte): nat {
    if transport == TS_WORD then 2 else if transport == TS_DWORD || transport == TS_REAL then 4 else 1
  }

  function BytesAt(store: Store, area: Byte, db: U16, offset: nat, n: nat): (s: seq<Byte>)
    ensures |s| == n
  {
    seq<Byte>(n, j requires 0 <= j => store(area, db, offset + j))
  }

  /** Bit `k` of a number, the lowest being 0. */
  function BitOf(b: nat, k: nat): (bit: Byte)
    ensures bit < 2
  {
    if k == 0 then b % 2 else BitOf(b / 2, k - 1)
  }

  /** The number with that bit replaced. */
  function WithBit(b: nat, k: nat, value: nat): nat
    requires value < 2
  {
    if k == 0 then b - b % 2 + value else 2 * WithBit(b / 2, k - 1, value) + b % 2
  }

  function PowerOfTwo(n: nat): nat {
    if n == 0 then 1 else 2 * PowerOfTwo(n - 1)
  }

  lemma {:induction false} WithBitBound(b: nat, k: nat, value: nat, n: nat)
    requires value < 2 && k < n && b < PowerOfTwo(n)
    ensures WithBit(b, k, value) < PowerOfTwo(n)
  {
    if k > 0 {
      WithBitBound(b / 2, k - 1, value, n - 1);
    }
  }

  /** Replacing one bit sets it and leaves every other bit as it was. */
  lemma {:induction false} WithBitExact(b: nat, k: nat, value: nat, j: nat)
    requires value < 2
    ensures BitOf(WithBit(b, k, value), j) == if j == k then value else BitOf(b, j)
  {
    var w := WithBit(b, k, value);
    if k == 0 {
      assert w / 2 == b / 2 && w % 2 == value;
    } else {
      assert w / 2 == WithBit(b / 2, k - 1, value) && w % 2 == b % 2;
      if j > 0 {
        WithBitExact(b / 2, k - 1, value, j - 1);
      }
    }
  }

  /** A byte with the bit a bit address names replaced by the low bit of a value. */
  function ByteWithBit(b: Byte, bitAddr: nat, value: nat): (r: Byte)
    ensures r as int == WithBit(b, bitAddr % 8, value % 2)
  {
    assert PowerOfTwo(4) == 16 && PowerOfTwo(8) == 256;
    WithBitBound(b, bitAddr % 8, value % 2, 8);
    WithBit(b, bitAddr % 8, value % 2)
  }

  /** What an item names in memory. */
  function Content(store: Store, w: WireItem): seq<Byte> {
    if w.transport == TS_BIT then [BitOf(store(w.area, w.db, w.bitAddr / 8), w.bitAddr % 8)]
    else BytesAt(store, w.area, w.db, w.bitAddr / 8, Width(w.transport) * w.count)
  }

  function Take<X>(s: seq<X>, n: nat): seq<X> {
    if n < |s| then s[..n] else s
  }

  /** The answer to one item, with at most `limit` bytes of data. */
  function Answer(store: Store, policy: Policy, limit: nat, w: WireItem): (item: Item)
    ensures WellFormed(item)
    ensures item.Value? && item.transport != OCTET_STRING ==> item.length <= 0xFFF8
  {
    var bytes := Take(Content(store, w), limit);
    match policy.fault(w)
    case Some(code) => Fault(if code == ITEM_SUCCESS then 0x01 else code)
    case None =>
      if w.transport == TS_BIT then
        if w.count != 1 then Fault(0x06) else if bytes == [] then Value(3, 0, []) else Value(3, 1, bytes)
      else if |bytes| >= 0x1_0000 then Fault(0x07)
      else if policy.octet(w) || |bytes| > 0x1FFF then Value(OCTET_STRING, |bytes|, bytes)
      else Value(4, 8 * |bytes|, bytes)
  }

  function Answers(store: Store, policy: Policy, limit: nat, ws: seq<WireItem>): (items: seq<Item>)
    ensures |items| == |ws|
    ensures Readable(items)
  {
    seq(|ws|, i requires 0 <= i < |ws| => Answer(store, policy, limit, ws[i]))
  }

  function Refusal(class_: Byte, code: Byte): seq<Byte> {
    [PROTOCOL_ID, MSG_ACK_DATA, 0, 0, 0, 0, 0, 0, 0, 0, class_, code]
  }

  /** Bytes of a read reply in front of its items: twelve of header, two of parameters. */
  const REPLY_HEADER: nat := 14

  /** The controller's reply to any request. */
  function Respond(store: Store, policy: Policy, limit: nat, req: seq<Byte>): seq<Byte> {
    match DecodeRead(req)
    case Some(ws) =>
      var data := Layout(Answers(store, policy, limit, ws));
      if REPLY_HEADER + |data| > policy.pduSize then Refusal(0x85, 0x00)
      else ReadResponse(GetBe16(req, 4), [FUNC_READ, |ws|], data)
    case None =>
      match DecodeWrite(req)
      case Some((w, _)) =>
        var verdict := match policy.fault(w) {
          case Some(code) => if code == ITEM_SUCCESS then 0x01 else code
          case None => ITEM_SUCCESS
        };
        ReadResponse(GetBe16(req, 4), [FUNC_WRITE, 1], [verdict])
      case None => Refusal(0x84, 0x04)
  }

  /** Memory after a request: `data` laid over it for an accepted byte write, unchanged otherwise. */
  function Effect(store: Store, policy: Policy, req: seq<Byte>): Store {
    match DecodeWrite(req)
    case None => store
    case Some((w, data)) =>
      if DecodeRead(req).Some? || policy.fault(w).Some? then store
      else if w.transport == TS_BIT then
        if data == [] then store else SetBit(store, w, data[0])
      else Overlay(store, w.area, w.db, w.bitAddr / 8, data)
  }

  /** `data` written at an offset, everything else as before. */
  function Overlay(store: Store, area: Byte, db: U16, offset: nat, data: seq<Byte>): Store {
    (a: Byte, d: U16, k: nat) =>
      if a == area && d == db && offset <= k < offset + |data| then data[k - offset] else store(a, d, k)
  }

  /** One bit written, everything else as before. */
  function SetBit(store: Store, w: WireItem, value: Byte): Store {
    var offset := w.bitAddr / 8;
    Overlay(store, w.area, w.db, offset, [ByteWithBit(store(w.area, w.db, offset), w.bitAddr, value)])
  }

  // ---------------------------------------------------------------- requests are understood

  lemma {:induction false} DecodeEncodeItem(w: WireItem)
    ensures DecodeItem(EncodeItem(w)) == w
  {
    var s := EncodeItem(w);
    Be16RoundTrip(s, 4, w.count);
    Be16RoundTrip(s, 6, w.db);
  }

  lemma {:induction false} DecodeEncodeItems(ws: seq<WireItem>)
    ensures DecodeItems(EncodeItems(ws)) == ws
  {
    if ws != [] {
      var s := EncodeItems(ws);
      assert s[..12] == EncodeItem(ws[0]) && s[12..] == EncodeItems(ws[1..]);
      DecodeEncodeItem(ws[0]);
      DecodeEncodeItems(ws[1..]);
    }
  }

  /** The controller sees exactly the items the addresses stand for. */
  lemma {:induction false} DecodeBuildRead(addrs: seq<Address>, pduRef: U16)
    requires |addrs| < 0x100 && forall a | a in addrs :: a.bitNum < 8
    ensures DecodeRead(BuildReadRequest(addrs, pduRef)) == Some(WireItems(addrs))
    ensures GetBe16(BuildReadRequest(addrs, pduRef), 4) == pduRef
  {
    var req := BuildReadRequest(addrs, pduRef);
    Be16RoundTrip(req, 4, pduRef);
    Be16RoundTrip(req, 6, 2 + 12 * |addrs|);
    assert req[12..] == EncodeItems(WireItems(addrs));
    DecodeEncodeItems(WireItems(addrs));
  }

  /** A byte write is understood as its address and as many data bytes as its 16-bit bit count can say. */
  lemma {:induction false} DecodeBuildWrite(addr: Address, data: seq<Byte>, pduRef: U16)
    requires addr.bitNum < 0
    ensures DecodeWrite(BuildWriteRequest(addr, data, pduRef)) == Some((Wire(addr), data[..|data| % 0x2000]))
    ensures DecodeWrite(BuildWriteRequest(addr, data, pduRef)) == Some((Wire(addr), data)) <==> |data| < 0x2000
    ensures DecodeRead(BuildWriteRequest(addr, data, pduRef)) == None
  {
    var req := BuildWriteRequest(addr, data, pduRef);
    var n := |data| % 0x2000;
    BitCount(|data|);
    assert req[6..8] == Be16(14);
    Be16RoundTrip(req, 6, 14);
    assert req[12..24] == EncodeItem(Wire(addr));
    DecodeEncodeItem(Wire(addr));
    assert req[26..28] == Be16(8 * n);
    Be16RoundTrip(req, 26, 8 * n);
    assert req[28..28 + n] == data[..n];
    assert |data[..n]| == n;
    if |data| < 0x2000 {
      assert data[..n] == data;
    }
  }

  lemma {:induction false} BitCount(n: nat)
    ensures ToU16(8 * n) == 8 * (n % 0x2000)
  {
    assert 8 * n == 8 * (n % 0x2000) + 0x1_0000 * (n / 0x2000);
  }

  /** A bit write is understood as its address and one byte. */
  lemma {:induction false} DecodeBuildBitWrite(addr: Address, value: Byte, pduRef: U16)
    requires 0 <= addr.bitNum < 8
    ensures DecodeWrite(BuildWriteRequest(addr, [value], pduRef)) == Some((Wire(addr), [value]))
    ensures DecodeRead(BuildWriteRequest(addr, [value], pduRef)) == None
  {
    var req := BuildWriteRequest(addr, [value], pduRef);
    assert req[6..8] == Be16(14);
    Be16RoundTrip(req, 6, 14);
    assert req[12..24] == EncodeItem(Wire(addr));
    DecodeEncodeItem(Wire(addr));
    assert req[26..28] == Be16(1);
    Be16RoundTrip(req, 26, 1);
    assert req[28..29] == [value];
  }

  /** The verdicts on these addresses, item by item. */
  function ItemReplies(store: Store, policy: Policy, limit: nat, addrs: seq<Address>): (rs: seq<Reply>)
    requires forall a | a in addrs :: a.bitNum < 8
    ensures |rs| == |addrs|
  {
    seq(|addrs|, i requires 0 <= i < |addrs| => Verdict(Answer(store, policy, limit, Wire(addrs[i]))))
  }

  /** Bytes of the reply to these addresses. */
  function ReplySize(store: Store, policy: Policy, limit: nat, addrs: seq<Address>): nat
    requires forall a | a in addrs :: a.bitNum < 8
  {
    REPLY_HEADER + |Layout(Answers(store, policy, limit, WireItems(addrs)))|
  }

  /** The error of a request whose reply would be too long. */
  const TOO_LONG: Error := S7Error(0x85, 0x00)

  /** What a request for these addresses comes back as, item by item. */
  function Replied(store: Store, policy: Policy, limit: nat, addrs: seq<Address>): (rs: seq<Reply>)
    requires forall a | a in addrs :: a.bitNum < 8
    ensures |rs| == |addrs|
  {
    if ReplySize(store, policy, limit, addrs) <= policy.pduSize then ItemReplies(store, policy, limit, addrs)
    else AllBad(|addrs|, TOO_LONG)
  }

  /**
    Through the wire and back: each address gets the controller's answer to its
    own item, or all get the refusal of a reply that would not fit the PDU.
   */
  lemma {:induction false} ReadThroughWire(store: Store, policy: Policy, limit: nat, addrs: seq<Address>, pduRef: U16)
    requires |addrs| < 0x100 && forall a | a in addrs :: a.bitNum < 8
    ensures Parse(Respond(store, policy, limit, BuildReadRequest(addrs, pduRef)), |addrs|) ==
            Replied(store, policy, limit, addrs)
  {
    hide BuildReadRequest, DecodeRead, Answers, Layout, ReadResponse, ParseItems;
    var items := Answers(store, policy, limit, WireItems(addrs));
    DecodeBuildRead(addrs, pduRef);
    if ReplySize(store, policy, limit, addrs) <= policy.pduSize {
      ItemVerdicts(store, policy, limit, addrs);
      ParseInvertsLayout(pduRef, [FUNC_READ, |addrs|], items);
    }
  }

  lemma {:induction false} ItemVerdicts(store: Store, policy: Policy, limit: nat, addrs: seq<Address>)
    requires forall a | a in addrs :: a.bitNum < 8
    ensures var items := Answers(store, policy, limit, WireItems(addrs));
            |items| == |addrs| && Readable(items) && Verdicts(items) == ItemReplies(store, policy, limit, addrs)
  {
  }

  // ---------------------------------------------------------------- sizes

  /** The declared size is what the wire item will return. */
  predicate Typed(addr: Address) {
    && addr.bitNum < 8
    && if addr.bitNum >= 0 then addr.size == 1 else
         var transport := TransportSize(addr.dataType, false);
         if transport == TS_BYTE then true
         else addr.count >= 1 && addr.size == Width(transport) * addr.count
  }

  lemma {:induction false} ContentSize(store: Store, addr: Address)
    requires Typed(addr) && addr.size < 0x1_0000
    ensures addr.bitNum < 8
    ensures Wire(addr).transport != TS_BIT || Wire(addr).count == 1 ==> |Content(store, Wire(addr))| == addr.size
  {
  }

  /** Header and data bytes the reply needs for these addresses, without padding. */
  function PayloadSize(addrs: seq<Address>): nat {
    if addrs == [] then 0 else 4 + addrs[0].size + PayloadSize(addrs[1..])
  }

  lemma {:induction false} PayloadAppend(addrs: seq<Address>, addr: Address)
    ensures PayloadSize(addrs + [addr]) == PayloadSize(addrs) + 4 + addr.size
  {
    if addrs == [] {
      assert addrs + [addr] == [addr] && [addr][1..] == [];
    } else {
      assert (addrs + [addr])[1..] == addrs[1..] + [addr];
      PayloadAppend(addrs[1..], addr);
    }
  }

  /** A reply never needs more than the payload and one pad byte for every item but the last. */
  lemma {:induction false} LayoutSize(store: Store, policy: Policy, limit: nat, addrs: seq<Address>)
    requires forall a | a in addrs :: a.bitNum < 8 && Typed(a) && a.size < 0x1_0000
    ensures |Layout(Answers(store, policy, limit, WireItems(addrs)))| <=
            PayloadSize(addrs) + if addrs == [] then 0 else |addrs| - 1
  {
    if addrs != [] {
      var items := Answers(store, policy, limit, WireItems(addrs));
      assert WireItems(addrs)[1..] == WireItems(addrs[1..]);
      assert items[1..] == Answers(store, policy, limit, WireItems(addrs[1..]));
      ContentSize(store, addrs[0]);
      assert items[0] == Answer(store, policy, limit, Wire(addrs[0]));
      LayoutSize(store, policy, limit, addrs[1..]);
    }
  }
}
