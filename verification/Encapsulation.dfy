/**
  EtherNet/IP encapsulation frames and the Common Packet Format (CIP Volume 2,
  chapters 2 and 3): serialisers, parsers, and where they are inverse.
 */
module Encapsulation {
  import opened Bytes

  const HEADER_LEN: nat := 24
  const MAX_DATA: nat := 65511

  datatype Frame = Frame(command: U16, session: U32, status: U32, context: seq<Byte>, options: U32, data: seq<Byte>)

  predicate ValidFrame(f: Frame) {
    |f.context| == 8
  }

  datatype FrameError = ShortFrame | TruncatedFrame | PayloadTooLarge | EndOfStream

  /** The 24 header bytes; the length field wraps at 16 bits. */
  function Header(f: Frame): (s: seq<Byte>)
    requires ValidFrame(f)
    ensures |s| == HEADER_LEN
  {
    Le16(f.command) + Le16(ToU16(|f.data|)) + Le32(f.session) + Le32(f.status) + f.context + Le32(f.options)
  }

  function FrameBytes(f: Frame): seq<Byte>
    requires ValidFrame(f)
  {
    Header(f) + f.data
  }

  /** The frame a header announces, with `data` as its payload. */
  function FromHeader(b: seq<Byte>, data: seq<Byte>): (f: Frame)
    requires |b| >= HEADER_LEN
    ensures ValidFrame(f)
  {
    Frame(GetLe16(b, 0), GetLe32(b, 4), GetLe32(b, 8), b[12..20], GetLe32(b, 20), data)
  }

  function ParseFrame(b: seq<Byte>): (r: Result<Frame, FrameError>)
    ensures r.Ok? ==> ValidFrame(r.value)
  {
    if |b| < HEADER_LEN then Err(ShortFrame)
    else if HEADER_LEN + GetLe16(b, 2) as nat > |b| then Err(TruncatedFrame)
    else Ok(FromHeader(b, b[HEADER_LEN..HEADER_LEN + GetLe16(b, 2) as nat]))
  }

  lemma {:induction false} HeaderFields(f: Frame, rest: seq<Byte>)
    requires ValidFrame(f)
    ensures var b := Header(f) + rest;
            GetLe16(b, 2) == ToU16(|f.data|) && forall data :: FromHeader(b, data) == f.(data := data)
  {
    var b := Header(f) + rest;
    assert b[0..2] == Le16(f.command) && b[2..4] == Le16(ToU16(|f.data|));
    assert b[4..8] == Le32(f.session) && b[8..12] == Le32(f.status);
    assert b[12..20] == f.context && b[20..24] == Le32(f.options);
    Le16RoundTrip(b, 0, f.command);
    Le16RoundTrip(b, 2, ToU16(|f.data|));
    Le32RoundTrip(b, 4, f.session);
    Le32RoundTrip(b, 8, f.status);
    Le32RoundTrip(b, 20, f.options);
  }

  /** A serialised frame parses to itself, cut to what its length field says; so exactly when that field holds the length. */
  lemma {:induction false} FrameRoundTrip(f: Frame)
    requires ValidFrame(f)
    ensures ParseFrame(FrameBytes(f)) == Ok(f.(data := f.data[..ToU16(|f.data|)]))
    ensures ParseFrame(FrameBytes(f)) == Ok(f) <==> |f.data| < 0x1_0000
  {
    hide FromHeader;
    HeaderFields(f, f.data);
    var b := FrameBytes(f);
    var n := ToU16(|f.data|);
    assert b[HEADER_LEN..HEADER_LEN + n as nat] == f.data[..n];
    assert |f.data[..n]| == n as int;
    if |f.data| < 0x1_0000 {
      assert f.data[..n] == f.data;
    }
  }

  // ---------------------------------------------------------------- frames on a stream

  datatype Received = Received(frame: Frame, rest: seq<Byte>)

  /** Takes one frame off a stream of which `stream` is all that will ever arrive. */
  function ReadFrame(stream: seq<Byte>): (r: Result<Received, FrameError>)
    ensures r.Ok? ==> |r.value.rest| < |stream|
  {
    if |stream| < HEADER_LEN then Err(EndOfStream) else
      var length := GetLe16(stream, 2) as nat;
      if length > MAX_DATA then Err(PayloadTooLarge)
      else if |stream| < HEADER_LEN + length then Err(EndOfStream)
      else Ok(Received(FromHeader(stream, stream[HEADER_LEN..HEADER_LEN + length]), stream[HEADER_LEN + length..]))
  }

  /** The frames read until the stream fails. */
  function ReadFrames(stream: seq<Byte>): seq<Frame>
    decreases |stream|
  {
    match ReadFrame(stream)
    case Err(_) => []
    case Ok(received) => [received.frame] + ReadFrames(received.rest)
  }

  ghost predicate ValidFrames(frames: seq<Frame>) {
    forall k | 0 <= k < |frames| :: ValidFrame(frames[k])
  }

  function StreamBytes(frames: seq<Frame>): seq<Byte>
    requires ValidFrames(frames)
  {
    if frames == [] then [] else FrameBytes(frames[0]) + StreamBytes(frames[1..])
  }

  lemma {:induction false} ReadOneFrame(f: Frame, rest: seq<Byte>)
    requires ValidFrame(f) && |f.data| <= MAX_DATA
    ensures ReadFrame(FrameBytes(f) + rest) == Ok(Received(f, rest))
  {
    hide FromHeader, Header;
    var stream := FrameBytes(f) + rest;
    assert stream == Header(f) + (f.data + rest);
    HeaderFields(f, f.data + rest);
    assert stream[HEADER_LEN..HEADER_LEN + |f.data|] == f.data;
    assert stream[HEADER_LEN + |f.data|..] == rest;
  }

  /** Frames written one after the other are read back one by one, in order. */
  lemma {:induction false} StreamRoundTrip(frames: seq<Frame>)
    requires ValidFrames(frames) && forall k | 0 <= k < |frames| :: |frames[k].data| <= MAX_DATA
    ensures ReadFrames(StreamBytes(frames)) == frames
  {
    hide ReadFrame, FrameBytes;
    if frames == [] {
      NoFrame();
    } else {
      ReadOneFrame(frames[0], StreamBytes(frames[1..]));
      StreamRoundTrip(frames[1..]);
      assert frames == [frames[0]] + frames[1..];
    }
  }

  lemma {:induction false} NoFrame()
    ensures ReadFrame([]).Err?
  {
  }

  // ---------------------------------------------------------------- common packet format

  datatype Item = Item(typeId: U16, length: U16, data: seq<Byte>)

  /** `OutOfRange` stands for the slice expression that panics when the 16-bit sum of 4 and a length wraps. */
  datatype CpfError = TooShort | NoItems | TruncatedItem(index: nat) | Insufficient(index: nat) | OutOfRange(index: nat)

  function MakeItem(typeId: U16, data: seq<Byte>): Item {
    Item(typeId, ToU16(|data|), data)
  }

  function ItemBytes(item: Item): seq<Byte> {
    Le16(item.typeId) + Le16(item.length) + item.data
  }

  function ItemsBytes(items: seq<Item>): seq<Byte> {
    if items == [] then [] else ItemBytes(items[0]) + ItemsBytes(items[1..])
  }

  function PacketBytes(items: seq<Item>): seq<Byte> {
    Le16(ToU16(|items|)) + ItemsBytes(items)
  }

  lemma {:induction false} ItemsBytesAppend(items: seq<Item>, item: Item)
    ensures ItemsBytes(items + [item]) == ItemsBytes(items) + ItemBytes(item)
  {
    if items == [] {
      assert [item][1..] == [];
    } else {
      assert (items + [item])[1..] == items[1..] + [item];
      ItemsBytesAppend(items[1..], item);
    }
  }

  method SerialisePacket(items: seq<Item>) returns (raw: seq<Byte>)
    ensures raw == PacketBytes(items)
  {
    raw := Le16(ToU16(|items|));
    for i := 0 to |items|
      invariant raw == Le16(ToU16(|items|)) + ItemsBytes(items[..i])
    {
      raw := raw + ItemBytes(items[i]);
      TakeOneMore(items, i);
      ItemsBytesAppend(items[..i], items[i]);
    }
    assert items[..|items|] == items;
  }

  datatype Cut = Cut(item: Item, rest: seq<Byte>)

  /** The item `raw` starts with; sizes are added in 16 bits. */
  function TakeItem(raw: seq<Byte>, index: nat): Result<Cut, CpfError> {
    if |raw| < 4 then Err(TruncatedItem(index)) else
      var length := GetLe16(raw, 2);
      var need := ToU16(4 + length as int) as int;
      if |raw| < need then Err(Insufficient(index))
      else if need < 4 then Err(OutOfRange(index))
      else Ok(Cut(Item(GetLe16(raw, 0), length, raw[4..need]), raw[need..]))
  }

  function TakeItems(raw: seq<Byte>, index: nat, count: nat): Result<seq<Item>, CpfError>
    decreases count
  {
    if count == 0 then Ok([]) else
      match TakeItem(raw, index)
      case Err(e) => Err(e)
      case Ok(cut) =>
        match TakeItems(cut.rest, index + 1, count - 1)
        case Err(e) => Err(e)
        case Ok(items) => Ok([cut.item] + items)
  }

  function ParsePacket(raw: seq<Byte>): Result<seq<Item>, CpfError> {
    if |raw| < 2 then Err(TooShort)
    else if GetLe16(raw, 0) > 0 && |raw| == 2 then Err(NoItems)
    else TakeItems(raw[2..], 0, GetLe16(raw, 0))
  }

  function Before(items: seq<Item>, r: Result<seq<Item>, CpfError>): Result<seq<Item>, CpfError> {
    match r
    case Err(e) => Err(e)
    case Ok(rest) => Ok(items + rest)
  }

  lemma {:induction false} BeforeTwice(items: seq<Item>, item: Item, r: Result<seq<Item>, CpfError>)
    ensures Before(items, Before([item], r)) == Before(items + [item], r)
  {
    if r.Ok? {
      assert items + ([item] + r.value) == (items + [item]) + r.value;
    }
  }

  method ParseCommonPacket(raw: seq<Byte>) returns (r: Result<seq<Item>, CpfError>)
    ensures r == ParsePacket(raw)
  {
    hide TakeItem;
    if |raw| < 2 {
      return Err(TooShort);
    }
    var count := GetLe16(raw, 0) as nat;
    var left := raw[2..];
    if count > 0 && |left| == 0 {
      return Err(NoItems);
    }
    var items: seq<Item> := [];
    var i := 0;
    ghost var whole := TakeItems(left, 0, count);
    assert whole == Before([], whole) by {
      if whole.Ok? {
        assert [] + whole.value == whole.value;
      }
    }
    while i < count
      invariant 0 <= i <= count
      invariant whole == Before(items, TakeItems(left, i, count - i))
    {
      var cut := TakeItem(left, i);
      if cut.Err? {
        return Err(cut.error);
      }
      BeforeTwice(items, cut.value.item, TakeItems(cut.value.rest, i + 1, count - i - 1));
      items := items + [cut.value.item];
      left := cut.value.rest;
      i := i + 1;
    }
    assert items + [] == items;
    r := Ok(items);
  }

  lemma {:induction false} TakeItemInverts(item: Item, rest: seq<Byte>, index: nat)
    requires item.length as int == |item.data|
    ensures TakeItem(ItemBytes(item) + rest, index) ==
            if |item.data| < 65532 then Ok(Cut(item, rest)) else Err(OutOfRange(index))
  {
    var raw := ItemBytes(item) + rest;
    assert raw[0..2] == Le16(item.typeId) && raw[2..4] == Le16(item.length);
    Le16RoundTrip(raw, 0, item.typeId);
    Le16RoundTrip(raw, 2, item.length);
    if |item.data| < 65532 {
      assert raw[4..4 + |item.data|] == item.data && raw[4 + |item.data|..] == rest;
    }
  }

  ghost predicate Sized(items: seq<Item>) {
    forall k | 0 <= k < |items| :: items[k].length as int == |items[k].data|
  }

  /** Every item leaves room for its header in a 16-bit size. */
  ghost predicate AllShort(items: seq<Item>) {
    forall k | 0 <= k < |items| :: |items[k].data| < 65532
  }

  lemma {:induction false} FirstAndRest(items: seq<Item>)
    requires items != []
    ensures AllShort(items) <==> |items[0].data| < 65532 && AllShort(items[1..])
    ensures Sized(items) ==> items[0].length as int == |items[0].data| && Sized(items[1..])
  {
    if AllShort(items[1..]) && |items[0].data| < 65532 {
      assert forall k | 1 <= k < |items| :: items[k] == items[1..][k - 1];
    }
  }

  lemma {:induction false} TakeItemsInverts(items: seq<Item>, rest: seq<Byte>, index: nat)
    requires Sized(items)
    ensures TakeItems(ItemsBytes(items) + rest, index, |items|) == Ok(items) <==> AllShort(items)
    decreases |items|
  {
    hide TakeItem, ItemBytes, AllShort, Sized;
    if items == [] {
      NoneLong(items);
    } else {
      var tail := ItemsBytes(items[1..]) + rest;
      assert ItemsBytes(items) + rest == ItemBytes(items[0]) + tail;
      FirstAndRest(items);
      TakeItemInverts(items[0], tail, index);
      TakeItemsInverts(items[1..], rest, index + 1);
      assert items == [items[0]] + items[1..];
    }
  }

  lemma {:induction false} NoneLong(items: seq<Item>)
    requires items == []
    ensures AllShort(items)
  {
  }

  /** A packet of up to 65535 items reads back exactly when every item is below 65532 bytes. */
  lemma {:induction false} PacketRoundTrip(items: seq<Item>, rest: seq<Byte>)
    requires |items| < 0x1_0000 && Sized(items)
    ensures ParsePacket(PacketBytes(items) + rest) == Ok(items) <==> AllShort(items)
  {
    hide AllShort, TakeItem, ItemBytes;
    var raw := PacketBytes(items) + rest;
    assert raw[0..2] == Le16(|items|);
    Le16RoundTrip(raw, 0, |items|);
    assert raw[2..] == ItemsBytes(items) + rest;
    TakeItemsInverts(items, rest, 0);
    if |raw| == 2 {
      NoBytes(items);
    }
  }

  lemma {:induction false} NoBytes(items: seq<Item>)
    ensures items != [] ==> |ItemsBytes(items)| >= 4
  {
  }

  /** The bytes start with these short items, and the item header after them gives a length of 65532 or more. */
  ghost predicate LongHeaderAfter(raw: seq<Byte>, items: seq<Item>) {
    && Sized(items) && AllShort(items) && ItemsBytes(items) <= raw
    && |ItemsBytes(items)| + 4 <= |raw| && GetLe16(raw, |ItemsBytes(items)| + 2) as int >= 65532
  }

  lemma {:induction false} CutRestores(raw: seq<Byte>, index: nat)
    requires TakeItem(raw, index).Ok?
    ensures var cut := TakeItem(raw, index).value;
            raw == ItemBytes(cut.item) + cut.rest && cut.item.length as int == |cut.item.data| < 65532
  {
    var cut := TakeItem(raw, index).value;
    assert raw[..2] == Le16(cut.item.typeId) && raw[2..4] == Le16(cut.item.length);
    assert raw == raw[..2] + raw[2..4] + cut.item.data + cut.rest;
  }

  lemma {:induction false} OneMoreBefore(item: Item, rest: seq<Byte>, items: seq<Item>)
    requires item.length as int == |item.data| < 65532
    ensures LongHeaderAfter(ItemBytes(item) + rest, [item] + items) <==> LongHeaderAfter(rest, items)
  {
    hide ItemBytes, AllShort, Sized;
    var all, raw := [item] + items, ItemBytes(item) + rest;
    assert all[0] == item && all[1..] == items;
    SizedFront(all);
    FirstAndRest(all);
    var n, m := |ItemBytes(item)|, |ItemsBytes(items)|;
    assert ItemsBytes(all) == ItemBytes(item) + ItemsBytes(items);
    assert raw[n..] == rest;
    if n + m + 4 <= |raw| {
      assert raw[n + m + 2] == rest[m + 2] && raw[n + m + 3] == rest[m + 3];
    }
    if ItemsBytes(items) <= rest {
      assert rest == ItemsBytes(items) + rest[m..];
      assert raw == ItemsBytes(all) + rest[m..];
    }
    if ItemsBytes(all) <= raw {
      assert raw[n..n + m] == ItemsBytes(all)[n..];
      assert rest[..m] == ItemsBytes(items);
    }
  }

  lemma {:induction false} SizedFront(items: seq<Item>)
    requires items != []
    ensures Sized(items) <==> items[0].length as int == |items[0].data| && Sized(items[1..])
  {
    if Sized(items[1..]) {
      assert forall k | 1 <= k < |items| :: items[k] == items[1..][k - 1];
    }
  }

  lemma {:induction false} PanicHasLongHeader(raw: seq<Byte>, index: nat, count: nat) returns (items: seq<Item>)
    requires TakeItems(raw, index, count).Err? && TakeItems(raw, index, count).error.OutOfRange?
    ensures |items| < count && LongHeaderAfter(raw, items)
    decreases count
  {
    hide LongHeaderAfter, ItemBytes, TakeItem;
    LongHeaderFirst(raw, index);
    items := [];
    if TakeItem(raw, index).Ok? {
      var cut := TakeItem(raw, index).value;
      CutRestores(raw, index);
      var after := PanicHasLongHeader(cut.rest, index + 1, count - 1);
      OneMoreBefore(cut.item, cut.rest, after);
      items := [cut.item] + after;
    }
  }

  lemma {:induction false} LongHeaderPanics(raw: seq<Byte>, items: seq<Item>, index: nat, count: nat)
    requires |items| < count && LongHeaderAfter(raw, items)
    ensures TakeItems(raw, index, count) == Err(OutOfRange(index + |items|))
    decreases |items|
  {
    hide LongHeaderAfter, ItemBytes, TakeItem;
    if items == [] {
      LongHeaderFirst(raw, index);
    } else {
      FirstOfLong(raw, items, index);
      var cut := TakeItem(raw, index).value;
      OneMoreBefore(cut.item, cut.rest, items[1..]);
      assert items == [items[0]] + items[1..];
      LongHeaderPanics(cut.rest, items[1..], index + 1, count - 1);
    }
  }

  lemma {:induction false} LongHeaderFirst(raw: seq<Byte>, index: nat)
    ensures LongHeaderAfter(raw, []) <==> TakeItem(raw, index) == Err(OutOfRange(index))
    ensures TakeItem(raw, index).Err? && TakeItem(raw, index).error.OutOfRange? ==> LongHeaderAfter(raw, [])
  {
    assert ItemsBytes([]) == [];
  }

  lemma {:induction false} FirstOfLong(raw: seq<Byte>, items: seq<Item>, index: nat)
    requires items != [] && LongHeaderAfter(raw, items)
    ensures TakeItem(raw, index).Ok? && TakeItem(raw, index).value.item == items[0]
    ensures raw == ItemBytes(items[0]) + TakeItem(raw, index).value.rest
    ensures items[0].length as int == |items[0].data| < 65532
  {
    var n := |ItemBytes(items[0])|;
    assert ItemsBytes(items) == ItemBytes(items[0]) + ItemsBytes(items[1..]);
    assert raw[..n] == ItemsBytes(items)[..n] == ItemBytes(items[0]);
    assert raw == ItemBytes(items[0]) + raw[n..];
    TakeItemInverts(items[0], raw[n..], index);
  }

  /** Reading `raw` as a packet panics. */
  predicate Panics(raw: seq<Byte>) {
    ParsePacket(raw).Err? && ParsePacket(raw).error.OutOfRange?
  }

  /**
    Which bytes panic: those with a well-formed list of items, shorter than the
    announced count, in front of an item header whose length is 65532 or more.
   */
  lemma {:induction false} PanicsExactly(raw: seq<Byte>)
    ensures Panics(raw) <==>
            |raw| >= 2 && exists items :: |items| < GetLe16(raw, 0) as int && LongHeaderAfter(raw[2..], items)
  {
    hide LongHeaderAfter, TakeItems;
    if |raw| >= 2 {
      NoRoom(raw[2..]);
      if Panics(raw) {
        var items := PanicHasLongHeader(raw[2..], 0, GetLe16(raw, 0));
      }
      forall items | |items| < GetLe16(raw, 0) as int && LongHeaderAfter(raw[2..], items)
        ensures Panics(raw)
      {
        LongHeaderPanics(raw[2..], items, 0, GetLe16(raw, 0));
      }
    }
  }

  lemma {:induction false} NoRoom(raw: seq<Byte>)
    ensures |raw| < 4 ==> forall items :: !LongHeaderAfter(raw, items)
  {
  }

  // ---------------------------------------------------------------- RR data

  /** Interface handle and timeout, both zero, in front of the packet. */
  function RRData(cpf: seq<Byte>): seq<Byte> {
    Le32(0) + Le16(0) + cpf
  }

  function ParseRRData(b: seq<Byte>): Option<seq<Byte>> {
    if |b| < 6 then None else Some(b[6..])
  }

  lemma {:induction false} RRDataRoundTrip(cpf: seq<Byte>)
    ensures ParseRRData(RRData(cpf)) == Some(cpf)
  {
    assert RRData(cpf)[6..] == cpf;
  }
}
