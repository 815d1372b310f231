/**
  Cyclic I/O of the adapter: assemblies, the producer that sends one, and the
  consumer that stores what arrives into one.
 */
module CyclicIO {
  import opened Bytes
  import opened Encapsulation

  const SEND_UNIT_DATA: U16 := 0x70
  const SEQUENCED_ADDRESS: U16 := 0x8002
  const CONNECTED_ADDRESS: U16 := 0x00A1
  const CONNECTED_DATA: U16 := 0x00B1

  /** `contents` with `data` laid over it from `offset` on, clipped to its size. */
  function Overlaid(contents: seq<Byte>, offset: nat, data: seq<Byte>): (s: seq<Byte>)
    requires offset <= |contents|
    ensures |s| == |contents|
  {
    var n := Min(|data|, |contents| - offset);
    contents[..offset] + data[..n] + contents[offset + n..]
  }

  // ---------------------------------------------------------------- assemblies

  datatype Direction = Input | Output | Config

  class Assembly {
    const size: nat
    const direction: Direction
    const bytes: array<Byte>
    var updates: nat

    constructor (direction: Direction, size: nat)
      ensures Valid() && this.size == size && this.direction == direction && updates == 0
      ensures fresh(bytes) && Contents() == seq<Byte>(size, _ => 0)
    {
      this.size, this.direction, updates := size, direction, 0;
      bytes := new Byte[size](_ => 0);
    }

    ghost predicate Valid() {
      bytes.Length == size
    }

    function Contents(): (s: seq<Byte>)
      reads bytes
      ensures |s| == bytes.Length
    {
      bytes[..]
    }

    /** Lays bytes over the contents and says how many it wrote. */
    method SetBytes(offset: int, data: seq<Byte>) returns (n: nat)
      modifies this`updates, bytes
      ensures 0 <= offset < bytes.Length ==>
                n == Min(|data|, bytes.Length - offset) && Contents() == Overlaid(old(Contents()), offset, data)
                && updates == old(updates) + 1
      ensures !(0 <= offset < bytes.Length) ==> n == 0 && Contents() == old(Contents()) && updates == old(updates)
    {
      if offset < 0 || offset >= bytes.Length {
        return 0;
      }
      n := Min(|data|, bytes.Length - offset);
      Copy(offset, data, n);
      updates := updates + 1;
    }

    method Copy(offset: nat, data: seq<Byte>, n: nat)
      requires offset <= bytes.Length && n == Min(|data|, bytes.Length - offset)
      modifies bytes
      ensures Contents() == Overlaid(old(Contents()), offset, data)
    {
      for i := 0 to n
        invariant bytes[..] == old(bytes[..])[..offset] + data[..i] + old(bytes[..])[offset + i..]
      {
        bytes[offset + i] := data[i];
      }
    }

    method SetByte(offset: int, b: Byte) returns (ok: bool)
      modifies this`updates, bytes
      ensures ok <==> 0 <= offset < bytes.Length
      ensures ok ==> Contents() == old(Contents())[offset := b] && updates == old(updates) + 1
      ensures !ok ==> Contents() == old(Contents()) && updates == old(updates)
    {
      if offset < 0 || offset >= bytes.Length {
        return false;
      }
      bytes[offset] := b;
      updates := updates + 1;
      ok := true;
    }

    method ReceiveFromScanner(data: seq<Byte>)
      modifies this`updates, bytes
      ensures Contents() == Overlaid(old(Contents()), 0, data) && updates == old(updates) + 1
    {
      Copy(0, data, Min(|data|, bytes.Length));
      updates := updates + 1;
    }
  }

  // ---------------------------------------------------------------- producer

  function ProducerItems(toConnID: U32, netSeq: U32, dataSeq: U16, data: seq<Byte>): seq<Item> {
    [Item(SEQUENCED_ADDRESS, 8, Le32(toConnID) + Le32(netSeq)), MakeItem(CONNECTED_DATA, Le16(dataSeq) + data)]
  }

  function ProducerPacket(toConnID: U32, netSeq: U32, dataSeq: U16, data: seq<Byte>): seq<Byte> {
    FrameBytes(Frame(SEND_UNIT_DATA, 0, 0, [0, 0, 0, 0, 0, 0, 0, 0], 0,
                     RRData(PacketBytes(ProducerItems(toConnID, netSeq, dataSeq, data)))))
  }

  /** Addition of one in 32 bits. */
  function Increment(x: U32): U32 {
    if x == 0xFFFF_FFFF then 0 else x + 1
  }

  lemma {:induction false} NextCount(n: nat)
    ensures Increment(n % 0x1_0000_0000) == (n + 1) % 0x1_0000_0000
  {
  }

  /** The counters of one produced connection, and how many packets they have numbered. */
  class Producer {
    const toConnID: U32
    const assembly: Assembly
    var seqOut: U32
    var dataSeq: U32
    ghost var sent: nat

    constructor (toConnID: U32, assembly: Assembly)
      ensures Valid() && sent == 0 && this.toConnID == toConnID && this.assembly == assembly
    {
      this.toConnID, this.assembly, seqOut, dataSeq, sent := toConnID, assembly, 0, 0, 0;
    }

    ghost predicate Valid()
      reads this
    {
      seqOut as int == sent % 0x1_0000_0000 && dataSeq as int == sent % 0x1_0000_0000
    }

    /** One tick with a known peer: packet number `sent` carries that number modulo each counter's width. */
    method Produce() returns (packet: seq<Byte>)
      requires Valid()
      modifies this
      ensures Valid() && sent == old(sent) + 1
      ensures packet == ProducerPacket(toConnID, sent % 0x1_0000_0000, sent % 0x1_0000, assembly.Contents())
    {
      hide ProducerPacket;
      NextCount(sent);
      Truncated(sent + 1);
      dataSeq := Increment(dataSeq);
      seqOut := Increment(seqOut);
      sent := sent + 1;
      packet := ProducerPacket(toConnID, seqOut, ToU16(dataSeq), assembly.Contents());
    }
  }

  lemma {:induction false} Truncated(n: nat)
    ensures n % 0x1_0000_0000 % 0x1_0000 == n % 0x1_0000
  {
    assert n == n / 0x1_0000_0000 * 0x1_0000_0000 + n % 0x1_0000_0000;
    assert n == 0x1_0000 * (n / 0x1_0000_0000 * 0x1_0000) + n % 0x1_0000_0000;
  }

  // ---------------------------------------------------------------- consumer

  /** What the items of a packet say: the connection, whether the data carries a sequence count, and the data. */
  datatype Gathered = Gathered(connID: U32, hasDataSeq: bool, payload: Option<seq<Byte>>)

  function GatherItem(g: Gathered, item: Item): Gathered {
    if item.typeId == SEQUENCED_ADDRESS then
      if |item.data| >= 8 then g.(connID := GetLe32(item.data, 0), hasDataSeq := true) else g
    else if item.typeId == CONNECTED_ADDRESS then
      if |item.data| >= 4 then g.(connID := GetLe32(item.data, 0)) else g
    else if item.typeId == CONNECTED_DATA then g.(payload := Some(item.data))
    else g
  }

  function Gather(items: seq<Item>): Gathered {
    if items == [] then Gathered(0, false, None)
    else GatherItem(Gather(items[..|items| - 1]), items[|items| - 1])
  }

  /** The packet inside a datagram: in a SendUnitData frame, or bare. */
  function PacketOf(datagram: seq<Byte>): Option<seq<Byte>> {
    var f := ParseFrame(datagram);
    if f.Ok? && f.value.command == SEND_UNIT_DATA then ParseRRData(f.value.data) else Some(datagram)
  }

  /** The connection a datagram is for and its data without the sequence count. */
  datatype Delivery = Delivery(connID: U32, data: seq<Byte>)

  function DeliveryOf(datagram: seq<Byte>): Option<Delivery> {
    var packet := PacketOf(datagram);
    if packet.None? then None else
      var items := ParsePacket(packet.value);
      if items.Err? then None else
        var g := Gather(items.value);
        if g.connID == 0 || g.payload.None? then None
        else
          var payload := g.payload.value;
          Some(Delivery(g.connID, if g.hasDataSeq && |payload| >= 2 then payload[2..] else payload))
  }

  /** The data without the Run/Idle header an extra four bytes stand for. */
  function StripRunIdle(data: seq<Byte>, size: nat): seq<Byte> {
    if |data| == size + 4 then data[4..] else data
  }

  /** Where packets to the scanner go; port 0 while unknown. */
  datatype Peer = Peer(ip: U32, port: U16)

  class IOConnection {
    const consume: Assembly?
    var peer: Peer
    var heard: bool

    constructor (consume: Assembly?)
      ensures this.consume == consume && peer == Peer(0, 0) && !heard
    {
      this.consume, peer, heard := consume, Peer(0, 0), false;
    }
  }

  method GatherItems(items: seq<Item>) returns (g: Gathered)
    ensures g == Gather(items)
  {
    g := Gathered(0, false, None);
    for i := 0 to |items|
      invariant g == Gather(items[..i])
    {
      assert items[..i + 1][..i] == items[..i];
      g := GatherItem(g, items[i]);
    }
    assert items[..|items|] == items;
  }

  ghost function Connections(byOT: map<U32, IOConnection>): set<object> {
    set k | k in byOT :: byOT[k]
  }

  ghost function Assemblies(byOT: map<U32, IOConnection>): set<object> {
    set k | k in byOT && byOT[k].consume != null :: byOT[k].consume
  }

  ghost function Buffers(byOT: map<U32, IOConnection>): set<object> {
    set k | k in byOT && byOT[k].consume != null :: byOT[k].consume.bytes
  }

  /** The connection a datagram is for, if there is one. */
  function Addressee(byOT: map<U32, IOConnection>, datagram: seq<Byte>): IOConnection? {
    var delivery := DeliveryOf(datagram);
    if delivery.Some? && delivery.value.connID in byOT then byOT[delivery.value.connID] else null
  }

  /** The packet inside the datagram makes the packet parser panic. */
  predicate Crashes(datagram: seq<Byte>) {
    PacketOf(datagram).Some? && Panics(PacketOf(datagram).value)
  }

  /**
    Handles one datagram from `src`: learns the peer and stores the data in the
    consume assembly. `crashed` says that the adapter ended in a run-time panic.
   */
  method HandleIOPacket(byOT: map<U32, IOConnection>, datagram: seq<Byte>, src: Option<Peer>) returns (crashed: bool)
    requires forall k | k in byOT && byOT[k].consume != null :: byOT[k].consume.Valid()
    modifies Connections(byOT), Assemblies(byOT), Buffers(byOT)
    ensures crashed <==> Crashes(datagram)
    ensures crashed ==> Addressee(byOT, datagram) == null
    ensures var c := Addressee(byOT, datagram);
            c != null ==>
              && c.heard && c.peer == (if old(c.peer.port) == 0 && src.Some? then src.value else old(c.peer))
              && (c.consume != null ==>
                    && c.consume.Contents() ==
                       Overlaid(old(c.consume.Contents()), 0, StripRunIdle(DeliveryOf(datagram).value.data, c.consume.size))
                    && c.consume.updates == old(c.consume.updates) + 1)
    ensures forall k | k in byOT && byOT[k] != Addressee(byOT, datagram) :: unchanged(byOT[k])
    ensures forall k | k in byOT && byOT[k].consume != null ::
              var c := Addressee(byOT, datagram);
              c == null || c.consume == null || c.consume.bytes != byOT[k].consume.bytes ==>
                byOT[k].consume.Contents() == old(byOT[k].consume.Contents())
  {
    crashed := false;
    var packet := PacketOf(datagram);
    if packet.None? {
      return;
    }
    var items := ParseCommonPacket(packet.value);
    if items.Err? {
      return items.error.OutOfRange?;
    }
    var g := GatherItems(items.value);
    if g.connID == 0 || g.payload.None? || g.connID !in byOT {
      return;
    }
    var c := byOT[g.connID];
    if src.Some? && c.peer.port == 0 {
      c.peer := src.value;
    }
    c.heard := true;
    var payload := g.payload.value;
    var data := if g.hasDataSeq && |payload| >= 2 then payload[2..] else payload;
    if c.consume == null {
      return;
    }
    var size := c.consume.size;
    data := StripRunIdle(data, size);
    var clipped := if |data| > size then data[..size] else data;
    ClippedSame(c.consume.Contents(), data);
    c.consume.ReceiveFromScanner(clipped);
  }

  lemma {:induction false} ClippedSame(contents: seq<Byte>, data: seq<Byte>)
    ensures Overlaid(contents, 0, if |data| > |contents| then data[..|contents|] else data) == Overlaid(contents, 0, data)
  {
  }

  // ---------------------------------------------------------------- end to end

  lemma {:induction false} GatherProduced(toConnID: U32, netSeq: U32, dataSeq: U16, data: seq<Byte>)
    ensures Gather(ProducerItems(toConnID, netSeq, dataSeq, data)) ==
            Gathered(toConnID, true, Some(Le16(dataSeq) + data))
  {
    var items := ProducerItems(toConnID, netSeq, dataSeq, data);
    assert items[..1] == [items[0]] && items[..1][..0] == [];
    var address := items[0].data;
    assert address[0..4] == Le32(toConnID);
    Le32RoundTrip(address, 0, toConnID);
    assert Gather(items[..1]) == GatherItem(Gather([]), items[0]);
  }

  /** A produced packet is delivered to its connection with exactly the produced data, up to 65509 bytes. */
  lemma {:induction false} ProducedIsDelivered(toConnID: U32, netSeq: U32, dataSeq: U16, data: seq<Byte>)
    requires toConnID != 0 && |data| <= 65509
    ensures DeliveryOf(ProducerPacket(toConnID, netSeq, dataSeq, data)) == Some(Delivery(toConnID, data))
  {
    hide ParsePacket, PacketBytes, ParseFrame, FrameBytes, RRData, ParseRRData, Gather, GatherItem;
    var items := ProducerItems(toConnID, netSeq, dataSeq, data);
    var cpf := PacketBytes(items);
    var frame := Frame(SEND_UNIT_DATA, 0, 0, [0, 0, 0, 0, 0, 0, 0, 0], 0, RRData(cpf));
    ProducedSize(toConnID, netSeq, dataSeq, data);
    FrameRoundTrip(frame);
    RRDataRoundTrip(cpf);
    ItemsFit(items);
    PacketRoundTrip(items, []);
    assert cpf + [] == cpf;
    GatherProduced(toConnID, netSeq, dataSeq, data);
    assert (Le16(dataSeq) + data)[2..] == data;
  }

  lemma {:induction false} ItemsFit(items: seq<Item>)
    requires |items| == 2
    requires items[0].length as int == |items[0].data| < 65532 && items[1].length as int == |items[1].data| < 65532
    ensures Sized(items) && AllShort(items)
  {
  }

  lemma {:induction false} ProducedSize(toConnID: U32, netSeq: U32, dataSeq: U16, data: seq<Byte>)
    ensures |RRData(PacketBytes(ProducerItems(toConnID, netSeq, dataSeq, data)))| == 26 + |data|
  {
    var items := ProducerItems(toConnID, netSeq, dataSeq, data);
    assert items[1..] == [items[1]] && items[1..][1..] == [];
    assert ItemsBytes(items[1..]) == ItemBytes(items[1]) + ItemsBytes(items[1..][1..]);
    assert ItemsBytes(items) == ItemBytes(items[0]) + ItemsBytes(items[1..]);
  }

  /** An equal-sized assembly ends up holding exactly the data; a shorter payload changes only a prefix. */
  lemma {:induction false} StoredExactly(contents: seq<Byte>, data: seq<Byte>)
    ensures |data| == |contents| ==> Overlaid(contents, 0, StripRunIdle(data, |contents|)) == data
    ensures |data| < |contents| ==> Overlaid(contents, 0, StripRunIdle(data, |contents|)) == data + contents[|data|..]
    ensures |data| == |contents| + 4 ==> Overlaid(contents, 0, StripRunIdle(data, |contents|)) == data[4..]
    ensures |data| > |contents| && |data| != |contents| + 4 ==>
              Overlaid(contents, 0, StripRunIdle(data, |contents|)) == data[..|contents|]
  {
  }

  /** What a consume assembly holding `contents` holds once `data` has arrived. */
  function Stored(contents: seq<Byte>, data: seq<Byte>): seq<Byte> {
    if |data| == |contents| + 4 then data[4..]
    else if |data| > |contents| then data[..|contents|]
    else data + contents[|data|..]
  }

  /**
    From producer to consumer: packet number `n` of a connection reaches the
    connection of that id, panics nowhere, and leaves in its assembly exactly
    the produced data, clipped or with the old tail as the sizes have it. The
    counters play no part in it.
   */
  lemma {:induction false} EndToEnd(toConnID: U32, n: nat, data: seq<Byte>, contents: seq<Byte>)
    requires toConnID != 0 && |data| <= 65509
    ensures var datagram := ProducerPacket(toConnID, n % 0x1_0000_0000, n % 0x1_0000, data);
            && !Crashes(datagram)
            && DeliveryOf(datagram).Some?
            && var delivery := DeliveryOf(datagram).value;
               delivery.connID == toConnID
               && Overlaid(contents, 0, StripRunIdle(delivery.data, |contents|)) == Stored(contents, data)
    ensures |data| == |contents| ==> Stored(contents, data) == data
  {
    hide ProducerPacket, ParsePacket, PacketOf, Gather;
    ProducedIsDelivered(toConnID, n % 0x1_0000_0000, n % 0x1_0000, data);
    StoredExactly(contents, data);
  }

  /** One tick of a producer whose datagram arrives at an adapter that consumes it into another assembly. */
  method Transfer(producer: Producer, byOT: map<U32, IOConnection>, src: Option<Peer>) returns (crashed: bool)
    requires producer.Valid() && producer.toConnID != 0 && producer.assembly.bytes.Length <= 65509
    requires producer.toConnID in byOT && byOT[producer.toConnID].consume != null
    requires forall k | k in byOT && byOT[k].consume != null :: byOT[k].consume.Valid()
    requires producer !in Connections(byOT) && producer.assembly.bytes !in Buffers(byOT)
    modifies producer, Connections(byOT), Assemblies(byOT), Buffers(byOT)
    ensures !crashed
    ensures var consume := byOT[producer.toConnID].consume;
            consume.Contents() == Stored(old(consume.Contents()), producer.assembly.Contents())
    ensures producer.assembly.Contents() == old(producer.assembly.Contents())
  {
    var datagram := producer.Produce();
    EndToEnd(producer.toConnID, producer.sent, producer.assembly.Contents(), byOT[producer.toConnID].consume.Contents());
    crashed := HandleIOPacket(byOT, datagram, src);
  }

  /** The shortest datagram that ends the adapter: six bytes. */
  lemma {:induction false} SixBytesCrash(typeId: U16)
    ensures var datagram := Le16(1) + Le16(typeId) + Le16(65532);
            |datagram| == 6 && Crashes(datagram)
    ensures forall datagram: seq<Byte> | |datagram| < 6 :: !Crashes(datagram)
  {
    var datagram := Le16(1) + Le16(typeId) + Le16(65532);
    assert datagram[2..][2..4] == Le16(65532);
    Le16RoundTrip(datagram[2..], 2, 65532);
    assert datagram[0..2] == Le16(1);
    Le16RoundTrip(datagram, 0, 1);
  }
}
