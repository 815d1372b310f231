/**
  The FINS transport: memory read requests, a PLC that answers them from its
  memory, and a link that may lose, refuse or cut short any command.
 */
module Fins {
  import opened Bytes

  const MEMORY_READ: U16 := 0x0101
  const MULTI_MEMORY_READ: U16 := 0x0104

  /** Contents of the controller: words by area and address, bits by area, address and position. */
  datatype Memory = Memory(word: (Byte, nat) -> U16, bit: (Byte, nat, nat) -> Byte)

  datatype Sent = Sent(command: U16, data: seq<Byte>)

  /** What the link does to one command: lose it, return an end code, or pass at most `limit` bytes. */
  datatype Outcome = Lost | Refused(endCode: U16) | Passed(limit: nat)

  /** `Panic` stands for the slice expression that ends the process. */
  datatype Error = BadAddress | LinkDown | EndCode(endCode: U16) | ShortReply | Panic

  const ADDRESS_RANGE_EXCEEDED: U16 := 0x1104

  predicate IsBitArea(area: Byte) {
    area in {0x30, 0x31, 0x32, 0x33, 0x02, 0x06}
  }

  function BitAreaFromWordArea(area: Byte): Byte {
    match area
    case 0xB0 => 0x30
    case 0xB1 => 0x31
    case 0xB2 => 0x32
    case 0xB3 => 0x33
    case 0x82 => 0x02
    case _ => area
  }

  /** The words at `address .. address + n` of an area. */
  function WordsAt(mem: Memory, area: Byte, address: nat, n: nat): (ws: seq<U16>)
    ensures |ws| == n
  {
    seq<U16>(n, j requires 0 <= j => mem.word(area, address + j))
  }

  /** Big-endian bytes of a list of words. */
  function BeBytes(ws: seq<U16>): (s: seq<Byte>)
    ensures |s| == 2 * |ws|
    ensures forall j :: 0 <= j < |ws| ==> s[2 * j] == ws[j] / 0x100 && s[2 * j + 1] == ws[j] % 0x100
  {
    if ws == [] then [] else
      assert forall j :: 1 <= j < |ws| ==> ws[j] == ws[1..][j - 1];
      Be16(ws[0]) + BeBytes(ws[1..])
  }

  /** Bytes that hold the high and low half of each word are its big-endian encoding. */
  lemma {:induction false} BytesOfWords(bytes: seq<Byte>, ws: seq<U16>)
    requires |bytes| == 2 * |ws|
    requires forall i :: 0 <= i < |ws| ==> bytes[2 * i] == ws[i] / 0x100 && bytes[2 * i + 1] == ws[i] % 0x100
    ensures bytes == BeBytes(ws)
  {
    forall k | 0 <= k < |bytes|
      ensures bytes[k] == BeBytes(ws)[k]
    {
      assert k == 2 * (k / 2) || k == 2 * (k / 2) + 1;
      assert BeBytes(ws)[2 * (k / 2)] == ws[k / 2] / 0x100;
    }
  }

  /** The data field of command 0x0101: area, address, bit position, item count. */
  function ReadRequest(area: Byte, address: U16, bitOffset: Byte, count: U16): (s: seq<Byte>) {
    [area] + Be16(address) + [bitOffset] + Be16(count)
  }

  /** One element of the reply to 0x0104: a word, or a byte for a bit area. */
  function Element(mem: Memory, entry: seq<Byte>): seq<Byte>
    requires |entry| == 4
  {
    if IsBitArea(entry[0]) then [mem.bit(entry[0], GetBe16(entry, 1), entry[3])]
    else Be16(mem.word(entry[0], GetBe16(entry, 1)))
  }

  function Elements(mem: Memory, entries: seq<Byte>): seq<Byte>
    requires |entries| % 4 == 0
  {
    if entries == [] then [] else Element(mem, entries[..4]) + Elements(mem, entries[4..])
  }

  /** The controller's side: decode the data field and read memory. */
  function Respond(mem: Memory, sent: Sent): Result<seq<Byte>, Error> {
    var data := sent.data;
    if sent.command == MEMORY_READ && |data| == 6 then
      var area, address, count := data[0], GetBe16(data, 1), GetBe16(data, 4);
      if IsBitArea(area) then Ok(seq<Byte>(count, k requires 0 <= k => mem.bit(area, address, data[3] + k)))
      else if address + count > 0x1_0000 then Err(EndCode(ADDRESS_RANGE_EXCEEDED))
      else Ok(BeBytes(WordsAt(mem, area, address, count)))
    else if sent.command == MULTI_MEMORY_READ && |data| >= 1 && |data| == 1 + 4 * data[0] as int then
      Ok(Elements(mem, data[1..]))
    else Err(EndCode(0x1003))
  }

  /** What the caller of sendCommand gets back. */
  function Reply(mem: Memory, outcome: Outcome, sent: Sent): Result<seq<Byte>, Error> {
    match outcome
    case Lost => Err(LinkDown)
    case Refused(endCode) => Err(EndCode(endCode))
    case Passed(limit) =>
      match Respond(mem, sent)
      case Err(e) => Err(e)
      case Ok(data) => Ok(if limit < |data| then data[..limit] else data)
  }

  /** Word counts from here on make the 16-bit positions of the last reply bytes cross. */
  const PANIC_COUNT := 0x8000

  /** The words a 0x0101 read delivers, if it delivers all it was asked for and can take them apart. */
  function WordsReply(mem: Memory, outcome: Outcome, area: Byte, address: U16, count: U16): Result<seq<U16>, Error> {
    match Reply(mem, outcome, Sent(MEMORY_READ, ReadRequest(area, address, 0, count)))
    case Err(e) => Err(e)
    case Ok(data) =>
      if |data| < 2 * count then Err(ShortReply)
      else if count >= PANIC_COUNT then Err(Panic)
      else Ok(WordsAt(mem, area, address, count))
  }

  lemma {:induction false} ReadRequestRespond(mem: Memory, area: Byte, address: U16, bitOffset: Byte, count: U16)
    ensures Respond(mem, Sent(MEMORY_READ, ReadRequest(area, address, bitOffset, count))) ==
            if IsBitArea(area) then Ok(seq<Byte>(count, k requires 0 <= k => mem.bit(area, address, bitOffset + k)))
            else if address + count > 0x1_0000 then Err(EndCode(ADDRESS_RANGE_EXCEEDED))
            else Ok(BeBytes(WordsAt(mem, area, address, count)))
  {
    var data := ReadRequest(area, address, bitOffset, count);
    Be16RoundTrip(data, 1, address);
    Be16RoundTrip(data, 4, count);
  }

  /** A controller, its link, and the commands sent over it so far. */
  datatype History = History(memory: Memory, outcome: nat -> Outcome, log: seq<Sent>)

  ghost predicate Extends(later: History, earlier: History) {
    later.memory == earlier.memory && later.outcome == earlier.outcome && earlier.log <= later.log
  }

  class Transport {
    const memory: Memory
    const outcome: nat -> Outcome
    var log: seq<Sent>

    constructor (memory: Memory, outcome: nat -> Outcome)
      ensures this.memory == memory && this.outcome == outcome && log == []
    {
      this.memory := memory;
      this.outcome := outcome;
      log := [];
    }

    ghost function Past(): History
      reads this
    {
      History(memory, outcome, log)
    }

    method SendCommand(command: U16, data: seq<Byte>) returns (r: Result<seq<Byte>, Error>)
      modifies this
      ensures log == old(log) + [Sent(command, data)]
      ensures r == Reply(memory, outcome(old(|log|)), Sent(command, data))
    {
      r := Reply(memory, outcome(|log|), Sent(command, data));
      log := log + [Sent(command, data)];
    }

    method ReadWords(area: Byte, address: U16, count: U16) returns (r: Result<seq<U16>, Error>)
      modifies this
      ensures log == old(log) + [Sent(MEMORY_READ, ReadRequest(area, address, 0, count))]
      ensures r == WordsReply(memory, outcome(old(|log|)), area, address, count)
    {
      hide BeBytes;
      var resp := SendCommand(MEMORY_READ, ReadRequest(area, address, 0, count));
      ReadRequestRespond(memory, area, address, 0, count);
      if resp.Err? {
        return Err(resp.error);
      }
      var data := resp.value;
      if |data| < 2 * count {
        return Err(ShortReply);
      }
      ghost var expected := WordsAt(memory, area, address, count);
      var words := new U16[count];
      for i := 0 to count
        modifies words
        invariant i < PANIC_COUNT
        invariant forall j :: 0 <= j < i ==> words[j] == expected[j]
      {
        var lo := ToU16(2 * i);
        var hi := ToU16(lo as int + 2);
        if lo > hi {
          return Err(Panic);
        }
        words[i] := GetBe16(data, lo);
        assert data[2 * i] == BeBytes(expected)[2 * i] && data[2 * i + 1] == BeBytes(expected)[2 * i + 1];
      }
      assert words[..] == expected;
      r := Ok(words[..]);
    }

    method ReadBits(area: Byte, address: U16, bitOffset: Byte, count: U16) returns (r: Result<seq<bool>, Error>)
      modifies this
      ensures log == old(log) + [Sent(MEMORY_READ, ReadRequest(area, address, bitOffset, count))]
      ensures r == BitsReply(memory, outcome(old(|log|)), area, address, bitOffset, count)
    {
      var resp := SendCommand(MEMORY_READ, ReadRequest(area, address, bitOffset, count));
      if resp.Err? {
        return Err(resp.error);
      }
      var data := resp.value;
      if |data| < count {
        return Err(ShortReply);
      }
      var bits := new bool[count];
      for i := 0 to count
        modifies bits
        invariant forall j :: 0 <= j < i ==> bits[j] == (data[j] != 0)
      {
        bits[i] := data[i] != 0;
      }
      assert bits[..] == seq(count, k requires 0 <= k < |data| => data[k] != 0);
      r := Ok(bits[..]);
    }
  }

  /** The flags a bit read delivers: the first `count` bytes of the reply, compared with zero. */
  function BitsReply(mem: Memory, outcome: Outcome, area: Byte, address: U16, bitOffset: Byte, count: U16)
    : Result<seq<bool>, Error>
  {
    match Reply(mem, outcome, Sent(MEMORY_READ, ReadRequest(area, address, bitOffset, count)))
    case Err(e) => Err(e)
    case Ok(data) =>
      if |data| < count then Err(ShortReply)
      else Ok(seq(count, k requires 0 <= k < |data| => data[k] != 0))
  }
}
