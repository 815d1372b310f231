/**
  S7 writes: one request, or chunks laid one after the other.
 */
module S7Write {
  import opened Bytes
  import opened S7Protocol
  import opened S7Request
  import opened S7Client

  /** The error a write reply carries, if any. */
  function ParseWriteResponse(data: seq<Byte>): Option<Error> {
    if |data| < 12 then Some(TooShort)
    else if data[0] != PROTOCOL_ID then Some(BadProtocol)
    else if data[1] != MSG_ACK_DATA && data[1] != MSG_ACK then Some(UnexpectedMessage)
    else if data[10] != 0 || data[11] != 0 then Some(S7Error(data[10], data[11]))
    else if data[1] == MSG_ACK then None
    else
      var dataStart := 12 + GetBe16(data, 6);
      if dataStart >= |data| then Some(EndOfData)
      else if data[dataStart] != ITEM_SUCCESS then Some(ItemError(data[dataStart]))
      else None
  }

  /** Two memories that hold the same bytes. */
  ghost predicate SameStore(s: Store, t: Store) {
    forall area: Byte, db: U16, k: nat :: s(area, db, k) == t(area, db, k)
  }

  lemma {:induction false} SameAsItself(s: Store)
    ensures SameStore(s, s)
  {
  }

  /** Old memory with `data` laid over the address. */
  function Written(store: Store, addr: Address, offset: nat, data: seq<Byte>): Store {
    Overlay(store, AreaCode(addr.area), BlockOf(addr), offset, data)
  }

  /** A byte-wise address whose whole range the wire can name. */
  predicate ByteAddress(addr: Address, n: nat) {
    addr.bitNum < 0 && TransportSize(addr.dataType, false) != TS_BIT && Addressable(addr, addr.offset, n)
  }

  /** The reply to a write says whether the controller refused it. */
  lemma {:induction false} WriteReply(store: Store, policy: Policy, limit: nat, req: seq<Byte>)
    requires DecodeWrite(req).Some? && DecodeRead(req).None?
    ensures ParseWriteResponse(Respond(store, policy, limit, req)).None? <==> policy.fault(DecodeWrite(req).value.0).None?
  {
    var verdict := match policy.fault(DecodeWrite(req).value.0) {
      case Some(code) => if code == ITEM_SUCCESS then 0x01 else code
      case None => ITEM_SUCCESS
    };
    var pdu := ReadResponse(GetBe16(req, 4), [FUNC_WRITE, 1], [verdict]);
    assert pdu[6..8] == Be16(2);
    Be16RoundTrip(pdu, 6, 2);
    assert pdu[14] == verdict;
  }

  /** As much of the data as a 16-bit bit count can say. */
  function Counted(data: seq<Byte>): (counted: seq<Byte>)
    ensures |data| < 0x2000 ==> counted == data
  {
    data[..|data| % 0x2000]
  }

  /**
    An accepted byte write lays over the range as much of its data as its
    16-bit bit count says, all of it below 8192 bytes, and changes nothing else.
   */
  lemma {:induction false} WriteEffect(store: Store, policy: Policy, addr: Address, data: seq<Byte>, ref: U16)
    requires ByteAddress(addr, |data|)
    ensures SameStore(Effect(store, policy, BuildWriteRequest(addr, data, ref)),
                      if policy.fault(Wire(addr)).Some? then store
                      else Written(store, addr, addr.offset, Counted(data)))
  {
    hide BuildWriteRequest, DecodeWrite, DecodeRead;
    DecodeBuildWrite(addr, data, ref);
    assert data != [] ==> Wire(addr).bitAddr / 8 == addr.offset;
  }

  /** Every bit of memory, the addressed one apart, is as before. */
  ghost predicate OnlyBit(before: Store, after: Store, addr: Address, value: nat)
    requires 0 <= addr.bitNum < 8
  {
    forall area: Byte, db: U16, k: nat, j: nat | j < 8 ::
      BitOf(after(area, db, k), j) ==
      if area == AreaCode(addr.area) && db == BlockOf(addr) && k == addr.offset && j == addr.bitNum then value
      else BitOf(before(area, db, k), j)
  }

  /** A bit write that the controller accepts sets that bit and no other. */
  lemma {:induction false} BitWriteEffect(store: Store, policy: Policy, addr: Address, value: Byte, ref: U16)
    requires 0 <= addr.bitNum < 8 && Addressable(addr, addr.offset, 1) && policy.fault(Wire(addr)).None?
    ensures OnlyBit(store, Effect(store, policy, BuildWriteRequest(addr, [value], ref)), addr, value % 2)
  {
    hide BuildWriteRequest, DecodeWrite, DecodeRead, BitOf, WithBit, ToU16;
    DecodeBuildBitWrite(addr, value, ref);
    var w, after := Wire(addr), Effect(store, policy, BuildWriteRequest(addr, [value], ref));
    assert w.bitAddr == 8 * addr.offset + addr.bitNum;
    forall area: Byte, db: U16, k: nat, j: nat | j < 8
      ensures BitOf(after(area, db, k), j) ==
              if area == AreaCode(addr.area) && db == BlockOf(addr) && k == addr.offset && j == addr.bitNum then value % 2
              else BitOf(store(area, db, k), j)
    {
      WithBitExact(store(area, db, k), addr.bitNum, value % 2, j);
    }
  }

  /** Data written behind data is data written at once. */
  lemma {:induction false} WriteJoin(s: Store, t: Store, u: Store, addr: Address, offset: nat,
                                     first: seq<Byte>, second: seq<Byte>)
    requires SameStore(t, Written(s, addr, offset, first))
    requires SameStore(u, Written(t, addr, offset + |first|, second))
    ensures SameStore(u, Written(s, addr, offset, first + second))
  {
    forall area: Byte, db: U16, k: nat
      ensures u(area, db, k) == Written(s, addr, offset, first + second)(area, db, k)
    {
      assert u(area, db, k) == Written(t, addr, offset + |first|, second)(area, db, k);
      assert t(area, db, k) == Written(s, addr, offset, first)(area, db, k);
    }
  }

  /** The largest data part of one write request. */
  function MaxWritePayload(pduSize: U16): (n: nat)
    ensures n >= 20
  {
    if pduSize < 55 then 180 else pduSize - 35
  }

  /** What one write request did to memory, and what it reported. */
  ghost predicate WriteResult(policy: Policy, outcome: Outcome, before: Store, after: Store, addr: Address,
                              data: seq<Byte>, err: Option<Error>)
    requires addr.bitNum < 8
  {
    && (err.None? <==> outcome.Served? && policy.fault(Wire(addr)).None?)
    && (err.None? ==> SameStore(after, Written(before, addr, addr.offset, data)))
    && (SameStore(after, before) || SameStore(after, Written(before, addr, addr.offset, data)))
  }

  /** What one bit write did to memory, and what it reported. */
  ghost predicate BitResult(policy: Policy, outcome: Outcome, before: Store, after: Store, addr: Address,
                            value: Byte, err: Option<Error>)
    requires 0 <= addr.bitNum < 8
  {
    && (err.None? <==> outcome.Served? && policy.fault(Wire(addr)).None?)
    && (err.None? ==> OnlyBit(before, after, addr, value % 2))
  }

  /** One bit that the wire can name, with one byte of data. */
  predicate BitAddress(addr: Address, data: seq<Byte>) {
    0 <= addr.bitNum < 8 && |data| == 1 && Addressable(addr, addr.offset, 1)
  }

  method WriteAddressSingle(c: Client, addr: Address, data: seq<Byte>) returns (err: Option<Error>)
    requires addr.bitNum < 8
    modifies c`pduRef, c.transport
    ensures |c.transport.log| == |old(c.transport.log)| + 1
    ensures ByteAddress(addr, |data|) ==>
              WriteResult(c.transport.policy, c.transport.outcome(old(|c.transport.log|)),
                          old(c.transport.store), c.transport.store, addr, Counted(data), err)
    ensures BitAddress(addr, data) ==>
              BitResult(c.transport.policy, c.transport.outcome(old(|c.transport.log|)),
                        old(c.transport.store), c.transport.store, addr, data[0], err)
  {
    hide BuildWriteRequest, Respond, ParseWriteResponse, DecodeWrite, DecodeRead, SameStore, OnlyBit, Effect;
    var ref := c.NextPDURef();
    var req := BuildWriteRequest(addr, data, ref);
    var response := c.transport.SendReceive(req);
    ghost var before, policy := old(c.transport.store), c.transport.policy;
    SameAsItself(before);
    if ByteAddress(addr, |data|) {
      DecodeBuildWrite(addr, data, ref);
      WriteEffect(before, policy, addr, data, ref);
    } else if BitAddress(addr, data) {
      assert data == [data[0]];
      DecodeBuildBitWrite(addr, data[0], ref);
      if policy.fault(Wire(addr)).None? {
        BitWriteEffect(before, policy, addr, data[0], ref);
      }
    }
    if response.Ok? && DecodeWrite(req).Some? && DecodeRead(req).None? {
      WriteReply(before, policy, c.transport.outcome(old(|c.transport.log|)).limit, req);
    }
    match response {
      case Err(e) => err := Some(e);
      case Ok(bytes) => err := ParseWriteResponse(bytes);
    }
  }

  /** The memory after some prefix of the data has been written. */
  ghost predicate PartlyWritten(before: Store, after: Store, addr: Address, data: seq<Byte>) {
    exists k :: 0 <= k <= |data| && SameStore(after, Written(before, addr, addr.offset, data[..k]))
  }

  /** Writes in chunks keep their place: the `done` bytes before this chunk, then the chunk or nothing of it. */
  lemma {:induction false} ChunkWritten(policy: Policy, outcome: Outcome, before: Store, mid: Store, after: Store,
                                        addr: Address, data: seq<Byte>, done: nat, n: nat, err: Option<Error>)
    requires done + n <= |data| && addr.bitNum < 8
    requires SameStore(mid, Written(before, addr, addr.offset, data[..done]))
    requires WriteResult(policy, outcome, mid, after, ChunkAddress(addr, addr.offset + done, n), data[done..done + n], err)
    ensures err.None? ==> SameStore(after, Written(before, addr, addr.offset, data[..done + n]))
    ensures PartlyWritten(before, after, addr, data)
  {
    var chunk := ChunkAddress(addr, addr.offset + done, n);
    assert data[..done] + data[done..done + n] == data[..done + n];
    if SameStore(after, Written(mid, chunk, chunk.offset, data[done..done + n])) {
      WriteJoin(before, mid, after, addr, addr.offset, data[..done], data[done..done + n]);
    } else {
      assert SameStore(after, Written(before, addr, addr.offset, data[..done]));
    }
  }

  lemma {:induction false} NothingWritten(before: Store, addr: Address, data: seq<Byte>)
    ensures SameStore(before, Written(before, addr, addr.offset, data[..0]))
    ensures PartlyWritten(before, before, addr, data)
  {
    assert SameStore(before, Written(before, addr, addr.offset, data[..0]));
  }

  /** The controller accepts every write. */
  ghost predicate Writable(policy: Policy) {
    forall w: WireItem :: policy.fault(w).None?
  }

  /**
    Writing in one request or in chunks. On success memory is the old contents
    overlaid with the data, chunk by chunk as far as each bit count says. If no
    chunk reaches 8192 bytes that is all of it, and after an error memory is
    overlaid with some prefix of it.
   */
  method WriteAddress(c: Client, addr: Address, data: seq<Byte>) returns (err: Option<Error>)
    requires addr.bitNum < 8
    modifies c`pduRef, c.transport
    ensures |old(c.transport.log)| <= |c.transport.log|
    ensures err.None? ==>
              var maxPayload := MaxWritePayload(c.transport.pduSize);
              |c.transport.log| == |old(c.transport.log)| +
                                   (if |data| <= maxPayload then 1 else ChunkCount(|data|, maxPayload))
    ensures ByteAddress(addr, |data|) ==>
              var maxPayload := MaxWritePayload(c.transport.pduSize);
              && (err.None? ==> SameStore(c.transport.store, WrittenFrom(old(c.transport.store), addr, data, 0, maxPayload)))
              && PartlyLaid(old(c.transport.store), c.transport.store, addr, data, maxPayload)
              && (Writable(c.transport.policy) && Flawless(c.transport.outcome, old(|c.transport.log|), |c.transport.log|)
                  ==> err.None?)
    ensures Min(|data|, MaxWritePayload(c.transport.pduSize)) < 0x2000 && ByteAddress(addr, |data|) ==>
              && (err.None? ==> SameStore(c.transport.store, Written(old(c.transport.store), addr, addr.offset, data)))
              && PartlyWritten(old(c.transport.store), c.transport.store, addr, data)
    ensures BitAddress(addr, data) && err.None? ==>
              OnlyBit(old(c.transport.store), c.transport.store, addr, data[0] % 2)
  {
    hide OnlyBit, SameStore, WrittenFrom, Written, PartlyWritten, PartlyLaid, Counted;
    CountedShort(data);
    var maxPayload: int := c.transport.pduSize - 35;
    if maxPayload < 20 {
      maxPayload := 180;
    }
    if |data| <= maxPayload {
      err := WriteAddressSingle(c, addr, data);
      if ByteAddress(addr, |data|) {
        if |data| < 0x2000 {
          SingleWritten(old(c.transport.store), c.transport.store, addr, data, err);
        }
        AllOrNothing(old(c.transport.store), c.transport.store, addr, data, maxPayload);
      }
    } else {
      err := WriteInChunks(c, addr, data, maxPayload);
    }
  }

  lemma {:induction false} SingleWritten(before: Store, after: Store, addr: Address, data: seq<Byte>, err: Option<Error>)
    requires SameStore(after, before) || SameStore(after, Written(before, addr, addr.offset, data))
    ensures PartlyWritten(before, after, addr, data)
  {
    assert data[..|data|] == data;
    if SameStore(after, before) {
      assert SameStore(after, Written(before, addr, addr.offset, data[..0]));
    }
  }

  lemma {:induction false} CountedShort(data: seq<Byte>)
    ensures |data| < 0x2000 ==> Counted(data) == data
  {
  }

  /** One request lays all of its data or nothing. */
  lemma {:induction false} AllOrNothing(before: Store, after: Store, addr: Address, data: seq<Byte>, maxPayload: nat)
    requires 0 < maxPayload && |data| <= maxPayload
    requires SameStore(after, before) || SameStore(after, Written(before, addr, addr.offset, Counted(data)))
    ensures PartlyLaid(before, after, addr, data, maxPayload)
    ensures SameStore(after, Written(before, addr, addr.offset, Counted(data))) ==>
              SameStore(after, WrittenFrom(before, addr, data, 0, maxPayload))
  {
    hide SameStore, Counted;
    NothingLaid(before, addr, data, maxPayload);
    if SameStore(after, before) {
      SameTrans(after, before, WrittenFrom(before, addr, data[..0], 0, maxPayload));
    }
    if SameStore(after, Written(before, addr, addr.offset, Counted(data))) {
      WholeInOne(before, after, addr, data, maxPayload);
      assert data[..|data|] == data;
    }
  }

  lemma {:induction false} WholeInOne(before: Store, after: Store, addr: Address, data: seq<Byte>, maxPayload: nat)
    requires 0 < maxPayload && |data| <= maxPayload
    requires SameStore(after, Written(before, addr, addr.offset, Counted(data)))
    ensures SameStore(after, WrittenFrom(before, addr, data, 0, maxPayload))
  {
    if data != [] {
      assert data[0..|data|] == data;
      var whole := Written(before, addr, addr.offset + 0, Counted(data[0..|data|]));
      assert WrittenFrom(before, addr, data, 0, maxPayload) == WrittenFrom(whole, addr, data, |data|, maxPayload);
    }
  }

  /** A chunk of an address the wire can name can be named too. */
  lemma {:induction false} ChunkNamed(addr: Address, total: nat, done: nat, n: nat)
    requires ByteAddress(addr, total) && done + n <= total
    ensures ByteAddress(ChunkAddress(addr, addr.offset + done, n), n)
  {
  }

  // ---------------------------------------------------------------- any PDU size

  /** Memory after the data from byte `done` on has been written in full chunks, each as far as its bit count says. */
  function WrittenFrom(store: Store, addr: Address, data: seq<Byte>, done: nat, maxPayload: nat): Store
    requires maxPayload > 0
    decreases |data| - done
  {
    if done >= |data| then store else
      var n := Min(|data| - done, maxPayload);
      WrittenFrom(Written(store, addr, addr.offset + done, Counted(data[done..done + n])), addr, data, done + n, maxPayload)
  }

  lemma {:induction false} WrittenSame(s: Store, t: Store, addr: Address, offset: nat, data: seq<Byte>)
    requires SameStore(s, t)
    ensures SameStore(Written(s, addr, offset, data), Written(t, addr, offset, data))
  {
  }

  lemma {:induction false} SameTrans(s: Store, t: Store, u: Store)
    requires SameStore(s, t) && SameStore(t, u)
    ensures SameStore(s, u)
  {
    forall area: Byte, db: U16, k: nat
      ensures s(area, db, k) == u(area, db, k)
    {
      assert s(area, db, k) == t(area, db, k);
    }
  }

  /** Below 8192 bytes a chunk, writing in chunks is writing at once. */
  lemma {:induction false} ShortChunks(store: Store, addr: Address, data: seq<Byte>, done: nat, maxPayload: nat)
    requires 0 < maxPayload && Min(|data|, maxPayload) < 0x2000 && done <= |data|
    ensures SameStore(WrittenFrom(store, addr, data, done, maxPayload),
                      Written(store, addr, addr.offset + done, data[done..]))
    decreases |data| - done
  {
    hide Written, SameStore;
    if done < |data| {
      var n := Min(|data| - done, maxPayload);
      var chunk := data[done..done + n];
      assert Counted(chunk) == chunk;
      var mid := Written(store, addr, addr.offset + done, chunk);
      ShortChunks(mid, addr, data, done + n, maxPayload);
      SameAsItself(mid);
      WriteJoin(store, mid, WrittenFrom(mid, addr, data, done + n, maxPayload), addr, addr.offset + done, chunk,
                data[done + n..]);
      assert chunk + data[done + n..] == data[done..];
    } else {
      NoneWritten(store, addr, addr.offset + done, data[done..]);
    }
  }

  lemma {:induction false} NoneWritten(store: Store, addr: Address, offset: nat, data: seq<Byte>)
    requires data == []
    ensures SameStore(store, Written(store, addr, offset, data))
  {
  }

  /** Later chunks leave what lies before them alone. */
  lemma {:induction false} LaterChunks(store: Store, addr: Address, data: seq<Byte>, done: nat, maxPayload: nat, k: nat)
    requires maxPayload > 0 && k < addr.offset + done
    ensures WrittenFrom(store, addr, data, done, maxPayload)(AreaCode(addr.area), BlockOf(addr), k) ==
            store(AreaCode(addr.area), BlockOf(addr), k)
    decreases |data| - done
  {
    if done < |data| {
      var n := Min(|data| - done, maxPayload);
      LaterChunks(Written(store, addr, addr.offset + done, Counted(data[done..done + n])), addr, data, done + n, maxPayload, k);
    }
  }

  /**
    Writing in chunks lays exactly the data over memory, whatever it held,
    if and only if no chunk reaches 8192 bytes.
   */
  lemma {:induction false} WholeWhenShort(addr: Address, data: seq<Byte>, maxPayload: nat)
    requires maxPayload > 0
    ensures (forall store: Store ::
              SameStore(WrittenFrom(store, addr, data, 0, maxPayload), Written(store, addr, addr.offset, data)))
            <==> Min(|data|, maxPayload) < 0x2000
  {
    hide SameStore, WrittenFrom;
    if Min(|data|, maxPayload) < 0x2000 {
      forall store: Store
        ensures SameStore(WrittenFrom(store, addr, data, 0, maxPayload), Written(store, addr, addr.offset, data))
      {
        ShortChunks(store, addr, data, 0, maxPayload);
        assert data[0..] == data;
      }
    } else {
      var store := LostByte(addr, data, maxPayload);
      assert !SameStore(WrittenFrom(store, addr, data, 0, maxPayload), Written(store, addr, addr.offset, data));
    }
  }

  /** The last byte of a first chunk of 8192 bytes or more is not written. */
  lemma {:induction false} LostByte(addr: Address, data: seq<Byte>, maxPayload: nat) returns (store: Store)
    requires maxPayload > 0 && Min(|data|, maxPayload) >= 0x2000
    ensures !SameStore(WrittenFrom(store, addr, data, 0, maxPayload), Written(store, addr, addr.offset, data))
  {
    var n := Min(|data|, maxPayload);
    var last: int := data[n - 1];
    store := (_, _, _) => (if last == 0 then 1 else 0) as Byte;
    var area, db, k := AreaCode(addr.area), BlockOf(addr), addr.offset + n - 1;
    var mid := Written(store, addr, addr.offset + 0, Counted(data[0..n]));
    LaterChunks(mid, addr, data, n, maxPayload, k);
    assert |Counted(data[0..n])| == n % 0x2000 < n;
    assert mid(area, db, k) == store(area, db, k) != last;
    assert Written(store, addr, addr.offset, data)(area, db, k) == last;
    assert WrittenFrom(store, addr, data, 0, maxPayload) == WrittenFrom(mid, addr, data, n, maxPayload);
  }

  /** The memory after some of those chunks. */
  ghost predicate PartlyLaid(before: Store, after: Store, addr: Address, data: seq<Byte>, maxPayload: nat)
    requires maxPayload > 0
  {
    exists k :: 0 <= k <= |data| && SameStore(after, WrittenFrom(before, addr, data[..k], 0, maxPayload))
  }

  /** One more chunk behind `chunks` full ones. */
  lemma {:induction false} OneMoreLaid(store: Store, addr: Address, data: seq<Byte>, at: nat, chunks: nat, done: nat,
                                       n: nat, maxPayload: nat)
    requires maxPayload > 0 && at + chunks * maxPayload == done && 0 < n <= maxPayload && done + n <= |data|
    ensures WrittenFrom(store, addr, data[..done + n], at, maxPayload) ==
            Written(WrittenFrom(store, addr, data[..done], at, maxPayload), addr, addr.offset + done,
                    Counted(data[done..done + n]))
    decreases chunks
  {
    hide Written, Counted;
    if chunks == 0 {
      assert data[..done + n][done..done + n] == data[done..done + n];
    } else {
      assert chunks * maxPayload == (chunks - 1) * maxPayload + maxPayload;
      MulMonotone(0, chunks - 1, maxPayload);
      var next := at + maxPayload;
      assert data[..done + n][at..next] == data[at..next] == data[..done][at..next];
      OneMoreLaid(Written(store, addr, addr.offset + at, Counted(data[at..next])), addr, data, next, chunks - 1, done, n,
                  maxPayload);
    }
  }

  /** A further chunk, written or not. */
  lemma {:induction false} ChunkLaid(before: Store, mid: Store, after: Store, addr: Address, data: seq<Byte>, chunks: nat,
                                     done: nat, n: nat, maxPayload: nat)
    requires maxPayload > 0 && chunks * maxPayload == done && 0 < n <= maxPayload && done + n <= |data|
    requires SameStore(mid, WrittenFrom(before, addr, data[..done], 0, maxPayload))
    ensures SameStore(after, mid) ==> PartlyLaid(before, after, addr, data, maxPayload)
    ensures SameStore(after, Written(mid, addr, addr.offset + done, Counted(data[done..done + n]))) ==>
              && SameStore(after, WrittenFrom(before, addr, data[..done + n], 0, maxPayload))
              && PartlyLaid(before, after, addr, data, maxPayload)
  {
    hide SameStore, WrittenFrom, Written, Counted;
    var laid := WrittenFrom(before, addr, data[..done], 0, maxPayload);
    if SameStore(after, mid) {
      SameTrans(after, mid, laid);
    }
    var chunk := Counted(data[done..done + n]);
    if SameStore(after, Written(mid, addr, addr.offset + done, chunk)) {
      OneMoreLaid(before, addr, data, 0, chunks, done, n, maxPayload);
      WrittenSame(mid, laid, addr, addr.offset + done, chunk);
      SameTrans(after, Written(mid, addr, addr.offset + done, chunk), Written(laid, addr, addr.offset + done, chunk));
    }
  }

  /** Writes the `n` bytes after the first `done`. */
  method WriteOneChunk(c: Client, addr: Address, data: seq<Byte>, done: nat, n: nat, ghost before: Store,
                       ghost usable: bool) returns (err: Option<Error>)
    requires addr.bitNum < 8 && done + n <= |data|
    requires usable ==> n < 0x2000 && ByteAddress(addr, |data|)
    requires usable ==> SameStore(c.transport.store, Written(before, addr, addr.offset, data[..done]))
    modifies c`pduRef, c.transport
    ensures |c.transport.log| == |old(c.transport.log)| + 1
    ensures ByteAddress(addr, |data|) ==>
              var after := Written(old(c.transport.store), addr, addr.offset + done, Counted(data[done..done + n]));
              && (err.None? ==> SameStore(c.transport.store, after))
              && (SameStore(c.transport.store, old(c.transport.store)) || SameStore(c.transport.store, after))
    ensures usable && err.None? ==> SameStore(c.transport.store, Written(before, addr, addr.offset, data[..done + n]))
    ensures usable ==> PartlyWritten(before, c.transport.store, addr, data)
    ensures ByteAddress(addr, |data|) && Writable(c.transport.policy) && c.transport.outcome(old(|c.transport.log|)).Served?
            ==> err.None?
  {
    hide SameStore, Written, PartlyWritten, ByteAddress, Wire, Counted;
    ghost var mid, sent := c.transport.store, |c.transport.log|;
    var chunk := ChunkAddress(addr, addr.offset + done, n);
    if ByteAddress(addr, |data|) {
      ChunkNamed(addr, |data|, done, n);
    }
    err := WriteAddressSingle(c, chunk, data[done..done + n]);
    SamePlace(mid, addr, chunk, addr.offset + done, Counted(data[done..done + n]));
    if usable {
      CountedShort(data[done..done + n]);
      ChunkWritten(c.transport.policy, c.transport.outcome(sent), before, mid, c.transport.store, addr, data, done, n, err);
    }
  }

  lemma {:induction false} SamePlace(store: Store, addr: Address, chunk: Address, offset: nat, data: seq<Byte>)
    requires chunk.area == addr.area && chunk.dbNumber == addr.dbNumber
    ensures Written(store, chunk, offset, data) == Written(store, addr, offset, data)
  {
  }

  method WriteInChunks(c: Client, addr: Address, data: seq<Byte>, maxPayload: nat) returns (err: Option<Error>)
    requires addr.bitNum < 8 && 20 <= maxPayload
    modifies c`pduRef, c.transport
    ensures |old(c.transport.log)| <= |c.transport.log|
    ensures err.None? ==> |c.transport.log| == |old(c.transport.log)| + ChunkCount(|data|, maxPayload)
    ensures ByteAddress(addr, |data|) ==>
              && (err.None? ==> SameStore(c.transport.store, WrittenFrom(old(c.transport.store), addr, data, 0, maxPayload)))
              && PartlyLaid(old(c.transport.store), c.transport.store, addr, data, maxPayload)
              && (Writable(c.transport.policy) && Flawless(c.transport.outcome, old(|c.transport.log|), |c.transport.log|)
                  ==> err.None?)
    ensures maxPayload < 0x2000 && ByteAddress(addr, |data|) ==>
              && (err.None? ==> SameStore(c.transport.store, Written(old(c.transport.store), addr, addr.offset, data)))
              && PartlyWritten(old(c.transport.store), c.transport.store, addr, data)
  {
    hide SameStore, Written, WrittenFrom, PartlyWritten, PartlyLaid, ByteAddress, Writable, Counted;
    var remaining, dataPos := |data|, 0;
    var maxChunks, chunkCount := |data| / maxPayload + 10, 0;
    ghost var before, named := c.transport.store, ByteAddress(addr, |data|);
    ghost var usable := maxPayload < 0x2000 && named;
    NothingWritten(before, addr, data);
    NothingLaid(before, addr, data, maxPayload);
    while remaining > 0
      invariant 0 <= dataPos <= |data| && dataPos + remaining == |data|
      invariant |old(c.transport.log)| <= |c.transport.log|
      invariant |c.transport.log| + ChunkCount(remaining, maxPayload) ==
                |old(c.transport.log)| + ChunkCount(|data|, maxPayload)
      invariant remaining > 0 ==> chunkCount * maxPayload == dataPos
      invariant named ==> SameStore(c.transport.store, WrittenFrom(before, addr, data[..dataPos], 0, maxPayload))
      invariant named ==> PartlyLaid(before, c.transport.store, addr, data, maxPayload)
      invariant usable ==> SameStore(c.transport.store, Written(before, addr, addr.offset, data[..dataPos]))
      invariant usable ==> PartlyWritten(before, c.transport.store, addr, data)
    {
      ghost var mid := c.transport.store;
      chunkCount := chunkCount + 1;
      if chunkCount > maxChunks {
        GuardNeverFires(|data|, maxPayload, dataPos, chunkCount - 1);
        assert false;
        return Some(TooManyChunks);
      }
      var chunkSize := if remaining > maxPayload then maxPayload else remaining;
      err := WriteOneChunk(c, addr, data, dataPos, chunkSize, before, usable);
      if named {
        ChunkLaid(before, mid, c.transport.store, addr, data, chunkCount - 1, dataPos, chunkSize, maxPayload);
      }
      if err.Some? {
        return;
      }
      dataPos := dataPos + chunkSize;
      remaining := remaining - chunkSize;
    }
    assert data[..dataPos] == data;
    err := None;
  }

  lemma {:induction false} NothingLaid(before: Store, addr: Address, data: seq<Byte>, maxPayload: nat)
    requires maxPayload > 0
    ensures SameStore(before, WrittenFrom(before, addr, data[..0], 0, maxPayload))
    ensures PartlyLaid(before, before, addr, data, maxPayload)
  {
    assert SameStore(before, WrittenFrom(before, addr, data[..0], 0, maxPayload));
  }
}
