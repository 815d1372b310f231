/**
  The S7 batch planner: parse and type every request, pack small reads into
  multi-item requests under the PDU limits, read large items alone, and put
  each answer in its request's own slot.
 */
module S7Batch {
  import opened Bytes
  import opened S7Protocol
  import opened S7Request
  import opened S7Client

  const TYPE_BOOL: U16 := 0x0001
  const TYPE_DINT: U16 := 0x0008
  const TYPE_STRING: U16 := 0x0014
  const TYPE_WSTRING: U16 := 0x0015

  /** A tag as the caller names it: the outcome of parsing its name, and the code its type hint stands for. */
  datatype TagRequest = TagRequest(address: string, parsed: Result<Address, Error>, typeHint: Option<U16>)

  datatype TagValue =
    TagValue(name: string, dataType: U16, bytes: seq<Byte>, bitNum: int, count: nat, error: Option<Error>)

  /** A request with the address to read, sized for all its elements. */
  datatype ParsedRequest = ParsedRequest(index: nat, name: string, target: Result<Address, Error>)

  // ---------------------------------------------------------------- typing

  function TypeSize(dataType: U16): nat {
    match dataType % 0x1000
    case 0x0001 | 0x0002 | 0x0003 | 0x0004 => 1
    case 0x0005 | 0x0006 | 0x000A | 0x0013 => 2
    case 0x0007 | 0x0008 | 0x0009 | 0x000B | 0x000C => 4
    case 0x0010 | 0x0011 | 0x0012 => 8
    case _ => 0
  }

  /** What the address parser produces: size 0 if the name gave no type, one bit, or one typed element. */
  predicate FromParser(addr: Address) {
    || (addr.bitNum < 0 && addr.size == 0)
    || (addr.bitNum < 0 && addr.size > 0 && addr.size == TypeSize(addr.dataType))
    || (0 <= addr.bitNum < 8 && addr.dataType == TYPE_BOOL && addr.size == 1 && addr.count == 1)
  }

  function ApplyHint(addr: Address, hint: Option<U16>): Address {
    if addr.size == 0 && hint.Some? then
      var size := TypeSize(hint.value);
      addr.(dataType := hint.value,
            size := if size != 0 then size
                    else if hint.value % 0x1000 == TYPE_STRING then 256
                    else if hint.value % 0x1000 == TYPE_WSTRING then 512
                    else 0)
    else addr
  }

  /** The address to read for a request: its hint applied, DINT by default, sized for all elements. */
  function ReadAddressOf(addr: Address, hint: Option<U16>): Address {
    var hinted := ApplyHint(addr, hint);
    var sized := if hinted.size == 0 then hinted.(dataType := TYPE_DINT, size := 4) else hinted;
    var counted := if sized.count < 1 then sized.(count := 1) else sized;
    counted.(size := counted.size * counted.count)
  }

  /** Whatever the parser and the hint say, the wire item of the address returns its declared size. */
  lemma {:induction false} ReadAddressTyped(addr: Address, hint: Option<U16>)
    requires FromParser(addr)
    ensures Typed(ReadAddressOf(addr, hint)) && ReadAddressOf(addr, hint).size > 0
  {
    var hinted := ApplyHint(addr, hint);
    var sized := if hinted.size == 0 then hinted.(dataType := TYPE_DINT, size := 4) else hinted;
    if addr.bitNum < 0 {
      assert TransportSize(sized.dataType, false) != TS_BYTE ==> sized.size == Width(TransportSize(sized.dataType, false));
    }
    var count := if sized.count < 1 then 1 else sized.count;
    assert sized.size * count > 0;
  }

  // ---------------------------------------------------------------- answers

  function Failed(name: string, e: Error): TagValue {
    TagValue(name, 0, [], 0, 0, Some(e))
  }

  function Report(p: ParsedRequest, r: Result<seq<Byte>, Error>): TagValue {
    match p.target
    case Err(e) => Failed(p.name, e)
    case Ok(addr) =>
      match r
      case Err(e) => Failed(p.name, e)
      case Ok(bytes) => TagValue(p.name, addr.dataType, bytes, addr.bitNum, addr.count, None)
  }

  /** A request that reaches the controller. */
  predicate Reaches(p: ParsedRequest) {
    p.target.Ok? && p.target.value.size > 0 && Typed(p.target.value)
  }

  predicate Ready(batch: seq<ParsedRequest>) {
    forall p | p in batch :: Reaches(p)
  }

  function Targets(batch: seq<ParsedRequest>): (addrs: seq<Address>)
    requires forall p | p in batch :: p.target.Ok?
    ensures |addrs| == |batch|
  {
    seq(|batch|, i requires 0 <= i < |batch| => batch[i].target.value)
  }

  lemma {:induction false} TargetsTyped(batch: seq<ParsedRequest>)
    requires Ready(batch)
    ensures forall a | a in Targets(batch) :: a.bitNum < 8 && Typed(a)
  {
    forall a | a in Targets(batch)
      ensures a.bitNum < 8 && Typed(a)
    {
      var k :| 0 <= k < |batch| && Targets(batch)[k] == a;
      assert batch[k] in batch;
    }
  }

  /** What the `i`th item of a batch comes back as, if the batch's first request is the `n`th. */
  function BatchValue(link: Link, n: nat, batch: seq<ParsedRequest>, i: nat): Result<seq<Byte>, Error>
    requires Ready(batch) && i < |batch|
  {
    TargetsTyped(batch);
    assert batch[i] in batch;
    if |batch| == 1 then ReadOver(link, n, batch[i].target.value)
    else ItemRead(link.store, link.policy, link.outcome(n), Targets(batch), i)
  }

  /** The requests a batch is sent as: one for all of it, or the chunks of its only item. */
  function BatchRequests(link: Link, n: nat, batch: seq<ParsedRequest>): seq<seq<Address>> {
    if !Ready(batch) then []
    else if |batch| == 1 then
      assert batch[0] in batch;
      Singles(AskedOver(link, n, batch[0].target.value))
    else [Targets(batch)]
  }

  /** The requests of batches sent one after the other, the first of them being the `from`th. */
  function Requests(link: Link, from: nat, batches: seq<seq<ParsedRequest>>): seq<seq<Address>> {
    if batches == [] then [] else
      var before := Requests(link, from, batches[..|batches| - 1]);
      before + BatchRequests(link, from + |before|, batches[|batches| - 1])
  }

  /** Number of the first request of batch `k`. */
  function StartOf(link: Link, from: nat, batches: seq<seq<ParsedRequest>>, k: nat): nat
    requires k <= |batches|
  {
    from + |Requests(link, from, batches[..k])|
  }

  /** `tv` reports what the requests of batch `k` brought for its `i`th item, which is `p`. */
  ghost predicate AnsweredBy(link: Link, from: nat, batches: seq<seq<ParsedRequest>>, k: nat, i: nat, p: ParsedRequest,
                             tv: Option<TagValue>) {
    && k < |batches| && i < |batches[k]| && batches[k][i] == p && Ready(batches[k])
    && tv == Some(Report(p, BatchValue(link, StartOf(link, from, batches, k), batches[k], i)))
  }

  /**
    `tv` answers `p`: a request that never reaches the controller has its own
    error, and any other exactly what came back for it, whatever the link did.
   */
  ghost predicate Answered(link: Link, from: nat, batches: seq<seq<ParsedRequest>>, p: ParsedRequest,
                           tv: Option<TagValue>) {
    if p.target.Err? then tv == Some(Failed(p.name, p.target.error))
    else if p.target.value.size <= 0 then tv == Some(Failed(p.name, BadSize))
    else exists k: nat, i: nat :: AnsweredBy(link, from, batches, k, i, p, tv)
  }

  lemma {:induction false} AnswerKept(link: Link, from: nat, batches: seq<seq<ParsedRequest>>,
                                      more: seq<seq<ParsedRequest>>, p: ParsedRequest, tv: Option<TagValue>)
    ensures Answered(link, from, batches, p, tv) ==> Answered(link, from, batches + more, p, tv)
  {
    hide BatchValue, Requests, Ready;
    if p.target.Ok? && p.target.value.size > 0 && Answered(link, from, batches, p, tv) {
      var k: nat, i: nat :| AnsweredBy(link, from, batches, k, i, p, tv);
      assert (batches + more)[..k] == batches[..k] && (batches + more)[k] == batches[k];
      assert AnsweredBy(link, from, batches + more, k, i, p, tv);
    }
  }

  // ---------------------------------------------------------------- limits

  /** The PDU size the planner works with. */
  function PlanSize(pduSize: U16): (n: nat)
    ensures 50 <= n < 0x1_0000
  {
    if pduSize < 50 then 240 else pduSize
  }

  function MaxItems(pduSize: U16): (n: nat)
    ensures 1 <= n <= 19 && 12 + 12 * n <= PlanSize(pduSize)
  {
    var n := (PlanSize(pduSize) - 12) / 12;
    if n > 19 then 19 else n
  }

  /** The request fits the PDU, and so does the reply but for padding. */
  predicate Fits(pduSize: U16, addrs: seq<Address>) {
    && 1 <= |addrs| && 12 + 12 * |addrs| <= PlanSize(pduSize)
    && PayloadSize(addrs) <= PlanSize(pduSize) - 16
    && (|addrs| > 1 ==> PayloadSize(addrs) <= PlanSize(pduSize) - 18 && |addrs| <= MaxItems(pduSize))
  }

  /** What the planner asks of a batch it is about to flush. */
  ghost predicate Packed(pduSize: U16, batch: seq<ParsedRequest>, size: nat) {
    && Ready(batch) && (forall p | p in batch :: p.index < size && 4 + p.target.value.size <= PlanSize(pduSize) - 18)
    && (forall i, j | 0 <= i < j < |batch| :: batch[i].index != batch[j].index)
    && |batch| <= MaxItems(pduSize) && PayloadSize(Targets(batch)) <= PlanSize(pduSize) - 18
  }

  /** Only the slots of `batch` may have changed. */
  ghost predicate OthersKept(batch: seq<ParsedRequest>, before: seq<Option<TagValue>>, after: seq<Option<TagValue>>) {
    && |before| == |after|
    && forall i | 0 <= i < |after| && (forall p | p in batch :: p.index != i) :: after[i] == before[i]
  }

  ghost predicate AllFit(pduSize: U16, asked: seq<seq<Address>>) {
    forall k | 0 <= k < |asked| :: Fits(pduSize, asked[k])
  }

  lemma {:induction false} ChunkFits(pduSize: U16, addrs: seq<Address>)
    requires IsChunk(addrs, MaxReadPayload(pduSize))
    ensures Fits(pduSize, addrs)
  {
    assert addrs == [addrs[0]] && PayloadSize(addrs) == 4 + addrs[0].size + PayloadSize(addrs[1..]);
  }

  /** The requests of a batch fit, whether it is packed or a single large item. */
  lemma {:induction false} BatchFits(link: Link, n: nat, batch: seq<ParsedRequest>, size: nat)
    requires (|batch| == 1 && Ready(batch)) || (|batch| > 1 && Packed(link.pduSize, batch, size))
    ensures AllFit(link.pduSize, BatchRequests(link, n, batch))
  {
    hide AskedOver;
    if |batch| == 1 {
      assert batch[0] in batch;
      var asked := Singles(AskedOver(link, n, batch[0].target.value));
      AskedInChunks(link, n, batch[0].target.value);
      forall k | 0 <= k < |asked|
        ensures Fits(link.pduSize, asked[k])
      {
        ChunkFits(link.pduSize, asked[k]);
      }
    }
  }

  // ---------------------------------------------------------------- sending a batch

  /** Every item of the batch has what came back for it. */
  ghost predicate BatchReported(link: Link, n: nat, batch: seq<ParsedRequest>, results: seq<Option<TagValue>>) {
    && Ready(batch)
    && forall i | 0 <= i < |batch| ::
         batch[i].index < |results| && results[batch[i].index] == Some(Report(batch[i], BatchValue(link, n, batch, i)))
  }

  /** Map the verdicts back to the requests' positions. */
  method Scatter(batch: seq<ParsedRequest>, replies: Result<seq<Reply>, Error>, results: array<Option<TagValue>>)
    requires replies.Ok? ==> |replies.value| == |batch|
    requires forall p | p in batch :: p.index < results.Length
    requires forall i, j | 0 <= i < j < |batch| :: batch[i].index != batch[j].index
    modifies results
    ensures forall i | 0 <= i < |batch| ::
              results[batch[i].index] == Some(Report(batch[i], ItemResult(replies, i)))
    ensures OthersKept(batch, old(results[..]), results[..])
  {
    hide Report, ItemResult;
    for i := 0 to |batch|
      invariant forall k | 0 <= k < i :: results[batch[k].index] == Some(Report(batch[k], ItemResult(replies, k)))
      invariant OthersKept(batch, old(results[..]), results[..])
    {
      var p := batch[i];
      assert p in batch;
      results[p.index] := Some(Report(p, ItemResult(replies, i)));
    }
  }

  /** All items of one request, scattered to their slots. */
  method ReadBatch(c: Client, batch: seq<ParsedRequest>, results: array<Option<TagValue>>)
    requires |batch| > 1 && Packed(c.transport.pduSize, batch, results.Length)
    modifies c, c.transport, results
    ensures c.transport.View() == old(c.transport.View()) && |c.transport.log| == |old(c.transport.log)| + 1
    ensures c.asked == old(c.asked) + BatchRequests(c.transport.View(), |old(c.transport.log)|, batch)
    ensures BatchReported(c.transport.View(), |old(c.transport.log)|, batch, results[..])
    ensures OthersKept(batch, old(results[..]), results[..])
  {
    hide PayloadSize, Report, ItemResult, ReadOutcome, Typed;
    TargetsTyped(batch);
    var replies := c.SendRead(Targets(batch));
    Scatter(batch, replies, results);
  }

  /** One request by itself, chunked if it is large. */
  method ReadOne(c: Client, p: ParsedRequest, results: array<Option<TagValue>>)
    requires Reaches(p) && p.index < results.Length
    modifies c, c.transport, results
    ensures c.transport.View() == old(c.transport.View())
    ensures c.asked == old(c.asked) + BatchRequests(c.transport.View(), |old(c.transport.log)|, [p])
    ensures |c.transport.log| - |old(c.transport.log)| == |c.asked| - |old(c.asked)|
    ensures BatchReported(c.transport.View(), |old(c.transport.log)|, [p], results[..])
    ensures results[..] == old(results[..])[p.index := results[p.index]]
  {
    hide Report, ReadOver, AskedOver;
    var r := c.ReadAddress(p.target.value);
    results[p.index] := Some(Report(p, r));
  }

  /** Send what has been packed so far: nothing, one single read, or one batch. */
  method FlushBatch(c: Client, batch: seq<ParsedRequest>, results: array<Option<TagValue>>)
    requires Packed(c.transport.pduSize, batch, results.Length)
    modifies c, c.transport, results
    ensures c.transport.View() == old(c.transport.View())
    ensures c.asked == old(c.asked) +
                       if batch == [] then [] else BatchRequests(c.transport.View(), |old(c.transport.log)|, batch)
    ensures |c.transport.log| - |old(c.transport.log)| == |c.asked| - |old(c.asked)|
    ensures BatchReported(c.transport.View(), |old(c.transport.log)|, batch, results[..])
    ensures OthersKept(batch, old(results[..]), results[..])
  {
    hide BatchRequests, BatchValue, PayloadSize;
    if |batch| == 0 {
      assert c.asked + [] == c.asked;
      return;
    }
    if |batch| == 1 {
      assert batch[0] in batch && batch == [batch[0]];
      ReadOne(c, batch[0], results);
    } else {
      ReadBatch(c, batch, results);
      OneForAll(c.transport.View(), |old(c.transport.log)|, batch);
    }
  }

  lemma {:induction false} OneForAll(link: Link, n: nat, batch: seq<ParsedRequest>)
    requires |batch| > 1 && Ready(batch)
    ensures |BatchRequests(link, n, batch)| == 1
  {
  }

  // ---------------------------------------------------------------- the greedy plan

  /** Batches closed in order, and the one still open. */
  datatype Plan = Plan(closed: seq<seq<ParsedRequest>>, open: seq<ParsedRequest>)

  ghost predicate AllOk(batch: seq<ParsedRequest>) {
    forall p | p in batch :: p.target.Ok?
  }

  function CloseOpen(open: seq<ParsedRequest>): seq<seq<ParsedRequest>> {
    if open == [] then [] else [open]
  }

  /** One request joins the open batch unless it is too large by itself or the batch has no room for it. */
  function PlanStep(pduSize: U16, open: seq<ParsedRequest>, p: ParsedRequest): (plan: Plan)
    requires AllOk(open)
    ensures AllOk(plan.open)
  {
    if p.target.Err? || p.target.value.size <= 0 then Plan([], open)
    else if 4 + p.target.value.size > PlanSize(pduSize) - 18 then Plan(CloseOpen(open) + [[p]], [])
    else if PayloadSize(Targets(open)) + 4 + p.target.value.size > PlanSize(pduSize) - 18
            || |open| >= MaxItems(pduSize) then Plan(CloseOpen(open), [p])
    else Plan([], open + [p])
  }

  /** The plan for a list of requests. */
  function PlanOf(pduSize: U16, ps: seq<ParsedRequest>): (plan: Plan)
    ensures AllOk(plan.open)
  {
    if ps == [] then Plan([], []) else
      var before := PlanOf(pduSize, ps[..|ps| - 1]);
      var step := PlanStep(pduSize, before.open, ps[|ps| - 1]);
      Plan(before.closed + step.closed, step.open)
  }

  lemma {:induction false} RequestsNext(link: Link, from: nat, batches: seq<seq<ParsedRequest>>, batch: seq<ParsedRequest>)
    ensures Requests(link, from, batches + [batch]) ==
            Requests(link, from, batches) + BatchRequests(link, from + |Requests(link, from, batches)|, batch)
  {
    hide BatchRequests;
    assert (batches + [batch])[..|batches|] == batches;
  }

  lemma {:induction false} PlanOfNext(pduSize: U16, ps: seq<ParsedRequest>, i: nat)
    requires i < |ps|
    ensures var before := PlanOf(pduSize, ps[..i]);
            PlanOf(pduSize, ps[..i + 1]) ==
            Plan(before.closed + PlanStep(pduSize, before.open, ps[i]).closed, PlanStep(pduSize, before.open, ps[i]).open)
  {
    assert ps[..i + 1][..i] == ps[..i];
  }

  // ---------------------------------------------------------------- the planner

  /** Requests sit at their own positions, and a parsed address is typed. */
  ghost predicate Numbered(parsed: seq<ParsedRequest>) {
    forall i | 0 <= i < |parsed| ::
      parsed[i].index == i && (parsed[i].target.Ok? ==> Typed(parsed[i].target.value))
  }

  /**
    Planner state before request `i`: what was sent is exactly the requests of
    the batches closed so far, each of which fits, and every earlier request is
    answered by them or waits in the open batch.
   */
  ghost predicate Planning(link: Link, from: nat, asked: seq<seq<Address>>, parsed: seq<ParsedRequest>, i: nat,
                           closed: seq<seq<ParsedRequest>>, batch: seq<ParsedRequest>, results: seq<Option<TagValue>>) {
    && i <= |parsed| == |results|
    && Packed(link.pduSize, batch, |parsed|)
    && (forall p | p in batch :: p.index < i && p == parsed[p.index])
    && asked == Requests(link, from, closed) && AllFit(link.pduSize, asked)
    && (forall j | 0 <= j < i :: parsed[j] in batch || Answered(link, from, closed, parsed[j], results[j]))
  }

  lemma {:induction false} PlanStart(link: Link, from: nat, asked: seq<seq<Address>>, parsed: seq<ParsedRequest>,
                                     results: seq<Option<TagValue>>)
    requires |parsed| == |results| && asked == []
    ensures Planning(link, from, asked, parsed, 0, [], [], results)
    ensures PlanOf(link.pduSize, parsed[..0]) == Plan([], [])
  {
  }

  /** A request that never reaches the controller is answered on the spot. */
  lemma {:induction false} PlanReject(link: Link, from: nat, asked: seq<seq<Address>>, parsed: seq<ParsedRequest>, i: nat,
                                      closed: seq<seq<ParsedRequest>>, batch: seq<ParsedRequest>,
                                      results: seq<Option<TagValue>>, tv: Option<TagValue>)
    requires i < |parsed| && Planning(link, from, asked, parsed, i, closed, batch, results)
    requires Answered(link, from, closed, parsed[i], tv)
    ensures Planning(link, from, asked, parsed, i + 1, closed, batch, results[i := tv])
  {
    hide Answered, Requests;
    forall j | 0 <= j < i + 1
      ensures parsed[j] in batch || Answered(link, from, closed, parsed[j], results[i := tv][j])
    {
      assert j < i ==> results[i := tv][j] == results[j];
    }
  }

  /** What a batch brought answers its requests once the batch is closed. */
  lemma {:induction false} BatchAnswers(link: Link, from: nat, closed: seq<seq<ParsedRequest>>, batch: seq<ParsedRequest>,
                                        results: seq<Option<TagValue>>, i: nat)
    requires BatchReported(link, from + |Requests(link, from, closed)|, batch, results) && i < |batch|
    ensures Answered(link, from, closed + [batch], batch[i], results[batch[i].index])
  {
    hide BatchValue, Requests, Report;
    var k, p := |closed|, batch[i];
    assert (closed + [batch])[..k] == closed && (closed + [batch])[k] == batch;
    assert p in batch;
    assert AnsweredBy(link, from, closed + [batch], k, i, p, results[p.index]);
  }

  /** Sending the batch empties it. */
  lemma {:induction false} PlanFlush(link: Link, from: nat, asked: seq<seq<Address>>, extra: seq<seq<Address>>,
                                     parsed: seq<ParsedRequest>, i: nat, closed: seq<seq<ParsedRequest>>,
                                     batch: seq<ParsedRequest>, before: seq<Option<TagValue>>, after: seq<Option<TagValue>>)
    requires Planning(link, from, asked, parsed, i, closed, batch, before) && Numbered(parsed) && batch != []
    requires OthersKept(batch, before, after) && extra == BatchRequests(link, from + |asked|, batch)
    requires BatchReported(link, from + |asked|, batch, after)
    ensures Planning(link, from, asked + extra, parsed, i, closed + [batch], [], after)
  {
    hide Answered, Requests, BatchRequests, BatchReported, Reaches;
    RequestsNext(link, from, closed, batch);
    BatchFits(link, from + |asked|, batch, |parsed|);
    forall j | 0 <= j < i
      ensures Answered(link, from, closed + [batch], parsed[j], after[j])
    {
      if k :| 0 <= k < |batch| && batch[k].index == j {
        assert batch[k] in batch;
        BatchAnswers(link, from, closed, batch, after, k);
      } else {
        assert parsed[j] !in batch && after[j] == before[j];
        AnswerKept(link, from, closed, [batch], parsed[j], before[j]);
      }
    }
  }

  /** A large item is read at once, between batches. */
  lemma {:induction false} PlanLarge(link: Link, from: nat, asked: seq<seq<Address>>, extra: seq<seq<Address>>,
                                     parsed: seq<ParsedRequest>, i: nat, closed: seq<seq<ParsedRequest>>,
                                     before: seq<Option<TagValue>>, after: seq<Option<TagValue>>)
    requires i < |parsed| && Planning(link, from, asked, parsed, i, closed, [], before) && Numbered(parsed)
    requires Reaches(parsed[i]) && extra == BatchRequests(link, from + |asked|, [parsed[i]])
    requires BatchReported(link, from + |asked|, [parsed[i]], after) && |after| == |before|
    requires forall j | 0 <= j < |after| && j != i :: after[j] == before[j]
    ensures Planning(link, from, asked + extra, parsed, i + 1, closed + [[parsed[i]]], [], after)
  {
    hide Answered, Requests, BatchRequests, BatchReported, PayloadSize, Reaches;
    RequestsNext(link, from, closed, [parsed[i]]);
    assert Ready([parsed[i]]);
    BatchFits(link, from + |asked|, [parsed[i]], |parsed|);
    BatchAnswers(link, from, closed, [parsed[i]], after, 0);
    forall j | 0 <= j < i
      ensures Answered(link, from, closed + [[parsed[i]]], parsed[j], after[j])
    {
      AnswerKept(link, from, closed, [[parsed[i]]], parsed[j], before[j]);
    }
  }

  lemma {:induction false} TargetsAppend(batch: seq<ParsedRequest>, p: ParsedRequest)
    requires p.target.Ok? && forall q | q in batch :: q.target.Ok?
    ensures Targets(batch + [p]) == Targets(batch) + [p.target.value]
    ensures PayloadSize(Targets(batch + [p])) == PayloadSize(Targets(batch)) + 4 + p.target.value.size
  {
    assert Targets(batch + [p]) == Targets(batch) + [p.target.value];
    PayloadAppend(Targets(batch), p.target.value);
  }

  /** A batch with room for one more item stays within the limits. */
  lemma {:induction false} PackedAdd(pduSize: U16, batch: seq<ParsedRequest>, p: ParsedRequest, size: nat)
    requires Packed(pduSize, batch, size) && Reaches(p) && p.index < size
    requires forall q | q in batch :: q.index != p.index
    requires |batch| < MaxItems(pduSize)
    requires PayloadSize(Targets(batch)) + 4 + p.target.value.size <= PlanSize(pduSize) - 18
    ensures Packed(pduSize, batch + [p], size)
  {
    TargetsAppend(batch, p);
  }

  /** A small item joins a batch with room for it. */
  lemma {:induction false} PlanAdd(link: Link, from: nat, asked: seq<seq<Address>>, parsed: seq<ParsedRequest>, i: nat,
                                   closed: seq<seq<ParsedRequest>>, batch: seq<ParsedRequest>,
                                   results: seq<Option<TagValue>>)
    requires i < |parsed| && Planning(link, from, asked, parsed, i, closed, batch, results) && Numbered(parsed)
    requires Reaches(parsed[i]) && |batch| < MaxItems(link.pduSize)
    requires PayloadSize(Targets(batch)) + 4 + parsed[i].target.value.size <= PlanSize(link.pduSize) - 18
    ensures Planning(link, from, asked, parsed, i + 1, closed, batch + [parsed[i]], results)
  {
    hide Answered, Requests, MaxItems;
    PackedAdd(link.pduSize, batch, parsed[i], |parsed|);
    forall j | 0 <= j < i + 1
      ensures parsed[j] in batch + [parsed[i]] || Answered(link, from, closed, parsed[j], results[j])
    {
      assert j < i || parsed[j] == parsed[i];
    }
  }

  /** The numbered, typed requests for the caller's tags. */
  function ParsedFor(tags: seq<TagRequest>): (parsed: seq<ParsedRequest>)
    ensures |parsed| == |tags|
  {
    seq(|tags|, i requires 0 <= i < |tags| =>
      ParsedRequest(i, tags[i].address,
                    match tags[i].parsed {
                      case Err(e) => Err(e)
                      case Ok(addr) => Ok(ReadAddressOf(addr, tags[i].typeHint))
                    }))
  }

  lemma {:induction false} ParsedNumbered(tags: seq<TagRequest>)
    requires forall tag | tag in tags :: tag.parsed.Ok? ==> FromParser(tag.parsed.value)
    ensures Numbered(ParsedFor(tags))
    ensures forall i | 0 <= i < |tags| && tags[i].parsed.Ok? :: Reaches(ParsedFor(tags)[i])
  {
    forall i | 0 <= i < |tags| && tags[i].parsed.Ok?
      ensures Reaches(ParsedFor(tags)[i])
    {
      assert tags[i] in tags;
      ReadAddressTyped(tags[i].parsed.value, tags[i].typeHint);
    }
  }

  /** Where the planner stands: `asked` from `first` on was sent as requests `from` on. */
  ghost predicate InStep(c: Client, from: nat, first: nat)
    reads c, c.transport
  {
    first <= |c.asked| && |c.transport.log| == from + |c.asked| - first
  }

  /** Flush, as a step of the plan. */
  method FlushStep(c: Client, parsed: seq<ParsedRequest>, ghost i: nat, ghost closed: seq<seq<ParsedRequest>>,
                   batch: seq<ParsedRequest>, ghost from: nat, ghost first: nat, results: array<Option<TagValue>>)
    requires Numbered(parsed) && InStep(c, from, first)
    requires Planning(c.transport.View(), from, c.asked[first..], parsed, i, closed, batch, results[..])
    modifies c, c.transport, results
    ensures c.transport.View() == old(c.transport.View()) && old(c.asked) <= c.asked && InStep(c, from, first)
    ensures Planning(c.transport.View(), from, c.asked[first..], parsed, i, closed + CloseOpen(batch), [], results[..])
  {
    hide Answered, Requests, BatchRequests, BatchReported, AllFit, Ready;
    ghost var sent, before := c.asked, results[..];
    FlushBatch(c, batch, results);
    if batch != [] {
      AskedSince(sent, c.asked, first);
      PlanFlush(c.transport.View(), from, sent[first..], c.asked[|sent|..], parsed, i, closed, batch, before, results[..]);
    } else {
      assert closed + [] == closed && results[..] == before && c.asked == sent;
    }
  }

  lemma {:induction false} AskedSince(before: seq<seq<Address>>, asked: seq<seq<Address>>, first: nat)
    requires first <= |before| && before <= asked
    ensures asked[first..] == before[first..] + asked[|before|..]
  {
  }

  /** A large item on its own, as a step of the plan. */
  method LargeStep(c: Client, parsed: seq<ParsedRequest>, i: nat, ghost closed: seq<seq<ParsedRequest>>,
                   ghost from: nat, ghost first: nat, results: array<Option<TagValue>>)
    requires i < |parsed| && Numbered(parsed) && Reaches(parsed[i]) && InStep(c, from, first)
    requires Planning(c.transport.View(), from, c.asked[first..], parsed, i, closed, [], results[..])
    modifies c, c.transport, results
    ensures c.transport.View() == old(c.transport.View()) && old(c.asked) <= c.asked && InStep(c, from, first)
    ensures Planning(c.transport.View(), from, c.asked[first..], parsed, i + 1, closed + [[parsed[i]]], [], results[..])
  {
    hide Answered, Requests, BatchRequests, BatchReported, AllFit, Ready, Reaches;
    ghost var sent, before := c.asked, results[..];
    ReadOne(c, parsed[i], results);
    AskedSince(sent, c.asked, first);
    PlanLarge(c.transport.View(), from, sent[first..], c.asked[|sent|..], parsed, i, closed, before, results[..]);
  }

  /** One round of the planner's loop. */
  method PlanRequest(c: Client, parsed: seq<ParsedRequest>, i: nat, ghost closed: seq<seq<ParsedRequest>>,
                     batch: seq<ParsedRequest>, size: nat, ghost from: nat, ghost first: nat,
                     results: array<Option<TagValue>>)
    returns (batch': seq<ParsedRequest>, size': nat)
    requires i < |parsed| && Numbered(parsed) && InStep(c, from, first)
    requires Planning(c.transport.View(), from, c.asked[first..], parsed, i, closed, batch, results[..])
    requires size == PayloadSize(Targets(batch))
    modifies c, c.transport, results
    ensures c.transport.View() == old(c.transport.View()) && old(c.asked) <= c.asked && InStep(c, from, first)
    ensures var step := PlanStep(c.transport.pduSize, batch, parsed[i]);
            && batch' == step.open
            && Planning(c.transport.View(), from, c.asked[first..], parsed, i + 1, closed + step.closed, batch', results[..])
    ensures size' == PayloadSize(Targets(batch'))
  {
    hide Answered, Requests, MaxItems, AllFit;
    var p := parsed[i];
    ghost var closed' := closed;
    batch', size' := batch, size;
    assert closed + [] == closed;
    if p.target.Err? || p.target.value.size <= 0 {
      var tv := Some(Failed(p.name, if p.target.Err? then p.target.error else BadSize));
      RejectAnswered(c.transport.View(), from, closed, p);
      PlanReject(c.transport.View(), from, c.asked[first..], parsed, i, closed, batch, results[..], tv);
      results[p.index] := tv;
      return;
    }
    var maxResponsePayload := PlanSize(c.transport.pduSize) - 18;
    var itemResponseSize := 4 + p.target.value.size;
    if itemResponseSize > maxResponsePayload {
      FlushStep(c, parsed, i, closed, batch, from, first, results);
      LargeStep(c, parsed, i, closed + CloseOpen(batch), from, first, results);
      assert closed + (CloseOpen(batch) + [[p]]) == closed + CloseOpen(batch) + [[p]];
      batch', size' := [], 0;
      return;
    }
    if size + itemResponseSize > maxResponsePayload || |batch| >= MaxItems(c.transport.pduSize) {
      FlushStep(c, parsed, i, closed, batch, from, first, results);
      closed' := closed + CloseOpen(batch);
      batch', size' := [], 0;
    }
    PlanAdd(c.transport.View(), from, c.asked[first..], parsed, i, closed', batch', results[..]);
    TargetsAppend(batch', p);
    batch', size' := batch' + [p], size' + itemResponseSize;
  }

  lemma {:induction false} RejectAnswered(link: Link, from: nat, closed: seq<seq<ParsedRequest>>, p: ParsedRequest)
    requires p.target.Err? || p.target.value.size <= 0
    ensures Answered(link, from, closed, p, Some(Failed(p.name, if p.target.Err? then p.target.error else BadSize)))
  {
  }

  /** The batches the requests for these tags are sent in. */
  function BatchesFor(pduSize: U16, tags: seq<TagRequest>): seq<seq<ParsedRequest>> {
    var plan := PlanOf(pduSize, ParsedFor(tags));
    plan.closed + CloseOpen(plan.open)
  }

  /**
    Read all tags. Whatever the link does, the controller is asked exactly for
    the batches of the greedy plan, every request of which fits the PDU, and
    each slot holds what came back for its own request.
   */
  method ReadWithTypes(c: Client, tags: seq<TagRequest>) returns (results: array<Option<TagValue>>)
    requires forall tag | tag in tags :: tag.parsed.Ok? ==> FromParser(tag.parsed.value)
    modifies c, c.transport
    ensures fresh(results) && results.Length == |tags|
    ensures c.transport.View() == old(c.transport.View())
    ensures c.asked == old(c.asked) + Requests(c.transport.View(), |old(c.transport.log)|, BatchesFor(c.transport.pduSize, tags))
    ensures |c.transport.log| - |old(c.transport.log)| == |c.asked| - |old(c.asked)|
    ensures AllFit(c.transport.pduSize, c.asked[|old(c.asked)|..])
    ensures forall i | 0 <= i < |tags| ::
              Answered(c.transport.View(), |old(c.transport.log)|, BatchesFor(c.transport.pduSize, tags), ParsedFor(tags)[i],
                       results[i])
  {
    hide Planning, Answered, Requests, PlanOf, PlanStep, AllFit, CloseOpen;
    ParsedNumbered(tags);
    var parsed := ParsedFor(tags);
    results := new Option<TagValue>[|tags|](_ => None);
    var batch, currentResponseSize := [], 0;
    ghost var from, first, link := |c.transport.log|, |c.asked|, c.transport.View();
    PlanStart(link, from, c.asked[first..], parsed, results[..]);
    for i := 0 to |parsed|
      invariant c.transport.View() == link && fresh(results) && old(c.asked) <= c.asked && InStep(c, from, first)
      invariant batch == PlanOf(link.pduSize, parsed[..i]).open && currentResponseSize == PayloadSize(Targets(batch))
      invariant Planning(link, from, c.asked[first..], parsed, i, PlanOf(link.pduSize, parsed[..i]).closed, batch, results[..])
    {
      PlanOfNext(link.pduSize, parsed, i);
      batch, currentResponseSize := PlanRequest(c, parsed, i, PlanOf(link.pduSize, parsed[..i]).closed, batch,
                                                currentResponseSize, from, first, results);
    }
    assert parsed[..|parsed|] == parsed;
    FlushStep(c, parsed, |parsed|, PlanOf(link.pduSize, parsed).closed, batch, from, first, results);
    PlanDone(link, from, c.asked[first..], parsed, BatchesFor(link.pduSize, tags), results[..]);
  }

  /** When every request has been seen and the batch is empty, all of them are answered. */
  lemma {:induction false} PlanDone(link: Link, from: nat, asked: seq<seq<Address>>, parsed: seq<ParsedRequest>,
                                    closed: seq<seq<ParsedRequest>>, results: seq<Option<TagValue>>)
    requires Planning(link, from, asked, parsed, |parsed|, closed, [], results)
    ensures |results| == |parsed| && asked == Requests(link, from, closed) && AllFit(link.pduSize, asked)
    ensures forall j | 0 <= j < |parsed| :: Answered(link, from, closed, parsed[j], results[j])
  {
  }

  // ---------------------------------------------------------------- the size of replies

  /** Bytes an item the link never needs to shorten. */
  const AMPLE: nat := 0x1_0000

  /** The payload limit ignores padding, so a planned reply may overrun the PDU, by at most 14 bytes. */
  lemma {:induction false} ReplyOverrun(store: Store, policy: Policy, pduSize: U16, addrs: seq<Address>)
    requires Fits(pduSize, addrs) && forall a | a in addrs :: a.bitNum < 8 && Typed(a)
    ensures ReplySize(store, policy, AMPLE, addrs) <= PlanSize(pduSize) + 14
    ensures |addrs| <= 5 ==> ReplySize(store, policy, AMPLE, addrs) <= PlanSize(pduSize)
  {
    forall a | a in addrs
      ensures a.size < 0x1_0000
    {
      InPayload(addrs, a);
    }
    LayoutSize(store, policy, AMPLE, addrs);
  }

  lemma {:induction false} InPayload(addrs: seq<Address>, a: Address)
    requires a in addrs
    ensures 4 + a.size <= PayloadSize(addrs)
  {
    if a != addrs[0] {
      assert a in addrs[1..];
      InPayload(addrs[1..], a);
    }
  }

  /** Pad bytes in a reply whose items all succeed: one after every odd item but the last. */
  function Pads(addrs: seq<Address>): nat {
    if |addrs| <= 1 then 0 else addrs[0].size % 2 + Pads(addrs[1..])
  }

  ghost predicate Accepted(policy: Policy, addrs: seq<Address>) {
    forall a | a in addrs :: a.bitNum < 8 && Typed(a) && a.size < 0x1_0000 && policy.fault(Wire(a)) == None
                             && (Wire(a).transport == TS_BIT ==> Wire(a).count == 1)
  }

  /** The exact reply size when no item is refused, hence exactly when it fits the PDU. */
  lemma {:induction false} ReplyExact(store: Store, policy: Policy, addrs: seq<Address>)
    requires Accepted(policy, addrs)
    ensures ReplySize(store, policy, AMPLE, addrs) == 14 + PayloadSize(addrs) + Pads(addrs)
  {
    if addrs != [] {
      var items := Answers(store, policy, AMPLE, WireItems(addrs));
      assert WireItems(addrs)[1..] == WireItems(addrs[1..]);
      assert items[1..] == Answers(store, policy, AMPLE, WireItems(addrs[1..]));
      assert addrs[0] in addrs;
      ContentSize(store, addrs[0]);
      assert items[0] == Answer(store, policy, AMPLE, Wire(addrs[0]));
      ReplyExact(store, policy, addrs[1..]);
    }
  }

  lemma {:induction false} LayoutMember(items: seq<Item>, i: nat)
    requires i < |items|
    ensures |Layout([items[i]])| <= |Layout(items)|
  {
    assert [items[i]][1..] == [];
    if i > 0 {
      LayoutMember(items[1..], i - 1);
    }
  }

  /** If the reply to all of them fits the PDU, an item comes back as it would alone; if not, all are refused. */
  lemma {:induction false} ItemAlone(store: Store, policy: Policy, addrs: seq<Address>, i: nat)
    requires i < |addrs| && forall a | a in addrs :: a.bitNum < 8
    ensures ItemRead(store, policy, UNLIMITED, addrs, i) ==
            if ReplySize(store, policy, AMPLE, addrs) <= policy.pduSize then OneRead(store, policy, UNLIMITED, addrs[i])
            else Err(TOO_LONG)
  {
    hide Answer, Layout, Wire;
    var items := Answers(store, policy, AMPLE, WireItems(addrs));
    assert Answers(store, policy, AMPLE, WireItems([addrs[i]])) == [items[i]];
    LayoutMember(items, i);
  }

  lemma {:induction false} AcceptedAlone(store: Store, policy: Policy, addr: Address)
    requires Accepted(policy, [addr]) && 18 + addr.size <= policy.pduSize
    ensures addr.bitNum < 8 && OneRead(store, policy, UNLIMITED, addr).Ok?
  {
    hide Layout;
    assert addr in [addr];
    ReplyExact(store, policy, [addr]);
    assert PayloadSize([addr]) == 4 + addr.size + PayloadSize([]);
    ContentSize(store, addr);
  }

  /**
    A planned batch of items the controller accepts, read in one request, brings
    each item what its own read brings if and only if its reply, pad bytes and
    all, fits the negotiated PDU.
   */
  lemma {:induction false} BatchIsOwn(store: Store, policy: Policy, addrs: seq<Address>)
    requires policy.pduSize >= 50 && Fits(policy.pduSize, addrs) && |addrs| > 1 && Accepted(policy, addrs)
    ensures forall a | a in addrs :: a.bitNum < 8
    ensures (forall i | 0 <= i < |addrs| ::
               ItemRead(store, policy, UNLIMITED, addrs, i) ==
               OwnRead(store, policy, MaxReadPayload(policy.pduSize), addrs[i]))
            <==> 14 + PayloadSize(addrs) + Pads(addrs) <= policy.pduSize
  {
    hide OneRead, ItemRead, Layout, OwnRead, Accepted;
    AcceptedBits(policy, addrs);
    ReplyExact(store, policy, addrs);
    forall i | 0 <= i < |addrs|
      ensures OwnRead(store, policy, MaxReadPayload(policy.pduSize), addrs[i]).Ok?
      ensures ItemRead(store, policy, UNLIMITED, addrs, i) ==
              if ReplySize(store, policy, AMPLE, addrs) <= policy.pduSize
              then OwnRead(store, policy, MaxReadPayload(policy.pduSize), addrs[i]) else Err(TOO_LONG)
    {
      ItemAlone(store, policy, addrs, i);
      PlannedAlone(store, policy, addrs, i);
    }
    if 14 + PayloadSize(addrs) + Pads(addrs) > policy.pduSize {
      assert ItemRead(store, policy, UNLIMITED, addrs, 0) !=
             OwnRead(store, policy, MaxReadPayload(policy.pduSize), addrs[0]);
    }
  }

  lemma {:induction false} PlannedAlone(store: Store, policy: Policy, addrs: seq<Address>, i: nat)
    requires policy.pduSize >= 50 && Fits(policy.pduSize, addrs) && |addrs| > 1 && Accepted(policy, addrs) && i < |addrs|
    ensures addrs[i].bitNum < 8
    ensures OwnRead(store, policy, MaxReadPayload(policy.pduSize), addrs[i]) == OneRead(store, policy, UNLIMITED, addrs[i])
    ensures OneRead(store, policy, UNLIMITED, addrs[i]).Ok?
  {
    hide OneRead, Wire;
    var a := addrs[i];
    assert a in addrs;
    InPayload(addrs, a);
    assert Accepted(policy, [a]);
    AcceptedAlone(store, policy, a);
  }

  lemma {:induction false} AcceptedBits(policy: Policy, addrs: seq<Address>)
    requires Accepted(policy, addrs)
    ensures forall a | a in addrs :: a.bitNum < 8
  {
  }

  /**
    Six reads of 33 bytes under a 240-byte PDU: planned as one batch, whose reply
    takes 241 bytes. The controller refuses all six, though it would serve each alone.
   */
  lemma {:induction false} OverrunExample(store: Store)
    ensures var addrs := seq(6, _ => Address(DB, 1, 0, -1, 0x0002, 33, 33));
            var policy := Policy(_ => None, _ => false, 240);
            && Fits(240, addrs) && ReplySize(store, policy, AMPLE, addrs) == 241
            && forall i | 0 <= i < 6 ::
                 ItemRead(store, policy, UNLIMITED, addrs, i) == Err(TOO_LONG) && OneRead(store, policy, UNLIMITED, addrs[i]).Ok?
  {
    hide OneRead, ItemRead;
    var addrs := seq(6, _ => Address(DB, 1, 0, -1, 0x0002, 33, 33));
    var policy := Policy(_ => None, _ => false, 240);
    SixTimes33(addrs);
    ReplyExact(store, policy, addrs);
    forall i | 0 <= i < 6
      ensures ItemRead(store, policy, UNLIMITED, addrs, i) == Err(TOO_LONG) && OneRead(store, policy, UNLIMITED, addrs[i]).Ok?
    {
      ItemAlone(store, policy, addrs, i);
      AcceptedAlone(store, policy, addrs[i]);
    }
  }

  lemma {:induction false} SixTimes33(addrs: seq<Address>)
    requires addrs == seq(6, _ => Address(DB, 1, 0, -1, 0x0002, 33, 33))
    ensures PayloadSize(addrs) == 222 && Pads(addrs) == 5
  {
    assert PayloadSize(addrs[6..]) == 0 && Pads(addrs[5..]) == 0;
    assert addrs[4..][1..] == addrs[5..] && addrs[3..][1..] == addrs[4..] && addrs[2..][1..] == addrs[3..];
    assert addrs[1..][1..] == addrs[2..] && addrs[5..][1..] == addrs[6..];
    assert PayloadSize(addrs[5..]) == 37;
    assert PayloadSize(addrs[4..]) == 74 && Pads(addrs[4..]) == 1;
    assert PayloadSize(addrs[3..]) == 111 && Pads(addrs[3..]) == 2;
    assert PayloadSize(addrs[2..]) == 148 && Pads(addrs[2..]) == 3;
    assert PayloadSize(addrs[1..]) == 185 && Pads(addrs[1..]) == 4;
  }

  // ---------------------------------------------------------------- the plan and the requests' own reads

  /** What the request's own read returns over a flawless link. */
  function OwnValue(link: Link, p: ParsedRequest): TagValue
    requires Reaches(p)
  {
    Report(p, OwnRead(link.store, link.policy, MaxReadPayload(link.pduSize), p.target.value))
  }

  /** The addresses a request's own read asks for. */
  function OwnAskedOf(link: Link, p: ParsedRequest): seq<Address> {
    if Reaches(p) then OwnAsked(link.store, link.policy, MaxReadPayload(link.pduSize), p.target.value) else []
  }

  /** The addresses asked for when the requests are read one after the other. */
  function AskedFor(link: Link, ps: seq<ParsedRequest>): seq<Address> {
    if ps == [] then [] else AskedFor(link, ps[..|ps| - 1]) + OwnAskedOf(link, ps[|ps| - 1])
  }

  /** The requests that reach the controller. */
  function Reaching(ps: seq<ParsedRequest>): seq<ParsedRequest> {
    if ps == [] then [] else Reaching(ps[..|ps| - 1]) + if Reaches(ps[|ps| - 1]) then [ps[|ps| - 1]] else []
  }

  /** Requests that may wait in the open batch. */
  predicate Small(pduSize: U16, batch: seq<ParsedRequest>) {
    && Ready(batch) && (forall q | q in batch :: 4 + q.target.value.size <= PlanSize(pduSize) - 18)
    && PayloadSize(Targets(batch)) <= PlanSize(pduSize) - 18 && |batch| <= MaxItems(pduSize)
  }

  /** One large item, or items that are each small enough for a batch. */
  predicate Shaped(pduSize: U16, batch: seq<ParsedRequest>) {
    && batch != [] && Ready(batch)
    && (|batch| > 1 ==> Small(pduSize, batch))
  }

  ghost predicate AllShaped(pduSize: U16, batches: seq<seq<ParsedRequest>>) {
    forall k | 0 <= k < |batches| :: Shaped(pduSize, batches[k])
  }

  lemma {:induction false} StepShape(pduSize: U16, open: seq<ParsedRequest>, p: ParsedRequest)
    requires p.target.Ok? ==> Typed(p.target.value)
    requires Small(pduSize, open)
    ensures var step := PlanStep(pduSize, open, p);
            && AllShaped(pduSize, step.closed) && Small(pduSize, step.open)
            && Flatten(step.closed) + step.open == open + if Reaches(p) then [p] else []
  {
    hide PlanSize, MaxItems, Typed, Flatten;
    FlattenOneOf(open);
    FlattenOneOf([p]);
    FlattenConcat(CloseOpen(open), [[p]]);
    assert open + [] == open && [] + open == open && [] + (open + [p]) == open + [p];
    if Reaches(p) {
      TargetsAppend(open, p);
      TargetsAppend([], p);
      assert [] + [p] == [p];
    }
  }

  lemma {:induction false} FlattenOneOf<T>(xs: seq<T>)
    ensures Flatten([xs]) == xs && Flatten<T>([]) == []
    ensures Flatten(if xs == [] then [] else [xs]) == xs
  {
    assert [xs][1..] == [];
    assert Flatten([xs]) == xs + Flatten<T>([]);
  }

  /** The batches of the plan, put together, are the requests that reach the controller, each once and in order. */
  lemma {:induction false} PlanKeepsOrder(pduSize: U16, ps: seq<ParsedRequest>)
    requires forall p | p in ps :: p.target.Ok? ==> Typed(p.target.value)
    ensures var plan := PlanOf(pduSize, ps);
            && AllShaped(pduSize, plan.closed) && Small(pduSize, plan.open)
            && Flatten(plan.closed) + plan.open == Reaching(ps)
  {
    hide PlanStep, PlanSize, Reaches, Typed, Small, Shaped, Flatten;
    if ps == [] {
      NothingPlanned(pduSize);
    } else {
      var init, p := ps[..|ps| - 1], ps[|ps| - 1];
      PlanKeepsOrder(pduSize, init);
      var before := PlanOf(pduSize, init);
      var step := PlanStep(pduSize, before.open, p);
      StepShape(pduSize, before.open, p);
      FlattenConcat(before.closed, step.closed);
      Regroup(Flatten(before.closed), before.open, if Reaches(p) then [p] else [], Flatten(step.closed), step.open);
    }
  }

  lemma {:induction false} Regroup<T>(done: seq<T>, open: seq<T>, tail: seq<T>, closed: seq<T>, rest: seq<T>)
    requires closed + rest == open + tail
    ensures (done + closed) + rest == (done + open) + tail
  {
    assert (done + closed) + rest == done + (closed + rest);
  }

  lemma {:induction false} NothingPlanned(pduSize: U16)
    ensures Small(pduSize, []) && AllShaped(pduSize, []) && Flatten<ParsedRequest>([]) + [] == []
  {
  }

  lemma {:induction false} WholePlan(pduSize: U16, ps: seq<ParsedRequest>)
    requires forall p | p in ps :: p.target.Ok? ==> Typed(p.target.value)
    ensures var plan := PlanOf(pduSize, ps);
            && AllShaped(pduSize, plan.closed + CloseOpen(plan.open))
            && Flatten(plan.closed + CloseOpen(plan.open)) == Reaching(ps)
  {
    hide PlanOf, Reaches, Typed;
    PlanKeepsOrder(pduSize, ps);
    var plan := PlanOf(pduSize, ps);
    FlattenConcat(plan.closed, CloseOpen(plan.open));
    FlattenOneOf(plan.open);
  }

  lemma {:induction false} AskedForConcat(link: Link, xs: seq<ParsedRequest>, ys: seq<ParsedRequest>)
    ensures AskedFor(link, xs + ys) == AskedFor(link, xs) + AskedFor(link, ys)
  {
    hide OwnAskedOf;
    if ys == [] {
      assert xs + ys == xs;
    } else {
      var init, last := ys[..|ys| - 1], ys[|ys| - 1];
      AskedForConcat(link, xs, init);
      assert (xs + ys)[..|xs + ys| - 1] == xs + init && (xs + ys)[|xs + ys| - 1] == last;
    }
  }

  lemma {:induction false} AskedForReaching(link: Link, ps: seq<ParsedRequest>)
    ensures AskedFor(link, Reaching(ps)) == AskedFor(link, ps)
  {
    hide OwnAsked, Reaches;
    if ps != [] {
      var init, p := ps[..|ps| - 1], ps[|ps| - 1];
      AskedForReaching(link, init);
      var tail := if Reaches(p) then [p] else [];
      AskedForConcat(link, Reaching(init), tail);
      assert [p][..0] == [];
    }
  }

  /** A small item is asked for as it is. */
  lemma {:induction false} SmallAsked(link: Link, batch: seq<ParsedRequest>)
    requires link.pduSize >= 50 && Ready(batch)
    requires forall p | p in batch :: 4 + p.target.value.size <= PlanSize(link.pduSize) - 18
    ensures AskedFor(link, batch) == Targets(batch)
  {
    hide Typed;
    if batch != [] {
      var init, last := batch[..|batch| - 1], batch[|batch| - 1];
      assert last in batch && forall p | p in init :: p in batch;
      SmallAsked(link, init);
      assert Targets(batch) == Targets(init) + [last.target.value];
    }
  }

  lemma {:induction false} FlattenSingles(addrs: seq<Address>)
    ensures Flatten(Singles(addrs)) == addrs
  {
    if addrs != [] {
      assert Singles(addrs)[1..] == Singles(addrs[1..]);
      FlattenSingles(addrs[1..]);
    }
  }

  /** Over a flawless link a batch asks for what its items' own reads ask for. */
  lemma {:induction false} BatchAsked(link: Link, n: nat, batch: seq<ParsedRequest>)
    requires link.pduSize >= 50 && Shaped(link.pduSize, batch)
    requires Flawless(link.outcome, n, n + |BatchRequests(link, n, batch)|)
    ensures Flatten(BatchRequests(link, n, batch)) == AskedFor(link, batch)
  {
    hide AskedOver, OwnAsked;
    if |batch| == 1 {
      assert batch[0] in batch && batch[..0] == [];
      FlawlessRead(link, n, batch[0].target.value);
      FlattenSingles(AskedOver(link, n, batch[0].target.value));
    } else {
      SmallAsked(link, batch);
      FlattenOneOf(Targets(batch));
    }
  }

  lemma {:induction false} FlawlessPart(outcome: nat -> Outcome, from: nat, mid: nat, to: nat)
    requires Flawless(outcome, from, to) && from <= mid <= to
    ensures Flawless(outcome, from, mid) && Flawless(outcome, mid, to)
  {
  }

  lemma {:induction false} LastBatch(link: Link, from: nat, batches: seq<seq<ParsedRequest>>)
    requires batches != [] && AllShaped(link.pduSize, batches)
    ensures var init, last := batches[..|batches| - 1], batches[|batches| - 1];
            && AllShaped(link.pduSize, init) && Shaped(link.pduSize, last)
            && Flatten(batches) == Flatten(init) + last
            && var before := Requests(link, from, init);
               Requests(link, from, batches) == before + BatchRequests(link, from + |before|, last)
  {
    hide Shaped, BatchRequests, Flatten;
    var init, last := batches[..|batches| - 1], batches[|batches| - 1];
    assert batches == init + [last];
    FlattenAppend(init, last);
  }

  lemma {:induction false} BatchesAsked(link: Link, from: nat, batches: seq<seq<ParsedRequest>>)
    requires link.pduSize >= 50 && AllShaped(link.pduSize, batches)
    requires Flawless(link.outcome, from, from + |Requests(link, from, batches)|)
    ensures Flatten(Requests(link, from, batches)) == AskedFor(link, Flatten(batches))
    decreases |batches|
  {
    hide Requests, Flatten, AskedFor, AllShaped, BatchRequests, Shaped, Flawless;
    if batches == [] {
      NothingAskedFor(link, from, batches);
    } else {
      var init, last := batches[..|batches| - 1], batches[|batches| - 1];
      LastBatch(link, from, batches);
      var before := Requests(link, from, init);
      var mid := from + |before|;
      FlawlessPart(link.outcome, from, mid, mid + |BatchRequests(link, mid, last)|);
      BatchesAsked(link, from, init);
      BatchAsked(link, mid, last);
      FlattenConcat(before, BatchRequests(link, mid, last));
      AskedForConcat(link, Flatten(init), last);
    }
  }

  lemma {:induction false} NothingAskedFor(link: Link, from: nat, batches: seq<seq<ParsedRequest>>)
    requires batches == []
    ensures Flatten(Requests(link, from, batches)) == AskedFor(link, Flatten(batches)) == []
  {
  }

  /**
    Over a flawless link the controller is asked for exactly the items, in
    exactly the order, of reading the requests one after the other.
   */
  lemma {:induction false} FlawlessAsked(link: Link, from: nat, tags: seq<TagRequest>)
    requires forall tag | tag in tags :: tag.parsed.Ok? ==> FromParser(tag.parsed.value)
    requires link.pduSize >= 50
    requires Flawless(link.outcome, from, from + |Requests(link, from, BatchesFor(link.pduSize, tags))|)
    ensures Flatten(Requests(link, from, BatchesFor(link.pduSize, tags))) == AskedFor(link, ParsedFor(tags))
  {
    hide PlanOf, Requests, AskedFor, FromParser, Typed;
    TagsTyped(tags);
    WholePlan(link.pduSize, ParsedFor(tags));
    BatchesAsked(link, from, BatchesFor(link.pduSize, tags));
    AskedForReaching(link, ParsedFor(tags));
  }

  lemma {:induction false} TagsTyped(tags: seq<TagRequest>)
    requires forall tag | tag in tags :: tag.parsed.Ok? ==> FromParser(tag.parsed.value)
    ensures forall p | p in ParsedFor(tags) :: p.target.Ok? ==> Typed(p.target.value)
  {
    hide FromParser, Typed;
    ParsedNumbered(tags);
    forall p | p in ParsedFor(tags)
      ensures p.target.Ok? ==> Typed(p.target.value)
    {
      var k :| 0 <= k < |ParsedFor(tags)| && ParsedFor(tags)[k] == p;
    }
  }

  /** The batch is one item, or its reply fits the controller's PDU. */
  predicate WithinPDU(link: Link, batch: seq<ParsedRequest>) {
    Ready(batch) &&
    (|batch| == 1 || (TargetsTyped(batch); ReplySize(link.store, link.policy, AMPLE, Targets(batch)) <= link.policy.pduSize))
  }

  /** Over a flawless link an item of such a batch comes back as by its own read. */
  lemma {:induction false} BatchValueIsOwn(link: Link, n: nat, batch: seq<ParsedRequest>, i: nat)
    requires link.pduSize >= 50 && Shaped(link.pduSize, batch) && WithinPDU(link, batch) && i < |batch|
    requires Flawless(link.outcome, n, n + |BatchRequests(link, n, batch)|)
    ensures Reaches(batch[i])
    ensures BatchValue(link, n, batch, i) ==
            OwnRead(link.store, link.policy, MaxReadPayload(link.pduSize), batch[i].target.value)
  {
    hide AskedOver, ReadOver, OneRead, ReadChunks;
    assert batch[i] in batch;
    if |batch| == 1 {
      FlawlessRead(link, n, batch[0].target.value);
    } else {
      TargetsTyped(batch);
      ItemAlone(link.store, link.policy, Targets(batch), i);
      AmpleItem(link, n, Targets(batch), i);
    }
  }

  /** Every batch of a plan whose items the controller accepts. */
  ghost predicate AllAccepted(policy: Policy, batches: seq<seq<ParsedRequest>>) {
    forall k | 0 <= k < |batches| :: Ready(batches[k]) && Accepted(policy, Targets(batches[k]))
  }

  /** The replies of all batches fit, pad bytes and all. */
  ghost predicate AllWithin(pduSize: U16, batches: seq<seq<ParsedRequest>>) {
    forall k | 0 <= k < |batches| && |batches[k]| > 1 ::
      Ready(batches[k]) && 14 + PayloadSize(Targets(batches[k])) + Pads(Targets(batches[k])) <= pduSize as int
  }

  /** Every item of every batch comes back as by its own read. */
  ghost predicate AllOwn(link: Link, from: nat, batches: seq<seq<ParsedRequest>>) {
    forall k, i | 0 <= k < |batches| && 0 <= i < |batches[k]| :: OwnAt(link, from, batches, k, i)
  }

  ghost predicate OwnAt(link: Link, from: nat, batches: seq<seq<ParsedRequest>>, k: nat, i: nat)
    requires k < |batches| && i < |batches[k]|
  {
    && Ready(batches[k]) && batches[k][i].target.Ok? && batches[k][i].target.value.bitNum < 8
    && BatchValue(link, StartOf(link, from, batches, k), batches[k], i) ==
       OwnRead(link.store, link.policy, MaxReadPayload(link.pduSize), batches[k][i].target.value)
  }

  lemma {:induction false} OneBatchOwn(link: Link, from: nat, batches: seq<seq<ParsedRequest>>, k: nat)
    requires link.pduSize >= 50 && link.policy.pduSize == link.pduSize && k < |batches|
    requires AllShaped(link.pduSize, batches) && AllAccepted(link.policy, batches)
    requires Flawless(link.outcome, from, from + |Requests(link, from, batches)|)
    ensures Ready(batches[k])
    ensures |batches[k]| > 1 && 14 + PayloadSize(Targets(batches[k])) + Pads(Targets(batches[k])) > link.pduSize as int ==>
              !OwnAt(link, from, batches, k, 0)
    ensures |batches[k]| == 1 || 14 + PayloadSize(Targets(batches[k])) + Pads(Targets(batches[k])) <= link.pduSize as int ==>
              forall i | 0 <= i < |batches[k]| :: OwnAt(link, from, batches, k, i)
  {
    hide BatchValue, OwnRead, BatchRequests, Requests, Flawless, Accepted, PayloadSize, Pads, ReplySize, ItemRead;
    var batch, n := batches[k], StartOf(link, from, batches, k);
    var addrs := Targets(batch);
    RequestsBetween(link, from, batches, k);
    FlawlessPart(link.outcome, from, n, from + |Requests(link, from, batches)|);
    FlawlessPart(link.outcome, n, n + |BatchRequests(link, n, batch)|, from + |Requests(link, from, batches)|);
    TargetsTyped(batch);
    ReplyExact(link.store, link.policy, addrs);
    if |batch| == 1 || 14 + PayloadSize(addrs) + Pads(addrs) <= link.pduSize as int {
      forall i | 0 <= i < |batch|
        ensures OwnAt(link, from, batches, k, i)
      {
        assert batch[i] in batch;
        BatchValueIsOwn(link, n, batch, i);
      }
    } else {
      assert batch[0] in batch;
      ShapedFits(link.pduSize, batch);
      PlannedAlone(link.store, link.policy, addrs, 0);
      ItemAlone(link.store, link.policy, addrs, 0);
      ManyValue(link, n, batch, 0);
    }
  }

  lemma {:induction false} ShapedFits(pduSize: U16, batch: seq<ParsedRequest>)
    requires Shaped(pduSize, batch) && |batch| > 1
    ensures Fits(pduSize, Targets(batch))
  {
  }

  lemma {:induction false} ManyValue(link: Link, n: nat, batch: seq<ParsedRequest>, i: nat)
    requires Ready(batch) && |batch| > 1 && i < |batch| && Flawless(link.outcome, n, n + |BatchRequests(link, n, batch)|)
    ensures forall a | a in Targets(batch) :: a.bitNum < 8
    ensures BatchValue(link, n, batch, i) == ItemRead(link.store, link.policy, UNLIMITED, Targets(batch), i)
  {
    hide ItemRead;
    TargetsTyped(batch);
    AmpleItem(link, n, Targets(batch), i);
  }

  /**
    Over a flawless link to a controller that keeps the negotiated PDU and
    accepts every item, batching changes no answer if and only if the reply to
    every batch, pad bytes and all, fits the PDU.
   */
  lemma {:induction false} BatchingIsExact(link: Link, from: nat, tags: seq<TagRequest>)
    requires forall tag | tag in tags :: tag.parsed.Ok? ==> FromParser(tag.parsed.value)
    requires link.pduSize >= 50 && link.policy.pduSize == link.pduSize
    requires AllAccepted(link.policy, BatchesFor(link.pduSize, tags))
    requires Flawless(link.outcome, from, from + |Requests(link, from, BatchesFor(link.pduSize, tags))|)
    ensures AllOwn(link, from, BatchesFor(link.pduSize, tags)) <==> AllWithin(link.pduSize, BatchesFor(link.pduSize, tags))
  {
    hide PlanOf, Requests, FromParser, Typed, OwnAt, Flawless, AllShaped, AllAccepted, PayloadSize, Pads, CloseOpen;
    TagsTyped(tags);
    WholePlan(link.pduSize, ParsedFor(tags));
    var batches := BatchesFor(link.pduSize, tags);
    forall k | 0 <= k < |batches|
      ensures Ready(batches[k])
      ensures |batches[k]| > 1 && 14 + PayloadSize(Targets(batches[k])) + Pads(Targets(batches[k])) > link.pduSize as int
              ==> !OwnAt(link, from, batches, k, 0)
      ensures |batches[k]| <= 1 || 14 + PayloadSize(Targets(batches[k])) + Pads(Targets(batches[k])) <= link.pduSize as int
              ==> forall i | 0 <= i < |batches[k]| :: OwnAt(link, from, batches, k, i)
    {
      OneBatchOwn(link, from, batches, k);
    }
  }

  lemma {:induction false} AmpleItem(link: Link, n: nat, addrs: seq<Address>, i: nat)
    requires i < |addrs| && forall a | a in addrs :: a.bitNum < 8
    requires Flawless(link.outcome, n, n + 1)
    ensures ItemRead(link.store, link.policy, link.outcome(n), addrs, i) ==
            ItemRead(link.store, link.policy, UNLIMITED, addrs, i)
  {
    hide Replied;
    AmpleLimit(link.store, link.policy, link.outcome(n).limit, addrs);
  }

  lemma {:induction false} RequestsBetween(link: Link, from: nat, batches: seq<seq<ParsedRequest>>, k: nat)
    requires k < |batches|
    ensures StartOf(link, from, batches, k) + |BatchRequests(link, StartOf(link, from, batches, k), batches[k])|
            <= from + |Requests(link, from, batches)|
    decreases |batches|
  {
    hide BatchRequests;
    var last := |batches| - 1;
    if k < last {
      RequestsBetween(link, from, batches[..last], k);
      assert batches[..last][..k] == batches[..k];
    }
  }

  /**
    Over a flawless link, if the reply to every batch fits the controller's PDU,
    each slot holds exactly what the request's own read returns.
   */
  lemma {:induction false} FlawlessAnswers(link: Link, from: nat, tags: seq<TagRequest>, i: nat, tv: Option<TagValue>)
    requires forall tag | tag in tags :: tag.parsed.Ok? ==> FromParser(tag.parsed.value)
    requires link.pduSize >= 50 && i < |tags| && tags[i].parsed.Ok?
    ensures var batches, p := BatchesFor(link.pduSize, tags), ParsedFor(tags)[i];
            && Reaches(p)
            && (Answered(link, from, batches, p, tv)
                && Flawless(link.outcome, from, from + |Requests(link, from, batches)|)
                && (forall batch | batch in batches :: WithinPDU(link, batch)) ==>
                  tv == Some(OwnValue(link, p)))
  {
    hide PlanOf, Requests, FromParser, Typed, WithinPDU, BatchRequests, BatchValue, OwnRead, Shaped, Flawless;
    TagsTyped(tags);
    ParsedNumbered(tags);
    var batches, p := BatchesFor(link.pduSize, tags), ParsedFor(tags)[i];
    WholePlan(link.pduSize, ParsedFor(tags));
    var all := from + |Requests(link, from, batches)|;
    if Answered(link, from, batches, p, tv) && Flawless(link.outcome, from, all)
       && forall batch | batch in batches :: WithinPDU(link, batch) {
      var k: nat, j: nat :| AnsweredBy(link, from, batches, k, j, p, tv);
      var n := StartOf(link, from, batches, k);
      RequestsBetween(link, from, batches, k);
      FlawlessPart(link.outcome, from, n, all);
      FlawlessPart(link.outcome, n, n + |BatchRequests(link, n, batches[k])|, all);
      assert batches[k] in batches && Shaped(link.pduSize, batches[k]);
      BatchValueIsOwn(link, n, batches[k], j);
    }
  }
}
