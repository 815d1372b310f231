/**
  Word requests and their answers, and the grouping of sorted requests into
  contiguous reads.
 */
module FinsGroups {
  import opened Bytes
  import opened Fins
  import Sorting

  const MAX_WORDS_PER_READ := 998
  const MAX_MULTI_AREAS := 64
  const TYPE_BOOL: U16 := 0x0001
  const ARRAY_FLAG: U16 := 0x8000

  datatype ParsedAddress =
    ParsedAddress(area: Byte, address: U16, bitOffset: Byte, typeCode: U16, count: nat)

  /** A tag as the caller names it, with the outcome of parsing that name. */
  datatype TagRequest = TagRequest(address: string, parsed: Result<ParsedAddress, Error>)

  datatype TagValue =
    TagValue(name: string, dataType: U16, count: nat, bytes: seq<Byte>, error: Option<Error>)

  datatype WordRequest =
    WordRequest(originalIndex: nat, address: string, parsed: ParsedAddress, wordCount: nat)

  datatype ReadGroup =
    ReadGroup(area: Byte, startAddr: U16, wordCount: nat, requests: seq<WordRequest>)

  function MakeArrayType(typeCode: U16): U16 {
    if typeCode < ARRAY_FLAG then typeCode + ARRAY_FLAG else typeCode
  }

  function Failed(name: string, e: Error): TagValue {
    TagValue(name, 0, 0, [], Some(e))
  }

  // ---------------------------------------------------------------- what one request should get

  /** The words a read of this request alone delivers: the count goes over the wire as a uint16. */
  function Delivered(mem: Memory, r: WordRequest): (ws: seq<U16>)
    ensures |ws| == r.wordCount
  {
    seq<U16>(r.wordCount, j requires 0 <= j =>
      (if j < ToU16(r.wordCount) then mem.word(r.parsed.area, r.parsed.address + j) else 0) as U16)
  }

  /** The value reported for a request whose words are `words`. */
  function ValueOf(r: WordRequest, words: seq<U16>): TagValue {
    TagValue(r.address,
             if r.parsed.count > 1 then MakeArrayType(r.parsed.typeCode) else r.parsed.typeCode,
             r.parsed.count, BeBytes(words), None)
  }

  /** The value of this request when it is read by itself. */
  function Single(mem: Memory, r: WordRequest): TagValue {
    ValueOf(r, Delivered(mem, r))
  }

  /** The same value as the multi-memory command reports it: count 1, never an array. */
  function AsOneWord(mem: Memory, r: WordRequest): TagValue {
    Single(mem, r).(dataType := r.parsed.typeCode, count := 1)
  }

  lemma {:induction false} DeliveredInRangeIsMemory(mem: Memory, r: WordRequest)
    requires r.wordCount < 0x1_0000
    ensures Delivered(mem, r) == WordsAt(mem, r.parsed.area, r.parsed.address, r.wordCount)
  {
    assert ToU16(r.wordCount) == r.wordCount;
  }

  /** A read of this request alone: the words of its reply, zero where the count on the wire was too small. */
  function LoneRead(mem: Memory, outcome: Outcome, r: WordRequest): Result<seq<U16>, Error> {
    match WordsReply(mem, outcome, r.parsed.area, r.parsed.address, ToU16(r.wordCount))
    case Err(e) => Err(e)
    case Ok(words) => Ok(Picked(words, 0, r.wordCount))
  }

  /** The controller answers a read of the words the request's wire count asks for. */
  predicate Served(r: WordRequest) {
    !IsBitArea(r.parsed.area) && r.parsed.address as int + ToU16(r.wordCount) as int <= 0x1_0000
  }

  lemma {:induction false} LoneReadServed(mem: Memory, limit: nat, r: WordRequest)
    requires limit >= 0x2_0000 && r.wordCount > 0 && ToU16(r.wordCount) > 0
    ensures LoneRead(mem, Passed(limit), r) ==
            if IsBitArea(r.parsed.area) then Err(ShortReply)
            else if !Served(r) then Err(EndCode(ADDRESS_RANGE_EXCEEDED))
            else if ToU16(r.wordCount) >= PANIC_COUNT then Err(Panic)
            else Ok(Delivered(mem, r))
  {
    hide BeBytes;
    var count := ToU16(r.wordCount);
    ReadRequestRespond(mem, r.parsed.area, r.parsed.address, 0, count);
    var words := WordsAt(mem, r.parsed.area, r.parsed.address, count);
    assert Picked(words, 0, r.wordCount) == Delivered(mem, r);
  }

  /**
    A read of one request over a link that passes everything reports the memory
    range itself, whatever memory holds, exactly when the controller serves it
    and it is below 32768 words. It ends the process exactly when the controller
    serves it and its 16-bit count is 32768 or more.
   */
  lemma {:induction false} DeliveredIsMemory(limit: nat, r: WordRequest)
    requires limit >= 0x2_0000 && r.wordCount > 0
    ensures (forall mem: Memory ::
              LoneRead(mem, Passed(limit), r) == Ok(WordsAt(mem, r.parsed.area, r.parsed.address, r.wordCount)))
            <==> Served(r) && r.wordCount < 0x8000
    ensures forall mem: Memory ::
              LoneRead(mem, Passed(limit), r) == Err(Panic) <==> Served(r) && ToU16(r.wordCount) >= 0x8000
  {
    hide BeBytes, LoneRead, WordsReply, Reply;
    var ones := Memory((_, _) => 1, (_, _, _) => 0);
    if ToU16(r.wordCount) == 0 {
      forall mem: Memory
        ensures LoneRead(mem, Passed(limit), r) == Ok(Delivered(mem, r))
      {
        EmptyLoneRead(mem, limit, r);
      }
    } else {
      forall mem: Memory
        ensures LoneRead(mem, Passed(limit), r) ==
                if IsBitArea(r.parsed.area) then Err(ShortReply)
                else if !Served(r) then Err(EndCode(ADDRESS_RANGE_EXCEEDED))
                else if ToU16(r.wordCount) >= PANIC_COUNT then Err(Panic)
                else Ok(Delivered(mem, r))
      {
        LoneReadServed(mem, limit, r);
      }
    }
    if r.wordCount >= 0x1_0000 {
      LostWords(r);
      assert LoneRead(ones, Passed(limit), r) != Ok(WordsAt(ones, r.parsed.area, r.parsed.address, r.wordCount));
    } else {
      forall mem: Memory
        ensures Delivered(mem, r) == WordsAt(mem, r.parsed.area, r.parsed.address, r.wordCount)
      {
        DeliveredInRangeIsMemory(mem, r);
      }
      assert LoneRead(ones, Passed(limit), r).Ok? <==> Served(r) && r.wordCount < 0x8000;
    }
  }

  lemma {:induction false} EmptyLoneRead(mem: Memory, limit: nat, r: WordRequest)
    requires ToU16(r.wordCount) == 0
    ensures LoneRead(mem, Passed(limit), r) == Ok(Delivered(mem, r))
  {
    ReadRequestRespond(mem, r.parsed.area, r.parsed.address, 0, 0);
    assert Picked([], 0, r.wordCount) == Delivered(mem, r);
  }

  lemma {:induction false} LostWords(r: WordRequest)
    requires r.wordCount >= 0x1_0000
    ensures var ones := Memory((_, _) => 1, (_, _, _) => 0);
            Delivered(ones, r) != WordsAt(ones, r.parsed.area, r.parsed.address, r.wordCount)
  {
    var ones := Memory((_, _) => 1, (_, _, _) => 0);
    var last := r.wordCount - 1;
    assert !(last < ToU16(r.wordCount));
    assert Delivered(ones, r)[last] == 0;
    assert WordsAt(ones, r.parsed.area, r.parsed.address, r.wordCount)[last] == 1;
  }

  /** The two ways of reading one word agree on name and bytes always, and on everything exactly for scalars. */
  lemma {:induction false} OneWordAgrees(mem: Memory, r: WordRequest)
    ensures AsOneWord(mem, r).name == Single(mem, r).name && AsOneWord(mem, r).bytes == Single(mem, r).bytes
    ensures AsOneWord(mem, r) == Single(mem, r) <==> r.parsed.count == 1
  {
  }

  /** Some read since command `from` asked for the words of `r` and failed with `e`. */
  ghost predicate FailedRead(h: History, from: nat, r: WordRequest, e: Error)
  {
    e != Panic && exists n: nat, start: U16, count: U16 ::
      && from <= n < |h.log|
      && h.log[n] == Sent(MEMORY_READ, ReadRequest(r.parsed.area, start, 0, count))
      && Spans(start, count, r)
      && WordsReply(h.memory, h.outcome(n), r.parsed.area, start, count) == Err(e)
  }

  predicate Spans(start: U16, count: U16, r: WordRequest) {
    && start <= r.parsed.address
    && (r.parsed.address + r.wordCount <= start + count
        || (r.parsed.address == start && count == ToU16(r.wordCount)))
  }

  /** `tv` is the right answer to `r`; an error is that of a read for its words that failed since command `from`. */
  ghost predicate Answered(h: History, from: nat, r: WordRequest, tv: Option<TagValue>)
  {
    match tv
    case None => false
    case Some(v) =>
      match v.error
      case None =>
        && ToU16(r.wordCount) < PANIC_COUNT
        && (v == Single(h.memory, r) || (r.wordCount == 1 && v == AsOneWord(h.memory, r)))
      case Some(e) => v == Failed(r.address, e) && FailedRead(h, from, r, e)
  }

  ghost predicate AllAnswered(h: History, from: nat, rs: seq<WordRequest>, results: seq<Option<TagValue>>)
  {
    forall r | r in rs :: r.originalIndex < |results| && Answered(h, from, r, results[r.originalIndex])
  }

  /** Only the slots of `rs` may differ between `before` and `after`. */
  ghost predicate OthersKept(rs: seq<WordRequest>, before: seq<Option<TagValue>>, after: seq<Option<TagValue>>) {
    && |before| == |after|
    && forall i | 0 <= i < |after| && (forall r | r in rs :: r.originalIndex != i) :: after[i] == before[i]
  }

  /** Requests own distinct slots of the result list and ask for at least one word. */
  ghost predicate Slotted(rs: seq<WordRequest>, size: nat) {
    && (forall r | r in rs :: r.originalIndex < size && r.wordCount > 0)
    && (forall r, s | r in rs && s in rs && r.originalIndex == s.originalIndex :: r == s)
  }

  // ---------------------------------------------------------------- grouping

  /** Request `k` starts at the word after the last word of request `k - 1`. */
  predicate Follows(rs: seq<WordRequest>, k: nat)
    requires 0 < k < |rs|
  {
    rs[k - 1].parsed.address + rs[k - 1].wordCount == rs[k].parsed.address
  }

  /**
    The requests of a group cover its words from first to last with no gap, no
    overlap and no wrap, and several requests never exceed one read.
   */
  ghost predicate Tiled(g: ReadGroup) {
    var rs := g.requests;
    && rs != []
    && (forall k | 0 <= k < |rs| :: rs[k].parsed.area == g.area && rs[k].wordCount > 0)
    && rs[0].parsed.address == g.startAddr
    && (forall k | 0 < k < |rs| :: Follows(rs, k))
    && rs[|rs| - 1].parsed.address + rs[|rs| - 1].wordCount == g.startAddr + g.wordCount
    && (|rs| > 1 ==> g.wordCount <= MAX_WORDS_PER_READ)
  }

  /** `r` starts right after the last word of `g` and still fits in one read with it. */
  predicate Joins(g: ReadGroup, r: WordRequest) {
    && r.parsed.area == g.area
    && r.parsed.address == g.startAddr + g.wordCount
    && g.wordCount + r.wordCount <= MAX_WORDS_PER_READ
  }

  function RequestLists(groups: seq<ReadGroup>): (rss: seq<seq<WordRequest>>)
    ensures |rss| == |groups|
  {
    seq(|groups|, i requires 0 <= i < |groups| => groups[i].requests)
  }

  function RequestsOf(groups: seq<ReadGroup>): seq<WordRequest> {
    Flatten(RequestLists(groups))
  }

  lemma {:induction false} RequestsOfMembers(groups: seq<ReadGroup>, r: WordRequest)
    ensures r in RequestsOf(groups) <==> exists k :: 0 <= k < |groups| && r in groups[k].requests
  {
    FlattenMembers(RequestLists(groups), r);
    if r in RequestsOf(groups) {
      var k :| 0 <= k < |groups| && r in RequestLists(groups)[k];
      assert r in groups[k].requests;
    }
    if k :| 0 <= k < |groups| && r in groups[k].requests {
      assert r in RequestLists(groups)[k];
    }
  }

  lemma {:induction false} RequestsOfConcat(xs: seq<ReadGroup>, ys: seq<ReadGroup>)
    ensures RequestsOf(xs + ys) == RequestsOf(xs) + RequestsOf(ys)
  {
    assert RequestLists(xs + ys) == RequestLists(xs) + RequestLists(ys);
    FlattenConcat(RequestLists(xs), RequestLists(ys));
  }

  lemma {:induction false} RequestsOfOne(g: ReadGroup)
    ensures RequestsOf([g]) == g.requests
  {
    assert RequestLists([g]) == [g.requests];
    assert RequestLists([g])[1..] == [];
    assert RequestsOf([g]) == g.requests + Flatten<WordRequest>([]);
  }

  ghost predicate AllTiled(groups: seq<ReadGroup>) {
    forall k | 0 <= k < |groups| :: Tiled(groups[k])
  }

  /** No group could have taken the first request of the next one. */
  ghost predicate Maximal(groups: seq<ReadGroup>) {
    forall k | 0 < k < |groups| :: groups[k].requests != [] && !Joins(groups[k - 1], groups[k].requests[0])
  }

  /** Area first, then address: the order of the comparison function. */
  function SortKey(r: WordRequest): int {
    0x1_0000 * r.parsed.area as int + r.parsed.address as int
  }

  function NewGroup(r: WordRequest): ReadGroup {
    ReadGroup(r.parsed.area, r.parsed.address, r.wordCount, [r])
  }

  lemma {:induction false} NewGroupTiled(r: WordRequest)
    requires r.wordCount > 0
    ensures Tiled(NewGroup(r))
  {
  }

  function Extend(g: ReadGroup, r: WordRequest): ReadGroup {
    g.(wordCount := g.wordCount + r.wordCount, requests := g.requests + [r])
  }

  lemma {:induction false} ExtendTiled(g: ReadGroup, r: WordRequest)
    requires Tiled(g) && Joins(g, r) && r.wordCount > 0
    ensures Tiled(Extend(g, r))
  {
    var rs := g.requests + [r];
    forall k | 0 < k < |rs|
      ensures Follows(rs, k)
    {
      assert k < |g.requests| ==> Follows(g.requests, k);
    }
  }

  /** The 16-bit address comparison joins a later request exactly when it follows without wrapping. */
  lemma {:induction false} NoWrap(g: ReadGroup, r: WordRequest)
    requires g.startAddr <= r.parsed.address || r.parsed.area != g.area
    requires r.wordCount > 0
    ensures (r.parsed.area == g.area && r.parsed.address == ToU16(g.startAddr + ToU16(g.wordCount))
             && g.wordCount + r.wordCount <= MAX_WORDS_PER_READ) <==> Joins(g, r)
  {
  }

  /** Loop state: closed groups, then the open one, account for the requests seen so far. */
  ghost predicate Grouping(groups: seq<ReadGroup>, current: ReadGroup, seen: seq<WordRequest>) {
    && AllTiled(groups + [current])
    && Maximal(groups + [current])
    && RequestsOf(groups + [current]) == seen
  }

  lemma {:induction false} ExtendStep(groups: seq<ReadGroup>, current: ReadGroup, seen: seq<WordRequest>, r: WordRequest)
    requires Grouping(groups, current, seen) && Joins(current, r) && r.wordCount > 0
    ensures Grouping(groups, Extend(current, r), seen + [r])
  {
    var old', new' := groups + [current], groups + [Extend(current, r)];
    assert old'[|groups|] == current;
    ExtendTiled(current, r);
    forall k | 0 < k < |new'|
      ensures new'[k].requests != [] && !Joins(new'[k - 1], new'[k].requests[0])
    {
      assert old'[k].requests != [] && !Joins(old'[k - 1], old'[k].requests[0]);
    }
    forall k | 0 <= k < |new'|
      ensures Tiled(new'[k])
    {
      assert Tiled(old'[k]);
    }
    RequestsOfConcat(groups, [current]);
    RequestsOfConcat(groups, [Extend(current, r)]);
    RequestsOfOne(current);
    RequestsOfOne(Extend(current, r));
  }

  lemma {:induction false} CloseStep(groups: seq<ReadGroup>, current: ReadGroup, seen: seq<WordRequest>, r: WordRequest)
    requires Grouping(groups, current, seen) && !Joins(current, r) && r.wordCount > 0
    ensures Grouping(groups + [current], NewGroup(r), seen + [r])
  {
    var old', new' := groups + [current], groups + [current] + [NewGroup(r)];
    NewGroupTiled(r);
    forall k | 0 < k < |new'|
      ensures new'[k].requests != [] && !Joins(new'[k - 1], new'[k].requests[0])
    {
      assert k < |old'| ==> !Joins(old'[k - 1], old'[k].requests[0]);
    }
    RequestsOfConcat(old', [NewGroup(r)]);
    RequestsOfOne(NewGroup(r));
  }

  /** In sorted input the open group starts no later than the next request of its area. */
  lemma {:induction false} StartsBefore(groups: seq<ReadGroup>, current: ReadGroup, requests: seq<WordRequest>, i: nat)
    requires i < |requests| && Sorting.Sorted(requests, SortKey)
    requires Grouping(groups, current, requests[..i])
    ensures current.startAddr <= requests[i].parsed.address || requests[i].parsed.area != current.area
  {
    var all := groups + [current];
    assert all[|groups|] == current;
    var first := current.requests[0];
    RequestsOfMembers(all, first);
    assert first in requests[..i];
    var j :| 0 <= j < i && requests[j] == first;
    assert SortKey(requests[j]) <= SortKey(requests[i]);
  }

  method GroupContiguousAddresses(requests: seq<WordRequest>) returns (groups: seq<ReadGroup>)
    requires Sorting.Sorted(requests, SortKey)
    requires forall r | r in requests :: r.wordCount > 0
    ensures RequestsOf(groups) == requests
    ensures AllTiled(groups) && Maximal(groups)
  {
    groups := [];
    if |requests| == 0 {
      return;
    }
    var current := NewGroup(requests[0]);
    NewGroupTiled(requests[0]);
    RequestsOfOne(current);
    assert groups + [current] == [current];
    var i := 1;
    while i < |requests|
      invariant 1 <= i <= |requests|
      invariant Grouping(groups, current, requests[..i])
    {
      var req := requests[i];
      StartsBefore(groups, current, requests, i);
      NoWrap(current, req);
      var expectedAddr := ToU16(current.startAddr + ToU16(current.wordCount));
      TakeOneMore(requests, i);
      if req.parsed.area == current.area && req.parsed.address == expectedAddr
         && current.wordCount + req.wordCount <= MAX_WORDS_PER_READ {
        ExtendStep(groups, current, requests[..i], req);
        current := Extend(current, req);
      } else {
        CloseStep(groups, current, requests[..i], req);
        groups := groups + [current];
        current := NewGroup(req);
      }
      i := i + 1;
    }
    groups := groups + [current];
  }

  // ---------------------------------------------------------------- facts about answers

  /** More traffic does not change what earlier commands are to blame for. */
  lemma {:induction false} AnswerKept(h: History, later: History, from: nat, r: WordRequest, tv: Option<TagValue>)
    requires Extends(later, h) && Answered(h, from, r, tv)
    ensures Answered(later, from, r, tv)
  {
    if tv.value.error.Some? {
      var n: nat, start: U16, count: U16 :|
        && from <= n < |h.log|
        && h.log[n] == Sent(MEMORY_READ, ReadRequest(r.parsed.area, start, 0, count))
        && Spans(start, count, r)
        && WordsReply(h.memory, h.outcome(n), r.parsed.area, start, count) == Err(tv.value.error.value);
      assert later.log[n] == h.log[n];
    }
  }

  /** A request of a group lies inside the group's words. */
  lemma {:induction false} InsideGroup(g: ReadGroup, k: nat)
    requires Tiled(g) && k < |g.requests|
    ensures g.startAddr <= g.requests[k].parsed.address
    ensures g.requests[k].parsed.address + g.requests[k].wordCount <= g.startAddr + g.wordCount
  {
    StartInGroup(g, k);
    EndInGroup(g, k);
  }

  lemma {:induction false} StartInGroup(g: ReadGroup, k: nat)
    requires Tiled(g) && k < |g.requests|
    ensures g.startAddr <= g.requests[k].parsed.address
  {
    if k > 0 {
      StartInGroup(g, k - 1);
      assert Follows(g.requests, k);
    }
  }

  lemma {:induction false} EndInGroup(g: ReadGroup, k: nat)
    requires Tiled(g) && k < |g.requests|
    ensures g.requests[k].parsed.address + g.requests[k].wordCount <= g.startAddr + g.wordCount
    decreases |g.requests| - k
  {
    if k + 1 < |g.requests| {
      EndInGroup(g, k + 1);
      assert Follows(g.requests, k + 1);
    }
  }

  lemma {:induction false} GroupSpans(g: ReadGroup, k: nat)
    requires Tiled(g) && k < |g.requests|
    ensures Spans(g.startAddr, ToU16(g.wordCount), g.requests[k])
  {
    InsideGroup(g, k);
    if |g.requests| > 1 {
      assert ToU16(g.wordCount) == g.wordCount;
    }
  }

  /** The words of a group's reply. */
  function GroupReply(mem: Memory, g: ReadGroup): seq<U16> {
    WordsAt(mem, g.area, g.startAddr, ToU16(g.wordCount))
  }

  /** Words `at .. at + n` of a list, zero where the list ends early. */
  function Picked(words: seq<U16>, at: nat, n: nat): (ws: seq<U16>)
    ensures |ws| == n
  {
    seq<U16>(n, j requires 0 <= j => (if at + j < |words| then words[at + j] else 0) as U16)
  }

  /** The words found at a request's offset in its group's reply are those a single read delivers. */
  lemma {:induction false} GroupWords(mem: Memory, g: ReadGroup, k: nat)
    requires Tiled(g) && k < |g.requests| && g.startAddr <= g.requests[k].parsed.address
    ensures Delivered(mem, g.requests[k]) ==
            Picked(GroupReply(mem, g), g.requests[k].parsed.address - g.startAddr, g.requests[k].wordCount)
  {
    var r := g.requests[k];
    var at := r.parsed.address - g.startAddr;
    InsideGroup(g, k);
    assert |g.requests| > 1 ==> ToU16(g.wordCount) == g.wordCount && ToU16(r.wordCount) == r.wordCount;
    forall j | 0 <= j < r.wordCount
      ensures Delivered(mem, r)[j] == Picked(GroupReply(mem, g), at, r.wordCount)[j]
    {
      assert j < ToU16(r.wordCount) <==> at + j < ToU16(g.wordCount);
      assert j < ToU16(r.wordCount) ==> GroupReply(mem, g)[at + j] == mem.word(g.area, g.startAddr + (at + j));
    }
  }

  /** Filling the slot of one more of the requests `rs`, of which `done` are answered. */
  lemma {:induction false} PutAnswer(h: History, from: nat, rs: seq<WordRequest>, done: seq<WordRequest>, r: WordRequest,
                  tv: Option<TagValue>, start: seq<Option<TagValue>>, results: seq<Option<TagValue>>)
    requires Slotted(rs, |results|) && r in rs && forall d | d in done :: d in rs
    requires AllAnswered(h, from, done, results) && OthersKept(rs, start, results)
    requires Answered(h, from, r, tv)
    ensures AllAnswered(h, from, done + [r], results[r.originalIndex := tv])
    ensures OthersKept(rs, start, results[r.originalIndex := tv])
  {
  }

  /** Answers to `rs` survive later answers to `qs`, which only touch the slots of `qs`. */
  lemma {:induction false} JoinAnswers(h: History, later: History, from: nat, rs: seq<WordRequest>, qs: seq<WordRequest>,
                    before: seq<Option<TagValue>>, after: seq<Option<TagValue>>)
    requires Extends(later, h) && from <= |h.log| && Slotted(rs + qs, |after|)
    requires AllAnswered(h, from, rs, before) && AllAnswered(later, |h.log|, qs, after)
    requires OthersKept(qs, before, after)
    ensures AllAnswered(later, from, rs + qs, after)
  {
    forall r | r in rs + qs
      ensures Answered(later, from, r, after[r.originalIndex])
    {
      if q :| q in qs && q.originalIndex == r.originalIndex {
        assert q in rs + qs && Answered(later, |h.log|, q, after[q.originalIndex]);
      } else {
        AnswerKept(h, later, from, r, before[r.originalIndex]);
      }
    }
  }

  lemma {:induction false} OthersKeptTrans(ps: seq<WordRequest>, qs: seq<WordRequest>, rs: seq<WordRequest>,
                        a: seq<Option<TagValue>>, b: seq<Option<TagValue>>, c: seq<Option<TagValue>>)
    requires OthersKept(ps, a, b) && OthersKept(qs, b, c)
    requires forall r | r in ps || r in qs :: r in rs
    ensures OthersKept(rs, a, c)
  {
  }

  lemma {:induction false} OneMoreBatch(groups: seq<ReadGroup>, i: nat, end: nat)
    requires i <= end <= |groups|
    ensures RequestsOf(groups[..end]) == RequestsOf(groups[..i]) + RequestsOf(groups[i..end])
    ensures forall r | r in RequestsOf(groups[..i]) + RequestsOf(groups[i..end]) :: r in RequestsOf(groups)
  {
    assert groups[..end] == groups[..i] + groups[i..end];
    RequestsOfConcat(groups[..i], groups[i..end]);
    assert groups == groups[..end] + groups[end..];
    RequestsOfConcat(groups[..end], groups[end..]);
  }

  /** Answering groups `i .. end` after the first `i`. */
  lemma {:induction false} NextGroups(h: History, later: History, from: nat, groups: seq<ReadGroup>, i: nat, end: nat,
                   qs: seq<WordRequest>, start: seq<Option<TagValue>>, mid: seq<Option<TagValue>>,
                   after: seq<Option<TagValue>>)
    requires Extends(later, h) && from <= |h.log| && i <= end <= |groups|
    requires Slotted(RequestsOf(groups), |after|) && qs == RequestsOf(groups[i..end])
    requires AllAnswered(h, from, RequestsOf(groups[..i]), mid) && OthersKept(RequestsOf(groups), start, mid)
    requires AllAnswered(later, |h.log|, qs, after) && OthersKept(qs, mid, after)
    ensures AllAnswered(later, from, RequestsOf(groups[..end]), after)
    ensures OthersKept(RequestsOf(groups), start, after)
  {
    OneMoreBatch(groups, i, end);
    JoinAnswers(h, later, from, RequestsOf(groups[..i]), qs, mid, after);
    OthersKeptTrans(RequestsOf(groups), qs, RequestsOf(groups), start, mid, after);
  }

  /** The requests of one group are among those of all. */
  lemma {:induction false} GroupSlotted(groups: seq<ReadGroup>, i: nat, size: nat)
    requires i < |groups| && Slotted(RequestsOf(groups), size)
    ensures RequestsOf(groups[i..i + 1]) == groups[i].requests
    ensures Slotted(groups[i].requests, size)
  {
    assert groups[i..i + 1] == [groups[i]];
    RequestsOfOne(groups[i]);
    OneMoreBatch(groups, i, i + 1);
  }

  lemma {:induction false} BatchSlotted(groups: seq<ReadGroup>, i: nat, end: nat, size: nat)
    requires i <= end <= |groups| && Slotted(RequestsOf(groups), size)
    ensures Slotted(RequestsOf(groups[i..end]), size)
  {
    OneMoreBatch(groups, i, end);
  }

  // ---------------------------------------------------------------- the multi-memory command

  /** One four-byte entry per group: area, address, bit position 0. */
  function Entries(groups: seq<ReadGroup>): (s: seq<Byte>)
    ensures |s| == 4 * |groups|
  {
    if groups == [] then []
    else [groups[0].area] + Be16(groups[0].startAddr) + [0] + Entries(groups[1..])
  }

  lemma {:induction false} EntriesAppend(groups: seq<ReadGroup>, g: ReadGroup)
    ensures Entries(groups + [g]) == Entries(groups) + ([g.area] + Be16(g.startAddr) + [0])
  {
    if groups == [] {
      assert groups + [g] == [g] && [g][1..] == [];
      assert Entries([g]) == [g.area] + Be16(g.startAddr) + [0] + Entries([]);
    } else {
      assert (groups + [g])[1..] == groups[1..] + [g];
      EntriesAppend(groups[1..], g);
    }
  }

  /** What the controller replies to those entries. */
  function GroupElements(mem: Memory, groups: seq<ReadGroup>): seq<Byte> {
    Elements(mem, Entries(groups))
  }

  lemma {:induction false} ElementsStep(mem: Memory, groups: seq<ReadGroup>)
    requires groups != []
    ensures GroupElements(mem, groups) ==
            (if IsBitArea(groups[0].area) then [mem.bit(groups[0].area, groups[0].startAddr, 0)]
             else Be16(mem.word(groups[0].area, groups[0].startAddr)))
            + GroupElements(mem, groups[1..])
  {
    var es := Entries(groups);
    assert es[4..] == Entries(groups[1..]);
    Be16RoundTrip(es[..4], 1, groups[0].startAddr);
  }

  lemma {:induction false} ElementsLength(mem: Memory, groups: seq<ReadGroup>)
    ensures |GroupElements(mem, groups)| <= 2 * |groups|
  {
    if groups != [] {
      ElementsStep(mem, groups);
      ElementsLength(mem, groups[1..]);
    }
  }

  /** A full reply has two bytes per group: the word at the group's address. */
  lemma {:induction false} ElementsOfEntries(mem: Memory, groups: seq<ReadGroup>, i: nat)
    requires |GroupElements(mem, groups)| == 2 * |groups| && i < |groups|
    ensures var es := GroupElements(mem, groups);
            [es[2 * i], es[2 * i + 1]] == Be16(mem.word(groups[i].area, groups[i].startAddr))
  {
    ElementsStep(mem, groups);
    ElementsLength(mem, groups[1..]);
    if i > 0 {
      ElementsOfEntries(mem, groups[1..], i - 1);
    }
  }

  /** A delivered multi-memory reply is a prefix of the groups' elements. */
  lemma {:induction false} MultiMemoryReply(mem: Memory, outcome: Outcome, groups: seq<ReadGroup>, data: seq<Byte>)
    requires |groups| < 0x100 && data == [|groups| % 0x100] + Entries(groups)
    ensures var r := Reply(mem, outcome, Sent(MULTI_MEMORY_READ, data));
            r.Ok? ==> r.value <= GroupElements(mem, groups)
  {
    assert data[1..] == Entries(groups);
  }

  /** Nothing but one-word groups. */
  lemma {:induction false} AllOneWord(groups: seq<ReadGroup>)
    requires AllTiled(groups) && !exists k :: 0 <= k < |groups| && groups[k].wordCount > 1
    ensures forall k | 0 <= k < |groups| :: groups[k].wordCount == 1
  {
    forall k | 0 <= k < |groups|
      ensures groups[k].wordCount == 1
    {
      InsideGroup(groups[k], 0);
    }
  }

  lemma {:induction false} ReplyWord(mem: Memory, groups: seq<ReadGroup>, resp: seq<Byte>, i: nat)
    requires resp <= GroupElements(mem, groups) && |resp| >= 2 * |groups| && i < |groups|
    ensures resp[2 * i..2 * i + 2] == Be16(mem.word(groups[i].area, groups[i].startAddr))
  {
    ElementsLength(mem, groups);
    ElementsOfEntries(mem, groups, i);
    assert resp[2 * i..2 * i + 2] == [resp[2 * i], resp[2 * i + 1]];
  }

  /** A one-word group holds one request, whose value is that word. */
  lemma {:induction false} OneWordGroup(mem: Memory, g: ReadGroup)
    requires Tiled(g) && g.wordCount == 1
    ensures |g.requests| == 1 && g.requests[0].wordCount == 1
    ensures BeBytes(Delivered(mem, g.requests[0])) == Be16(mem.word(g.area, g.startAddr))
  {
    if |g.requests| > 1 {
      assert Follows(g.requests, 1);
      InsideGroup(g, 1);
      assert false;
    }
    var r := g.requests[0];
    var ws := Delivered(mem, r);
    assert r.parsed.area == g.area && r.parsed.address == g.startAddr && r.wordCount == 1;
    assert ToU16(1) == 1;
    assert ws[0] == mem.word(r.parsed.area, r.parsed.address + 0);
    assert ws[1..] == [];
    assert BeBytes(ws) == Be16(ws[0]) + BeBytes(ws[1..]);
  }

  /**
    When no read that spans the request failed and the request is below 65536
    words, it is below 32768, and its slot holds the request's own name and the
    big-endian bytes of exactly its memory range; type and count are its own
    unless it is one word of an array.
   */
  lemma {:induction false} AnswerIsMemory(h: History, from: nat, r: WordRequest, tv: Option<TagValue>)
    requires Answered(h, from, r, tv) && r.wordCount < 0x1_0000
    ensures tv.Some? && tv.value.name == r.address
    ensures tv.value.error.None? ==>
              && r.wordCount < 0x8000
              && tv.value.bytes == BeBytes(WordsAt(h.memory, r.parsed.area, r.parsed.address, r.wordCount))
              && (r.wordCount > 1 || r.parsed.count == 1 ==> tv.value == Single(h.memory, r))
    ensures tv.value.error.None? <==> forall e :: tv.value != Failed(r.address, e)
    ensures (forall e :: !FailedRead(h, from, r, e)) ==> tv.value.error.None?
  {
    DeliveredInRangeIsMemory(h.memory, r);
    OneWordAgrees(h.memory, r);
  }
}
