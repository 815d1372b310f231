/**
  The PCCC bulk read planner: whole elements of one data file are sorted, cut
  into consecutive runs and read in chunks, and whatever a chunk does not
  deliver is read by itself. Refinement of one read per address.
 */
module PcccRead {
  import opened Bytes
  import opened PcccCommand
  import opened Sorting

  const MAX_READ_BYTES: nat := 236

  /** Bytes a read of this address alone asks for. */
  function ReadSize(a: Address): (n: nat)
    ensures 2 <= n <= 84
  {
    if a.bit >= 0 || (a.fileType in {0x86, 0x87, 0x88} && a.sub > 0) then 2 else ElementSize(a.fileType)
  }

  /** A whole element, so that neighbours can share a command. */
  predicate Bulkable(p: Option<Address>) {
    p.Some? && p.value.sub == 0 && p.value.bit < 0
  }

  /** The decoder is left uninterpreted: a value is the address and bytes it was decoded from. */
  datatype Value = Nil | Decoded(addr: Address, bytes: seq<Byte>)

  function DecodeValue(addr: Address, bytes: seq<Byte>): Value {
    if bytes == [] then Nil else Decoded(addr, bytes)
  }

  datatype TagValue = TagValue(name: string, dataType: U16, value: Value, bytes: seq<Byte>, count: nat,
                               error: Option<Error>)

  /** An attempted read command. */
  datatype Asked = Asked(addr: Address, byteCount: nat)

  function OwnCommand(addr: Address): Asked {
    Asked(addr, ReadSize(addr))
  }

  function CommandOf(asked: Asked, tns: U16): ReadCommand {
    CommandFor(asked.addr, asked.byteCount, tns)
  }

  /** What that command gives back; the transaction number plays no part. */
  function ReadAnswer(mem: Memory, outcome: Outcome, asked: Asked): Result<seq<Byte>, Error> {
    Answer(mem, outcome, CommandOf(asked, 0))
  }

  /** The value made of the answer to an address's own read. */
  function OwnReply(name: string, addr: Address, answer: Result<seq<Byte>, Error>): TagValue {
    match answer
    case Err(e) => TagValue(name, 0, Nil, [], 1, Some(e))
    case Ok(data) => TagValue(name, addr.fileType, DecodeValue(addr, data), data, 1, None)
  }

  /** The memory an address names. */
  function Named(mem: Memory, addr: Address): (s: seq<Byte>)
    ensures |s| == ReadSize(addr)
  {
    FileBytes(mem, addr.fileNumber, addr.fileType, Start(addr.fileType, addr.element, addr.sub), ReadSize(addr))
  }

  function Complete(mem: Memory, name: string, addr: Address): TagValue {
    TagValue(name, addr.fileType, Decoded(addr, Named(mem, addr)), Named(mem, addr), 1, None)
  }

  /** The result for an index that needs no read of its own. */
  function Settled(mem: Memory, name: string, parsed: Option<Address>): TagValue {
    match parsed
    case None => TagValue(name, 0, Nil, [], 0, Some(InvalidAddress))
    case Some(addr) => Complete(mem, name, addr)
  }

  /** A settled value is what the address's own read returns whenever that read delivers in full. */
  lemma {:induction false} SettledIsOwnReply(mem: Memory, name: string, addr: Address, limit: nat)
    requires limit >= ReadSize(addr)
    ensures OwnReply(name, addr, ReadAnswer(mem, Passed(limit), OwnCommand(addr))) == Settled(mem, name, Some(addr))
  {
  }

  // ---------------------------------------------------------------- the connection

  /** The controller on the wire decodes the frame to exactly this command. */
  ghost predicate Carries(frame: seq<Byte>, asked: Asked) {
    match DecodeRequest(frame)
    case None => false
    case Some(u) => u.command == CommandOf(asked, u.command.tns)
  }

  class Plc {
    const memory: Memory
    const outcome: nat -> Outcome
    const hops: seq<Hop>
    const id: Requester
    var connected: bool
    var tns: U32
    var sent: seq<seq<Byte>>
    ghost var asked: seq<Asked>

    constructor (memory: Memory, outcome: nat -> Outcome, hops: seq<Hop>, id: Requester, tns: U32)
      requires forall h | h in hops :: ValidHop(h)
      ensures Valid() && connected && asked == []
      ensures this.memory == memory && this.outcome == outcome
    {
      this.memory, this.outcome, this.hops, this.id, this.tns := memory, outcome, hops, id, tns;
      connected, sent, asked := true, [], [];
    }

    ghost predicate Valid()
      reads this
    {
      && (forall h | h in hops :: ValidHop(h))
      && |sent| == |asked|
      && (forall k | 0 <= k < |sent| :: Carries(sent[k], asked[k]))
    }

    /** One encapsulated exchange; a dropped link stays down. */
    method SendCipRequest(request: seq<Byte>) returns (r: Result<seq<Byte>, Error>)
      requires forall h | h in hops :: ValidHop(h)
      modifies this`connected, this`sent
      ensures sent == old(sent) + [request]
      ensures connected == (old(connected) && !outcome(|old(sent)|).Lost?)
      ensures r == if !old(connected) || outcome(|old(sent)|).Lost? then Err(LinkDown)
                   else if outcome(|old(sent)|).Refused? then Err(Rejected)
                   else Ok(Wrapped(hops, Respond(memory, outcome(|old(sent)|), request)))
    {
      var happened := outcome(|sent|);
      sent := sent + [request];
      if !connected || happened.Lost? {
        connected := false;
        r := Err(LinkDown);
      } else if happened.Refused? {
        r := Err(Rejected);
      } else {
        r := Ok(Wrapped(hops, Respond(memory, happened, request)));
      }
    }

    method ReadBytes(addr: Address, byteCount: nat) returns (r: Result<seq<Byte>, Error>)
      requires Valid()
      modifies this
      ensures Valid()
      ensures asked == old(asked) + [Asked(addr, byteCount)]
      ensures connected == (old(connected) && !outcome(|old(asked)|).Lost?)
      ensures r == if old(connected) then ReadAnswer(memory, outcome(|old(asked)|), Asked(addr, byteCount))
                   else Err(LinkDown)
    {
      hide Carries, BuildReadRequest, DecodeRequest, ParseReply, Wrapped, Respond;
      tns := if tns == 0xFFFF_FFFF then 0 else tns + 1;
      var c := CommandFor(addr, byteCount, ToU16(tns));
      var request := BuildReadRequest(c, id);
      RequestCarries(c, id, Asked(addr, byteCount));
      var resp := SendCipRequest(request);
      asked := asked + [Asked(addr, byteCount)];
      if resp.Err? {
        return Err(resp.error);
      }
      ReadThroughWire(memory, outcome(|old(asked)|), c, id, hops);
      r := ParseReply(resp.value);
    }

    method ReadAddress(addr: Address) returns (r: Result<seq<Byte>, Error>)
      requires Valid()
      modifies this
      ensures Valid()
      ensures asked == old(asked) + [OwnCommand(addr)]
      ensures connected == (old(connected) && !outcome(|old(asked)|).Lost?)
      ensures r == if old(connected) then ReadAnswer(memory, outcome(|old(asked)|), OwnCommand(addr))
                   else Err(LinkDown)
    {
      r := ReadBytes(addr, ReadSize(addr));
    }

    /** Reads `count` neighbouring elements with one command. */
    method ReadAddressN(addr: Address, count: nat) returns (r: Result<seq<Byte>, Error>)
      requires Valid() && count > 0
      modifies this
      ensures Valid()
      ensures asked == old(asked) + [Asked(addr, Span(count, ElementSize(addr.fileType)))]
      ensures connected == (old(connected) && !outcome(|old(asked)|).Lost?)
      ensures r == if old(connected) then ReadAnswer(memory, outcome(|old(asked)|), asked[|old(asked)|])
                   else Err(LinkDown)
    {
      r := ReadBytes(addr, Span(count, ElementSize(addr.fileType)));
    }
  }

  lemma {:induction false} RequestCarries(c: ReadCommand, id: Requester, asked: Asked)
    requires c == CommandOf(asked, c.tns)
    ensures Carries(BuildReadRequest(c, id), asked)
  {
    DecodeInvertsBuild(c, id);
  }

  // ---------------------------------------------------------------- consecutive runs

  function ElementOf(parsed: seq<Option<Address>>): nat -> U16 {
    (i: nat) => if i < |parsed| && parsed[i].Some? then parsed[i].value.element else 0
  }

  /** The sort key. */
  function Rank(elementOf: nat -> U16): nat -> int {
    (i: nat) => elementOf(i) as int
  }

  /** Each element number is one more than the one before. */
  ghost predicate Consecutive(run: seq<nat>, elementOf: nat -> U16) {
    run != [] && forall j | 0 <= j < |run| :: elementOf(run[j]) == elementOf(run[0]) + j
  }

  /** The next run does not continue this one. */
  ghost predicate Breaks(run: seq<nat>, next: seq<nat>, elementOf: nat -> U16) {
    run != [] && next != [] && elementOf(next[0]) != elementOf(run[|run| - 1]) + 1
  }

  /** Maximal consecutive runs, in order. */
  ghost predicate MaximalRuns(runs: seq<seq<nat>>, elementOf: nat -> U16) {
    && (forall k | 0 <= k < |runs| :: Consecutive(runs[k], elementOf))
    && (forall k | 0 < k < |runs| :: Breaks(runs[k - 1], runs[k], elementOf))
  }

  lemma {:induction false} ExtendRun(run: seq<nat>, i: nat, elementOf: nat -> U16)
    requires Consecutive(run, elementOf) && elementOf(i) == elementOf(run[|run| - 1]) + 1
    ensures Consecutive(run + [i], elementOf)
  {
  }

  lemma {:induction false} CloseRun(runs: seq<seq<nat>>, current: seq<nat>, elementOf: nat -> U16)
    requires MaximalRuns(runs, elementOf) && Consecutive(current, elementOf)
    requires runs != [] ==> Breaks(runs[|runs| - 1], current, elementOf)
    ensures MaximalRuns(runs + [current], elementOf)
    ensures Flatten(runs + [current]) == Flatten(runs) + current
  {
    FlattenAppend(runs, current);
  }

  /** The first `i` elements are cut; the last run may still grow. */
  ghost predicate CutSoFar(sorted: seq<nat>, i: nat, runs: seq<seq<nat>>, current: seq<nat>, elementOf: nat -> U16) {
    && 0 < i <= |sorted|
    && Flatten(runs) + current == sorted[..i]
    && Consecutive(current, elementOf) && current[|current| - 1] == sorted[i - 1]
    && MaximalRuns(runs, elementOf)
    && (runs != [] ==> Breaks(runs[|runs| - 1], current, elementOf))
  }

  lemma {:induction false} CutStep(sorted: seq<nat>, i: nat, runs: seq<seq<nat>>, current: seq<nat>,
                                   elementOf: nat -> U16)
    requires CutSoFar(sorted, i, runs, current, elementOf) && i < |sorted|
    ensures elementOf(sorted[i]) == elementOf(sorted[i - 1]) + 1 ==>
              CutSoFar(sorted, i + 1, runs, current + [sorted[i]], elementOf)
    ensures elementOf(sorted[i]) != elementOf(sorted[i - 1]) + 1 ==>
              CutSoFar(sorted, i + 1, runs + [current], [sorted[i]], elementOf)
  {
    hide MaximalRuns, Flatten;
    TakeOneMore(sorted, i);
    if elementOf(sorted[i]) == elementOf(sorted[i - 1]) + 1 {
      assert Flatten(runs) + (current + [sorted[i]]) == sorted[..i] + [sorted[i]];
      ExtendRun(current, sorted[i], elementOf);
    } else {
      CloseRun(runs, current, elementOf);
      SingleRun(sorted[i], elementOf);
    }
  }

  lemma {:induction false} SingleRun(i: nat, elementOf: nat -> U16)
    ensures Consecutive([i], elementOf)
  {
  }

  lemma {:induction false} FirstCut(sorted: seq<nat>, elementOf: nat -> U16)
    requires sorted != []
    ensures CutSoFar(sorted, 1, [], [sorted[0]], elementOf)
  {
  }

  lemma {:induction false} LastCut(sorted: seq<nat>, runs: seq<seq<nat>>, current: seq<nat>, elementOf: nat -> U16)
    requires CutSoFar(sorted, |sorted|, runs, current, elementOf)
    ensures Flatten(runs + [current]) == sorted
    ensures MaximalRuns(runs + [current], elementOf)
  {
    CloseRun(runs, current, elementOf);
  }

  /** Cuts a sorted list into maximal consecutive runs; the 16-bit increment never wraps into a run. */
  method ContiguousRuns(sorted: seq<nat>, elementOf: nat -> U16) returns (runs: seq<seq<nat>>)
    requires Sorted(sorted, Rank(elementOf))
    ensures Flatten(runs) == sorted
    ensures MaximalRuns(runs, elementOf)
  {
    hide CutSoFar, MaximalRuns, Flatten;
    runs := [];
    if sorted == [] {
      NoRuns(runs, elementOf);
      return;
    }
    var current := [sorted[0]];
    FirstCut(sorted, elementOf);
    for i := 1 to |sorted|
      invariant CutSoFar(sorted, i, runs, current, elementOf)
    {
      var prev := elementOf(sorted[i - 1]);
      var curr := elementOf(sorted[i]);
      assert Rank(elementOf)(sorted[i - 1]) <= Rank(elementOf)(sorted[i]);
      CutStep(sorted, i, runs, current, elementOf);
      if curr == ToU16(prev as int + 1) {
        current := current + [sorted[i]];
      } else {
        runs := runs + [current];
        current := [sorted[i]];
      }
    }
    LastCut(sorted, runs, current, elementOf);
    runs := runs + [current];
  }

  lemma {:induction false} NoRuns(runs: seq<seq<nat>>, elementOf: nat -> U16)
    requires runs == []
    ensures MaximalRuns(runs, elementOf) && Flatten(runs) == []
  {
  }

  // ---------------------------------------------------------------- bulk reads

  datatype Key = Key(fileNumber: U16, fileType: Byte)

  function KeyOf(addr: Address): Key {
    Key(addr.fileNumber, addr.fileType)
  }

  /** Indices of bulkable addresses in one data file. */
  ghost predicate InFile(parsed: seq<Option<Address>>, indices: seq<nat>, key: Key) {
    forall j | 0 <= j < |indices| ::
      indices[j] < |parsed| && Bulkable(parsed[indices[j]]) && KeyOf(parsed[indices[j]].value) == key
  }

  /** A handled index holds its settled value, and an address that does not parse is handled. */
  ghost predicate Progress(mem: Memory, names: seq<string>, parsed: seq<Option<Address>>,
                           results: seq<Option<TagValue>>, handled: seq<bool>)
  {
    && |names| == |parsed| == |results| == |handled|
    && (forall i | 0 <= i < |handled| && handled[i] :: results[i] == Some(Settled(mem, names[i], parsed[i])))
    && (forall i | 0 <= i < |handled| && parsed[i].None? :: handled[i])
  }

  /** A consecutive part of one data file, small enough for one command. */
  ghost predicate IsChunk(parsed: seq<Option<Address>>, chunk: seq<nat>, key: Key) {
    && InFile(parsed, chunk, key)
    && Consecutive(chunk, ElementOf(parsed))
    && Span(|chunk|, ElementSize(key.fileType)) <= MAX_READ_BYTES
  }

  function BulkCommand(parsed: seq<Option<Address>>, chunk: seq<nat>): Asked
    requires chunk != [] && chunk[0] < |parsed| && parsed[chunk[0]].Some?
  {
    Asked(parsed[chunk[0]].value, Span(|chunk|, ElementSize(parsed[chunk[0]].value.fileType)))
  }

  /** `j` elements of `size` bytes. */
  function Span(j: nat, size: nat): nat {
    j * size
  }

  lemma {:induction false} ElementStart(fileType: Byte, element: U16, later: U16, j: nat)
    requires later as int == element as int + j
    ensures Start(fileType, later, 0) == Start(fileType, element, 0) + Span(j, ElementSize(fileType))
  {
    var size := ElementSize(fileType);
    assert (element as int + j) * size == element as int * size + j * size;
  }

  lemma {:induction false} FileSlice(mem: Memory, key: Key, start: nat, n: nat, data: seq<Byte>, offset: nat, m: nat)
    requires offset + m <= |data| && data <= FileBytes(mem, key.fileNumber, key.fileType, start, n)
    ensures data[offset..offset + m] == FileBytes(mem, key.fileNumber, key.fileType, start + offset, m)
  {
  }

  /** A bulk reply is a prefix of the elements' bytes. */
  lemma {:induction false} BulkPrefix(mem: Memory, outcome: Outcome, first: Address, n: nat)
    requires ReadAnswer(mem, outcome, Asked(first, n)).Ok? && n < 0x1_0000 && first.sub == 0
    ensures ReadAnswer(mem, outcome, Asked(first, n)).value <=
            FileBytes(mem, first.fileNumber, first.fileType, Start(first.fileType, first.element, 0), n)
  {
  }

  /** The slice of a bulk reply at an element's position is what that element names. */
  lemma {:induction false} SliceIsNamed(mem: Memory, outcome: Outcome, parsed: seq<Option<Address>>, chunk: seq<nat>,
                                        key: Key, j: nat)
    requires IsChunk(parsed, chunk, key) && j < |chunk|
    requires ReadAnswer(mem, outcome, BulkCommand(parsed, chunk)).Ok?
    requires Span(j, ElementSize(key.fileType)) + ElementSize(key.fileType) <=
             |ReadAnswer(mem, outcome, BulkCommand(parsed, chunk)).value|
    ensures var size := ElementSize(key.fileType);
            ReadAnswer(mem, outcome, BulkCommand(parsed, chunk)).value[Span(j, size)..Span(j, size) + size] ==
            Named(mem, parsed[chunk[j]].value)
  {
    hide Span, FileBytes, Start, ReadAnswer;
    var size := ElementSize(key.fileType);
    var first, addr := parsed[chunk[0]].value, parsed[chunk[j]].value;
    var n := Span(|chunk|, size);
    assert ElementOf(parsed)(chunk[j]) == ElementOf(parsed)(chunk[0]) + j;
    BulkPrefix(mem, outcome, first, n);
    ElementStart(key.fileType, first.element, addr.element, j);
    FileSlice(mem, key, Start(key.fileType, first.element, 0), n, ReadAnswer(mem, outcome, Asked(first, n)).value,
              Span(j, size), size);
  }

  lemma {:induction false} SpanMonotone(j: nat, size: nat)
    ensures forall k: nat | k >= j :: Span(k, size) >= Span(j, size)
  {
    forall k: nat | k >= j
      ensures Span(k, size) >= Span(j, size)
    {
      MulMonotone(j, k, size);
    }
  }

  // ---------------------------------------------------------------- what a plan asks for

  /** A bulk command asks for at least two whole elements and at most 236 bytes. */
  ghost predicate IsBulk(c: Asked) {
    && c.byteCount <= MAX_READ_BYTES && Bulkable(Some(c.addr))
    && exists n: nat | n >= 2 :: c.byteCount == Span(n, ElementSize(c.addr.fileType))
  }

  ghost predicate BulkOnly(commands: seq<Asked>) {
    forall c | c in commands :: IsBulk(c)
  }

  /** The most elements of a type one command may ask for. */
  function MaxCount(fileType: Byte): (n: nat)
    ensures n >= 2 && Span(n, ElementSize(fileType)) <= MAX_READ_BYTES
  {
    var size := ElementSize(fileType);
    DivideBack(MAX_READ_BYTES, size);
    MAX_READ_BYTES / size
  }

  lemma {:induction false} DivideBack(n: nat, size: nat)
    requires size > 0
    ensures Span(n / size, size) <= n
  {
    assert n == n / size * size + n % size;
  }

  /** One command per chunk of two or more elements. */
  ghost function ChunkCommands(parsed: seq<Option<Address>>, run: seq<nat>, maxCount: nat): seq<Asked>
    requires maxCount > 0 && forall j | 0 <= j < |run| :: run[j] < |parsed| && Bulkable(parsed[run[j]])
    decreases |run|
  {
    if run == [] then [] else
      var n := Min(|run|, maxCount);
      assert run[..n][0] == run[0] && Bulkable(parsed[run[0]]);
      assert forall j | 0 <= j < |run[n..]| :: run[n..][j] == run[n + j];
      (if n < 2 then [] else [BulkCommand(parsed, run[..n])]) + ChunkCommands(parsed, run[n..], maxCount)
  }

  /** The commands for what is left of a run at `start`. */
  ghost function CommandsFrom(parsed: seq<Option<Address>>, run: seq<nat>, key: Key, start: nat): seq<Asked>
    requires InFile(parsed, run, key)
  {
    if start >= |run| then [] else ChunkCommands(parsed, run[start..], MaxCount(key.fileType))
  }

  lemma {:induction false} NextChunk(parsed: seq<Option<Address>>, run: seq<nat>, key: Key, start: nat, end: nat)
    requires InFile(parsed, run, key) && start < |run| && end == Min(start + MaxCount(key.fileType), |run|)
    ensures start < end && run[start..end][0] == run[start]
    ensures CommandsFrom(parsed, run, key, start) ==
            (if end - start < 2 then [] else [BulkCommand(parsed, run[start..end])])
            + CommandsFrom(parsed, run, key, start + MaxCount(key.fileType))
  {
    hide BulkCommand;
    var rest := run[start..];
    assert rest[..end - start] == run[start..end] && rest[end - start..] == run[end..];
    assert Min(|rest|, MaxCount(key.fileType)) == end - start;
    assert rest[0] == run[start] && Bulkable(parsed[rest[0]]);
    assert forall j | 0 <= j < |rest| :: rest[j] == run[start + j];
    assert CommandsFrom(parsed, run, key, start + MaxCount(key.fileType)) ==
           ChunkCommands(parsed, run[end..], MaxCount(key.fileType));
  }

  lemma {:induction false} CommandsEnd(parsed: seq<Option<Address>>, run: seq<nat>, key: Key, start: nat)
    requires InFile(parsed, run, key) && start >= |run|
    ensures CommandsFrom(parsed, run, key, start) == []
  {
  }

  /** From `start` on, position `j` of a run of `n` elements lies in a chunk of two or more. */
  ghost predicate Shares(n: nat, maxCount: nat, start: nat, j: nat)
    requires maxCount > 0
    decreases n - start
  {
    start < n
    && var end := Min(start + maxCount, n);
       (start <= j < end && end - start >= 2) || Shares(n, maxCount, start + maxCount, j)
  }

  lemma {:induction false} SharesInRange(n: nat, maxCount: nat, start: nat, j: nat)
    requires maxCount > 0 && Shares(n, maxCount, start, j)
    ensures start <= j < n
    decreases n - start
  {
    var end := Min(start + maxCount, n);
    if !(start <= j < end && end - start >= 2) {
      SharesInRange(n, maxCount, start + maxCount, j);
    }
  }

  /** The link answers these commands in full. */
  ghost predicate Flawless(outcome: nat -> Outcome, from: nat, to: nat) {
    forall k | from <= k < to :: outcome(k).Passed? && outcome(k).limit >= MAX_READ_BYTES
  }

  lemma {:induction false} FlawlessPart(outcome: nat -> Outcome, from: nat, a: nat, b: nat, to: nat)
    requires from <= a <= b <= to && Flawless(outcome, from, to)
    ensures Flawless(outcome, a, b)
  {
  }

  /** The plan for one data file: its whole-element addresses, sorted and cut into maximal consecutive runs. */
  datatype FilePlan = FilePlan(key: Key, runs: seq<seq<nat>>)

  ghost predicate Plans(parsed: seq<Option<Address>>, indices: seq<nat>, runs: seq<seq<nat>>) {
    && Sorted(Flatten(runs), Rank(ElementOf(parsed)))
    && multiset(Flatten(runs)) == multiset(indices)
    && MaximalRuns(runs, ElementOf(parsed))
  }

  /** The commands for the runs, one after the other. */
  ghost function RunsCommands(parsed: seq<Option<Address>>, key: Key, runs: seq<seq<nat>>): seq<Asked> {
    if runs == [] then [] else
      var init, last := runs[..|runs| - 1], runs[|runs| - 1];
      RunsCommands(parsed, key, init) + (if InFile(parsed, last, key) then CommandsFrom(parsed, last, key, 0) else [])
  }

  ghost function PlanCommands(parsed: seq<Option<Address>>, plans: seq<FilePlan>): seq<Asked> {
    if plans == [] then [] else
      var init, last := plans[..|plans| - 1], plans[|plans| - 1];
      PlanCommands(parsed, init) + RunsCommands(parsed, last.key, last.runs)
  }

  /** Every element that shares a command is handled. */
  ghost predicate RunsHandled(key: Key, runs: seq<seq<nat>>, handled: seq<bool>) {
    forall k, j: nat | 0 <= k < |runs| && Shares(|runs[k]|, MaxCount(key.fileType), 0, j) ::
      j < |runs[k]| && runs[k][j] < |handled| && handled[runs[k][j]]
  }

  ghost predicate PlansHandled(plans: seq<FilePlan>, handled: seq<bool>) {
    forall p | 0 <= p < |plans| :: RunsHandled(plans[p].key, plans[p].runs, handled)
  }

  /** Handled indices stay handled. */
  ghost predicate Kept(before: seq<bool>, after: seq<bool>) {
    |before| == |after| && forall i | 0 <= i < |before| && before[i] :: after[i]
  }

  lemma {:induction false} HandledKept(plans: seq<FilePlan>, before: seq<bool>, after: seq<bool>)
    requires PlansHandled(plans, before) && Kept(before, after)
    ensures PlansHandled(plans, after)
  {
    forall p | 0 <= p < |plans|
      ensures RunsHandled(plans[p].key, plans[p].runs, after)
    {
      RunsHandledKept(plans[p].key, plans[p].runs, before, after);
    }
  }

  lemma {:induction false} RunsHandledKept(key: Key, runs: seq<seq<nat>>, before: seq<bool>, after: seq<bool>)
    requires RunsHandled(key, runs, before) && Kept(before, after)
    ensures RunsHandled(key, runs, after)
  {
  }

  lemma {:induction false} RunHandledToo(key: Key, runs: seq<seq<nat>>, run: seq<nat>, handled: seq<bool>)
    requires RunsHandled(key, runs, handled)
    requires forall j: nat | Shares(|run|, MaxCount(key.fileType), 0, j) ::
               j < |run| && run[j] < |handled| && handled[run[j]]
    ensures RunsHandled(key, runs + [run], handled)
  {
  }

  /** A run of one shares nothing and needs no bulk command. */
  lemma {:induction false} ShortRun(parsed: seq<Option<Address>>, run: seq<nat>, key: Key)
    requires |run| < 2 && InFile(parsed, run, key)
    ensures CommandsFrom(parsed, run, key, 0) == []
    ensures forall j: nat :: !Shares(|run|, MaxCount(key.fileType), 0, j)
  {
    if run != [] {
      NextChunk(parsed, run, key, 0, 1);
      CommandsEnd(parsed, run, key, MaxCount(key.fileType));
    }
  }

  /** A full reply reaches to the last element of its chunk. */
  lemma {:induction false} FullReply(mem: Memory, outcome: Outcome, parsed: seq<Option<Address>>, chunk: seq<nat>, key: Key)
    requires IsChunk(parsed, chunk, key) && outcome.Passed? && outcome.limit >= MAX_READ_BYTES
    ensures var answer := ReadAnswer(mem, outcome, BulkCommand(parsed, chunk));
            answer.Ok? && forall j: nat | j < |chunk| ::
              Span(j, ElementSize(key.fileType)) + ElementSize(key.fileType) <= |answer.value|
  {
    var size := ElementSize(key.fileType);
    forall j: nat | j < |chunk|
      ensures Span(j, size) + size <= Span(|chunk|, size)
    {
      assert Span(j + 1, size) == Span(j, size) + size;
      MulMonotone(j + 1, |chunk|, size);
    }
  }

  /** A part of a consecutive run is a chunk. */
  lemma {:induction false} PartIsChunk(parsed: seq<Option<Address>>, run: seq<nat>, key: Key, from: nat, to: nat)
    requires InFile(parsed, run, key) && Consecutive(run, ElementOf(parsed)) && from < to <= |run|
    requires to - from <= MaxCount(key.fileType)
    ensures IsChunk(parsed, run[from..to], key)
    ensures to - from >= 2 ==> IsBulk(BulkCommand(parsed, run[from..to]))
  {
    var chunk := run[from..to];
    var elementOf := ElementOf(parsed);
    assert forall j | 0 <= j < |chunk| :: chunk[j] == run[from + j];
    assert elementOf(chunk[0]) == elementOf(run[0]) + from;
    var size := ElementSize(key.fileType);
    MulMonotone(|chunk|, MaxCount(key.fileType), size);
  }

  predicate Belongs(p: Option<Address>, key: Key) {
    Bulkable(p) && KeyOf(p.value) == key
  }

  /** Indices of the bulkable addresses of one data file among the first `n`, in request order. */
  function IndicesOf(parsed: seq<Option<Address>>, key: Key, n: nat): seq<nat>
    requires n <= |parsed|
  {
    if n == 0 then []
    else if Belongs(parsed[n - 1], key) then IndicesOf(parsed, key, n - 1) + [n - 1]
    else IndicesOf(parsed, key, n - 1)
  }

  ghost predicate Ascending(s: seq<nat>) {
    forall j, k | 0 <= j < k < |s| :: s[j] < s[k]
  }

  lemma {:induction false} AscendingAppend(s: seq<nat>, i: nat)
    requires Ascending(s) && forall j | j in s :: j < i
    ensures Ascending(s + [i])
  {
    forall j | 0 <= j < |s|
      ensures s[j] < i
    {
      assert s[j] in s;
    }
  }

  /** Exactly the addresses of that file, each once. */
  lemma {:induction false} IndicesExact(parsed: seq<Option<Address>>, key: Key, n: nat)
    requires n <= |parsed|
    ensures InFile(parsed, IndicesOf(parsed, key, n), key)
    ensures forall i: nat :: i in IndicesOf(parsed, key, n) <==> i < n && Belongs(parsed[i], key)
    ensures Ascending(IndicesOf(parsed, key, n))
  {
    if n > 0 {
      IndicesExact(parsed, key, n - 1);
      AscendingAppend(IndicesOf(parsed, key, n - 1), n - 1);
    }
  }

  /** Groups the bulkable indices by data file, each file's in request order. */
  method GroupIndices(parsed: seq<Option<Address>>) returns (groups: map<Key, seq<nat>>)
    ensures forall key :: key in groups <==> IndicesOf(parsed, key, |parsed|) != []
    ensures forall key | key in groups :: groups[key] == IndicesOf(parsed, key, |parsed|)
  {
    groups := map[];
    for i := 0 to |parsed|
      invariant forall key :: key in groups <==> IndicesOf(parsed, key, i) != []
      invariant forall key | key in groups :: groups[key] == IndicesOf(parsed, key, i)
    {
      IndicesStep(parsed, i);
      if Bulkable(parsed[i]) {
        var key := KeyOf(parsed[i].value);
        groups := groups[key := (if key in groups then groups[key] else []) + [i]];
      }
    }
  }

  lemma {:induction false} IndicesStep(parsed: seq<Option<Address>>, i: nat)
    requires i < |parsed|
    ensures forall key :: IndicesOf(parsed, key, i + 1) ==
                          if Belongs(parsed[i], key) then IndicesOf(parsed, key, i) + [i] else IndicesOf(parsed, key, i)
  {
  }

  /** The reads a plain client makes: one for each name that parses. */
  function OwnCommands(parse: string -> Option<Address>, names: seq<string>): seq<Asked> {
    if names == [] then [] else
      var init, name := names[..|names| - 1], names[|names| - 1];
      OwnCommands(parse, init) + (if parse(name).Some? then [OwnCommand(parse(name).value)] else [])
  }

  lemma {:induction false} OneCommandEach(parse: string -> Option<Address>, names: seq<string>)
    requires forall i | 0 <= i < |names| :: parse(names[i]).Some?
    ensures |OwnCommands(parse, names)| == |names|
  {
    if names != [] {
      OneCommandEach(parse, names[..|names| - 1]);
    }
  }

  /** What a plain read returns for one name. */
  function OwnValue(mem: Memory, parse: string -> Option<Address>, name: string, outcome: Outcome): TagValue {
    match parse(name)
    case None => TagValue(name, 0, Nil, [], 1, Some(InvalidAddress))
    case Some(addr) => OwnReply(name, addr, ReadAnswer(mem, outcome, OwnCommand(addr)))
  }

  /** What the plain client returns for a list of names, its first command being number `base`. */
  function OwnValues(mem: Memory, parse: string -> Option<Address>, outcome: nat -> Outcome, base: nat,
                     names: seq<string>): (values: seq<TagValue>)
    ensures |values| == |names|
  {
    if names == [] then [] else
      var init, name := names[..|names| - 1], names[|names| - 1];
      OwnValues(mem, parse, outcome, base, init)
      + [OwnValue(mem, parse, name, outcome(base + |OwnCommands(parse, init)|))]
  }

  /** When every name parses, name `p` is answered by command `base + p`. */
  lemma {:induction false} OwnValueAt(mem: Memory, parse: string -> Option<Address>, outcome: nat -> Outcome,
                                      base: nat, names: seq<string>, p: nat)
    requires p < |names| && forall i | 0 <= i < |names| :: parse(names[i]).Some?
    ensures OwnValues(mem, parse, outcome, base, names)[p] == OwnValue(mem, parse, names[p], outcome(base + p))
    ensures |OwnCommands(parse, names)| == |names|
    ensures OwnCommands(parse, names)[p] == OwnCommand(parse(names[p]).value)
  {
    OneCommandEach(parse, names);
    var init := names[..|names| - 1];
    OneCommandEach(parse, init);
    if p < |init| {
      OwnValueAt(mem, parse, outcome, base, init, p);
    }
  }

  /** The positions before `start` that share a command are handled. */
  ghost predicate DoneBefore(run: seq<nat>, maxCount: nat, start: nat, handled: seq<bool>)
    requires maxCount > 0
  {
    forall j: nat | Shares(|run|, maxCount, 0, j) && !Shares(|run|, maxCount, start, j) ::
      j < |run| && run[j] < |handled| && handled[run[j]]
  }

  lemma {:induction false} ChunkDone(parsed: seq<Option<Address>>, run: seq<nat>, key: Key, start: nat, end: nat,
                                     before: seq<bool>, after: seq<bool>)
    requires InFile(parsed, run, key) && start < |run| && end == Min(start + MaxCount(key.fileType), |run|)
    requires DoneBefore(run, MaxCount(key.fileType), start, before) && Kept(before, after)
    requires end - start >= 2 ==>
               var chunk := run[start..end];
               forall j | 0 <= j < |chunk| :: chunk[j] < |after| && after[chunk[j]]
    ensures DoneBefore(run, MaxCount(key.fileType), start + MaxCount(key.fileType), after)
  {
    var maxCount := MaxCount(key.fileType);
    forall j: nat | Shares(|run|, maxCount, 0, j) && !Shares(|run|, maxCount, start + maxCount, j)
      ensures j < |run| && run[j] < |after| && after[run[j]]
    {
      if Shares(|run|, maxCount, start, j) {
        assert run[start..end][j - start] == run[j];
      }
    }
  }

  lemma {:induction false} AllDone(run: seq<nat>, maxCount: nat, start: nat, handled: seq<bool>)
    requires maxCount > 0 && start >= |run|
    ensures DoneBefore(run, maxCount, start, handled) ==>
              forall j: nat | Shares(|run|, maxCount, 0, j) :: j < |run| && run[j] < |handled| && handled[run[j]]
  {
  }

  lemma {:induction false} NoRunsYet(parsed: seq<Option<Address>>, key: Key, handled: seq<bool>)
    ensures RunsCommands(parsed, key, []) == [] && RunsHandled(key, [], handled)
  {
  }

  lemma {:induction false} NextRunCommands(parsed: seq<Option<Address>>, key: Key, runs: seq<seq<nat>>, k: nat)
    requires k < |runs| && InFile(parsed, runs[k], key)
    ensures RunsCommands(parsed, key, runs[..k + 1]) ==
            RunsCommands(parsed, key, runs[..k]) + CommandsFrom(parsed, runs[k], key, 0)
  {
    assert runs[..k + 1][..k] == runs[..k];
  }

  lemma {:induction false} PlanMade(parsed: seq<Option<Address>>, indices: seq<nat>, runs: seq<seq<nat>>)
    requires Sorted(Flatten(runs), Rank(ElementOf(parsed))) && multiset(Flatten(runs)) == multiset(indices)
    requires MaximalRuns(runs, ElementOf(parsed))
    ensures Plans(parsed, indices, runs)
  {
  }

  /** A file with fewer than two whole-element addresses is planned without a command. */
  lemma {:induction false} SmallPlan(parsed: seq<Option<Address>>, indices: seq<nat>, key: Key, handled: seq<bool>)
    returns (runs: seq<seq<nat>>)
    requires |indices| < 2 && InFile(parsed, indices, key)
    ensures Plans(parsed, indices, runs) && RunsCommands(parsed, key, runs) == [] && RunsHandled(key, runs, handled)
  {
    if indices == [] {
      runs := [];
    } else {
      runs := [indices];
      assert runs[1..] == [] && runs[..0] == [];
      assert Flatten(runs) == indices + Flatten<nat>([]);
      assert runs[..0] == [] && RunsCommands(parsed, key, runs[..0]) == [];
      ShortRun(parsed, indices, key);
    }
  }

  /** One plan for each of these data files, and for no other. */
  ghost predicate PlanOf(parsed: seq<Option<Address>>, groups: map<Key, seq<nat>>, keys: set<Key>, plans: seq<FilePlan>) {
    && keys <= groups.Keys
    && (forall p | 0 <= p < |plans| :: plans[p].key in keys && Plans(parsed, groups[plans[p].key], plans[p].runs))
    && (forall key | key in keys :: exists p :: 0 <= p < |plans| && plans[p].key == key)
    && (forall p, q | 0 <= p < q < |plans| :: plans[p].key != plans[q].key)
  }

  lemma {:induction false} PlanMore(parsed: seq<Option<Address>>, groups: map<Key, seq<nat>>, keys: set<Key>,
                                    plans: seq<FilePlan>, key: Key, runs: seq<seq<nat>>)
    requires PlanOf(parsed, groups, keys, plans) && key in groups && key !in keys
    requires Plans(parsed, groups[key], runs)
    ensures PlanOf(parsed, groups, keys + {key}, plans + [FilePlan(key, runs)])
  {
    hide Plans;
    var more := plans + [FilePlan(key, runs)];
    forall k | k in keys + {key}
      ensures exists p :: 0 <= p < |more| && more[p].key == k
    {
      if k == key {
        assert more[|plans|].key == k;
      } else {
        var p :| 0 <= p < |plans| && plans[p].key == k;
        assert more[p].key == k;
      }
    }
  }

  lemma {:induction false} NoPlanYet(parsed: seq<Option<Address>>, groups: map<Key, seq<nat>>, handled: seq<bool>)
    ensures PlanCommands(parsed, []) == [] && PlansHandled([], handled) && PlanOf(parsed, groups, {}, [])
  {
  }

  lemma {:induction false} PlanNext(parsed: seq<Option<Address>>, plans: seq<FilePlan>, plan: FilePlan, handled: seq<bool>)
    ensures PlanCommands(parsed, plans + [plan]) == PlanCommands(parsed, plans) + RunsCommands(parsed, plan.key, plan.runs)
    ensures PlansHandled(plans, handled) && RunsHandled(plan.key, plan.runs, handled) ==>
              PlansHandled(plans + [plan], handled)
  {
    assert (plans + [plan])[..|plans|] == plans;
  }

  lemma {:induction false} SameLengths(mem: Memory, names: seq<string>, parsed: seq<Option<Address>>,
                                       results: seq<Option<TagValue>>, handled: seq<bool>)
    requires Progress(mem, names, parsed, results, handled)
    ensures |names| == |parsed| == |results| == |handled|
  {
  }

  lemma {:induction false} ChunkStart(parsed: seq<Option<Address>>, chunk: seq<nat>, key: Key)
    requires IsChunk(parsed, chunk, key)
    ensures chunk != [] && chunk[0] < |parsed| && parsed[chunk[0]].Some? && parsed[chunk[0]].value.fileType == key.fileType
  {
  }

  class Adapter {
    const plc: Plc
    const parse: string -> Option<Address>

    constructor (plc: Plc, parse: string -> Option<Address>)
      ensures this.plc == plc && this.parse == parse
    {
      this.plc, this.parse := plc, parse;
    }

    /** Reads one chunk with one command; what a short or failed reply leaves out stays unhandled. */
    method ReadChunk(names: seq<string>, parsed: seq<Option<Address>>, chunk: seq<nat>, key: Key,
                     results: array<Option<TagValue>>, handled: array<bool>)
      requires plc.Valid() && Progress(plc.memory, names, parsed, results[..], handled[..])
      requires IsChunk(parsed, chunk, key)
      modifies plc, results, handled
      ensures plc.Valid() && Progress(plc.memory, names, parsed, results[..], handled[..])
      ensures plc.connected == (old(plc.connected) && !plc.outcome(|old(plc.asked)|).Lost?)
      ensures plc.asked == old(plc.asked) + [BulkCommand(parsed, chunk)]
      ensures Kept(old(handled[..]), handled[..])
      ensures forall i | 0 <= i < handled.Length && i !in chunk ::
                handled[i] == old(handled[i]) && results[i] == old(results[i])
      ensures old(plc.connected) ==>
                var answer := ReadAnswer(plc.memory, plc.outcome(|old(plc.asked)|), BulkCommand(parsed, chunk));
                answer.Ok? ==>
                  forall j | 0 <= j < |chunk| && Span(j, ElementSize(key.fileType)) + ElementSize(key.fileType)
                             <= |answer.value| :: handled[chunk[j]]
      ensures old(plc.connected) && Flawless(plc.outcome, |old(plc.asked)|, |plc.asked|) ==>
                forall j | 0 <= j < |chunk| :: handled[chunk[j]]
    {
      hide ReadAnswer, Progress, Consecutive;
      ChunkStart(parsed, chunk, key);
      var tag := plc.ReadAddressN(parsed[chunk[0]].value, |chunk|);
      if plc.outcome(|old(plc.asked)|).Passed? && plc.outcome(|old(plc.asked)|).limit >= MAX_READ_BYTES {
        FullReply(plc.memory, plc.outcome(|old(plc.asked)|), parsed, chunk, key);
      }
      if tag.Ok? {
        PlaceElements(names, parsed, chunk, key, plc.outcome(|old(plc.asked)|), tag.value, results, handled);
      }
    }

    /** Stores the elements a bulk reply delivers, up to the first that is cut short. */
    method PlaceElements(names: seq<string>, parsed: seq<Option<Address>>, chunk: seq<nat>, key: Key,
                         ghost happened: Outcome, data: seq<Byte>, results: array<Option<TagValue>>, handled: array<bool>)
      requires Progress(plc.memory, names, parsed, results[..], handled[..])
      requires IsChunk(parsed, chunk, key)
      requires ReadAnswer(plc.memory, happened, BulkCommand(parsed, chunk)) == Ok(data)
      modifies results, handled
      ensures Progress(plc.memory, names, parsed, results[..], handled[..])
      ensures Kept(old(handled[..]), handled[..])
      ensures forall i | 0 <= i < handled.Length && i !in chunk ::
                handled[i] == old(handled[i]) && results[i] == old(results[i])
      ensures forall j | 0 <= j < |chunk| && Span(j, ElementSize(key.fileType)) + ElementSize(key.fileType) <= |data| ::
                handled[chunk[j]]
    {
      hide ReadAnswer, FileBytes;
      var size := ElementSize(key.fileType);
      var j := 0;
      while j < |chunk| && Span(j, size) + size <= |data|
        invariant 0 <= j <= |chunk|
        invariant Progress(plc.memory, names, parsed, results[..], handled[..])
        invariant forall i | 0 <= i < handled.Length :: old(handled[i]) ==> handled[i]
        invariant forall i | 0 <= i < handled.Length && i !in chunk ::
                    handled[i] == old(handled[i]) && results[i] == old(results[i])
        invariant forall k | 0 <= k < j :: handled[chunk[k]]
      {
        var i := chunk[j];
        SliceIsNamed(plc.memory, happened, parsed, chunk, key, j);
        var offset := Span(j, size);
        var bytes := data[offset..offset + size];
        results[i] := Some(TagValue(names[i], key.fileType, DecodeValue(parsed[i].value, bytes), bytes, 1, None));
        handled[i] := true;
        j := j + 1;
      }
      SpanMonotone(j, size);
    }

    /** Reads a run in chunks: one command for each chunk of two or more. */
    method ReadRun(names: seq<string>, parsed: seq<Option<Address>>, run: seq<nat>, key: Key,
                   results: array<Option<TagValue>>, handled: array<bool>)
      requires plc.Valid() && Progress(plc.memory, names, parsed, results[..], handled[..])
      requires InFile(parsed, run, key) && Consecutive(run, ElementOf(parsed))
      modifies plc, results, handled
      ensures plc.Valid() && Progress(plc.memory, names, parsed, results[..], handled[..])
      ensures plc.connected ==> old(plc.connected)
      ensures plc.asked == old(plc.asked) + CommandsFrom(parsed, run, key, 0)
      ensures Kept(old(handled[..]), handled[..])
      ensures old(plc.connected) && Flawless(plc.outcome, |old(plc.asked)|, |plc.asked|) ==>
                plc.connected && forall j: nat | Shares(|run|, MaxCount(key.fileType), 0, j) ::
                  j < |run| && run[j] < handled.Length && handled[run[j]]
    {
      hide Progress, IsBulk, IsChunk, Span, BulkCommand, CommandsFrom;
      var maxCount := MaxCount(key.fileType);
      ghost var from, up := |plc.asked|, plc.connected;
      SameLengths(plc.memory, names, parsed, results[..], handled[..]);
      var start := 0;
      while start < |run|
        invariant plc.Valid() && Progress(plc.memory, names, parsed, results[..], handled[..])
        invariant plc.connected ==> up
        invariant 0 <= start && from <= |plc.asked|
        invariant plc.asked + CommandsFrom(parsed, run, key, start) ==
                  old(plc.asked) + CommandsFrom(parsed, run, key, 0)
        invariant Kept(old(handled[..]), handled[..])
        invariant up && Flawless(plc.outcome, from, |plc.asked|) ==>
                    plc.connected && DoneBefore(run, maxCount, start, handled[..])
      {
        var end := Min(start + maxCount, |run|);
        NextChunk(parsed, run, key, start, end);
        ghost var before, mid := handled[..], |plc.asked|;
        if end - start >= 2 {
          PartIsChunk(parsed, run, key, start, end);
          ReadChunk(names, parsed, run[start..end], key, results, handled);
        }
        if up && Flawless(plc.outcome, from, |plc.asked|) {
          FlawlessPart(plc.outcome, from, from, mid, |plc.asked|);
          FlawlessPart(plc.outcome, from, mid, |plc.asked|, |plc.asked|);
          ChunkDone(parsed, run, key, start, end, before, handled[..]);
        }
        start := start + maxCount;
      }
      CommandsEnd(parsed, run, key, start);
      AllDone(run, maxCount, start, handled[..]);
    }

    /** Sorts one file's addresses, cuts them into runs and reads every run of two or more. */
    method ReadGroup(names: seq<string>, parsed: seq<Option<Address>>, indices: seq<nat>, key: Key,
                     results: array<Option<TagValue>>, handled: array<bool>) returns (ghost runs: seq<seq<nat>>)
      requires plc.Valid() && Progress(plc.memory, names, parsed, results[..], handled[..])
      requires InFile(parsed, indices, key)
      modifies plc, results, handled
      ensures plc.Valid() && Progress(plc.memory, names, parsed, results[..], handled[..])
      ensures plc.connected ==> old(plc.connected)
      ensures Plans(parsed, indices, runs)
      ensures plc.asked == old(plc.asked) + RunsCommands(parsed, key, runs)
      ensures Kept(old(handled[..]), handled[..])
      ensures old(plc.connected) && Flawless(plc.outcome, |old(plc.asked)|, |plc.asked|) ==>
                plc.connected && RunsHandled(key, runs, handled[..])
    {
      hide Progress, InFile, Flatten, MaximalRuns, CommandsFrom, ElementOf, Rank, Sorted, RunsCommands, RunsHandled, Plans;
      if |indices| < 2 {
        runs := SmallPlan(parsed, indices, key, handled[..]);
        return;
      }
      var elementOf := ElementOf(parsed);
      var sorted := SortIndices(indices, elementOf);
      StaysInFile(parsed, indices, sorted, key);
      var found := ContiguousRuns(sorted, elementOf);
      runs := found;
      PlanMade(parsed, indices, found);
      ReadRuns(names, parsed, sorted, found, key, results, handled);
    }

    /** Reads every run of two or more of one file's plan. */
    method ReadRuns(names: seq<string>, parsed: seq<Option<Address>>, ghost sorted: seq<nat>, runs: seq<seq<nat>>, key: Key,
                    results: array<Option<TagValue>>, handled: array<bool>)
      requires plc.Valid() && Progress(plc.memory, names, parsed, results[..], handled[..])
      requires InFile(parsed, sorted, key) && Flatten(runs) == sorted && MaximalRuns(runs, ElementOf(parsed))
      modifies plc, results, handled
      ensures plc.Valid() && Progress(plc.memory, names, parsed, results[..], handled[..])
      ensures plc.connected ==> old(plc.connected)
      ensures plc.asked == old(plc.asked) + RunsCommands(parsed, key, runs)
      ensures Kept(old(handled[..]), handled[..])
      ensures old(plc.connected) && Flawless(plc.outcome, |old(plc.asked)|, |plc.asked|) ==>
                plc.connected && RunsHandled(key, runs, handled[..])
    {
      hide Progress, InFile, Consecutive, Flatten, MaximalRuns, CommandsFrom, ElementOf, Carries, RunsCommands, RunsHandled;
      ghost var from, up := |plc.asked|, plc.connected;
      NoRunsYet(parsed, key, handled[..]);
      assert runs[..0] == [];
      for k := 0 to |runs|
        invariant plc.Valid() && Progress(plc.memory, names, parsed, results[..], handled[..])
        invariant plc.connected ==> up
        invariant plc.asked == old(plc.asked) + RunsCommands(parsed, key, runs[..k])
        invariant Kept(old(handled[..]), handled[..])
        invariant up && Flawless(plc.outcome, from, |plc.asked|) ==>
                    plc.connected && RunsHandled(key, runs[..k], handled[..])
      {
        ghost var before, mid := handled[..], |plc.asked|;
        RunInFile(parsed, sorted, runs, key, k);
        NextRunCommands(parsed, key, runs, k);
        if |runs[k]| >= 2 {
          ReadRun(names, parsed, runs[k], key, results, handled);
        } else {
          ShortRun(parsed, runs[k], key);
        }
        if up && Flawless(plc.outcome, from, |plc.asked|) {
          FlawlessPart(plc.outcome, from, from, mid, |plc.asked|);
          FlawlessPart(plc.outcome, from, mid, |plc.asked|, |plc.asked|);
          RunsHandledKept(key, runs[..k], before, handled[..]);
          RunHandledToo(key, runs[..k], runs[k], handled[..]);
          TakeOneMore(runs, k);
        }
      }
      assert runs[..|runs|] == runs;
    }

    /** Reads every group, in whatever order the map yields them. */
    method ReadGroups(names: seq<string>, parsed: seq<Option<Address>>, groups: map<Key, seq<nat>>,
                      results: array<Option<TagValue>>, handled: array<bool>) returns (ghost plans: seq<FilePlan>)
      requires plc.Valid() && Progress(plc.memory, names, parsed, results[..], handled[..])
      requires forall key | key in groups :: InFile(parsed, groups[key], key)
      modifies plc, results, handled
      ensures plc.Valid() && Progress(plc.memory, names, parsed, results[..], handled[..])
      ensures plc.connected ==> old(plc.connected)
      ensures PlanOf(parsed, groups, groups.Keys, plans)
      ensures plc.asked == old(plc.asked) + PlanCommands(parsed, plans)
      ensures Kept(old(handled[..]), handled[..])
      ensures old(plc.connected) && Flawless(plc.outcome, |old(plc.asked)|, |plc.asked|) ==>
                plc.connected && PlansHandled(plans, handled[..])
    {
      hide Progress, InFile, PlanCommands, RunsCommands, PlansHandled, RunsHandled, Plans, PlanOf;
      ghost var from, up := |plc.asked|, plc.connected;
      plans := [];
      NoPlanYet(parsed, groups, handled[..]);
      var left := groups.Keys;
      assert groups.Keys - left == {};
      while left != {}
        invariant left <= groups.Keys
        invariant plc.Valid() && Progress(plc.memory, names, parsed, results[..], handled[..])
        invariant plc.connected ==> up
        invariant PlanOf(parsed, groups, groups.Keys - left, plans)
        invariant plc.asked == old(plc.asked) + PlanCommands(parsed, plans)
        invariant Kept(old(handled[..]), handled[..])
        invariant up && Flawless(plc.outcome, from, |plc.asked|) ==> plc.connected && PlansHandled(plans, handled[..])
      {
        ghost var before, mid := handled[..], |plc.asked|;
        var key :| key in left;
        assert groups.Keys - (left - {key}) - {key} == groups.Keys - left;
        left := left - {key};
        ghost var runs := ReadGroup(names, parsed, groups[key], key, results, handled);
        if up && Flawless(plc.outcome, from, |plc.asked|) {
          FlawlessPart(plc.outcome, from, from, mid, |plc.asked|);
          FlawlessPart(plc.outcome, from, mid, |plc.asked|, |plc.asked|);
          HandledKept(plans, before, handled[..]);
        }
        PlanNext(parsed, plans, FilePlan(key, runs), handled[..]);
        PlanMore(parsed, groups, groups.Keys - left - {key}, plans, key, runs);
        assert groups.Keys - left == groups.Keys - left - {key} + {key};
        plans := plans + [FilePlan(key, runs)];
      }
      assert groups.Keys - left == groups.Keys;
    }

    /** The plain client: every name parsed and read by itself. */
    method ReadEach(names: seq<string>) returns (values: seq<TagValue>)
      requires plc.Valid()
      modifies plc
      ensures plc.Valid() && |values| == |names|
      ensures plc.connected ==> old(plc.connected)
      ensures plc.asked == old(plc.asked) + OwnCommands(parse, names)
      ensures plc.connected ==> values == OwnValues(plc.memory, parse, plc.outcome, |old(plc.asked)|, names)
    {
      hide ReadAnswer;
      values := [];
      for i := 0 to |names|
        invariant plc.Valid() && |values| == i
        invariant plc.connected ==> old(plc.connected)
        invariant plc.asked == old(plc.asked) + OwnCommands(parse, names[..i])
        invariant plc.connected ==> values == OwnValues(plc.memory, parse, plc.outcome, |old(plc.asked)|, names[..i])
      {
        assert names[..i + 1][..i] == names[..i];
        var addr := parse(names[i]);
        if addr.None? {
          values := values + [TagValue(names[i], 0, Nil, [], 1, Some(InvalidAddress))];
        } else {
          var tag := plc.ReadAddress(addr.value);
          values := values + [OwnReply(names[i], addr.value, tag)];
        }
      }
      assert names[..|names|] == names;
    }

    /** Parses, groups and reads in bulk; what stays unhandled parses. */
    method ReadInBulk(names: seq<string>)
      returns (results: array<Option<TagValue>>, handled: array<bool>, ghost plans: seq<FilePlan>)
      requires plc.Valid()
      modifies plc
      ensures fresh(results) && fresh(handled) && results.Length == handled.Length == |names|
      ensures plc.Valid() && WholePlan(Parsed(parse, names), plans)
      ensures plc.asked == old(plc.asked) + PlanCommands(Parsed(parse, names), plans)
      ensures plc.connected ==> old(plc.connected)
      ensures old(plc.connected) && Flawless(plc.outcome, |old(plc.asked)|, |plc.asked|) ==>
                plc.connected && PlansHandled(plans, handled[..])
      ensures forall i | 0 <= i < |names| && handled[i] ::
                results[i] == Some(Settled(plc.memory, names[i], parse(names[i])))
      ensures forall i | 0 <= i < |names| && !handled[i] :: parse(names[i]).Some?
    {
      hide Progress, IndicesOf, InFile, PlanOf, PlanCommands, PlansHandled, Plans, WholePlan;
      var parsed := ParseAll(parse, names);
      assert parsed == Parsed(parse, names);
      results := new Option<TagValue>[|names|](_ => None);
      handled := new bool[|names|](_ => false);
      FillInvalid(plc.memory, names, parsed, results, handled);
      var groups := GroupIndices(parsed);
      GroupsInFile(parsed, groups);
      plans := ReadGroups(names, parsed, groups, results, handled);
      PlanIsWhole(parsed, groups, plans);
      HandledIsSettled(plc.memory, names, parsed, results[..], handled[..]);
    }

    /** Reads the remaining indices one by one, unless the link turns out to be down. */
    method ReadRemaining(names: seq<string>, own: seq<nat>, results: array<Option<TagValue>>) returns (ok: bool)
      requires plc.Valid() && results.Length == |names|
      requires Ascending(own) && forall p | 0 <= p < |own| :: own[p] < |names| && parse(names[own[p]]).Some?
      modifies plc, results
      ensures plc.Valid() && plc.asked == old(plc.asked) + OwnCommands(parse, Pick(names, own))
      ensures ok <==> own == [] || plc.connected
      ensures ok ==> forall p | 0 <= p < |own| :: results[own[p]] == Some(
                OwnReply(names[own[p]], parse(names[own[p]]).value,
                         ReadAnswer(plc.memory, plc.outcome(|old(plc.asked)| + p),
                                    OwnCommand(parse(names[own[p]]).value))))
      ensures forall i | 0 <= i < |names| && i !in own :: results[i] == old(results[i])
    {
      hide ReadAnswer, OwnReply, OwnCommands, OwnValues, Carries;
      if own == [] {
        NoOwnCommands(parse, names);
        return true;
      }
      var values := ReadEach(Pick(names, own));
      if !plc.connected {
        return false;
      }
      Scatter(own, values, results);
      AllAnswered(plc.memory, parse, plc.outcome, |old(plc.asked)|, names, own, values, results[..]);
      ok := true;
    }

    /**
      Reads any list of addresses: each data file's elements by its plan, then
      the indices in `own` one by one. Every result is its address's own.
     */
    method Read(names: seq<string>)
      returns (r: Result<seq<TagValue>, Error>, ghost plans: seq<FilePlan>, ghost own: seq<nat>)
      requires plc.Valid()
      modifies plc
      ensures plc.Valid() && WholePlan(Parsed(parse, names), plans)
      ensures Ascending(own) && forall p | 0 <= p < |own| :: own[p] < |names| && parse(names[own[p]]).Some?
      ensures plc.asked == old(plc.asked) + PlanCommands(Parsed(parse, names), plans) + OwnCommands(parse, Pick(names, own))
      ensures r.Err? <==> own != [] && !plc.connected
      ensures r.Ok? ==> |r.value| == |names|
      ensures r.Ok? ==> forall i | 0 <= i < |names| && i !in own ::
                r.value[i] == Settled(plc.memory, names[i], parse(names[i]))
      ensures r.Ok? ==> forall p | 0 <= p < |own| ::
                r.value[own[p]] == OwnReply(names[own[p]], parse(names[own[p]]).value,
                                            ReadAnswer(plc.memory,
                                                       plc.outcome(OwnBase(old(plc.asked), parse, names, plans) + p),
                                                       OwnCommand(parse(names[own[p]]).value)))
      ensures old(plc.connected) && Flawless(plc.outcome, |old(plc.asked)|, OwnBase(old(plc.asked), parse, names, plans)) ==>
                forall p | 0 <= p < |own| :: !SharesCommand(plans, own[p])
    {
      hide ReadAnswer, OwnReply, Settled, OwnCommands, PlanCommands, PlansHandled, WholePlan, SharesCommand;
      var results, handled;
      results, handled, plans := ReadInBulk(names);
      var remaining := Remaining(handled);
      own := remaining;
      if old(plc.connected) && Flawless(plc.outcome, |old(plc.asked)|, |plc.asked|) {
        NoneShares(plans, handled[..], remaining);
      }
      var ok := ReadRemaining(names, remaining, results);
      if !ok {
        return Err(LinkDown), plans, own;
      }
      forall i | 0 <= i < |names|
        ensures results[..][i].Some?
      {
        if i in own {
          var p :| 0 <= p < |own| && own[p] == i;
        }
      }
      r := Ok(Values(results[..]));
    }
  }

  ghost function Parsed(parse: string -> Option<Address>, names: seq<string>): (parsed: seq<Option<Address>>)
    ensures |parsed| == |names|
  {
    seq(|names|, i requires 0 <= i < |names| => parse(names[i]))
  }

  /** Number of the first command sent for an index by itself. */
  ghost function OwnBase(before: seq<Asked>, parse: string -> Option<Address>, names: seq<string>,
                         plans: seq<FilePlan>): nat {
    |before| + |PlanCommands(Parsed(parse, names), plans)|
  }

  /** One plan for each data file with whole-element addresses, made of exactly those. */
  ghost predicate WholePlan(parsed: seq<Option<Address>>, plans: seq<FilePlan>) {
    && (forall p | 0 <= p < |plans| ::
          var indices := IndicesOf(parsed, plans[p].key, |parsed|);
          indices != [] && Plans(parsed, indices, plans[p].runs))
    && (forall key | IndicesOf(parsed, key, |parsed|) != [] :: exists p :: 0 <= p < |plans| && plans[p].key == key)
    && (forall p, q | 0 <= p < q < |plans| :: plans[p].key != plans[q].key)
  }

  lemma {:induction false} PlanIsWhole(parsed: seq<Option<Address>>, groups: map<Key, seq<nat>>, plans: seq<FilePlan>)
    requires forall key :: key in groups <==> IndicesOf(parsed, key, |parsed|) != []
    requires forall key | key in groups :: groups[key] == IndicesOf(parsed, key, |parsed|)
    requires PlanOf(parsed, groups, groups.Keys, plans)
    ensures WholePlan(parsed, plans)
  {
    hide IndicesOf, Plans;
  }

  /** An index that shares a bulk command with a neighbour. */
  ghost predicate SharesCommand(plans: seq<FilePlan>, i: nat) {
    exists p, k, j: nat :: 0 <= p < |plans| && 0 <= k < |plans[p].runs|
      && Shares(|plans[p].runs[k]|, MaxCount(plans[p].key.fileType), 0, j)
      && j < |plans[p].runs[k]| && plans[p].runs[k][j] == i
  }

  lemma {:induction false} NoneShares(plans: seq<FilePlan>, handled: seq<bool>, own: seq<nat>)
    requires PlansHandled(plans, handled)
    requires forall p | 0 <= p < |own| :: own[p] < |handled| && !handled[own[p]]
    ensures forall p | 0 <= p < |own| :: !SharesCommand(plans, own[p])
  {
  }

  lemma {:induction false} PlansAreBulk(parsed: seq<Option<Address>>, plans: seq<FilePlan>)
    requires forall p | 0 <= p < |plans| :: MaximalRuns(plans[p].runs, ElementOf(parsed))
    ensures BulkOnly(PlanCommands(parsed, plans))
  {
    hide MaximalRuns, IsBulk, RunsCommands;
    if plans != [] {
      var init, last := plans[..|plans| - 1], plans[|plans| - 1];
      PlansAreBulk(parsed, init);
      RunsAreBulk(parsed, last.key, last.runs);
    }
  }

  lemma {:induction false} RunsAreBulk(parsed: seq<Option<Address>>, key: Key, runs: seq<seq<nat>>)
    requires MaximalRuns(runs, ElementOf(parsed))
    ensures BulkOnly(RunsCommands(parsed, key, runs))
  {
    hide InFile, IsBulk, Consecutive, CommandsFrom, ElementOf;
    if runs != [] {
      var init, last := runs[..|runs| - 1], runs[|runs| - 1];
      RunsAreBulk(parsed, key, init);
      if InFile(parsed, last, key) {
        CommandsAreBulk(parsed, last, key, 0);
      }
    }
  }

  /** Every command of the bulk phase asks for at least two whole elements and at most 236 bytes. */
  lemma {:induction false} WholePlanIsBulk(parsed: seq<Option<Address>>, plans: seq<FilePlan>)
    requires WholePlan(parsed, plans)
    ensures BulkOnly(PlanCommands(parsed, plans))
  {
    hide MaximalRuns, BulkOnly, PlanCommands, IndicesOf, Sorted, Flatten;
    PlansAreBulk(parsed, plans);
  }

  function Pick(names: seq<string>, indices: seq<nat>): (picked: seq<string>)
    requires forall p | 0 <= p < |indices| :: indices[p] < |names|
    ensures |picked| == |indices|
  {
    seq(|indices|, p requires 0 <= p < |indices| => names[indices[p]])
  }

  function Values(results: seq<Option<TagValue>>): (values: seq<TagValue>)
    requires forall i | 0 <= i < |results| :: results[i].Some?
    ensures |values| == |results|
  {
    seq(|results|, i requires 0 <= i < |results| => results[i].value)
  }

  method ParseAll(parse: string -> Option<Address>, names: seq<string>) returns (parsed: seq<Option<Address>>)
    ensures |parsed| == |names| && forall i | 0 <= i < |names| :: parsed[i] == parse(names[i])
  {
    parsed := [];
    for i := 0 to |names|
      invariant |parsed| == i && forall j | 0 <= j < i :: parsed[j] == parse(names[j])
    {
      parsed := parsed + [parse(names[i])];
    }
  }

  method FillInvalid(ghost mem: Memory, names: seq<string>, parsed: seq<Option<Address>>,
                     results: array<Option<TagValue>>, handled: array<bool>)
    requires |names| == |parsed| == results.Length == handled.Length
    requires forall i | 0 <= i < handled.Length :: !handled[i]
    modifies results, handled
    ensures Progress(mem, names, parsed, results[..], handled[..])
  {
    for i := 0 to |parsed|
      invariant forall j | 0 <= j < |parsed| :: handled[j] <==> j < i && parsed[j].None?
      invariant forall j | 0 <= j < |parsed| && handled[j] :: results[j] == Some(Settled(mem, names[j], parsed[j]))
    {
      if parsed[i].None? {
        results[i] := Some(TagValue(names[i], 0, Nil, [], 0, Some(InvalidAddress)));
        handled[i] := true;
      }
    }
  }

  method Remaining(handled: array<bool>) returns (remaining: seq<nat>)
    ensures Ascending(remaining)
    ensures forall p | 0 <= p < |remaining| :: remaining[p] < handled.Length && !handled[remaining[p]]
    ensures forall i | 0 <= i < handled.Length && !handled[i] :: i in remaining
  {
    remaining := [];
    for i := 0 to handled.Length
      invariant Ascending(remaining)
      invariant forall p | 0 <= p < |remaining| :: remaining[p] < i && !handled[remaining[p]]
      invariant forall j | 0 <= j < i && !handled[j] :: j in remaining
    {
      if !handled[i] {
        remaining := remaining + [i];
      }
    }
  }

  /** Puts value `p` at index `indices[p]`. */
  method Scatter(indices: seq<nat>, values: seq<TagValue>, results: array<Option<TagValue>>)
    requires |values| == |indices| && Ascending(indices)
    requires forall p | 0 <= p < |indices| :: indices[p] < results.Length
    modifies results
    ensures forall p | 0 <= p < |indices| :: results[indices[p]] == Some(values[p])
    ensures forall i | 0 <= i < results.Length && i !in indices :: results[i] == old(results[i])
  {
    for p := 0 to |indices|
      invariant forall q | 0 <= q < p :: results[indices[q]] == Some(values[q])
      invariant forall i | 0 <= i < results.Length && i !in indices :: results[i] == old(results[i])
    {
      results[indices[p]] := Some(values[p]);
    }
  }

  lemma {:induction false} GroupsInFile(parsed: seq<Option<Address>>, groups: map<Key, seq<nat>>)
    requires forall key | key in groups :: groups[key] == IndicesOf(parsed, key, |parsed|)
    ensures forall key | key in groups :: InFile(parsed, groups[key], key)
  {
    forall key | key in groups
      ensures InFile(parsed, groups[key], key)
    {
      IndicesExact(parsed, key, |parsed|);
    }
  }

  lemma {:induction false} HandledIsSettled(mem: Memory, names: seq<string>, parsed: seq<Option<Address>>,
                                            results: seq<Option<TagValue>>, handled: seq<bool>)
    requires Progress(mem, names, parsed, results, handled)
    ensures |names| == |parsed| == |results| == |handled|
    ensures forall i | 0 <= i < |handled| && handled[i] :: results[i] == Some(Settled(mem, names[i], parsed[i]))
    ensures forall i | 0 <= i < |handled| && !handled[i] :: parsed[i].Some?
  {
  }

  lemma {:induction false} NoOwnCommands(parse: string -> Option<Address>, names: seq<string>)
    ensures OwnCommands(parse, Pick(names, [])) == []
  {
  }

  /** Each index read by itself holds the answer to its own command. */
  lemma {:induction false} AllAnswered(mem: Memory, parse: string -> Option<Address>, outcome: nat -> Outcome, base: nat,
                                       names: seq<string>, own: seq<nat>, values: seq<TagValue>,
                                       results: seq<Option<TagValue>>)
    requires forall p | 0 <= p < |own| :: own[p] < |names| && parse(names[own[p]]).Some?
    requires values == OwnValues(mem, parse, outcome, base, Pick(names, own))
    requires |results| == |names| && forall p | 0 <= p < |own| :: results[own[p]] == Some(values[p])
    ensures forall p | 0 <= p < |own| ::
              results[own[p]] == Some(OwnReply(names[own[p]], parse(names[own[p]]).value,
                                               ReadAnswer(mem, outcome(base + p), OwnCommand(parse(names[own[p]]).value))))
  {
    forall p | 0 <= p < |own|
      ensures results[own[p]] == Some(OwnReply(names[own[p]], parse(names[own[p]]).value,
                                               ReadAnswer(mem, outcome(base + p), OwnCommand(parse(names[own[p]]).value))))
    {
      OwnValueAt(mem, parse, outcome, base, Pick(names, own), p);
    }
  }

  method SortIndices(indices: seq<nat>, elementOf: nat -> U16) returns (sorted: seq<nat>)
    ensures Sorted(sorted, Rank(elementOf)) && multiset(sorted) == multiset(indices)
  {
    var a := new nat[|indices|](i requires 0 <= i < |indices| => indices[i]);
    assert a[..] == indices;
    SortBy(a, Rank(elementOf));
    sorted := a[..];
  }

  lemma {:induction false} StaysInFile(parsed: seq<Option<Address>>, indices: seq<nat>, sorted: seq<nat>, key: Key)
    requires InFile(parsed, indices, key) && multiset(sorted) == multiset(indices)
    ensures InFile(parsed, sorted, key)
  {
    SameMembers(sorted, indices);
    forall j | 0 <= j < |sorted|
      ensures sorted[j] < |parsed| && Belongs(parsed[sorted[j]], key)
    {
      assert sorted[j] in indices;
      var k :| 0 <= k < |indices| && indices[k] == sorted[j];
    }
  }

  lemma {:induction false} RunInFile(parsed: seq<Option<Address>>, sorted: seq<nat>, runs: seq<seq<nat>>, key: Key,
                                     k: nat)
    requires InFile(parsed, sorted, key) && Flatten(runs) == sorted && k < |runs|
    requires MaximalRuns(runs, ElementOf(parsed))
    ensures InFile(parsed, runs[k], key) && Consecutive(runs[k], ElementOf(parsed))
  {
    forall j | 0 <= j < |runs[k]|
      ensures runs[k][j] < |parsed| && Belongs(parsed[runs[k][j]], key)
    {
      FlattenMembers(runs, runs[k][j]);
      assert runs[k][j] in sorted;
      var m :| 0 <= m < |sorted| && sorted[m] == runs[k][j];
    }
  }

  /** Every command a run leads to is a bulk command. */
  lemma {:induction false} CommandsAreBulk(parsed: seq<Option<Address>>, run: seq<nat>, key: Key, start: nat)
    requires InFile(parsed, run, key) && Consecutive(run, ElementOf(parsed))
    ensures BulkOnly(CommandsFrom(parsed, run, key, start))
    decreases |run| - start
  {
    hide IsBulk, IsChunk, BulkCommand, ChunkCommands;
    if start >= |run| {
      CommandsEnd(parsed, run, key, start);
    } else {
      var end := Min(start + MaxCount(key.fileType), |run|);
      NextChunk(parsed, run, key, start, end);
      PartIsChunk(parsed, run, key, start, end);
      CommandsAreBulk(parsed, run, key, start + MaxCount(key.fileType));
    }
  }
}
