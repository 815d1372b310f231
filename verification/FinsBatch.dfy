/**
  Batched FINS reads: sort the word requests, join neighbours into groups, read
  the groups in bulk or with the multi-memory command, and scatter the words
  back to the requests' own positions.
 */
module FinsBatch {
  import opened Bytes
  import opened Fins
  import opened FinsGroups
  import Sorting

  // ---------------------------------------------------------------- the commands a plan sends

  function GroupCommand(g: ReadGroup): Sent {
    Sent(MEMORY_READ, ReadRequest(g.area, g.startAddr, 0, ToU16(g.wordCount)))
  }

  function GroupCommands(groups: seq<ReadGroup>): (sent: seq<Sent>)
    ensures |sent| == |groups|
  {
    seq(|groups|, k requires 0 <= k < |groups| => GroupCommand(groups[k]))
  }

  function MultiCommand(groups: seq<ReadGroup>): Sent {
    Sent(MULTI_MEMORY_READ, [|groups| % 0x100] + Entries(groups))
  }

  predicate HasLong(groups: seq<ReadGroup>) {
    exists k :: 0 <= k < |groups| && groups[k].wordCount > 1
  }

  /** The multi-memory command, sent next, is refused, lost or cut short. */
  predicate MultiFails(h: History, groups: seq<ReadGroup>) {
    match Reply(h.memory, h.outcome(|h.log|), MultiCommand(groups))
    case Err(_) => true
    case Ok(data) => |data| < 2 * |groups|
  }

  /** One multi-memory command, or group reads if a group is longer than a word. */
  function FirstCommands(groups: seq<ReadGroup>): seq<Sent> {
    if groups == [] then []
    else if HasLong(groups) then GroupCommands(groups)
    else [MultiCommand(groups)]
  }

  /** The same, with group reads behind a multi-memory command that fails. */
  function ScatteredCommands(h: History, groups: seq<ReadGroup>): seq<Sent> {
    FirstCommands(groups) + if groups != [] && !HasLong(groups) && MultiFails(h, groups) then GroupCommands(groups) else []
  }

  /** The same for each 64 groups from the `i`th on. */
  function BatchCommands(h: History, groups: seq<ReadGroup>, i: nat): seq<Sent>
    decreases |groups| - i
  {
    if i >= |groups| then [] else
      var end := if i + MAX_MULTI_AREAS > |groups| then |groups| else i + MAX_MULTI_AREAS;
      var sent := ScatteredCommands(h, groups[i..end]);
      sent + BatchCommands(h.(log := h.log + sent), groups, end)
  }

  lemma {:induction false} NextGroupCommand(groups: seq<ReadGroup>, i: nat)
    requires i < |groups|
    ensures |GroupCommands(groups)| == |groups| && GroupCommands(groups)[i] == GroupCommand(groups[i])
    ensures GroupCommands(groups)[..i + 1] == GroupCommands(groups)[..i] + [GroupCommand(groups[i])]
  {
    hide GroupCommand;
  }

  lemma {:induction false} NoBatchLeft(h: History, groups: seq<ReadGroup>, i: nat)
    requires i >= |groups|
    ensures BatchCommands(h, groups, i) == []
  {
  }

  lemma {:induction false} NoGroupsYet(h: History, from: nat, groups: seq<ReadGroup>, results: seq<Option<TagValue>>)
    ensures AllAnswered(h, from, RequestsOf(groups[..0]), results)
    ensures OthersKept(RequestsOf(groups), results, results)
  {
    assert groups[..0] == [];
  }

  lemma {:induction false} NothingToRead(h: History, groups: seq<ReadGroup>)
    requires groups == []
    ensures AllTiled(groups) && Maximal(groups) && RequestsOf(groups) == [] && StrategyCommands(h, groups) == []
    ensures Sorting.Sorted(RequestsOf(groups), SortKey)
  {
  }

  /** Group reads for up to three groups, a multi-memory command for up to 64, batches of it beyond. */
  function StrategyCommands(h: History, groups: seq<ReadGroup>): seq<Sent> {
    if |groups| <= 3 then GroupCommands(groups)
    else if |groups| <= MAX_MULTI_AREAS then ScatteredCommands(h, groups)
    else BatchCommands(h, groups, 0)
  }

  // ---------------------------------------------------------------- panics

  /** Command `n` is a read whose reply, delivered in full, is too long to take apart. */
  predicate Panics(h: History, n: nat, sent: Sent) {
    && sent.command == MEMORY_READ && |sent.data| == 6
    && WordsReply(h.memory, h.outcome(n), sent.data[0], GetBe16(sent.data, 1), GetBe16(sent.data, 4)) == Err(Panic)
  }

  /** No command of the plan, sent in its turn from command `n` on, panics. */
  predicate SafeFrom(h: History, n: nat, plan: seq<Sent>)
    decreases |plan|
  {
    plan == [] || (!Panics(h, n, plan[0]) && SafeFrom(h, n + 1, plan[1..]))
  }

  /** What is sent of a plan: all of it, or up to and with the first command that panics. */
  function SentFrom(h: History, n: nat, plan: seq<Sent>): (sent: seq<Sent>)
    ensures sent <= plan && (SafeFrom(h, n, plan) ==> sent == plan)
    ensures !SafeFrom(h, n, plan) ==> sent != [] && Panics(h, n + |sent| - 1, sent[|sent| - 1])
    decreases |plan|
  {
    if plan == [] then []
    else if Panics(h, n, plan[0]) then [plan[0]]
    else [plan[0]] + SentFrom(h, n + 1, plan[1..])
  }

  predicate Safe(h: History, plan: seq<Sent>) {
    SafeFrom(h, |h.log|, plan)
  }

  function Carried(h: History, plan: seq<Sent>): seq<Sent> {
    SentFrom(h, |h.log|, plan)
  }

  lemma {:induction false} FirstOfPlan(h: History, n: nat, plan: seq<Sent>)
    ensures plan == [] ==> SafeFrom(h, n, plan) && SentFrom(h, n, plan) == []
    ensures plan != [] ==>
              && (SafeFrom(h, n, plan) <==> !Panics(h, n, plan[0]) && SafeFrom(h, n + 1, plan[1..]))
              && SentFrom(h, n, plan) == [plan[0]] + if Panics(h, n, plan[0]) then [] else SentFrom(h, n + 1, plan[1..])
  {
    hide Panics;
  }

  /** A plan in two parts: the second is begun only if the first is safe. */
  lemma {:induction false} InTwoParts(h: History, n: nat, p: seq<Sent>, q: seq<Sent>)
    ensures SafeFrom(h, n, p + q) <==> SafeFrom(h, n, p) && SafeFrom(h, n + |p|, q)
    ensures SentFrom(h, n, p + q) == if SafeFrom(h, n, p) then p + SentFrom(h, n + |p|, q) else SentFrom(h, n, p)
    decreases |p|
  {
    hide Panics, SafeFrom, SentFrom;
    FirstOfPlan(h, n, p);
    if p == [] {
      assert p + q == q && p + SentFrom(h, n + |p|, q) == SentFrom(h, n + |p|, q);
    } else {
      FirstOfPlan(h, n, p + q);
      assert (p + q)[0] == p[0] && (p + q)[1..] == p[1..] + q;
      InTwoParts(h, n + 1, p[1..], q);
      assert n + 1 + |p[1..]| == n + |p|;
      assert [p[0]] + (p[1..] + SentFrom(h, n + |p|, q)) == p + SentFrom(h, n + |p|, q);
    }
  }

  /** A command sent after a safe part of the plan: either it ends the process, or the part grows by it. */
  lemma {:induction false} OneMoreSent(h: History, p: seq<Sent>, sent: Sent, q: seq<Sent>)
    requires Safe(h, p)
    ensures Panics(h, |h.log| + |p|, sent) ==> !Safe(h, p + [sent] + q) && Carried(h, p + [sent] + q) == p + [sent]
    ensures !Panics(h, |h.log| + |p|, sent) ==> Safe(h, p + [sent])
  {
    hide Panics, SafeFrom, SentFrom;
    assert p + [sent] + q == p + ([sent] + q);
    InTwoParts(h, |h.log|, p, [sent] + q);
    InTwoParts(h, |h.log|, p, [sent]);
    FirstOfPlan(h, |h.log| + |p|, [sent] + q);
    FirstOfPlan(h, |h.log| + |p|, [sent]);
    FirstOfPlan(h, |h.log| + |p| + 1, []);
    assert [sent] + [] == [sent];
  }

  lemma {:induction false} GroupPanics(h: History, n: nat, g: ReadGroup)
    ensures Panics(h, n, GroupCommand(g)) <==>
            WordsReply(h.memory, h.outcome(n), g.area, g.startAddr, ToU16(g.wordCount)) == Err(Panic)
  {
    hide WordsReply;
    var data := ReadRequest(g.area, g.startAddr, 0, ToU16(g.wordCount));
    Be16RoundTrip(data, 1, g.startAddr);
    Be16RoundTrip(data, 4, ToU16(g.wordCount));
  }

  lemma {:induction false} MultiIsSafe(h: History, groups: seq<ReadGroup>)
    ensures Safe(h, [MultiCommand(groups)])
  {
    assert [MultiCommand(groups)][1..] == [];
  }

  // ---------------------------------------------------------------- which requests can panic

  /** A read the controller answers in full with 32768 words or more. */
  predicate TooLong(r: WordRequest) {
    Served(r) && ToU16(r.wordCount) >= PANIC_COUNT
  }

  /** A command that panics over some link. */
  predicate CanPanic(sent: Sent) {
    && sent.command == MEMORY_READ && |sent.data| == 6 && !IsBitArea(sent.data[0])
    && GetBe16(sent.data, 4) >= PANIC_COUNT && GetBe16(sent.data, 1) as int + GetBe16(sent.data, 4) as int <= 0x1_0000
  }

  lemma {:induction false} PanicNeedsLength(h: History, n: nat, sent: Sent)
    requires Panics(h, n, sent)
    ensures CanPanic(sent)
  {
    hide BeBytes;
    ReadRequestRespond(h.memory, sent.data[0], GetBe16(sent.data, 1), 0, GetBe16(sent.data, 4));
  }

  lemma {:induction false} MildPlanIsSafe(h: History, n: nat, plan: seq<Sent>)
    requires forall sent | sent in plan :: !CanPanic(sent)
    ensures SafeFrom(h, n, plan)
    decreases |plan|
  {
    hide Panics, CanPanic;
    if plan != [] {
      if Panics(h, n, plan[0]) {
        PanicNeedsLength(h, n, plan[0]);
      }
      MildPlanIsSafe(h, n + 1, plan[1..]);
    }
  }

  lemma {:induction false} OnePanics(h: History, n: nat, plan: seq<Sent>, k: nat)
    requires k < |plan| && Panics(h, n + k, plan[k])
    ensures !SafeFrom(h, n, plan)
    decreases |plan|
  {
    hide Panics;
    if k > 0 {
      assert plan[1..][k - 1] == plan[k] && n + 1 + (k - 1) == n + k;
      OnePanics(h, n + 1, plan[1..], k - 1);
    }
  }

  /** Every command of the plan reads a group or many at once. */
  ghost predicate FromGroups(groups: seq<ReadGroup>, plan: seq<Sent>) {
    forall sent | sent in plan ::
      sent.command == MULTI_MEMORY_READ || exists k :: 0 <= k < |groups| && sent == GroupCommand(groups[k])
  }

  /** Every group longer than a word is read by itself. */
  ghost predicate ReadsLong(groups: seq<ReadGroup>, plan: seq<Sent>) {
    forall k | 0 <= k < |groups| && groups[k].wordCount > 1 :: GroupCommand(groups[k]) in plan
  }

  lemma {:induction false} GroupPlan(groups: seq<ReadGroup>)
    ensures FromGroups(groups, GroupCommands(groups)) && ReadsLong(groups, GroupCommands(groups))
  {
    hide GroupCommand;
    forall k | 0 <= k < |groups|
      ensures GroupCommand(groups[k]) in GroupCommands(groups)
    {
      assert GroupCommands(groups)[k] == GroupCommand(groups[k]);
    }
  }

  lemma {:induction false} ScatteredPlan(h: History, groups: seq<ReadGroup>)
    ensures FromGroups(groups, ScatteredCommands(h, groups)) && ReadsLong(groups, ScatteredCommands(h, groups))
  {
    hide GroupCommands, MultiFails;
    GroupPlan(groups);
  }

  lemma {:induction false} BatchPlan(h: History, groups: seq<ReadGroup>, i: nat)
    requires i <= |groups|
    ensures FromGroups(groups[i..], BatchCommands(h, groups, i)) && ReadsLong(groups[i..], BatchCommands(h, groups, i))
    decreases |groups| - i
  {
    hide ScatteredCommands;
    if i < |groups| {
      var end := if i + MAX_MULTI_AREAS > |groups| then |groups| else i + MAX_MULTI_AREAS;
      var sent := ScatteredCommands(h, groups[i..end]);
      var later := h.(log := h.log + sent);
      ScatteredPlan(h, groups[i..end]);
      BatchPlan(later, groups, end);
      assert groups[i..] == groups[i..end] + groups[end..];
      PlanOfBoth(groups[i..end], groups[end..], sent, BatchCommands(later, groups, end));
    }
  }

  lemma {:induction false} PlanOfBoth(xs: seq<ReadGroup>, ys: seq<ReadGroup>, p: seq<Sent>, q: seq<Sent>)
    requires FromGroups(xs, p) && ReadsLong(xs, p) && FromGroups(ys, q) && ReadsLong(ys, q)
    ensures FromGroups(xs + ys, p + q) && ReadsLong(xs + ys, p + q)
  {
    hide GroupCommand;
    forall sent | sent in p + q
      ensures sent.command == MULTI_MEMORY_READ || exists k :: 0 <= k < |xs + ys| && sent == GroupCommand((xs + ys)[k])
    {
      if sent.command != MULTI_MEMORY_READ {
        if sent in p {
          var k :| 0 <= k < |xs| && sent == GroupCommand(xs[k]);
          assert (xs + ys)[k] == xs[k];
        } else {
          var k :| 0 <= k < |ys| && sent == GroupCommand(ys[k]);
          assert (xs + ys)[|xs| + k] == ys[k];
        }
      }
    }
    forall k | 0 <= k < |xs + ys| && (xs + ys)[k].wordCount > 1
      ensures GroupCommand((xs + ys)[k]) in p + q
    {
      assert k < |xs| ==> GroupCommand(xs[k]) in p;
      assert k >= |xs| ==> GroupCommand(ys[k - |xs|]) in q;
    }
  }

  lemma {:induction false} StrategyPlan(h: History, groups: seq<ReadGroup>)
    ensures FromGroups(groups, StrategyCommands(h, groups)) && ReadsLong(groups, StrategyCommands(h, groups))
  {
    hide GroupCommands, ScatteredCommands, BatchCommands, FromGroups, ReadsLong;
    GroupPlan(groups);
    ScatteredPlan(h, groups);
    BatchPlan(h, groups, 0);
    assert groups[0..] == groups;
  }

  /** A group can panic exactly if it is one request that is too long. */
  lemma {:induction false} GroupTooLong(g: ReadGroup)
    requires Tiled(g)
    ensures CanPanic(GroupCommand(g)) <==> exists r :: r in g.requests && TooLong(r)
    ensures CanPanic(GroupCommand(g)) ==> g.wordCount > 1
  {
    var data := ReadRequest(g.area, g.startAddr, 0, ToU16(g.wordCount));
    Be16RoundTrip(data, 1, g.startAddr);
    Be16RoundTrip(data, 4, ToU16(g.wordCount));
    if |g.requests| > 1 {
      forall r | r in g.requests
        ensures !TooLong(r)
      {
        var k :| 0 <= k < |g.requests| && g.requests[k] == r;
        InsideGroup(g, k);
      }
    } else {
      assert g.requests[0] in g.requests;
    }
  }

  lemma {:induction false} SafeWithoutLong(h: History, groups: seq<ReadGroup>)
    requires AllTiled(groups) && forall r | r in RequestsOf(groups) :: !TooLong(r)
    ensures Safe(h, StrategyCommands(h, groups))
  {
    hide StrategyCommands, GroupCommand, CanPanic, Tiled, TooLong, RequestsOf;
    StrategyPlan(h, groups);
    forall sent | sent in StrategyCommands(h, groups)
      ensures !CanPanic(sent)
    {
      if sent.command != MULTI_MEMORY_READ {
        var k :| 0 <= k < |groups| && sent == GroupCommand(groups[k]);
        GroupTooLong(groups[k]);
        if r :| r in groups[k].requests && TooLong(r) {
          RequestsOfMembers(groups, r);
        }
      } else {
        MultiIsMild(sent);
      }
    }
    MildPlanIsSafe(h, |h.log|, StrategyCommands(h, groups));
  }

  lemma {:induction false} MultiIsMild(sent: Sent)
    requires sent.command == MULTI_MEMORY_READ
    ensures !CanPanic(sent)
  {
  }

  /** Any controller whose link passes everything. */
  lemma {:induction false} PanicsInFull(h: History, n: nat, g: ReadGroup)
    requires h.outcome(n) == Passed(0x2_0000) && CanPanic(GroupCommand(g))
    ensures Panics(h, n, GroupCommand(g))
  {
    hide BeBytes;
    var data := ReadRequest(g.area, g.startAddr, 0, ToU16(g.wordCount));
    Be16RoundTrip(data, 1, g.startAddr);
    Be16RoundTrip(data, 4, ToU16(g.wordCount));
    ReadRequestRespond(h.memory, g.area, g.startAddr, 0, ToU16(g.wordCount));
  }

  /**
    Over every controller and link the process survives a batched read exactly
    when no request is too long: its 16-bit word count is below 32768, or the
    controller would not answer it in full.
   */
  lemma {:induction false} SurvivesExactly(groups: seq<ReadGroup>)
    requires AllTiled(groups)
    ensures (forall h: History :: Safe(h, StrategyCommands(h, groups))) <==>
            forall r | r in RequestsOf(groups) :: !TooLong(r)
  {
    hide StrategyCommands, GroupCommand, CanPanic, Tiled, TooLong, RequestsOf, SafeFrom, Panics;
    if r :| r in RequestsOf(groups) && TooLong(r) {
      RequestsOfMembers(groups, r);
      var k :| 0 <= k < |groups| && r in groups[k].requests;
      GroupTooLong(groups[k]);
      var h := History(Memory((_, _) => 0, (_, _, _) => 0), _ => Passed(0x2_0000), []);
      StrategyPlan(h, groups);
      var plan := StrategyCommands(h, groups);
      var j :| 0 <= j < |plan| && plan[j] == GroupCommand(groups[k]);
      PanicsInFull(h, j, groups[k]);
      OnePanics(h, 0, plan, j);
      assert !Safe(h, plan);
    } else {
      forall h: History
        ensures Safe(h, StrategyCommands(h, groups))
      {
        SafeWithoutLong(h, groups);
      }
    }
  }

  /** One request for 32768 words, such as DM0[32768] names, over a link that passes everything. */
  lemma {:induction false} FirstPanic(mem: Memory, address: string)
    ensures var r := WordRequest(0, address, ParsedAddress(0x82, 0, 0, 0x04, 0x8000), 0x8000);
            var h := History(mem, _ => Passed(0x1_0000), []);
            Tiled(NewGroup(r)) && !Safe(h, StrategyCommands(h, [NewGroup(r)]))
  {
    hide BeBytes;
    var r := WordRequest(0, address, ParsedAddress(0x82, 0, 0, 0x04, 0x8000), 0x8000);
    var h := History(mem, _ => Passed(0x1_0000), []);
    var g := NewGroup(r);
    NewGroupTiled(r);
    GroupPanics(h, 0, g);
    ReadRequestRespond(mem, 0x82, 0, 0, 0x8000);
    assert StrategyCommands(h, [g])[0] == GroupCommand(g);
  }

  lemma {:induction false} SafeNothing(h: History)
    ensures Safe(h, []) && Carried(h, []) == []
  {
  }

  lemma {:induction false} CarriedAll(h: History, plan: seq<Sent>)
    ensures Safe(h, plan) ==> Carried(h, plan) == plan
  {
  }

  /** The next command of a plan, after its first `i` went out. */
  lemma {:induction false} NextInPlan(h: History, past: History, plan: seq<Sent>, i: nat)
    requires i < |plan| && Safe(h, plan[..i])
    requires past == h.(log := h.log + plan[..i])
    ensures !Panics(past, |past.log|, plan[i]) ==> Safe(h, plan[..i + 1])
    ensures Panics(past, |past.log|, plan[i]) ==> !Safe(h, plan) && Carried(h, plan) == plan[..i] + [plan[i]]
  {
    hide Safe, Carried;
    assert plan[..i + 1] == plan[..i] + [plan[i]];
    assert plan == plan[..i] + [plan[i]] + plan[i + 1..];
    OneMoreSent(h, plan[..i], plan[i], plan[i + 1..]);
    SameLink(h, past, |past.log|, plan[i]);
  }

  lemma {:induction false} SameLink(h: History, later: History, n: nat, sent: Sent)
    requires later.memory == h.memory && later.outcome == h.outcome
    ensures Panics(h, n, sent) == Panics(later, n, sent)
  {
  }

  /** What panics depends on the link and the turn, not on what was sent. */
  lemma {:induction false} SameLinkPlan(h: History, later: History, n: nat, plan: seq<Sent>)
    requires later.memory == h.memory && later.outcome == h.outcome
    ensures SafeFrom(h, n, plan) == SafeFrom(later, n, plan) && SentFrom(h, n, plan) == SentFrom(later, n, plan)
    decreases |plan|
  {
    hide Panics;
    if plan != [] {
      SameLink(h, later, n, plan[0]);
      SameLinkPlan(h, later, n + 1, plan[1..]);
    }
  }

  /** A further part of a plan, begun after the parts before it were carried out. */
  lemma {:induction false} NextPart(h: History, past: History, p: seq<Sent>, q: seq<Sent>)
    requires Safe(h, p) && past == h.(log := h.log + p)
    ensures Safe(h, p + q) <==> Safe(past, q)
    ensures Carried(h, p + q) == p + Carried(past, q)
  {
    hide SafeFrom, SentFrom, Panics;
    InTwoParts(h, |h.log|, p, q);
    assert |past.log| == |h.log| + |p|;
    SameLinkPlan(h, past, |past.log|, q);
  }

  lemma {:induction false} OnlyMultiSent(h: History, groups: seq<ReadGroup>)
    requires groups != [] && !HasLong(groups)
    ensures FirstCommands(groups) == [MultiCommand(groups)] && Safe(h, FirstCommands(groups))
    ensures Carried(h, FirstCommands(groups)) == FirstCommands(groups)
  {
    MultiIsSafe(h, groups);
  }

  lemma {:induction false} FallbackPlan(h: History, past: History, groups: seq<ReadGroup>)
    requires groups != [] && !HasLong(groups) && MultiFails(h, groups) && Safe(h, FirstCommands(groups))
    requires past == h.(log := h.log + FirstCommands(groups))
    ensures Safe(h, ScatteredCommands(h, groups)) <==> Safe(past, GroupCommands(groups))
    ensures h.log + Carried(h, ScatteredCommands(h, groups)) == past.log + Carried(past, GroupCommands(groups))
  {
    hide Safe, Carried, FirstCommands, GroupCommands;
    NextPart(h, past, FirstCommands(groups), GroupCommands(groups));
    var sent := Carried(past, GroupCommands(groups));
    assert h.log + (FirstCommands(groups) + sent) == h.log + FirstCommands(groups) + sent;
  }

  lemma {:induction false} NoFallback(h: History, groups: seq<ReadGroup>)
    ensures groups == [] || HasLong(groups) || !MultiFails(h, groups) ==>
              ScatteredCommands(h, groups) == FirstCommands(groups)
  {
    hide FirstCommands;
    assert FirstCommands(groups) + [] == FirstCommands(groups);
  }

  lemma {:induction false} AfterFallback(h: History, later: History, from: nat, rs: seq<WordRequest>,
                                         before: seq<Option<TagValue>>, after: seq<Option<TagValue>>)
    requires Extends(later, h) && from <= |h.log| && Slotted(rs, |after|)
    requires AllAnswered(later, |h.log|, rs, after) && OthersKept(rs, before, after)
    ensures AllAnswered(later, from, rs, after)
  {
    hide Answered;
    var none: seq<WordRequest> := [];
    assert none + rs == rs;
    JoinAnswers(h, later, from, none, rs, before, after);
  }

  lemma {:induction false} NothingDone(h: History, plan: seq<Sent>)
    ensures [] + plan == plan && h.log + [] == h.log && Safe(h, [])
  {
  }

  /** The batch from the `i`th group on, after the commands `done`. */
  lemma {:induction false} BatchDone(h: History, past: History, groups: seq<ReadGroup>, i: nat, end: nat,
                                     done: seq<Sent>)
    requires i < |groups| && end == if i + MAX_MULTI_AREAS > |groups| then |groups| else i + MAX_MULTI_AREAS
    requires past == h.(log := h.log + done) && Safe(h, done)
    ensures var batch := ScatteredCommands(past, groups[i..end]);
            var later := past.(log := past.log + batch);
            var plan := done + BatchCommands(past, groups, i);
            && plan == done + batch + BatchCommands(later, groups, end) && later.log == h.log + (done + batch)
            && (Safe(past, batch) ==> Safe(h, done + batch))
            && (!Safe(past, batch) ==> !Safe(h, plan) && Carried(h, plan) == done + Carried(past, batch))
  {
    hide Safe, Carried, ScatteredCommands;
    var batch := ScatteredCommands(past, groups[i..end]);
    var later := past.(log := past.log + batch);
    var rest := BatchCommands(later, groups, end);
    assert BatchCommands(past, groups, i) == batch + rest;
    assert done + (batch + rest) == done + batch + rest;
    NextPart(h, past, done, batch);
    NextPart(h, past, done, batch + rest);
    UnsafeStart(past, batch, rest);
    assert h.log + done + batch == h.log + (done + batch);
  }

  lemma {:induction false} UnsafeStart(h: History, p: seq<Sent>, q: seq<Sent>)
    ensures !Safe(h, p) ==> !Safe(h, p + q) && Carried(h, p + q) == Carried(h, p)
  {
    hide SafeFrom, SentFrom;
    InTwoParts(h, |h.log|, p, q);
  }

  /** A request's part of its group's words is its answer. */
  lemma {:induction false} GroupAnswer(h: History, from: nat, g: ReadGroup, k: nat)
    requires Tiled(g) && k < |g.requests| && ToU16(g.wordCount) < PANIC_COUNT
    ensures var r := g.requests[k];
            && g.startAddr <= r.parsed.address
            && var words := Picked(GroupReply(h.memory, g), r.parsed.address - g.startAddr, r.wordCount);
               Answered(h, from, r, Some(ValueOf(r, words)))
  {
    InsideGroup(g, k);
    GroupWords(h.memory, g, k);
    if |g.requests| > 1 {
      assert ToU16(g.requests[k].wordCount) == g.requests[k].wordCount;
    }
  }

  /** A group read that failed is to blame for each of the group's requests. */
  lemma {:induction false} BlameGroup(h: History, n: nat, g: ReadGroup, e: Error)
    requires Tiled(g) && n < |h.log| && h.log[n] == GroupCommand(g) && e != Panic
    requires WordsReply(h.memory, h.outcome(n), g.area, g.startAddr, ToU16(g.wordCount)) == Err(e)
    ensures forall r | r in g.requests :: FailedRead(h, n, r, e)
  {
    hide WordsReply;
    forall r | r in g.requests
      ensures FailedRead(h, n, r, e)
    {
      var k :| 0 <= k < |g.requests| && g.requests[k] == r;
      GroupSpans(g, k);
      assert h.log[n] == Sent(MEMORY_READ, ReadRequest(r.parsed.area, g.startAddr, 0, ToU16(g.wordCount)));
    }
  }

  /** A group's slots are among those of all groups. */
  lemma {:induction false} KeptWithin(groups: seq<ReadGroup>, i: nat, start: seq<Option<TagValue>>,
                                      mid: seq<Option<TagValue>>, after: seq<Option<TagValue>>)
    requires i < |groups| && OthersKept(RequestsOf(groups), start, mid) && OthersKept(groups[i].requests, mid, after)
    ensures OthersKept(RequestsOf(groups), start, after)
  {
    assert groups[i..i + 1] == [groups[i]];
    RequestsOfOne(groups[i]);
    OneMoreBatch(groups, i, i + 1);
    OthersKeptTrans(RequestsOf(groups), groups[i].requests, RequestsOf(groups), start, mid, after);
  }

  class BatchReader {
    const fins: Transport
    const typeSize: U16 -> nat

    constructor (fins: Transport, typeSize: U16 -> nat)
      ensures this.fins == fins && this.typeSize == typeSize
    {
      this.fins := fins;
      this.typeSize := typeSize;
    }

    /** Copy one request's words out of the group's reply. */
    method Extract(req: WordRequest, words: seq<U16>, wordOffset: nat) returns (tv: TagValue)
      ensures tv == ValueOf(req, Picked(words, wordOffset, req.wordCount))
    {
      ghost var picked := Picked(words, wordOffset, req.wordCount);
      var data := new Byte[2 * req.wordCount](_ => 0);
      var j := 0;
      while j < req.wordCount && wordOffset + j < |words|
        invariant 0 <= j <= req.wordCount
        invariant forall i :: 0 <= i < j ==> data[2 * i] == picked[i] / 0x100 && data[2 * i + 1] == picked[i] % 0x100
        invariant forall i :: 2 * j <= i < data.Length ==> data[i] == 0
      {
        data[2 * j], data[2 * j + 1] := words[wordOffset + j] / 0x100, words[wordOffset + j] % 0x100;
        j := j + 1;
      }
      BytesOfWords(data[..], picked);
      var dataType := if req.parsed.count > 1 then MakeArrayType(req.parsed.typeCode) else req.parsed.typeCode;
      tv := TagValue(req.address, dataType, req.parsed.count, data[..], None);
    }

    /** Give every request of a failed group the group's error. */
    method MarkFailed(rs: seq<WordRequest>, e: Error, ghost from: nat, results: array<Option<TagValue>>)
      requires Slotted(rs, results.Length)
      requires forall r | r in rs :: FailedRead(fins.Past(), from, r, e)
      modifies results
      ensures forall r | r in rs :: results[r.originalIndex] == Some(Failed(r.address, e))
      ensures AllAnswered(fins.Past(), from, rs, results[..])
      ensures OthersKept(rs, old(results[..]), results[..])
    {
      for k := 0 to |rs|
        invariant AllAnswered(fins.Past(), from, rs[..k], results[..])
        invariant forall r | r in rs[..k] :: results[r.originalIndex] == Some(Failed(r.address, e))
        invariant OthersKept(rs, old(results[..]), results[..])
      {
        var tv := Failed(rs[k].address, e);
        TakeOneMore(rs, k);
        PutAnswer(fins.Past(), from, rs, rs[..k], rs[k], Some(tv), old(results[..]), results[..]);
        results[rs[k].originalIndex] := Some(tv);
      }
      assert rs[..|rs|] == rs;
    }

    /** Hand each request of a group its own part of the group's words. */
    method Distribute(group: ReadGroup, words: seq<U16>, ghost from: nat, results: array<Option<TagValue>>)
      requires Tiled(group) && Slotted(group.requests, results.Length)
      requires words == GroupReply(fins.memory, group) && ToU16(group.wordCount) < PANIC_COUNT
      modifies results
      ensures AllAnswered(fins.Past(), from, group.requests, results[..])
      ensures OthersKept(group.requests, old(results[..]), results[..])
    {
      hide Answered, ValueOf, Picked, GroupReply;
      var rs := group.requests;
      var wordOffset: nat := 0;
      for k := 0 to |rs|
        invariant k < |rs| ==> group.startAddr + wordOffset == rs[k].parsed.address
        invariant AllAnswered(fins.Past(), from, rs[..k], results[..])
        invariant OthersKept(rs, old(results[..]), results[..])
      {
        var req := rs[k];
        var tv := Extract(req, words, wordOffset);
        GroupAnswer(fins.Past(), from, group, k);
        TakeOneMore(rs, k);
        PutAnswer(fins.Past(), from, rs, rs[..k], req, Some(tv), old(results[..]), results[..]);
        results[req.originalIndex] := Some(tv);
        assert k + 1 < |rs| ==> Follows(rs, k + 1);
        wordOffset := wordOffset + req.wordCount;
      }
      assert rs[..|rs|] == rs;
    }

    /** Reads one group; `ok` says that the process survived it. */
    method ReadGroup(group: ReadGroup, results: array<Option<TagValue>>) returns (ok: bool)
      requires Tiled(group) && Slotted(group.requests, results.Length)
      modifies fins, results
      ensures fins.log == old(fins.log) + [GroupCommand(group)]
      ensures ok <==> !Panics(old(fins.Past()), old(|fins.log|), GroupCommand(group))
      ensures ok ==> AllAnswered(fins.Past(), old(|fins.log|), group.requests, results[..])
      ensures OthersKept(group.requests, old(results[..]), results[..])
    {
      var count := ToU16(group.wordCount);
      GroupPanics(fins.Past(), |fins.log|, group);
      var r := fins.ReadWords(group.area, group.startAddr, count);
      if r == Err(Panic) {
        return false;
      }
      if r.Err? {
        BlameGroup(fins.Past(), old(|fins.log|), group, r.error);
        MarkFailed(group.requests, r.error, old(|fins.log|), results);
      } else {
        Distribute(group, r.value, old(|fins.log|), results);
      }
      ok := true;
    }

    method ReadGroups(groups: seq<ReadGroup>, results: array<Option<TagValue>>) returns (ok: bool)
      requires AllTiled(groups) && Slotted(RequestsOf(groups), results.Length)
      modifies fins, results
      ensures ok <==> Safe(old(fins.Past()), GroupCommands(groups))
      ensures fins.log == old(fins.log) + Carried(old(fins.Past()), GroupCommands(groups))
      ensures ok ==> AllAnswered(fins.Past(), old(|fins.log|), RequestsOf(groups), results[..])
      ensures OthersKept(RequestsOf(groups), old(results[..]), results[..])
    {
      hide GroupCommand, GroupCommands, RequestsOf, Answered, Panics, SafeFrom, SentFrom, Tiled, Slotted;
      ghost var from, start, first, plan := |fins.log|, results[..], fins.Past(), GroupCommands(groups);
      NoGroupsYet(first, from, groups, start);
      SafeNothing(first);
      for i := 0 to |groups|
        invariant fins.log == first.log + plan[..i] && Safe(first, plan[..i])
        invariant AllAnswered(fins.Past(), from, RequestsOf(groups[..i]), results[..])
        invariant OthersKept(RequestsOf(groups), start, results[..])
      {
        ghost var mid, past := results[..], fins.Past();
        GroupSlotted(groups, i, results.Length);
        NextGroupCommand(groups, i);
        NextInPlan(first, past, plan, i);
        ok := ReadGroup(groups[i], results);
        if !ok {
          KeptWithin(groups, i, start, mid, results[..]);
          return;
        }
        NextGroups(past, fins.Past(), from, groups, i, i + 1, groups[i].requests, start, mid, results[..]);
      }
      assert groups[..|groups|] == groups && plan[..|groups|] == plan;
      ok := true;
      CarriedAll(first, plan);
    }

    method BuildMultiMemoryReadRequest(groups: seq<ReadGroup>) returns (data: seq<Byte>)
      ensures data == [|groups| % 0x100] + Entries(groups)
    {
      data := [|groups| % 0x100];
      for i := 0 to |groups|
        invariant data == [|groups| % 0x100] + Entries(groups[..i])
      {
        var g := groups[i];
        TakeOneMore(groups, i);
        EntriesAppend(groups[..i], g);
        data := data + [g.area, g.startAddr / 0x100, g.startAddr % 0x100, 0];
      }
      assert groups[..|groups|] == groups;
    }

    /** Mark every request of a short multi-memory reply. */
    method MarkShort(groups: seq<ReadGroup>, results: array<Option<TagValue>>)
      requires Slotted(RequestsOf(groups), results.Length)
      modifies results
      ensures OthersKept(RequestsOf(groups), old(results[..]), results[..])
    {
      for i := 0 to |groups|
        invariant OthersKept(RequestsOf(groups), old(results[..]), results[..])
      {
        for k := 0 to |groups[i].requests|
          invariant OthersKept(RequestsOf(groups), old(results[..]), results[..])
        {
          var req := groups[i].requests[k];
          RequestsOfMembers(groups, req);
          results[req.originalIndex] := Some(Failed(req.address, ShortReply));
        }
      }
    }

    /** Give the requests of a one-word group the word read for it. */
    method PutWord(group: ReadGroup, wordData: seq<Byte>, ghost from: nat, results: array<Option<TagValue>>)
      requires Tiled(group) && group.wordCount == 1 && Slotted(group.requests, results.Length)
      requires wordData == Be16(fins.memory.word(group.area, group.startAddr))
      modifies results
      ensures AllAnswered(fins.Past(), from, group.requests, results[..])
      ensures OthersKept(group.requests, old(results[..]), results[..])
    {
      var rs := group.requests;
      OneWordGroup(fins.memory, group);
      for k := 0 to |rs|
        invariant AllAnswered(fins.Past(), from, rs[..k], results[..])
        invariant OthersKept(rs, old(results[..]), results[..])
      {
        var tv := TagValue(rs[k].address, rs[k].parsed.typeCode, 1, wordData, None);
        TakeOneMore(rs, k);
        PutAnswer(fins.Past(), from, rs, rs[..k], rs[k], Some(tv), old(results[..]), results[..]);
        results[rs[k].originalIndex] := Some(tv);
      }
      assert rs[..|rs|] == rs;
    }

    /** One more group of a full multi-memory reply. */
    method PutReplyWord(resp: seq<Byte>, groups: seq<ReadGroup>, i: nat, ghost from: nat,
                        ghost start: seq<Option<TagValue>>, results: array<Option<TagValue>>)
      requires i < |groups| && Tiled(groups[i]) && groups[i].wordCount == 1
      requires Slotted(RequestsOf(groups), results.Length) && from <= |fins.log|
      requires resp <= GroupElements(fins.memory, groups) && |resp| >= 2 * |groups|
      requires AllAnswered(fins.Past(), from, RequestsOf(groups[..i]), results[..])
      requires OthersKept(RequestsOf(groups), start, results[..])
      modifies results
      ensures AllAnswered(fins.Past(), from, RequestsOf(groups[..i + 1]), results[..])
      ensures OthersKept(RequestsOf(groups), start, results[..])
    {
      GroupSlotted(groups, i, results.Length);
      ReplyWord(fins.memory, groups, resp, i);
      PutWord(groups[i], resp[2 * i..2 * i + 2], |fins.log|, results);
      NextGroups(fins.Past(), fins.Past(), from, groups, i, i + 1, groups[i].requests,
                 start, old(results[..]), results[..]);
    }

    method ParseMultiMemoryReadResponse(resp: seq<Byte>, groups: seq<ReadGroup>, ghost from: nat,
                                        results: array<Option<TagValue>>)
      returns (err: Option<Error>)
      requires AllTiled(groups) && Slotted(RequestsOf(groups), results.Length)
      requires forall k | 0 <= k < |groups| :: groups[k].wordCount == 1
      requires resp <= GroupElements(fins.memory, groups) && from <= |fins.log|
      modifies results
      ensures err.None? <==> |resp| >= 2 * |groups|
      ensures err.None? ==> AllAnswered(fins.Past(), from, RequestsOf(groups), results[..])
      ensures OthersKept(RequestsOf(groups), old(results[..]), results[..])
    {
      hide Answered, Tiled, Slotted, RequestsOf, OthersKept, AllAnswered, GroupElements;
      if |resp| < 2 * |groups| {
        MarkShort(groups, results);
        return Some(ShortReply);
      }
      NoGroupsYet(fins.Past(), from, groups, results[..]);
      for i := 0 to |groups|
        invariant AllAnswered(fins.Past(), from, RequestsOf(groups[..i]), results[..])
        invariant OthersKept(RequestsOf(groups), old(results[..]), results[..])
      {
        PutReplyWord(resp, groups, i, from, old(results[..]), results);
      }
      assert groups[..|groups|] == groups;
      err := None;
    }

    /** The command reads one word per entry, so wider groups need their own reads. */
    method NeedsFallback(groups: seq<ReadGroup>) returns (needed: bool)
      ensures needed <==> HasLong(groups)
    {
      for i := 0 to |groups|
        invariant forall k :: 0 <= k < i ==> groups[k].wordCount <= 1
      {
        if groups[i].wordCount > 1 {
          return true;
        }
      }
      return false;
    }

    method ReadMultiMemory(groups: seq<ReadGroup>, results: array<Option<TagValue>>)
      returns (ok: bool, err: Option<Error>)
      requires |groups| <= MAX_MULTI_AREAS
      requires AllTiled(groups) && Slotted(RequestsOf(groups), results.Length)
      modifies fins, results
      ensures ok <==> Safe(old(fins.Past()), FirstCommands(groups))
      ensures fins.log == old(fins.log) + Carried(old(fins.Past()), FirstCommands(groups))
      ensures err.Some? <==> groups != [] && !HasLong(groups) && MultiFails(old(fins.Past()), groups)
      ensures ok && err.None? ==> AllAnswered(fins.Past(), old(|fins.log|), RequestsOf(groups), results[..])
      ensures OthersKept(RequestsOf(groups), old(results[..]), results[..])
    {
      hide SafeFrom, SentFrom, GroupCommands, Panics;
      if |groups| == 0 {
        SafeNothing(fins.Past());
        return true, None;
      }
      var needFallback := NeedsFallback(groups);
      if needFallback {
        ok := ReadGroups(groups, results);
        return ok, None;
      }
      ok := true;
      MultiIsSafe(fins.Past(), groups);
      CarriedAll(fins.Past(), [MultiCommand(groups)]);
      AllOneWord(groups);
      var data := BuildMultiMemoryReadRequest(groups);
      MultiMemoryReply(fins.memory, fins.outcome(|fins.log|), groups, data);
      var resp := fins.SendCommand(MULTI_MEMORY_READ, data);
      if resp.Err? {
        return true, Some(resp.error);
      }
      err := ParseMultiMemoryReadResponse(resp.value, groups, old(|fins.log|), results);
    }

    /** Multi-memory command first, group reads if it fails. */
    method ReadScattered(groups: seq<ReadGroup>, results: array<Option<TagValue>>) returns (ok: bool)
      requires |groups| <= MAX_MULTI_AREAS
      requires AllTiled(groups) && Slotted(RequestsOf(groups), results.Length)
      modifies fins, results
      ensures ok <==> Safe(old(fins.Past()), ScatteredCommands(old(fins.Past()), groups))
      ensures fins.log == old(fins.log) + Carried(old(fins.Past()), ScatteredCommands(old(fins.Past()), groups))
      ensures ok ==> AllAnswered(fins.Past(), old(|fins.log|), RequestsOf(groups), results[..])
      ensures OthersKept(RequestsOf(groups), old(results[..]), results[..])
    {
      hide GroupCommands, FirstCommands, ScatteredCommands, HasLong, MultiFails, Safe, Carried;
      hide AllTiled, Slotted, RequestsOf, AllAnswered, OthersKept;
      var err;
      ghost var first, start := fins.Past(), results[..];
      ok, err := ReadMultiMemory(groups, results);
      if err.Some? {
        ghost var past, mid := fins.Past(), results[..];
        OnlyMultiSent(first, groups);
        FallbackPlan(first, past, groups);
        ok := ReadGroups(groups, results);
        if ok {
          AfterFallback(past, fins.Past(), |first.log|, RequestsOf(groups), mid, results[..]);
        }
        OthersKeptTrans(RequestsOf(groups), RequestsOf(groups), RequestsOf(groups), start, mid, results[..]);
      } else {
        NoFallback(first, groups);
      }
    }

    /** One batch of up to 64 groups from the `i`th on. */
    method ReadNextBatch(groups: seq<ReadGroup>, i: nat, ghost from: nat, ghost start: seq<Option<TagValue>>,
                         results: array<Option<TagValue>>) returns (ok: bool, end: nat)
      requires i < |groups| && AllTiled(groups) && Slotted(RequestsOf(groups), results.Length) && from <= |fins.log|
      requires AllAnswered(fins.Past(), from, RequestsOf(groups[..i]), results[..])
      requires OthersKept(RequestsOf(groups), start, results[..])
      modifies fins, results
      ensures end == if i + MAX_MULTI_AREAS > |groups| then |groups| else i + MAX_MULTI_AREAS
      ensures var plan := ScatteredCommands(old(fins.Past()), groups[i..end]);
              (ok <==> Safe(old(fins.Past()), plan)) && fins.log == old(fins.log) + Carried(old(fins.Past()), plan)
      ensures ok ==> AllAnswered(fins.Past(), from, RequestsOf(groups[..end]), results[..])
      ensures OthersKept(RequestsOf(groups), start, results[..])
    {
      hide ScatteredCommands, Safe, Carried;
      end := if i + MAX_MULTI_AREAS > |groups| then |groups| else i + MAX_MULTI_AREAS;
      var batch := groups[i..end];
      ghost var mid, past := results[..], fins.Past();
      BatchSlotted(groups, i, end, results.Length);
      ok := ReadScattered(batch, results);
      if ok {
        NextGroups(past, fins.Past(), from, groups, i, end, RequestsOf(batch), start, mid, results[..]);
      }
      OneMoreBatch(groups, i, end);
      OthersKeptTrans(RequestsOf(groups), RequestsOf(batch), RequestsOf(groups), start, mid, results[..]);
    }

    method ReadInBatches(groups: seq<ReadGroup>, results: array<Option<TagValue>>) returns (ok: bool)
      requires AllTiled(groups) && Slotted(RequestsOf(groups), results.Length)
      modifies fins, results
      ensures ok <==> Safe(old(fins.Past()), BatchCommands(old(fins.Past()), groups, 0))
      ensures fins.log == old(fins.log) + Carried(old(fins.Past()), BatchCommands(old(fins.Past()), groups, 0))
      ensures ok ==> AllAnswered(fins.Past(), old(|fins.log|), RequestsOf(groups), results[..])
      ensures OthersKept(RequestsOf(groups), old(results[..]), results[..])
    {
      hide BatchCommands, ScatteredCommands, AllTiled, Slotted, RequestsOf, Answered, Safe, Carried;
      ghost var from, start, first := |fins.log|, results[..], fins.Past();
      ghost var plan, done := BatchCommands(first, groups, 0), [];
      NoGroupsYet(first, from, groups, start);
      NothingDone(first, plan);
      var i := 0;
      while i < |groups|
        invariant i <= |groups| && from <= |fins.log|
        invariant fins.log == first.log + done && plan == done + BatchCommands(fins.Past(), groups, i)
        invariant Safe(first, done)
        invariant AllAnswered(fins.Past(), from, RequestsOf(groups[..i]), results[..])
        invariant OthersKept(RequestsOf(groups), start, results[..])
      {
        ghost var past := fins.Past();
        var end;
        ok, end := ReadNextBatch(groups, i, from, start, results);
        BatchDone(first, past, groups, i, end, done);
        if !ok {
          return;
        }
        done := done + ScatteredCommands(past, groups[i..end]);
        CarriedAll(past, ScatteredCommands(past, groups[i..end]));
        i := end;
      }
      NoBatchLeft(fins.Past(), groups, i);
      assert groups[..i] == groups && done + [] == done;
      CarriedAll(first, plan);
      ok := true;
    }

    method ReadByStrategy(groups: seq<ReadGroup>, results: array<Option<TagValue>>) returns (ok: bool)
      requires AllTiled(groups) && Slotted(RequestsOf(groups), results.Length)
      modifies fins, results
      ensures ok <==> Safe(old(fins.Past()), StrategyCommands(old(fins.Past()), groups))
      ensures fins.log == old(fins.log) + Carried(old(fins.Past()), StrategyCommands(old(fins.Past()), groups))
      ensures ok ==> AllAnswered(fins.Past(), old(|fins.log|), RequestsOf(groups), results[..])
      ensures OthersKept(RequestsOf(groups), old(results[..]), results[..])
    {
      hide GroupCommands, ScatteredCommands, BatchCommands, Safe, Carried;
      if |groups| == 1 || |groups| <= 3 {
        ok := ReadGroups(groups, results);
      } else if |groups| <= MAX_MULTI_AREAS {
        ok := ReadScattered(groups, results);
      } else {
        ok := ReadInBatches(groups, results);
      }
    }

    /**
      Sorts the requests in place, groups them and reads the groups by the
      strategy their number calls for. The process survives exactly if no command
      of that plan panics; what is sent of the plan otherwise ends with the first
      that does.
     */
    method ReadWordsBatched(requests: array<WordRequest>, results: array<Option<TagValue>>)
      returns (ok: bool, ghost groups: seq<ReadGroup>)
      requires Slotted(requests[..], results.Length)
      modifies fins, requests, results
      ensures AllTiled(groups) && Maximal(groups) && Sorting.Sorted(RequestsOf(groups), SortKey)
      ensures multiset(RequestsOf(groups)) == multiset(old(requests[..]))
      ensures ok <==> Safe(old(fins.Past()), StrategyCommands(old(fins.Past()), groups))
      ensures fins.log == old(fins.log) + Carried(old(fins.Past()), StrategyCommands(old(fins.Past()), groups))
      ensures ok ==> AllAnswered(fins.Past(), old(|fins.log|), old(requests[..]), results[..])
      ensures OthersKept(old(requests[..]), old(results[..]), results[..])
    {
      hide StrategyCommands, AllTiled, Maximal, RequestsOf, SafeFrom, SentFrom;
      groups := [];
      if requests.Length == 0 {
        NothingToRead(fins.Past(), groups);
        SafeNothing(fins.Past());
        return true, groups;
      }
      Sorting.SortBy(requests, SortKey);
      Sorting.SameMembers(requests[..], old(requests[..]));
      var found := GroupContiguousAddresses(requests[..]);
      groups := found;
      ok := ReadByStrategy(found, results);
    }

    /** Bits are read one request at a time. */
    method ReadBits(req: WordRequest, results: array<Option<TagValue>>)
      requires req.originalIndex < results.Length
      modifies fins, results
      ensures fins.log == old(fins.log) + [BitCommand(req)]
      ensures results[..] == old(results[..])[req.originalIndex := Some(BitAnswer(fins.Past(), old(|fins.log|), req))]
    {
      var bitArea := BitAreaFromWordArea(req.parsed.area);
      var r := fins.ReadBits(bitArea, req.parsed.address, req.parsed.bitOffset, ToU16(req.parsed.count));
      if r.Err? {
        results[req.originalIndex] := Some(TagValue(req.address, TYPE_BOOL, req.parsed.count, [], Some(r.error)));
        return;
      }
      var data := BitBytes(r.value);
      results[req.originalIndex] := Some(BitValue(req, data));
    }

    /** One two-byte word per bit. */
    method BitBytes(bits: seq<bool>) returns (bytes: seq<Byte>)
      ensures bytes == BeBytes(BitWords(bits))
    {
      var data := new Byte[2 * |bits|](_ => 0);
      for j := 0 to |bits|
        invariant forall k :: 0 <= k < j ==> data[2 * k] == 0 && data[2 * k + 1] == if bits[k] then 1 else 0
        invariant forall k :: 2 * j <= k < data.Length ==> data[k] == 0
      {
        if bits[j] {
          data[2 * j + 1] := 1;
        }
      }
      BytesOfWords(data[..], BitWords(bits));
      bytes := data[..];
    }

    /** The request made for tag `i`; odd byte counts round up to whole words. */
    function RequestFor(i: nat, tag: TagRequest): WordRequest
      requires tag.parsed.Ok?
    {
      var byteCount := typeSize(tag.parsed.value.typeCode) * tag.parsed.value.count;
      var wordCount := (byteCount + 1) / 2;
      WordRequest(i, tag.address, tag.parsed.value, if wordCount < 1 then 1 else wordCount)
    }

    predicate IsWordTag(tag: TagRequest) {
      tag.parsed.Ok? && tag.parsed.value.typeCode != TYPE_BOOL
    }

    predicate IsBitTag(tag: TagRequest) {
      tag.parsed.Ok? && tag.parsed.value.typeCode == TYPE_BOOL
    }

    /** What the caller finds in slot `i` after the read. */
    ghost predicate TagAnswered(h: History, from: nat, i: nat, tag: TagRequest, tv: Option<TagValue>) {
      if tag.parsed.Err? then tv == Some(Failed(tag.address, tag.parsed.error))
      else if IsWordTag(tag) then Answered(h, from, RequestFor(i, tag), tv)
      else exists n: nat ::
        && from <= n < |h.log|
        && h.log[n] == BitCommand(RequestFor(i, tag))
        && tv == Some(BitAnswer(h, n, RequestFor(i, tag)))
    }

    /** `rs` are the requests of the tags before `n` that satisfy `which`, each once, in tag order. */
    ghost predicate Collected(tags: seq<TagRequest>, n: nat, which: TagRequest -> bool, rs: seq<WordRequest>)
      requires n <= |tags|
    {
      && (forall r | r in rs :: r.originalIndex < n && which(tags[r.originalIndex])
            && tags[r.originalIndex].parsed.Ok? && r == RequestFor(r.originalIndex, tags[r.originalIndex]))
      && (forall i | 0 <= i < n && tags[i].parsed.Ok? && which(tags[i]) :: RequestFor(i, tags[i]) in rs)
      && (forall j, k | 0 <= j < k < |rs| :: rs[j].originalIndex < rs[k].originalIndex)
    }

    lemma {:induction false} NoneCollected(tags: seq<TagRequest>)
      ensures Collected(tags, 0, IsWordTag, []) && Collected(tags, 0, IsBitTag, [])
    {
    }

    lemma {:induction false} CollectNext(tags: seq<TagRequest>, i: nat, which: TagRequest -> bool, rs: seq<WordRequest>)
      requires i < |tags| && Collected(tags, i, which, rs)
      ensures Collected(tags, i + 1, which,
                        rs + if tags[i].parsed.Ok? && which(tags[i]) then [RequestFor(i, tags[i])] else [])
    {
    }

    lemma {:induction false} CollectedSlotted(tags: seq<TagRequest>, which: TagRequest -> bool, rs: seq<WordRequest>)
      requires Collected(tags, |tags|, which, rs)
      ensures Slotted(rs, |tags|)
    {
      forall r | r in rs
        ensures r.wordCount > 0
      {
        assert r == RequestFor(r.originalIndex, tags[r.originalIndex]);
      }
    }

    /** Once the word requests are answered, so are all tags but the bits. */
    lemma {:induction false} WordsAnswered(h: History, from: nat, tags: seq<TagRequest>, words: seq<WordRequest>,
                                           before: seq<Option<TagValue>>, after: seq<Option<TagValue>>)
      requires Collected(tags, |tags|, IsWordTag, words) && |after| == |tags|
      requires AllAnswered(h, from, words, after) && OthersKept(words, before, after)
      requires forall i | 0 <= i < |tags| && tags[i].parsed.Err? ::
                 before[i] == Some(Failed(tags[i].address, tags[i].parsed.error))
      ensures forall i | 0 <= i < |tags| && !IsBitTag(tags[i]) :: TagAnswered(h, from, i, tags[i], after[i])
    {
      hide Answered;
      forall i | 0 <= i < |tags| && !IsBitTag(tags[i])
        ensures TagAnswered(h, from, i, tags[i], after[i])
      {
        if IsWordTag(tags[i]) {
          assert RequestFor(i, tags[i]) in words && RequestFor(i, tags[i]).originalIndex == i;
        } else {
          assert forall r | r in words :: r.originalIndex != i;
        }
      }
    }

    lemma {:induction false} NoWords(h: History, from: nat, words: seq<WordRequest>, results: seq<Option<TagValue>>)
      requires words == []
      ensures AllAnswered(h, from, words, results) && OthersKept(words, results, results)
    {
    }

    /** Parse failures are answered at once; the other tags become word or bit requests. */
    method Classify(tags: seq<TagRequest>, results: array<Option<TagValue>>)
      returns (words: seq<WordRequest>, bits: seq<WordRequest>)
      requires results.Length == |tags|
      modifies results
      ensures Collected(tags, |tags|, IsWordTag, words) && Collected(tags, |tags|, IsBitTag, bits)
      ensures forall i | 0 <= i < |tags| && tags[i].parsed.Err? ::
                results[i] == Some(Failed(tags[i].address, tags[i].parsed.error))
    {
      hide Collected;
      words, bits := [], [];
      NoneCollected(tags);
      for i := 0 to |tags|
        invariant Collected(tags, i, IsWordTag, words) && Collected(tags, i, IsBitTag, bits)
        invariant forall k | 0 <= k < i && tags[k].parsed.Err? ::
                    results[k] == Some(Failed(tags[k].address, tags[k].parsed.error))
      {
        CollectNext(tags, i, IsWordTag, words);
        CollectNext(tags, i, IsBitTag, bits);
        match tags[i].parsed
        case Err(e) =>
          assert words + [] == words && bits + [] == bits;
          results[i] := Some(Failed(tags[i].address, e));
        case Ok(parsed) =>
          var byteCount := typeSize(parsed.typeCode) * parsed.count;
          var wordCount := (byteCount + 1) / 2;
          if wordCount < 1 {
            wordCount := 1;
          }
          var req := WordRequest(i, tags[i].address, parsed, wordCount);
          assert req == RequestFor(i, tags[i]);
          assert words + [] == words && bits + [] == bits;
          if parsed.typeCode == TYPE_BOOL {
            bits := bits + [req];
          } else {
            words := words + [req];
          }
      }
    }

    method ReadAllBits(bits: seq<WordRequest>, tags: seq<TagRequest>, ghost from: nat,
                       results: array<Option<TagValue>>)
      requires results.Length == |tags| && from <= |fins.log|
      requires Collected(tags, |tags|, IsBitTag, bits)
      requires forall i | 0 <= i < |tags| && !IsBitTag(tags[i]) :: TagAnswered(fins.Past(), from, i, tags[i], results[i])
      modifies fins, results
      ensures forall i | 0 <= i < |tags| :: TagAnswered(fins.Past(), from, i, tags[i], results[i])
      ensures fins.log == old(fins.log) + BitCommands(bits)
    {
      for k := 0 to |bits|
        invariant from <= |fins.log| && fins.log == old(fins.log) + BitCommands(bits)[..k]
        invariant forall i | 0 <= i < |tags| && (IsBitTag(tags[i]) ==> RequestFor(i, tags[i]) in bits[..k]) ::
                    TagAnswered(fins.Past(), from, i, tags[i], results[i])
      {
        ghost var mid, n := results[..], |fins.log|;
        ghost var past := fins.Past();
        ReadBits(bits[k], results);
        TakeOneMore(BitCommands(bits), k);
        assert fins.log[n] == BitCommand(bits[k]);
        forall i | 0 <= i < |tags| && (IsBitTag(tags[i]) ==> RequestFor(i, tags[i]) in bits[..k + 1])
          ensures TagAnswered(fins.Past(), from, i, tags[i], results[i])
        {
          if i == bits[k].originalIndex {
            assert RequestFor(i, tags[i]) == bits[k];
          } else {
            assert results[i] == mid[i];
            assert IsBitTag(tags[i]) ==> RequestFor(i, tags[i]) in bits[..k];
            TagAnswerKept(past, fins.Past(), from, i, tags[i], mid[i]);
          }
        }
      }
      assert bits[..|bits|] == bits;
    }

    lemma {:induction false} TagAnswerKept(h: History, later: History, from: nat, i: nat, tag: TagRequest,
                                           tv: Option<TagValue>)
      requires Extends(later, h) && TagAnswered(h, from, i, tag, tv)
      ensures TagAnswered(later, from, i, tag, tv)
    {
      if IsWordTag(tag) {
        AnswerKept(h, later, from, RequestFor(i, tag), tv);
      } else if tag.parsed.Ok? {
        var n: nat :|
          && from <= n < |h.log|
          && h.log[n] == BitCommand(RequestFor(i, tag))
          && tv == Some(BitAnswer(h, n, RequestFor(i, tag)));
        assert later.log[n] == BitCommand(RequestFor(i, tag));
      }
    }

    /**
      Reads all tags: the words of `words` as `groups`, then each of `bits` by
      itself. If the process survives the word reads, every slot answers its own
      tag; if not, it ends with the first command that panics.
     */
    method ReadBatchedWithTypes(tags: seq<TagRequest>)
      returns (ok: bool, results: array<Option<TagValue>>, ghost words: seq<WordRequest>, ghost bits: seq<WordRequest>,
               ghost groups: seq<ReadGroup>)
      modifies fins
      ensures fresh(results) && results.Length == |tags|
      ensures Collected(tags, |tags|, IsWordTag, words) && Collected(tags, |tags|, IsBitTag, bits)
      ensures AllTiled(groups) && Maximal(groups) && Sorting.Sorted(RequestsOf(groups), SortKey)
      ensures multiset(RequestsOf(groups)) == multiset(words)
      ensures ok <==> Safe(old(fins.Past()), StrategyCommands(old(fins.Past()), groups))
      ensures fins.log == old(fins.log) + Carried(old(fins.Past()), StrategyCommands(old(fins.Past()), groups))
                          + if ok then BitCommands(bits) else []
      ensures ok ==> forall i | 0 <= i < |tags| :: TagAnswered(fins.Past(), old(|fins.log|), i, tags[i], results[i])
    {
      ghost var from := |fins.log|;
      hide AllTiled, Maximal, StrategyCommands, BitCommands, RequestsOf, Safe, Carried;
      hide Collected, TagAnswered, AllAnswered, OthersKept, Slotted;
      results := new Option<TagValue>[|tags|](_ => None);
      var wordRequests, bitRequests := Classify(tags, results);
      words, bits, groups := wordRequests, bitRequests, [];
      ghost var classified := results[..];
      CollectedSlotted(tags, IsWordTag, words);
      ok := true;
      if |wordRequests| > 0 {
        var requests := new WordRequest[|wordRequests|](i requires 0 <= i < |wordRequests| => wordRequests[i]);
        assert requests[..] == words;
        ok, groups := ReadWordsBatched(requests, results);
      } else {
        NothingToRead(fins.Past(), groups);
        SafeNothing(fins.Past());
        NoWords(fins.Past(), from, words, results[..]);
      }
      if ok {
        WordsAnswered(fins.Past(), from, tags, words, classified, results[..]);
        ReadAllBits(bitRequests, tags, from, results);
      }
    }
  }

  function BitCommand(req: WordRequest): Sent {
    Sent(MEMORY_READ, ReadRequest(BitAreaFromWordArea(req.parsed.area), req.parsed.address,
                                  req.parsed.bitOffset, ToU16(req.parsed.count)))
  }

  function BitCommands(bits: seq<WordRequest>): (sent: seq<Sent>)
    ensures |sent| == |bits|
  {
    seq(|bits|, k requires 0 <= k < |bits| => BitCommand(bits[k]))
  }

  function BitWords(bits: seq<bool>): (ws: seq<U16>)
    ensures |ws| == |bits|
  {
    seq<U16>(|bits|, k requires 0 <= k < |bits| => (if bits[k] then 1 else 0) as U16)
  }

  function BitValue(req: WordRequest, bytes: seq<Byte>): TagValue {
    TagValue(req.address, if req.parsed.count > 1 then MakeArrayType(TYPE_BOOL) else TYPE_BOOL,
             req.parsed.count, bytes, None)
  }

  /** The answer to a bit request whose command was the `n`th: one word, 0 or 1, per bit. */
  function BitAnswer(h: History, n: nat, req: WordRequest): TagValue {
    match BitsReply(h.memory, h.outcome(n), BitAreaFromWordArea(req.parsed.area), req.parsed.address,
                    req.parsed.bitOffset, ToU16(req.parsed.count))
    case Err(e) => TagValue(req.address, TYPE_BOOL, req.parsed.count, [], Some(e))
    case Ok(bits) => BitValue(req, BeBytes(BitWords(bits)))
  }
}
