/**
  The connection manager as a state machine: two indexes, by O->T and by T->O
  id, over the connections opened so far. Invariants over every run of opens,
  closes, expirations and shutdowns.
 */
module ConnectionTable {
  import opened Bytes

  const RESERVED_ID: U32 := 0x2000_0002

  /** What identifies a connection to Forward_Close. */
  datatype Triad = Triad(serial: U16, vendor: U16, originator: U32)

  datatype Info = Info(ot: U32, to: U32, triad: Triad)

  /** Connections are numbered in the order they were opened. */
  datatype Table = Table(byOT: map<U32, nat>, byTO: map<U32, nat>, conns: seq<Info>, closed: set<nat>)

  const EMPTY := Table(map[], map[], [], {})

  datatype Event =
    | Open(info: Info)
    | Close(triad: Triad, found: Option<nat>)
    | Expire(connection: nat)
    | CloseAll

  function Remove(m: map<U32, nat>, key: U32): map<U32, nat> {
    map k | k in m && k != key :: m[k]
  }

  ghost predicate Matches(t: Table, triad: Triad, c: nat) {
    c < |t.conns| && t.conns[c].triad == triad && exists k :: k in t.byOT && t.byOT[k] == c
  }

  /** Opened and not closed. */
  function Live(t: Table): set<nat> {
    set c: nat | c < |t.conns| && c !in t.closed
  }

  /** What each event needs: a fresh T->O id, the match the scan of `byOT` came upon, a running producer. */
  ghost predicate Enabled(t: Table, e: Event) {
    match e
    case Open(info) => info.to != 0 && info.to != RESERVED_ID && info.to !in t.byTO
    case Close(triad, found) => if found.Some? then Matches(t, triad, found.value) else forall c :: !Matches(t, triad, c)
    case Expire(c) => c in Live(t)
    case CloseAll => true
  }

  function Drop(t: Table, c: nat): Table
    requires c < |t.conns|
  {
    t.(byOT := Remove(t.byOT, t.conns[c].ot), byTO := Remove(t.byTO, t.conns[c].to), closed := t.closed + {c})
  }

  function Step(t: Table, e: Event): Table
    requires e.Close? && e.found.Some? ==> e.found.value < |t.conns|
    requires e.Expire? ==> e.connection < |t.conns|
  {
    match e
    case Open(info) =>
      var c := |t.conns|;
      t.(byOT := t.byOT[info.ot := c], byTO := t.byTO[info.to := c], conns := t.conns + [info])
    case Close(_, found) => if found.Some? then Drop(t, found.value) else t
    case Expire(c) => Drop(t, c)
    case CloseAll => t.(byOT := map[], byTO := map[], closed := t.closed + t.byOT.Values)
  }

  /** The table after a run from the empty table, if every event was enabled. */
  ghost function After(run: seq<Event>): Option<Table> {
    if run == [] then Some(EMPTY) else
      var before := After(run[..|run| - 1]);
      var e := run[|run| - 1];
      if before.Some? && Enabled(before.value, e) then Some(Step(before.value, e)) else None
  }

  ghost predicate Reached(run: seq<Event>, t: Table) {
    After(run) == Some(t)
  }

  // ---------------------------------------------------------------- invariants

  /** Keys are the connections' own ids, and nothing indexed is closed. */
  ghost predicate Keyed(t: Table) {
    && (forall k | k in t.byOT :: t.byOT[k] in Live(t) && t.conns[t.byOT[k]].ot == k)
    && (forall k | k in t.byTO :: t.byTO[k] in Live(t) && t.conns[t.byTO[k]].to == k)
    && (forall c | c in t.closed :: c < |t.conns|)
  }

  /** Every connection found by its O->T id is also found by its T->O id. */
  ghost predicate Covered(t: Table) {
    forall k | k in t.byOT ::
      var c := t.byOT[k]; c < |t.conns| && t.conns[c].to in t.byTO && t.byTO[t.conns[c].to] == c
  }

  /** Every live connection is found by its T->O id. */
  ghost predicate AllByTO(t: Table) {
    forall c | c in Live(t) :: t.conns[c].to in t.byTO && t.byTO[t.conns[c].to] == c
  }

  /** Every live connection is found by its O->T id. */
  ghost predicate AllByOT(t: Table) {
    forall c | c in Live(t) :: t.conns[c].ot in t.byOT && t.byOT[t.conns[c].ot] == c
  }

  /** Both indexes hold exactly the connections opened and not yet closed. */
  ghost predicate Exact(t: Table) {
    Keyed(t) && AllByOT(t) && AllByTO(t)
  }

  lemma {:induction false} KeyedStep(t: Table, e: Event)
    requires Keyed(t) && Enabled(t, e)
    ensures Keyed(Step(t, e))
  {
    var u := Step(t, e);
    forall k | k in u.byOT
      ensures u.byOT[k] in Live(u) && u.conns[u.byOT[k]].ot == k
    {
      assert k in t.byOT || (e.Open? && k == e.info.ot);
    }
    forall k | k in u.byTO
      ensures u.byTO[k] in Live(u) && u.conns[u.byTO[k]].to == k
    {
      assert k in t.byTO || (e.Open? && k == e.info.to);
    }
  }

  /** A shutdown leaves nothing open exactly when no live connection is missing from the O->T index. */
  lemma {:induction false} CloseAllLeavesNothing(t: Table)
    requires Keyed(t)
    ensures Live(Step(t, CloseAll)) == {} <==> AllByOT(t)
  {
    var u := Step(t, CloseAll);
    if AllByOT(t) {
      forall c | c in Live(t)
        ensures c in t.byOT.Values
      {
        assert t.conns[c].ot in t.byOT;
      }
    }
    if Live(u) == {} {
      forall c | c in Live(t)
        ensures t.conns[c].ot in t.byOT && t.byOT[t.conns[c].ot] == c
      {
        assert c !in Live(u) && c in t.byOT.Values;
        var k :| k in t.byOT && t.byOT[k] == c;
      }
    }
  }

  lemma {:induction false} AllByTOStep(t: Table, e: Event)
    requires Keyed(t) && AllByTO(t) && Enabled(t, e)
    requires e.CloseAll? ==> AllByOT(t)
    ensures AllByTO(Step(t, e))
  {
    if e.CloseAll? {
      CloseAllLeavesNothing(t);
    } else {
      var u := Step(t, e);
      forall c | c in Live(u)
        ensures u.conns[c].to in u.byTO && u.byTO[u.conns[c].to] == c
      {
        assert c in Live(t) || e.Open?;
      }
    }
  }

  lemma {:induction false} AllByOTStep(t: Table, e: Event)
    requires Keyed(t) && AllByOT(t) && Enabled(t, e)
    requires e.Open? ==> e.info.ot !in t.byOT
    ensures AllByOT(Step(t, e))
  {
    if e.CloseAll? {
      CloseAllLeavesNothing(t);
    } else {
      var u := Step(t, e);
      forall c | c in Live(u)
        ensures u.conns[c].ot in u.byOT && u.byOT[u.conns[c].ot] == c
      {
        assert c in Live(t) || e.Open?;
      }
    }
  }

  /** In every reachable state, whatever ids the scanners choose, the indexes hold live connections under their own ids. */
  lemma {:induction false} KeyedAlways(run: seq<Event>, t: Table)
    requires Reached(run, t)
    ensures Keyed(t)
  {
    if run != [] {
      var before := After(run[..|run| - 1]).value;
      KeyedAlways(run[..|run| - 1], before);
      KeyedStep(before, run[|run| - 1]);
    }
  }

  /** This shutdown left a live connection behind that only the T->O index knew. */
  ghost predicate Leaks(run: seq<Event>, n: nat)
    requires n < |run|
  {
    run[n].CloseAll? && After(run[..n]).Some? && !AllByOT(After(run[..n]).value)
  }

  ghost predicate LeaksBefore(run: seq<Event>, n: nat)
    requires n <= |run|
  {
    exists k | 0 <= k < n :: Leaks(run, k)
  }

  /** Nothing is opened after a shutdown that left a connection behind. */
  ghost predicate NoOpenAfterLeak(run: seq<Event>) {
    forall n | 0 <= n < |run| :: run[n].Open? ==> !LeaksBefore(run, n)
  }

  lemma {:induction false} LeaksPrefix(run: seq<Event>, n: nat)
    requires n < |run|
    ensures LeaksBefore(run[..|run| - 1], n) == LeaksBefore(run, n)
    ensures n < |run| - 1 ==> Leaks(run[..|run| - 1], n) == Leaks(run, n)
  {
    forall k | 0 <= k < |run| - 1
      ensures Leaks(run[..|run| - 1], k) == Leaks(run, k)
    {
      assert run[..|run| - 1][..k] == run[..k];
    }
    if LeaksBefore(run, n) {
      var k :| 0 <= k < n && Leaks(run, k);
      assert Leaks(run[..|run| - 1], k);
    }
    if LeaksBefore(run[..|run| - 1], n) {
      var k :| 0 <= k < n && Leaks(run[..|run| - 1], k);
      assert Leaks(run, k);
    }
  }

  /** Until such a shutdown the T->O index holds every live connection; after it both indexes stay empty. */
  lemma {:induction false} CoverageInvariant(run: seq<Event>, t: Table)
    requires Reached(run, t) && NoOpenAfterLeak(run)
    ensures AllByTO(t) || (t.byOT == map[] && t.byTO == map[] && LeaksBefore(run, |run|))
  {
    if run != [] {
      var init, e := run[..|run| - 1], run[|run| - 1];
      var before := After(init).value;
      forall n | 0 <= n < |init|
        ensures init[n].Open? ==> !LeaksBefore(init, n)
      {
        LeaksPrefix(run, n);
        assert init[n] == run[n];
      }
      CoverageInvariant(init, before);
      KeyedAlways(init, before);
      LeaksPrefix(run, |run| - 1);
      if LeaksBefore(init, |init|) {
        assert LeaksBefore(run, |run| - 1) && LeaksBefore(run, |run|);
        assert !e.Open?;
      }
      if AllByTO(before) && (e.CloseAll? ==> AllByOT(before)) {
        AllByTOStep(before, e);
      } else if e.CloseAll? {
        assert AllByOT(before) || Leaks(run, |run| - 1);
      }
    }
  }

  /** Whatever ids the scanners choose, a connection found by its O->T id is also found by its T->O id. */
  lemma {:induction false} CoveredAlways(run: seq<Event>, t: Table)
    requires Reached(run, t) && NoOpenAfterLeak(run)
    ensures Covered(t)
  {
    CoverageInvariant(run, t);
    KeyedAlways(run, t);
  }

  /**
    Without that condition it is not so: the leaked connection's producer
    expires and takes the entry of a newer connection with the same T->O id.
   */
  lemma {:induction false} CoverageLost() returns (run: seq<Event>, t: Table)
    ensures Reached(run, t) && !Covered(t)
  {
    var triad := Triad(1, 1, 1);
    var a, b, c := Info(1, 5, triad), Info(1, 6, triad), Info(2, 5, triad);
    var r1, r2, r3, r4 := [Open(a)], [Open(a), Open(b)], [Open(a), Open(b), CloseAll], [Open(a), Open(b), CloseAll, Open(c)];
    run := [Open(a), Open(b), CloseAll, Open(c), Expire(0)];
    var t1 := Step(EMPTY, Open(a));
    var t2 := Step(t1, Open(b));
    var t3 := Step(t2, CloseAll);
    var t4 := Step(t3, Open(c));
    assert r1[..0] == [] && r2[..1] == r1 && r3[..2] == r2 && r4[..3] == r3 && run[..4] == r4;
    assert After(r1) == Some(t1);
    assert After(r2) == Some(t2);
    assert After(r3) == Some(t3);
    assert After(r4) == Some(t4);
    assert t2.byOT == map[1 := 1] && 1 in t2.byOT && t2.byOT.Values == {1};
    assert t3.closed == {1} && 0 in Live(t4);
    t := Step(t4, Expire(0));
    assert 2 in t.byOT && t.byOT[2] == 2 && 5 !in t.byTO;
  }

  /** The connection that holds the T->O entry of `c` is in the O->T index under no id but that of `c`. */
  ghost predicate ExpiresCleanly(t: Table, c: nat)
    requires c < |t.conns|
  {
    t.conns[c].to in t.byTO ==>
      forall k | k in t.byOT && t.byOT[k] == t.byTO[t.conns[c].to] :: k == t.conns[c].ot
  }

  /** One expiry keeps the coverage exactly when it takes no other connection's T->O entry from it. */
  lemma {:induction false} ExpireKeepsCoverage(t: Table, c: nat)
    requires Keyed(t) && Covered(t) && Enabled(t, Expire(c))
    ensures Covered(Step(t, Expire(c))) <==> ExpiresCleanly(t, c)
  {
    var u := Step(t, Expire(c));
    var to, ot := t.conns[c].to, t.conns[c].ot;
    if to in t.byTO {
      forall k | k in t.byOT && t.byOT[k] == t.byTO[to] && k != ot
        ensures !Covered(u)
      {
        assert k in u.byOT && u.byOT[k] == t.byTO[to];
      }
    }
    if ExpiresCleanly(t, c) {
      forall k | k in u.byOT
        ensures u.conns[u.byOT[k]].to in u.byTO && u.byTO[u.conns[u.byOT[k]].to] == u.byOT[k]
      {
        assert k in t.byOT && k != ot;
      }
    }
  }

  /** No other event can lose it. */
  lemma {:induction false} OthersKeepCoverage(t: Table, e: Event)
    requires Keyed(t) && Covered(t) && Enabled(t, e) && !e.Expire?
    ensures Covered(Step(t, e))
  {
    var u := Step(t, e);
    forall k | k in u.byOT
      ensures u.byOT[k] < |u.conns|
      ensures u.conns[u.byOT[k]].to in u.byTO && u.byTO[u.conns[u.byOT[k]].to] == u.byOT[k]
    {
      if e.Close? && e.found.Some? {
        var own :| own in t.byOT && t.byOT[own] == e.found.value;
        assert k in t.byOT && k != own;
      } else {
        assert k in t.byOT || (e.Open? && k == e.info.ot);
      }
    }
  }

  /** Every expiry of a run is clean. */
  ghost predicate CleanExpiries(run: seq<Event>) {
    forall n | 0 <= n < |run| && run[n].Expire? && After(run[..n]).Some? ::
      run[n].connection < |After(run[..n]).value.conns| ==> ExpiresCleanly(After(run[..n]).value, run[n].connection)
  }

  /** After every step of a run the coverage holds. */
  ghost predicate CoveredThroughout(run: seq<Event>) {
    forall n | 0 <= n <= |run| :: After(run[..n]).Some? && Covered(After(run[..n]).value)
  }

  lemma {:induction false} CoveredLast(run: seq<Event>)
    requires run != []
    ensures CoveredThroughout(run) <==>
              CoveredThroughout(run[..|run| - 1]) && After(run).Some? && Covered(After(run).value)
  {
    hide Covered, After;
    var init := run[..|run| - 1];
    assert run[..|run|] == run;
    assert forall n | 0 <= n < |run| :: init[..n] == run[..n];
  }

  /** The last event is no expiry, or a clean one. */
  ghost predicate LastIsClean(run: seq<Event>)
    requires run != []
  {
    var e, before := run[|run| - 1], After(run[..|run| - 1]);
    e.Expire? && before.Some? && e.connection < |before.value.conns| ==> ExpiresCleanly(before.value, e.connection)
  }

  lemma {:induction false} CleanLast(run: seq<Event>)
    requires run != []
    ensures CleanExpiries(run) <==> CleanExpiries(run[..|run| - 1]) && LastIsClean(run)
  {
    hide ExpiresCleanly, After;
    var init := run[..|run| - 1];
    assert forall n | 0 <= n < |run| :: init[..n] == run[..n];
    assert forall n | 0 <= n < |init| :: init[n] == run[n];
  }

  /** Over every run: the coverage is never lost if and only if each connection that expires expires cleanly. */
  lemma {:induction false} CoveredIffClean(run: seq<Event>, t: Table)
    requires Reached(run, t)
    ensures CoveredThroughout(run) <==> CleanExpiries(run)
  {
    hide Covered, ExpiresCleanly, Keyed, Enabled, Step, CleanExpiries, CoveredThroughout;
    if run == [] {
      EmptyIsCovered(run);
    } else {
      var init, e := run[..|run| - 1], run[|run| - 1];
      var before := After(init).value;
      CoveredIffClean(init, before);
      KeyedAlways(init, before);
      CoveredLast(run);
      CleanLast(run);
      CoveredAtEnd(init);
      if CoveredThroughout(init) {
        StepCoverage(before, e);
      }
    }
  }

  lemma {:induction false} EmptyIsCovered(run: seq<Event>)
    requires run == []
    ensures CoveredThroughout(run) && CleanExpiries(run)
  {
  }

  lemma {:induction false} CoveredAtEnd(run: seq<Event>)
    ensures CoveredThroughout(run) ==> After(run).Some? && Covered(After(run).value)
  {
    assert run[..|run|] == run;
  }

  lemma {:induction false} StepCoverage(t: Table, e: Event)
    requires Keyed(t) && Covered(t) && Enabled(t, e)
    ensures Covered(Step(t, e)) <==> (e.Expire? && e.connection < |t.conns| ==> ExpiresCleanly(t, e.connection))
  {
    if e.Expire? {
      ExpireKeepsCoverage(t, e.connection);
    } else {
      OthersKeepCoverage(t, e);
    }
  }

  /** Which events make an O->T id unknown. */
  predicate Forgets(t: Table, e: Event, ot: U32)
    requires e.Close? && e.found.Some? ==> e.found.value < |t.conns|
    requires e.Expire? ==> e.connection < |t.conns|
  {
    match e
    case Open(_) => false
    case Close(_, found) => found.Some? && t.conns[found.value].ot == ot
    case Expire(c) => t.conns[c].ot == ot
    case CloseAll => true
  }

  /**
    An O->T id in use is still known after an event unless the event closed a
    connection under it: in particular Forward_Close makes its own connection's
    id unknown.
   */
  lemma {:induction false} KnownUnlessForgotten(t: Table, e: Event, ot: U32)
    requires Keyed(t) && Enabled(t, e) && ot in t.byOT
    ensures ot in Step(t, e).byOT <==> !Forgets(t, e, ot)
    ensures e.Close? && e.found == Some(t.byOT[ot]) ==> ot !in Step(t, e).byOT
  {
    if e.Open? {
      assert ot in t.byOT[e.info.ot := |t.conns|];
    }
  }

  // ---------------------------------------------------------------- distinct O->T ids

  /** Every Forward_Open in the run brought an O->T id that was not in use. */
  ghost predicate FreshOT(run: seq<Event>) {
    forall n | 0 <= n < |run| ::
      run[n].Open? && After(run[..n]).Some? ==> run[n].info.ot !in After(run[..n]).value.byOT
  }

  function Opens(run: seq<Event>): nat {
    if run == [] then 0 else Opens(run[..|run| - 1]) + if run[|run| - 1].Open? then 1 else 0
  }

  /** Reference: the connections opened and not yet closed, from the events alone. */
  function Alive(run: seq<Event>): set<nat> {
    if run == [] then {} else
      var before, e := Alive(run[..|run| - 1]), run[|run| - 1];
      match e
      case Open(_) => before + {Opens(run[..|run| - 1])}
      case Close(_, found) => if found.Some? then before - {found.value} else before
      case Expire(c) => before - {c}
      case CloseAll => {}
  }

  lemma {:induction false} ExactStep(t: Table, e: Event)
    requires Exact(t) && Enabled(t, e)
    requires e.Open? ==> e.info.ot !in t.byOT
    ensures Exact(Step(t, e))
    ensures e.CloseAll? ==> Live(Step(t, e)) == {}
  {
    KeyedStep(t, e);
    AllByOTStep(t, e);
    AllByTOStep(t, e);
    if e.CloseAll? {
      CloseAllLeavesNothing(t);
    }
  }

  /** With distinct O->T ids both indexes hold exactly the connections opened and not yet closed. */
  lemma {:induction false} IndexesAreExact(run: seq<Event>, t: Table)
    requires Reached(run, t) && FreshOT(run)
    ensures Exact(t) && |t.conns| == Opens(run)
    ensures t.byOT.Values == t.byTO.Values == Live(t) == Alive(run)
  {
    if run != [] {
      var init, e := run[..|run| - 1], run[|run| - 1];
      var before := After(init).value;
      forall n | 0 <= n < |init|
        ensures init[n].Open? && After(init[..n]).Some? ==> init[n].info.ot !in After(init[..n]).value.byOT
      {
        assert init[..n] == run[..n] && init[n] == run[n];
      }
      IndexesAreExact(init, before);
      ExactStep(before, e);
      LiveStep(before, e);
    }
    ExactValues(t);
  }

  lemma {:induction false} ExactValues(t: Table)
    requires Exact(t)
    ensures t.byOT.Values == t.byTO.Values == Live(t)
  {
    forall c | c in Live(t)
      ensures c in t.byOT.Values && c in t.byTO.Values
    {
      assert t.conns[c].ot in t.byOT && t.conns[c].to in t.byTO;
    }
  }

  lemma {:induction false} LiveStep(t: Table, e: Event)
    requires Exact(t) && Enabled(t, e)
    ensures match e
            case Open(_) => Live(Step(t, e)) == Live(t) + {|t.conns|}
            case Close(_, found) => Live(Step(t, e)) == if found.Some? then Live(t) - {found.value} else Live(t)
            case Expire(c) => Live(Step(t, e)) == Live(t) - {c}
            case CloseAll => Live(Step(t, e)) == {}
  {
    if e.CloseAll? {
      CloseAllLeavesNothing(t);
    }
  }

  /** Forward_Close takes exactly one open connection with its triad, if there is one, and nothing else. */
  lemma {:induction false} CloseTakesOne(t: Table, triad: Triad, found: Option<nat>)
    requires Exact(t) && Enabled(t, Close(triad, found))
    ensures found.Some? <==> exists c :: c in Live(t) && t.conns[c].triad == triad
    ensures found.Some? ==> found.value in Live(t) && t.conns[found.value].triad == triad
    ensures Live(Step(t, Close(triad, found))) == if found.Some? then Live(t) - {found.value} else Live(t)
  {
    if c :| c in Live(t) && t.conns[c].triad == triad {
      assert t.byOT[t.conns[c].ot] == c;
      assert Matches(t, triad, c);
    }
  }
}
