/**
  Sessions of the adapter's TCP server: many connections, one table of session
  handles, frames interleaved in any order. What gates a CIP request, and what
  the table holds.
 */
module Sessions {
  import opened Bytes
  import opened Encapsulation
  import ConnectionTable

  // Encapsulation commands.
  const NOP: U16 := 0x00
  const LIST_SERVICES: U16 := 0x04
  const LIST_IDENTITY: U16 := 0x63
  const LIST_INTERFACES: U16 := 0x64
  const REGISTER_SESSION: U16 := 0x65
  const UNREGISTER_SESSION: U16 := 0x66
  const SEND_RR_DATA: U16 := 0x6F
  const SEND_UNIT_DATA: U16 := 0x70

  const STATUS_SUCCESS: U32 := 0
  const STATUS_INVALID_COMMAND: U32 := 1
  const STATUS_INVALID_DATA: U32 := 3
  const STATUS_INVALID_SESSION: U32 := 0x64
  const STATUS_INVALID_LENGTH: U32 := 0x65
  const STATUS_UNSUPPORTED_REV: U32 := 0x69

  const UNCONNECTED_MESSAGE: U16 := 0xB2
  const ADDRESS_CONNECTION: U16 := 0xA1
  const CONNECTED_PACKET: U16 := 0xB1

  /** What the server does with one frame. */
  datatype Action =
    | Ignore
    | Reply(status: U32)
    | Grant
    | Deny(status: U32)
    | Leave
    | Dispatch(request: seq<Byte>)
    | Crash(dispatched: Option<seq<Byte>>) // a run-time panic ends the process, after dispatching this request if any

  // ---------------------------------------------------------------- requests inside frames

  function FirstUnconnected(items: seq<Item>): Option<seq<Byte>> {
    if items == [] then None
    else if items[0].typeId == UNCONNECTED_MESSAGE then Some(items[0].data)
    else FirstUnconnected(items[1..])
  }

  /** Connection id and request of a connected message; later items win. */
  datatype Connected = Connected(connID: U32, request: Option<seq<Byte>>)

  function GatherConnected(items: seq<Item>): Connected {
    if items == [] then Connected(0, None) else
      var c, item := GatherConnected(items[..|items| - 1]), items[|items| - 1];
      if item.typeId == ADDRESS_CONNECTION && |item.data| >= 4 then c.(connID := GetLe32(item.data, 0))
      else if item.typeId == CONNECTED_PACKET && |item.data| >= 2 then c.(request := Some(item.data[2..]))
      else c
  }

  /** The items inside a frame's data, if they can be read without a panic. */
  datatype Items = Unreadable | Panic | Items(items: seq<Item>)

  function ItemsOf(data: seq<Byte>): Items {
    var cpf := ParseRRData(data);
    if cpf.None? then Unreadable else
      match ParsePacket(cpf.value)
      case Ok(items) => Items(items)
      case Err(OutOfRange(_)) => Panic
      case Err(_) => Unreadable
  }

  function OnRRData(f: Frame): Action {
    match ItemsOf(f.data)
    case Unreadable => Reply(STATUS_INVALID_DATA)
    case Panic => Crash(None)
    case Items(items) =>
      var request := FirstUnconnected(items);
      if request.None? then Reply(STATUS_INVALID_DATA) else Dispatch(request.value)
  }

  /**
    The connection is looked up twice, before and after the dispatch; the second
    time nothing checks that it is still there.
   */
  function OnUnitData(f: Frame, known: set<U32>, still: set<U32>): Action {
    match ItemsOf(f.data)
    case Unreadable => Ignore
    case Panic => Crash(None)
    case Items(items) =>
      var c := GatherConnected(items);
      if c.request.None? || c.connID !in known then Ignore
      else if c.connID !in still then Crash(c.request)
      else Dispatch(c.request.value)
  }

  function OnRegister(f: Frame): Action {
    if |f.data| < 4 then Deny(STATUS_INVALID_LENGTH)
    else if GetLe16(f.data, 0) != 1 then Deny(STATUS_UNSUPPORTED_REV)
    else Grant
  }

  predicate AllowedWithoutSession(command: U16) {
    command in {REGISTER_SESSION, LIST_IDENTITY, NOP, LIST_SERVICES, LIST_INTERFACES}
  }

  /**
    What becomes of a frame on a connection whose session is `local`, 0 for
    none. The O->T ids in use are `known` when it arrives and `still` once its
    request has been dispatched.
   */
  function Decide(local: U32, f: Frame, known: set<U32>, still: set<U32>): Action {
    if local == 0 && !AllowedWithoutSession(f.command) then Reply(STATUS_INVALID_SESSION)
    else if f.session != 0 && local != 0 && f.session != local then Reply(STATUS_INVALID_SESSION)
    else if f.command == NOP then Ignore
    else if f.command == REGISTER_SESSION then OnRegister(f)
    else if f.command == UNREGISTER_SESSION then Leave
    else if f.command in {LIST_SERVICES, LIST_IDENTITY, LIST_INTERFACES} then Reply(STATUS_SUCCESS)
    else if f.command == SEND_RR_DATA then OnRRData(f)
    else if f.command == SEND_UNIT_DATA then OnUnitData(f, known, still)
    else Reply(STATUS_INVALID_COMMAND)
  }

  // ---------------------------------------------------------------- state machine

  datatype Local = Local(session: U32, open: bool)

  /** Handles by their connection; connections by number; what happened so far. */
  datatype Server = Server(table: map<U32, nat>, locals: seq<Local>, log: seq<Entry>, crashed: bool)

  datatype Entry =
    | Granted(connection: nat, handle: U32)
    | Denied(connection: nat)
    | Requested(connection: nat, session: U32, request: seq<Byte>)

  const EMPTY := Server(map[], [], [], false)

  /** A new connection; a frame, with the handle drawn if one is granted; a broken connection; a shutdown seen by it. */
  datatype Event =
    | Accept
    | Receive(connection: nat, frame: Frame, known: set<U32>, still: set<U32>, drawn: U32)
    | HangUp(connection: nat)
    | Stop(connection: nat)

  predicate IsOpen(s: Server, c: nat) {
    c < |s.locals| && s.locals[c].open
  }

  /** Nothing happens after a crash, only an open connection does anything, and a granted handle is fresh and not zero. */
  predicate Enabled(s: Server, e: Event) {
    !s.crashed &&
    match e
    case Accept => true
    case Receive(c, f, known, still, drawn) =>
      IsOpen(s, c) && (Decide(s.locals[c].session, f, known, still).Grant? ==> drawn != 0 && drawn !in s.table)
    case HangUp(c) => IsOpen(s, c)
    case Stop(c) => IsOpen(s, c)
  }

  function Forget(table: map<U32, nat>, handle: U32): map<U32, nat> {
    map h | h in table && h != handle :: table[h]
  }

  /** The connection ends and takes its session out of the table. */
  function Ended(s: Server, c: nat): Server
    requires IsOpen(s, c)
  {
    s.(table := if s.locals[c].session != 0 then Forget(s.table, s.locals[c].session) else s.table,
       locals := s.locals[c := s.locals[c].(open := false)])
  }

  function Received(s: Server, c: nat, f: Frame, known: set<U32>, still: set<U32>, drawn: U32): Server
    requires IsOpen(s, c)
  {
    match Decide(s.locals[c].session, f, known, still)
    case Grant =>
      s.(table := s.table[drawn := c], locals := s.locals[c := Local(drawn, true)], log := s.log + [Granted(c, drawn)])
    case Deny(_) => s.(locals := s.locals[c := Local(0, true)], log := s.log + [Denied(c)])
    case Leave => Ended(s, c)
    case Dispatch(request) => s.(log := s.log + [Requested(c, f.session, request)])
    case Crash(None) => s.(crashed := true)
    case Crash(Some(request)) => s.(log := s.log + [Requested(c, f.session, request)], crashed := true)
    case _ => s
  }

  function Step(s: Server, e: Event): Server
    requires Enabled(s, e)
  {
    match e
    case Accept => s.(locals := s.locals + [Local(0, true)])
    case Receive(c, f, known, still, drawn) => Received(s, c, f, known, still, drawn)
    case HangUp(c) => Ended(s, c)
    case Stop(c) => s.(locals := s.locals[c := s.locals[c].(open := false)])
  }

  /** The server after a run, if every event was enabled. */
  function After(run: seq<Event>): Option<Server> {
    if run == [] then Some(EMPTY) else
      var before, e := After(run[..|run| - 1]), run[|run| - 1];
      if before.Some? && Enabled(before.value, e) then Some(Step(before.value, e)) else None
  }

  // ---------------------------------------------------------------- safety

  /** The handle the latest RegisterSession on a connection granted; 0 if it failed or there was none. */
  function LatestRegistration(log: seq<Entry>, c: nat): U32 {
    if log == [] then 0 else
      match log[|log| - 1]
      case Granted(d, handle) => if d == c then handle else LatestRegistration(log[..|log| - 1], c)
      case Denied(d) => if d == c then 0 else LatestRegistration(log[..|log| - 1], c)
      case _ => LatestRegistration(log[..|log| - 1], c)
  }

  /** After this log a connection may send requests under this handle. */
  predicate MayRequest(log: seq<Entry>, c: nat, session: U32) {
    var own := LatestRegistration(log, c);
    own != 0 && session in {0, own}
  }

  /** Every request handed to the dispatcher came in a registered session, under its handle or none. */
  ghost predicate RequestsGated(log: seq<Entry>) {
    forall n | 0 <= n < |log| && log[n].Requested? :: MayRequest(log[..n], log[n].connection, log[n].session)
  }

  /** Sessions are what the log says, and an open session is in the table for its own connection. */
  ghost predicate Invariant(s: Server) {
    && (forall c | 0 <= c < |s.locals| :: s.locals[c].session == LatestRegistration(s.log, c))
    && (forall c | 0 <= c < |s.locals| && s.locals[c].open && s.locals[c].session != 0 ::
          s.locals[c].session in s.table && s.table[s.locals[c].session] == c)
    && (forall h | h in s.table :: h != 0 && s.table[h] < |s.locals|)
    && (forall c: nat | c >= |s.locals| :: LatestRegistration(s.log, c) == 0)
    && RequestsGated(s.log)
  }

  lemma {:induction false} LogAppend(log: seq<Entry>, entry: Entry)
    ensures forall c :: LatestRegistration(log + [entry], c) ==
              match entry {
                case Granted(d, handle) => if d == c then handle else LatestRegistration(log, c)
                case Denied(d) => if d == c then 0 else LatestRegistration(log, c)
                case _ => LatestRegistration(log, c)
              }
    ensures RequestsGated(log) && (entry.Requested? ==> MayRequest(log, entry.connection, entry.session)) ==>
              RequestsGated(log + [entry])
  {
    var longer := log + [entry];
    assert longer[..|longer| - 1] == log;
    forall n | 0 <= n < |log|
      ensures longer[..n] == log[..n] && longer[n] == log[n]
    {
    }
  }

  /** A request is dispatched only with a session, and the frame names it or none. */
  lemma {:induction false} DispatchNeedsSession(local: U32, f: Frame, known: set<U32>, still: set<U32>)
    requires Decide(local, f, known, still).Dispatch? || Decide(local, f, known, still).Crash?
    ensures local != 0 && f.session in {0, local}
  {
  }

  lemma {:induction false} InvariantStep(s: Server, e: Event)
    requires Invariant(s) && Enabled(s, e)
    ensures Invariant(Step(s, e))
  {
    hide Decide, RequestsGated;
    if e.Receive? {
      var c, local := e.connection, s.locals[e.connection].session;
      match Decide(local, e.frame, e.known, e.still)
      case Grant => LogAppend(s.log, Granted(c, e.drawn));
      case Deny(_) => LogAppend(s.log, Denied(c));
      case Dispatch(request) =>
        DispatchNeedsSession(local, e.frame, e.known, e.still);
        LogAppend(s.log, Requested(c, e.frame.session, request));
      case Crash(Some(request)) =>
        DispatchNeedsSession(local, e.frame, e.known, e.still);
        LogAppend(s.log, Requested(c, e.frame.session, request));
      case _ =>
    }
  }

  lemma {:induction false} InvariantAlways(run: seq<Event>, s: Server)
    requires After(run) == Some(s)
    ensures Invariant(s)
  {
    if run == [] {
      assert EMPTY.log == [];
    } else {
      var before := After(run[..|run| - 1]).value;
      InvariantAlways(run[..|run| - 1], before);
      InvariantStep(before, run[|run| - 1]);
    }
  }

  /**
    In every reachable state each dispatched request came after a successful
    registration that no later one on its connection undid, under that handle
    or none; live sessions are in the table for their own connections, and no
    two of them share a handle.
   */
  lemma {:induction false} SessionSafety(run: seq<Event>, s: Server)
    requires After(run) == Some(s)
    ensures RequestsGated(s.log)
    ensures forall c: nat | IsOpen(s, c) && s.locals[c].session != 0 ::
              s.locals[c].session in s.table && s.table[s.locals[c].session] == c
    ensures forall c: nat, d: nat | IsOpen(s, c) && IsOpen(s, d) && c != d && s.locals[c].session != 0 ::
              s.locals[c].session != s.locals[d].session
  {
    InvariantAlways(run, s);
  }

  // ---------------------------------------------------------------- crashes

  /** The connection a connected message is for, and its request. */
  function ConnectedMessage(f: Frame): Option<Connected> {
    match ItemsOf(f.data)
    case Items(items) => var c := GatherConnected(items); if c.request.Some? then Some(c) else None
    case _ => None
  }

  /**
    A frame ends the process exactly when, in a session of its own, it carries
    a packet that makes the packet parser panic, or a connected message whose
    connection disappears while its request is dispatched. Without a session
    no frame can.
   */
  lemma {:induction false} CrashesExactly(local: U32, f: Frame, known: set<U32>, still: set<U32>)
    ensures Decide(local, f, known, still).Crash? <==>
              && local != 0 && f.session in {0, local}
              && (|| (f.command in {SEND_RR_DATA, SEND_UNIT_DATA} && |f.data| >= 6 && Panics(f.data[6..]))
                  || (f.command == SEND_UNIT_DATA && ConnectedMessage(f).Some?
                      && ConnectedMessage(f).value.connID in known - still))
  {
    hide ParsePacket, FirstUnconnected, GatherConnected;
  }

  /**
    A connected message dispatched while one event of the connection table
    takes place: the process survives exactly when the event closes no
    connection under the message's id. A Forward_Close of a connection sent
    over that connection is such an event.
   */
  lemma {:induction false} ClosedUnderway(t: ConnectionTable.Table, e: ConnectionTable.Event, local: U32, f: Frame)
    requires ConnectionTable.Keyed(t) && ConnectionTable.Enabled(t, e)
    requires f.command == SEND_UNIT_DATA && Decide(local, f, t.byOT.Keys, t.byOT.Keys).Dispatch?
    ensures var request := Decide(local, f, t.byOT.Keys, t.byOT.Keys).request;
            Decide(local, f, t.byOT.Keys, ConnectionTable.Step(t, e).byOT.Keys) ==
            if ConnectionTable.Forgets(t, e, ConnectedMessage(f).value.connID) then Crash(Some(request))
            else Dispatch(request)
    ensures e.Close? && e.found == Some(t.byOT[ConnectedMessage(f).value.connID]) ==>
              ConnectionTable.Forgets(t, e, ConnectedMessage(f).value.connID)
  {
    hide ParsePacket, GatherConnected, ConnectionTable.Step;
    ConnectionTable.KnownUnlessForgotten(t, e, ConnectedMessage(f).value.connID);
  }

  // ---------------------------------------------------------------- implementation

  class TcpServer {
    var table: map<U32, nat>
    var locals: seq<Local>
    ghost var log: seq<Entry>
    ghost var crashed: bool

    constructor ()
      ensures State() == EMPTY
    {
      table, locals, log, crashed := map[], [], [], false;
    }

    ghost function State(): Server
      reads this
    {
      Server(table, locals, log, crashed)
    }

    /** The first non-zero draw not in use. `luck` bounds how long the draws may be unusable. */
    method Register(c: nat, draws: nat -> U32, ghost luck: nat) returns (handle: U32)
      requires draws(luck) != 0 && draws(luck) !in table
      modifies this`table
      ensures handle != 0 && handle !in old(table) && table == old(table)[handle := c]
    {
      var n := 0;
      handle := draws(n);
      while handle == 0 || handle in table
        invariant n <= luck && handle == draws(n)
        decreases luck - n
      {
        n := n + 1;
        handle := draws(n);
      }
      table := table[handle := c];
    }

    method Accept()
      requires !crashed
      modifies this
      ensures State() == Step(old(State()), Event.Accept)
    {
      locals := locals + [Local(0, true)];
    }

    /** Handles one frame on connection `c`; the process does not outlive a `Crash`. */
    method HandleFrame(c: nat, f: Frame, known: set<U32>, still: set<U32>, draws: nat -> U32, ghost luck: nat)
      returns (action: Action, ghost drawn: U32)
      requires !crashed && IsOpen(State(), c) && draws(luck) != 0 && draws(luck) !in table
      modifies this
      ensures action == Decide(old(locals[c].session), f, known, still)
      ensures Enabled(old(State()), Receive(c, f, known, still, drawn))
      ensures State() == Step(old(State()), Receive(c, f, known, still, drawn))
    {
      hide Decide;
      drawn := 0;
      action := Decide(locals[c].session, f, known, still);
      match action {
        case Grant =>
          var handle := Register(c, draws, luck);
          drawn := handle;
          locals := locals[c := Local(handle, true)];
          log := log + [Granted(c, handle)];
        case Deny(_) =>
          locals := locals[c := Local(0, true)];
          log := log + [Denied(c)];
        case Leave =>
          End(c);
        case Dispatch(request) =>
          log := log + [Requested(c, f.session, request)];
        case Crash(dispatched) =>
          log := log + if dispatched.Some? then [Requested(c, f.session, dispatched.value)] else [];
          crashed := true;
        case _ =>
      }
    }

    /** The connection ends and takes its session out of the table. */
    method End(c: nat)
      requires IsOpen(State(), c)
      modifies this`table, this`locals
      ensures State() == Ended(old(State()), c)
    {
      if locals[c].session != 0 {
        table := map h | h in table && h != locals[c].session :: table[h];
      }
      locals := locals[c := locals[c].(open := false)];
    }
  }

  // ---------------------------------------------------------------- what the table keeps

  /** Handles granted to a connection so far. */
  function GrantedTo(log: seq<Entry>, c: nat): set<U32> {
    set n | 0 <= n < |log| && log[n].Granted? && log[n].connection == c :: log[n].handle
  }

  function HandlesOf(s: Server, c: nat): set<U32> {
    set h | h in s.table && s.table[h] == c
  }

  lemma {:induction false} GrantedAppend(log: seq<Entry>, entry: Entry, c: nat)
    ensures GrantedTo(log + [entry], c) ==
            GrantedTo(log, c) + if entry.Granted? && entry.connection == c then {entry.handle} else {}
  {
    var longer := log + [entry];
    forall h | h in GrantedTo(log, c)
      ensures h in GrantedTo(longer, c)
    {
      var n :| 0 <= n < |log| && log[n].Granted? && log[n].connection == c && log[n].handle == h;
      assert longer[n] == log[n];
    }
    assert longer[|log|] == entry;
  }

  /** An open connection's handles in the table are all it was ever granted: registering again gives none back. */
  ghost predicate NothingReturned(s: Server) {
    && (forall c: nat | IsOpen(s, c) :: HandlesOf(s, c) == GrantedTo(s.log, c))
    && (forall c: nat | c >= |s.locals| :: GrantedTo(s.log, c) == {})
  }

  lemma {:induction false} ForgetOthers(s: Server, c: nat, d: nat)
    requires Invariant(s) && IsOpen(s, c) && d != c
    ensures HandlesOf(Ended(s, c), d) == HandlesOf(s, d)
  {
    var handle := s.locals[c].session;
    if handle in s.table {
      assert s.table[handle] == c;
    }
  }

  lemma {:induction false} NothingReturnedStep(s: Server, e: Event)
    requires Invariant(s) && NothingReturned(s) && Enabled(s, e)
    ensures NothingReturned(Step(s, e))
  {
    hide Decide, Invariant;
    var u := Step(s, e);
    assert forall h | h in s.table :: s.table[h] < |s.locals| by {
      TableInRange(s);
    }
    forall d: nat
      ensures IsOpen(u, d) ==> HandlesOf(u, d) == GrantedTo(u.log, d)
      ensures d >= |u.locals| ==> GrantedTo(u.log, d) == {}
    {
      if e.Receive? && u.log != s.log {
        GrantedAppend(s.log, u.log[|s.log|], d);
      }
      if (e.HangUp? || e.Receive?) && d != e.connection {
        ForgetOthers(s, e.connection, d);
      }
    }
  }

  lemma {:induction false} TableInRange(s: Server)
    requires Invariant(s)
    ensures forall h | h in s.table :: s.table[h] < |s.locals|
  {
  }

  lemma {:induction false} NothingReturnedAlways(run: seq<Event>, s: Server)
    requires After(run) == Some(s)
    ensures NothingReturned(s)
  {
    if run != [] {
      var before := After(run[..|run| - 1]).value;
      NothingReturnedAlways(run[..|run| - 1], before);
      InvariantAlways(run[..|run| - 1], before);
      NothingReturnedStep(before, run[|run| - 1]);
    }
  }

  /**
    A connection that breaks off leaves nothing of its own in the table exactly
    when its last registration was its only successful one: the handles of
    earlier ones stay behind.
   */
  lemma {:induction false} HangUpCleansUp(run: seq<Event>, s: Server, c: nat)
    requires After(run) == Some(s) && Enabled(s, HangUp(c))
    ensures HandlesOf(Step(s, HangUp(c)), c) == GrantedTo(s.log, c) - {LatestRegistration(s.log, c)}
    ensures HandlesOf(Step(s, HangUp(c)), c) == {} <==> GrantedTo(s.log, c) <= {LatestRegistration(s.log, c)}
  {
    InvariantAlways(run, s);
    NothingReturnedAlways(run, s);
    assert HandlesOf(Ended(s, c), c) == HandlesOf(s, c) - {s.locals[c].session};
  }
}
