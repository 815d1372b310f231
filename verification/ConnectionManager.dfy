/**
  The connection manager's services on its mutable state: two maps of
  connection objects. Each is proved to be one step of the connection table.
 */
module ConnectionManager {
  import opened Bytes
  import opened ConnectionTable
  import IOPath

  const STATUS_CONNECTION_FAILURE: Byte := 0x01
  const EXT_INVALID_CONN_PATH: U16 := 0x0315

  datatype OpenReply = Opened(ot: U32, to: U32) | Refused(status: Byte, extended: seq<U16>)

  class Connection {
    const info: Info
    const endpoints: IOPath.Endpoints
    ghost const number: nat
    var closed: bool

    constructor (info: Info, endpoints: IOPath.Endpoints, ghost number: nat)
      ensures this.info == info && this.endpoints == endpoints && this.number == number && !closed
    {
      this.info, this.endpoints, this.number, closed := info, endpoints, number, false;
    }
  }

  /** An id the manager may hand out. */
  predicate Acceptable(id: U32, byTO: map<U32, Connection>) {
    id != 0 && id != RESERVED_ID && id !in byTO
  }

  /** An assembly named by the path exists; instance 0 names none. */
  predicate Exists(instance: U32, assemblies: set<U32>) {
    instance == 0 || instance in assemblies
  }

  ghost function Numbers(index: map<U32, Connection>): map<U32, nat> {
    map k | k in index :: index[k].number
  }

  function Infos(conns: seq<Connection>): seq<Info> {
    seq(|conns|, k requires 0 <= k < |conns| => conns[k].info)
  }

  ghost function ClosedOf(conns: seq<Connection>): set<nat>
    reads conns
  {
    set k: nat | k < |conns| && conns[k].closed
  }

  ghost predicate IndexedOutside(index: map<U32, Connection>, left: set<U32>, c: Connection) {
    exists k :: k in index && k !in left && index[k] == c
  }

  class ConnectionManager {
    var byOT: map<U32, Connection>
    var byTO: map<U32, Connection>
    ghost var conns: seq<Connection>

    constructor ()
      ensures Valid() && Model() == EMPTY
    {
      byOT, byTO, conns := map[], map[], [];
    }

    /** The indexed connections are among those opened, each at its own number. */
    ghost predicate Valid()
      reads this
    {
      && (forall k | 0 <= k < |conns| :: conns[k].number == k)
      && (forall k | k in byOT :: byOT[k].number < |conns| && conns[byOT[k].number] == byOT[k])
      && (forall k | k in byTO :: byTO[k].number < |conns| && conns[byTO[k].number] == byTO[k])
    }

    ghost function Model(): Table
      reads this, conns
      requires Valid()
    {
      Table(Numbers(byOT), Numbers(byTO), Infos(conns), ClosedOf(conns))
    }

    /** The first acceptable draw. `luck` bounds how long the draws may be unacceptable. */
    method AllocateConnID(draws: nat -> U32, ghost luck: nat) returns (id: U32)
      requires Acceptable(draws(luck), byTO)
      ensures Acceptable(id, byTO)
    {
      var n := 0;
      id := draws(n);
      while !Acceptable(id, byTO)
        invariant n <= luck && id == draws(n)
        decreases luck - n
      {
        n := n + 1;
        id := draws(n);
      }
    }

    method HandleForwardOpen(ot: U32, triad: Triad, path: seq<Byte>, assemblies: set<U32>, callbackAccepts: bool,
                             draws: nat -> U32, ghost luck: nat) returns (reply: OpenReply)
      requires Valid() && Acceptable(draws(luck), byTO)
      modifies this
      ensures Valid()
      ensures reply.Opened? <==> IOPath.Parse(path).Ok? && callbackAccepts
                                 && Exists(IOPath.Parse(path).value.consume, assemblies)
                                 && Exists(IOPath.Parse(path).value.produce, assemblies)
      ensures reply.Refused? ==> byOT == old(byOT) && byTO == old(byTO) && conns == old(conns)
      ensures reply.Opened? ==>
                var event := Open(Info(ot, reply.to, triad));
                reply.ot == ot && Enabled(old(Model()), event) && Model() == Step(old(Model()), event)
    {
      var endpoints := IOPath.ParseIOConnectionPath(path);
      if endpoints.Err? {
        return Refused(STATUS_CONNECTION_FAILURE, [EXT_INVALID_CONN_PATH]);
      }
      if !Exists(endpoints.value.consume, assemblies) || !Exists(endpoints.value.produce, assemblies) {
        return Refused(STATUS_CONNECTION_FAILURE, [EXT_INVALID_CONN_PATH]);
      }
      if !callbackAccepts {
        return Refused(STATUS_CONNECTION_FAILURE, []);
      }
      var to := AllocateConnID(draws, luck);
      Insert(Info(ot, to, triad), endpoints.value);
      reply := Opened(ot, to);
    }

    method Insert(info: Info, endpoints: IOPath.Endpoints)
      requires Valid() && Acceptable(info.to, byTO)
      modifies this
      ensures Valid()
      ensures Enabled(old(Model()), Open(info)) && Model() == Step(old(Model()), Open(info))
    {
      var c := new Connection(info, endpoints, |conns|);
      conns := conns + [c];
      byOT := byOT[info.ot := c];
      byTO := byTO[info.to := c];
      assert Numbers(byOT) == Numbers(old(byOT))[info.ot := |old(conns)|];
      assert Numbers(byTO) == Numbers(old(byTO))[info.to := |old(conns)|];
      assert Infos(conns) == Infos(old(conns)) + [info];
      assert ClosedOf(conns) == old(ClosedOf(conns));
    }

    /** Closes whichever connection with this triad the scan of the O->T index comes upon first. */
    method HandleForwardClose(triad: Triad) returns (found: Connection?, ghost event: Event)
      requires Valid()
      modifies this, conns
      ensures Valid() && conns == old(conns)
      ensures found != null ==> found in conns && event == Close(triad, Some(found.number))
      ensures found == null ==> event == Close(triad, None)
      ensures Enabled(old(Model()), event) && Model() == Step(old(Model()), event)
    {
      found := null;
      event := Close(triad, None);
      var left := byOT.Keys;
      while left != {}
        invariant left <= byOT.Keys
        invariant forall k | k in byOT && k !in left :: byOT[k].info.triad != triad
      {
        var k :| k in left;
        left := left - {k};
        if byOT[k].info.triad == triad {
          found := byOT[k];
          event := Close(triad, Some(found.number));
          assert k in Numbers(byOT);
          Drop(found);
          return;
        }
      }
    }

    /** Marks a connection closed and deletes the index entries under its ids. */
    method Drop(c: Connection)
      requires Valid() && c in conns
      modifies this`byOT, this`byTO, c
      ensures Valid()
      ensures Model() == ConnectionTable.Drop(old(Model()), c.number)
    {
      c.closed := true;
      byOT := map k | k in byOT && k != c.info.ot :: byOT[k];
      byTO := map k | k in byTO && k != c.info.to :: byTO[k];
      assert Numbers(byOT) == Remove(old(Numbers(byOT)), c.info.ot);
      assert Numbers(byTO) == Remove(old(Numbers(byTO)), c.info.to);
      assert ClosedOf(conns) == old(ClosedOf(conns)) + {c.number};
    }

    /** A producer gives its connection up, having seen it open. */
    method Expire(c: Connection)
      requires Valid() && c in conns && !c.closed
      modifies this`byOT, this`byTO, c
      ensures Valid()
      ensures Enabled(old(Model()), ConnectionTable.Expire(c.number))
      ensures Model() == Step(old(Model()), ConnectionTable.Expire(c.number))
    {
      Drop(c);
    }

    method CloseAll()
      requires Valid()
      modifies this`byOT, this`byTO, conns
      ensures Valid() && conns == old(conns)
      ensures Model() == Step(old(Model()), ConnectionTable.CloseAll)
    {
      var left := byOT.Keys;
      while left != {}
        modifies conns
        invariant left <= byOT.Keys
        invariant forall k | 0 <= k < |conns| ::
                    conns[k].closed <==> old(conns[k].closed) || IndexedOutside(byOT, left, conns[k])
      {
        var k :| k in left;
        left := left - {k};
        byOT[k].closed := true;
      }
      byOT, byTO := map[], map[];
      assert Numbers(byOT) == map[] && Numbers(byTO) == map[];
      assert ClosedOf(conns) == old(ClosedOf(conns)) + old(Numbers(byOT)).Values by {
        forall k: nat | k < |conns|
          ensures IndexedOutside(old(byOT), {}, conns[k]) <==> k in old(Numbers(byOT)).Values
        {
          if ot :| ot in old(byOT) && old(byOT)[ot] == conns[k] {
            assert ot in old(Numbers(byOT));
          }
        }
      }
    }

    method LookupByOT(ot: U32) returns (c: Connection?)
      requires Valid()
      ensures c != null <==> ot in Model().byOT
      ensures c != null ==> c in conns && c.number == Model().byOT[ot]
    {
      c := if ot in byOT then byOT[ot] else null;
    }
  }
}
