/** A workload's ports from the command line to CNI: sent, widened, stored, listed again in
    any order, narrowed, applied. */
module PortPipeline {
  import opened Types
  import opened Store
  import opened StoreProofs
  import opened StoreProgress
  import opened ControlPlane
  import opened PortConversions
  import opened Runtime

  /** The rows inserted for a workload are all of its rows, then and ever after. */
  lemma InsertedRowsAreOwnRows(db: Db, d: Deploy, id: Uuid, rows: seq<Uuid>, now: nat)
    requires PortsOk(db) && Serial(db, Event.Created(d, id, rows, now))
    ensures var db' := WithWorkload(db, d, id, rows, now);
            && OwnRows(db', id, rows)
            && forall i :: 0 <= i < |rows| ==> rows[i] in db'.ports && db'.ports[rows[i]].port == Stored(d.ports[i])
  {
    NewPortRowsAt(d, id, rows);
  }

  /** A committed workload is what was asked for, and stays so: name, image and node, and
      the requested mappings with the protocol filled in as its port rows. */
  lemma DeployedAsRequested(db: Db, d: Deploy, id: Uuid, rows: seq<Uuid>, now: nat, db': Db)
    requires PortsOk(db) && Serial(db, Event.Created(d, id, rows, now))
    requires Extends(WithWorkload(db, d, id, rows, now), db')
    ensures id in db'.workloads && db'.workloads[id].node == d.node
    ensures db'.workloads[id].name == d.name && db'.workloads[id].image == d.image
    ensures IsPortList(db', id, Map(Stored, d.ports))
  {
    var db1 := WithWorkload(db, d, id, rows, now);
    InsertedRowsAreOwnRows(db, d, id, rows, now);
    assert Looks(PortColumn(db1), rows, Map(Stored, d.ports));
    PortListStable(db1, db', id, Map(Stored, d.ports));
  }

  /** What CNI is told about a stored mapping once it has come back to the node. */
  function Applied(p: StorePort): CniPort {
    CniMapping(FromApi(Narrow(p)))
  }

  ghost function AppliedColumn(db: Db): map<Uuid, CniPort> {
    map p | p in db.ports :: Applied(db.ports[p].port)
  }

  /** The forwarding that a mapping on the command line asks for. */
  function Asked(p: Port): CniPort {
    CniPort(hostPort := p.hostPort, containerPort := p.containerPort, protocol := if p.protocol == "" then "tcp" else p.protocol)
  }

  /** Storing and bringing back changes no mapping, the default protocol included. */
  lemma AppliedIsAsked(p: Port)
    ensures Applied(Stored(Widen(ToApi(p)))) == Asked(p)
  {
  }

  lemma SentLooks(ps: seq<Port>, db: Db, d: Deploy, rows: seq<Uuid>)
    requires d.ports == Map(Widen, Map(ToApi, ps)) && |rows| == |ps|
    requires forall i :: 0 <= i < |rows| ==> rows[i] in db.ports && db.ports[rows[i]].port == Stored(d.ports[i])
    ensures Looks(AppliedColumn(db), rows, Map(Asked, ps))
  {
    forall i | 0 <= i < |rows|
      ensures rows[i] in AppliedColumn(db) && Map(Asked, ps)[i] == AppliedColumn(db)[rows[i]]
    {
      AppliedIsAsked(ps[i]);
    }
  }

  lemma ListedLooks(db: Db, ids: seq<Uuid>, listed: seq<StorePort>)
    requires Looks(PortColumn(db), ids, listed)
    ensures Looks(AppliedColumn(db), ids, CniMappings(Map(FromApi, Map(Narrow, listed))))
  {
  }

  /** The mappings given on the command line reach CNI setup as the same multiset of host
      port, container port and protocol, whatever other requests commit in between. */
  lemma PortsReachTheNode(ps: seq<Port>, db: Db, d: Deploy, id: Uuid, rows: seq<Uuid>, now: nat, db': Db, listed: seq<StorePort>)
    requires d.ports == Map(Widen, Map(ToApi, ps))
    requires PortsOk(db) && Serial(db, Event.Created(d, id, rows, now))
    requires Extends(WithWorkload(db, d, id, rows, now), db')
    requires IsPortList(db', id, listed)
    ensures multiset(CniMappings(Map(FromApi, Map(Narrow, listed)))) == multiset(Map(Asked, ps))
  {
    var db1 := WithWorkload(db, d, id, rows, now);
    InsertedRowsAreOwnRows(db, d, id, rows, now);
    PortListStable(db1, db', id, listed);
    var ids :| OwnRows(db1, id, ids) && Looks(PortColumn(db1), ids, listed);
    SentLooks(ps, db1, d, rows);
    ListedLooks(db1, ids, listed);
    SameListing(AppliedColumn(db1), rows, Map(Asked, ps), ids, CniMappings(Map(FromApi, Map(Narrow, listed))));
  }

  /** What the comment on the reply path takes for granted of stored ports. */
  predicate Proper(p: StorePort) {
    1 <= p.hostPort <= 65535 && 1 <= p.containerPort <= 65535
  }

  /** Ports are stored as they were asked for, 0 included: they lie between 1 and 65535 exactly
      when the requested ones do. */
  lemma StoredPortsProperIff(db: Db, d: Deploy, id: Uuid, rows: seq<Uuid>, now: nat, db': Db, listed: seq<StorePort>)
    requires PortsOk(db) && Serial(db, Event.Created(d, id, rows, now))
    requires Extends(WithWorkload(db, d, id, rows, now), db') && IsPortList(db', id, listed)
    ensures (forall i :: 0 <= i < |listed| ==> Proper(listed[i])) <==> (forall i :: 0 <= i < |d.ports| ==> Proper(d.ports[i]))
  {
    DeployedAsRequested(db, d, id, rows, now, db');
    PortListsAgree(db', id, listed, Map(Stored, d.ports));
    ProperAlike(listed, d.ports);
  }

  lemma ProperAlike(listed: seq<StorePort>, ports: seq<StorePort>)
    requires multiset(listed) == multiset(Map(Stored, ports))
    ensures (forall i :: 0 <= i < |listed| ==> Proper(listed[i])) <==> (forall i :: 0 <= i < |ports| ==> Proper(ports[i]))
  {
    var stored := Map(Stored, ports);
    SameMembers(listed, stored);
    if forall i :: 0 <= i < |listed| ==> Proper(listed[i]) {
      forall i | 0 <= i < |ports|
        ensures Proper(ports[i])
      {
        assert stored[i] in listed;
      }
    }
    if forall i :: 0 <= i < |ports| ==> Proper(ports[i]) {
      forall i | 0 <= i < |listed|
        ensures Proper(listed[i])
      {
        assert listed[i] in stored;
      }
    }
  }

  lemma SameMembers<T>(a: seq<T>, b: seq<T>)
    requires multiset(a) == multiset(b)
    ensures forall x :: x in a <==> x in b
  {
    forall x
      ensures x in a <==> x in b
    {
      assert x in a <==> x in multiset(a);
      assert x in b <==> x in multiset(b);
    }
  }

  /** Nothing on the way refuses port 0: an acceptable deploy of one commits, and what the node
      is later told has a port out of range. */
  lemma PortZeroIsStored(s: Sys, t: nat, d: Deploy, id: Uuid, rows: seq<Uuid>, now: nat, k: nat, listed: seq<StorePort>)
    requires Inv(s) && t !in s.txs && CreateVerdict(s.db, d) == Accept && DeployUncontested(s, t, d)
    requires forall i :: 0 <= i < |d.ports| ==> Fits(d.ports[i])
    requires id !in s.ids && |rows| == |d.ports| && Distinct(rows) && forall r :: r in rows ==> r !in s.ids && r != id
    requires k < |d.ports| && (d.ports[k].hostPort == 0 || d.ports[k].containerPort == 0)
    requires IsPortList(WithWorkload(s.db, d, id, rows, now), id, listed)
    ensures Store.Runs(s, DeploySteps(t, d, id, rows, now))
    ensures Store.End(s, DeploySteps(t, d, id, rows, now)).db == WithWorkload(s.db, d, id, rows, now)
    ensures exists i :: 0 <= i < |listed| && !Proper(listed[i])
  {
    DeployRunsExactly(s, t, d, id, rows, now);
    var db' := WithWorkload(s.db, d, id, rows, now);
    FreshIdsAreSerial(s, d, id, rows, now);
    StoredPortsProperIff(s.db, d, id, rows, now, db', listed);
    assert !Proper(d.ports[k]);
  }

  lemma FreshIdsAreSerial(s: Sys, d: Deploy, id: Uuid, rows: seq<Uuid>, now: nat)
    requires Inv(s) && CreateVerdict(s.db, d) == Accept && id !in s.ids
    requires |rows| == |d.ports| && Distinct(rows) && forall r :: r in rows ==> r !in s.ids
    ensures Serial(s.db, Event.Created(d, id, rows, now))
  {
    FreshIsUnowned(s, 0, Id(id));
    forall r | r in rows
      ensures r !in s.db.ports
    {
      FreshIsUnowned(s, 0, Id(r));
    }
  }
}
