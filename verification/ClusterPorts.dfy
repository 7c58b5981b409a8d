/** A port mapping from the command line to the network of the machine, over whole runs. */
module ClusterPorts {
  import opened Types
  import opened Store
  import opened StoreProofs
  import opened ControlPlane
  import opened PortConversions
  import opened PortPipeline
  import Runtime
  import C = Cluster
  import CS = ClusterSafety
  import CP = ClusterProgress

  /** A name on a host belongs to the one workload that was committed under it. */
  lemma NameDecides(db: Db, node: Uuid, name: string, cni: seq<Runtime.CniPort>, w: Uuid) returns (ports: seq<ApiPort>)
    requires WorkloadsOk(db) && w in db.workloads && db.workloads[w].name == name
    requires exists spec :: CS.AttachedFor(db, node, name, cni, spec)
    ensures node == db.workloads[w].node && IsPortList(db, w, Map(Widen, ports))
    ensures cni == Runtime.CniMappings(Map(FromApi, ports))
  {
    var spec :| CS.AttachedFor(db, node, name, cni, spec);
    var v :| Describes(db, node, v, spec);
    assert v == w;
    ports := spec.ports;
  }

  lemma NarrowWidened(ports: seq<ApiPort>)
    ensures Map(Narrow, Map(Widen, ports)) == ports
  {
  }

  /** The rows of the workload were inserted for ps, and no others ever will be. */
  ghost predicate Holds(db: Db, w: Uuid, ps: seq<Port>) {
    IsPortList(db, w, Map(Stored, Map(Widen, Map(ToApi, ps))))
  }

  lemma StoredReaches(ps: seq<Port>)
    ensures Runtime.CniMappings(Map(FromApi, Map(Narrow, Map(Stored, Map(Widen, Map(ToApi, ps)))))) == Map(Asked, ps)
  {
  }

  /** Two listings of one workload give CNI the same multiset. */
  lemma SameForCni(db: Db, w: Uuid, a: seq<StorePort>, b: seq<StorePort>)
    requires IsPortList(db, w, a) && IsPortList(db, w, b)
    ensures multiset(Runtime.CniMappings(Map(FromApi, Map(Narrow, a)))) == multiset(Runtime.CniMappings(Map(FromApi, Map(Narrow, b))))
  {
    var ia :| OwnRows(db, w, ia) && Looks(PortColumn(db), ia, a);
    var ib :| OwnRows(db, w, ib) && Looks(PortColumn(db), ib, b);
    ListedLooks(db, ia, a);
    ListedLooks(db, ib, b);
    SameListing(AppliedColumn(db), ia, Runtime.CniMappings(Map(FromApi, Map(Narrow, a))),
                ib, Runtime.CniMappings(Map(FromApi, Map(Narrow, b))));
  }

  lemma AttachedIsAsked(db: Db, w: Uuid, ps: seq<Port>, cni: seq<Runtime.CniPort>, ports: seq<ApiPort>)
    requires Holds(db, w, ps) && IsPortList(db, w, Map(Widen, ports))
    requires cni == Runtime.CniMappings(Map(FromApi, ports))
    ensures multiset(cni) == multiset(Map(Asked, ps))
  {
    SameForCni(db, w, Map(Widen, ports), Map(Stored, Map(Widen, Map(ToApi, ps))));
    NarrowWidened(ports);
    StoredReaches(ps);
  }

  /** The tables right after the commit. */
  lemma CommitHolds(c: C.Cluster, t: nat, now: nat, ps: seq<Port>) returns (c': C.Cluster, w: Uuid)
    requires CS.Inv(c) && C.CanAct(c, C.StoreStep(CommitCreate(t, now)))
    requires c.sys.txs[t].deploy.ports == Map(Widen, Map(ToApi, ps))
    ensures c' == C.Act(c, C.StoreStep(CommitCreate(t, now))) && CS.Inv(c')
    ensures Holds(c'.sys.db, w, ps) && w in c'.sys.db.workloads
    ensures c'.sys.db.workloads[w].name == c.sys.txs[t].deploy.name && c'.sys.db.workloads[w].node == c.sys.txs[t].deploy.node
  {
    var tx := c.sys.txs[t];
    CS.ActionKeepsInv(c, C.StoreStep(CommitCreate(t, now)));
    CommittedDeployIsSerial(c.sys, CommitCreate(t, now));
    var db' := WithWorkload(c.sys.db, tx.deploy, tx.progress.id, tx.progress.rows, now);
    ExtendsSelf(db');
    DeployedAsRequested(c.sys.db, tx.deploy, tx.progress.id, tx.progress.rows, now, db');
    c', w := C.Act(c, C.StoreStep(CommitCreate(t, now))), tx.progress.id;
  }

  lemma AttachedAt(c: C.Cluster, m: nat, name: string, w: Uuid, ps: seq<Port>)
    requires CS.Inv(c) && m in c.machines && name in c.machines[m].host.attached
    requires Holds(c.sys.db, w, ps) && w in c.sys.db.workloads && c.sys.db.workloads[w].name == name
    ensures c.machines[m].slot.Saved? && c.machines[m].slot.node == c.sys.db.workloads[w].node
    ensures multiset(c.machines[m].host.attached[name]) == multiset(Map(Asked, ps))
  {
    assert CS.MachineOk(c.sys.db, c.net, m, c.machines[m]);
    var cni := c.machines[m].host.attached[name];
    var ports := NameDecides(c.sys.db, c.machines[m].slot.node, name, cni, w);
    AttachedIsAsked(c.sys.db, w, ps, cni, ports);
  }

  /** If anything is forwarded for the name on machine m, it is for that node, and exactly ps. */
  ghost predicate ForwardsAsked(c: C.Cluster, m: nat, name: string, node: Uuid, ps: seq<Port>) {
    m in c.machines && name in c.machines[m].host.attached ==>
      && c.machines[m].slot.Saved? && c.machines[m].slot.node == node
      && multiset(c.machines[m].host.attached[name]) == multiset(Map(Asked, ps))
  }

  /** And ever after. */
  lemma ArriveFrom(c: C.Cluster, acts: seq<C.Action>, w: Uuid, m: nat, ps: seq<Port>)
    requires CS.Inv(c) && C.Runs(c, acts) && Holds(c.sys.db, w, ps) && w in c.sys.db.workloads
    ensures ForwardsAsked(C.End(c, acts), m, c.sys.db.workloads[w].name, c.sys.db.workloads[w].node, ps)
  {
    var c', row := C.End(c, acts), c.sys.db.workloads[w];
    CS.RunKeepsInv(c, acts);
    CP.RunExtendsTables(c, acts);
    PortListStable(c.sys.db, c'.sys.db, w, Map(Stored, Map(Widen, Map(ToApi, ps))));
    if m in c'.machines && row.name in c'.machines[m].host.attached {
      AttachedAt(c', m, row.name, w, ps);
    }
  }

  /** What a deploy had asked for when it was committed is what any machine ever forwards under
      that name: over every run, from the commit on, an attachment of the name exists only on
      the node asked for, and has exactly the requested mappings. */
  lemma PortsArrive(c: C.Cluster, before: seq<C.Action>, t: nat, now: nat, after: seq<C.Action>, m: nat, ps: seq<Port>)
    requires C.Initial(c) && C.Runs(c, before) && C.CanAct(C.End(c, before), C.StoreStep(CommitCreate(t, now)))
    requires C.End(c, before).sys.txs[t].deploy.ports == Map(Widen, Map(ToApi, ps))
    requires C.Runs(C.Act(C.End(c, before), C.StoreStep(CommitCreate(t, now))), after)
    ensures var c1 := C.End(c, before);
            ForwardsAsked(C.End(C.Act(c1, C.StoreStep(CommitCreate(t, now))), after), m,
                          c1.sys.txs[t].deploy.name, c1.sys.txs[t].deploy.node, ps)
  {
    CS.InitialInv(c);
    CS.RunKeepsInv(c, before);
    CommitArrives(C.End(c, before), t, now, after, m, ps);
  }

  lemma CommitArrives(c: C.Cluster, t: nat, now: nat, after: seq<C.Action>, m: nat, ps: seq<Port>)
    requires CS.Inv(c) && C.CanAct(c, C.StoreStep(CommitCreate(t, now)))
    requires c.sys.txs[t].deploy.ports == Map(Widen, Map(ToApi, ps))
    requires C.Runs(C.Act(c, C.StoreStep(CommitCreate(t, now))), after)
    ensures ForwardsAsked(C.End(C.Act(c, C.StoreStep(CommitCreate(t, now))), after), m,
                          c.sys.txs[t].deploy.name, c.sys.txs[t].deploy.node, ps)
  {
    var c', w := CommitHolds(c, t, now, ps);
    ArriveFrom(c', after, w, m, ps);
  }
}
