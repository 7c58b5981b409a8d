/** The safety theorem is about something: a run in which a machine joins, a workload is
    deployed, and one heartbeat later its container runs. */
module ClusterWitness {
  import opened Types
  import opened Store
  import opened ControlPlane
  import opened PortConversions
  import StoreProofs
  import opened StoreProgress
  import opened PortPipeline
  import Runtime
  import Agent
  import ClusterProgress
  import C = Cluster

  ghost predicate Reaches(c: C.Cluster, c': C.Cluster) {
    exists acts :: C.Runs(c, acts) && C.End(c, acts) == c'
  }

  lemma {:induction false} RunsOneMore(c: C.Cluster, acts: seq<C.Action>, a: C.Action)
    requires C.Runs(c, acts) && C.CanAct(C.End(c, acts), a)
    ensures C.Runs(c, acts + [a]) && C.End(c, acts + [a]) == C.Act(C.End(c, acts), a)
    decreases |acts|
  {
    var more := acts + [a];
    if acts == [] {
      assert more[0] == a && more[1..] == [];
    } else {
      assert more[0] == acts[0] && more[1..] == acts[1..] + [a];
      RunsOneMore(C.Act(c, acts[0]), acts[1..], a);
    }
  }

  lemma ReachesMore(c: C.Cluster, c1: C.Cluster, a: C.Action)
    requires Reaches(c, c1) && C.CanAct(c1, a)
    ensures Reaches(c, C.Act(c1, a))
  {
    var acts :| C.Runs(c, acts) && C.End(c, acts) == c1;
    RunsOneMore(c, acts, a);
  }

  const START := C.Cluster(INITIAL, map[0 := C.Machine(C.Absent, C.Down, Runtime.EMPTY_HOST)], {}, map[], map[])

  const REG := Registration(1, "node", "", 2)

  const NODE := NodeRow("node", Digest(2), "", NO_RESOURCES, None)

  const JOINED_DB := Db(map[7 := NODE], map[Digest(1) := TokenRow(Some(0), Some(7))], map[], map[])

  /** One machine has joined as node 7. */
  ghost predicate Joined(c: C.Cluster) {
    && c.sys.db == JOINED_DB && c.sys.txs == map[] && c.sys.ids == {7} && c.handlers == map[] && c.regs == map[0 := 0]
    && c.machines == map[0 := C.Machine(C.Saved(7, 2), C.Ready(7, 2), Runtime.EMPTY_HOST)]
  }

  /** The registration transaction is open for machine 0. */
  ghost predicate Opened(c: C.Cluster, phase: Phase) {
    && c.sys.db == EMPTY_DB.(tokens := map[Digest(1) := TokenRow(None, None)])
    && c.sys.txs == map[0 := Registering(REG, phase)]
    && c.sys.ids == (if phase.NodeInserted? || phase.TokenMarked? then {7} else {})
    && c.handlers == map[] && c.regs == map[0 := 0]
    && c.machines == map[0 := C.Machine(C.Absent, C.Joining(1), Runtime.EMPTY_HOST)]
  }

  /** The machine has asked to join. */
  ghost predicate Asked(c: C.Cluster) {
    && c.sys == INITIAL.(db := EMPTY_DB.(tokens := map[Digest(1) := TokenRow(None, None)]), issued := {1})
    && c.handlers == map[] && c.regs == map[] && C.RegisterRequest(0, 1, "node") in c.net
    && c.machines == map[0 := C.Machine(C.Absent, C.Joining(1), Runtime.EMPTY_HOST)]
  }

  lemma Booting() returns (c: C.Cluster)
    ensures Reaches(START, c) && Asked(c)
  {
    assert C.Runs(START, []) && C.End(START, []) == START;
    var a1 := C.StoreStep(CreateJoinToken(1));
    ReachesMore(START, START, a1);
    var c1 := C.Act(START, a1);
    var a2 := C.StartAgent(0, Some(1), "node");
    ReachesMore(START, c1, a2);
    c := C.Act(c1, a2);
  }

  lemma Opening(c: C.Cluster) returns (c': C.Cluster)
    requires Reaches(START, c) && Asked(c)
    ensures Reaches(START, c') && Opened(c', Begun)
  {
    var a := C.HandleRegister(0, 0, REG);
    ReachesMore(START, c, a);
    c' := C.Act(c, a);
  }

  lemma Locking(c: C.Cluster) returns (c': C.Cluster)
    requires Reaches(START, c) && Opened(c, Begun)
    ensures Reaches(START, c') && Opened(c', Locked)
  {
    var a := C.StoreStep(LockToken(0));
    ReachesMore(START, c, a);
    c' := C.Act(c, a);
  }

  lemma Inserting(c: C.Cluster) returns (c': C.Cluster)
    requires Reaches(START, c) && Opened(c, Locked)
    ensures Reaches(START, c') && Opened(c', NodeInserted(7))
  {
    var a := C.StoreStep(InsertNode(0, 7));
    ReachesMore(START, c, a);
    c' := C.Act(c, a);
  }

  lemma Marking(c: C.Cluster) returns (c': C.Cluster)
    requires Reaches(START, c) && Opened(c, NodeInserted(7))
    ensures Reaches(START, c') && Opened(c', TokenMarked(7, 0))
  {
    var a := C.StoreStep(MarkToken(0, 0));
    ReachesMore(START, c, a);
    c' := C.Act(c, a);
  }

  lemma Admitting(c: C.Cluster) returns (c': C.Cluster)
    requires Reaches(START, c) && Opened(c, TokenMarked(7, 0))
    ensures Reaches(START, c') && c'.sys.db == JOINED_DB && c'.sys.txs == map[] && c'.sys.ids == {7}
    ensures C.RegisterReply(0, 1, 7, 2) in c'.net && c'.machines == c.machines
    ensures c'.handlers == map[] && c'.regs == map[0 := 0]
  {
    var a := C.StoreStep(CommitRegister(0));
    ReachesMore(START, c, a);
    c' := C.Act(c, a);
    assert c'.sys.db == JOINED_DB;
  }

  lemma Saving(c: C.Cluster) returns (c': C.Cluster)
    requires Reaches(START, c) && C.RegisterReply(0, 1, 7, 2) in c.net
    requires c.machines == map[0 := C.Machine(C.Absent, C.Joining(1), Runtime.EMPTY_HOST)]
    ensures Reaches(START, c')
    ensures c'.sys == c.sys && c'.handlers == c.handlers && c'.regs == c.regs
    ensures c'.machines == map[0 := C.Machine(C.Saved(7, 2), C.Ready(7, 2), Runtime.EMPTY_HOST)]
  {
    var a := C.ReceiveRegister(0, 1, 7, 2, C.SaveOk);
    ReachesMore(START, c, a);
    c' := C.Act(c, a);
  }

  lemma Joining() returns (c: C.Cluster)
    ensures Reaches(START, c) && Joined(c)
  {
    c := Booting();
    c := Opening(c);
    c := Locking(c);
    c := Inserting(c);
    c := Marking(c);
    c := Admitting(c);
    c := Saving(c);
  }

  function Row(name: string, image: string): WorkloadRow {
    WorkloadRow(name, image, 7, Pending, 0, 0)
  }

  function Request(name: string, image: string, ports: seq<ApiPort>): Deploy {
    Deploy(name, image, 7, Map(Widen, ports))
  }

  /** A mapping with its protocol filled in, as it comes back. */
  function Given(p: ApiPort): ApiPort {
    p.(protocol := OrTcp(p.protocol))
  }

  function Listed(name: string, image: string, ports: seq<StorePort>): seq<Workload> {
    [Workload(8, Row(name, image), ports)]
  }

  function Replied(name: string, image: string, ports: seq<ApiPort>): seq<WorkloadSpec> {
    [WorkloadSpec(name, image, Map(Given, ports))]
  }

  // ---------------------------------------------------------------- deploying

  /** A step that concerns no registration of the cluster. */
  predicate Foreign(regs: map<nat, nat>, step: Step) {
    !step.CommitRegister? && forall t :: t in regs ==> !C.Opens(step, t)
  }

  function AsAction(step: Step): C.Action {
    C.StoreStep(step)
  }

  /** A run of the store is a run of the cluster. */
  lemma {:induction false} StoreRunLifts(c: C.Cluster, steps: seq<Step>)
    requires Store.Runs(c.sys, steps) && forall i :: 0 <= i < |steps| ==> Foreign(c.regs, steps[i])
    ensures C.Runs(c, Map(AsAction, steps)) && C.End(c, Map(AsAction, steps)) == c.(sys := Store.End(c.sys, steps))
    decreases |steps|
  {
    var acts := Map(AsAction, steps);
    if steps != [] {
      var c' := c.(sys := After(c.sys, steps[0]));
      assert Foreign(c.regs, steps[0]);
      assert C.CanAct(c, acts[0]) && C.Act(c, acts[0]) == c';
      assert acts[1..] == Map(AsAction, steps[1..]);
      StoreRunLifts(c', steps[1..]);
    }
  }

  lemma {:induction false} PortStepsForeign(rows: seq<Uuid>, i: nat)
    requires i < |PortSteps(1, rows)|
    ensures PortSteps(1, rows)[i].InsertPort?
  {
    if rows != [] && i < |PortSteps(1, rows[..|rows|-1])| {
      PortStepsForeign(rows[..|rows|-1], i);
    }
  }

  lemma DeployStepsForeign(d: Deploy, rows: seq<Uuid>, i: nat)
    requires i < |DeploySteps(1, d, 8, rows, 0)|
    ensures Foreign(map[0 := 0], DeploySteps(1, d, 8, rows, 0)[i])
  {
    if 2 <= i < 2 + |PortSteps(1, rows)| {
      PortStepsForeign(rows, i - 2);
    }
  }

  function RowIds(n: nat): (rows: seq<Uuid>)
    ensures |rows| == n && Distinct(rows) && forall r :: r in rows ==> 9 <= r
  {
    seq(n, i => 9 + i)
  }

  lemma Acceptable(d: Deploy)
    requires d.node == 7 && DistinctKeys(d, |d.ports|)
    ensures CreateVerdict(JOINED_DB, d) == Accept
    ensures Serial(JOINED_DB, Event.Created(d, 8, RowIds(|d.ports|), 0))
  {
  }

  /** The tables hold the workload; the node may have been heard of since. */
  ghost predicate Holds(db: Db, name: string, image: string, ports: seq<ApiPort>) {
    && db.nodes.Keys == {7} && db.nodes[7].credential == Digest(2)
    && db.workloads == map[8 := Row(name, image)]
    && IsPortList(db, 8, Map(Widen, Map(Given, ports)))
  }

  ghost predicate Deployed(c: C.Cluster, name: string, image: string, ports: seq<ApiPort>) {
    Holds(c.sys.db, name, image, ports) && 0 in c.machines && c.machines[0].host == Runtime.EMPTY_HOST
  }

  lemma PortsStored(d: Deploy)
    requires d.node == 7 && DistinctKeys(d, |d.ports|)
    ensures IsPortList(WithWorkload(JOINED_DB, d, 8, RowIds(|d.ports|), 0), 8, Map(Stored, d.ports))
  {
    var db := WithWorkload(JOINED_DB, d, 8, RowIds(|d.ports|), 0);
    Acceptable(d);
    StoreProofs.ExtendsSelf(db);
    DeployedAsRequested(JOINED_DB, d, 8, RowIds(|d.ports|), 0, db);
  }

  lemma GivenIsStored(ports: seq<ApiPort>)
    ensures Map(Stored, Map(Widen, ports)) == Map(Widen, Map(Given, ports))
  {
  }

  lemma RowsStored(d: Deploy, rows: seq<Uuid>)
    requires |rows| == |d.ports| && d.node == 7
    ensures var db := WithWorkload(JOINED_DB, d, 8, rows, 0);
            db.nodes == JOINED_DB.nodes && db.workloads == map[8 := Row(d.name, d.image)]
  {
  }

  lemma DeployHolds(db: Db, name: string, image: string, ports: seq<ApiPort>)
    requires db.nodes == JOINED_DB.nodes && db.workloads == map[8 := Row(name, image)]
    requires IsPortList(db, 8, Map(Stored, Map(Widen, ports)))
    ensures Holds(db, name, image, ports)
  {
    GivenIsStored(ports);
  }

  lemma Committed(c: C.Cluster, d: Deploy) returns (c': C.Cluster)
    requires Reaches(START, c) && Joined(c) && d.node == 7 && DistinctKeys(d, |d.ports|)
    requires forall i :: 0 <= i < |d.ports| ==> Fits(d.ports[i])
    ensures Reaches(START, c') && c'.sys.db.nodes == JOINED_DB.nodes && c'.sys.db.workloads == map[8 := Row(d.name, d.image)]
    ensures IsPortList(c'.sys.db, 8, Map(Stored, d.ports))
    ensures c'.machines == c.machines && c'.handlers == c.handlers
  {
    var rows := RowIds(|d.ports|);
    var steps := DeploySteps(1, d, 8, rows, 0);
    Acceptable(d);
    DeployRunsExactly(c.sys, 1, d, 8, rows, 0);
    forall i | 0 <= i < |steps|
      ensures Foreign(c.regs, steps[i])
    {
      DeployStepsForeign(d, rows, i);
    }
    StoreRunLifts(c, steps);
    var acts :| C.Runs(START, acts) && C.End(START, acts) == c;
    ClusterProgress.RunsJoin(START, acts, Map(AsAction, steps));
    c' := C.End(c, Map(AsAction, steps));
    RowsStored(d, rows);
    PortsStored(d);
  }

  lemma Deploying(c: C.Cluster, name: string, image: string, ports: seq<ApiPort>) returns (c': C.Cluster)
    requires Reaches(START, c) && Joined(c) && DistinctKeys(Request(name, image, ports), |ports|)
    ensures Reaches(START, c') && Deployed(c', name, image, ports)
    ensures c'.machines[0].agent == C.Ready(7, 2) && c'.handlers == map[]
  {
    var d := Request(name, image, ports);
    c' := Committed(c, d);
    DeployHolds(c'.sys.db, name, image, ports);
  }

  // ---------------------------------------------------------------- one heartbeat

  lemma Reporting(c: C.Cluster, name: string, image: string, ports: seq<ApiPort>) returns (c': C.Cluster)
    requires Reaches(START, c) && Deployed(c, name, image, ports) && c.machines[0].agent == C.Ready(7, 2) && c.handlers == map[]
    ensures Reaches(START, c') && Deployed(c', name, image, ports) && c'.machines[0].agent == C.Awaiting(7, 2, map[])
    ensures c'.handlers == map[] && C.HeartbeatRequest(0, 7, 2, []) in c'.net
  {
    var a := C.SendHeartbeat(0, []);
    ReachesMore(START, c, a);
    c' := C.Act(c, a);
    assert Map(Agent.ReportOf, []) == [];
  }

  lemma BeatKeepsPorts(db: Db, ports: seq<StorePort>)
    requires IsPortList(db, 8, ports)
    ensures IsPortList(WithBeat(db, 7, NO_RESOURCES, "", 0), 8, ports)
  {
    var db' := WithBeat(db, 7, NO_RESOURCES, "", 0);
    var ids :| OwnRows(db, 8, ids) && Looks(PortColumn(db), ids, ports);
    assert db'.ports == db.ports && PortColumn(db') == PortColumn(db);
    assert OwnRows(db', 8, ids) && Looks(PortColumn(db'), ids, ports);
  }

  lemma BeatHolds(db: Db, name: string, image: string, ports: seq<ApiPort>)
    requires Holds(db, name, image, ports)
    ensures Holds(WithBeat(db, 7, NO_RESOURCES, "", 0), name, image, ports)
  {
    BeatKeepsPorts(db, Map(Widen, Map(Given, ports)));
  }

  lemma Handling(c: C.Cluster, name: string, image: string, ports: seq<ApiPort>) returns (c': C.Cluster)
    requires Reaches(START, c) && Deployed(c, name, image, ports) && c.machines[0].agent == C.Awaiting(7, 2, map[])
    requires c.handlers == map[] && C.HeartbeatRequest(0, 7, 2, []) in c.net
    ensures Reaches(START, c') && Deployed(c', name, image, ports) && c'.machines[0].agent == C.Awaiting(7, 2, map[])
    ensures c'.handlers == map[0 := C.Updating(0, 7, [])]
  {
    var a := C.HandleHeartbeat(0, 0, 7, 2, [], NO_RESOURCES, "", 0);
    HandlingStep(c, a);
    ReachesMore(START, c, a);
    c' := C.Act(c, a);
    BeatHolds(c.sys.db, name, image, ports);
  }

  lemma HandlingStep(c: C.Cluster, a: C.Action)
    requires HasCredential(c.sys.db, 7, 2) && 0 in c.machines && c.handlers == map[]
    requires C.HeartbeatRequest(0, 7, 2, []) in c.net && a == C.HandleHeartbeat(0, 0, 7, 2, [], NO_RESOURCES, "", 0)
    ensures C.CanAct(c, a) && C.Act(c, a).sys.db == WithBeat(c.sys.db, 7, NO_RESOURCES, "", 0)
    ensures C.Act(c, a).machines == c.machines && C.Act(c, a).handlers == map[0 := C.Updating(0, 7, [])]
  {
  }

  lemma Listing(c: C.Cluster, name: string, image: string, ports: seq<ApiPort>) returns (c': C.Cluster)
    requires Reaches(START, c) && Deployed(c, name, image, ports) && c.machines[0].agent == C.Awaiting(7, 2, map[])
    requires c.handlers == map[0 := C.Updating(0, 7, [])]
    ensures Reaches(START, c') && Deployed(c', name, image, ports) && c'.machines[0].agent == C.Awaiting(7, 2, map[])
    ensures c'.handlers == map[0 := C.Listed(0, 7, Listed(name, image, []))]
  {
    var ws := Listed(name, image, []);
    assert ws[0].id == 8 && ListsNode(c.sys.db, 7, ws);
    var a := C.HandleList(0, ws);
    ReachesMore(START, c, a);
    c' := C.Act(c, a);
  }

  lemma RepliedIs(name: string, image: string, ports: seq<ApiPort>)
    ensures Map(SpecOf, Listed(name, image, Map(Widen, Map(Given, ports)))) == Replied(name, image, ports)
  {
    assert Map(Narrow, Map(Widen, Map(Given, ports))) == Map(Given, ports);
  }

  lemma Replying(c: C.Cluster, name: string, image: string, ports: seq<ApiPort>) returns (c': C.Cluster)
    requires Reaches(START, c) && Deployed(c, name, image, ports) && c.machines[0].agent == C.Awaiting(7, 2, map[])
    requires c.handlers == map[0 := C.Listed(0, 7, Listed(name, image, []))]
    ensures Reaches(START, c') && Deployed(c', name, image, ports) && c'.machines[0].agent == C.Awaiting(7, 2, map[])
    ensures C.HeartbeatReply(0, 7, Replied(name, image, ports)) in c'.net
  {
    var ws := Listed(name, image, Map(Widen, Map(Given, ports)));
    var a := C.HandlePorts(0, ws);
    ReachesMore(START, c, a);
    c' := C.Act(c, a);
    RepliedIs(name, image, ports);
  }

  lemma Starting(c: C.Cluster, name: string, image: string, ports: seq<ApiPort>) returns (c': C.Cluster)
    requires Reaches(START, c) && Deployed(c, name, image, ports) && c.machines[0].agent == C.Awaiting(7, 2, map[])
    requires C.HeartbeatReply(0, 7, Replied(name, image, ports)) in c.net
    ensures Reaches(START, c') && 0 in c'.machines && Runtime.Whole(c'.machines[0].host, name, image, Map(FromApi, Map(Given, ports)))
    ensures c'.machines[0].agent.Acting? && c'.machines[0].agent.todo == []
  {
    var a1 := C.ReceiveHeartbeat(0, Replied(name, image, ports));
    ReachesMore(START, c, a1);
    var c1 := C.Act(c, a1);
    var a2 := C.StartWorkload(0, Runtime.NO_RUN_FAULTS);
    assert C.Next(c1, 0).name !in c1.machines[0].agent.seen;
    ReachesMore(START, c1, a2);
    c' := C.Act(c1, a2);
  }

  lemma Finishing(c: C.Cluster) returns (c': C.Cluster)
    requires Reaches(START, c) && 0 in c.machines && c.machines[0].agent.Acting? && c.machines[0].agent.todo == []
    ensures Reaches(START, c') && 0 in c'.machines && c'.machines[0].host == c.machines[0].host && c'.machines[0].agent.Ready?
  {
    ReachesMore(START, c, C.FinishRound(0));
    c' := C.Act(c, C.FinishRound(0));
  }

  /** From one machine and an empty store, for every name, image and list of mappings that does
      not repeat a key: a run reaches a state in which the agent has finished a round and the
      container for the deployed workload has all four resources, runs, and forwards the
      requested ports. */
  lemma ADeployedWorkloadCanRun(name: string, image: string, ports: seq<ApiPort>)
    requires DistinctKeys(Request(name, image, ports), |ports|)
    ensures C.Initial(START)
    ensures exists c :: Reaches(START, c) && 0 in c.machines && c.machines[0].agent.Ready?
                        && Runtime.Whole(c.machines[0].host, name, image, Map(FromApi, Map(Given, ports)))
  {
    var c := Joining();
    c := Deploying(c, name, image, ports);
    c := Reporting(c, name, image, ports);
    c := Handling(c, name, image, ports);
    c := Listing(c, name, image, ports);
    c := Replying(c, name, image, ports);
    c := Starting(c, name, image, ports);
    c := Finishing(c);
  }
}
