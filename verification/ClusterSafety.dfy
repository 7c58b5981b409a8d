/** Safety of the cluster over every run. */
module ClusterSafety {
  import opened Types
  import opened Store
  import StoreProofs
  import opened ControlPlane
  import opened PortConversions
  import Runtime
  import opened FakeRuntime
  import Reconcile
  import Agent
  import C = Cluster

  // ---------------------------------------------------------------- invariants

  function SpecOfRecord(name: string, r: Runtime.Record): WorkloadSpec {
    WorkloadSpec(name, r.image, Map(ToApi, r.ports))
  }

  ghost predicate AttachedFor(db: Db, node: Uuid, name: string, cni: seq<Runtime.CniPort>, spec: WorkloadSpec) {
    && spec.name == name && Desired(db, node, spec)
    && cni == Runtime.CniMappings(Map(FromApi, spec.ports))
  }

  /** Everything on the host was put there for a committed workload of the node. */
  ghost predicate HostOk(db: Db, node: Uuid, h: Runtime.Host) {
    && (forall n :: n in h.records ==> Desired(db, node, SpecOfRecord(n, h.records[n])))
    && (forall n :: n in h.attached ==> exists spec :: AttachedFor(db, node, n, h.attached[n], spec))
    && TasksOwned(h)
  }

  ghost predicate AllDesired(db: Db, node: Uuid, specs: seq<WorkloadSpec>) {
    forall i :: 0 <= i < |specs| ==> Desired(db, node, specs[i])
  }

  ghost predicate MachineOk(db: Db, net: set<C.Message>, m: nat, x: C.Machine) {
    && (x.slot.Saved? ==> exists token :: C.RegisterReply(m, token, x.slot.node, x.slot.credential) in net)
    && (x.slot.Saved? ==> HostOk(db, x.slot.node, x.host))
    && (!x.slot.Saved? ==> x.host == Runtime.EMPTY_HOST)
    && (x.agent.Joining? ==> x.slot == C.Absent)
    && (x.agent.Ready? || x.agent.Awaiting? || x.agent.Acting? ==> x.slot == C.Saved(x.agent.node, x.agent.credential))
    && (x.agent.Acting? ==> AllDesired(db, x.agent.node, x.agent.todo))
  }

  ghost predicate ServesNode(machines: map<nat, C.Machine>, m: nat, node: Uuid) {
    m in machines && machines[m].slot.Saved? && machines[m].slot.node == node
  }

  ghost predicate MessageOk(db: Db, machines: map<nat, C.Machine>, msg: C.Message) {
    match msg
    case RegisterRequest(m, _, _) => true
    case RegisterReply(m, token, node, credential) =>
      HasCredential(db, node, credential) && StoreProofs.Consumed(db, Digest(token), node)
    case HeartbeatRequest(m, node, credential, _) => ServesNode(machines, m, node)
    case HeartbeatReply(m, node, specs) => ServesNode(machines, m, node) && AllDesired(db, node, specs)
  }

  ghost predicate OneMachinePerNode(net: set<C.Message>) {
    forall a, b :: a in net && b in net && a.RegisterReply? && b.RegisterReply? && a.node == b.node ==> a == b
  }

  ghost predicate HandlerOk(db: Db, machines: map<nat, C.Machine>, h: C.Handler) {
    && ServesNode(machines, h.m, h.node)
    && (h.Listed? ==> forall i :: 0 <= i < |h.ws| ==>
          && h.ws[i].id in db.workloads && db.workloads[h.ws[i].id].node == h.node
          && db.workloads[h.ws[i].id].name == h.ws[i].row.name && db.workloads[h.ws[i].id].image == h.ws[i].row.image)
  }

  ghost predicate RegsOk(c: C.Cluster) {
    forall t :: t in c.regs && t in c.sys.txs ==> c.sys.txs[t].Registering?
  }

  ghost predicate Inv(c: C.Cluster) {
    && StoreProofs.Inv(c.sys)
    && (forall m :: m in c.machines ==> MachineOk(c.sys.db, c.net, m, c.machines[m]))
    && (forall msg :: msg in c.net ==> MessageOk(c.sys.db, c.machines, msg))
    && OneMachinePerNode(c.net)
    && (forall hd :: hd in c.handlers ==> HandlerOk(c.sys.db, c.machines, c.handlers[hd]))
    && RegsOk(c)
  }

  // ---------------------------------------------------------------- growth of the store and of the network

  lemma HostStable(db: Db, db': Db, node: Uuid, h: Runtime.Host)
    requires StoreProofs.Extends(db, db') && HostOk(db, node, h)
    ensures HostOk(db', node, h)
  {
    forall n | n in h.records
      ensures Desired(db', node, SpecOfRecord(n, h.records[n]))
    {
      DesiredStable(db, db', node, SpecOfRecord(n, h.records[n]));
    }
    forall n | n in h.attached
      ensures exists spec :: AttachedFor(db', node, n, h.attached[n], spec)
    {
      var spec :| AttachedFor(db, node, n, h.attached[n], spec);
      DesiredStable(db, db', node, spec);
      assert AttachedFor(db', node, n, h.attached[n], spec);
    }
  }

  lemma AllDesiredStable(db: Db, db': Db, node: Uuid, specs: seq<WorkloadSpec>)
    requires StoreProofs.Extends(db, db') && AllDesired(db, node, specs)
    ensures AllDesired(db', node, specs)
  {
    forall i | 0 <= i < |specs|
      ensures Desired(db', node, specs[i])
    {
      DesiredStable(db, db', node, specs[i]);
    }
  }

  lemma MachineStable(db: Db, db': Db, net: set<C.Message>, net': set<C.Message>, m: nat, x: C.Machine)
    requires StoreProofs.Extends(db, db') && net <= net' && MachineOk(db, net, m, x)
    ensures MachineOk(db', net', m, x)
  {
    if x.slot.Saved? {
      HostStable(db, db', x.slot.node, x.host);
      var token :| C.RegisterReply(m, token, x.slot.node, x.slot.credential) in net;
      assert C.RegisterReply(m, token, x.slot.node, x.slot.credential) in net';
    }
    if x.agent.Acting? {
      AllDesiredStable(db, db', x.agent.node, x.agent.todo);
    }
  }

  /** No saved credential is ever replaced or lost. */
  ghost predicate SlotsKept(machines: map<nat, C.Machine>, machines': map<nat, C.Machine>) {
    forall m :: m in machines ==> m in machines' && (machines[m].slot.Saved? ==> machines'[m].slot == machines[m].slot)
  }

  lemma MessageStable(db: Db, db': Db, machines: map<nat, C.Machine>, machines': map<nat, C.Machine>, msg: C.Message)
    requires StoreProofs.DbInv(db) && StoreProofs.Extends(db, db') && SlotsKept(machines, machines')
    requires MessageOk(db, machines, msg)
    ensures MessageOk(db', machines', msg)
  {
    match msg
    case HeartbeatReply(m, node, specs) => AllDesiredStable(db, db', node, specs);
    case _ =>
  }

  /** One step of the cluster, taken apart: the store may grow, one machine and one handler
      may change, one message may be sent. */
  lemma InvFrom(c: C.Cluster, c': C.Cluster)
    requires Inv(c)
    requires StoreProofs.Inv(c'.sys) && StoreProofs.Extends(c.sys.db, c'.sys.db)
    requires c.net <= c'.net && SlotsKept(c.machines, c'.machines)
    requires forall m :: m in c'.machines ==>
               (m in c.machines && c'.machines[m] == c.machines[m]) || MachineOk(c'.sys.db, c'.net, m, c'.machines[m])
    requires forall msg :: msg in c'.net && msg !in c.net ==> MessageOk(c'.sys.db, c'.machines, msg)
    requires OneMachinePerNode(c'.net)
    requires forall hd :: hd in c'.handlers ==>
               (hd in c.handlers && c'.handlers[hd] == c.handlers[hd]) || HandlerOk(c'.sys.db, c'.machines, c'.handlers[hd])
    requires RegsOk(c')
    ensures Inv(c')
  {
    forall m | m in c'.machines
      ensures MachineOk(c'.sys.db, c'.net, m, c'.machines[m])
    {
      if m in c.machines && c'.machines[m] == c.machines[m] {
        MachineStable(c.sys.db, c'.sys.db, c.net, c'.net, m, c.machines[m]);
      }
    }
    forall msg | msg in c'.net
      ensures MessageOk(c'.sys.db, c'.machines, msg)
    {
      if msg in c.net {
        MessageStable(c.sys.db, c'.sys.db, c.machines, c'.machines, msg);
      }
    }
    forall hd | hd in c'.handlers
      ensures HandlerOk(c'.sys.db, c'.machines, c'.handlers[hd])
    {
      if hd in c.handlers && c'.handlers[hd] == c.handlers[hd] {
        assert HandlerOk(c.sys.db, c.machines, c.handlers[hd]);
      }
    }
  }

  // ---------------------------------------------------------------- what the runtime calls do to a host

  lemma RecordRoundTrip(spec: WorkloadSpec)
    ensures SpecOfRecord(spec.name, Runtime.Record(spec.image, Map(FromApi, spec.ports))) == spec
  {
    assert Map(ToApi, Map(FromApi, spec.ports)) == spec.ports;
  }

  /** Running a desired workload, however it ends, leaves only desired things behind. */
  lemma RunKeepsHostOk(db: Db, node: Uuid, h: Runtime.Host, spec: WorkloadSpec, f: Runtime.RunFaults)
    requires HostOk(db, node, h) && Desired(db, node, spec)
    ensures HostOk(db, node, Runtime.RunHost(h, spec.name, spec.image, Map(FromApi, spec.ports), f).0)
  {
    var ports := Map(FromApi, spec.ports);
    var (h', r) := Runtime.RunHost(h, spec.name, spec.image, ports, f);
    Runtime.RunTouchesOnlyItsName(h, spec.name, spec.image, ports, f);
    Runtime.RunSuccess(h, spec.name, spec.image, ports, f);
    RecordRoundTrip(spec);
    if r != Runtime.RunOk {
      Runtime.FailedRunLeftovers(h, spec.name, spec.image, ports, f);
    }
    HostOkAt(db, node, h, h', spec);
  }

  /** It is enough to look at the name that was touched. */
  lemma HostOkAt(db: Db, node: Uuid, h: Runtime.Host, h': Runtime.Host, spec: WorkloadSpec)
    requires HostOk(db, node, h) && Desired(db, node, spec)
    requires Runtime.SameElsewhere(h, h', spec.name)
    requires spec.name in h'.records ==>
               || (spec.name in h.records && h'.records[spec.name] == h.records[spec.name])
               || SpecOfRecord(spec.name, h'.records[spec.name]) == spec
    requires spec.name in h'.attached ==>
               || (spec.name in h.attached && h'.attached[spec.name] == h.attached[spec.name])
               || h'.attached[spec.name] == Runtime.CniMappings(Map(FromApi, spec.ports))
    requires spec.name in h'.tasks ==> spec.name in h'.records
    ensures HostOk(db, node, h')
  {
    forall n | n in h'.records
      ensures Desired(db, node, SpecOfRecord(n, h'.records[n]))
    {
      if n != spec.name {
        Runtime.SameElsewhereAt(h, h', spec.name, n);
      }
    }
    forall n | n in h'.attached
      ensures exists s :: AttachedFor(db, node, n, h'.attached[n], s)
    {
      if n != spec.name {
        Runtime.SameElsewhereAt(h, h', spec.name, n);
      } else if !(n in h.attached && h'.attached[n] == h.attached[n]) {
        assert AttachedFor(db, node, n, h'.attached[n], spec);
      }
    }
    forall n | n in h'.tasks
      ensures n in h'.records
    {
      if n != spec.name {
        Runtime.SameElsewhereAt(h, h', spec.name, n);
      }
    }
  }

  lemma StopKeepsHostOk(db: Db, node: Uuid, h: Runtime.Host, spec: WorkloadSpec, f: Runtime.StopFaults)
    requires HostOk(db, node, h) && Desired(db, node, spec)
    ensures HostOk(db, node, Runtime.StopHost(h, spec.name, f).0)
  {
    var h' := Runtime.StopHost(h, spec.name, f).0;
    Runtime.StopTouchesOnlyItsName(h, spec.name, f);
    Runtime.StopReleases(h, spec.name, f);
    HostOkAt(db, node, h, h', spec);
  }

  // ---------------------------------------------------------------- the three kinds of change

  /** One machine changes. */
  lemma MachineChange(c: C.Cluster, m: nat, x: C.Machine)
    requires Inv(c) && m in c.machines && (c.machines[m].slot.Saved? ==> x.slot == c.machines[m].slot)
    requires MachineOk(c.sys.db, c.net, m, x)
    ensures Inv(c.(machines := c.machines[m := x]))
  {
    InvFrom(c, c.(machines := c.machines[m := x]));
  }

  /** A message other than a registration reply is sent. */
  lemma Sends(c: C.Cluster, msg: C.Message)
    requires Inv(c) && !msg.RegisterReply? && MessageOk(c.sys.db, c.machines, msg)
    ensures Inv(c.(net := c.net + {msg}))
  {
    InvFrom(c, c.(net := c.net + {msg}));
  }

  /** The store takes a step that answers nobody. */
  lemma StoreChange(c: C.Cluster, step: Step, handlers: map<nat, C.Handler>, regs: map<nat, nat>)
    requires Inv(c) && Enabled(c.sys, step)
    requires forall hd :: hd in handlers ==>
               (hd in c.handlers && handlers[hd] == c.handlers[hd])
               || HandlerOk(After(c.sys, step).db, c.machines, handlers[hd])
    requires RegsOk(c.(sys := After(c.sys, step), regs := regs))
    ensures Inv(c.(sys := After(c.sys, step), handlers := handlers, regs := regs))
  {
    StoreProofs.StepKeepsInv(c.sys, step);
    StoreProofs.StepExtends(c.sys, step);
    InvFrom(c, c.(sys := After(c.sys, step), handlers := handlers, regs := regs));
  }

  /** A handler moves on without writing. */
  lemma HandlerChange(c: C.Cluster, handlers: map<nat, C.Handler>)
    requires Inv(c)
    requires forall hd :: hd in handlers ==>
               (hd in c.handlers && handlers[hd] == c.handlers[hd]) || HandlerOk(c.sys.db, c.machines, handlers[hd])
    ensures Inv(c.(handlers := handlers))
  {
    InvFrom(c, c.(handlers := handlers));
  }

  // ---------------------------------------------------------------- every action keeps the invariant

  lemma TxKindsKept(s: Sys, step: Step, t: nat)
    requires Enabled(s, step) && t in After(s, step).txs && !C.Opens(step, t)
    ensures t in s.txs && (s.txs[t].Registering? <==> After(s, step).txs[t].Registering?)
  {
  }

  /** The node of a registration about to commit is new to the network. */
  lemma NodeIsNew(c: C.Cluster, t: nat)
    requires Inv(c) && Enabled(c.sys, CommitRegister(t))
    ensures forall msg :: msg in c.net && msg.RegisterReply? ==> msg.node != c.sys.txs[t].phase.id
  {
    var tx := c.sys.txs[t];
    assert StoreProofs.Unclaimed(c.sys.db, tx) && Claims(tx, Id(tx.phase.id));
    forall msg | msg in c.net && msg.RegisterReply?
      ensures msg.node != tx.phase.id
    {
      assert MessageOk(c.sys.db, c.machines, msg);
    }
  }

  lemma ReplySent(c: C.Cluster, reply: C.Message)
    requires Inv(c) && reply.RegisterReply? && MessageOk(c.sys.db, c.machines, reply)
    requires forall msg :: msg in c.net && msg.RegisterReply? ==> msg.node != reply.node
    ensures Inv(c.(net := c.net + {reply}))
  {
    InvFrom(c, c.(net := c.net + {reply}));
  }

  /** A registration that commits tells its machine, and nobody else has that node. */
  lemma CommitReplyKeepsInv(c: C.Cluster, t: nat)
    requires Inv(c) && t in c.regs && Enabled(c.sys, CommitRegister(t))
    requires Inv(c.(sys := After(c.sys, CommitRegister(t))))
    ensures var tx := c.sys.txs[t];
            Inv(c.(sys := After(c.sys, CommitRegister(t)),
                   net := c.net + {C.RegisterReply(c.regs[t], tx.reg.token, tx.phase.id, tx.reg.credential)}))
  {
    var tx := c.sys.txs[t];
    var reply := C.RegisterReply(c.regs[t], tx.reg.token, tx.phase.id, tx.reg.credential);
    var c1 := c.(sys := After(c.sys, CommitRegister(t)));
    NodeIsNew(c, t);
    assert MessageOk(c1.sys.db, c1.machines, reply);
    ReplySent(c1, reply);
  }

  lemma StoreActionKeepsInv(c: C.Cluster, a: C.Action)
    requires Inv(c) && C.CanAct(c, a) && a.StoreStep?
    ensures Inv(C.Act(c, a))
  {
    forall t | t in c.regs && t in After(c.sys, a.step).txs
      ensures After(c.sys, a.step).txs[t].Registering?
    {
      TxKindsKept(c.sys, a.step, t);
    }
    StoreChange(c, a.step, c.handlers, c.regs);
    if a.step.CommitRegister? && a.step.t in c.regs {
      CommitReplyKeepsInv(c, a.step.t);
    }
  }

  lemma HandleRegisterKeepsInv(c: C.Cluster, a: C.Action)
    requires Inv(c) && C.CanAct(c, a) && a.HandleRegister?
    ensures Inv(C.Act(c, a))
  {
    StoreChange(c, BeginRegister(a.t, a.reg), c.handlers, c.regs[a.t := a.m]);
  }

  /** The agent moves to a state that its file and the tables justify. */
  lemma AgentMoves(db: Db, net: set<C.Message>, m: nat, x: C.Machine, agent: C.AgentState)
    requires MachineOk(db, net, m, x)
    requires agent.Joining? ==> x.slot == C.Absent
    requires agent.Ready? || agent.Awaiting? || agent.Acting? ==> x.slot == C.Saved(agent.node, agent.credential)
    requires agent.Acting? ==> AllDesired(db, agent.node, agent.todo)
    ensures MachineOk(db, net, m, x.(agent := agent))
  {
  }

  lemma StartKeepsInv(c: C.Cluster, m: nat, flag: Option<Token>, name: string)
    requires Inv(c) && m in c.machines
    ensures var agent := C.StartFrom(c.machines[m].slot, flag);
            && Inv(C.SetAgent(c, m, agent))
            && (agent.Joining? ==> Inv(C.SetAgent(c, m, agent).(net := c.net + {C.RegisterRequest(m, agent.token, name)})))
  {
    var agent := C.StartFrom(c.machines[m].slot, flag);
    AgentMoves(c.sys.db, c.net, m, c.machines[m], agent);
    MachineChange(c, m, c.machines[m].(agent := agent));
    if agent.Joining? {
      Sends(C.SetAgent(c, m, agent), C.RegisterRequest(m, agent.token, name));
    }
  }

  lemma ReceivedRegister(db: Db, net: set<C.Message>, m: nat, x: C.Machine, token: Token, node: Uuid, credential: Token, save: C.SaveOutcome)
    requires MachineOk(db, net, m, x) && x.agent == C.Joining(token) && C.RegisterReply(m, token, node, credential) in net
    ensures MachineOk(db, net, m, x.(slot := C.SaveSlot(x.slot, node, credential, save),
                                     agent := if save.SaveOk? then C.Ready(node, credential) else C.Down))
  {
  }

  lemma ReceiveRegisterKeepsInv(c: C.Cluster, a: C.Action)
    requires Inv(c) && C.CanAct(c, a) && a.ReceiveRegister?
    ensures Inv(C.Act(c, a))
  {
    assert MachineOk(c.sys.db, c.net, a.m, c.machines[a.m]);
    ReceivedRegister(c.sys.db, c.net, a.m, c.machines[a.m], a.token, a.node, a.credential, a.save);
    MachineChange(c, a.m, C.Act(c, a).machines[a.m]);
  }

  lemma SendHeartbeatKeepsInv(c: C.Cluster, m: nat, seen: Reconcile.Seen, reports: seq<Report>)
    requires Inv(c) && m in c.machines && c.machines[m].agent.Ready?
    ensures var agent := c.machines[m].agent;
            Inv(C.SetAgent(c, m, C.Awaiting(agent.node, agent.credential, seen)).(
                  net := c.net + {C.HeartbeatRequest(m, agent.node, agent.credential, reports)}))
  {
    var x := c.machines[m];
    assert MachineOk(c.sys.db, c.net, m, x);
    var agent := C.Awaiting(x.agent.node, x.agent.credential, seen);
    AgentMoves(c.sys.db, c.net, m, x, agent);
    MachineChange(c, m, x.(agent := agent));
    Sends(C.SetAgent(c, m, agent), C.HeartbeatRequest(m, agent.node, agent.credential, reports));
  }

  /** The agent goes on, gives up, finishes or dies, keeping what it knows. */
  lemma AgentActionKeepsInv(c: C.Cluster, m: nat, agent: C.AgentState)
    requires Inv(c) && m in c.machines
    requires var was := c.machines[m].agent;
             || agent == C.Down
             || (!was.Down? && !was.Joining? && agent == C.Ready(was.node, was.credential))
             || (C.IsActing(c, m) && agent == C.Advance(was))
    ensures Inv(C.SetAgent(c, m, agent))
  {
    var x := c.machines[m];
    assert MachineOk(c.sys.db, c.net, m, x);
    AgentMoves(c.sys.db, c.net, m, x, agent);
    MachineChange(c, m, x.(agent := agent));
  }

  lemma ReceiveHeartbeatKeepsInv(c: C.Cluster, m: nat, specs: seq<WorkloadSpec>)
    requires Inv(c) && m in c.machines && c.machines[m].agent.Awaiting?
    requires C.HeartbeatReply(m, c.machines[m].agent.node, specs) in c.net
    ensures var was := c.machines[m].agent;
            Inv(C.SetAgent(c, m, C.Acting(was.node, was.credential, was.seen, specs, false)))
  {
    var x := c.machines[m];
    assert MachineOk(c.sys.db, c.net, m, x);
    assert MessageOk(c.sys.db, c.machines, C.HeartbeatReply(m, x.agent.node, specs));
    var agent := C.Acting(x.agent.node, x.agent.credential, x.agent.seen, specs, false);
    AgentMoves(c.sys.db, c.net, m, x, agent);
    MachineChange(c, m, x.(agent := agent));
  }

  /** An acting agent changes its host and goes on with the same or the remaining workloads. */
  lemma ActorMoves(db: Db, net: set<C.Message>, m: nat, x: C.Machine, h: Runtime.Host, agent: C.AgentState)
    requires MachineOk(db, net, m, x) && x.agent.Acting? && x.agent.todo != []
    requires HostOk(db, x.agent.node, h)
    requires agent == C.Advance(x.agent) || agent == x.agent.(cleared := true)
    ensures MachineOk(db, net, m, x.(host := h, agent := agent))
  {
  }

  lemma ClearDeadKeepsInv(c: C.Cluster, a: C.Action)
    requires Inv(c) && C.CanAct(c, a) && a.ClearDead?
    ensures Inv(C.Act(c, a))
  {
    var x, x' := c.machines[a.m], C.Act(c, a).machines[a.m];
    assert MachineOk(c.sys.db, c.net, a.m, x);
    StopKeepsHostOk(c.sys.db, x.agent.node, x.host, x.agent.todo[0], a.stop);
    ActorMoves(c.sys.db, c.net, a.m, x, x'.host, x'.agent);
    MachineChange(c, a.m, x');
  }

  lemma StartWorkloadKeepsInv(c: C.Cluster, a: C.Action)
    requires Inv(c) && C.CanAct(c, a) && a.StartWorkload?
    ensures Inv(C.Act(c, a))
  {
    var x, x' := c.machines[a.m], C.Act(c, a).machines[a.m];
    assert MachineOk(c.sys.db, c.net, a.m, x);
    RunKeepsHostOk(c.sys.db, x.agent.node, x.host, x.agent.todo[0], a.run);
    ActorMoves(c.sys.db, c.net, a.m, x, x'.host, x'.agent);
    MachineChange(c, a.m, x');
  }

  lemma ProcessMoves(db: Db, net: set<C.Message>, m: nat, x: C.Machine, container: string, task: Runtime.Task)
    requires MachineOk(db, net, m, x) && container in x.host.tasks
    ensures MachineOk(db, net, m, x.(host := x.host.(tasks := x.host.tasks[container := task])))
  {
    assert x.slot.Saved?;
  }

  lemma ProcessChangesKeepsInv(c: C.Cluster, a: C.Action)
    requires Inv(c) && C.CanAct(c, a) && a.ProcessChanges?
    ensures Inv(C.Act(c, a))
  {
    var x := c.machines[a.m];
    assert MachineOk(c.sys.db, c.net, a.m, x);
    ProcessMoves(c.sys.db, c.net, a.m, x, a.container, x.host.tasks[a.container].(status := a.status));
    MachineChange(c, a.m, C.Act(c, a).machines[a.m]);
  }

  /** A handler executes a statement outside any transaction and moves on. */
  lemma HandlerWrites(c: C.Cluster, step: Step, hd: nat, h: C.Handler)
    requires Inv(c) && (step.UpdateNodeHeartbeat? || step.UpdateWorkloadStatus?)
    requires HandlerOk(After(c.sys, step).db, c.machines, h)
    ensures Inv(c.(sys := After(c.sys, step), handlers := c.handlers[hd := h]))
  {
    assert After(c.sys, step).txs == c.sys.txs;
    StoreChange(c, step, c.handlers[hd := h], c.regs);
  }

  lemma HandleHeartbeatKeepsInv(c: C.Cluster, a: C.Action)
    requires Inv(c) && C.CanAct(c, a) && a.HandleHeartbeat?
    ensures Inv(C.Act(c, a))
  {
    assert MessageOk(c.sys.db, c.machines, C.HeartbeatRequest(a.m, a.node, a.credential, a.reports));
    HandlerWrites(c, UpdateNodeHeartbeat(a.node, a.resources, a.address, a.now), a.hd, C.Updating(a.m, a.node, a.reports));
  }

  lemma UpdatingIsOk(db: Db, db': Db, machines: map<nat, C.Machine>, h: C.Handler, todo: seq<Report>)
    requires HandlerOk(db, machines, h) && h.Updating?
    ensures HandlerOk(db', machines, h.(todo := todo))
  {
  }

  lemma HandleReportKeepsInv(c: C.Cluster, a: C.Action)
    requires Inv(c) && C.CanAct(c, a) && a.HandleReport?
    ensures Inv(C.Act(c, a))
  {
    var h := c.handlers[a.hd];
    var r := h.todo[0];
    var step := UpdateWorkloadStatus(h.node, r.name, r.state, r.pid, a.now);
    UpdatingIsOk(c.sys.db, After(c.sys, step).db, c.machines, h, h.todo[1..]);
    HandlerWrites(c, step, a.hd, h.(todo := h.todo[1..]));
  }

  lemma ListedIsOk(db: Db, machines: map<nat, C.Machine>, m: nat, node: Uuid, ws: seq<Workload>)
    requires ServesNode(machines, m, node) && ListsNode(db, node, ws)
    ensures HandlerOk(db, machines, C.Listed(m, node, ws))
  {
  }

  lemma HandleListKeepsInv(c: C.Cluster, a: C.Action)
    requires Inv(c) && C.CanAct(c, a) && a.HandleList?
    ensures Inv(C.Act(c, a))
  {
    var h := c.handlers[a.hd];
    assert HandlerOk(c.sys.db, c.machines, h);
    ListedIsOk(c.sys.db, c.machines, h.m, h.node, a.ws);
    HandlerChange(c, c.handlers[a.hd := C.Listed(h.m, h.node, a.ws)]);
  }

  lemma HandlerFailsKeepsInv(c: C.Cluster, a: C.Action)
    requires Inv(c) && C.CanAct(c, a) && a.HandlerFails?
    ensures Inv(C.Act(c, a))
  {
    HandlerChange(c, c.handlers - {a.hd});
  }

  /** A reply assembled from two queries at different moments describes desired state. */
  lemma HandlePortsKeepsInv(c: C.Cluster, a: C.Action)
    requires Inv(c) && C.CanAct(c, a) && a.HandlePorts?
    ensures Inv(C.Act(c, a))
  {
    var h := c.handlers[a.hd];
    assert HandlerOk(c.sys.db, c.machines, h);
    var specs := Map(SpecOf, a.ws);
    forall i | 0 <= i < |specs|
      ensures Desired(c.sys.db, h.node, specs[i])
    {
      SplitListingIsDesired(c.sys.db, c.sys.db, h.node, a.ws[i]);
      assert Describes(c.sys.db, h.node, a.ws[i].id, specs[i]);
    }
    Sends(c, C.HeartbeatReply(h.m, h.node, specs));
    HandlerChange(c.(net := c.net + {C.HeartbeatReply(h.m, h.node, specs)}), c.handlers - {a.hd});
  }

  lemma AgentKeepsInv(c: C.Cluster, a: C.Action)
    requires Inv(c) && C.CanAct(c, a)
    requires a.StartAgent? || a.GiveUp? || a.SendHeartbeat? || a.ReceiveHeartbeat? || a.SkipRunning? || a.FinishRound? || a.KillAgent?
    ensures Inv(C.Act(c, a))
  {
    if a.StartAgent? {
      StartKeepsInv(c, a.m, a.flag, a.name);
    } else if a.SendHeartbeat? {
      SendHeartbeatKeepsInv(c, a.m, Reconcile.ByName(a.statuses), Map(Agent.ReportOf, a.statuses));
    } else if a.ReceiveHeartbeat? {
      ReceiveHeartbeatKeepsInv(c, a.m, a.specs);
    } else {
      AgentActionKeepsInv(c, a.m, C.Act(c, a).machines[a.m].agent);
    }
  }

  lemma HandlerKeepsInv(c: C.Cluster, a: C.Action)
    requires Inv(c) && C.CanAct(c, a)
    requires a.HandleHeartbeat? || a.HandleReport? || a.HandleList? || a.HandlePorts? || a.HandlerFails?
    ensures Inv(C.Act(c, a))
  {
    if a.HandleHeartbeat? { HandleHeartbeatKeepsInv(c, a); }
    else if a.HandleReport? { HandleReportKeepsInv(c, a); }
    else if a.HandleList? { HandleListKeepsInv(c, a); }
    else if a.HandlePorts? { HandlePortsKeepsInv(c, a); }
    else { HandlerFailsKeepsInv(c, a); }
  }

  lemma ActionKeepsInv(c: C.Cluster, a: C.Action)
    requires Inv(c) && C.CanAct(c, a)
    ensures Inv(C.Act(c, a))
  {
    if a.StoreStep? { StoreActionKeepsInv(c, a); }
    else if a.HandleRegister? { HandleRegisterKeepsInv(c, a); }
    else if a.ReceiveRegister? { ReceiveRegisterKeepsInv(c, a); }
    else if a.ClearDead? { ClearDeadKeepsInv(c, a); }
    else if a.StartWorkload? { StartWorkloadKeepsInv(c, a); }
    else if a.ProcessChanges? { ProcessChangesKeepsInv(c, a); }
    else if a.HandleHeartbeat? || a.HandleReport? || a.HandleList? || a.HandlePorts? || a.HandlerFails? { HandlerKeepsInv(c, a); }
    else { AgentKeepsInv(c, a); }
  }

  // ---------------------------------------------------------------- what it means

  /** The container's record is there for workload w, with w's image and exactly w's ports. */
  ghost predicate RunsWorkload(c: C.Cluster, m: nat, name: string, w: Uuid) {
    && m in c.machines && c.machines[m].slot.Saved? && name in c.machines[m].host.records
    && Describes(c.sys.db, c.machines[m].slot.node, w, SpecOfRecord(name, c.machines[m].host.records[name]))
  }

  /** Every container matches a committed workload assigned to its machine's node. */
  ghost predicate ContainersMatch(c: C.Cluster) {
    forall m, name :: m in c.machines && name in c.machines[m].host.records ==> exists w :: RunsWorkload(c, m, name, w)
  }

  /** No container name is on two machines. */
  ghost predicate NotTwice(c: C.Cluster) {
    forall m, k, name ::
      && m in c.machines && k in c.machines
      && name in c.machines[m].host.records && name in c.machines[k].host.records
      ==> m == k
  }

  predicate SamePort(p: Port, q: Port) {
    p.hostPort == q.hostPort && p.protocol == q.protocol
  }

  /** No two mappings of containers on one machine share host port and protocol. */
  ghost predicate PortsDisjoint(c: C.Cluster) {
    forall m, a, b, i, j ::
      && m in c.machines && a in c.machines[m].host.records && b in c.machines[m].host.records
      && 0 <= i < |c.machines[m].host.records[a].ports| && 0 <= j < |c.machines[m].host.records[b].ports|
      && SamePort(c.machines[m].host.records[a].ports[i], c.machines[m].host.records[b].ports[j])
      ==> a == b && i == j
  }

  predicate SameForward(p: Runtime.CniPort, q: Runtime.CniPort) {
    p.hostPort == q.hostPort && p.protocol == q.protocol
  }

  /** No two forwardings on one machine share host port and protocol, those of attachments that
      have lost their record included. */
  ghost predicate ForwardsDisjoint(c: C.Cluster) {
    forall m, a, b, i, j ::
      && m in c.machines && a in c.machines[m].host.attached && b in c.machines[m].host.attached
      && 0 <= i < |c.machines[m].host.attached[a]| && 0 <= j < |c.machines[m].host.attached[b]|
      && SameForward(c.machines[m].host.attached[a][i], c.machines[m].host.attached[b][j])
      ==> a == b && i == j
  }

  /** A process only runs inside such a container, and only its ports are forwarded. */
  ghost predicate NothingElse(c: C.Cluster) {
    forall m :: m in c.machines ==>
      && c.machines[m].host.tasks.Keys <= c.machines[m].host.records.Keys
      && forall n :: n in c.machines[m].host.attached ==>
           c.machines[m].slot.Saved?
           && exists spec :: AttachedFor(c.sys.db, c.machines[m].slot.node, n, c.machines[m].host.attached[n], spec)
  }

  lemma MatchHolds(c: C.Cluster, m: nat, name: string) returns (w: Uuid)
    requires Inv(c) && m in c.machines && name in c.machines[m].host.records
    ensures RunsWorkload(c, m, name, w)
  {
    var x := c.machines[m];
    assert MachineOk(c.sys.db, c.net, m, x);
    assert Desired(c.sys.db, x.slot.node, SpecOfRecord(name, x.host.records[name]));
    w :| Describes(c.sys.db, x.slot.node, w, SpecOfRecord(name, x.host.records[name]));
  }

  lemma NodesHaveOneMachine(c: C.Cluster, m: nat, k: nat)
    requires Inv(c) && m in c.machines && k in c.machines
    requires c.machines[m].slot.Saved? && c.machines[k].slot.Saved? && c.machines[m].slot.node == c.machines[k].slot.node
    ensures m == k
  {
    var x, y := c.machines[m].slot, c.machines[k].slot;
    assert MachineOk(c.sys.db, c.net, m, c.machines[m]) && MachineOk(c.sys.db, c.net, k, c.machines[k]);
    var s :| C.RegisterReply(m, s, x.node, x.credential) in c.net;
    var t :| C.RegisterReply(k, t, y.node, y.credential) in c.net;
    assert C.RegisterReply(m, s, x.node, x.credential) == C.RegisterReply(k, t, y.node, y.credential);
  }

  lemma NotTwiceHolds(c: C.Cluster, m: nat, k: nat, name: string)
    requires Inv(c) && m in c.machines && k in c.machines
    requires name in c.machines[m].host.records && name in c.machines[k].host.records
    ensures m == k
  {
    var v := MatchHolds(c, m, name);
    var w := MatchHolds(c, k, name);
    assert v == w;
    NodesHaveOneMachine(c, m, k);
  }

  /** The row behind the i-th port of a container. */
  lemma RowBehind(db: Db, w: Uuid, ports: seq<StorePort>) returns (ids: seq<Uuid>)
    requires IsPortList(db, w, ports)
    ensures |ids| == |ports| && Distinct(ids)
    ensures forall i :: 0 <= i < |ids| ==> ids[i] in db.ports && db.ports[ids[i]].port == ports[i] && db.ports[ids[i]].workload == w
  {
    ids :| OwnRows(db, w, ids) && Looks(PortColumn(db), ids, ports);
    forall i | 0 <= i < |ids|
      ensures ids[i] in db.ports && db.ports[ids[i]].port == ports[i] && db.ports[ids[i]].workload == w
    {
      assert ids[i] in ids;
    }
  }

  lemma PortsDisjointHolds(c: C.Cluster, m: nat, a: string, b: string, i: nat, j: nat)
    requires Inv(c) && m in c.machines && a in c.machines[m].host.records && b in c.machines[m].host.records
    requires i < |c.machines[m].host.records[a].ports| && j < |c.machines[m].host.records[b].ports|
    requires SamePort(c.machines[m].host.records[a].ports[i], c.machines[m].host.records[b].ports[j])
    ensures a == b && i == j
  {
    var db, h := c.sys.db, c.machines[m].host;
    var v := MatchHolds(c, m, a);
    var w := MatchHolds(c, m, b);
    RowsDecide(db, c.machines[m].slot.node, v, w, SpecOfRecord(a, h.records[a]), SpecOfRecord(b, h.records[b]), i, j);
  }

  /** Two stored mappings of one node with the same host port and protocol are one row. */
  lemma RowsDecide(db: Db, node: Uuid, v: Uuid, w: Uuid, a: WorkloadSpec, b: WorkloadSpec, i: nat, j: nat)
    requires StoreProofs.WorkloadsOk(db) && StoreProofs.PortsOk(db)
    requires Describes(db, node, v, a) && Describes(db, node, w, b)
    requires i < |a.ports| && j < |b.ports|
    requires a.ports[i].hostPort == b.ports[j].hostPort && a.ports[i].protocol == b.ports[j].protocol
    ensures a.name == b.name && (a == b ==> i == j)
  {
    var ia := RowBehind(db, v, Map(Widen, a.ports));
    var ib := RowBehind(db, w, Map(Widen, b.ports));
    assert RowKey(db.ports[ia[i]]) == RowKey(db.ports[ib[j]]);
    assert ia[i] == ib[j];
    if a == b {
      var p, q := Widen(a.ports[i]), Widen(a.ports[j]);
      assert RowKey(db.ports[ia[i]]) == RowKey(db.ports[ia[j]]);
    }
  }

  /** Stored mappings have their protocol filled in, so what CNI is told is what is stored. */
  lemma ProtocolGiven(db: Db, node: Uuid, w: Uuid, spec: WorkloadSpec, i: nat)
    requires StoreProofs.PortsOk(db) && Describes(db, node, w, spec) && i < |spec.ports|
    ensures spec.ports[i].protocol != ""
    ensures Runtime.CniMappings(Map(FromApi, spec.ports))[i]
            == Runtime.CniPort(spec.ports[i].hostPort, spec.ports[i].containerPort, spec.ports[i].protocol)
  {
    var ids := RowBehind(db, w, Map(Widen, spec.ports));
    assert db.ports[ids[i]].port.protocol == spec.ports[i].protocol;
  }

  lemma ForwardsDecide(db: Db, node: Uuid, h: Runtime.Host, a: string, b: string, i: nat, j: nat)
    requires StoreProofs.WorkloadsOk(db) && StoreProofs.PortsOk(db) && HostOk(db, node, h)
    requires a in h.attached && b in h.attached && i < |h.attached[a]| && j < |h.attached[b]|
    requires SameForward(h.attached[a][i], h.attached[b][j])
    ensures a == b && i == j
  {
    var sa :| AttachedFor(db, node, a, h.attached[a], sa);
    var sb :| AttachedFor(db, node, b, h.attached[b], sb);
    if a == b {
      sb := sa;
    }
    var v :| Describes(db, node, v, sa);
    var w :| Describes(db, node, w, sb);
    ProtocolGiven(db, node, v, sa, i);
    ProtocolGiven(db, node, w, sb, j);
    RowsDecide(db, node, v, w, sa, sb, i, j);
  }

  lemma ForwardsDisjointHolds(c: C.Cluster)
    requires Inv(c)
    ensures ForwardsDisjoint(c)
  {
    forall m, a, b, i, j |
      && m in c.machines && a in c.machines[m].host.attached && b in c.machines[m].host.attached
      && 0 <= i < |c.machines[m].host.attached[a]| && 0 <= j < |c.machines[m].host.attached[b]|
      && SameForward(c.machines[m].host.attached[a][i], c.machines[m].host.attached[b][j])
      ensures a == b && i == j
    {
      assert MachineOk(c.sys.db, c.net, m, c.machines[m]);
      ForwardsDecide(c.sys.db, c.machines[m].slot.node, c.machines[m].host, a, b, i, j);
    }
  }

  ghost predicate Safe(c: C.Cluster) {
    ContainersMatch(c) && NotTwice(c) && PortsDisjoint(c) && ForwardsDisjoint(c) && NothingElse(c)
  }

  lemma InvIsSafe(c: C.Cluster)
    requires Inv(c)
    ensures Safe(c)
  {
    ForwardsDisjointHolds(c);
    forall m, name | m in c.machines && name in c.machines[m].host.records
      ensures exists w :: RunsWorkload(c, m, name, w)
    {
      var w := MatchHolds(c, m, name);
    }
    forall m, k, name | m in c.machines && k in c.machines
                        && name in c.machines[m].host.records && name in c.machines[k].host.records
      ensures m == k
    {
      NotTwiceHolds(c, m, k, name);
    }
    forall m, a, b, i, j |
      && m in c.machines && a in c.machines[m].host.records && b in c.machines[m].host.records
      && 0 <= i < |c.machines[m].host.records[a].ports| && 0 <= j < |c.machines[m].host.records[b].ports|
      && SamePort(c.machines[m].host.records[a].ports[i], c.machines[m].host.records[b].ports[j])
      ensures a == b && i == j
    {
      PortsDisjointHolds(c, m, a, b, i, j);
    }
    forall m | m in c.machines
      ensures c.machines[m].host.tasks.Keys <= c.machines[m].host.records.Keys
      ensures forall n :: n in c.machines[m].host.attached ==>
                c.machines[m].slot.Saved?
                && exists spec :: AttachedFor(c.sys.db, c.machines[m].slot.node, n, c.machines[m].host.attached[n], spec)
    {
      assert MachineOk(c.sys.db, c.net, m, c.machines[m]);
    }
  }

  lemma InitialInv(c: C.Cluster)
    requires C.Initial(c)
    ensures Inv(c)
  {
    StoreProofs.InitialInv();
  }

  lemma {:induction false} RunKeepsInv(c: C.Cluster, acts: seq<C.Action>)
    requires Inv(c) && C.Runs(c, acts)
    ensures Inv(C.End(c, acts))
    decreases |acts|
  {
    if acts != [] {
      ActionKeepsInv(c, acts[0]);
      RunKeepsInv(C.Act(c, acts[0]), acts[1..]);
    }
  }

  /** Cluster safety, over every run: with any number of machines, deploys interleaved
      statement by statement, delayed, repeated and lost messages, crashing containers,
      failing runtime calls and dying agents, every container on a machine is there for a
      committed workload of that machine's node with its image and ports; no workload is on
      two machines; and neither recorded nor forwarded ports on a machine collide. */
  lemma ClusterIsSafe(c: C.Cluster, acts: seq<C.Action>)
    requires C.Initial(c) && C.Runs(c, acts)
    ensures Safe(C.End(c, acts))
  {
    InitialInv(c);
    RunKeepsInv(c, acts);
    InvIsSafe(C.End(c, acts));
  }

  /** A reply never goes stale: however late it is received, and whatever was deployed in
      between, each of its entries still describes a workload of the machine's node. */
  lemma RepliesStayTrue(c: C.Cluster, acts: seq<C.Action>, m: nat, node: Uuid, specs: seq<WorkloadSpec>)
    requires C.Initial(c) && C.Runs(c, acts)
    requires C.HeartbeatReply(m, node, specs) in C.End(c, acts).net
    ensures AllDesired(C.End(c, acts).sys.db, node, specs) && ServesNode(C.End(c, acts).machines, m, node)
  {
    InitialInv(c);
    RunKeepsInv(c, acts);
    assert MessageOk(C.End(c, acts).sys.db, C.End(c, acts).machines, C.HeartbeatReply(m, node, specs));
  }

  // ---------------------------------------------------------------- identity of a machine

  /** A saved credential authenticates as the saved node and as no other. */
  ghost predicate Authenticates(c: C.Cluster, m: nat) {
    m in c.machines && c.machines[m].slot.Saved? ==>
      && HasCredential(c.sys.db, c.machines[m].slot.node, c.machines[m].slot.credential)
      && forall n :: HasCredential(c.sys.db, n, c.machines[m].slot.credential) ==> n == c.machines[m].slot.node
  }

  lemma SavedAuthenticates(c: C.Cluster, m: nat)
    requires Inv(c)
    ensures Authenticates(c, m)
  {
    if m in c.machines && c.machines[m].slot.Saved? {
      var slot := c.machines[m].slot;
      assert MachineOk(c.sys.db, c.net, m, c.machines[m]);
      var token :| C.RegisterReply(m, token, slot.node, slot.credential) in c.net;
      assert MessageOk(c.sys.db, c.machines, C.RegisterReply(m, token, slot.node, slot.credential));
    }
  }

  /** Once saved, the file does not change and the agent sends no registration any more. */
  lemma SavedIsFinal(c: C.Cluster, a: C.Action, m: nat)
    requires m in c.machines && MachineOk(c.sys.db, c.net, m, c.machines[m]) && C.CanAct(c, a) && c.machines[m].slot.Saved?
    ensures var c' := C.Act(c, a);
            && m in c'.machines && c'.machines[m].slot == c.machines[m].slot
            && forall msg :: msg in c'.net && msg.RegisterRequest? && msg.m == m ==> msg in c.net
  {
  }

  lemma {:induction false} SavedKept(c: C.Cluster, acts: seq<C.Action>, m: nat)
    requires Inv(c) && C.Runs(c, acts) && m in c.machines && c.machines[m].slot.Saved?
    ensures var c' := C.End(c, acts);
            && m in c'.machines && c'.machines[m].slot == c.machines[m].slot && Authenticates(c', m)
            && forall msg :: msg in c'.net && msg.RegisterRequest? && msg.m == m ==> msg in c.net
    decreases |acts|
  {
    if acts == [] {
      SavedAuthenticates(c, m);
    } else {
      ActionKeepsInv(c, acts[0]);
      SavedIsFinal(c, acts[0], m);
      SavedKept(C.Act(c, acts[0]), acts[1..], m);
    }
  }

  /** Over every run, whatever crashed, was lost or could not be written: a credential saved
      at some point is still there at the end, is still valid for exactly its node, and the
      machine has sent no registration since. */
  lemma SavedForever(c: C.Cluster, before: seq<C.Action>, after: seq<C.Action>, m: nat)
    requires C.Initial(c) && C.Runs(c, before) && C.Runs(C.End(c, before), after)
    requires m in C.End(c, before).machines && C.End(c, before).machines[m].slot.Saved?
    ensures var c1, c2 := C.End(c, before), C.End(C.End(c, before), after);
            && m in c2.machines && c2.machines[m].slot == c1.machines[m].slot && Authenticates(c2, m)
            && forall msg :: msg in c2.net && msg.RegisterRequest? && msg.m == m ==> msg in c1.net
  {
    InitialInv(c);
    RunKeepsInv(c, before);
    SavedKept(C.End(c, before), after, m);
  }

  /** However often agents restart with one token, all registration replies they can ever get
      for it are one reply: at most one node is created. */
  lemma OneTokenOneNode(c: C.Cluster, acts: seq<C.Action>, a: C.Message, b: C.Message)
    requires C.Initial(c) && C.Runs(c, acts) && a in C.End(c, acts).net && b in C.End(c, acts).net
    requires a.RegisterReply? && b.RegisterReply? && a.token == b.token
    ensures a == b
  {
    var c' := C.End(c, acts);
    InitialInv(c);
    RunKeepsInv(c, acts);
    assert MessageOk(c'.sys.db, c'.machines, a) && MessageOk(c'.sys.db, c'.machines, b);
  }

  lemma {:induction false} RunKeepsNet(c: C.Cluster, acts: seq<C.Action>)
    requires C.Runs(c, acts)
    ensures c.net <= C.End(c, acts).net
    decreases |acts|
  {
    if acts != [] {
      RunKeepsNet(C.Act(c, acts[0]), acts[1..]);
    }
  }
}
