/** The whole system as one state machine: any number of machines, each with a runtime, a
    credential file and an agent that may die and restart at any point; one store with any
    number of transactions in flight; handlers that query it one statement at a time; and a
    network that delays, reorders, repeats and loses messages. */
module Cluster {
  import opened Types
  import opened Store
  import opened ControlPlane
  import opened PortConversions
  import Runtime
  import Reconcile
  import Agent

  /** The credential file. A failed write may leave it unreadable. */
  datatype Slot = Absent | Corrupt | Saved(node: Uuid, credential: Token)

  /** Where the agent is in its program. `todo` are the desired workloads still to be looked
      at, `cleared` says that the first of them has had its dead container removed. */
  datatype AgentState =
    | Down
    | Joining(token: Token)
    | Ready(node: Uuid, credential: Token)
    | Awaiting(node: Uuid, credential: Token, seen: Reconcile.Seen)
    | Acting(node: Uuid, credential: Token, seen: Reconcile.Seen, todo: seq<WorkloadSpec>, cleared: bool)

  datatype Machine = Machine(slot: Slot, agent: AgentState, host: Runtime.Host)

  /** Messages are never removed: one that is never received is lost, and any of them may be
      received late or again. */
  datatype Message =
    | RegisterRequest(m: nat, token: Token, name: string)
    | RegisterReply(m: nat, token: Token, node: Uuid, credential: Token)
    | HeartbeatRequest(m: nat, node: Uuid, credential: Token, reports: seq<Report>)
    | HeartbeatReply(m: nat, node: Uuid, specs: seq<WorkloadSpec>)

  /** A heartbeat handler between two of its queries. */
  datatype Handler =
    | Updating(m: nat, node: Uuid, todo: seq<Report>)
    | Listed(m: nat, node: Uuid, ws: seq<Workload>)

  /** `regs` remembers for which machine a registration transaction runs. */
  datatype Cluster = Cluster(
    sys: Sys, machines: map<nat, Machine>, net: set<Message>, handlers: map<nat, Handler>, regs: map<nat, nat>)

  datatype SaveOutcome = SaveOk | SaveFails | SaveCorrupts

  datatype Action =
    | StoreStep(step: Step)
    | HandleRegister(m: nat, t: nat, reg: Registration)
    | StartAgent(m: nat, flag: Option<Token>, name: string)
    | ReceiveRegister(m: nat, token: Token, node: Uuid, credential: Token, save: SaveOutcome)
    | GiveUp(m: nat)
    | SendHeartbeat(m: nat, statuses: seq<Status>)
    | ReceiveHeartbeat(m: nat, specs: seq<WorkloadSpec>)
    | SkipRunning(m: nat)
    | ClearDead(m: nat, stop: Runtime.StopFaults)
    | StartWorkload(m: nat, run: Runtime.RunFaults)
    | FinishRound(m: nat)
    | KillAgent(m: nat)
    | ProcessChanges(m: nat, container: string, status: Runtime.ProcessStatus)
    | HandleHeartbeat(hd: nat, m: nat, node: Uuid, credential: Token, reports: seq<Report>, resources: Resources, address: string, now: nat)
    | HandleReport(hd: nat, now: nat)
    | HandleList(hd: nat, ws: seq<Workload>)
    | HandlePorts(hd: nat, ws: seq<Workload>)
    | HandlerFails(hd: nat)

  predicate Opens(step: Step, t: nat) {
    (step.BeginRegister? || step.BeginCreate?) && step.t == t
  }

  /** The next desired workload of an agent that is acting. */
  predicate IsActing(c: Cluster, m: nat) {
    m in c.machines && c.machines[m].agent.Acting? && c.machines[m].agent.todo != []
  }

  function Next(c: Cluster, m: nat): WorkloadSpec
    requires IsActing(c, m)
  {
    c.machines[m].agent.todo[0]
  }

  ghost predicate CanAct(c: Cluster, a: Action) {
    match a
    case StoreStep(step) => Enabled(c.sys, step) && forall t :: t in c.regs ==> !Opens(step, t)
    case HandleRegister(m, t, reg) =>
      && m in c.machines && RegisterRequest(m, reg.token, reg.name) in c.net
      && t !in c.regs && Enabled(c.sys, BeginRegister(t, reg))
    case StartAgent(m, token, name) => m in c.machines && c.machines[m].agent.Down?
    case ReceiveRegister(m, token, node, credential, save) =>
      && m in c.machines && c.machines[m].agent == Joining(token)
      && RegisterReply(m, token, node, credential) in c.net
    case GiveUp(m) => m in c.machines && (c.machines[m].agent.Joining? || c.machines[m].agent.Awaiting?)
    case SendHeartbeat(m, statuses) =>
      m in c.machines && c.machines[m].agent.Ready? && Runtime.IsListing(c.machines[m].host, statuses)
    case ReceiveHeartbeat(m, specs) =>
      m in c.machines && c.machines[m].agent.Awaiting? && HeartbeatReply(m, c.machines[m].agent.node, specs) in c.net
    case SkipRunning(m) => IsActing(c, m) && Reconcile.SeenRunning(c.machines[m].agent.seen, Next(c, m).name)
    case ClearDead(m, f) =>
      && IsActing(c, m) && !c.machines[m].agent.cleared
      && Next(c, m).name in c.machines[m].agent.seen && !Reconcile.SeenRunning(c.machines[m].agent.seen, Next(c, m).name)
    case StartWorkload(m, f) =>
      IsActing(c, m) && (c.machines[m].agent.cleared || Next(c, m).name !in c.machines[m].agent.seen)
    case FinishRound(m) => m in c.machines && c.machines[m].agent.Acting? && c.machines[m].agent.todo == []
    case KillAgent(m) => m in c.machines
    case ProcessChanges(m, container, status) => m in c.machines && container in c.machines[m].host.tasks
    case HandleHeartbeat(hd, m, node, credential, reports, _, _, _) =>
      && hd !in c.handlers && m in c.machines
      && HeartbeatRequest(m, node, credential, reports) in c.net && HasCredential(c.sys.db, node, credential)
    case HandleReport(hd, now) => hd in c.handlers && c.handlers[hd].Updating? && c.handlers[hd].todo != []
    case HandleList(hd, ws) =>
      && hd in c.handlers && c.handlers[hd].Updating? && c.handlers[hd].todo == []
      && ListsNode(c.sys.db, c.handlers[hd].node, ws)
    case HandlePorts(hd, ws) =>
      && hd in c.handlers && c.handlers[hd].Listed? && |ws| == |c.handlers[hd].ws|
      && forall i :: 0 <= i < |ws| ==>
           && ws[i].id == c.handlers[hd].ws[i].id && ws[i].row == c.handlers[hd].ws[i].row
           && IsPortList(c.sys.db, ws[i].id, ws[i].ports)
    case HandlerFails(hd) => hd in c.handlers
  }

  function SetAgent(c: Cluster, m: nat, agent: AgentState): Cluster
    requires m in c.machines
  {
    c.(machines := c.machines[m := c.machines[m].(agent := agent)])
  }

  function Advance(agent: AgentState): AgentState
    requires agent.Acting? && agent.todo != []
  {
    agent.(todo := agent.todo[1..], cleared := false)
  }

  /** ensureRegistered, as far as it goes without the control plane. */
  function StartFrom(slot: Slot, token: Option<Token>): AgentState {
    match slot
    case Saved(node, credential) => Ready(node, credential)
    case Corrupt => Down
    case Absent => if token.Some? then Joining(token.value) else Down
  }

  function SaveSlot(slot: Slot, node: Uuid, credential: Token, save: SaveOutcome): Slot {
    match save
    case SaveOk => Saved(node, credential)
    case SaveFails => slot
    case SaveCorrupts => Corrupt
  }

  ghost function Act(c: Cluster, a: Action): Cluster
    requires CanAct(c, a)
  {
    match a
    case StoreStep(step) =>
      var c' := c.(sys := After(c.sys, step));
      if step.CommitRegister? && step.t in c.regs then
        var tx := c.sys.txs[step.t];
        c'.(net := c.net + {RegisterReply(c.regs[step.t], tx.reg.token, tx.phase.id, tx.reg.credential)})
      else c'
    case HandleRegister(m, t, reg) =>
      c.(sys := After(c.sys, BeginRegister(t, reg)), regs := c.regs[t := m])
    case StartAgent(m, token, name) =>
      var agent := StartFrom(c.machines[m].slot, token);
      SetAgent(c, m, agent).(net := if agent.Joining? then c.net + {RegisterRequest(m, agent.token, name)} else c.net)
    case ReceiveRegister(m, token, node, credential, save) =>
      c.(machines := c.machines[m := c.machines[m].(
           slot := SaveSlot(c.machines[m].slot, node, credential, save),
           agent := if save.SaveOk? then Ready(node, credential) else Down)])
    case GiveUp(m) =>
      var agent := c.machines[m].agent;
      SetAgent(c, m, if agent.Awaiting? then Ready(agent.node, agent.credential) else Down)
    case SendHeartbeat(m, statuses) =>
      var agent := c.machines[m].agent;
      SetAgent(c, m, Awaiting(agent.node, agent.credential, Reconcile.ByName(statuses))).(
        net := c.net + {HeartbeatRequest(m, agent.node, agent.credential, Map(Agent.ReportOf, statuses))})
    case ReceiveHeartbeat(m, specs) =>
      var agent := c.machines[m].agent;
      SetAgent(c, m, Acting(agent.node, agent.credential, agent.seen, specs, false))
    case SkipRunning(m) => SetAgent(c, m, Advance(c.machines[m].agent))
    case ClearDead(m, f) =>
      var x := c.machines[m];
      var (h, r) := Runtime.StopHost(x.host, Next(c, m).name, f);
      c.(machines := c.machines[m := x.(host := h,
           agent := if r == Runtime.StopFailed then Advance(x.agent) else x.agent.(cleared := true))])
    case StartWorkload(m, f) =>
      var x, wl := c.machines[m], Next(c, m);
      var h := Runtime.RunHost(x.host, wl.name, wl.image, Map(FromApi, wl.ports), f).0;
      c.(machines := c.machines[m := x.(host := h, agent := Advance(x.agent))])
    case FinishRound(m) =>
      SetAgent(c, m, Ready(c.machines[m].agent.node, c.machines[m].agent.credential))
    case KillAgent(m) => SetAgent(c, m, Down)
    case ProcessChanges(m, container, status) =>
      var x := c.machines[m];
      var tasks := x.host.tasks[container := x.host.tasks[container].(status := status)];
      c.(machines := c.machines[m := x.(host := x.host.(tasks := tasks))])
    case HandleHeartbeat(hd, m, node, credential, reports, resources, address, now) =>
      c.(sys := After(c.sys, UpdateNodeHeartbeat(node, resources, address, now)),
         handlers := c.handlers[hd := Updating(m, node, reports)])
    case HandleReport(hd, now) =>
      var h := c.handlers[hd];
      var r := h.todo[0];
      c.(sys := After(c.sys, UpdateWorkloadStatus(h.node, r.name, r.state, r.pid, now)),
         handlers := c.handlers[hd := h.(todo := h.todo[1..])])
    case HandleList(hd, ws) =>
      c.(handlers := c.handlers[hd := Listed(c.handlers[hd].m, c.handlers[hd].node, ws)])
    case HandlePorts(hd, ws) =>
      c.(net := c.net + {HeartbeatReply(c.handlers[hd].m, c.handlers[hd].node, Map(SpecOf, ws))},
         handlers := c.handlers - {hd})
    case HandlerFails(hd) => c.(handlers := c.handlers - {hd})
  }

  /** Machines without a credential file and with nothing running; an empty store. */
  ghost predicate Initial(c: Cluster) {
    && c.sys == INITIAL && c.net == {} && c.handlers == map[] && c.regs == map[]
    && forall m :: m in c.machines ==> c.machines[m] == Machine(Absent, Down, Runtime.EMPTY_HOST)
  }

  ghost predicate Runs(c: Cluster, acts: seq<Action>)
    decreases |acts|
  {
    acts == [] || (CanAct(c, acts[0]) && Runs(Act(c, acts[0]), acts[1..]))
  }

  ghost function End(c: Cluster, acts: seq<Action>): Cluster
    requires Runs(c, acts)
    decreases |acts|
  {
    if acts == [] then c else End(Act(c, acts[0]), acts[1..])
  }
}
