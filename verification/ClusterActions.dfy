/** What the actions of the cluster do and what they send, one by one, said of machines, files
    and messages. */
module ClusterActions {
  import opened Types
  import opened Store
  import opened ControlPlane
  import opened PortConversions
  import Runtime
  import Reconcile
  import Agent
  import C = Cluster
  import CS = ClusterSafety
  import CP = ClusterProgress

  /** Everything but machine m and the network is as before, and messages are only added. */
  ghost predicate OnlyMachine(c: C.Cluster, c': C.Cluster, m: nat) {
    && c'.sys == c.sys && c'.handlers == c.handlers && c'.regs == c.regs && c.net <= c'.net
    && m in c.machines && c'.machines.Keys == c.machines.Keys
    && forall k :: k in c.machines && k != m ==> c'.machines[k] == c.machines[k]
  }

  // ---------------------------------------------------------------- dying and starting

  /** An agent can die at any moment. Its file and its containers stay, and a later start goes
      by the file: a saved credential is used again and nothing is sent; without one, a join
      token leads to a registration request; a file that cannot be read stops the agent. */
  lemma RestartResumes(c: C.Cluster, m: nat, flag: Option<Token>, name: string)
    requires m in c.machines
    ensures C.CanAct(c, C.KillAgent(m))
    ensures var c1 := C.Act(c, C.KillAgent(m));
            && OnlyMachine(c, c1, m) && c1.net == c.net
            && c1.machines[m] == C.Machine(c.machines[m].slot, C.Down, c.machines[m].host)
            && C.CanAct(c1, C.StartAgent(m, flag, name))
            && var c2, slot := C.Act(c1, C.StartAgent(m, flag, name)), c.machines[m].slot;
               && OnlyMachine(c1, c2, m)
               && c2.machines[m].slot == slot && c2.machines[m].host == c.machines[m].host
               && (slot.Saved? ==> c2.machines[m].agent == C.Ready(slot.node, slot.credential) && c2.net == c.net)
               && (slot.Corrupt? ==> c2.machines[m].agent == C.Down && c2.net == c.net)
               && (slot.Absent? && flag.None? ==> c2.machines[m].agent == C.Down && c2.net == c.net)
               && (slot.Absent? && flag.Some? ==>
                     && c2.machines[m].agent == C.Joining(flag.value)
                     && c2.net == c.net + {C.RegisterRequest(m, flag.value, name)})
  {
  }

  /** A registration reply that arrives is written to the file before anything else: when that
      works the agent goes on as the node it was told; when it does not, the agent stops, with
      the file as it was or unreadable. */
  lemma CredentialIsSavedFirst(c: C.Cluster, m: nat, token: Token, node: Uuid, credential: Token, save: C.SaveOutcome)
    requires m in c.machines && c.machines[m].agent == C.Joining(token) && C.RegisterReply(m, token, node, credential) in c.net
    ensures C.CanAct(c, C.ReceiveRegister(m, token, node, credential, save))
    ensures var c' := C.Act(c, C.ReceiveRegister(m, token, node, credential, save));
            && OnlyMachine(c, c', m) && c'.net == c.net && c'.machines[m].host == c.machines[m].host
            && (save.SaveOk? ==> c'.machines[m].slot == C.Saved(node, credential) && c'.machines[m].agent == C.Ready(node, credential))
            && (save.SaveFails? ==> c'.machines[m].slot == c.machines[m].slot && c'.machines[m].agent == C.Down)
            && (save.SaveCorrupts? ==> c'.machines[m].slot == C.Corrupt && c'.machines[m].agent == C.Down)
  {
  }

  /** Fail static: an agent whose heartbeat gets no answer leaves its containers alone and can
      send the next heartbeat; one whose registration gets none stops. */
  lemma UnansweredIsHarmless(c: C.Cluster, m: nat, statuses: seq<Status>)
    requires m in c.machines && (c.machines[m].agent.Awaiting? || c.machines[m].agent.Joining?)
    ensures C.CanAct(c, C.GiveUp(m))
    ensures var x, c' := c.machines[m], C.Act(c, C.GiveUp(m));
            && OnlyMachine(c, c', m) && c'.net == c.net
            && c'.machines[m].host == x.host && c'.machines[m].slot == x.slot
            && (x.agent.Joining? ==> c'.machines[m].agent == C.Down)
            && (x.agent.Awaiting? ==>
                  && c'.machines[m].agent == C.Ready(x.agent.node, x.agent.credential)
                  && (Runtime.IsListing(x.host, statuses) ==> C.CanAct(c', C.SendHeartbeat(m, statuses))))
  {
  }

  // ---------------------------------------------------------------- the heartbeat request

  /** The messages an action sends, whatever is already under way. */
  ghost function SentBy(c: C.Cluster, a: C.Action): set<C.Message>
    requires C.CanAct(c, a) && a.SendHeartbeat?
  {
    C.Act(c.(net := {}), a).net
  }

  /** The report is the truth about a container of the host. */
  ghost predicate ReportTells(h: Runtime.Host, r: Report) {
    r.name in h.records && Runtime.Tells(h, r.name, r.state, r.pid)
  }

  /** One report for each container of the host, and nothing else. */
  ghost predicate ReportsTell(h: Runtime.Host, reports: seq<Report>) {
    && (forall i :: 0 <= i < |reports| ==> ReportTells(h, reports[i]))
    && (forall i, j :: 0 <= i < j < |reports| ==> reports[i].name != reports[j].name)
    && (forall n :: n in h.records ==> exists i :: 0 <= i < |reports| && reports[i].name == n)
  }

  lemma ListingReports(h: Runtime.Host, statuses: seq<Status>)
    requires Runtime.IsListing(h, statuses)
    ensures ReportsTell(h, Map(Agent.ReportOf, statuses))
  {
    var reports := Map(Agent.ReportOf, statuses);
    forall i | 0 <= i < |reports|
      ensures ReportTells(h, reports[i])
    {
      Runtime.StatusTells(h, statuses[i].name);
    }
    forall n | n in h.records
      ensures exists i :: 0 <= i < |reports| && reports[i].name == n
    {
      var i :| 0 <= i < |statuses| && statuses[i].name == n;
      assert reports[i].name == n;
    }
  }

  /** A heartbeat can be sent with every listing of the host, carries the node and credential of
      the agent and one true report per container, and is the only message sent. */
  lemma HeartbeatIsSent(c: C.Cluster, m: nat, statuses: seq<Status>)
    requires m in c.machines && c.machines[m].agent.Ready? && Runtime.IsListing(c.machines[m].host, statuses)
    ensures C.CanAct(c, C.SendHeartbeat(m, statuses))
    ensures var a, x := C.SendHeartbeat(m, statuses), c.machines[m];
            var reports := Map(Agent.ReportOf, statuses);
            && SentBy(c, a) == {C.HeartbeatRequest(m, x.agent.node, x.agent.credential, reports)}
            && C.Act(c, a).net == c.net + SentBy(c, a)
            && |reports| == |statuses| && ReportsTell(x.host, reports)
            && OnlyMachine(c, C.Act(c, a), m) && C.Act(c, a).machines[m].host == x.host && C.Act(c, a).machines[m].slot == x.slot
            && C.Act(c, a).machines[m].agent.Awaiting?
            && C.Act(c, a).machines[m].agent.node == x.agent.node && C.Act(c, a).machines[m].agent.credential == x.agent.credential
  {
    ListingReports(c.machines[m].host, statuses);
  }

  // ---------------------------------------------------------------- every request was true

  ghost predicate HadHost(past: set<C.Machine>, node: Uuid, reports: seq<Report>) {
    exists x :: x in past && (x.agent.Ready? && x.agent.node == node && ReportsTell(x.host, reports))
  }

  /** What machine m was at every moment of a run. */
  ghost function Machines(c: C.Cluster, acts: seq<C.Action>, m: nat): set<C.Machine>
    requires C.Runs(c, acts)
    decreases |acts|
  {
    (if m in c.machines then {c.machines[m]} else {})
    + if acts == [] then {} else Machines(C.Act(c, acts[0]), acts[1..], m)
  }

  lemma RequestsComeFrom(c: C.Cluster, a: C.Action, msg: C.Message)
    requires C.CanAct(c, a) && msg in C.Act(c, a).net && msg.HeartbeatRequest?
    ensures msg in c.net || (a.SendHeartbeat? && a.m == msg.m && msg in SentBy(c, a))
  {
  }

  /** Every heartbeat request ever sent told the truth about its machine, container by
      container, at some moment of the run at which the agent served that node. */
  lemma {:induction false} RequestsWereTrue(c: C.Cluster, acts: seq<C.Action>, msg: C.Message, past: set<C.Machine>)
    requires C.Runs(c, acts) && msg in C.End(c, acts).net && msg.HeartbeatRequest? && msg !in c.net
    requires Machines(c, acts, msg.m) <= past
    ensures HadHost(past, msg.node, msg.reports)
    decreases |acts|
  {
    var c' := C.Act(c, acts[0]);
    if msg in c'.net {
      RequestsComeFrom(c, acts[0], msg);
      HeartbeatIsSent(c, msg.m, acts[0].statuses);
      assert c.machines[msg.m] in past;
    } else {
      RequestsWereTrue(c', acts[1..], msg, past);
    }
  }

  // ---------------------------------------------------------------- messages and processes

  /** A message can be received late: whatever has been sent stays, over every run. */
  lemma MessagesStay(c: C.Cluster, acts: seq<C.Action>, msg: C.Message)
    requires C.Runs(c, acts) && msg in c.net
    ensures msg in C.End(c, acts).net
  {
    CS.RunKeepsNet(c, acts);
  }

  /** A waiting agent takes any reply sent to it for its node, and works through exactly that
      list, from the beginning, with the listing it had made. */
  lemma ReplyIsTaken(c: C.Cluster, m: nat, specs: seq<WorkloadSpec>)
    requires m in c.machines && c.machines[m].agent.Awaiting? && C.HeartbeatReply(m, c.machines[m].agent.node, specs) in c.net
    ensures C.CanAct(c, C.ReceiveHeartbeat(m, specs))
    ensures var x, c' := c.machines[m], C.Act(c, C.ReceiveHeartbeat(m, specs));
            && OnlyMachine(c, c', m) && c'.net == c.net && c'.machines[m].host == x.host && c'.machines[m].slot == x.slot
            && c'.machines[m].agent.Acting? && c'.machines[m].agent.todo == specs && !c'.machines[m].agent.cleared
            && c'.machines[m].agent.node == x.agent.node && c'.machines[m].agent.credential == x.agent.credential
            && c'.machines[m].agent.seen == x.agent.seen
  {
  }

  /** A request with a good credential can be handled at any time, as often as it arrives, and
      any handler can fail at any time, leaving what it wrote. */
  lemma HandlersComeAndGo(c: C.Cluster, hd: nat, m: nat, node: Uuid, credential: Token, reports: seq<Report>,
                          resources: Resources, address: string, now: nat)
    requires hd !in c.handlers && m in c.machines && C.HeartbeatRequest(m, node, credential, reports) in c.net
    requires HasCredential(c.sys.db, node, credential)
    ensures var a := C.HandleHeartbeat(hd, m, node, credential, reports, resources, address, now);
            && C.CanAct(c, a)
            && var c' := C.Act(c, a);
               && c'.handlers == c.handlers[hd := C.Updating(m, node, reports)] && c'.machines == c.machines && c'.net == c.net
               && C.CanAct(c', C.HandlerFails(hd)) && C.Act(c', C.HandlerFails(hd)) == c'.(handlers := c.handlers)
  {
    assert c.handlers[hd := C.Updating(m, node, reports)] - {hd} == c.handlers;
  }

  /** The process of any task can change its status at any time; nothing else changes. */
  lemma ProcessesLiveAndDie(c: C.Cluster, m: nat, container: string, status: Runtime.ProcessStatus)
    requires m in c.machines && container in c.machines[m].host.tasks
    ensures C.CanAct(c, C.ProcessChanges(m, container, status))
    ensures var h, c' := c.machines[m].host, C.Act(c, C.ProcessChanges(m, container, status));
            && OnlyMachine(c, c', m) && c'.net == c.net
            && c'.machines[m].slot == c.machines[m].slot && c'.machines[m].agent == c.machines[m].agent
            && c'.machines[m].host == h.(tasks := h.tasks[container := Runtime.Task(h.tasks[container].pid, status)])
  {
  }

  /** A registration request can be handled as often as it arrives, each time in a transaction
      of its own, and a commit answers the machine that asked, with what was committed. */
  lemma RegistrationIsAnswered(c: C.Cluster, m: nat, t: nat, reg: Registration)
    requires m in c.machines && C.RegisterRequest(m, reg.token, reg.name) in c.net
    requires t !in c.regs && t !in c.sys.txs && reg.credential !in c.sys.issued
    ensures C.CanAct(c, C.HandleRegister(m, t, reg))
    ensures var c' := C.Act(c, C.HandleRegister(m, t, reg));
            && c'.regs == c.regs[t := m] && c'.machines == c.machines && c'.net == c.net && c'.handlers == c.handlers
            && c'.sys.txs == c.sys.txs[t := Registering(reg, Begun)] && c'.sys.db == c.sys.db
  {
  }

  lemma CommitAnswers(c: C.Cluster, t: nat)
    requires Enabled(c.sys, CommitRegister(t))
    ensures var a, tx := C.StoreStep(CommitRegister(t)), c.sys.txs[t];
            && C.CanAct(c, a) && C.Act(c, a).machines == c.machines && C.Act(c, a).handlers == c.handlers
            && C.Act(c, a).net == c.net + (if t in c.regs then {C.RegisterReply(c.regs[t], tx.reg.token, tx.phase.id, tx.reg.credential)} else {})
  {
  }

  // ---------------------------------------------------------------- the loop and the handler go on

  /** An acting agent is never stuck, and what it may do next is decided by the first workload
      of its list: pass over what was seen running, clear what was seen and not running, start
      what was not seen or has been cleared, and finish when the list is empty. */
  lemma LoopGoesOn(c: C.Cluster, m: nat, stop: Runtime.StopFaults, run: Runtime.RunFaults)
    requires m in c.machines && c.machines[m].agent.Acting?
    ensures var agent := c.machines[m].agent;
            && (C.CanAct(c, C.FinishRound(m)) <==> agent.todo == [])
            && (agent.todo != [] ==>
                  var name := agent.todo[0].name;
                  && (C.CanAct(c, C.SkipRunning(m)) <==> name in agent.seen && agent.seen[name].state == Running)
                  && (C.CanAct(c, C.ClearDead(m, stop)) <==>
                        name in agent.seen && agent.seen[name].state != Running && !agent.cleared)
                  && (C.CanAct(c, C.StartWorkload(m, run)) <==> name !in agent.seen || agent.cleared))
  {
  }

  /** What the agent is after each of these steps. */
  lemma LoopSteps(c: C.Cluster, a: C.Action)
    requires C.CanAct(c, a) && (a.SkipRunning? || a.ClearDead? || a.StartWorkload? || a.FinishRound?)
    ensures var x, x', agent := c.machines[a.m], C.Act(c, a).machines[a.m], c.machines[a.m].agent;
            var next := if agent.todo == [] then agent else agent.(todo := agent.todo[1..], cleared := false);
            && OnlyMachine(c, C.Act(c, a), a.m) && C.Act(c, a).net == c.net && x'.slot == x.slot
            && (a.FinishRound? ==> x' == x.(agent := C.Ready(agent.node, agent.credential)))
            && (a.SkipRunning? ==> x' == x.(agent := next))
            && (a.ClearDead? ==>
                  && (if x'.agent == agent.(cleared := true) then agent.todo[0].name !in x'.host.records else x'.agent == next)
                  && Runtime.SameElsewhere(x.host, x'.host, agent.todo[0].name)
                  && Runtime.Released(x.host, x'.host, agent.todo[0].name))
            && (a.StartWorkload? ==>
                  && x'.agent == next && Runtime.SameElsewhere(x.host, x'.host, agent.todo[0].name)
                  && (a.run.Smooth() && Runtime.Gone(x.host, agent.todo[0].name) ==>
                        agent.todo[0].name in x'.host.records && x'.host.records[agent.todo[0].name].image == agent.todo[0].image
                        && Runtime.IsRunning(x'.host, agent.todo[0].name)))
  {
    if a.ClearDead? {
      var h, name := c.machines[a.m].host, c.machines[a.m].agent.todo[0].name;
      Runtime.StopReleases(h, name, a.stop);
      Runtime.StopTouchesOnlyItsName(h, name, a.stop);
    } else if a.StartWorkload? {
      var wl := c.machines[a.m].agent.todo[0];
      StartStep(c.machines[a.m].host, wl, a.run);
    }
  }

  lemma StartStep(h: Runtime.Host, wl: WorkloadSpec, f: Runtime.RunFaults)
    ensures var (h', r) := Runtime.RunHost(h, wl.name, wl.image, Map(FromApi, wl.ports), f);
            && Runtime.SameElsewhere(h, h', wl.name)
            && (f.Smooth() && Runtime.Gone(h, wl.name) ==>
                  wl.name in h'.records && h'.records[wl.name].image == wl.image && Runtime.IsRunning(h', wl.name))
  {
    Runtime.RunTouchesOnlyItsName(h, wl.name, wl.image, Map(FromApi, wl.ports), f);
    Runtime.RunSuccess(h, wl.name, wl.image, Map(FromApi, wl.ports), f);
  }

  /** A handler is never stuck: its next report can be written; when none is left, the node's
      workloads can be listed, in whatever order; then their ports can be fetched, and the
      reply goes to the machine that asked, one spec per workload listed. */
  lemma HandlerGoesOn(c: C.Cluster, hd: nat, h: C.Handler, now: nat, ws: seq<Workload>)
    requires hd in c.handlers && c.handlers[hd] == h
    ensures h.Updating? && h.todo != [] ==>
              && C.CanAct(c, C.HandleReport(hd, now))
              && C.Act(c, C.HandleReport(hd, now)).handlers == c.handlers[hd := C.Updating(h.m, h.node, h.todo[1..])]
              && C.Act(c, C.HandleReport(hd, now)).machines == c.machines && C.Act(c, C.HandleReport(hd, now)).net == c.net
    ensures h.Updating? && h.todo == [] && ListsNode(c.sys.db, h.node, ws) ==>
              && C.CanAct(c, C.HandleList(hd, ws))
              && C.Act(c, C.HandleList(hd, ws)) == c.(handlers := c.handlers[hd := C.Listed(h.m, h.node, ws)])
  {
  }

  lemma ReplyIsSent(c: C.Cluster, hd: nat, h: C.Handler, ws: seq<Workload>)
    requires hd in c.handlers && c.handlers[hd] == h && h.Listed? && |ws| == |h.ws|
    requires forall i :: 0 <= i < |ws| ==>
               ws[i].id == h.ws[i].id && ws[i].row == h.ws[i].row && IsPortList(c.sys.db, ws[i].id, ws[i].ports)
    ensures C.CanAct(c, C.HandlePorts(hd, ws))
    ensures exists specs: seq<WorkloadSpec> :: C.Act(c, C.HandlePorts(hd, ws)).net == c.net + {C.HeartbeatReply(h.m, h.node, specs)}
                            && |specs| == |ws|
                            && forall i :: 0 <= i < |ws| ==>
                                 && specs[i].name == ws[i].row.name && specs[i].image == ws[i].row.image
                                 && |specs[i].ports| == |ws[i].ports|
    ensures C.Act(c, C.HandlePorts(hd, ws)).machines == c.machines && hd !in C.Act(c, C.HandlePorts(hd, ws)).handlers
  {
    var specs := Map(SpecOf, ws);
    assert C.Act(c, C.HandlePorts(hd, ws)).net == c.net + {C.HeartbeatReply(h.m, h.node, specs)};
  }
}
