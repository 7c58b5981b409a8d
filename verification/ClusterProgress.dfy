/** What a heartbeat achieves in the middle of everything else. Replies are exact for some
    moment of the run; a machine stays free of orphans unless one of its failing Runs leaks;
    and one undisturbed round then leaves every workload of the reply running. */
module ClusterProgress {
  import opened Types
  import opened Store
  import StoreProofs
  import opened ControlPlane
  import opened PortConversions
  import opened Runtime
  import opened Reconcile
  import opened Agent
  import C = Cluster
  import opened ClusterSafety

  // ---------------------------------------------------------------- where replies come from

  lemma {:induction false} RunsJoin(c: C.Cluster, a: seq<C.Action>, b: seq<C.Action>)
    requires C.Runs(c, a) && C.Runs(C.End(c, a), b)
    ensures C.Runs(c, a + b) && C.End(c, a + b) == C.End(C.End(c, a), b)
    decreases |a|
  {
    if a == [] {
      assert a + b == b;
    } else {
      assert (a + b)[0] == a[0] && (a + b)[1..] == a[1..] + b;
      RunsJoin(C.Act(c, a[0]), a[1..], b);
    }
  }

  /** The tables at every moment of a run. */
  ghost function Tables(c: C.Cluster, acts: seq<C.Action>): set<Db>
    requires C.Runs(c, acts)
    decreases |acts|
  {
    {c.sys.db} + if acts == [] then {} else Tables(C.Act(c, acts[0]), acts[1..])
  }

  /** `db` is among the given tables and the present ones have grown out of it. */
  ghost predicate Earlier(past: set<Db>, now: Db, db: Db) {
    db in past && StoreProofs.WorkloadsOk(db) && StoreProofs.Extends(db, now)
  }

  ghost predicate WasListed(past: set<Db>, now: Db, node: Uuid, ws: seq<Workload>) {
    exists db :: Earlier(past, now, db) && ListsNode(db, node, ws)
  }

  ghost predicate WasReply(past: set<Db>, now: Db, node: Uuid, specs: seq<WorkloadSpec>) {
    exists db :: Earlier(past, now, db) && IsReply(db, node, specs)
  }

  /** Every listing held and every reply sent was exact for earlier tables. */
  ghost predicate Sourced(past: set<Db>, c: C.Cluster) {
    && (forall hd :: hd in c.handlers && c.handlers[hd].Listed? ==>
          WasListed(past, c.sys.db, c.handlers[hd].node, c.handlers[hd].ws))
    && (forall msg :: msg in c.net && msg.HeartbeatReply? ==> WasReply(past, c.sys.db, msg.node, msg.specs))
  }

  /** The statement that an action makes the store execute, if any. */
  ghost function StatementOf(c: C.Cluster, a: C.Action): Option<Step>
    requires C.CanAct(c, a)
  {
    match a
    case StoreStep(step) => Some(step)
    case HandleRegister(m, t, reg) => Some(BeginRegister(t, reg))
    case HandleHeartbeat(hd, m, node, credential, reports, resources, address, now) =>
      Some(UpdateNodeHeartbeat(node, resources, address, now))
    case HandleReport(hd, now) =>
      var r := c.handlers[hd].todo[0];
      Some(UpdateWorkloadStatus(c.handlers[hd].node, r.name, r.state, r.pid, now))
    case _ => None
  }

  lemma StatementIs(c: C.Cluster, a: C.Action)
    requires C.CanAct(c, a)
    ensures var step := StatementOf(c, a);
            if step.None? then C.Act(c, a).sys == c.sys
            else Enabled(c.sys, step.value) && C.Act(c, a).sys == After(c.sys, step.value)
  {
  }

  lemma ActionExtends(c: C.Cluster, a: C.Action)
    requires StoreProofs.Inv(c.sys) && C.CanAct(c, a)
    ensures StoreProofs.Extends(c.sys.db, C.Act(c, a).sys.db)
  {
    StatementIs(c, a);
    var step := StatementOf(c, a);
    if step.None? {
      StoreProofs.ExtendsSelf(c.sys.db);
    } else {
      StoreProofs.StepExtends(c.sys, step.value);
    }
  }

  lemma EarlierStays(past: set<Db>, now: Db, later: Db, db: Db)
    requires Earlier(past, now, db) && StoreProofs.Extends(now, later)
    ensures Earlier(past, later, db)
  {
    StoreProofs.ExtendsTransitive(db, now, later);
  }

  lemma WasListedStays(past: set<Db>, now: Db, later: Db, node: Uuid, ws: seq<Workload>)
    requires WasListed(past, now, node, ws) && StoreProofs.Extends(now, later)
    ensures WasListed(past, later, node, ws)
  {
    var db :| Earlier(past, now, db) && ListsNode(db, node, ws);
    EarlierStays(past, now, later, db);
  }

  lemma WasReplyStays(past: set<Db>, now: Db, later: Db, node: Uuid, specs: seq<WorkloadSpec>)
    requires WasReply(past, now, node, specs) && StoreProofs.Extends(now, later)
    ensures WasReply(past, later, node, specs)
  {
    var db :| Earlier(past, now, db) && IsReply(db, node, specs);
    EarlierStays(past, now, later, db);
  }

  /** The action is a step of machine m or of its agent. */
  predicate Concerns(a: C.Action, m: nat) {
    match a
    case StartAgent(k, _, _) => k == m
    case ReceiveRegister(k, _, _, _, _) => k == m
    case GiveUp(k) => k == m
    case SendHeartbeat(k, _) => k == m
    case ReceiveHeartbeat(k, _) => k == m
    case SkipRunning(k) => k == m
    case ClearDead(k, _) => k == m
    case StartWorkload(k, _) => k == m
    case FinishRound(k) => k == m
    case KillAgent(k) => k == m
    case ProcessChanges(k, _, _) => k == m
    case _ => false
  }

  lemma UnconcernedStays(c: C.Cluster, a: C.Action, m: nat)
    requires C.CanAct(c, a) && m in c.machines && !Concerns(a, m)
    ensures m in C.Act(c, a).machines && C.Act(c, a).machines[m] == c.machines[m]
  {
  }

  lemma NetGrows(c: C.Cluster, a: C.Action)
    requires C.CanAct(c, a)
    ensures c.net <= C.Act(c, a).net
  {
  }

  lemma ListingsComeFrom(c: C.Cluster, a: C.Action, hd: nat)
    requires C.CanAct(c, a) && hd in C.Act(c, a).handlers && C.Act(c, a).handlers[hd].Listed?
    ensures var h := C.Act(c, a).handlers[hd];
            (hd in c.handlers && c.handlers[hd] == h) || ListsNode(c.sys.db, h.node, h.ws)
  {
  }

  lemma RepliesComeFrom(c: C.Cluster, a: C.Action, msg: C.Message)
    requires C.CanAct(c, a) && msg in C.Act(c, a).net && msg.HeartbeatReply?
    ensures msg in c.net || (a.HandlePorts? && msg == C.HeartbeatReply(c.handlers[a.hd].m, c.handlers[a.hd].node, Map(SpecOf, a.ws)))
  {
  }

  /** The two queries behind a reply saw different tables, and the reply is exact for the
      earlier ones. */
  lemma ReplyIsExact(past: set<Db>, now: Db, node: Uuid, listed: seq<Workload>, ws: seq<Workload>)
    requires StoreProofs.PortsOk(now) && WasListed(past, now, node, listed) && |ws| == |listed|
    requires forall i :: 0 <= i < |ws| ==>
               ws[i].id == listed[i].id && ws[i].row == listed[i].row && IsPortList(now, ws[i].id, ws[i].ports)
    ensures WasReply(past, now, node, Map(SpecOf, ws))
  {
    var db :| Earlier(past, now, db) && ListsNode(db, node, listed);
    AttachingKeepsListing(db, node, listed, ws);
    ListingIsReply(db, now, node, ws, Map(SpecOf, ws));
  }

  lemma ListedNow(past: set<Db>, now: Db, node: Uuid, ws: seq<Workload>)
    requires now in past && StoreProofs.WorkloadsOk(now) && ListsNode(now, node, ws)
    ensures WasListed(past, now, node, ws)
  {
    StoreProofs.ExtendsSelf(now);
    assert Earlier(past, now, now);
  }

  lemma ListingSourced(past: set<Db>, c: C.Cluster, a: C.Action, hd: nat)
    requires StoreProofs.Inv(c.sys) && c.sys.db in past && Sourced(past, c) && C.CanAct(c, a)
    requires hd in C.Act(c, a).handlers && C.Act(c, a).handlers[hd].Listed?
    ensures var c' := C.Act(c, a); WasListed(past, c'.sys.db, c'.handlers[hd].node, c'.handlers[hd].ws)
  {
    var h := C.Act(c, a).handlers[hd];
    ListingsComeFrom(c, a, hd);
    if !(hd in c.handlers && c.handlers[hd] == h) {
      ListedNow(past, c.sys.db, h.node, h.ws);
    }
    ActionExtends(c, a);
    WasListedStays(past, c.sys.db, C.Act(c, a).sys.db, h.node, h.ws);
  }

  lemma ReplySourced(past: set<Db>, c: C.Cluster, a: C.Action, msg: C.Message)
    requires StoreProofs.Inv(c.sys) && Sourced(past, c) && C.CanAct(c, a)
    requires msg in C.Act(c, a).net && msg.HeartbeatReply?
    ensures WasReply(past, C.Act(c, a).sys.db, msg.node, msg.specs)
  {
    RepliesComeFrom(c, a, msg);
    if msg !in c.net {
      ReplyIsExact(past, c.sys.db, c.handlers[a.hd].node, c.handlers[a.hd].ws, a.ws);
    }
    ActionExtends(c, a);
    WasReplyStays(past, c.sys.db, C.Act(c, a).sys.db, msg.node, msg.specs);
  }

  lemma ActionKeepsSourced(past: set<Db>, c: C.Cluster, a: C.Action)
    requires StoreProofs.Inv(c.sys) && c.sys.db in past && Sourced(past, c) && C.CanAct(c, a)
    ensures Sourced(past, C.Act(c, a))
  {
    var c' := C.Act(c, a);
    forall hd | hd in c'.handlers && c'.handlers[hd].Listed?
      ensures WasListed(past, c'.sys.db, c'.handlers[hd].node, c'.handlers[hd].ws)
    {
      ListingSourced(past, c, a, hd);
    }
    forall msg | msg in c'.net && msg.HeartbeatReply?
      ensures WasReply(past, c'.sys.db, msg.node, msg.specs)
    {
      ReplySourced(past, c, a, msg);
    }
  }

  lemma {:induction false} RunKeepsSourced(past: set<Db>, c: C.Cluster, acts: seq<C.Action>)
    requires Inv(c) && Sourced(past, c) && C.Runs(c, acts) && Tables(c, acts) <= past
    ensures Sourced(past, C.End(c, acts))
    decreases |acts|
  {
    if acts != [] {
      ActionKeepsInv(c, acts[0]);
      ActionKeepsSourced(past, c, acts[0]);
      RunKeepsSourced(past, C.Act(c, acts[0]), acts[1..]);
    }
  }

  lemma {:induction false} RunExtendsTables(c: C.Cluster, acts: seq<C.Action>)
    requires Inv(c) && C.Runs(c, acts)
    ensures StoreProofs.Extends(c.sys.db, C.End(c, acts).sys.db)
    decreases |acts|
  {
    if acts == [] {
      StoreProofs.ExtendsSelf(c.sys.db);
    } else {
      var c' := C.Act(c, acts[0]);
      ActionKeepsInv(c, acts[0]);
      ActionExtends(c, acts[0]);
      RunExtendsTables(c', acts[1..]);
      StoreProofs.ExtendsTransitive(c.sys.db, c'.sys.db, C.End(c, acts).sys.db);
    }
  }

  /** The tables at the end of a run have grown out of all those before. */
  lemma {:induction false} TablesExtend(c: C.Cluster, acts: seq<C.Action>, db: Db)
    requires Inv(c) && C.Runs(c, acts) && db in Tables(c, acts)
    ensures StoreProofs.Extends(db, C.End(c, acts).sys.db)
    decreases |acts|
  {
    if db == c.sys.db {
      RunExtendsTables(c, acts);
    } else {
      ActionKeepsInv(c, acts[0]);
      TablesExtend(C.Act(c, acts[0]), acts[1..], db);
    }
  }

  /** Every reply ever sent was exact at some moment of the run: one entry for each workload
      that the node had in the store then, and no other. */
  lemma RepliesWereExact(c: C.Cluster, acts: seq<C.Action>, m: nat, node: Uuid, specs: seq<WorkloadSpec>)
    requires C.Initial(c) && C.Runs(c, acts) && C.HeartbeatReply(m, node, specs) in C.End(c, acts).net
    ensures exists db :: db in Tables(c, acts) && IsReply(db, node, specs)
  {
    InitialInv(c);
    RunKeepsSourced(Tables(c, acts), c, acts);
    assert WasReply(Tables(c, acts), C.End(c, acts).sys.db, node, specs);
    var db :| Earlier(Tables(c, acts), C.End(c, acts).sys.db, db) && IsReply(db, node, specs);
  }

  // ---------------------------------------------------------------- no orphans

  predicate LeaksOn(a: C.Action, m: nat) {
    a.StartWorkload? && a.m == m && a.run.Leaks()
  }

  ghost predicate Unorphaned(c: C.Cluster, m: nat) {
    m in c.machines && NoOrphans(c.machines[m].host)
  }

  lemma ActionKeepsUnorphaned(c: C.Cluster, a: C.Action, m: nat)
    requires C.CanAct(c, a) && Unorphaned(c, m) && !LeaksOn(a, m)
    ensures Unorphaned(C.Act(c, a), m)
  {
    var h := c.machines[m].host;
    if !Concerns(a, m) {
      UnconcernedStays(c, a, m);
    } else if a.ClearDead? {
      StopKeepsNoOrphans(h, C.Next(c, m).name, a.stop);
    } else if a.StartWorkload? {
      var wl := C.Next(c, m);
      RunKeepsNoOrphans(h, wl.name, wl.image, Map(FromApi, wl.ports), a.run);
    } else if a.ProcessChanges? {
      TaskChangeKeepsNoOrphans(h, a.container, h.tasks[a.container].(status := a.status));
    } else {
      assert m in C.Act(c, a).machines && C.Act(c, a).machines[m].host == h;
    }
  }

  lemma TaskChangeKeepsNoOrphans(h: Host, container: string, task: Task)
    requires NoOrphans(h) && container in h.tasks
    ensures NoOrphans(h.(tasks := h.tasks[container := task]))
  {
    var h' := h.(tasks := h.tasks[container := task]);
    forall n
      ensures OrphanFree(h', n)
    {
      assert OrphanFree(h, n);
    }
  }

  /** Whatever else fails, dies or is lost: a machine is free of orphans as long as none of its
      failing Runs leaks. */
  lemma {:induction false} RunKeepsUnorphaned(c: C.Cluster, acts: seq<C.Action>, m: nat)
    requires C.Runs(c, acts) && Unorphaned(c, m) && forall i :: 0 <= i < |acts| ==> !LeaksOn(acts[i], m)
    ensures Unorphaned(C.End(c, acts), m)
    decreases |acts|
  {
    if acts != [] {
      ActionKeepsUnorphaned(c, acts[0], m);
      RunKeepsUnorphaned(C.Act(c, acts[0]), acts[1..], m);
    }
  }

  // ---------------------------------------------------------------- one undisturbed round

  /** The action does not disturb the round in which machine m works on `specs`: the agent is
      not killed and does not give up or start over, no process on m changes, and no runtime
      call on m fails. Whatever concerns other machines, handlers and the store is free. */
  predicate Undisturbed(a: C.Action, m: nat, specs: seq<WorkloadSpec>) {
    match a
    case KillAgent(k) => k != m
    case GiveUp(k) => k != m
    case SendHeartbeat(k, _) => k != m
    case ProcessChanges(k, _, _) => k != m
    case ReceiveHeartbeat(k, s) => k == m ==> s == specs
    case ClearDead(k, f) => k == m ==> f.Smooth()
    case StartWorkload(k, f) => k == m ==> f.Smooth()
    case _ => true
  }

  /** The specs before `done` run; those from `done` on are as the listing says. */
  ghost predicate Halfway(h: Host, seen: Seen, specs: seq<WorkloadSpec>, done: nat, cleared: bool) {
    && done <= |specs|
    && (forall i :: 0 <= i < done ==> IsRunning(h, specs[i].name))
    && (forall i :: done + (if cleared then 1 else 0) <= i < |specs| ==> Faithful(h, seen, specs[i].name))
    && (cleared ==> done < |specs| && Gone(h, specs[done].name) && !SeenRunning(seen, specs[done].name))
  }

  ghost predicate AllFaithful(h: Host, seen: Seen) {
    forall n :: Faithful(h, seen, n)
  }

  ghost predicate AllRun(h: Host, specs: seq<WorkloadSpec>) {
    forall i :: 0 <= i < |specs| ==> IsRunning(h, specs[i].name)
  }

  /** Where machine x is in the round. */
  ghost predicate InRound(x: C.Machine, specs: seq<WorkloadSpec>) {
    && NoOrphans(x.host)
    && (match x.agent
        case Awaiting(_, _, seen) => AllFaithful(x.host, seen)
        case Acting(_, _, seen, todo, cleared) =>
          && DistinctNames(specs) && |todo| <= |specs| && todo == specs[|specs| - |todo|..]
          && Halfway(x.host, seen, specs, |specs| - |todo|, cleared)
        case Ready(_, _) => AllRun(x.host, specs)
        case _ => false)
  }

  lemma SameAtRest(h: Host, h': Host, name: string, n: string, seen: Seen)
    requires SameElsewhere(h, h', name) && n != name
    ensures IsRunning(h', n) <==> IsRunning(h, n)
    ensures Faithful(h', seen, n) <==> Faithful(h, seen, n)
  {
    SameElsewhereAt(h, h', name, n);
  }

  /** A call for the spec at `done` changes nothing about the others. */
  lemma OthersStay(h: Host, h': Host, seen: Seen, specs: seq<WorkloadSpec>, done: nat, cleared: bool)
    requires DistinctNames(specs) && Halfway(h, seen, specs, done, cleared) && done < |specs|
    requires SameElsewhere(h, h', specs[done].name)
    ensures forall i :: 0 <= i < done ==> IsRunning(h', specs[i].name)
    ensures forall i :: done < i < |specs| ==> Faithful(h', seen, specs[i].name)
  {
    forall i | 0 <= i < |specs| && i != done
      ensures i < done ==> IsRunning(h', specs[i].name)
      ensures i > done ==> Faithful(h', seen, specs[i].name)
    {
      assert specs[i].name != specs[done].name;
      SameAtRest(h, h', specs[done].name, specs[i].name, seen);
    }
  }

  lemma ClearingGoesOn(h: Host, seen: Seen, specs: seq<WorkloadSpec>, done: nat, f: StopFaults)
    requires DistinctNames(specs) && Halfway(h, seen, specs, done, false) && done < |specs|
    requires NoOrphans(h) && f.Smooth() && !SeenRunning(seen, specs[done].name)
    ensures var (h', r) := StopHost(h, specs[done].name, f);
            NoOrphans(h') && r != StopFailed && Halfway(h', seen, specs, done, true)
  {
    var name := specs[done].name;
    StopKeepsNoOrphans(h, name, f);
    StopReleases(h, name, f);
    StopTouchesOnlyItsName(h, name, f);
    assert OrphanFree(h, name);
    OthersStay(h, StopHost(h, name, f).0, seen, specs, done, false);
  }

  lemma StartingGoesOn(h: Host, seen: Seen, specs: seq<WorkloadSpec>, done: nat, cleared: bool, f: RunFaults)
    requires DistinctNames(specs) && Halfway(h, seen, specs, done, cleared) && done < |specs|
    requires NoOrphans(h) && f.Smooth() && (cleared || specs[done].name !in seen)
    ensures var h' := RunHost(h, specs[done].name, specs[done].image, Map(FromApi, specs[done].ports), f).0;
            NoOrphans(h') && Halfway(h', seen, specs, done + 1, false)
  {
    var wl := specs[done];
    var ports := Map(FromApi, wl.ports);
    assert OrphanFree(h, wl.name) && (!cleared ==> Faithful(h, seen, wl.name));
    RunKeepsNoOrphans(h, wl.name, wl.image, ports, f);
    RunSuccess(h, wl.name, wl.image, ports, f);
    RunTouchesOnlyItsName(h, wl.name, wl.image, ports, f);
    OthersStay(h, RunHost(h, wl.name, wl.image, ports, f).0, seen, specs, done, cleared);
  }

  lemma SkippingGoesOn(h: Host, seen: Seen, specs: seq<WorkloadSpec>, done: nat, cleared: bool)
    requires Halfway(h, seen, specs, done, cleared) && done < |specs| && SeenRunning(seen, specs[done].name)
    ensures Halfway(h, seen, specs, done + 1, false)
  {
    assert Faithful(h, seen, specs[done].name);
  }

  /** What the agent of machine m does next keeps the round going. */
  lemma OwnStepGoesOn(c: C.Cluster, a: C.Action, m: nat, specs: seq<WorkloadSpec>)
    requires C.CanAct(c, a) && Undisturbed(a, m, specs) && m in c.machines && InRound(c.machines[m], specs)
    requires (a.SkipRunning? || a.ClearDead? || a.StartWorkload?) && a.m == m
    ensures InRound(C.Act(c, a).machines[m], specs)
  {
    var x := c.machines[m];
    var todo, seen := x.agent.todo, x.agent.seen;
    var done := |specs| - |todo|;
    assert todo[0] == specs[done] && todo[1..] == specs[done + 1..];
    if a.SkipRunning? {
      SkippingGoesOn(x.host, seen, specs, done, x.agent.cleared);
    } else if a.ClearDead? {
      ClearingGoesOn(x.host, seen, specs, done, a.stop);
    } else {
      StartingGoesOn(x.host, seen, specs, done, x.agent.cleared, a.run);
    }
  }

  ghost predicate RepliesDistinct(net: set<C.Message>) {
    forall msg :: msg in net && msg.HeartbeatReply? ==> DistinctNames(msg.specs)
  }

  lemma StepGoesOn(c: C.Cluster, a: C.Action, m: nat, specs: seq<WorkloadSpec>)
    requires C.CanAct(c, a) && Undisturbed(a, m, specs) && m in c.machines && InRound(c.machines[m], specs)
    requires RepliesDistinct(c.net)
    ensures m in C.Act(c, a).machines && InRound(C.Act(c, a).machines[m], specs)
  {
    if !Concerns(a, m) {
      UnconcernedStays(c, a, m);
    } else if a.SkipRunning? || a.ClearDead? || a.StartWorkload? {
      OwnStepGoesOn(c, a, m, specs);
    } else if a.ReceiveHeartbeat? {
      assert C.HeartbeatReply(m, c.machines[m].agent.node, specs) in c.net;
      assert specs[0..] == specs;
    } else {
      assert a.FinishRound?;
    }
  }

  lemma SourcedRepliesDistinct(past: set<Db>, c: C.Cluster)
    requires Sourced(past, c)
    ensures RepliesDistinct(c.net)
  {
    forall msg | msg in c.net && msg.HeartbeatReply?
      ensures DistinctNames(msg.specs)
    {
      var db :| Earlier(past, c.sys.db, db) && IsReply(db, msg.node, msg.specs);
    }
  }

  /** The agent works for `node`, and on a reply that was sent to it. */
  ghost predicate OnReply(c: C.Cluster, m: nat, node: Uuid, specs: seq<WorkloadSpec>) {
    && m in c.machines
    && (var agent := c.machines[m].agent;
        && (agent.Awaiting? || agent.Acting? || agent.Ready?) && agent.node == node
        && (!agent.Awaiting? ==> C.HeartbeatReply(m, node, specs) in c.net))
  }

  lemma StaysOnReply(c: C.Cluster, a: C.Action, m: nat, node: Uuid, specs: seq<WorkloadSpec>)
    requires C.CanAct(c, a) && Undisturbed(a, m, specs) && OnReply(c, m, node, specs)
    ensures OnReply(C.Act(c, a), m, node, specs)
  {
    NetGrows(c, a);
    if !Concerns(a, m) {
      UnconcernedStays(c, a, m);
    }
  }

  ghost predicate Going(c: C.Cluster, m: nat, node: Uuid, specs: seq<WorkloadSpec>) {
    OnReply(c, m, node, specs) && InRound(c.machines[m], specs)
  }

  lemma RoundStep(c: C.Cluster, a: C.Action, m: nat, node: Uuid, specs: seq<WorkloadSpec>)
    requires Going(c, m, node, specs) && C.CanAct(c, a) && Undisturbed(a, m, specs) && RepliesDistinct(c.net)
    ensures Going(C.Act(c, a), m, node, specs)
  {
    StepGoesOn(c, a, m, specs);
    StaysOnReply(c, a, m, node, specs);
  }

  lemma {:induction false} RoundGoesOn(c: C.Cluster, acts: seq<C.Action>, m: nat, node: Uuid, specs: seq<WorkloadSpec>)
    requires Going(c, m, node, specs) && C.Runs(c, acts) && RepliesDistinct(C.End(c, acts).net)
    requires forall i :: 0 <= i < |acts| ==> Undisturbed(acts[i], m, specs)
    ensures Going(C.End(c, acts), m, node, specs)
    decreases |acts|
  {
    if acts != [] {
      RunKeepsNet(c, acts);
      RoundStep(c, acts[0], m, node, specs);
      RoundGoesOn(C.Act(c, acts[0]), acts[1..], m, node, specs);
    }
  }

  /** Every workload that the node had in those tables runs on machine m, in the container of
      its name, with its own image and exactly its own ports. */
  ghost predicate NodeServed(c: C.Cluster, m: nat, node: Uuid, db: Db) {
    m in c.machines &&
    forall w :: OnNode(db, node, w) ==>
      IsRunning(c.machines[m].host, db.workloads[w].name) && RunsWorkload(c, m, db.workloads[w].name, w)
  }

  lemma RunningIsServed(c: C.Cluster, m: nat, node: Uuid, db: Db, specs: seq<WorkloadSpec>)
    requires Inv(c) && m in c.machines && AllRun(c.machines[m].host, specs)
    requires IsReply(db, node, specs) && StoreProofs.Extends(db, c.sys.db)
    ensures NodeServed(c, m, node, db)
  {
    forall w | OnNode(db, node, w)
      ensures IsRunning(c.machines[m].host, db.workloads[w].name) && RunsWorkload(c, m, db.workloads[w].name, w)
    {
      var name := db.workloads[w].name;
      var i :| 0 <= i < |specs| && specs[i].name == name;
      assert IsRunning(c.machines[m].host, specs[i].name);
      var v := MatchHolds(c, m, name);
      assert w in c.sys.db.workloads && c.sys.db.workloads[w].name == name;
      assert v == w;
    }
  }

  lemma FreshListing(x: C.Machine, statuses: seq<Status>, specs: seq<WorkloadSpec>, node: Uuid, credential: Token)
    requires NoOrphans(x.host) && IsListing(x.host, statuses)
    ensures InRound(x.(agent := C.Awaiting(node, credential, ByName(statuses))), specs)
  {
    forall n
      ensures Faithful(x.host, ByName(statuses), n)
    {
      ListingIsFaithful(x.host, statuses, n);
    }
  }

  lemma SendingStartsRound(c: C.Cluster, m: nat, statuses: seq<Status>, specs: seq<WorkloadSpec>)
    requires C.CanAct(c, C.SendHeartbeat(m, statuses)) && NoOrphans(c.machines[m].host)
    ensures Going(C.Act(c, C.SendHeartbeat(m, statuses)), m, c.machines[m].agent.node, specs)
  {
    var x := c.machines[m];
    FreshListing(x, statuses, specs, x.agent.node, x.agent.credential);
  }

  /** What a finished round leaves, for tables that its reply was exact for. */
  ghost predicate Served(past: set<Db>, c: C.Cluster, m: nat, node: Uuid, specs: seq<WorkloadSpec>) {
    && (exists db :: db in past && IsReply(db, node, specs))
    && (forall db :: db in past && IsReply(db, node, specs) ==> NodeServed(c, m, node, db))
  }

  lemma FinishedRoundServes(past: set<Db>, c: C.Cluster, m: nat, node: Uuid, specs: seq<WorkloadSpec>)
    requires Inv(c) && Sourced(past, c) && Going(c, m, node, specs) && c.machines[m].agent.Ready?
    requires forall db :: db in past ==> StoreProofs.Extends(db, c.sys.db)
    ensures Served(past, c, m, node, specs)
  {
    forall db | db in past && IsReply(db, node, specs)
      ensures NodeServed(c, m, node, db)
    {
      RunningIsServed(c, m, node, db, specs);
    }
    assert WasReply(past, c.sys.db, node, specs);
    var db :| Earlier(past, c.sys.db, db) && IsReply(db, node, specs);
  }

  lemma RoundFrom(c: C.Cluster, statuses: seq<Status>, round: seq<C.Action>, m: nat, specs: seq<WorkloadSpec>)
    requires C.Runs(c, round) && Unorphaned(c, m) && RepliesDistinct(C.End(c, round).net)
    requires round != [] && round[0] == C.SendHeartbeat(m, statuses)
    requires forall i :: 1 <= i < |round| ==> Undisturbed(round[i], m, specs)
    ensures c.machines[m].agent.Ready? && Going(C.End(c, round), m, c.machines[m].agent.node, specs)
  {
    SendingStartsRound(c, m, statuses, specs);
    RoundGoesOn(C.Act(c, round[0]), round[1..], m, c.machines[m].agent.node, specs);
  }

  lemma InitialOrphanFree(c: C.Cluster, m: nat)
    requires C.Initial(c) && m in c.machines
    ensures Unorphaned(c, m)
  {
  }

  /** Both halves of a run, with the tables of both. */
  lemma HalvesSourced(c: C.Cluster, before: seq<C.Action>, after: seq<C.Action>)
    requires C.Initial(c) && C.Runs(c, before) && C.Runs(C.End(c, before), after)
    ensures var past, c' := Tables(c, before) + Tables(C.End(c, before), after), C.End(C.End(c, before), after);
            Inv(c') && Sourced(past, c') && forall db :: db in past ==> StoreProofs.Extends(db, c'.sys.db)
  {
    var c1 := C.End(c, before);
    var past, c' := Tables(c, before) + Tables(c1, after), C.End(c1, after);
    InitialInv(c);
    RunKeepsInv(c, before);
    RunKeepsInv(c1, after);
    RunKeepsSourced(past, c, before);
    RunKeepsSourced(past, c1, after);
    forall db | db in past
      ensures StoreProofs.Extends(db, c'.sys.db)
    {
      if db in Tables(c1, after) {
        TablesExtend(c1, after, db);
      } else {
        TablesExtend(c, before, db);
        RunExtendsTables(c1, after);
        StoreProofs.ExtendsTransitive(db, c1.sys.db, c'.sys.db);
      }
    }
  }

  /** Convergence in the running cluster. Take any run, however much of it failed, in which no
      failing Run of machine m leaked. Let the agent of m then send a heartbeat and finish the
      round undisturbed, interleaved with everything that other machines, handlers, deploys and
      the network do. The reply it acted on was exact for the tables of some moment of the run,
      and for any such tables every workload of the node now runs with its own image and
      ports. */
  lemma RoundConverges(c: C.Cluster, before: seq<C.Action>, statuses: seq<Status>, round: seq<C.Action>, m: nat, specs: seq<WorkloadSpec>)
    requires C.Initial(c) && m in c.machines && C.Runs(c, before) && C.Runs(C.End(c, before), round)
    requires forall i :: 0 <= i < |before| ==> !LeaksOn(before[i], m)
    requires round != [] && round[0] == C.SendHeartbeat(m, statuses)
    requires forall i :: 1 <= i < |round| ==> Undisturbed(round[i], m, specs)
    requires var c' := C.End(C.End(c, before), round); m in c'.machines && c'.machines[m].agent.Ready?
    ensures var c1 := C.End(c, before);
            Served(Tables(c, before) + Tables(c1, round), C.End(c1, round), m, c1.machines[m].agent.node, specs)
  {
    var c1 := C.End(c, before);
    var past, c', node := Tables(c, before) + Tables(c1, round), C.End(c1, round), c1.machines[m].agent.node;
    InitialOrphanFree(c, m);
    RunKeepsUnorphaned(c, before, m);
    HalvesSourced(c, before, round);
    SourcedRepliesDistinct(past, c');
    RoundFrom(c1, statuses, round, m, specs);
    FinishedRoundServes(past, c', m, node, specs);
  }

  // ---------------------------------------------------------------- the next round has nothing to do

  predicate CallsRuntime(a: C.Action, m: nat) {
    (a.ClearDead? || a.StartWorkload?) && a.m == m
  }

  ghost predicate AllSeen(seen: Seen, specs: seq<WorkloadSpec>) {
    forall i :: 0 <= i < |specs| ==> SeenRunning(seen, specs[i].name)
  }

  ghost predicate Idle(x: C.Machine, specs: seq<WorkloadSpec>) {
    match x.agent
    case Awaiting(_, _, seen) => AllSeen(seen, specs)
    case Acting(_, _, seen, todo, cleared) => AllSeen(seen, todo) && !cleared
    case Ready(_, _) => true
    case _ => false
  }

  lemma IdleStep(c: C.Cluster, a: C.Action, m: nat, specs: seq<WorkloadSpec>)
    requires C.CanAct(c, a) && Undisturbed(a, m, specs) && m in c.machines && Idle(c.machines[m], specs)
    ensures !CallsRuntime(a, m)
    ensures m in C.Act(c, a).machines && Idle(C.Act(c, a).machines[m], specs)
    ensures C.Act(c, a).machines[m].host == c.machines[m].host
  {
    if !Concerns(a, m) {
      UnconcernedStays(c, a, m);
    } else if a.SkipRunning? {
      var todo := c.machines[m].agent.todo;
      assert forall i :: 0 <= i < |todo[1..]| ==> todo[1..][i] == todo[i + 1];
    }
  }

  lemma {:induction false} IdleRun(c: C.Cluster, acts: seq<C.Action>, m: nat, specs: seq<WorkloadSpec>)
    requires C.Runs(c, acts) && m in c.machines && Idle(c.machines[m], specs)
    requires forall i :: 0 <= i < |acts| ==> Undisturbed(acts[i], m, specs)
    ensures forall i :: 0 <= i < |acts| ==> !CallsRuntime(acts[i], m)
    ensures m in C.End(c, acts).machines && C.End(c, acts).machines[m].host == c.machines[m].host
    decreases |acts|
  {
    if acts != [] {
      IdleStep(c, acts[0], m, specs);
      IdleRun(C.Act(c, acts[0]), acts[1..], m, specs);
      assert forall i :: 1 <= i < |acts| ==> acts[i] == acts[1..][i - 1];
    }
  }

  lemma SendingIdles(c: C.Cluster, m: nat, node: Uuid, db: Db, statuses: seq<Status>, specs: seq<WorkloadSpec>)
    requires C.CanAct(c, C.SendHeartbeat(m, statuses)) && NodeServed(c, m, node, db) && IsReply(db, node, specs)
    ensures AllSeen(ByName(statuses), specs)
  {
    forall i | 0 <= i < |specs|
      ensures SeenRunning(ByName(statuses), specs[i].name)
    {
      assert Desired(db, node, specs[i]);
      var w :| Describes(db, node, w, specs[i]);
      assert OnNode(db, node, w);
      ListingIsFaithful(c.machines[m].host, statuses, specs[i].name);
    }
  }

  /** When every workload of the reply runs and nothing dies, the next round makes no runtime
      call, whatever goes on around it. */
  lemma NextRoundIdles(c: C.Cluster, statuses: seq<Status>, round: seq<C.Action>, m: nat, node: Uuid, db: Db, specs: seq<WorkloadSpec>)
    requires C.Runs(c, round) && round != [] && round[0] == C.SendHeartbeat(m, statuses)
    requires NodeServed(c, m, node, db) && IsReply(db, node, specs)
    requires forall i :: 1 <= i < |round| ==> Undisturbed(round[i], m, specs)
    ensures forall i :: 0 <= i < |round| ==> !CallsRuntime(round[i], m)
    ensures m in C.End(c, round).machines && C.End(c, round).machines[m].host == c.machines[m].host
  {
    SendingIdles(c, m, node, db, statuses, specs);
    IdleRun(C.Act(c, round[0]), round[1..], m, specs);
    assert forall i :: 1 <= i < |round| ==> round[i] == round[1..][i - 1];
  }
}
