/** One heartbeat of the agent against a control plane and a runtime, and the convergence of
    two of them (heartbeatOnce in internal/agent/reconciler.go). */
module Agent {
  import opened Types
  import opened Store
  import opened StoreProofs
  import opened ControlPlane
  import opened Runtime
  import opened Reconcile

  ghost predicate OnNode(db: Db, node: Uuid, w: Uuid) {
    w in db.workloads && db.workloads[w].node == node
  }

  ghost predicate NodeRuns(db: Db, node: Uuid, h: Host) {
    forall w :: OnNode(db, node, w) ==> IsRunning(h, db.workloads[w].name)
  }

  /** The observed columns of the node's workloads tell the truth about tasks and processes. */
  ghost predicate ColumnsCurrent(db: Db, node: Uuid, h: Host) {
    forall w :: OnNode(db, node, w) ==>
      var row := db.workloads[w];
      row.name in h.records && Tells(h, row.name, row.state, row.pid)
  }

  const NO_FAULTS := HeartbeatFaults(false, None, false)

  function ReportOf(s: Status): Report {
    Report(s.name, s.state, s.pid)
  }

  /** toAPIStatuses, as far as the control plane reads it. */
  method ToReports(statuses: seq<Status>) returns (reports: seq<Report>)
    ensures reports == Map(ReportOf, statuses)
  {
    reports := [];
    for i := 0 to |statuses|
      invariant reports == Map(ReportOf, statuses[..i])
    {
      reports := reports + [Report(statuses[i].name, statuses[i].state, statuses[i].pid)];
    }
    assert statuses[..|statuses|] == statuses;
  }

  lemma {:induction false} NamesCounted(statuses: seq<Status>) returns (names: set<string>)
    requires forall i, j :: 0 <= i < j < |statuses| ==> statuses[i].name != statuses[j].name
    ensures |names| == |statuses| && forall n :: n in names <==> exists i :: 0 <= i < |statuses| && statuses[i].name == n
  {
    names := {};
    if statuses != [] {
      var init := NamesCounted(statuses[..|statuses|-1]);
      assert forall i :: 0 <= i < |statuses| - 1 ==> statuses[..|statuses|-1][i] == statuses[i];
      names := init + {Last(statuses).name};
    }
  }

  /** A listing has one entry per container, so a heartbeat makes one report for each. */
  lemma ListingLength(h: Host, statuses: seq<Status>)
    requires IsListing(h, statuses)
    ensures |statuses| == |h.records|
  {
    var names := NamesCounted(statuses);
    assert names == h.records.Keys;
  }

  /** A listing in which all of the node's workloads run makes the columns current. */
  lemma ReportsMakeCurrent(db: Db, node: Uuid, h: Host, statuses: seq<Status>, now: nat)
    requires IsListing(h, statuses) && NodeRuns(db, node, h)
    ensures ColumnsCurrent(Reports(db, node, Map(ReportOf, statuses), now), node, h)
  {
    var reports := Map(ReportOf, statuses);
    var db' := Reports(db, node, reports, now);
    ReportsTouchOnly(db, node, reports, now);
    forall w | OnNode(db', node, w)
      ensures var row := db'.workloads[w];
              row.name in h.records && Tells(h, row.name, row.state, row.pid)
    {
      assert OnNode(db, node, w) && IsRunning(h, db.workloads[w].name);
      var i :| 0 <= i < |statuses| && statuses[i].name == db.workloads[w].name;
      ReportsShow(db, node, reports, now, w, i);
      StatusTells(h, statuses[i].name);
    }
  }

  lemma NodeRunsStable(db: Db, db': Db, node: Uuid, h: Host)
    requires Extends(db, db') && db'.workloads.Keys == db.workloads.Keys
    ensures NodeRuns(db, node, h) <==> NodeRuns(db', node, h)
  {
    assert forall w :: OnNode(db, node, w) <==> OnNode(db', node, w);
  }

  /** A right reply makes a fault-free reconcile start everything the node should run. */
  lemma RoundStartsAll(db: Db, node: Uuid, h: Host, statuses: seq<Status>, specs: seq<WorkloadSpec>, fs: nat -> StepFaults)
    requires IsReply(db, node, specs) && IsListing(h, statuses) && NoOrphans(h) && AllSmooth(fs)
    ensures NodeRuns(db, node, ReconcileAll(h, ByName(statuses), specs, fs).host)
  {
    forall i | 0 <= i < |specs|
      ensures Faithful(h, ByName(statuses), specs[i].name)
    {
      ListingIsFaithful(h, statuses, specs[i].name);
    }
    ReconcileConverges(h, ByName(statuses), specs, fs);
  }

  /** When everything already runs, a right reply causes no runtime call. */
  lemma RoundIdles(db: Db, node: Uuid, h: Host, statuses: seq<Status>, specs: seq<WorkloadSpec>, fs: nat -> StepFaults)
    requires IsReply(db, node, specs) && IsListing(h, statuses) && NodeRuns(db, node, h)
    ensures ReconcileAll(h, ByName(statuses), specs, fs) == Progress(h, 0, 0)
  {
    forall i | 0 <= i < |specs|
      ensures SeenRunning(ByName(statuses), specs[i].name)
    {
      assert Desired(db, node, specs[i]);
      var w :| Describes(db, node, w, specs[i]);
      assert OnNode(db, node, w);
      ListingIsFaithful(h, statuses, specs[i].name);
    }
    ReconcileIdle(h, ByName(statuses), specs, fs);
  }

  /** What a complete round does to the host. Without faults and orphans it starts whatever
      does not run; and if nothing had to be started, it makes no call and brings the
      observed columns up to date. */
  ghost predicate RoundEffect(db: Db, db': Db, node: Uuid, h: Host, h': Host, calls: nat, fs: nat -> StepFaults) {
    && (NoOrphans(h) && AllSmooth(fs) ==> NodeRuns(db', node, h'))
    && (NodeRuns(db, node, h) ==> h' == h && calls == 0 && ColumnsCurrent(db', node, h))
  }

  /** The request of one heartbeat and its reply, if there is one. */
  method Exchange(server: Server, node: Uuid, token: Token, resources: Resources, address: string, now: nat,
                  statuses: seq<Status>, hf: HeartbeatFaults)
    returns (specs: Option<seq<WorkloadSpec>>)
    requires DbInv(server.db)
    modifies server
    ensures DbInv(server.db) && Extends(old(server.db), server.db)
    ensures server.db.workloads.Keys == old(server.db).workloads.Keys
    ensures specs.Some? <==> HasCredential(old(server.db), node, token) && hf.Spares(|statuses|)
    ensures specs.Some? ==>
              && server.db == Reports(WithBeat(old(server.db), node, resources, address, now), node, Map(ReportOf, statuses), now)
              && IsReply(server.db, node, specs.value)
  {
    var reports := ToReports(statuses);
    var r := server.Heartbeat(node, token, resources, address, reports, now, hf);
    return if r.Ok? then Some(r.workloads) else None;
  }

  /** The round gets as far as acting on a reply: the listing works, the credential is good,
      and no store call fails, one status update per container included. */
  ghost predicate Completes(db: Db, node: Uuid, token: Token, h: Host, listFails: bool, hf: HeartbeatFaults) {
    !listFails && HasCredential(db, node, token) && hf.Spares(|h.records|)
  }

  /** heartbeatOnce. Whatever keeps a round from completing, no runtime call is made (fail
      static). */
  method HeartbeatOnce(server: Server, rt: Containerd, node: Uuid, token: Token, resources: Resources, address: string, now: nat,
                       listFails: bool, hf: HeartbeatFaults, fs: nat -> StepFaults)
    returns (calls: nat)
    requires DbInv(server.db)
    modifies server, rt
    ensures DbInv(server.db) && Extends(old(server.db), server.db)
    ensures server.db.workloads.Keys == old(server.db).workloads.Keys
    ensures listFails ==> server.db == old(server.db)
    ensures !Completes(old(server.db), node, token, old(rt.View()), listFails, hf) ==> rt.View() == old(rt.View()) && calls == 0
    ensures Completes(old(server.db), node, token, old(rt.View()), listFails, hf) ==>
              RoundEffect(old(server.db), server.db, node, old(rt.View()), rt.View(), calls, fs)
  {
    calls := 0;
    if listFails {
      return;
    }
    var statuses := rt.List();
    ListingLength(rt.View(), statuses);
    var specs := Exchange(server, node, token, resources, address, now, statuses, hf);
    if specs.None? {
      return;
    }
    calls := ActOn(rt, statuses, specs.value, fs, old(server.db), server.db, node, resources, address, now);
  }

  /** Acting on a reply; the ghost arguments are the tables before and after the exchange. */
  method ActOn(rt: Containerd, statuses: seq<Status>, specs: seq<WorkloadSpec>, fs: nat -> StepFaults,
               ghost db: Db, ghost db': Db, ghost node: Uuid, ghost resources: Resources, ghost address: string, ghost now: nat)
    returns (calls: nat)
    requires DbInv(db) && IsListing(rt.View(), statuses) && IsReply(db', node, specs)
    requires db' == Reports(WithBeat(db, node, resources, address, now), node, Map(ReportOf, statuses), now)
    modifies rt
    ensures RoundEffect(db, db', node, old(rt.View()), rt.View(), calls, fs)
  {
    RoundSummary(db, db', node, resources, address, now, rt.View(), statuses, specs, fs);
    var _, n := Reconcile.Reconcile(rt, statuses, specs, fs);
    calls := n;
  }

  /** What one complete round does, from the tables and the host before it. */
  lemma RoundSummary(db: Db, db': Db, node: Uuid, resources: Resources, address: string, now: nat,
                     h: Host, statuses: seq<Status>, specs: seq<WorkloadSpec>, fs: nat -> StepFaults)
    requires DbInv(db) && IsListing(h, statuses)
    requires db' == Reports(WithBeat(db, node, resources, address, now), node, Map(ReportOf, statuses), now)
    requires IsReply(db', node, specs)
    ensures var p := ReconcileAll(h, ByName(statuses), specs, fs);
            RoundEffect(db, db', node, h, p.host, p.calls, fs)
  {
    var base := WithBeat(db, node, resources, address, now);
    BeatKeepsInv(db, node, resources, address, now);
    ReportsKeepInv(base, node, Map(ReportOf, statuses), now);
    if NoOrphans(h) && AllSmooth(fs) {
      RoundStartsAll(db', node, h, statuses, specs, fs);
    }
    if NodeRuns(db, node, h) {
      NodeRunsStable(db, base, node, h);
      NodeRunsStable(base, db', node, h);
      RoundIdles(db', node, h, statuses, specs, fs);
      ReportsMakeCurrent(base, node, h, statuses, now);
    }
  }

  /** A fault-free round on an orphan-free host starts whatever does not run. */
  method StartingRound(server: Server, rt: Containerd, node: Uuid, token: Token, resources: Resources, address: string,
                       now: nat, fs: nat -> StepFaults)
    requires DbInv(server.db) && HasCredential(server.db, node, token)
    requires NoOrphans(rt.View()) && AllSmooth(fs)
    modifies server, rt
    ensures DbInv(server.db) && Extends(old(server.db), server.db) && HasCredential(server.db, node, token)
    ensures server.db.workloads.Keys == old(server.db).workloads.Keys
    ensures NodeRuns(server.db, node, rt.View())
  {
    assert Completes(server.db, node, token, rt.View(), false, NO_FAULTS);
    var _ := HeartbeatOnce(server, rt, node, token, resources, address, now, false, NO_FAULTS, fs);
  }

  /** When everything runs, a round makes no runtime call and makes the columns current. */
  method IdleRound(server: Server, rt: Containerd, node: Uuid, token: Token, resources: Resources, address: string,
                   now: nat, fs: nat -> StepFaults)
    returns (calls: nat)
    requires DbInv(server.db) && HasCredential(server.db, node, token)
    requires NodeRuns(server.db, node, rt.View())
    modifies server, rt
    ensures DbInv(server.db) && Extends(old(server.db), server.db)
    ensures server.db.workloads.Keys == old(server.db).workloads.Keys
    ensures calls == 0 && rt.View() == old(rt.View())
    ensures NodeRuns(server.db, node, rt.View()) && ColumnsCurrent(server.db, node, rt.View())
  {
    assert Completes(server.db, node, token, rt.View(), false, NO_FAULTS);
    ghost var h, db := rt.View(), server.db;
    calls := HeartbeatOnce(server, rt, node, token, resources, address, now, false, NO_FAULTS, fs);
    NodeRunsStable(db, server.db, node, h);
  }

  /** Convergence: from any orphan-free state, one fault-free round leaves every workload of
      the node running; a second round, with no crash and no deploy in between, makes no
      runtime call and leaves the store showing what the runtime reports. */
  method TwoRounds(server: Server, rt: Containerd, node: Uuid, token: Token, resources: Resources, address: string,
                   first: nat, second: nat, fs: nat -> StepFaults)
    returns (calls: nat)
    requires DbInv(server.db) && HasCredential(server.db, node, token)
    requires NoOrphans(rt.View()) && AllSmooth(fs)
    modifies server, rt
    ensures calls == 0
    ensures server.db.workloads.Keys == old(server.db).workloads.Keys && Extends(old(server.db), server.db)
    ensures NodeRuns(server.db, node, rt.View()) && ColumnsCurrent(server.db, node, rt.View())
  {
    ghost var db0 := server.db;
    StartingRound(server, rt, node, token, resources, address, first, fs);
    ghost var db1 := server.db;
    calls := IdleRound(server, rt, node, token, resources, address, second, fs);
    ExtendsTransitive(db0, db1, server.db);
  }
}
