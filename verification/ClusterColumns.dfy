/** The observed columns of the store in the running cluster: whose report they show, and when
    that is what the runtime says. */
module ClusterColumns {
  import opened Types
  import opened Store
  import opened StoreProofs
  import opened ControlPlane
  import opened Agent
  import Runtime
  import Reconcile
  import C = Cluster
  import CS = ClusterSafety
  import CP = ClusterProgress
  import CA = ClusterActions

  datatype Columns = Columns(state: State, pid: int)

  function ColumnsOf(row: WorkloadRow): Columns {
    Columns(row.state, row.pid)
  }

  function Shows(s: Status): Columns {
    Columns(s.state, s.pid)
  }

  // ---------------------------------------------------------------- the last write

  predicate WritesTo(step: Step, node: Uuid, name: string) {
    step.UpdateWorkloadStatus? && step.node == node && step.name == name
  }

  /** What a run writes last about the workload of that name and node, if anything. */
  ghost function LastWrite(c: C.Cluster, acts: seq<C.Action>, node: Uuid, name: string): Option<Columns>
    requires C.Runs(c, acts)
    decreases |acts|
  {
    if acts == [] then None
    else
      var later := LastWrite(C.Act(c, acts[0]), acts[1..], node, name);
      var step := CP.StatementOf(c, acts[0]);
      if later.Some? then later
      else if step.Some? && WritesTo(step.value, node, name) then Some(Columns(step.value.state, step.value.pid))
      else None
  }

  lemma OtherStatements(s: Sys, step: Step)
    requires Enabled(s, step) && !step.CommitCreate? && !step.UpdateWorkloadStatus?
    ensures After(s, step).db.workloads == s.db.workloads
  {
  }

  lemma CommitAddsRow(s: Sys, step: Step, w: Uuid)
    requires Inv(s) && Enabled(s, step) && step.CommitCreate? && w in s.db.workloads
    ensures w in After(s, step).db.workloads && After(s, step).db.workloads[w] == s.db.workloads[w]
  {
    CommittedDeployIsSerial(s, step);
  }

  lemma StatementWrites(s: Sys, step: Step, w: Uuid)
    requires Inv(s) && Enabled(s, step) && w in s.db.workloads
    ensures var db', row := After(s, step).db, s.db.workloads[w];
            && w in db'.workloads && db'.workloads[w].node == row.node && db'.workloads[w].name == row.name
            && ColumnsOf(db'.workloads[w]) == if WritesTo(step, row.node, row.name) then Columns(step.state, step.pid) else ColumnsOf(row)
  {
    if step.CommitCreate? {
      CommitAddsRow(s, step, w);
    } else if !step.UpdateWorkloadStatus? {
      OtherStatements(s, step);
    }
  }

  lemma ActionWrites(c: C.Cluster, a: C.Action, w: Uuid)
    requires CS.Inv(c) && C.CanAct(c, a) && w in c.sys.db.workloads
    ensures var db', row, step := C.Act(c, a).sys.db, c.sys.db.workloads[w], CP.StatementOf(c, a);
            && w in db'.workloads && db'.workloads[w].node == row.node && db'.workloads[w].name == row.name
            && ColumnsOf(db'.workloads[w]) == if step.Some? && WritesTo(step.value, row.node, row.name)
                                              then Columns(step.value.state, step.value.pid) else ColumnsOf(row)
  {
    CP.StatementIs(c, a);
    if CP.StatementOf(c, a).Some? {
      StatementWrites(c.sys, CP.StatementOf(c, a).value, w);
    }
  }

  /** The columns of a workload are what was written about it last, by whatever handler. */
  lemma {:induction false} ColumnsAreLastWrite(c: C.Cluster, acts: seq<C.Action>, w: Uuid)
    requires CS.Inv(c) && C.Runs(c, acts) && w in c.sys.db.workloads
    ensures var db', row := C.End(c, acts).sys.db, c.sys.db.workloads[w];
            var last := LastWrite(c, acts, row.node, row.name);
            && w in db'.workloads
            && ColumnsOf(db'.workloads[w]) == if last.Some? then last.value else ColumnsOf(row)
    decreases |acts|
  {
    if acts != [] {
      ActionWrites(c, acts[0], w);
      CS.ActionKeepsInv(c, acts[0]);
      ColumnsAreLastWrite(C.Act(c, acts[0]), acts[1..], w);
    }
  }

  /** So columns that show what the runtime says go on doing so exactly as long as nobody
      writes anything else: an older heartbeat handled late makes them wrong exactly when its
      report is the last word and says something else. */
  lemma CurrentExactly(c: C.Cluster, acts: seq<C.Action>, w: Uuid, status: Status)
    requires CS.Inv(c) && C.Runs(c, acts) && w in c.sys.db.workloads && ColumnsOf(c.sys.db.workloads[w]) == Shows(status)
    ensures var db', row := C.End(c, acts).sys.db, c.sys.db.workloads[w];
            var last := LastWrite(c, acts, row.node, row.name);
            && w in db'.workloads
            && (ColumnsOf(db'.workloads[w]) == Shows(status) <==> last.None? || last.value == Shows(status))
  {
    ColumnsAreLastWrite(c, acts, w);
  }

  /** The input: one late report. */
  lemma LateReportMisleads(c: C.Cluster, hd: nat, h: C.Handler, now: nat, w: Uuid, status: Status)
    requires CS.Inv(c) && hd in c.handlers && c.handlers[hd] == h && h.Updating? && h.todo != []
    requires OnNode(c.sys.db, h.node, w) && h.todo[0].name == c.sys.db.workloads[w].name && h.todo[0].state != status.state
    ensures C.CanAct(c, C.HandleReport(hd, now))
    ensures var db' := C.Act(c, C.HandleReport(hd, now)).sys.db;
            w in db'.workloads && ColumnsOf(db'.workloads[w]) != Shows(status)
  {
    ActionWrites(c, C.HandleReport(hd, now), w);
  }

  // ---------------------------------------------------------------- the round's own handler

  /** All that is written about the node is written by handler hd, which goes on to the end of
      its reports. */
  ghost predicate Only(c: C.Cluster, acts: seq<C.Action>, node: Uuid, hd: nat)
    requires C.Runs(c, acts)
    decreases |acts|
  {
    acts == [] ||
    (Mine(c, acts[0], node, hd) && Only(C.Act(c, acts[0]), acts[1..], node, hd))
  }

  ghost predicate Mine(c: C.Cluster, a: C.Action, node: Uuid, hd: nat)
    requires C.CanAct(c, a)
  {
    var step := CP.StatementOf(c, a);
    && (step.Some? && step.value.UpdateWorkloadStatus? && step.value.node == node ==> a.HandleReport? && a.hd == hd)
    && !(a.HandlerFails? && a.hd == hd) && !(a.HandleHeartbeat? && a.hd == hd)
  }

  /** Handler hd has written the first k reports of the listing. */
  ghost predicate Reporting(c: C.Cluster, hd: nat, node: Uuid, statuses: seq<Status>, k: nat) {
    && k <= |statuses|
    && if hd in c.handlers && c.handlers[hd].Updating?
       then c.handlers[hd].node == node && c.handlers[hd].todo == Map(ReportOf, statuses)[k..]
       else k == |statuses|
  }

  function Count(k: nat, a: C.Action, hd: nat): nat {
    if a.HandleReport? && a.hd == hd then k + 1 else k
  }

  lemma ReportingGoesOn(c: C.Cluster, a: C.Action, hd: nat, node: Uuid, statuses: seq<Status>, k: nat)
    requires C.CanAct(c, a) && Mine(c, a, node, hd) && Reporting(c, hd, node, statuses, k)
    ensures Reporting(C.Act(c, a), hd, node, statuses, Count(k, a, hd))
    ensures a.HandleReport? && a.hd == hd ==>
              k < |statuses| && CP.StatementOf(c, a) == Some(UpdateWorkloadStatus(node, statuses[k].name, statuses[k].state, statuses[k].pid, a.now))
  {
    if a.HandleReport? && a.hd == hd {
      var reports := Map(ReportOf, statuses);
      assert reports[k..][1..] == reports[k + 1..];
      assert reports[k..][0] == reports[k];
    }
  }

  ghost predicate NamesDiffer(statuses: seq<Status>) {
    forall i, j :: 0 <= i < j < |statuses| ==> statuses[i].name != statuses[j].name
  }

  /** Workload w, if it is among the first k of the listing, shows what that says. */
  ghost predicate ShownFor(db: Db, w: Uuid, statuses: seq<Status>, k: nat) {
    w in db.workloads &&
    forall i :: 0 <= i < k && i < |statuses| && statuses[i].name == db.workloads[w].name ==> ColumnsOf(db.workloads[w]) == Shows(statuses[i])
  }

  /** One statement: the next report of the listing, or nothing about the node. */
  lemma WriteShows(db: Db, db': Db, node: Uuid, statuses: seq<Status>, k: nat, k': nat, w: Uuid, step: Option<Step>, now: nat)
    requires NamesDiffer(statuses) && OnNode(db, node, w) && ShownFor(db, w, statuses, k)
    requires w in db'.workloads && db'.workloads[w].name == db.workloads[w].name
    requires ColumnsOf(db'.workloads[w]) == if step.Some? && WritesTo(step.value, node, db.workloads[w].name)
                                            then Columns(step.value.state, step.value.pid) else ColumnsOf(db.workloads[w])
    requires || (k' == k && !(step.Some? && step.value.UpdateWorkloadStatus? && step.value.node == node))
             || (k' == k + 1 && k < |statuses|
                 && step == Some(UpdateWorkloadStatus(node, statuses[k].name, statuses[k].state, statuses[k].pid, now)))
    ensures ShownFor(db', w, statuses, k')
  {
  }

  lemma ShownGoesOn(c: C.Cluster, a: C.Action, hd: nat, node: Uuid, statuses: seq<Status>, k: nat, w: Uuid)
    requires CS.Inv(c) && C.CanAct(c, a) && Mine(c, a, node, hd) && Reporting(c, hd, node, statuses, k) && NamesDiffer(statuses)
    requires OnNode(c.sys.db, node, w) && ShownFor(c.sys.db, w, statuses, k)
    ensures OnNode(C.Act(c, a).sys.db, node, w) && ShownFor(C.Act(c, a).sys.db, w, statuses, Count(k, a, hd))
    ensures C.Act(c, a).sys.db.workloads[w].name == c.sys.db.workloads[w].name
  {
    ReportingGoesOn(c, a, hd, node, statuses, k);
    ActionWrites(c, a, w);
    WriteShows(c.sys.db, C.Act(c, a).sys.db, node, statuses, k, Count(k, a, hd), w, CP.StatementOf(c, a), if a.HandleReport? then a.now else 0);
  }

  /** When the handler of a listing is through, and nobody else has written about the node, the
      columns of each workload in the listing show what the listing says. */
  lemma {:induction false} HandlerShows(c: C.Cluster, acts: seq<C.Action>, hd: nat, node: Uuid, statuses: seq<Status>, k: nat, w: Uuid)
    requires CS.Inv(c) && C.Runs(c, acts) && Only(c, acts, node, hd)
    requires Reporting(c, hd, node, statuses, k) && NamesDiffer(statuses)
    requires OnNode(c.sys.db, node, w) && ShownFor(c.sys.db, w, statuses, k)
    requires var c' := C.End(c, acts); hd !in c'.handlers || !c'.handlers[hd].Updating? || c'.handlers[hd].todo == []
    ensures ShownFor(C.End(c, acts).sys.db, w, statuses, |statuses|)
    ensures C.End(c, acts).sys.db.workloads[w].name == c.sys.db.workloads[w].name
    decreases |acts|
  {
    if acts == [] {
      assert Reporting(c, hd, node, statuses, k);
    } else {
      ShownGoesOn(c, acts[0], hd, node, statuses, k, w);
      ReportingGoesOn(c, acts[0], hd, node, statuses, k);
      CS.ActionKeepsInv(c, acts[0]);
      HandlerShows(C.Act(c, acts[0]), acts[1..], hd, node, statuses, Count(k, acts[0], hd), w);
    }
  }

  /** The handler is through with its reports. */
  ghost predicate Through(c: C.Cluster, hd: nat) {
    hd !in c.handlers || !c.handlers[hd].Updating? || c.handlers[hd].todo == []
  }

  lemma ListedShows(db: Db, w: Uuid, h: Runtime.Host, statuses: seq<Status>)
    requires Runtime.IsListing(h, statuses) && ShownFor(db, w, statuses, |statuses|) && db.workloads[w].name in h.records
    ensures ColumnsOf(db.workloads[w]) == Shows(Runtime.StatusOf(h, db.workloads[w].name))
  {
    assert Runtime.Named(statuses, db.workloads[w].name);
    var i :| 0 <= i < |statuses| && statuses[i].name == db.workloads[w].name;
    assert statuses[i] == Runtime.StatusOf(h, statuses[i].name);
  }

  lemma FromRequest(c: C.Cluster, acts: seq<C.Action>, hd: nat, m: nat, node: Uuid, h: Runtime.Host, statuses: seq<Status>, w: Uuid)
    requires CS.Inv(c) && C.Runs(c, acts) && Only(c, acts, node, hd) && Through(C.End(c, acts), hd)
    requires hd in c.handlers && c.handlers[hd] == C.Updating(m, node, Map(ReportOf, statuses))
    requires Runtime.IsListing(h, statuses) && OnNode(c.sys.db, node, w) && c.sys.db.workloads[w].name in h.records
    ensures var db' := C.End(c, acts).sys.db;
            && w in db'.workloads && db'.workloads[w].name == c.sys.db.workloads[w].name
            && ColumnsOf(db'.workloads[w]) == Shows(Runtime.StatusOf(h, c.sys.db.workloads[w].name))
  {
    assert Map(ReportOf, statuses)[0..] == Map(ReportOf, statuses);
    HandlerShows(c, acts, hd, node, statuses, 0, w);
    ListedShows(C.End(c, acts).sys.db, w, h, statuses);
  }

  lemma RequestOpens(c: C.Cluster, a: C.Action, w: Uuid)
    requires CS.Inv(c) && C.CanAct(c, a) && a.HandleHeartbeat? && OnNode(c.sys.db, a.node, w)
    ensures var c' := C.Act(c, a);
            && CS.Inv(c') && a.hd in c'.handlers && c'.handlers[a.hd] == C.Updating(a.m, a.node, a.reports)
            && OnNode(c'.sys.db, a.node, w) && c'.sys.db.workloads[w].name == c.sys.db.workloads[w].name
  {
    CS.ActionKeepsInv(c, a);
    ActionWrites(c, a, w);
  }

  /** From the request of a heartbeat on: when its handler is through and nobody else has
      written about the node, the columns of every workload in the listing show it. */
  lemma HeartbeatShows(c: C.Cluster, a: C.Action, acts: seq<C.Action>, h: Runtime.Host, statuses: seq<Status>, w: Uuid)
    requires CS.Inv(c) && C.CanAct(c, a) && a.HandleHeartbeat? && a.reports == Map(ReportOf, statuses)
    requires Runtime.IsListing(h, statuses) && OnNode(c.sys.db, a.node, w) && c.sys.db.workloads[w].name in h.records
    requires C.Runs(C.Act(c, a), acts) && Only(C.Act(c, a), acts, a.node, a.hd) && Through(C.End(C.Act(c, a), acts), a.hd)
    ensures var db' := C.End(C.Act(c, a), acts).sys.db;
            && w in db'.workloads && db'.workloads[w].name == c.sys.db.workloads[w].name
            && ColumnsOf(db'.workloads[w]) == Shows(Runtime.StatusOf(h, c.sys.db.workloads[w].name))
  {
    RequestOpens(c, a, w);
    FromRequest(C.Act(c, a), acts, a.hd, a.m, a.node, h, statuses, w);
  }

  // ---------------------------------------------------------------- the second round

  /** The columns of workload w tell the truth about the task and process of its container on
      machine m. */
  ghost predicate ShownOn(c: C.Cluster, m: nat, w: Uuid, name: string) {
    && m in c.machines && w in c.sys.db.workloads && c.sys.db.workloads[w].name == name
    && name in c.machines[m].host.records
    && Runtime.Tells(c.machines[m].host, name, c.sys.db.workloads[w].state, c.sys.db.workloads[w].pid)
  }

  lemma ServedNow(c: C.Cluster, m: nat, node: Uuid, db: Db, w: Uuid)
    requires CP.NodeServed(c, m, node, db) && OnNode(db, node, w)
    ensures c.machines[m].slot.Saved? && OnNode(c.sys.db, c.machines[m].slot.node, w)
    ensures c.sys.db.workloads[w].name == db.workloads[w].name && db.workloads[w].name in c.machines[m].host.records
  {
    assert CS.RunsWorkload(c, m, db.workloads[w].name, w);
  }

  lemma RowStays(c: C.Cluster, acts: seq<C.Action>, node: Uuid, w: Uuid)
    requires CS.Inv(c) && C.Runs(c, acts) && OnNode(c.sys.db, node, w)
    ensures CS.Inv(C.End(c, acts)) && OnNode(C.End(c, acts).sys.db, node, w)
    ensures C.End(c, acts).sys.db.workloads[w].name == c.sys.db.workloads[w].name
  {
    CS.RunKeepsInv(c, acts);
    CP.RunExtendsTables(c, acts);
  }

  /** A round whose request, the one sent by its first action, is handled by action a. */
  ghost predicate RoundWith(c: C.Cluster, pre: seq<C.Action>, a: C.Action, post: seq<C.Action>, m: nat, statuses: seq<Status>, specs: seq<WorkloadSpec>) {
    && C.Runs(c, pre) && C.CanAct(C.End(c, pre), a) && C.Runs(C.Act(C.End(c, pre), a), post)
    && pre != [] && pre[0] == C.SendHeartbeat(m, statuses)
    && a.HandleHeartbeat? && C.HeartbeatRequest(m, a.node, a.credential, a.reports) in CA.SentBy(c, pre[0])
    && (forall i :: 1 <= i < |pre| ==> CP.Undisturbed(pre[i], m, specs))
    && (forall i :: 0 <= i < |post| ==> CP.Undisturbed(post[i], m, specs))
  }

  /** The handled reports are those of the listing that the round began with. */
  lemma RoundReports(c: C.Cluster, pre: seq<C.Action>, a: C.Action, post: seq<C.Action>, m: nat, statuses: seq<Status>, specs: seq<WorkloadSpec>)
    requires RoundWith(c, pre, a, post, m, statuses, specs)
    ensures m in c.machines && Runtime.IsListing(c.machines[m].host, statuses) && a.reports == Map(ReportOf, statuses)
  {
    CA.HeartbeatIsSent(c, m, statuses);
  }

  lemma RoundJoined(c: C.Cluster, pre: seq<C.Action>, a: C.Action, post: seq<C.Action>, m: nat, statuses: seq<Status>, specs: seq<WorkloadSpec>)
    returns (round: seq<C.Action>)
    requires RoundWith(c, pre, a, post, m, statuses, specs)
    ensures C.Runs(c, round) && C.End(c, round) == C.End(C.Act(C.End(c, pre), a), post)
    ensures round != [] && round[0] == C.SendHeartbeat(m, statuses)
    ensures forall i :: 1 <= i < |round| ==> CP.Undisturbed(round[i], m, specs)
  {
    var rest := [a] + post;
    assert rest[0] == a && rest[1..] == post;
    CP.RunsJoin(c, pre, rest);
    round := pre + rest;
  }

  /** Convergence of the columns in the running cluster. When the workloads of db run on machine
      m, nothing dies there, and only the handler of this round's request writes about the node
      from the request on, then at the end of the round the columns of each of them show what
      the runtime reports. */
  lemma SecondRoundIsShown(c: C.Cluster, pre: seq<C.Action>, a: C.Action, post: seq<C.Action>, m: nat, statuses: seq<Status>,
                           node: Uuid, db: Db, specs: seq<WorkloadSpec>, w: Uuid)
    requires CS.Inv(c) && RoundWith(c, pre, a, post, m, statuses, specs)
    requires CP.NodeServed(c, m, node, db) && IsReply(db, node, specs) && OnNode(db, node, w)
    requires a.node == c.sys.db.workloads[w].node
    requires Only(C.Act(C.End(c, pre), a), post, a.node, a.hd) && Through(C.End(C.Act(C.End(c, pre), a), post), a.hd)
    ensures ShownOn(C.End(C.Act(C.End(c, pre), a), post), m, w, db.workloads[w].name)
  {
    var round := RoundJoined(c, pre, a, post, m, statuses, specs);
    CP.NextRoundIdles(c, statuses, round, m, node, db, specs);
    ServedNow(c, m, node, db, w);
    RowStays(c, pre, a.node, w);
    RoundReports(c, pre, a, post, m, statuses, specs);
    RequestShows(C.End(c, pre), a, post, c.machines[m].host, statuses, w);
  }

  lemma RequestShows(c: C.Cluster, a: C.Action, acts: seq<C.Action>, h: Runtime.Host, statuses: seq<Status>, w: Uuid)
    requires CS.Inv(c) && C.CanAct(c, a) && a.HandleHeartbeat? && a.reports == Map(ReportOf, statuses)
    requires Runtime.IsListing(h, statuses) && OnNode(c.sys.db, a.node, w) && c.sys.db.workloads[w].name in h.records
    requires C.Runs(C.Act(c, a), acts) && Only(C.Act(c, a), acts, a.node, a.hd) && Through(C.End(C.Act(c, a), acts), a.hd)
    ensures var db', name := C.End(C.Act(c, a), acts).sys.db, c.sys.db.workloads[w].name;
            && w in db'.workloads && db'.workloads[w].name == name
            && Runtime.Tells(h, name, db'.workloads[w].state, db'.workloads[w].pid)
  {
    HeartbeatShows(c, a, acts, h, statuses, w);
    Runtime.StatusTells(h, c.sys.db.workloads[w].name);
  }
}
