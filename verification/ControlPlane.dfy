/** The control plane's handlers (internal/controlplane/api) and the store queries behind
    them. A handler makes several queries, each of which may see later tables than the one
    before it. */
module ControlPlane {
  import opened Types
  import opened Store
  import opened StoreProofs
  import opened PortConversions

  // ---------------------------------------------------------------- listing a node's workloads

  datatype Workload = Workload(id: Uuid, row: WorkloadRow, ports: seq<StorePort>)

  /** The ids of w's port rows, in some order. */
  ghost predicate OwnRows(db: Db, w: Uuid, ids: seq<Uuid>) {
    && Distinct(ids)
    && forall p :: p in ids <==> (p in db.ports && db.ports[p].workload == w)
  }

  ghost function PortColumn(db: Db): map<Uuid, StorePort> {
    map p | p in db.ports :: db.ports[p].port
  }

  /** `ports` are the mappings of exactly w's rows: none lost, none twice, none foreign. The
      query has no ORDER BY, so their order is not fixed. */
  ghost predicate IsPortList(db: Db, w: Uuid, ports: seq<StorePort>) {
    exists ids :: OwnRows(db, w, ids) && Looks(PortColumn(db), ids, ports)
  }

  /** Two queries for one workload agree as multisets. */
  lemma PortListsAgree(db: Db, w: Uuid, a: seq<StorePort>, b: seq<StorePort>)
    requires IsPortList(db, w, a) && IsPortList(db, w, b)
    ensures multiset(a) == multiset(b)
  {
    var ia :| OwnRows(db, w, ia) && Looks(PortColumn(db), ia, a);
    var ib :| OwnRows(db, w, ib) && Looks(PortColumn(db), ib, b);
    SameListing(PortColumn(db), ia, a, ib, b);
  }

  lemma OwnRowsStable(db: Db, db': Db, w: Uuid, ids: seq<Uuid>)
    requires Extends(db, db') && w in db.workloads
    ensures OwnRows(db, w, ids) <==> OwnRows(db', w, ids)
  {
    forall p
      ensures (p in db.ports && db.ports[p].workload == w) <==> (p in db'.ports && db'.ports[p].workload == w)
    {
    }
  }

  lemma LooksStable(db: Db, db': Db, w: Uuid, ids: seq<Uuid>, ports: seq<StorePort>)
    requires Extends(db, db') && OwnRows(db, w, ids)
    ensures Looks(PortColumn(db), ids, ports) <==> Looks(PortColumn(db'), ids, ports)
  {
    assert forall i :: 0 <= i < |ids| ==> ids[i] in db.ports && db'.ports[ids[i]] == db.ports[ids[i]];
  }

  /** The workload rows and their ports may be read at different moments: a later read of
      the ports of a workload that already exists gives what an earlier one would have. */
  lemma PortListStable(db: Db, db': Db, w: Uuid, ports: seq<StorePort>)
    requires Extends(db, db') && w in db.workloads
    ensures IsPortList(db, w, ports) <==> IsPortList(db', w, ports)
  {
    forall ids
      ensures OwnRows(db, w, ids) && Looks(PortColumn(db), ids, ports) <==> OwnRows(db', w, ids) && Looks(PortColumn(db'), ids, ports)
    {
      OwnRowsStable(db, db', w, ids);
      if OwnRows(db, w, ids) {
        LooksStable(db, db', w, ids, ports);
      }
    }
  }

  /** The rows of a result set that belong to w. */
  function Own(db: Db, ids: seq<Uuid>, w: Uuid): seq<Uuid>
    requires forall p :: p in ids ==> p in db.ports
  {
    if ids == [] then []
    else
      var rest := Own(db, ids[..|ids|-1], w);
      if db.ports[Last(ids)].workload == w then rest + [Last(ids)] else rest
  }

  lemma {:induction false} OwnIs(db: Db, ids: seq<Uuid>, w: Uuid)
    requires forall p :: p in ids ==> p in db.ports
    ensures forall p :: p in Own(db, ids, w) <==> p in ids && db.ports[p].workload == w
    ensures Distinct(ids) ==> Distinct(Own(db, ids, w))
  {
    if ids != [] {
      OwnIs(db, ids[..|ids|-1], w);
      assert ids == ids[..|ids|-1] + [Last(ids)];
    }
  }

  /** SELECT ... FROM workload_ports WHERE workload_id = ANY(owners): matching rows, each once. */
  method QueryPorts(db: Db, owners: set<Uuid>) returns (ids: seq<Uuid>)
    ensures Distinct(ids)
    ensures forall p :: p in ids <==> p in db.ports && db.ports[p].workload in owners
  {
    ids := [];
    var todo := db.ports.Keys;
    while todo != {}
      invariant todo <= db.ports.Keys && Distinct(ids)
      invariant forall p :: p in ids <==> p in db.ports && p !in todo && db.ports[p].workload in owners
    {
      var p :| p in todo;
      todo := todo - {p};
      if db.ports[p].workload in owners {
        ids := ids + [p];
      }
    }
  }

  function Entry(byWorkload: map<Uuid, seq<StorePort>>, w: Uuid): seq<StorePort> {
    if w in byWorkload then byWorkload[w] else []
  }

  /** Regrouping the result set: each workload's entry holds the mappings of its own rows, in
      result order. */
  method Regroup(db: Db, ids: seq<Uuid>) returns (byWorkload: map<Uuid, seq<StorePort>>)
    requires forall p :: p in ids ==> p in db.ports
    ensures forall w :: Looks(PortColumn(db), Own(db, ids, w), Entry(byWorkload, w))
  {
    byWorkload := map[];
    for k := 0 to |ids|
      invariant forall w :: Looks(PortColumn(db), Own(db, ids[..k], w), Entry(byWorkload, w))
    {
      var row := db.ports[ids[k]];
      assert ids[..k+1][..k] == ids[..k] && Last(ids[..k+1]) == ids[k];
      byWorkload := byWorkload[row.workload := Entry(byWorkload, row.workload) + [row.port]];
    }
    assert ids[..|ids|] == ids;
  }

  /** attachPorts: one batched query, regrouped by workload. Order and all other fields are
      kept, and each workload gets exactly its own rows. */
  method AttachPorts(db: Db, workloads: seq<Workload>) returns (out: seq<Workload>)
    ensures |out| == |workloads|
    ensures forall i :: 0 <= i < |out| ==> out[i].id == workloads[i].id && out[i].row == workloads[i].row
    ensures forall i :: 0 <= i < |out| ==> IsPortList(db, out[i].id, out[i].ports)
  {
    if |workloads| == 0 {
      return workloads;
    }
    var owners := set i | 0 <= i < |workloads| :: workloads[i].id;
    var ids := QueryPorts(db, owners);
    var byWorkload := Regroup(db, ids);
    out := workloads;
    for i := 0 to |workloads|
      invariant |out| == |workloads|
      invariant forall j :: 0 <= j < |out| ==> out[j].id == workloads[j].id && out[j].row == workloads[j].row
      invariant forall j :: 0 <= j < i ==> IsPortList(db, out[j].id, out[j].ports)
    {
      var w := out[i].id;
      assert w in owners;
      OwnIs(db, ids, w);
      assert OwnRows(db, w, Own(db, ids, w));
      out := out[i := out[i].(ports := Entry(byWorkload, w))];
    }
  }

  /** The workloads of one node, each once; the ports are still missing. */
  ghost predicate ListsNode(db: Db, node: Uuid, ws: seq<Workload>) {
    && (forall i :: 0 <= i < |ws| ==> ws[i].id in db.workloads && ws[i].row == db.workloads[ws[i].id] && ws[i].row.node == node)
    && (forall i, j :: 0 <= i < j < |ws| ==> ws[i].id != ws[j].id)
    && (forall w :: w in db.workloads && db.workloads[w].node == node ==> exists i :: 0 <= i < |ws| && ws[i].id == w)
  }

  method QueryNodeWorkloads(db: Db, node: Uuid) returns (ws: seq<Workload>)
    ensures ListsNode(db, node, ws)
  {
    ws := [];
    var todo := db.workloads.Keys;
    while todo != {}
      invariant todo <= db.workloads.Keys
      invariant forall i :: 0 <= i < |ws| ==>
                  && ws[i].id in db.workloads && ws[i].id !in todo
                  && ws[i].row == db.workloads[ws[i].id] && ws[i].row.node == node
      invariant forall i, j :: 0 <= i < j < |ws| ==> ws[i].id != ws[j].id
      invariant forall w :: w in db.workloads && w !in todo && db.workloads[w].node == node ==>
                  exists i :: 0 <= i < |ws| && ws[i].id == w
    {
      var w :| w in todo;
      todo := todo - {w};
      if db.workloads[w].node == node {
        ghost var before := ws;
        ws := ws + [Workload(w, db.workloads[w], [])];
        assert ws[|before|].id == w;
        assert forall i :: 0 <= i < |before| ==> ws[i] == before[i];
      }
    }
  }

  /** The entry of a heartbeat reply for one workload. */
  function SpecOf(w: Workload): WorkloadSpec {
    WorkloadSpec(w.row.name, w.row.image, Map(Narrow, w.ports))
  }

  /** The spec describes a committed workload of the node, with that workload's image and
      exactly its ports. */
  ghost predicate Describes(db: Db, node: Uuid, w: Uuid, spec: WorkloadSpec) {
    && w in db.workloads && db.workloads[w].node == node
    && db.workloads[w].name == spec.name && db.workloads[w].image == spec.image
    && IsPortList(db, w, Map(Widen, spec.ports))
  }

  ghost predicate Desired(db: Db, node: Uuid, spec: WorkloadSpec) {
    exists w :: Describes(db, node, w, spec)
  }

  /** A reply that is right for the tables: one spec for every workload of the node. */
  ghost predicate IsReply(db: Db, node: Uuid, specs: seq<WorkloadSpec>) {
    && (forall i :: 0 <= i < |specs| ==> Desired(db, node, specs[i]))
    && (forall i, j :: 0 <= i < j < |specs| ==> specs[i].name != specs[j].name)
    && (forall w :: w in db.workloads && db.workloads[w].node == node ==>
          exists i :: 0 <= i < |specs| && specs[i].name == db.workloads[w].name)
  }

  /** Desired state never goes stale: what was desired once stays desired. */
  lemma DesiredStable(db: Db, db': Db, node: Uuid, spec: WorkloadSpec)
    requires Extends(db, db') && Desired(db, node, spec)
    ensures Desired(db', node, spec)
  {
    var w :| Describes(db, node, w, spec);
    PortListStable(db, db', w, Map(Widen, spec.ports));
    assert Describes(db', node, w, spec);
  }

  lemma PortListFits(db: Db, w: Uuid, ports: seq<StorePort>)
    requires PortsOk(db) && IsPortList(db, w, ports)
    ensures forall i :: 0 <= i < |ports| ==> Fits(ports[i])
    ensures Map(Widen, Map(Narrow, ports)) == ports
  {
    var ids :| OwnRows(db, w, ids) && Looks(PortColumn(db), ids, ports);
    forall i | 0 <= i < |ports|
      ensures Fits(ports[i])
    {
      assert ids[i] in db.ports && Fits(db.ports[ids[i]].port);
    }
  }

  /** Listing, then fetching ports from later tables, then narrowing gives desired specs. */
  lemma SplitListingIsDesired(db: Db, db': Db, node: Uuid, w: Workload)
    requires Extends(db, db') && PortsOk(db')
    requires w.id in db.workloads && w.row.name == db.workloads[w.id].name
    requires w.row.image == db.workloads[w.id].image && db.workloads[w.id].node == node
    requires IsPortList(db', w.id, w.ports)
    ensures Describes(db', node, w.id, SpecOf(w))
  {
    PortListFits(db', w.id, w.ports);
  }

  /** The reply loop of the heartbeat handler. */
  method Specs(ws: seq<Workload>) returns (specs: seq<WorkloadSpec>)
    ensures |specs| == |ws| && forall i :: 0 <= i < |ws| ==> specs[i] == SpecOf(ws[i])
  {
    specs := [];
    for i := 0 to |ws|
      invariant |specs| == i
      invariant forall j :: 0 <= j < i ==> specs[j] == SpecOf(ws[j])
    {
      var ports := NarrowPorts(ws[i].ports);
      specs := specs + [WorkloadSpec(ws[i].row.name, ws[i].row.image, ports)];
    }
  }

  lemma AttachingKeepsListing(db: Db, node: Uuid, listed: seq<Workload>, ws: seq<Workload>)
    requires ListsNode(db, node, listed) && |ws| == |listed|
    requires forall i :: 0 <= i < |ws| ==> ws[i].id == listed[i].id && ws[i].row == listed[i].row
    ensures ListsNode(db, node, ws)
  {
    forall w | w in db.workloads && db.workloads[w].node == node
      ensures exists i :: 0 <= i < |ws| && ws[i].id == w
    {
      var i :| 0 <= i < |listed| && listed[i].id == w;
      assert ws[i].id == w;
    }
  }

  /** ListWorkloadsForNode and the reply made from it. Its two queries see db and a later db'. */
  method Reply(db: Db, db': Db, node: Uuid) returns (specs: seq<WorkloadSpec>)
    requires WorkloadsOk(db) && PortsOk(db') && Extends(db, db')
    ensures IsReply(db, node, specs)
  {
    var listed := QueryNodeWorkloads(db, node);
    var ws := AttachPorts(db', listed);
    specs := Specs(ws);
    AttachingKeepsListing(db, node, listed, ws);
    ListingIsReply(db, db', node, ws, specs);
  }

  lemma ListingIsReply(db: Db, db': Db, node: Uuid, ws: seq<Workload>, specs: seq<WorkloadSpec>)
    requires WorkloadsOk(db) && PortsOk(db') && Extends(db, db') && |specs| == |ws|
    requires forall i :: 0 <= i < |ws| ==> specs[i] == SpecOf(ws[i]) && IsPortList(db', ws[i].id, ws[i].ports)
    requires ListsNode(db, node, ws)
    ensures IsReply(db, node, specs)
  {
    forall j | 0 <= j < |specs|
      ensures Desired(db, node, specs[j])
    {
      SplitListingIsDesired(db, db', node, ws[j]);
      PortListStable(db, db', ws[j].id, Map(Widen, specs[j].ports));
      assert Describes(db, node, ws[j].id, specs[j]);
    }
    forall i, j | 0 <= i < j < |specs|
      ensures specs[i].name != specs[j].name
    {
      assert ws[i].id != ws[j].id;
    }
    forall w | w in db.workloads && db.workloads[w].node == node
      ensures exists i :: 0 <= i < |specs| && specs[i].name == db.workloads[w].name
    {
      var i :| 0 <= i < |ws| && ws[i].id == w;
      assert specs[i].name == db.workloads[w].name;
    }
  }

  // ---------------------------------------------------------------- the heartbeat handler

  datatype Report = Report(name: string, state: State, pid: nat)

  /** The tables after the first reports have been written, in order. */
  function Reports(db: Db, node: Uuid, reports: seq<Report>, now: nat): Db {
    if reports == [] then db
    else
      var r := Last(reports);
      WithReport(Reports(db, node, reports[..|reports|-1], now), node, r.name, r.state, r.pid, now)
  }

  /** Reports change nothing but the observed state, pid and timestamp of workloads of the
      reporting node that are named in a report. */
  lemma {:induction false} ReportsTouchOnly(db: Db, node: Uuid, reports: seq<Report>, now: nat)
    ensures var db' := Reports(db, node, reports, now);
            && db'.nodes == db.nodes && db'.tokens == db.tokens && db'.ports == db.ports
            && db'.workloads.Keys == db.workloads.Keys
            && (forall w :: w in db.workloads ==>
                  db'.workloads[w] == db.workloads[w].(
                    state := db'.workloads[w].state, pid := db'.workloads[w].pid, updatedAt := db'.workloads[w].updatedAt))
            && (forall w :: w in db.workloads && db.workloads[w].node != node ==> db'.workloads[w] == db.workloads[w])
            && (forall w :: w in db.workloads && (forall i :: 0 <= i < |reports| ==> reports[i].name != db.workloads[w].name)
                  ==> db'.workloads[w] == db.workloads[w])
  {
    if reports != [] {
      ReportsTouchOnly(db, node, reports[..|reports|-1], now);
    }
  }

  lemma ReportAt(db: Db, node: Uuid, r: Report, now: nat, w: Uuid)
    requires w in db.workloads
    ensures var row := db.workloads[w];
            var db' := WithReport(db, node, r.name, r.state, r.pid, now);
            && w in db'.workloads
            && db'.workloads[w] == if row.node == node && row.name == r.name
                                   then row.(state := r.state, pid := r.pid, updatedAt := now) else row
  {
  }

  ghost predicate Shows(db: Db, w: Uuid, r: Report, now: nat) {
    w in db.workloads && db.workloads[w].state == r.state && db.workloads[w].pid == r.pid && db.workloads[w].updatedAt == now
  }

  /** With distinct names, a workload of the node shows exactly what its report says. */
  lemma {:induction false} ReportsShow(db: Db, node: Uuid, reports: seq<Report>, now: nat, w: Uuid, i: nat)
    requires w in db.workloads && db.workloads[w].node == node
    requires i < |reports| && reports[i].name == db.workloads[w].name
    requires forall j, k :: 0 <= j < k < |reports| ==> reports[j].name != reports[k].name
    ensures Shows(Reports(db, node, reports, now), w, reports[i], now)
  {
    var init := reports[..|reports|-1];
    if i < |init| {
      ReportsShow(db, node, init, now, w, i);
    }
    ReportsTouchOnly(db, node, init, now);
    LastReportShows(Reports(db, node, init, now), db.workloads[w], node, Last(reports), now, w);
  }

  lemma LastReportShows(before: Db, row: WorkloadRow, node: Uuid, r: Report, now: nat, w: Uuid)
    requires w in before.workloads && before.workloads[w].name == row.name && before.workloads[w].node == node
    ensures var db' := WithReport(before, node, r.name, r.state, r.pid, now);
            && (r.name == row.name ==> Shows(db', w, r, now))
            && (r.name != row.name ==> w in db'.workloads && db'.workloads[w] == before.workloads[w])
  {
    ReportAt(before, node, r, now, w);
  }

  lemma ReportsKeepInv(db: Db, node: Uuid, reports: seq<Report>, now: nat)
    requires DbInv(db)
    ensures DbInv(Reports(db, node, reports, now)) && Extends(db, Reports(db, node, reports, now))
    ensures Reports(db, node, reports, now).workloads.Keys == db.workloads.Keys
  {
    ReportsTouchOnly(db, node, reports, now);
    IdentityKeepsDbInv(db, Reports(db, node, reports, now));
  }

  /** All that a heartbeat of a node may change: in the nodes table the sample, address and
      time of that node's row; in the workloads table what ReportsTouchOnly allows. */
  lemma HeartbeatTouchesOnly(db: Db, node: Uuid, resources: Resources, address: string, reports: seq<Report>, now: nat)
    requires node in db.nodes
    ensures var db' := Reports(WithBeat(db, node, resources, address, now), node, reports, now);
            && db'.tokens == db.tokens && db'.ports == db.ports
            && db'.nodes.Keys == db.nodes.Keys
            && (forall n :: n in db.nodes && n != node ==> db'.nodes[n] == db.nodes[n])
            && db'.nodes[node] == NodeRow(db.nodes[node].name, db.nodes[node].credential, address, resources, Some(now))
            && db'.workloads.Keys == db.workloads.Keys
            && (forall w :: w in db.workloads && db.workloads[w].node != node ==> db'.workloads[w] == db.workloads[w])
            && (forall w :: w in db.workloads ==>
                  && db'.workloads[w].name == db.workloads[w].name && db'.workloads[w].image == db.workloads[w].image
                  && db'.workloads[w].node == db.workloads[w].node)
  {
    ReportsTouchOnly(WithBeat(db, node, resources, address, now), node, reports, now);
  }

  datatype Outcome = Unauthorized | Forbidden | ServerError | Ok(workloads: seq<WorkloadSpec>)

  /** Which store call of one heartbeat fails; `report` is the index of a failing status update. */
  datatype HeartbeatFaults = HeartbeatFaults(beat: bool, report: Option<nat>, list: bool) {
    /** One of the first `count` status updates fails. */
    predicate HitsReport(count: nat) {
      report.Some? && report.value < count
    }

    /** A heartbeat with that many reports meets no failure. */
    predicate Spares(count: nat) {
      !beat && !HitsReport(count) && !list
    }
  }

  ghost predicate HasCredential(db: Db, n: Uuid, token: Token) {
    n in db.nodes && db.nodes[n].credential == Digest(token)
  }

  class Server {
    var db: Db

    /** AuthenticateNode: the node whose stored digest matches. */
    method Authenticate(token: Token) returns (node: Option<Uuid>)
      ensures node.Some? ==> HasCredential(db, node.value, token)
      ensures node.None? ==> forall n :: !HasCredential(db, n, token)
    {
      if n :| n in db.nodes && db.nodes[n].credential == Digest(token) {
        return Some(n);
      }
      return None;
    }

    /** The handler's loop over the reported containers: the first failing update ends it. */
    method ApplyReports(node: Uuid, reports: seq<Report>, now: nat, f: HeartbeatFaults) returns (failed: bool)
      modifies this
      ensures failed <==> f.HitsReport(|reports|)
      ensures db == Reports(old(db), node, if failed then reports[..f.report.value] else reports, now)
    {
      for i := 0 to |reports|
        invariant db == Reports(old(db), node, reports[..i], now)
        invariant f.report.Some? ==> i <= f.report.value || |reports| <= f.report.value
      {
        if f.report == Some(i) {
          return true;
        }
        assert reports[..i+1][..i] == reports[..i];
        db := WithReport(db, node, reports[i].name, reports[i].state, reports[i].pid, now);
      }
      assert reports[..|reports|] == reports;
      return false;
    }

    /** The handler, up to the reply. A rejected request changes nothing; a failing status
        update leaves exactly the reports before it applied; everything that changes belongs
        to the authenticated node. */
    method Heartbeat(path: Uuid, token: Token, resources: Resources, address: string, reports: seq<Report>, now: nat, f: HeartbeatFaults)
      returns (r: Outcome)
      requires DbInv(db)
      modifies this
      ensures DbInv(db) && Extends(old(db), db) && db.workloads.Keys == old(db).workloads.Keys
      ensures r == Unauthorized <==> forall n :: !HasCredential(old(db), n, token)
      ensures r == Forbidden <==> (exists n :: HasCredential(old(db), n, token)) && !HasCredential(old(db), path, token)
      ensures r == Unauthorized || r == Forbidden ==> db == old(db)
      ensures r.Ok? <==> HasCredential(old(db), path, token) && f.Spares(|reports|)
      ensures r == ServerError <==> HasCredential(old(db), path, token) && !f.Spares(|reports|)
      ensures r == ServerError && f.beat ==> db == old(db)
      ensures r == ServerError && !f.beat && f.HitsReport(|reports|) ==>
                db == Reports(WithBeat(old(db), path, resources, address, now), path, reports[..f.report.value], now)
      ensures r.Ok? || (r == ServerError && !f.beat && !f.HitsReport(|reports|)) ==>
                db == Reports(WithBeat(old(db), path, resources, address, now), path, reports, now)
      ensures r.Ok? ==> IsReply(db, path, r.workloads)
    {
      var node := Authenticate(token);
      if node.None? {
        return Unauthorized;
      }
      if path != node.value {
        return Forbidden;
      }
      if f.beat {
        return ServerError;
      }
      BeatKeepsInv(db, path, resources, address, now);
      db := WithBeat(db, path, resources, address, now);
      ghost var base := db;
      var failed := ApplyReports(path, reports, now, f);
      ReportsKeepInv(base, path, if failed then reports[..f.report.value] else reports, now);
      ExtendsTransitive(old(db), base, db);
      if failed {
        return ServerError;
      }
      if f.list {
        return ServerError;
      }
      var specs := Reply(db, db, path);
      return Ok(specs);
    }
  }

  lemma BeatKeepsInv(db: Db, node: Uuid, resources: Resources, address: string, now: nat)
    requires DbInv(db)
    ensures DbInv(WithBeat(db, node, resources, address, now)) && Extends(db, WithBeat(db, node, resources, address, now))
  {
    UpdatesKeepIdentity(db, node, resources, address, "", Pending, 0, now);
    IdentityKeepsDbInv(db, WithBeat(db, node, resources, address, now));
  }

  // ---------------------------------------------------------------- deploying and listing

  datatype Target = Resolved(id: Uuid) | NoSuchNode | NoNodes | Ambiguous

  /** resolveTargetNode: a given id must exist; an omitted one needs exactly one node. */
  method ResolveTarget(db: Db, requested: Option<Uuid>) returns (r: Target)
    ensures r.Resolved? ==> r.id in db.nodes
    ensures requested.Some? ==> r == if requested.value in db.nodes then Resolved(requested.value) else NoSuchNode
    ensures requested.None? ==> (r.Resolved? <==> exists n :: db.nodes.Keys == {n})
    ensures requested.None? ==> (r == NoNodes <==> db.nodes == map[])
    ensures requested.None? ==> r != NoSuchNode
  {
    if requested.Some? {
      return if requested.value in db.nodes then Resolved(requested.value) else NoSuchNode;
    }
    var ids := db.nodes.Keys;
    if ids == {} {
      return NoNodes;
    }
    var n :| n in ids;
    if ids == {n} {
      return Resolved(n);
    }
    return Ambiguous;
  }

  /** listWorkloads reads workloads first and nodes later, and joins them through a map: the
      node of every listed workload is there, under the name it always had. */
  method JoinNodes(db: Db, db': Db, ws: seq<Workload>) returns (names: seq<string>)
    requires WorkloadsOk(db) && Extends(db, db')
    requires forall i :: 0 <= i < |ws| ==> ws[i].id in db.workloads && ws[i].row == db.workloads[ws[i].id]
    ensures |names| == |ws|
    ensures forall i :: 0 <= i < |ws| ==> ws[i].row.node in db.nodes && names[i] == db.nodes[ws[i].row.node].name
  {
    var byId: map<Uuid, string> := map n | n in db'.nodes :: db'.nodes[n].name;
    names := [];
    for i := 0 to |ws|
      invariant |names| == i
      invariant forall j :: 0 <= j < i ==> ws[j].row.node in db.nodes && names[j] == db.nodes[ws[j].row.node].name
    {
      var node := ws[i].row.node;
      assert node in db.nodes;
      names := names + [if node in byId then byId[node] else ""];
    }
  }
}
