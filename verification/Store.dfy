/** The store (internal/controlplane/store) as a transactional state machine over the four
    tables of the schema. RegisterNode and CreateWorkload advance one statement at a time
    and any number of them may be in flight; an uncommitted row is invisible to the others
    but blocks an insert with the same unique key, and FOR UPDATE blocks a second locker. */
module Store {
  import opened Types

  // ---------------------------------------------------------------- tables

  datatype Resources = Resources(
    cpuCores: int, cpuUsedPercent: real, memTotal: nat, memUsed: nat, diskTotal: nat, diskUsed: nat)

  const NO_RESOURCES := Resources(0, 0.0, 0, 0, 0, 0)

  datatype NodeRow = NodeRow(
    name: string, credential: Digest, address: string, resources: Resources, lastHeartbeat: Option<nat>)

  datatype TokenRow = TokenRow(usedAt: Option<nat>, usedBy: Option<Uuid>)

  datatype WorkloadRow = WorkloadRow(name: string, image: string, node: Uuid, state: State, pid: int, updatedAt: nat)

  datatype PortRow = PortRow(workload: Uuid, node: Uuid, port: StorePort)

  datatype Db = Db(
    nodes: map<Uuid, NodeRow>,
    tokens: map<Digest, TokenRow>,
    workloads: map<Uuid, WorkloadRow>,
    ports: map<Uuid, PortRow>)

  const EMPTY_DB := Db(map[], map[], map[], map[])

  /** The columns of the unique constraint on workload_ports. */
  datatype PortKey = PortKey(node: Uuid, hostPort: int, protocol: string)

  function RowKey(row: PortRow): PortKey {
    PortKey(row.node, row.port.hostPort, row.port.protocol)
  }

  /** Everything that at most one transaction may own at a time: the lock on an unused token
      row, a value of a unique column, a generated identifier or secret. */
  datatype Claim =
    | TokenLock(h: Digest)
    | NodeName(name: string)
    | WorkloadName(name: string)
    | HostPort(key: PortKey)
    | Id(id: Uuid)
    | Credential(token: Token)

  /** The committed tables leave no room for the claim. */
  ghost predicate Taken(db: Db, c: Claim) {
    match c
    case TokenLock(h) => h !in db.tokens || db.tokens[h].usedAt.Some?
    case NodeName(name) => exists n :: n in db.nodes && db.nodes[n].name == name
    case WorkloadName(name) => exists w :: w in db.workloads && db.workloads[w].name == name
    case HostPort(key) => exists p :: p in db.ports && RowKey(db.ports[p]) == key
    case Id(x) => x in db.nodes || x in db.workloads || x in db.ports
    case Credential(token) => exists n :: n in db.nodes && db.nodes[n].credential == Digest(token)
  }

  // ---------------------------------------------------------------- requests

  datatype Registration = Registration(token: Token, name: string, address: string, credential: Token)

  datatype Deploy = Deploy(name: string, image: string, node: Uuid, ports: seq<StorePort>)

  /** A requested mapping as it is stored: an empty protocol becomes tcp. */
  function Stored(p: StorePort): StorePort {
    p.(protocol := OrTcp(p.protocol))
  }

  function Key(d: Deploy, i: nat): PortKey
    requires i < |d.ports|
  {
    PortKey(d.node, d.ports[i].hostPort, OrTcp(d.ports[i].protocol))
  }

  datatype Error = NotFound | AlreadyExists | PortConflict

  datatype Verdict = Accept | Reject(error: Error)

  // ---------------------------------------------------------------- one request at a time

  /** What RegisterNode answers when nothing else runs. */
  ghost function RegisterVerdict(db: Db, r: Registration): Verdict {
    if Digest(r.token) !in db.tokens then Reject(NotFound)
    else if db.tokens[Digest(r.token)].usedAt.Some? then Reject(AlreadyExists)
    else if Taken(db, NodeName(r.name)) then Reject(AlreadyExists)
    else Accept
  }

  ghost predicate DistinctKeys(d: Deploy, n: nat)
    requires n <= |d.ports|
  {
    forall i, j :: 0 <= i < j < n ==> Key(d, i) != Key(d, j)
  }

  ghost predicate FreeKeys(db: Db, d: Deploy, n: nat)
    requires n <= |d.ports|
  {
    forall i :: 0 <= i < n ==> !Taken(db, HostPort(Key(d, i)))
  }

  /** What CreateWorkload answers when nothing else runs: it commits exactly when the name is
      free, the node exists, and the requested keys are distinct and unclaimed. */
  ghost function CreateVerdict(db: Db, d: Deploy): Verdict {
    if Taken(db, WorkloadName(d.name)) then Reject(AlreadyExists)
    else if d.node !in db.nodes then Reject(NotFound)
    else if !DistinctKeys(d, |d.ports|) || !FreeKeys(db, d, |d.ports|) then Reject(PortConflict)
    else Accept
  }

  function WithNode(db: Db, r: Registration, id: Uuid, now: nat): Db {
    db.(nodes := db.nodes[id := NodeRow(r.name, Digest(r.credential), r.address, NO_RESOURCES, None)],
        tokens := db.tokens[Digest(r.token) := TokenRow(Some(now), Some(id))])
  }

  function PortRowOf(d: Deploy, id: Uuid, i: nat): PortRow
    requires i < |d.ports|
  {
    PortRow(id, d.node, Stored(d.ports[i]))
  }

  function NewPortRows(d: Deploy, id: Uuid, rows: seq<Uuid>): map<Uuid, PortRow>
    requires |rows| <= |d.ports|
  {
    if rows == [] then map[]
    else NewPortRows(d, id, rows[..|rows|-1])[Last(rows) := PortRowOf(d, id, |rows| - 1)]
  }

  function WithWorkload(db: Db, d: Deploy, id: Uuid, rows: seq<Uuid>, now: nat): Db
    requires |rows| == |d.ports|
  {
    db.(workloads := db.workloads[id := WorkloadRow(d.name, d.image, d.node, Pending, 0, now)],
        ports := db.ports + NewPortRows(d, id, rows))
  }

  function WithBeat(db: Db, node: Uuid, resources: Resources, address: string, now: nat): Db {
    if node !in db.nodes then db
    else db.(nodes := db.nodes[node := db.nodes[node].(resources := resources, address := address, lastHeartbeat := Some(now))])
  }

  function WithReport(db: Db, node: Uuid, name: string, state: State, pid: int, now: nat): Db {
    db.(workloads := map w | w in db.workloads ::
          var row := db.workloads[w];
          if row.node == node && row.name == name then row.(state := state, pid := pid, updatedAt := now) else row)
  }

  // ---------------------------------------------------------------- many requests in flight

  datatype Phase = Begun | Locked | NodeInserted(id: Uuid) | TokenMarked(id: Uuid, at: nat)

  /** `rows` are the ids of the port rows inserted so far. */
  datatype Progress = Waiting | Inserted(id: Uuid, rows: seq<Uuid>)

  datatype Tx =
    | Registering(reg: Registration, phase: Phase)
    | Creating(deploy: Deploy, progress: Progress)

  /** `issued` and `ids` hold every secret and every identifier generated so far: fresh
      ones are new. */
  datatype Sys = Sys(db: Db, txs: map<nat, Tx>, issued: set<Token>, ids: set<Uuid>)

  const INITIAL := Sys(EMPTY_DB, map[], {}, {})

  /** What a transaction in flight owns: the token row it locked, and the unique values of
      the rows it has inserted. */
  ghost predicate Claims(tx: Tx, c: Claim) {
    match tx
    case Registering(reg, phase) =>
      || c == Credential(reg.credential)
      || (!phase.Begun? && c == TokenLock(Digest(reg.token)))
      || ((phase.NodeInserted? || phase.TokenMarked?) && (c == NodeName(reg.name) || c == Id(phase.id)))
    case Creating(d, progress) =>
      && progress.Inserted?
      && (|| c == WorkloadName(d.name)
          || c == Id(progress.id)
          || (c.Id? && c.id in progress.rows)
          || (c.HostPort? && HasKey(d, |progress.rows|, c.key)))
  }

  ghost predicate HasKey(d: Deploy, n: nat, key: PortKey) {
    exists i :: 0 <= i < n && i < |d.ports| && Key(d, i) == key
  }

  datatype Step =
    | CreateJoinToken(token: Token)
    | BeginRegister(t: nat, reg: Registration)
    | LockToken(t: nat)
    | InsertNode(t: nat, id: Uuid)
    | MarkToken(t: nat, now: nat)
    | CommitRegister(t: nat)
    | BeginCreate(t: nat, deploy: Deploy)
    | InsertWorkload(t: nat, id: Uuid)
    | InsertPort(t: nat, row: Uuid)
    | CommitCreate(t: nat, now: nat)
    | Abort(t: nat)
    | UpdateNodeHeartbeat(node: Uuid, resources: Resources, address: string, now: nat)
    | UpdateWorkloadStatus(node: Uuid, name: string, state: State, pid: int, now: nat)

  ghost predicate OtherClaims(s: Sys, t: nat, c: Claim) {
    exists u :: u in s.txs && u != t && Claims(s.txs[u], c)
  }

  /** A step is enabled when its transaction is at that statement and nothing blocks it.
      The row lock of SELECT FOR UPDATE and the uncommitted unique keys of other
      transactions block; Abort is always possible and covers a lost connection, a crashed
      server, a failed statement and a deadlock victim. */
  ghost predicate Enabled(s: Sys, step: Step) {
    match step
    case CreateJoinToken(token) => token !in s.issued
    case BeginRegister(t, reg) => t !in s.txs && reg.credential !in s.issued
    case LockToken(t) =>
      && t in s.txs && s.txs[t].Registering? && s.txs[t].phase.Begun?
      && !OtherClaims(s, t, TokenLock(Digest(s.txs[t].reg.token)))
    case InsertNode(t, id) =>
      && t in s.txs && s.txs[t].Registering? && s.txs[t].phase.Locked? && id !in s.ids
      && !OtherClaims(s, t, NodeName(s.txs[t].reg.name))
    case MarkToken(t, now) => t in s.txs && s.txs[t].Registering? && s.txs[t].phase.NodeInserted?
    case CommitRegister(t) => t in s.txs && s.txs[t].Registering? && s.txs[t].phase.TokenMarked?
    case BeginCreate(t, deploy) =>
      t !in s.txs && forall i :: 0 <= i < |deploy.ports| ==> Fits(deploy.ports[i])
    case InsertWorkload(t, id) =>
      && t in s.txs && s.txs[t].Creating? && s.txs[t].progress.Waiting? && id !in s.ids
      && !OtherClaims(s, t, WorkloadName(s.txs[t].deploy.name))
    case InsertPort(t, row) =>
      && t in s.txs && s.txs[t].Creating? && s.txs[t].progress.Inserted? && row !in s.ids
      && |s.txs[t].progress.rows| < |s.txs[t].deploy.ports|
      && !OtherClaims(s, t, HostPort(Key(s.txs[t].deploy, |s.txs[t].progress.rows|)))
    case CommitCreate(t, now) =>
      && t in s.txs && s.txs[t].Creating? && s.txs[t].progress.Inserted?
      && |s.txs[t].progress.rows| == |s.txs[t].deploy.ports|
    case Abort(t) => t in s.txs
    case UpdateNodeHeartbeat(node, _, _, _) => true
    case UpdateWorkloadStatus(node, _, _, _, _) => true
  }

  /** The statement of an enabled step finds its constraint violated, or its token missing
      or used: the transaction returns the error and rolls back. */
  ghost predicate Violates(s: Sys, step: Step)
    requires Enabled(s, step)
  {
    match step
    case LockToken(t) => Taken(s.db, TokenLock(Digest(s.txs[t].reg.token)))
    case InsertNode(t, id) => Taken(s.db, NodeName(s.txs[t].reg.name))
    case InsertWorkload(t, id) =>
      Taken(s.db, WorkloadName(s.txs[t].deploy.name)) || s.txs[t].deploy.node !in s.db.nodes
    case InsertPort(t, row) =>
      var tx := s.txs[t];
      var key := Key(tx.deploy, |tx.progress.rows|);
      Taken(s.db, HostPort(key)) || Claims(tx, HostPort(key))
    case _ => false
  }

  function Drop(s: Sys, t: nat): Sys {
    s.(txs := s.txs - {t})
  }

  ghost function After(s: Sys, step: Step): Sys
    requires Enabled(s, step)
  {
    match step
    case CreateJoinToken(token) =>
      s.(db := s.db.(tokens := s.db.tokens[Digest(token) := TokenRow(None, None)]), issued := s.issued + {token})
    case BeginRegister(t, reg) =>
      s.(txs := s.txs[t := Registering(reg, Begun)], issued := s.issued + {reg.credential})
    case LockToken(t) =>
      if Violates(s, step) then Drop(s, t) else s.(txs := s.txs[t := s.txs[t].(phase := Locked)])
    case InsertNode(t, id) =>
      if Violates(s, step) then Drop(s, t)
      else s.(txs := s.txs[t := s.txs[t].(phase := NodeInserted(id))], ids := s.ids + {id})
    case MarkToken(t, now) =>
      s.(txs := s.txs[t := s.txs[t].(phase := TokenMarked(s.txs[t].phase.id, now))])
    case CommitRegister(t) =>
      var tx := s.txs[t];
      Drop(s, t).(db := WithNode(s.db, tx.reg, tx.phase.id, tx.phase.at))
    case BeginCreate(t, deploy) =>
      s.(txs := s.txs[t := Creating(deploy, Waiting)])
    case InsertWorkload(t, id) =>
      if Violates(s, step) then Drop(s, t)
      else s.(txs := s.txs[t := s.txs[t].(progress := Inserted(id, []))], ids := s.ids + {id})
    case InsertPort(t, row) =>
      if Violates(s, step) then Drop(s, t)
      else
        var p := s.txs[t].progress;
        s.(txs := s.txs[t := s.txs[t].(progress := p.(rows := p.rows + [row]))], ids := s.ids + {row})
    case CommitCreate(t, now) =>
      var tx := s.txs[t];
      Drop(s, t).(db := WithWorkload(s.db, tx.deploy, tx.progress.id, tx.progress.rows, now))
    case Abort(t) => Drop(s, t)
    case UpdateNodeHeartbeat(node, resources, address, now) =>
      s.(db := WithBeat(s.db, node, resources, address, now))
    case UpdateWorkloadStatus(node, name, state, pid, now) =>
      s.(db := WithReport(s.db, node, name, state, pid, now))
  }

  // ---------------------------------------------------------------- what a run did

  /** The outcome that a step makes final, if any. */
  datatype Event =
    | Quiet
    | TokenCreated(token: Token)
    | Registered(reg: Registration, id: Uuid, at: nat)
    | RegisterRejected(reg: Registration, error: Error)
    | Created(deploy: Deploy, id: Uuid, rows: seq<Uuid>, at: nat)
    | CreateRejected(deploy: Deploy, error: Error)
    | Beat(node: Uuid, resources: Resources, address: string, at: nat)
    | Reported(node: Uuid, name: string, state: State, pid: int, at: nat)

  ghost function EventOf(s: Sys, step: Step): Event
    requires Enabled(s, step)
  {
    match step
    case CreateJoinToken(token) => TokenCreated(token)
    case LockToken(t) =>
      if !Violates(s, step) then Quiet
      else RegisterRejected(s.txs[t].reg, if Digest(s.txs[t].reg.token) !in s.db.tokens then NotFound else AlreadyExists)
    case InsertNode(t, id) =>
      if !Violates(s, step) then Quiet else RegisterRejected(s.txs[t].reg, AlreadyExists)
    case CommitRegister(t) => Registered(s.txs[t].reg, s.txs[t].phase.id, s.txs[t].phase.at)
    case InsertWorkload(t, id) =>
      if !Violates(s, step) then Quiet
      else CreateRejected(s.txs[t].deploy, if Taken(s.db, WorkloadName(s.txs[t].deploy.name)) then AlreadyExists else NotFound)
    case InsertPort(t, row) =>
      if !Violates(s, step) then Quiet else CreateRejected(s.txs[t].deploy, PortConflict)
    case CommitCreate(t, now) => Created(s.txs[t].deploy, s.txs[t].progress.id, s.txs[t].progress.rows, now)
    case UpdateNodeHeartbeat(node, resources, address, now) => Beat(node, resources, address, now)
    case UpdateWorkloadStatus(node, name, state, pid, now) => Reported(node, name, state, pid, now)
    case _ => Quiet
  }

  /** The tables after an outcome, when requests run one at a time. */
  function Replay1(db: Db, e: Event): Db {
    match e
    case TokenCreated(token) => db.(tokens := db.tokens[Digest(token) := TokenRow(None, None)])
    case Registered(reg, id, at) => WithNode(db, reg, id, at)
    case Created(deploy, id, rows, at) =>
      if |rows| == |deploy.ports| then WithWorkload(db, deploy, id, rows, at) else db
    case Beat(node, resources, address, at) => WithBeat(db, node, resources, address, at)
    case Reported(node, name, state, pid, at) => WithReport(db, node, name, state, pid, at)
    case _ => db
  }

  /** The outcome is the one that the request gets when it runs alone on these tables. */
  ghost predicate Serial(db: Db, e: Event) {
    match e
    case TokenCreated(token) => Digest(token) !in db.tokens
    case Registered(reg, id, at) => RegisterVerdict(db, reg) == Accept && id !in db.nodes
    case RegisterRejected(reg, error) => RegisterVerdict(db, reg) == Reject(error)
    case Created(deploy, id, rows, at) =>
      && CreateVerdict(db, deploy) == Accept
      && id !in db.workloads && |rows| == |deploy.ports| && Distinct(rows) && (forall r :: r in rows ==> r !in db.ports)
    case CreateRejected(deploy, error) => CreateVerdict(db, deploy) == Reject(error)
    case _ => true
  }

  ghost predicate Runs(s: Sys, steps: seq<Step>)
    decreases |steps|
  {
    steps == [] || (Enabled(s, steps[0]) && Runs(After(s, steps[0]), steps[1..]))
  }

  ghost function End(s: Sys, steps: seq<Step>): Sys
    requires Runs(s, steps)
    decreases |steps|
  {
    if steps == [] then s else End(After(s, steps[0]), steps[1..])
  }

  ghost function Events(s: Sys, steps: seq<Step>): seq<Event>
    requires Runs(s, steps)
    decreases |steps|
  {
    if steps == [] then [] else [EventOf(s, steps[0])] + Events(After(s, steps[0]), steps[1..])
  }

  function Replay(db: Db, es: seq<Event>): Db
    decreases |es|
  {
    if es == [] then db else Replay(Replay1(db, es[0]), es[1..])
  }

  ghost predicate SerialRun(db: Db, es: seq<Event>)
    decreases |es|
  {
    es == [] || (Serial(db, es[0]) && SerialRun(Replay1(db, es[0]), es[1..]))
  }
}
