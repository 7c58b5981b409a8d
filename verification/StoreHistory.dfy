/** The store's answers in terms of what succeeded before, with no mention of tables: why each
    request was granted or refused, and with which error. And what each statement writes. */
module StoreHistory {
  import opened Types
  import opened Store
  import opened StoreProofs

  // ---------------------------------------------------------------- facts

  /** What earlier successes can have established. */
  datatype Fact =
    | TokenMade(token: Token)
    | TokenUsed(token: Token)
    | NodeMade(node: Uuid)
    | NodeNamed(name: string)
    | WorkloadNamed(name: string)
    | PortTaken(node: Uuid, port: StorePort)

  /** Two mappings claim the same host port: an omitted protocol means tcp. */
  predicate Collide(p: StorePort, q: StorePort) {
    && p.hostPort == q.hostPort
    && (p.protocol == q.protocol || ((p.protocol == "" || p.protocol == "tcp") && (q.protocol == "" || q.protocol == "tcp")))
  }

  /** The outcome establishes the fact. */
  ghost predicate Gives(e: Event, f: Fact) {
    match f
    case TokenMade(token) => e == TokenCreated(token)
    case TokenUsed(token) => e.Registered? && e.reg.token == token
    case NodeMade(node) => e.Registered? && e.id == node
    case NodeNamed(name) => e.Registered? && e.reg.name == name
    case WorkloadNamed(name) => e.Created? && e.deploy.name == name
    case PortTaken(node, port) => e.Created? && e.deploy.node == node && Wants(e.deploy, port)
  }

  ghost predicate Wants(d: Deploy, port: StorePort) {
    exists j :: 0 <= j < |d.ports| && Collide(d.ports[j], port)
  }

  ghost predicate Known(past: seq<Event>, f: Fact) {
    exists i :: 0 <= i < |past| && Gives(past[i], f)
  }

  /** A deploy asks for one host port twice. */
  ghost predicate SelfCollides(d: Deploy) {
    exists i, j :: 0 <= i < j < |d.ports| && Collide(d.ports[i], d.ports[j])
  }

  ghost predicate PortKnown(past: seq<Event>, d: Deploy) {
    exists i :: 0 <= i < |d.ports| && Known(past, PortTaken(d.node, d.ports[i]))
  }

  /** The outcome is the right one after what came before. */
  ghost predicate Right(past: seq<Event>, e: Event) {
    match e
    case TokenCreated(token) => !Known(past, TokenMade(token))
    case Registered(reg, id, _) =>
      && Known(past, TokenMade(reg.token)) && !Known(past, TokenUsed(reg.token))
      && !Known(past, NodeNamed(reg.name)) && !Known(past, NodeMade(id))
    case RegisterRejected(reg, error) =>
      if !Known(past, TokenMade(reg.token)) then error == NotFound
      else error == AlreadyExists && (Known(past, TokenUsed(reg.token)) || Known(past, NodeNamed(reg.name)))
    case Created(d, _, _, _) =>
      !Known(past, WorkloadNamed(d.name)) && Known(past, NodeMade(d.node)) && !SelfCollides(d) && !PortKnown(past, d)
    case CreateRejected(d, error) =>
      if Known(past, WorkloadNamed(d.name)) then error == AlreadyExists
      else if !Known(past, NodeMade(d.node)) then error == NotFound
      else error == PortConflict && (SelfCollides(d) || PortKnown(past, d))
    case _ => true
  }

  // ---------------------------------------------------------------- facts and tables

  ghost predicate Holds(db: Db, f: Fact) {
    match f
    case TokenMade(token) => Digest(token) in db.tokens
    case TokenUsed(token) => Digest(token) in db.tokens && db.tokens[Digest(token)].usedAt.Some?
    case NodeMade(node) => node in db.nodes
    case NodeNamed(name) => exists n :: n in db.nodes && db.nodes[n].name == name
    case WorkloadNamed(name) => exists w :: w in db.workloads && db.workloads[w].name == name
    case PortTaken(node, port) => exists p :: p in db.ports && db.ports[p].node == node && Collide(db.ports[p].port, port)
  }

  ghost predicate Protocols(db: Db) {
    forall p :: p in db.ports ==> db.ports[p].port.protocol != ""
  }

  /** A colliding row of the new tables is an old one or comes from a requested mapping. */
  lemma PortFactBack(db: Db, d: Deploy, id: Uuid, rows: seq<Uuid>, now: nat, node: Uuid, port: StorePort)
    requires |rows| == |d.ports| && Distinct(rows)
    requires Holds(WithWorkload(db, d, id, rows, now), PortTaken(node, port))
    ensures Holds(db, PortTaken(node, port)) || (d.node == node && Wants(d, port))
  {
    var db' := WithWorkload(db, d, id, rows, now);
    RowsFrom(db, d, id, rows, now);
    var p :| p in db'.ports && db'.ports[p].node == node && Collide(db'.ports[p].port, port);
    assert RowFrom(db, db', d, id, rows, p);
    if j :| 0 <= j < |rows| && rows[j] == p && db'.ports[p] == PortRowOf(d, id, j) {
      assert Collide(d.ports[j], port);
    }
  }

  lemma PortFact(db: Db, d: Deploy, id: Uuid, rows: seq<Uuid>, now: nat, f: Fact)
    requires f.PortTaken? && |rows| == |d.ports| && Distinct(rows) && forall r :: r in rows ==> r !in db.ports
    ensures Holds(WithWorkload(db, d, id, rows, now), f) <==> Holds(db, f) || (d.node == f.node && Wants(d, f.port))
  {
    var db' := WithWorkload(db, d, id, rows, now);
    NewPortRowsAt(d, id, rows);
    if Holds(db, f) {
      var p :| p in db.ports && db.ports[p].node == f.node && Collide(db.ports[p].port, f.port);
      assert p !in rows && db'.ports[p] == db.ports[p];
    }
    if d.node == f.node && Wants(d, f.port) {
      var j :| 0 <= j < |d.ports| && Collide(d.ports[j], f.port);
      assert db'.ports[rows[j]] == PortRowOf(d, id, j);
    }
    if Holds(db', f) {
      PortFactBack(db, d, id, rows, now, f.node, f.port);
    }
  }

  lemma DeployFact(db: Db, d: Deploy, id: Uuid, rows: seq<Uuid>, now: nat, f: Fact)
    requires Serial(db, Created(d, id, rows, now))
    ensures Holds(WithWorkload(db, d, id, rows, now), f) <==> Holds(db, f) || Gives(Created(d, id, rows, now), f)
  {
    var db' := WithWorkload(db, d, id, rows, now);
    if f.PortTaken? {
      PortFact(db, d, id, rows, now, f);
    } else if f.WorkloadNamed? {
      if w :| w in db.workloads && db.workloads[w].name == f.name {
        assert db'.workloads[w].name == f.name;
      }
      assert db'.workloads[id].name == d.name;
    }
  }

  lemma RegisterFact(db: Db, r: Registration, id: Uuid, at: nat, f: Fact)
    requires Serial(db, Registered(r, id, at))
    ensures Holds(WithNode(db, r, id, at), f) <==> Holds(db, f) || Gives(Registered(r, id, at), f)
  {
    var db' := WithNode(db, r, id, at);
    if f.NodeNamed? {
      if n :| n in db.nodes && db.nodes[n].name == f.name {
        assert db'.nodes[n].name == f.name;
      }
      assert db'.nodes[id].name == r.name;
    }
  }

  lemma IdentityFact(db: Db, db': Db, f: Fact)
    requires SameIdentity(db, db')
    ensures Holds(db', f) <==> Holds(db, f)
  {
    assert forall n :: n in db'.nodes <==> n in db.nodes;
    assert forall w :: w in db'.workloads <==> w in db.workloads;
  }

  lemma UpdateFact(db: Db, e: Event, f: Fact)
    requires e.Beat? || e.Reported?
    ensures Holds(Replay1(db, e), f) <==> Holds(db, f)
  {
    if e.Beat? {
      UpdatesKeepIdentity(db, e.node, e.resources, e.address, "", Pending, 0, e.at);
    } else {
      UpdatesKeepIdentity(db, e.node, NO_RESOURCES, "", e.name, e.state, e.pid, e.at);
    }
    IdentityFact(db, Replay1(db, e), f);
  }

  /** The tables after an outcome hold what they held and what the outcome gives. */
  lemma FactStep(db: Db, e: Event, f: Fact)
    requires Serial(db, e)
    ensures Holds(Replay1(db, e), f) <==> Holds(db, f) || Gives(e, f)
  {
    match e {
      case Created(d, id, rows, at) => DeployFact(db, d, id, rows, at, f);
      case Registered(reg, id, at) => RegisterFact(db, reg, id, at, f);
      case Beat(_, _, _, _) => UpdateFact(db, e, f);
      case Reported(_, _, _, _, _) => UpdateFact(db, e, f);
      case _ =>
    }
  }

  lemma ProtocolsStep(db: Db, e: Event)
    requires Serial(db, e) && Protocols(db)
    ensures Protocols(Replay1(db, e))
  {
    if e.Created? {
      NewPortRowsAt(e.deploy, e.id, e.rows);
    }
  }

  /** The tables hold exactly the facts that the outcomes have given. */
  lemma {:induction false} TablesAreHistory(db: Db, es: seq<Event>, f: Fact)
    requires SerialRun(db, es) && Protocols(db)
    ensures Holds(Replay(db, es), f) <==> Holds(db, f) || Known(es, f)
    ensures Protocols(Replay(db, es))
    decreases |es|
  {
    if es != [] {
      FactStep(db, es[0], f);
      ProtocolsStep(db, es[0]);
      TablesAreHistory(Replay1(db, es[0]), es[1..], f);
      KnownFirst(es, f);
    }
  }

  lemma KnownFirst(es: seq<Event>, f: Fact)
    requires es != []
    ensures Known(es, f) <==> Gives(es[0], f) || Known(es[1..], f)
  {
    if Known(es, f) {
      var i :| 0 <= i < |es| && Gives(es[i], f);
      assert i > 0 ==> es[1..][i - 1] == es[i];
    }
    if Known(es[1..], f) {
      var i :| 0 <= i < |es[1..]| && Gives(es[1..][i], f);
      assert es[i + 1] == es[1..][i];
    }
  }

  lemma {:induction false} SerialAt(db: Db, es: seq<Event>, i: nat)
    requires SerialRun(db, es) && i < |es|
    ensures SerialRun(db, es[..i]) && Serial(Replay(db, es[..i]), es[i])
    decreases |es|
  {
    if i > 0 {
      SerialAt(Replay1(db, es[0]), es[1..], i - 1);
      assert es[..i][1..] == es[1..][..i - 1] && es[..i][0] == es[0];
    }
  }

  // ---------------------------------------------------------------- what the verdicts mean

  lemma KeysCollide(db: Db, d: Deploy, i: nat)
    requires Protocols(db) && i < |d.ports|
    ensures Taken(db, HostPort(Key(d, i))) <==> Holds(db, PortTaken(d.node, d.ports[i]))
    ensures forall j :: 0 <= j < |d.ports| ==> (Key(d, i) == Key(d, j) <==> Collide(d.ports[i], d.ports[j]))
  {
    if Taken(db, HostPort(Key(d, i))) {
      var p :| p in db.ports && RowKey(db.ports[p]) == Key(d, i);
      assert db.ports[p].node == d.node && Collide(db.ports[p].port, d.ports[i]);
    }
    if Holds(db, PortTaken(d.node, d.ports[i])) {
      var p :| p in db.ports && db.ports[p].node == d.node && Collide(db.ports[p].port, d.ports[i]);
      assert RowKey(db.ports[p]) == Key(d, i);
    }
  }

  lemma DeployKeys(db: Db, d: Deploy)
    requires Protocols(db)
    ensures DistinctKeys(d, |d.ports|) <==> !SelfCollides(d)
    ensures FreeKeys(db, d, |d.ports|) <==> forall i :: 0 <= i < |d.ports| ==> !Holds(db, PortTaken(d.node, d.ports[i]))
  {
    forall i | 0 <= i < |d.ports|
      ensures Taken(db, HostPort(Key(d, i))) <==> Holds(db, PortTaken(d.node, d.ports[i]))
      ensures forall j :: 0 <= j < |d.ports| ==> (Key(d, i) == Key(d, j) <==> Collide(d.ports[i], d.ports[j]))
    {
      KeysCollide(db, d, i);
    }
  }

  ghost predicate Matches(db: Db, past: seq<Event>) {
    Protocols(db) && forall f :: Holds(db, f) <==> Known(past, f)
  }

  lemma DeployIsRight(db: Db, past: seq<Event>, e: Event)
    requires Matches(db, past) && Serial(db, e) && (e.Created? || e.CreateRejected?)
    ensures Right(past, e)
  {
    DeployKeys(db, e.deploy);
    assert Taken(db, WorkloadName(e.deploy.name)) <==> Holds(db, WorkloadNamed(e.deploy.name));
    assert e.deploy.node in db.nodes <==> Holds(db, NodeMade(e.deploy.node));
    assert forall i :: 0 <= i < |e.deploy.ports| ==>
             (Holds(db, PortTaken(e.deploy.node, e.deploy.ports[i])) <==> Known(past, PortTaken(e.deploy.node, e.deploy.ports[i])));
  }

  lemma RegistrationIsRight(db: Db, past: seq<Event>, e: Event)
    requires Matches(db, past) && Serial(db, e) && (e.Registered? || e.RegisterRejected?)
    ensures Right(past, e)
  {
    assert Holds(db, TokenMade(e.reg.token)) <==> Known(past, TokenMade(e.reg.token));
    assert Holds(db, TokenUsed(e.reg.token)) <==> Known(past, TokenUsed(e.reg.token));
    assert Holds(db, NodeNamed(e.reg.name)) <==> Known(past, NodeNamed(e.reg.name));
    if e.Registered? {
      assert Holds(db, NodeMade(e.id)) <==> Known(past, NodeMade(e.id));
    }
  }

  lemma OutcomeIsRight(db: Db, past: seq<Event>, e: Event)
    requires Matches(db, past) && Serial(db, e)
    ensures Right(past, e)
  {
    if e.Created? || e.CreateRejected? {
      DeployIsRight(db, past, e);
    } else if e.Registered? || e.RegisterRejected? {
      RegistrationIsRight(db, past, e);
    } else if e.TokenCreated? {
      assert Holds(db, TokenMade(e.token)) <==> Known(past, TokenMade(e.token));
    }
  }

  lemma HistoryMatches(es: seq<Event>)
    requires SerialRun(EMPTY_DB, es)
    ensures Matches(Replay(EMPTY_DB, es), es)
  {
    forall f
      ensures Holds(Replay(EMPTY_DB, es), f) <==> Known(es, f)
    {
      TablesAreHistory(EMPTY_DB, es, f);
    }
    TablesAreHistory(EMPTY_DB, es, NodeMade(0));
  }

  /** In every reachable state the tables hold exactly what the outcomes so far established. */
  lemma TablesFollowHistory(steps: seq<Step>, f: Fact)
    requires Runs(INITIAL, steps)
    ensures Holds(End(INITIAL, steps).db, f) <==> Known(Events(INITIAL, steps), f)
  {
    FromInitial(steps);
    TablesAreHistory(EMPTY_DB, Events(INITIAL, steps), f);
  }

  lemma FromInitial(steps: seq<Step>)
    requires Runs(INITIAL, steps)
    ensures SerialRun(EMPTY_DB, Events(INITIAL, steps))
    ensures End(INITIAL, steps).db == Replay(EMPTY_DB, Events(INITIAL, steps))
  {
    InitialInv();
    RunIsSerial(INITIAL, steps);
  }

  lemma SerialRunIsRight(es: seq<Event>, i: nat)
    requires SerialRun(EMPTY_DB, es) && i < |es|
    ensures Right(es[..i], es[i])
  {
    SerialAt(EMPTY_DB, es, i);
    HistoryMatches(es[..i]);
    OutcomeIsRight(Replay(EMPTY_DB, es[..i]), es[..i], es[i]);
  }

  /** Every answer of every run, whatever was interleaved, is the one that the earlier successes
      call for: a registration is refused as not-found exactly when its token was never created,
      and as already-exists when the token was used or the name given before; a deploy is refused
      as already-exists exactly when its name was deployed before, else as not-found exactly when
      its node never registered, and else only for a host port asked for twice or by an earlier
      deploy to that node; and nothing is granted that should have been refused. */
  lemma AnswersFollowHistory(steps: seq<Step>, i: nat)
    requires Runs(INITIAL, steps) && i < |Events(INITIAL, steps)|
    ensures Right(Events(INITIAL, steps)[..i], Events(INITIAL, steps)[i])
  {
    FromInitial(steps);
    SerialRunIsRight(Events(INITIAL, steps), i);
  }

  // ---------------------------------------------------------------- why a statement is refused

  /** The error of a refused statement, by what it found. */
  lemma RefusalsExplained(s: Sys, step: Step)
    requires Enabled(s, step) && Violates(s, step)
    ensures step.LockToken? ==>
              var reg := s.txs[step.t].reg;
              EventOf(s, step) == RegisterRejected(reg, if Digest(reg.token) in s.db.tokens then AlreadyExists else NotFound)
    ensures step.InsertNode? ==> EventOf(s, step) == RegisterRejected(s.txs[step.t].reg, AlreadyExists)
    ensures step.InsertWorkload? ==>
              var d := s.txs[step.t].deploy;
              EventOf(s, step) == CreateRejected(d, if exists w :: w in s.db.workloads && s.db.workloads[w].name == d.name
                                                    then AlreadyExists else NotFound)
    ensures step.InsertPort? ==> EventOf(s, step) == CreateRejected(s.txs[step.t].deploy, PortConflict)
    ensures After(s, step) == s.(txs := s.txs - {step.t})
  {
  }

  /** An abort takes back everything its transaction did, and nothing else. */
  lemma AbortUndoes(s: Sys, t: nat)
    requires t in s.txs
    ensures Enabled(s, Abort(t)) && EventOf(s, Abort(t)) == Quiet
    ensures After(s, Abort(t)) == s.(txs := s.txs - {t})
  {
  }

  // ---------------------------------------------------------------- what a statement writes

  /** A committed registration adds exactly its node, which has not been heard of, and marks
      exactly its token. */
  lemma RegisterWrites(s: Sys, t: nat)
    requires Enabled(s, CommitRegister(t))
    ensures var db, db', tx := s.db, After(s, CommitRegister(t)).db, s.txs[t];
            && db'.nodes.Keys == db.nodes.Keys + {tx.phase.id}
            && db'.nodes[tx.phase.id] == NodeRow(tx.reg.name, Digest(tx.reg.credential), tx.reg.address, NO_RESOURCES, None)
            && (forall n :: n in db.nodes && n != tx.phase.id ==> db'.nodes[n] == db.nodes[n])
            && db'.tokens.Keys == db.tokens.Keys + {Digest(tx.reg.token)}
            && db'.tokens[Digest(tx.reg.token)] == TokenRow(Some(tx.phase.at), Some(tx.phase.id))
            && (forall h :: h in db.tokens && h != Digest(tx.reg.token) ==> db'.tokens[h] == db.tokens[h])
            && db'.workloads == db.workloads && db'.ports == db.ports
    ensures EventOf(s, CommitRegister(t)) == Registered(s.txs[t].reg, s.txs[t].phase.id, s.txs[t].phase.at)
  {
  }

  /** A committed deploy adds exactly its workload, which has not been reported on, and one port
      row for each of its mappings. */
  lemma DeployWrites(s: Sys, t: nat, now: nat)
    requires Inv(s) && Enabled(s, CommitCreate(t, now))
    ensures var db, db', d, p := s.db, After(s, CommitCreate(t, now)).db, s.txs[t].deploy, s.txs[t].progress;
            && db'.workloads.Keys == db.workloads.Keys + {p.id}
            && db'.workloads[p.id] == WorkloadRow(d.name, d.image, d.node, Pending, 0, now)
            && (forall w :: w in db.workloads && w != p.id ==> db'.workloads[w] == db.workloads[w])
            && |p.rows| == |d.ports|
            && (forall r :: r in db'.ports <==> r in db.ports || r in p.rows)
            && (forall i :: 0 <= i < |p.rows| ==>
                  && db'.ports[p.rows[i]].workload == p.id && db'.ports[p.rows[i]].node == d.node
                  && db'.ports[p.rows[i]].port.hostPort == d.ports[i].hostPort
                  && db'.ports[p.rows[i]].port.containerPort == d.ports[i].containerPort
                  && db'.ports[p.rows[i]].port.protocol == (if d.ports[i].protocol == "" then "tcp" else d.ports[i].protocol))
            && db'.nodes == db.nodes && db'.tokens == db.tokens
  {
    var p := s.txs[t].progress;
    assert TxLocal(s.db, s.txs[t]);
    NewPortRowsAt(s.txs[t].deploy, p.id, p.rows);
  }

  /** A status update writes state, pid and time of the row with that name on that node, if
      there is one, and nothing else. */
  lemma StatusWrites(s: Sys, node: Uuid, name: string, state: State, pid: int, now: nat)
    ensures var step := UpdateWorkloadStatus(node, name, state, pid, now);
            && Enabled(s, step)
            && var db, db' := s.db, After(s, step).db;
               && db'.nodes == db.nodes && db'.tokens == db.tokens && db'.ports == db.ports
               && db'.workloads.Keys == db.workloads.Keys
               && forall w :: w in db.workloads ==>
                    db'.workloads[w] == if db.workloads[w].name == name && db.workloads[w].node == node
                                        then WorkloadRow(name, db.workloads[w].image, node, state, pid, now) else db.workloads[w]
  {
  }
}
