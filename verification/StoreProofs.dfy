/** What every step of the store keeps, and what follows for whole runs. */
module StoreProofs {
  import opened Types
  import opened Store

  // ---------------------------------------------------------------- invariants of the tables

  ghost predicate NodesOk(db: Db) {
    && (forall a, b :: a in db.nodes && b in db.nodes && db.nodes[a].name == db.nodes[b].name ==> a == b)
    && (forall a, b :: a in db.nodes && b in db.nodes && db.nodes[a].credential == db.nodes[b].credential ==> a == b)
  }

  ghost predicate Consumed(db: Db, h: Digest, n: Uuid) {
    h in db.tokens && db.tokens[h].usedBy == Some(n)
  }

  /** Used tokens and nodes are in bijection through used_by_node. */
  ghost predicate TokensMatchNodes(db: Db) {
    && (forall h :: h in db.tokens ==> (db.tokens[h].usedAt.Some? <==> db.tokens[h].usedBy.Some?))
    && (forall h :: h in db.tokens && db.tokens[h].usedBy.Some? ==> db.tokens[h].usedBy.value in db.nodes)
    && (forall n :: n in db.nodes ==> exists h :: Consumed(db, h, n))
    && (forall h, g, n :: Consumed(db, h, n) && Consumed(db, g, n) ==> h == g)
  }

  ghost predicate WorkloadsOk(db: Db) {
    && (forall a, b :: a in db.workloads && b in db.workloads && db.workloads[a].name == db.workloads[b].name ==> a == b)
    && (forall w :: w in db.workloads ==> db.workloads[w].node in db.nodes)
  }

  ghost predicate PortsOk(db: Db) {
    && (forall p :: p in db.ports ==> db.ports[p].workload in db.workloads)
    && (forall p :: p in db.ports ==> db.workloads[db.ports[p].workload].node == db.ports[p].node)
    && (forall p :: p in db.ports ==> Fits(db.ports[p].port) && db.ports[p].port.protocol != "")
    && (forall p, q :: p in db.ports && q in db.ports && RowKey(db.ports[p]) == RowKey(db.ports[q]) ==> p == q)
  }

  ghost predicate DbInv(db: Db) {
    NodesOk(db) && TokensMatchNodes(db) && WorkloadsOk(db) && PortsOk(db)
  }

  // ---------------------------------------------------------------- invariants of the transactions

  /** What a transaction knows about itself and about rows that never go away. */
  ghost predicate TxLocal(db: Db, tx: Tx) {
    tx.Creating? ==>
      && (forall i :: 0 <= i < |tx.deploy.ports| ==> Fits(tx.deploy.ports[i]))
      && (tx.progress.Inserted? ==>
            && |tx.progress.rows| <= |tx.deploy.ports|
            && Distinct(tx.progress.rows)
            && tx.deploy.node in db.nodes
            && DistinctKeys(tx.deploy, |tx.progress.rows|))
  }

  /** Nothing a transaction owns is already in the committed tables. */
  ghost predicate Unclaimed(db: Db, tx: Tx) {
    forall c :: Claims(tx, c) ==> !Taken(db, c)
  }

  /** Two transactions in flight own nothing in common. */
  ghost predicate Disjoint(a: Tx, b: Tx) {
    forall c :: Claims(a, c) ==> !Claims(b, c)
  }

  /** Identifiers and secrets in use have been generated before. */
  ghost predicate Generated(issued: set<Token>, ids: set<Uuid>, c: Claim) {
    && (c.Id? ==> c.id in ids)
    && (c.Credential? ==> c.token in issued)
  }

  ghost predicate Known(issued: set<Token>, ids: set<Uuid>, tx: Tx) {
    forall c :: Claims(tx, c) ==> Generated(issued, ids, c)
  }

  ghost predicate Inv(s: Sys) {
    && DbInv(s.db)
    && (forall h :: h in s.db.tokens ==> h.token in s.issued)
    && (forall c :: Taken(s.db, c) ==> Generated(s.issued, s.ids, c))
    && (forall t :: t in s.txs ==> Known(s.issued, s.ids, s.txs[t]))
    && (forall t :: t in s.txs ==> TxLocal(s.db, s.txs[t]))
    && (forall t :: t in s.txs ==> Unclaimed(s.db, s.txs[t]))
    && (forall t, u :: t in s.txs && u in s.txs && t != u ==> Disjoint(s.txs[t], s.txs[u]))
  }

  // ---------------------------------------------------------------- preservation, by kind of step

  /** A step that changes one transaction and no table: it may claim what nobody owns. */
  lemma ReplaceTx(s: Sys, s': Sys, t: nat)
    requires Inv(s) && s'.db == s.db && t in s'.txs && s'.txs == s.txs[t := s'.txs[t]]
    requires s.ids <= s'.ids && s.issued <= s'.issued
    requires TxLocal(s.db, s'.txs[t])
    requires forall c :: Claims(s'.txs[t], c) ==>
               || (t in s.txs && Claims(s.txs[t], c))
               || (!OtherClaims(s, t, c) && !Taken(s.db, c) && Generated(s'.issued, s'.ids, c))
    ensures Inv(s')
  {
    var tx := s'.txs[t];
    forall c | Claims(tx, c)
      ensures !OtherClaims(s, t, c) && !Taken(s.db, c) && Generated(s'.issued, s'.ids, c)
    {
      if t in s.txs && Claims(s.txs[t], c) {
        assert Unclaimed(s.db, s.txs[t]) && Known(s.issued, s.ids, s.txs[t]);
        assert forall u :: u in s.txs && u != t ==> Disjoint(s.txs[t], s.txs[u]);
      }
    }
    forall u | u in s.txs && u != t
      ensures Disjoint(tx, s.txs[u]) && Disjoint(s.txs[u], tx)
    {
      assert forall c :: Claims(s.txs[u], c) ==> OtherClaims(s, t, c);
    }
    forall u | u in s'.txs
      ensures Known(s'.issued, s'.ids, s'.txs[u])
    {
      if u != t {
        assert Known(s.issued, s.ids, s.txs[u]);
      }
    }
  }

  lemma FreshIsUnowned(s: Sys, t: nat, c: Claim)
    requires Inv(s) && !Generated(s.issued, s.ids, c)
    ensures !Taken(s.db, c) && !OtherClaims(s, t, c)
  {
    forall u | u in s.txs
      ensures !Claims(s.txs[u], c)
    {
      assert Known(s.issued, s.ids, s.txs[u]);
    }
  }

  lemma DropTx(s: Sys, t: nat)
    requires Inv(s)
    ensures Inv(Drop(s, t))
  {
    forall u | u in Drop(s, t).txs
      ensures Known(s.issued, s.ids, s.txs[u]) && TxLocal(s.db, s.txs[u]) && Unclaimed(s.db, s.txs[u])
    {
    }
  }

  /** A step that changes the tables by no more than its own claims. */
  lemma ChangeDb(s: Sys, t: nat, db': Db, issued': set<Token>)
    requires Inv(s) && DbInv(db') && s.issued <= issued'
    requires forall h :: h in db'.tokens ==> h.token in issued'
    requires s.db.nodes.Keys <= db'.nodes.Keys
    requires forall c :: Taken(db', c) ==> Taken(s.db, c) || (t in s.txs && Claims(s.txs[t], c))
    ensures Inv(Drop(s, t).(db := db', issued := issued'))
  {
    forall c | Taken(db', c)
      ensures Generated(issued', s.ids, c)
    {
      assert Taken(s.db, c) || Known(s.issued, s.ids, s.txs[t]);
    }
    forall u | u in s.txs && u != t
      ensures Unclaimed(db', s.txs[u]) && TxLocal(db', s.txs[u]) && Known(issued', s.ids, s.txs[u])
    {
      assert Unclaimed(s.db, s.txs[u]) && TxLocal(s.db, s.txs[u]) && Known(s.issued, s.ids, s.txs[u]);
      assert t in s.txs ==> Disjoint(s.txs[u], s.txs[t]);
    }
  }

  /** A statement outside any transaction that takes nothing new. */
  lemma UpdateDb(s: Sys, db': Db, issued': set<Token>)
    requires Inv(s) && DbInv(db') && s.issued <= issued'
    requires forall h :: h in db'.tokens ==> h.token in issued'
    requires s.db.nodes.Keys <= db'.nodes.Keys
    requires forall c :: Taken(db', c) ==> Taken(s.db, c)
    ensures Inv(s.(db := db', issued := issued'))
  {
    forall u | u in s.txs
      ensures Unclaimed(db', s.txs[u]) && TxLocal(db', s.txs[u]) && Known(issued', s.ids, s.txs[u])
    {
      assert Unclaimed(s.db, s.txs[u]) && TxLocal(s.db, s.txs[u]) && Known(s.issued, s.ids, s.txs[u]);
    }
  }

  lemma BijectionKept(db: Db, db': Db)
    requires TokensMatchNodes(db)
    requires db'.nodes.Keys == db.nodes.Keys
    requires forall h :: h in db.tokens ==> h in db'.tokens && db'.tokens[h] == db.tokens[h]
    requires forall h :: h in db'.tokens && h !in db.tokens ==> db'.tokens[h] == TokenRow(None, None)
    ensures TokensMatchNodes(db')
  {
    forall n | n in db'.nodes
      ensures exists h :: Consumed(db', h, n)
    {
      var h :| Consumed(db, h, n);
      assert Consumed(db', h, n);
    }
    assert forall h, n :: Consumed(db', h, n) ==> Consumed(db, h, n);
  }

  lemma TokenTakesNothing(db: Db, db': Db, token: Token, c: Claim)
    requires db' == db.(tokens := db.tokens[Digest(token) := TokenRow(None, None)])
    requires Taken(db', c)
    ensures Taken(db, c)
  {
  }

  /** A new join token leaves every other token row and every transaction as they were. */
  lemma TokenKeepsInv(s: Sys, step: Step)
    requires Inv(s) && Enabled(s, step) && step.CreateJoinToken?
    ensures Inv(After(s, step))
    ensures After(s, step).txs == s.txs
    ensures Digest(step.token) !in s.db.tokens
    ensures forall h :: h in s.db.tokens ==> h in After(s, step).db.tokens && After(s, step).db.tokens[h] == s.db.tokens[h]
  {
    var s' := After(s, step);
    assert Digest(step.token) !in s.db.tokens;
    TokenDbInv(s.db, s'.db, step.token);
    forall c | Taken(s'.db, c)
      ensures Taken(s.db, c)
    {
      TokenTakesNothing(s.db, s'.db, step.token, c);
    }
    UpdateDb(s, s'.db, s'.issued);
  }

  lemma TokenDbInv(db: Db, db': Db, token: Token)
    requires DbInv(db) && Digest(token) !in db.tokens
    requires db' == db.(tokens := db.tokens[Digest(token) := TokenRow(None, None)])
    ensures DbInv(db')
  {
    BijectionKept(db, db');
    assert NodesOk(db') && WorkloadsOk(db') && PortsOk(db');
  }

  lemma NodeAddedBijection(db: Db, r: Registration, id: Uuid, now: nat)
    requires TokensMatchNodes(db) && RegisterVerdict(db, r) == Accept && id !in db.nodes
    ensures TokensMatchNodes(WithNode(db, r, id, now))
  {
    var db' := WithNode(db, r, id, now);
    var g := Digest(r.token);
    assert Consumed(db', g, id);
    forall h, n | Consumed(db', h, n)
      ensures (n == id && h == g) || (Consumed(db, h, n) && h != g && n != id)
    {
      if h != g {
        assert Consumed(db, h, n);
      }
    }
    forall n | n in db'.nodes
      ensures exists h :: Consumed(db', h, n)
    {
      if n != id {
        var h :| Consumed(db, h, n);
        assert Consumed(db', h, n);
      }
    }
  }

  lemma NodeAdded(db: Db, r: Registration, id: Uuid, now: nat)
    requires DbInv(db) && RegisterVerdict(db, r) == Accept && id !in db.nodes && !Taken(db, Credential(r.credential))
    ensures DbInv(WithNode(db, r, id, now))
  {
    NodeAddedBijection(db, r, id, now);
    assert !Taken(db, NodeName(r.name));
    assert forall n :: n in db.nodes ==> db.nodes[n].name != r.name && db.nodes[n].credential != Digest(r.credential);
  }

  lemma TakenByNode(db: Db, r: Registration, id: Uuid, now: nat, c: Claim)
    requires Taken(WithNode(db, r, id, now), c)
    ensures Taken(db, c) || Claims(Registering(r, TokenMarked(id, now)), c)
  {
    var db' := WithNode(db, r, id, now);
    match c
    case NodeName(name) => var n :| n in db'.nodes && db'.nodes[n].name == name;
    case Credential(token) => var n :| n in db'.nodes && db'.nodes[n].credential == Digest(token);
    case _ =>
  }

  lemma CommittedRegisterIsSerial(s: Sys, step: Step)
    requires Inv(s) && Enabled(s, step) && step.CommitRegister?
    ensures var tx := s.txs[step.t];
            && RegisterVerdict(s.db, tx.reg) == Accept && tx.phase.id !in s.db.nodes
            && !Taken(s.db, Credential(tx.reg.credential))
  {
    var tx := s.txs[step.t];
    assert Unclaimed(s.db, tx);
    assert Claims(tx, Id(tx.phase.id)) && Claims(tx, NodeName(tx.reg.name)) && Claims(tx, Credential(tx.reg.credential));
    assert Claims(tx, TokenLock(Digest(tx.reg.token)));
  }

  lemma RegisterCommitKeepsInv(s: Sys, step: Step)
    requires Inv(s) && Enabled(s, step) && step.CommitRegister?
    ensures Inv(After(s, step))
  {
    var s' := After(s, step);
    var tx := s.txs[step.t];
    CommittedRegisterIsSerial(s, step);
    NodeAdded(s.db, tx.reg, tx.phase.id, tx.phase.at);
    forall c | Taken(s'.db, c)
      ensures Taken(s.db, c) || Claims(tx, c)
    {
      TakenByNode(s.db, tx.reg, tx.phase.id, tx.phase.at, c);
    }
    ChangeDb(s, step.t, s'.db, s.issued);
  }

  lemma {:induction false} NewPortRowsAt(d: Deploy, id: Uuid, rows: seq<Uuid>)
    requires |rows| <= |d.ports| && Distinct(rows)
    ensures forall p :: p in NewPortRows(d, id, rows) <==> p in rows
    ensures forall i :: 0 <= i < |rows| ==> NewPortRows(d, id, rows)[rows[i]] == PortRowOf(d, id, i)
  {
    if rows != [] {
      var init := rows[..|rows|-1];
      NewPortRowsAt(d, id, init);
      forall p
        ensures p in rows <==> p in init || p == Last(rows)
      {
      }
      forall i | 0 <= i < |init|
        ensures NewPortRows(d, id, rows)[rows[i]] == PortRowOf(d, id, i)
      {
        assert rows[i] == init[i] && rows[i] != Last(rows);
      }
    }
  }

  /** A port row of the new tables is an old one or the row of one requested mapping. */
  ghost predicate RowFrom(db: Db, db': Db, d: Deploy, id: Uuid, rows: seq<Uuid>, p: Uuid)
    requires |rows| == |d.ports| && p in db'.ports
  {
    || (p !in rows && p in db.ports && db'.ports[p] == db.ports[p])
    || (exists i :: 0 <= i < |rows| && rows[i] == p && db'.ports[p] == PortRowOf(d, id, i))
  }

  lemma RowsFrom(db: Db, d: Deploy, id: Uuid, rows: seq<Uuid>, now: nat)
    requires |rows| == |d.ports| && Distinct(rows)
    ensures var db' := WithWorkload(db, d, id, rows, now);
            forall p :: p in db'.ports ==> RowFrom(db, db', d, id, rows, p)
  {
    NewPortRowsAt(d, id, rows);
  }

  lemma WorkloadAdded(db: Db, d: Deploy, id: Uuid, rows: seq<Uuid>, now: nat)
    requires DbInv(db) && CreateVerdict(db, d) == Accept && |rows| == |d.ports| && Distinct(rows) && id !in db.workloads
    requires forall i :: 0 <= i < |d.ports| ==> Fits(d.ports[i])
    ensures DbInv(WithWorkload(db, d, id, rows, now))
  {
    NodesUntouched(db, WithWorkload(db, d, id, rows, now));
    WorkloadNameAdded(db, d, id, rows, now);
    PortRowsAdded(db, d, id, rows, now);
  }

  lemma NodesUntouched(db: Db, db': Db)
    requires NodesOk(db) && TokensMatchNodes(db) && db'.nodes == db.nodes && db'.tokens == db.tokens
    ensures NodesOk(db') && TokensMatchNodes(db')
  {
    BijectionKept(db, db');
  }

  lemma PortRowsAdded(db: Db, d: Deploy, id: Uuid, rows: seq<Uuid>, now: nat)
    requires PortsOk(db) && |rows| == |d.ports| && Distinct(rows) && id !in db.workloads
    requires DistinctKeys(d, |rows|) && FreeKeys(db, d, |rows|)
    requires forall i :: 0 <= i < |d.ports| ==> Fits(d.ports[i])
    ensures PortsOk(WithWorkload(db, d, id, rows, now))
  {
    RowsFrom(db, d, id, rows, now);
    PortsAdded(db, WithWorkload(db, d, id, rows, now), d, id, rows);
  }

  lemma WorkloadNameAdded(db: Db, d: Deploy, id: Uuid, rows: seq<Uuid>, now: nat)
    requires WorkloadsOk(db) && !Taken(db, WorkloadName(d.name)) && d.node in db.nodes && |rows| == |d.ports|
    ensures WorkloadsOk(WithWorkload(db, d, id, rows, now))
  {
    assert forall w :: w in db.workloads ==> db.workloads[w].name != d.name;
  }

  lemma PortsAdded(db: Db, db': Db, d: Deploy, id: Uuid, rows: seq<Uuid>)
    requires PortsOk(db) && |rows| == |d.ports| && Distinct(rows)
    requires DistinctKeys(d, |rows|) && FreeKeys(db, d, |rows|)
    requires forall i :: 0 <= i < |d.ports| ==> Fits(d.ports[i])
    requires forall w :: w in db.workloads ==> w in db'.workloads && db'.workloads[w] == db.workloads[w]
    requires id in db'.workloads && db'.workloads[id].node == d.node
    requires forall p :: p in db'.ports ==> RowFrom(db, db', d, id, rows, p)
    ensures PortsOk(db')
  {
    forall i, q | 0 <= i < |rows| && q in db.ports
      ensures RowKey(db.ports[q]) != Key(d, i)
    {
      assert !Taken(db, HostPort(Key(d, i)));
    }
    forall p, q | p in db'.ports && q in db'.ports && RowKey(db'.ports[p]) == RowKey(db'.ports[q])
      ensures p == q
    {
      assert RowFrom(db, db', d, id, rows, p) && RowFrom(db, db', d, id, rows, q);
      assert forall i :: 0 <= i < |rows| ==> RowKey(PortRowOf(d, id, i)) == Key(d, i);
    }
  }

  lemma CreateCommitKeepsInv(s: Sys, step: Step)
    requires Inv(s) && Enabled(s, step) && step.CommitCreate?
    ensures Inv(After(s, step))
  {
    var s' := After(s, step);
    var tx := s.txs[step.t];
    var d, id, rows := tx.deploy, tx.progress.id, tx.progress.rows;
    CommittedDeployIsSerial(s, step);
    WorkloadAdded(s.db, d, id, rows, step.now);
    forall c | Taken(s'.db, c)
      ensures Taken(s.db, c) || Claims(tx, c)
    {
      TakenByWorkload(s.db, d, id, rows, step.now, c);
    }
    ChangeDb(s, step.t, s'.db, s.issued);
  }

  lemma TakenByWorkload(db: Db, d: Deploy, id: Uuid, rows: seq<Uuid>, now: nat, c: Claim)
    requires |rows| == |d.ports| && Distinct(rows)
    requires Taken(WithWorkload(db, d, id, rows, now), c)
    ensures Taken(db, c) || Claims(Creating(d, Inserted(id, rows)), c)
  {
    var db' := WithWorkload(db, d, id, rows, now);
    RowsFrom(db, d, id, rows, now);
    match c
    case WorkloadName(name) => var w :| w in db'.workloads && db'.workloads[w].name == name;
    case HostPort(key) =>
      var p :| p in db'.ports && RowKey(db'.ports[p]) == key;
      assert RowFrom(db, db', d, id, rows, p);
      if i :| 0 <= i < |rows| && db'.ports[p] == PortRowOf(d, id, i) {
        assert Key(d, i) == key;
        assert HasKey(d, |rows|, key);
      }
    case Id(x) =>
      if x in db'.ports {
        assert RowFrom(db, db', d, id, rows, x);
      }
    case _ =>
  }

  /** A transaction that has inserted all its rows owns its name and its ids ... */
  lemma OwnsItsIds(db: Db, d: Deploy, id: Uuid, rows: seq<Uuid>)
    requires Unclaimed(db, Creating(d, Inserted(id, rows)))
    ensures !Taken(db, WorkloadName(d.name)) && id !in db.workloads
    ensures forall r :: r in rows ==> r !in db.ports
  {
    var tx := Creating(d, Inserted(id, rows));
    assert Claims(tx, WorkloadName(d.name)) && Claims(tx, Id(id));
    assert !Taken(db, Id(id));
    forall r | r in rows
      ensures r !in db.ports
    {
      assert Claims(tx, Id(r));
      assert !Taken(db, Id(r));
    }
  }

  /** ... and the keys of its mappings. */
  lemma OwnsItsKeys(db: Db, d: Deploy, id: Uuid, rows: seq<Uuid>)
    requires Unclaimed(db, Creating(d, Inserted(id, rows))) && |rows| == |d.ports|
    ensures FreeKeys(db, d, |d.ports|)
  {
    var tx := Creating(d, Inserted(id, rows));
    forall i | 0 <= i < |rows|
      ensures !Taken(db, HostPort(Key(d, i)))
    {
      assert HasKey(d, |rows|, Key(d, i));
      assert Claims(tx, HostPort(Key(d, i)));
    }
  }

  lemma CommittedDeployIsSerial(s: Sys, step: Step)
    requires Inv(s) && Enabled(s, step) && step.CommitCreate?
    ensures Serial(s.db, EventOf(s, step))
  {
    var tx := s.txs[step.t];
    assert Unclaimed(s.db, tx) && TxLocal(s.db, tx);
    OwnsItsIds(s.db, tx.deploy, tx.progress.id, tx.progress.rows);
    OwnsItsKeys(s.db, tx.deploy, tx.progress.id, tx.progress.rows);
  }

  /** The new tables differ from the old in nothing that can be claimed. */
  ghost predicate SameIdentity(db: Db, db': Db) {
    && db'.nodes.Keys == db.nodes.Keys && db'.workloads.Keys == db.workloads.Keys
    && db'.ports == db.ports && db'.tokens == db.tokens
    && (forall n :: n in db.nodes ==> db'.nodes[n].name == db.nodes[n].name && db'.nodes[n].credential == db.nodes[n].credential)
    && (forall w :: w in db.workloads ==>
          && db'.workloads[w].name == db.workloads[w].name
          && db'.workloads[w].image == db.workloads[w].image
          && db'.workloads[w].node == db.workloads[w].node)
  }

  /** Heartbeats touch neither names, nor images, nor owners, nor secrets. */
  lemma UpdatesKeepIdentity(db: Db, node: Uuid, resources: Resources, address: string, name: string, state: State, pid: int, now: nat)
    ensures SameIdentity(db, WithBeat(db, node, resources, address, now))
    ensures SameIdentity(db, WithReport(db, node, name, state, pid, now))
  {
    assert WithReport(db, node, name, state, pid, now).workloads.Keys == db.workloads.Keys;
    assert WithBeat(db, node, resources, address, now).nodes.Keys == db.nodes.Keys;
  }

  lemma IdentityKeepsDbInv(db: Db, db': Db)
    requires DbInv(db) && SameIdentity(db, db')
    ensures DbInv(db') && Extends(db, db')
  {
    BijectionKept(db, db');
    assert NodesOk(db');
    assert WorkloadsOk(db');
    assert PortsOk(db');
  }

  lemma IdentityKeepsInv(s: Sys, db': Db)
    requires Inv(s) && SameIdentity(s.db, db')
    ensures Inv(s.(db := db'))
  {
    IdentityKeepsDbInv(s.db, db');
    forall c | Taken(db', c)
      ensures Taken(s.db, c)
    {
    }
    UpdateDb(s, db', s.issued);
  }

  lemma BeginRegisterKeepsInv(s: Sys, step: Step)
    requires Inv(s) && Enabled(s, step) && (step.BeginRegister? || step.MarkToken?)
    ensures Inv(After(s, step))
  {
    if step.BeginRegister? {
      FreshIsUnowned(s, step.t, Credential(step.reg.credential));
    }
    ReplaceTx(s, After(s, step), step.t);
  }

  lemma LockTokenKeepsInv(s: Sys, step: Step)
    requires Inv(s) && Enabled(s, step) && step.LockToken?
    ensures Inv(After(s, step))
  {
    if Violates(s, step) {
      DropTx(s, step.t);
    } else {
      ReplaceTx(s, After(s, step), step.t);
    }
  }

  lemma InsertNodeKeepsInv(s: Sys, step: Step)
    requires Inv(s) && Enabled(s, step) && step.InsertNode?
    ensures Inv(After(s, step))
  {
    if Violates(s, step) {
      DropTx(s, step.t);
    } else {
      FreshIsUnowned(s, step.t, Id(step.id));
      NodeClaims(s.txs[step.t].reg, step.id);
      ReplaceTx(s, After(s, step), step.t);
    }
  }

  /** Inserting its node gives a registration two more claims. */
  lemma NodeClaims(reg: Registration, id: Uuid)
    ensures forall c :: Claims(Registering(reg, NodeInserted(id)), c) ==>
              Claims(Registering(reg, Locked), c) || c == NodeName(reg.name) || c == Id(id)
  {
  }

  lemma CreateStatementKeepsInv(s: Sys, step: Step)
    requires Inv(s) && Enabled(s, step)
    requires step.BeginCreate? || step.InsertWorkload?
    ensures Inv(After(s, step))
  {
    if Violates(s, step) {
      DropTx(s, step.t);
    } else {
      if step.InsertWorkload? {
        assert TxLocal(s.db, s.txs[step.t]);
        FreshIsUnowned(s, step.t, Id(step.id));
      }
      ReplaceTx(s, After(s, step), step.t);
    }
  }

  lemma PortStatementKeepsInv(s: Sys, step: Step)
    requires Inv(s) && Enabled(s, step) && step.InsertPort?
    ensures Inv(After(s, step))
  {
    var s' := After(s, step);
    if Violates(s, step) {
      DropTx(s, step.t);
    } else {
      var was, tx := s.txs[step.t], s'.txs[step.t];
      assert TxLocal(s.db, was) && Known(s.issued, s.ids, was);
      FreshIsUnowned(s, step.t, Id(step.row));
      assert forall r :: r in was.progress.rows ==> Claims(was, Id(r));
      OneMorePort(was.deploy, was.progress.id, was.progress.rows, step.row);
      ReplaceTx(s, s', step.t);
    }
  }

  lemma OneMorePort(d: Deploy, id: Uuid, rows: seq<Uuid>, row: Uuid)
    requires |rows| < |d.ports| && Distinct(rows) && row !in rows && DistinctKeys(d, |rows|)
    requires !HasKey(d, |rows|, Key(d, |rows|))
    ensures Distinct(rows + [row]) && DistinctKeys(d, |rows| + 1)
    ensures forall c :: Claims(Creating(d, Inserted(id, rows + [row])), c) ==>
              Claims(Creating(d, Inserted(id, rows)), c) || c == HostPort(Key(d, |rows|)) || c == Id(row)
  {
  }

  lemma StepKeepsInv(s: Sys, step: Step)
    requires Inv(s) && Enabled(s, step)
    ensures Inv(After(s, step))
  {
    match step {
      case CreateJoinToken(_) => TokenKeepsInv(s, step);
      case CommitRegister(_) => RegisterCommitKeepsInv(s, step);
      case CommitCreate(_, _) => CreateCommitKeepsInv(s, step);
      case UpdateNodeHeartbeat(node, resources, address, now) =>
        UpdatesKeepIdentity(s.db, node, resources, address, "", Pending, 0, now);
        IdentityKeepsInv(s, After(s, step).db);
      case UpdateWorkloadStatus(node, name, state, pid, now) =>
        UpdatesKeepIdentity(s.db, node, NO_RESOURCES, "", name, state, pid, now);
        IdentityKeepsInv(s, After(s, step).db);
      case InsertPort(_, _) => PortStatementKeepsInv(s, step);
      case BeginCreate(_, _) => CreateStatementKeepsInv(s, step);
      case InsertWorkload(_, _) => CreateStatementKeepsInv(s, step);
      case Abort(t) => DropTx(s, t);
      case LockToken(_) => LockTokenKeepsInv(s, step);
      case InsertNode(_, _) => InsertNodeKeepsInv(s, step);
      case _ => BeginRegisterKeepsInv(s, step);
    }
  }

  // ---------------------------------------------------------------- interleaved runs are serial

  /** Each step either leaves the tables alone or makes final an outcome that the request
      would get, with the same effect, running alone at that moment. */
  lemma StepIsSerial(s: Sys, step: Step)
    requires Inv(s) && Enabled(s, step)
    ensures Serial(s.db, EventOf(s, step))
    ensures After(s, step).db == Replay1(s.db, EventOf(s, step))
  {
    match step {
      case CommitCreate(_, _) => CommittedDeployIsSerial(s, step);
      case CommitRegister(_) => CommittedRegisterIsSerial(s, step);
      case InsertNode(t, id) =>
        assert Unclaimed(s.db, s.txs[t]);
        assert Claims(s.txs[t], TokenLock(Digest(s.txs[t].reg.token)));
      case InsertPort(t, row) =>
        if Violates(s, step) { PortRejectionIsSerial(s, step); }
      case _ =>
    }
  }

  /** When a port insert is refused, the name is still free, the node still exists, and the
      refused key is claimed by a committed row or by an earlier mapping of the request. */
  lemma PortRejectionIsSerial(s: Sys, step: Step)
    requires Inv(s) && Enabled(s, step) && step.InsertPort? && Violates(s, step)
    ensures CreateVerdict(s.db, s.txs[step.t].deploy) == Reject(PortConflict)
  {
    var tx := s.txs[step.t];
    var d, n := tx.deploy, |tx.progress.rows|;
    assert Unclaimed(s.db, tx) && TxLocal(s.db, tx);
    assert Claims(tx, WorkloadName(d.name));
    if Claims(tx, HostPort(Key(d, n))) {
      assert HasKey(d, n, Key(d, n));
      var i :| 0 <= i < n && i < |d.ports| && Key(d, i) == Key(d, n);
      assert !DistinctKeys(d, |d.ports|);
    } else {
      assert !FreeKeys(s.db, d, |d.ports|);
    }
  }

  lemma InitialInv()
    ensures Inv(INITIAL)
  {
  }

  /** Serializability: whatever the interleaving, the tables at the end of a run are those
      of executing its outcomes one after the other, and every outcome, commit or error, is
      the right answer at its place in that order. */
  lemma {:induction false} RunIsSerial(s: Sys, steps: seq<Step>)
    requires Inv(s) && Runs(s, steps)
    ensures Inv(End(s, steps))
    ensures End(s, steps).db == Replay(s.db, Events(s, steps))
    ensures SerialRun(s.db, Events(s, steps))
    decreases |steps|
  {
    if steps != [] {
      StepKeepsInv(s, steps[0]);
      StepIsSerial(s, steps[0]);
      RunIsSerial(After(s, steps[0]), steps[1..]);
      var e := EventOf(s, steps[0]);
      assert Events(s, steps)[0] == e && Events(s, steps)[1..] == Events(After(s, steps[0]), steps[1..]);
    }
  }

  /** In every reachable state used tokens and nodes are in bijection. */
  lemma TokensAndNodesInBijection(steps: seq<Step>)
    requires Runs(INITIAL, steps)
    ensures TokensMatchNodes(End(INITIAL, steps).db)
  {
    InitialInv();
    RunIsSerial(INITIAL, steps);
  }

  // ---------------------------------------------------------------- the tables only grow

  ghost predicate Extends(db: Db, db': Db) {
    && (forall n :: n in db.nodes ==>
          n in db'.nodes && db'.nodes[n].name == db.nodes[n].name && db'.nodes[n].credential == db.nodes[n].credential)
    && (forall w :: w in db.workloads ==>
          && w in db'.workloads && db'.workloads[w].name == db.workloads[w].name
          && db'.workloads[w].image == db.workloads[w].image && db'.workloads[w].node == db.workloads[w].node)
    && (forall p :: p in db.ports ==> p in db'.ports && db'.ports[p] == db.ports[p])
    && (forall p :: p in db'.ports && db'.ports[p].workload in db.workloads ==> p in db.ports)
    && (forall h :: h in db.tokens ==> h in db'.tokens && (db.tokens[h].usedAt.Some? ==> db'.tokens[h] == db.tokens[h]))
  }

  lemma ExtendsSelf(db: Db)
    ensures Extends(db, db)
  {
  }

  lemma ExtendsTransitive(a: Db, b: Db, c: Db)
    requires Extends(a, b) && Extends(b, c)
    ensures Extends(a, c)
  {
  }

  lemma WorkloadExtends(db: Db, d: Deploy, id: Uuid, rows: seq<Uuid>, now: nat)
    requires PortsOk(db) && Serial(db, Created(d, id, rows, now))
    ensures Extends(db, WithWorkload(db, d, id, rows, now))
  {
    var db' := WithWorkload(db, d, id, rows, now);
    NewPortRowsAt(d, id, rows);
    RowsFrom(db, d, id, rows, now);
    forall p | p in db'.ports && p !in db.ports
      ensures db'.ports[p].workload !in db.workloads
    {
      assert RowFrom(db, db', d, id, rows, p);
    }
  }

  /** Nodes and workloads are never deleted; a node keeps its name and credential, a workload
      its name, image, node and exact set of port rows; a used token stays used by its node. */
  lemma EventExtends(db: Db, e: Event)
    requires DbInv(db) && Serial(db, e)
    ensures Extends(db, Replay1(db, e))
  {
    match e {
      case Created(d, id, rows, at) => WorkloadExtends(db, d, id, rows, at);
      case Beat(node, resources, address, at) =>
        UpdatesKeepIdentity(db, node, resources, address, "", Pending, 0, at);
        IdentityKeepsDbInv(db, Replay1(db, e));
      case Reported(node, name, state, pid, at) =>
        UpdatesKeepIdentity(db, node, NO_RESOURCES, "", name, state, pid, at);
        IdentityKeepsDbInv(db, Replay1(db, e));
      case Registered(reg, id, at) => NodeExtends(db, reg, id, at);
      case _ =>
    }
  }

  lemma NodeExtends(db: Db, r: Registration, id: Uuid, now: nat)
    requires RegisterVerdict(db, r) == Accept && id !in db.nodes
    ensures Extends(db, WithNode(db, r, id, now))
  {
  }

  lemma StepExtends(s: Sys, step: Step)
    requires Inv(s) && Enabled(s, step)
    ensures Extends(s.db, After(s, step).db)
  {
    StepIsSerial(s, step);
    EventExtends(s.db, EventOf(s, step));
  }

  lemma {:induction false} RunExtends(s: Sys, steps: seq<Step>)
    requires Inv(s) && Runs(s, steps)
    ensures Extends(s.db, End(s, steps).db)
    decreases |steps|
  {
    if steps != [] {
      StepKeepsInv(s, steps[0]);
      StepExtends(s, steps[0]);
      RunExtends(After(s, steps[0]), steps[1..]);
      ExtendsTransitive(s.db, After(s, steps[0]).db, End(s, steps).db);
    }
  }

  ghost predicate Spent(db: Db, token: Token) {
    Digest(token) in db.tokens && db.tokens[Digest(token)].usedAt.Some?
  }

  lemma SpentStays(db: Db, e: Event, token: Token)
    requires Serial(db, e) && Spent(db, token)
    ensures Spent(Replay1(db, e), token) && (e.Registered? ==> e.reg.token != token)
  {
  }

  /** A token that is used stays spent: nothing registers with it any more. */
  lemma {:induction false} SpentTokenRegistersNothing(db: Db, es: seq<Event>, token: Token, i: nat)
    requires SerialRun(db, es) && i < |es| && Spent(db, token)
    ensures es[i].Registered? ==> es[i].reg.token != token
    decreases |es|
  {
    SpentStays(db, es[0], token);
    if i > 0 {
      SpentTokenRegistersNothing(Replay1(db, es[0]), es[1..], token, i - 1);
    }
  }

  lemma {:induction false} SerialTokenRegistersOnce(db: Db, es: seq<Event>, i: nat, j: nat)
    requires SerialRun(db, es) && i < j < |es| && es[i].Registered? && es[j].Registered?
    ensures es[i].reg.token != es[j].reg.token
    decreases |es|
  {
    if i == 0 {
      SpentTokenRegistersNothing(Replay1(db, es[0]), es[1..], es[0].reg.token, j - 1);
    } else {
      SerialTokenRegistersOnce(Replay1(db, es[0]), es[1..], i - 1, j - 1);
    }
  }

  /** A join token yields at most one committed node, under every interleaving. */
  lemma TokenRegistersOnce(s: Sys, steps: seq<Step>, i: nat, j: nat)
    requires Inv(s) && Runs(s, steps) && i < j < |Events(s, steps)|
    requires Events(s, steps)[i].Registered? && Events(s, steps)[j].Registered?
    ensures Events(s, steps)[i].reg.token != Events(s, steps)[j].reg.token
  {
    RunIsSerial(s, steps);
    SerialTokenRegistersOnce(s.db, Events(s, steps), i, j);
  }
}
