/** What the answers of the store mean for those who ask several times, or read in several
    steps, while others commit in between. */
module StoreAnswers {
  import opened Types
  import opened Store
  import opened StoreProofs

  /** The tables grow with every outcome. */
  ghost predicate Growing(db: Db, es: seq<Event>)
    decreases |es|
  {
    es == [] || (Extends(db, Replay1(db, es[0])) && Growing(Replay1(db, es[0]), es[1..]))
  }

  lemma {:induction false} RunGrows(s: Sys, steps: seq<Step>)
    requires Inv(s) && Runs(s, steps)
    ensures Growing(s.db, Events(s, steps))
    decreases |steps|
  {
    if steps != [] {
      StepKeepsInv(s, steps[0]);
      StepIsSerial(s, steps[0]);
      StepExtends(s, steps[0]);
      RunGrows(After(s, steps[0]), steps[1..]);
      assert Events(s, steps)[1..] == Events(After(s, steps[0]), steps[1..]);
    }
  }

  lemma {:induction false} MomentOf(db: Db, es: seq<Event>, i: nat) returns (db': Db)
    requires SerialRun(db, es) && Growing(db, es) && i < |es|
    ensures Extends(db, db') && Serial(db', es[i])
    decreases |es|
  {
    if i == 0 {
      ExtendsSelf(db);
      db' := db;
    } else {
      db' := MomentOf(Replay1(db, es[0]), es[1..], i - 1);
      ExtendsTransitive(db, Replay1(db, es[0]), db');
    }
  }

  /** Every outcome of a run was right for tables that had grown out of those at the start. */
  lemma Moment(s: Sys, steps: seq<Step>, i: nat) returns (db: Db)
    requires Inv(s) && Runs(s, steps) && i < |Events(s, steps)|
    ensures Extends(s.db, db) && Serial(db, Events(s, steps)[i])
  {
    RunIsSerial(s, steps);
    RunGrows(s, steps);
    db := MomentOf(s.db, Events(s, steps), i);
  }

  lemma LaterMoment(s: Sys, step: Step) returns (db: Db)
    requires Inv(s) && Enabled(s, step)
    ensures db == After(s, step).db && Inv(After(s, step)) && Extends(s.db, db)
  {
    StepKeepsInv(s, step);
    StepExtends(s, step);
    db := After(s, step).db;
  }

  // ---------------------------------------------------------------- asking again

  /** The outcome is no success for a deploy of that name, and if it is an error for one, it is
      already-exists. */
  ghost predicate RefusesName(e: Event, name: string) {
    && (e.Created? ==> e.deploy.name != name)
    && (e.CreateRejected? && e.deploy.name == name ==> e.error == AlreadyExists)
  }

  ghost predicate RefusesToken(e: Event, token: Token) {
    && (e.Registered? ==> e.reg.token != token)
    && (e.RegisterRejected? && e.reg.token == token ==> e.error == AlreadyExists)
  }

  lemma NameStaysTaken(db: Db, db': Db, e: Event, name: string)
    requires Taken(db, WorkloadName(name)) && Extends(db, db') && Serial(db', e)
    ensures RefusesName(e, name)
  {
    var w :| w in db.workloads && db.workloads[w].name == name;
    assert w in db'.workloads && db'.workloads[w].name == name;
    assert Taken(db', WorkloadName(name));
  }

  lemma TokenStaysSpent(db: Db, db': Db, e: Event, token: Token)
    requires Spent(db, token) && Extends(db, db') && Serial(db', e)
    ensures RefusesToken(e, token)
  {
  }

  lemma CommitTakesName(s: Sys, step: Step)
    requires Enabled(s, step) && step.CommitCreate?
    ensures Taken(After(s, step).db, WorkloadName(s.txs[step.t].deploy.name))
  {
    var tx := s.txs[step.t];
    assert After(s, step).db.workloads[tx.progress.id].name == tx.deploy.name;
  }

  /** A client that never learns that its deploy was committed can ask again: no later deploy
      of the name is committed, and whatever definite answer it gets is already-exists. */
  lemma RepeatedDeployIsRefused(s: Sys, step: Step, steps: seq<Step>, i: nat)
    requires Inv(s) && Enabled(s, step) && step.CommitCreate? && Runs(After(s, step), steps)
    requires i < |Events(After(s, step), steps)|
    ensures RefusesName(Events(After(s, step), steps)[i], s.txs[step.t].deploy.name)
  {
    var now := LaterMoment(s, step);
    CommitTakesName(s, step);
    var db := Moment(After(s, step), steps, i);
    NameStaysTaken(now, db, Events(After(s, step), steps)[i], s.txs[step.t].deploy.name);
  }

  /** The same for a registration and its token: the node exists, and the token buys no other. */
  lemma RepeatedRegisterIsRefused(s: Sys, step: Step, steps: seq<Step>, i: nat)
    requires Inv(s) && Enabled(s, step) && step.CommitRegister? && Runs(After(s, step), steps)
    requires i < |Events(After(s, step), steps)|
    ensures RefusesToken(Events(After(s, step), steps)[i], s.txs[step.t].reg.token)
  {
    var now := LaterMoment(s, step);
    var db := Moment(After(s, step), steps, i);
    TokenStaysSpent(now, db, Events(After(s, step), steps)[i], s.txs[step.t].reg.token);
  }

  // ---------------------------------------------------------------- split reads

  lemma NodeStays(db: Db, db': Db, e: Event, n: Uuid)
    requires n in db.nodes && Extends(db, db') && Serial(db', e)
    ensures e.CreateRejected? && e.deploy.node == n ==> e.error != NotFound
  {
  }

  /** The three reads of createWorkload are safe although others commit in between: once a node
      was found, no deploy to it is ever refused for a missing node, and the node is found again
      under its name at the end of any run. */
  lemma ResolvedNodeStays(s: Sys, steps: seq<Step>, n: Uuid)
    requires Inv(s) && Runs(s, steps) && n in s.db.nodes
    ensures n in End(s, steps).db.nodes && End(s, steps).db.nodes[n].name == s.db.nodes[n].name
    ensures forall i :: 0 <= i < |Events(s, steps)| && Events(s, steps)[i].CreateRejected? && Events(s, steps)[i].deploy.node == n ==>
              Events(s, steps)[i].error != NotFound
  {
    RunExtends(s, steps);
    forall i | 0 <= i < |Events(s, steps)|
      ensures Events(s, steps)[i].CreateRejected? && Events(s, steps)[i].deploy.node == n ==> Events(s, steps)[i].error != NotFound
    {
      var db := Moment(s, steps, i);
      NodeStays(s.db, db, Events(s, steps)[i], n);
    }
  }

  /** listWorkloads reads workloads first and nodes later: at the end of any run in between,
      the node of every workload listed is there, under the name it had. */
  lemma ListedNodeFound(s: Sys, steps: seq<Step>, w: Uuid)
    requires Inv(s) && Runs(s, steps) && w in s.db.workloads
    ensures var node := s.db.workloads[w].node;
            node in s.db.nodes && node in End(s, steps).db.nodes && End(s, steps).db.nodes[node].name == s.db.nodes[node].name
  {
    ResolvedNodeStays(s, steps, s.db.workloads[w].node);
  }
}
