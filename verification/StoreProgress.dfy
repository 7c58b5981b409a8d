/** The verdicts are reached, with any number of other transactions in flight: the statements
    of a request run through to its commit exactly when it is acceptable and no other
    transaction owns anything it needs. Together with the serial order of all outcomes this
    makes "commits exactly when" two-sided. */
module StoreProgress {
  import opened Types
  import opened Store
  import opened StoreProofs

  // ---------------------------------------------------------------- runs in pieces

  lemma {:induction false} RunsAppend(s: Sys, a: seq<Step>, b: seq<Step>)
    requires Runs(s, a) && Runs(End(s, a), b)
    ensures Runs(s, a + b) && End(s, a + b) == End(End(s, a), b)
    decreases |a|
  {
    if a == [] {
      assert a + b == b;
    } else {
      assert (a + b)[0] == a[0] && (a + b)[1..] == a[1..] + b;
      RunsAppend(After(s, a[0]), a[1..], b);
    }
  }

  lemma {:induction false} RunsSplit(s: Sys, a: seq<Step>, b: seq<Step>)
    requires Runs(s, a + b)
    ensures Runs(s, a) && Runs(End(s, a), b) && End(s, a + b) == End(End(s, a), b)
    decreases |a|
  {
    if a == [] {
      assert a + b == b;
    } else {
      assert (a + b)[0] == a[0] && (a + b)[1..] == a[1..] + b;
      RunsSplit(After(s, a[0]), a[1..], b);
    }
  }

  lemma RunsOne(s: Sys, step: Step, rest: seq<Step>)
    ensures Runs(s, [step] + rest) <==> Enabled(s, step) && Runs(After(s, step), rest)
    ensures Runs(s, [step] + rest) ==> End(s, [step] + rest) == End(After(s, step), rest)
  {
    assert ([step] + rest)[0] == step && ([step] + rest)[1..] == rest;
  }

  lemma OneStep(s: Sys, step: Step)
    ensures Runs(s, [step]) <==> Enabled(s, step)
    ensures Runs(s, [step]) ==> End(s, [step]) == After(s, step)
  {
    assert [step][0] == step && [step][1..] == [];
  }

  /** The tables are those of s0, and only transaction t has moved. */
  ghost predicate At(s0: Sys, s: Sys, t: nat, tx: Tx) {
    s.db == s0.db && s.txs == s0.txs[t := tx]
  }

  lemma OthersStand(s0: Sys, s: Sys, t: nat, tx: Tx, c: Claim)
    requires At(s0, s, t, tx)
    ensures OtherClaims(s, t, c) <==> OtherClaims(s0, t, c)
  {
    if OtherClaims(s0, t, c) {
      var u :| u in s0.txs && u != t && Claims(s0.txs[u], c);
      assert u in s.txs && Claims(s.txs[u], c);
    }
    if OtherClaims(s, t, c) {
      var u :| u in s.txs && u != t && Claims(s.txs[u], c);
      assert u in s0.txs && Claims(s0.txs[u], c);
    }
  }

  // ---------------------------------------------------------------- registering

  function RegisterSteps(t: nat, r: Registration, id: Uuid, now: nat): seq<Step> {
    [BeginRegister(t, r)] + ([LockToken(t)] + ([InsertNode(t, id)] + ([MarkToken(t, now)] + [CommitRegister(t)])))
  }

  lemma LockingRuns(s0: Sys, s: Sys, t: nat, r: Registration)
    requires At(s0, s, t, Registering(r, Begun))
    ensures Enabled(s, LockToken(t)) <==> !OtherClaims(s0, t, TokenLock(Digest(r.token)))
    ensures Enabled(s, LockToken(t)) ==>
              var s' := After(s, LockToken(t));
              if Taken(s0.db, TokenLock(Digest(r.token))) then t !in s'.txs
              else At(s0, s', t, Registering(r, Locked)) && s'.ids == s.ids
  {
    OthersStand(s0, s, t, Registering(r, Begun), TokenLock(Digest(r.token)));
  }

  lemma InsertingRuns(s0: Sys, s: Sys, t: nat, r: Registration, id: Uuid)
    requires At(s0, s, t, Registering(r, Locked)) && id !in s.ids
    ensures Enabled(s, InsertNode(t, id)) <==> !OtherClaims(s0, t, NodeName(r.name))
    ensures Enabled(s, InsertNode(t, id)) ==>
              var s' := After(s, InsertNode(t, id));
              if Taken(s0.db, NodeName(r.name)) then t !in s'.txs else At(s0, s', t, Registering(r, NodeInserted(id)))
  {
    OthersStand(s0, s, t, Registering(r, Locked), NodeName(r.name));
  }

  lemma FinishingRuns(s0: Sys, s: Sys, t: nat, r: Registration, id: Uuid, now: nat)
    requires At(s0, s, t, Registering(r, NodeInserted(id))) && t !in s0.txs
    ensures var steps := [MarkToken(t, now)] + [CommitRegister(t)];
            Runs(s, steps) && End(s, steps).db == WithNode(s0.db, r, id, now) && End(s, steps).txs == s0.txs
  {
    var s1 := After(s, MarkToken(t, now));
    assert At(s0, s1, t, Registering(r, TokenMarked(id, now)));
    OneStep(s1, CommitRegister(t));
    RunsOne(s, MarkToken(t, now), [CommitRegister(t)]);
    assert s0.txs[t := s1.txs[t]] - {t} == s0.txs;
  }

  ghost predicate RegisterUncontested(s: Sys, t: nat, r: Registration) {
    !OtherClaims(s, t, TokenLock(Digest(r.token))) && !OtherClaims(s, t, NodeName(r.name))
  }

  lemma RestOfRegister(s0: Sys, s: Sys, t: nat, r: Registration, id: Uuid, now: nat)
    requires At(s0, s, t, Registering(r, Locked)) && id !in s.ids && t !in s0.txs
    ensures var steps := [InsertNode(t, id)] + ([MarkToken(t, now)] + [CommitRegister(t)]);
            && (Runs(s, steps) <==> !Taken(s0.db, NodeName(r.name)) && !OtherClaims(s0, t, NodeName(r.name)))
            && (Runs(s, steps) ==> End(s, steps).db == WithNode(s0.db, r, id, now) && End(s, steps).txs == s0.txs)
  {
    var rest := [MarkToken(t, now)] + [CommitRegister(t)];
    InsertingRuns(s0, s, t, r, id);
    RunsOne(s, InsertNode(t, id), rest);
    if Enabled(s, InsertNode(t, id)) {
      var s1 := After(s, InsertNode(t, id));
      if t in s1.txs {
        FinishingRuns(s0, s1, t, r, id, now);
      } else {
        RunsOne(s1, MarkToken(t, now), [CommitRegister(t)]);
      }
    }
  }

  /** Whatever else is in flight, a registration runs through to its commit exactly when its
      token is unused, its name is free, and no other transaction holds the token's lock or an
      uncommitted node of that name. Nobody else is disturbed. */
  lemma RegisterRunsExactly(s: Sys, t: nat, r: Registration, id: Uuid, now: nat)
    requires t !in s.txs && r.credential !in s.issued && id !in s.ids
    ensures var steps := RegisterSteps(t, r, id, now);
            && (Runs(s, steps) <==> RegisterVerdict(s.db, r) == Accept && RegisterUncontested(s, t, r))
            && (Runs(s, steps) ==> End(s, steps).db == WithNode(s.db, r, id, now) && End(s, steps).txs == s.txs)
  {
    var rest := [InsertNode(t, id)] + ([MarkToken(t, now)] + [CommitRegister(t)]);
    RunsOne(s, BeginRegister(t, r), [LockToken(t)] + rest);
    var s1 := After(s, BeginRegister(t, r));
    LockingRuns(s, s1, t, r);
    RunsOne(s1, LockToken(t), rest);
    if Enabled(s1, LockToken(t)) {
      var s2 := After(s1, LockToken(t));
      if t in s2.txs {
        RestOfRegister(s, s2, t, r, id, now);
      } else {
        RunsOne(s2, InsertNode(t, id), [MarkToken(t, now)] + [CommitRegister(t)]);
      }
    }
  }

  // ---------------------------------------------------------------- deploying

  function PortSteps(t: nat, rows: seq<Uuid>): seq<Step> {
    if rows == [] then [] else PortSteps(t, rows[..|rows|-1]) + [InsertPort(t, Last(rows))]
  }

  function Halfway(d: Deploy, id: Uuid, rows: seq<Uuid>): Tx {
    Creating(d, Inserted(id, rows))
  }

  lemma PortRuns(s0: Sys, s: Sys, t: nat, d: Deploy, id: Uuid, rows: seq<Uuid>, row: Uuid)
    requires At(s0, s, t, Halfway(d, id, rows)) && |rows| < |d.ports| && row !in s.ids
    ensures Enabled(s, InsertPort(t, row)) <==> !OtherClaims(s0, t, HostPort(Key(d, |rows|)))
    ensures Enabled(s, InsertPort(t, row)) ==>
              var s' := After(s, InsertPort(t, row));
              if Taken(s0.db, HostPort(Key(d, |rows|))) || HasKey(d, |rows|, Key(d, |rows|)) then t !in s'.txs
              else At(s0, s', t, Halfway(d, id, rows + [row])) && s'.ids == s.ids + {row}
  {
    OthersStand(s0, s, t, Halfway(d, id, rows), HostPort(Key(d, |rows|)));
  }

  /** The first n mappings can be inserted. */
  ghost predicate PortsGo(s: Sys, t: nat, d: Deploy, n: nat)
    requires n <= |d.ports|
  {
    && DistinctKeys(d, n) && FreeKeys(s.db, d, n)
    && forall i :: 0 <= i < n ==> !OtherClaims(s, t, HostPort(Key(d, i)))
  }

  lemma PortsGoOneMore(s: Sys, t: nat, d: Deploy, n: nat)
    requires n < |d.ports|
    ensures PortsGo(s, t, d, n + 1) <==>
              && PortsGo(s, t, d, n) && !OtherClaims(s, t, HostPort(Key(d, n)))
              && !Taken(s.db, HostPort(Key(d, n))) && !HasKey(d, n, Key(d, n))
  {
    if PortsGo(s, t, d, n + 1) {
      assert forall i :: 0 <= i < n ==> Key(d, i) != Key(d, n);
      assert !OtherClaims(s, t, HostPort(Key(d, n))) && !Taken(s.db, HostPort(Key(d, n)));
    }
  }

  /** The port statements of a deploy run through, the transaction still standing, exactly
      when every mapping can be inserted. */
  lemma {:induction false} PortsRun(s0: Sys, s: Sys, t: nat, d: Deploy, id: Uuid, rows: seq<Uuid>)
    requires At(s0, s, t, Halfway(d, id, [])) && |rows| <= |d.ports|
    requires Distinct(rows) && forall r :: r in rows ==> r !in s.ids
    ensures (Runs(s, PortSteps(t, rows)) && t in End(s, PortSteps(t, rows)).txs) <==> PortsGo(s0, t, d, |rows|)
    ensures PortsGo(s0, t, d, |rows|) ==>
              var s' := End(s, PortSteps(t, rows));
              At(s0, s', t, Halfway(d, id, rows)) && forall x :: x in s'.ids ==> x in s.ids || x in rows
    decreases |rows|
  {
    if rows != [] {
      var init, row := rows[..|rows|-1], Last(rows);
      assert rows == init + [row] && row !in init && row in rows;
      PortsRun(s0, s, t, d, id, init);
      PortsGoOneMore(s0, t, d, |init|);
      PortsRunOneMore(s0, s, t, d, id, init, row);
    }
  }

  lemma PortsRunOneMore(s0: Sys, s: Sys, t: nat, d: Deploy, id: Uuid, init: seq<Uuid>, row: Uuid)
    requires |init| < |d.ports|
    requires (Runs(s, PortSteps(t, init)) && t in End(s, PortSteps(t, init)).txs) <==> PortsGo(s0, t, d, |init|)
    requires PortsGo(s0, t, d, |init|) ==>
               At(s0, End(s, PortSteps(t, init)), t, Halfway(d, id, init)) && row !in End(s, PortSteps(t, init)).ids
    ensures var steps := PortSteps(t, init) + [InsertPort(t, row)];
            var go := PortsGo(s0, t, d, |init|) && !OtherClaims(s0, t, HostPort(Key(d, |init|)))
                      && !Taken(s0.db, HostPort(Key(d, |init|))) && !HasKey(d, |init|, Key(d, |init|));
            && ((Runs(s, steps) && t in End(s, steps).txs) <==> go)
            && (go ==> At(s0, End(s, steps), t, Halfway(d, id, init + [row]))
                       && End(s, steps).ids == End(s, PortSteps(t, init)).ids + {row})
  {
    var last := [InsertPort(t, row)];
    if Runs(s, PortSteps(t, init) + last) {
      RunsSplit(s, PortSteps(t, init), last);
      OneStep(End(s, PortSteps(t, init)), InsertPort(t, row));
    }
    if PortsGo(s0, t, d, |init|) {
      var s1 := End(s, PortSteps(t, init));
      PortRuns(s0, s1, t, d, id, init, row);
      OneStep(s1, InsertPort(t, row));
      if Enabled(s1, InsertPort(t, row)) {
        RunsAppend(s, PortSteps(t, init), last);
      }
    }
  }

  function DeploySteps(t: nat, d: Deploy, id: Uuid, rows: seq<Uuid>, now: nat): seq<Step> {
    [BeginCreate(t, d)] + ([InsertWorkload(t, id)] + (PortSteps(t, rows) + [CommitCreate(t, now)]))
  }

  lemma WorkloadRuns(s0: Sys, s: Sys, t: nat, d: Deploy, id: Uuid)
    requires At(s0, s, t, Creating(d, Waiting)) && id !in s.ids
    ensures Enabled(s, InsertWorkload(t, id)) <==> !OtherClaims(s0, t, WorkloadName(d.name))
    ensures Enabled(s, InsertWorkload(t, id)) ==>
              var s' := After(s, InsertWorkload(t, id));
              if Taken(s0.db, WorkloadName(d.name)) || d.node !in s0.db.nodes then t !in s'.txs
              else At(s0, s', t, Halfway(d, id, [])) && s'.ids == s.ids + {id}
  {
    OthersStand(s0, s, t, Creating(d, Waiting), WorkloadName(d.name));
  }

  lemma CommitRuns(s0: Sys, s: Sys, t: nat, d: Deploy, id: Uuid, rows: seq<Uuid>, now: nat)
    requires At(s0, s, t, Halfway(d, id, rows)) && |rows| == |d.ports| && t !in s0.txs
    ensures Enabled(s, CommitCreate(t, now))
    ensures After(s, CommitCreate(t, now)).db == WithWorkload(s0.db, d, id, rows, now)
    ensures After(s, CommitCreate(t, now)).txs == s0.txs
  {
    assert s0.txs[t := s.txs[t]] - {t} == s0.txs;
  }

  /** From the inserted workload to the commit. */
  lemma RestOfDeploy(s0: Sys, s: Sys, t: nat, d: Deploy, id: Uuid, rows: seq<Uuid>, now: nat)
    requires At(s0, s, t, Halfway(d, id, [])) && t !in s0.txs
    requires |rows| == |d.ports| && Distinct(rows) && forall r :: r in rows ==> r !in s.ids
    ensures var steps := PortSteps(t, rows) + [CommitCreate(t, now)];
            && (Runs(s, steps) <==> PortsGo(s0, t, d, |rows|))
            && (Runs(s, steps) ==> End(s, steps).db == WithWorkload(s0.db, d, id, rows, now) && End(s, steps).txs == s0.txs)
  {
    var ports, commit := PortSteps(t, rows), [CommitCreate(t, now)];
    PortsRun(s0, s, t, d, id, rows);
    if Runs(s, ports + commit) {
      RunsSplit(s, ports, commit);
      OneStep(End(s, ports), CommitCreate(t, now));
    }
    if PortsGo(s0, t, d, |rows|) {
      CommitRuns(s0, End(s, ports), t, d, id, rows, now);
      OneStep(End(s, ports), CommitCreate(t, now));
      RunsAppend(s, ports, commit);
    }
  }

  lemma {:induction false} GoneStopsDeploy(s: Sys, t: nat, rows: seq<Uuid>, now: nat)
    requires t !in s.txs
    ensures !Runs(s, PortSteps(t, rows) + [CommitCreate(t, now)])
  {
    var steps := PortSteps(t, rows) + [CommitCreate(t, now)];
    assert !Enabled(s, steps[0]) by {
      if rows != [] {
        FirstIsPort(t, rows);
      }
    }
  }

  lemma {:induction false} FirstIsPort(t: nat, rows: seq<Uuid>)
    requires rows != []
    ensures |PortSteps(t, rows)| > 0 && PortSteps(t, rows)[0] == InsertPort(t, rows[0])
  {
    if |rows| > 1 {
      FirstIsPort(t, rows[..|rows|-1]);
    }
  }

  ghost predicate DeployUncontested(s: Sys, t: nat, d: Deploy) {
    && !OtherClaims(s, t, WorkloadName(d.name))
    && forall i :: 0 <= i < |d.ports| ==> !OtherClaims(s, t, HostPort(Key(d, i)))
  }

  /** Whatever else is in flight, a deploy runs through to its commit, with all its ports,
      exactly when the node exists, the name is free, the requested keys are distinct and
      unclaimed, and no other transaction has an uncommitted row with that name or one of those
      keys. Nobody else is disturbed. */
  lemma DeployRunsExactly(s: Sys, t: nat, d: Deploy, id: Uuid, rows: seq<Uuid>, now: nat)
    requires t !in s.txs && forall i :: 0 <= i < |d.ports| ==> Fits(d.ports[i])
    requires id !in s.ids && |rows| == |d.ports| && Distinct(rows) && forall r :: r in rows ==> r !in s.ids && r != id
    ensures var steps := DeploySteps(t, d, id, rows, now);
            && (Runs(s, steps) <==> CreateVerdict(s.db, d) == Accept && DeployUncontested(s, t, d))
            && (Runs(s, steps) ==> End(s, steps).db == WithWorkload(s.db, d, id, rows, now) && End(s, steps).txs == s.txs)
  {
    var rest := PortSteps(t, rows) + [CommitCreate(t, now)];
    RunsOne(s, BeginCreate(t, d), [InsertWorkload(t, id)] + rest);
    var s1 := After(s, BeginCreate(t, d));
    WorkloadRuns(s, s1, t, d, id);
    RunsOne(s1, InsertWorkload(t, id), rest);
    if Enabled(s1, InsertWorkload(t, id)) {
      var s2 := After(s1, InsertWorkload(t, id));
      if t in s2.txs {
        RestOfDeploy(s, s2, t, d, id, rows, now);
      } else {
        GoneStopsDeploy(s2, t, rows, now);
      }
    }
  }
}
