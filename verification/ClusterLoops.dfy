/** The loops of the program, taken apart into actions of the cluster, are the loops: what the
    actions of one round do to a machine is one call of reconcile, and what an uninterrupted
    handler writes is one call of the heartbeat handler. */
module ClusterLoops {
  import opened Types
  import S = Store
  import opened ControlPlane
  import opened PortConversions
  import opened Runtime
  import opened FakeRuntime
  import opened Reconcile
  import C = Cluster
  import CP = ClusterProgress

  // ---------------------------------------------------------------- the reconcile loop

  function FromLog(log: seq<StepFaults>): nat -> StepFaults {
    (i: nat) => if i < |log| then log[i] else NO_STEP_FAULTS
  }

  lemma {:induction false} FaultsBelow(h: Host, seen: Seen, desired: seq<WorkloadSpec>, fs: nat -> StepFaults, gs: nat -> StepFaults)
    requires forall i :: 0 <= i < |desired| ==> fs(i) == gs(i)
    ensures ReconcileAll(h, seen, desired, fs) == ReconcileAll(h, seen, desired, gs)
  {
    if desired != [] {
      FaultsBelow(h, seen, desired[..|desired|-1], fs, gs);
    }
  }

  /** The action leaves the loop of machine m alone: nobody kills its agent, no process on it
      changes, and no other round starts. The runtime calls may fail as they like. */
  predicate Steady(a: C.Action, m: nat) {
    match a
    case KillAgent(k) => k != m
    case ProcessChanges(k, _, _) => k != m
    case SendHeartbeat(k, _) => k != m
    case _ => true
  }

  ghost predicate Starts(c: C.Cluster, a: C.Action, m: nat)
    requires C.CanAct(c, a)
  {
    && a.StartWorkload? && a.m == m
    && var wl := C.Next(c, m);
       RunHost(c.machines[m].host, wl.name, wl.image, Map(FromApi, wl.ports), a.run).1 == RunOk
  }

  /** The host of machine m, the successful Run calls and the runtime calls, after one action. */
  ghost function Tick(c: C.Cluster, a: C.Action, m: nat, p: Progress): Progress
    requires C.CanAct(c, a)
  {
    Progress(if m in C.Act(c, a).machines then C.Act(c, a).machines[m].host else p.host,
             p.started + (if Starts(c, a, m) then 1 else 0),
             p.calls + (if CP.CallsRuntime(a, m) then 1 else 0))
  }

  ghost function Track(c: C.Cluster, acts: seq<C.Action>, m: nat, p: Progress): Progress
    requires C.Runs(c, acts)
    decreases |acts|
  {
    if acts == [] then p else Track(C.Act(c, acts[0]), acts[1..], m, Tick(c, acts[0], m, p))
  }

  /** What the loop has done when `done` workloads are behind it and, if `cleared`, the dead
      container of the next one as well. */
  function Reached(h0: Host, seen: Seen, specs: seq<WorkloadSpec>, log: seq<StepFaults>, done: nat, cleared: bool, stop: StopFaults): Progress
    requires done <= |specs| && (cleared ==> done < |specs|)
  {
    var q := ReconcileAll(h0, seen, specs[..done], FromLog(log));
    if cleared then Progress(StopHost(q.host, specs[done].name, stop).0, q.started, q.calls + 1) else q
  }

  ghost predicate Clearing(h0: Host, seen: Seen, specs: seq<WorkloadSpec>, log: seq<StepFaults>, done: nat, stop: StopFaults)
    requires done < |specs|
  {
    && specs[done].name in seen && !SeenRunning(seen, specs[done].name)
    && StopHost(ReconcileAll(h0, seen, specs[..done], FromLog(log)).host, specs[done].name, stop).1 != StopFailed
  }

  /** Where the agent is in the loop that began on h0. */
  ghost predicate Looping(x: C.Machine, p: Progress, h0: Host, seen: Seen, specs: seq<WorkloadSpec>, log: seq<StepFaults>, stop: StopFaults) {
    && p.host == x.host
    && (match x.agent
        case Acting(_, _, s, todo, cleared) =>
          && s == seen && |todo| <= |specs| && todo == specs[|specs| - |todo|..] && |log| == |specs| - |todo|
          && (cleared ==> todo != [] && Clearing(h0, seen, specs, log, |log|, stop))
          && p == Reached(h0, seen, specs, log, |log|, cleared && todo != [], stop)
        case Ready(_, _) => |log| == |specs| && p == ReconcileAll(h0, seen, specs, FromLog(log))
        case _ => false)
  }

  lemma OneMore(h0: Host, seen: Seen, specs: seq<WorkloadSpec>, log: seq<StepFaults>, f: StepFaults)
    requires |log| < |specs|
    ensures ReconcileAll(h0, seen, specs[..|log| + 1], FromLog(log + [f]))
            == ReconcileOne(ReconcileAll(h0, seen, specs[..|log|], FromLog(log)), seen, specs[|log|], f)
  {
    var some, more := specs[..|log|], specs[..|log| + 1];
    assert more[..|more| - 1] == some && Last(more) == specs[|log|];
    FaultsBelow(h0, seen, some, FromLog(log), FromLog(log + [f]));
    assert FromLog(log + [f])(|log|) == f;
  }

  /** A running container is passed over. */
  lemma SkipLoops(x: C.Machine, p: Progress, h0: Host, seen: Seen, specs: seq<WorkloadSpec>, log: seq<StepFaults>, stop: StopFaults)
    requires Looping(x, p, h0, seen, specs, log, stop) && x.agent.Acting? && x.agent.todo != []
    requires SeenRunning(seen, x.agent.todo[0].name)
    ensures Looping(x.(agent := C.Advance(x.agent)), p, h0, seen, specs, log + [NO_STEP_FAULTS], stop)
  {
    assert x.agent.todo[0] == specs[|log|] && x.agent.todo[1..] == specs[|log| + 1..];
    OneMore(h0, seen, specs, log, NO_STEP_FAULTS);
  }

  /** A dead container is stopped; if that fails, its workload is done with. */
  lemma ClearLoops(x: C.Machine, p: Progress, h0: Host, seen: Seen, specs: seq<WorkloadSpec>, log: seq<StepFaults>, stop: StopFaults, f: StopFaults)
    requires Looping(x, p, h0, seen, specs, log, stop) && x.agent.Acting? && x.agent.todo != [] && !x.agent.cleared
    requires x.agent.todo[0].name in seen && !SeenRunning(seen, x.agent.todo[0].name)
    ensures var (h, r) := StopHost(x.host, x.agent.todo[0].name, f);
            var p' := Progress(h, p.started, p.calls + 1);
            if r == StopFailed then
              Looping(x.(host := h, agent := C.Advance(x.agent)), p', h0, seen, specs, log + [StepFaults(f, NO_RUN_FAULTS)], stop)
            else Looping(x.(host := h, agent := x.agent.(cleared := true)), p', h0, seen, specs, log, f)
  {
    assert x.agent.todo[0] == specs[|log|] && x.agent.todo[1..] == specs[|log| + 1..];
    OneMore(h0, seen, specs, log, StepFaults(f, NO_RUN_FAULTS));
  }

  /** The workload is started, after its dead container has been removed if there was one. */
  lemma StartLoops(x: C.Machine, p: Progress, h0: Host, seen: Seen, specs: seq<WorkloadSpec>, log: seq<StepFaults>, stop: StopFaults, f: RunFaults)
    requires Looping(x, p, h0, seen, specs, log, stop) && x.agent.Acting? && x.agent.todo != []
    requires x.agent.cleared || x.agent.todo[0].name !in seen
    ensures var wl := x.agent.todo[0];
            var (h, r) := RunHost(x.host, wl.name, wl.image, Map(FromApi, wl.ports), f);
            Looping(x.(host := h, agent := C.Advance(x.agent)),
                    Progress(h, p.started + (if r == RunOk then 1 else 0), p.calls + 1), h0, seen, specs, log + [StepFaults(stop, f)], stop)
  {
    assert x.agent.todo[0] == specs[|log|] && x.agent.todo[1..] == specs[|log| + 1..];
    OneMore(h0, seen, specs, log, StepFaults(stop, f));
  }

  /** One action of the loop. */
  lemma OwnStepLoops(c: C.Cluster, a: C.Action, m: nat, p: Progress, h0: Host, seen: Seen, specs: seq<WorkloadSpec>,
                     log: seq<StepFaults>, stop: StopFaults)
    returns (log': seq<StepFaults>, stop': StopFaults)
    requires C.CanAct(c, a) && m in c.machines && Looping(c.machines[m], p, h0, seen, specs, log, stop)
    requires (a.SkipRunning? || a.ClearDead? || a.StartWorkload?) && a.m == m
    ensures Looping(C.Act(c, a).machines[m], Tick(c, a, m, p), h0, seen, specs, log', stop')
  {
    var x := c.machines[m];
    if a.SkipRunning? {
      SkipLoops(x, p, h0, seen, specs, log, stop);
      log', stop' := log + [NO_STEP_FAULTS], stop;
    } else if a.ClearDead? {
      ClearLoops(x, p, h0, seen, specs, log, stop, a.stop);
      if StopHost(x.host, x.agent.todo[0].name, a.stop).1 == StopFailed {
        log', stop' := log + [StepFaults(a.stop, NO_RUN_FAULTS)], stop;
      } else {
        log', stop' := log, a.stop;
      }
    } else {
      StartLoops(x, p, h0, seen, specs, log, stop, a.run);
      log', stop' := log + [StepFaults(stop, a.run)], stop;
    }
  }

  lemma StepLoops(c: C.Cluster, a: C.Action, m: nat, p: Progress, h0: Host, seen: Seen, specs: seq<WorkloadSpec>,
                  log: seq<StepFaults>, stop: StopFaults)
    returns (log': seq<StepFaults>, stop': StopFaults)
    requires C.CanAct(c, a) && Steady(a, m) && m in c.machines && Looping(c.machines[m], p, h0, seen, specs, log, stop)
    ensures m in C.Act(c, a).machines && Looping(C.Act(c, a).machines[m], Tick(c, a, m, p), h0, seen, specs, log', stop')
  {
    log', stop' := log, stop;
    if !CP.Concerns(a, m) {
      CP.UnconcernedStays(c, a, m);
    } else if a.SkipRunning? || a.ClearDead? || a.StartWorkload? {
      log', stop' := OwnStepLoops(c, a, m, p, h0, seen, specs, log, stop);
    } else {
      assert a.FinishRound?;
      assert specs[..|specs|] == specs;
    }
  }

  lemma {:induction false} RunLoops(c: C.Cluster, acts: seq<C.Action>, m: nat, p: Progress, h0: Host, seen: Seen,
                                    specs: seq<WorkloadSpec>, log: seq<StepFaults>, stop: StopFaults)
    returns (log': seq<StepFaults>, stop': StopFaults)
    requires C.Runs(c, acts) && m in c.machines && Looping(c.machines[m], p, h0, seen, specs, log, stop)
    requires forall i :: 0 <= i < |acts| ==> Steady(acts[i], m)
    ensures m in C.End(c, acts).machines
    ensures Looping(C.End(c, acts).machines[m], Track(c, acts, m, p), h0, seen, specs, log', stop')
    decreases |acts|
  {
    log', stop' := log, stop;
    if acts != [] {
      log', stop' := StepLoops(c, acts[0], m, p, h0, seen, specs, log, stop);
      log', stop' := RunLoops(C.Act(c, acts[0]), acts[1..], m, Tick(c, acts[0], m, p), h0, seen, specs, log', stop');
    }
  }

  /** The actions of a round of machine m, from the reply to the end of the round, interleaved
      with everything else and whatever fails, do to its host what one call of reconcile does,
      with the same successful Run calls and the same number of runtime calls. */
  lemma RoundIsReconcile(c: C.Cluster, acts: seq<C.Action>, m: nat) returns (fs: nat -> StepFaults)
    requires C.Runs(c, acts) && m in c.machines && c.machines[m].agent.Acting? && !c.machines[m].agent.cleared
    requires forall i :: 0 <= i < |acts| ==> Steady(acts[i], m)
    requires m in C.End(c, acts).machines && C.End(c, acts).machines[m].agent.Ready?
    ensures var x := c.machines[m];
            Track(c, acts, m, Progress(x.host, 0, 0)) == ReconcileAll(x.host, x.agent.seen, x.agent.todo, fs)
    ensures Track(c, acts, m, Progress(c.machines[m].host, 0, 0)).host == C.End(c, acts).machines[m].host
  {
    var x := c.machines[m];
    var specs, p := x.agent.todo, Progress(x.host, 0, 0);
    assert specs[0..] == specs && specs[..0] == [];
    var log, _ := RunLoops(c, acts, m, p, x.host, x.agent.seen, specs, [], NO_STOP_FAULTS);
    fs := FromLog(log);
  }

  /** So the counting law and the frame hold of rounds in the cluster, whatever fails in them. */
  lemma RoundCounts(c: C.Cluster, acts: seq<C.Action>, m: nat) returns (fs: nat -> StepFaults)
    requires C.Runs(c, acts) && m in c.machines && c.machines[m].agent.Acting? && !c.machines[m].agent.cleared
    requires forall i :: 0 <= i < |acts| ==> Steady(acts[i], m)
    requires m in C.End(c, acts).machines && C.End(c, acts).machines[m].agent.Ready?
    requires DistinctNames(c.machines[m].agent.todo) && TasksOwned(c.machines[m].host)
    ensures var x, h' := c.machines[m], C.End(c, acts).machines[m].host;
            NotRunning(h', x.agent.todo) + Track(c, acts, m, Progress(x.host, 0, 0)).started
            == NotRunning(x.host, x.agent.todo) + Interrupted(x.host, x.agent.seen, x.agent.todo, fs)
    ensures var x, h' := c.machines[m], C.End(c, acts).machines[m].host;
            forall n :: SeenRunning(x.agent.seen, n) || (forall i :: 0 <= i < |x.agent.todo| ==> x.agent.todo[i].name != n)
                        ==> SameAt(x.host, h', n)
  {
    var x := c.machines[m];
    fs := RoundIsReconcile(c, acts, m);
    ReconcileCounts(x.host, x.agent.seen, x.agent.todo, fs);
    forall n | SeenRunning(x.agent.seen, n) || forall i :: 0 <= i < |x.agent.todo| ==> x.agent.todo[i].name != n
      ensures SameAt(x.host, C.End(c, acts).machines[m].host, n)
    {
      ReconcileLeavesAlone(x.host, x.agent.seen, x.agent.todo, fs, n);
    }
  }

  // ---------------------------------------------------------------- the handler

  /** The only statements are the status updates of handler hd, all at one time. */
  ghost predicate Alone(c: C.Cluster, acts: seq<C.Action>, hd: nat, now: nat)
    requires C.Runs(c, acts)
    decreases |acts|
  {
    acts == [] ||
    ((CP.StatementOf(c, acts[0]).None? || acts[0] == C.HandleReport(hd, now)) && Alone(C.Act(c, acts[0]), acts[1..], hd, now))
  }

  /** Handler hd has written the first k reports; if it is still there, the others are to come. */
  ghost predicate Writing(c: C.Cluster, hd: nat, node: Uuid, base: S.Db, reports: seq<Report>, k: nat, now: nat) {
    && k <= |reports| && c.sys.db == Reports(base, node, reports[..k], now)
    && (hd in c.handlers ==>
          && c.handlers[hd].node == node
          && if c.handlers[hd].Updating? then c.handlers[hd].todo == reports[k..] else k == |reports|)
  }

  lemma ReportWritten(c: C.Cluster, hd: nat, node: Uuid, base: S.Db, reports: seq<Report>, k: nat, now: nat)
    requires C.CanAct(c, C.HandleReport(hd, now)) && Writing(c, hd, node, base, reports, k, now)
    ensures Writing(C.Act(c, C.HandleReport(hd, now)), hd, node, base, reports, k + 1, now)
  {
    assert c.handlers[hd].todo == reports[k..];
    assert reports[..k + 1][..k] == reports[..k] && Last(reports[..k + 1]) == reports[k];
    assert reports[k..][1..] == reports[k + 1..];
  }

  /** Without a statement, a handler is as it was, has all its reports written, or is gone. */
  lemma HandlerOtherwise(c: C.Cluster, a: C.Action, hd: nat)
    requires C.CanAct(c, a) && CP.StatementOf(c, a).None?
    ensures C.Act(c, a).sys == c.sys
    ensures hd in C.Act(c, a).handlers ==>
              && hd in c.handlers && C.Act(c, a).handlers[hd].node == c.handlers[hd].node
              && (|| C.Act(c, a).handlers[hd] == c.handlers[hd]
                  || (c.handlers[hd].Updating? && c.handlers[hd].todo == [] && C.Act(c, a).handlers[hd].Listed?))
  {
  }

  lemma WritingGoesOn(c: C.Cluster, a: C.Action, hd: nat, node: Uuid, base: S.Db, reports: seq<Report>, k: nat, now: nat)
    requires C.CanAct(c, a) && Writing(c, hd, node, base, reports, k, now)
    requires CP.StatementOf(c, a).None? || a == C.HandleReport(hd, now)
    ensures Writing(C.Act(c, a), hd, node, base, reports, if a == C.HandleReport(hd, now) then k + 1 else k, now)
  {
    if a == C.HandleReport(hd, now) {
      ReportWritten(c, hd, node, base, reports, k, now);
    } else {
      HandlerOtherwise(c, a, hd);
    }
  }

  lemma {:induction false} HandlerWrites(c: C.Cluster, acts: seq<C.Action>, hd: nat, node: Uuid, base: S.Db, reports: seq<Report>, k: nat, now: nat)
    returns (k': nat)
    requires C.Runs(c, acts) && Alone(c, acts, hd, now) && Writing(c, hd, node, base, reports, k, now)
    ensures Writing(C.End(c, acts), hd, node, base, reports, k', now)
    decreases |acts|
  {
    k' := k;
    if acts != [] {
      WritingGoesOn(c, acts[0], hd, node, base, reports, k, now);
      k' := HandlerWrites(C.Act(c, acts[0]), acts[1..], hd, node, base, reports,
                          if acts[0] == C.HandleReport(hd, now) then k + 1 else k, now);
    }
  }

  /** A handler that no other statement comes between writes what the handler of the program
      writes: the sample, then the reports in order, all of them when it gets to its listing,
      and otherwise exactly the first k. */
  lemma HandlerIsHeartbeat(c: C.Cluster, a: C.Action, acts: seq<C.Action>) returns (k: nat)
    requires C.CanAct(c, a) && a.HandleHeartbeat? && C.Runs(C.Act(c, a), acts) && Alone(C.Act(c, a), acts, a.hd, a.now)
    ensures var c' := C.End(C.Act(c, a), acts);
            && k <= |a.reports|
            && c'.sys.db == Reports(S.WithBeat(c.sys.db, a.node, a.resources, a.address, a.now), a.node, a.reports[..k], a.now)
            && (a.hd in c'.handlers && c'.handlers[a.hd].Listed? ==> k == |a.reports|)
  {
    var base := S.WithBeat(c.sys.db, a.node, a.resources, a.address, a.now);
    assert a.reports[..0] == [] && a.reports[0..] == a.reports;
    k := HandlerWrites(C.Act(c, a), acts, a.hd, a.node, base, a.reports, 0, a.now);
  }
}
