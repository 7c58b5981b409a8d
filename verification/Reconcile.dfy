/** The agent's reconcile loop (internal/agent/reconciler.go): start every desired workload
    that was not seen running, clearing a dead container of that name first. */
module Reconcile {
  import opened Types
  import opened Runtime
  import opened FakeRuntime
  import opened PortConversions
  import ST = StopTask

  /** What happens to the Stop and the Run made for one desired workload. */
  datatype StepFaults = StepFaults(stop: StopFaults, run: RunFaults)

  type Seen = map<string, Status>

  /** The map built from the listed statuses; a later entry replaces an earlier one. */
  function ByName(current: seq<Status>): Seen {
    if current == [] then map[] else ByName(current[..|current|-1])[Last(current).name := Last(current)]
  }

  /** The host, the number of successful Run calls and the number of runtime calls. */
  datatype Progress = Progress(host: Host, started: nat, calls: nat)

  predicate SeenRunning(seen: Seen, name: string) {
    name in seen && seen[name].state == Running
  }

  function StartOne(p: Progress, wl: WorkloadSpec, f: RunFaults): Progress {
    var (h, r) := RunHost(p.host, wl.name, wl.image, Map(FromApi, wl.ports), f);
    Progress(h, p.started + (if r == RunOk then 1 else 0), p.calls + 1)
  }

  function ReconcileOne(p: Progress, seen: Seen, wl: WorkloadSpec, f: StepFaults): Progress {
    if SeenRunning(seen, wl.name) then p
    else if wl.name in seen then
      var (h, r) := StopHost(p.host, wl.name, f.stop);
      var p' := p.(host := h, calls := p.calls + 1);
      if r == StopFailed then p' else StartOne(p', wl, f.run)
    else StartOne(p, wl, f.run)
  }

  function ReconcileAll(h: Host, seen: Seen, desired: seq<WorkloadSpec>, fs: nat -> StepFaults): Progress {
    if desired == [] then Progress(h, 0, 0)
    else ReconcileOne(ReconcileAll(h, seen, desired[..|desired|-1], fs), seen, Last(desired), fs(|desired| - 1))
  }

  method IndexByName(current: seq<Status>) returns (byName: Seen)
    ensures byName == ByName(current)
  {
    byName := map[];
    for i := 0 to |current|
      invariant byName == ByName(current[..i])
    {
      assert current[..i+1][..i] == current[..i];
      byName := byName[current[i].name := current[i]];
    }
    assert current[..|current|] == current;
  }

  /** The body of the loop, for one desired workload; `p` is where the round stands. */
  method ReconcileWorkload(rt: Containerd, byName: Seen, wl: WorkloadSpec, f: StepFaults, ghost p: Progress)
    returns (started: nat, calls: nat)
    requires p.host == rt.View()
    modifies rt
    ensures Progress(rt.View(), p.started + started, p.calls + calls) == ReconcileOne(p, byName, wl, f)
  {
    started, calls := 0, 0;
    if wl.name in byName && byName[wl.name].state == Running {
      return;
    }
    if wl.name in byName {
      var stopped, _ := rt.Stop(wl.name, f.stop);
      calls := 1;
      if stopped == StopFailed {
        return;
      }
    }
    var ports := FromApiPorts(wl.ports);
    var ran := rt.Run(wl.name, wl.image, ports, f.run);
    calls := calls + 1;
    if ran == RunOk {
      started := 1;
    }
  }

  method Reconcile(rt: Containerd, current: seq<Status>, desired: seq<WorkloadSpec>, fs: nat -> StepFaults)
    returns (started: nat, calls: nat)
    modifies rt
    ensures Progress(rt.View(), started, calls) == ReconcileAll(old(rt.View()), ByName(current), desired, fs)
  {
    var byName := IndexByName(current);
    started, calls := 0, 0;
    for i := 0 to |desired|
      invariant Progress(rt.View(), started, calls) == ReconcileAll(old(rt.View()), byName, desired[..i], fs)
    {
      assert desired[..i+1][..i] == desired[..i] && Last(desired[..i+1]) == desired[i];
      var s, n := ReconcileWorkload(rt, byName, desired[i], fs(i), Progress(rt.View(), started, calls));
      started, calls := started + s, calls + n;
    }
    assert desired[..|desired|] == desired;
  }

  // ---------------------------------------------------------------- what it leaves alone

  predicate SameAt(h: Host, h': Host, n: string) {
    && (n in h'.netns <==> n in h.netns)
    && (n in h'.records <==> n in h.records) && (n in h.records ==> h'.records[n] == h.records[n])
    && (n in h'.attached <==> n in h.attached) && (n in h.attached ==> h'.attached[n] == h.attached[n])
    && (n in h'.tasks <==> n in h.tasks) && (n in h.tasks ==> h'.tasks[n] == h.tasks[n])
  }

  lemma ReconcileOneFrame(p: Progress, seen: Seen, wl: WorkloadSpec, f: StepFaults, n: string)
    requires n != wl.name || SeenRunning(seen, n)
    ensures SameAt(p.host, ReconcileOne(p, seen, wl, f).host, n)
  {
    if n != wl.name {
      var ports := Map(FromApi, wl.ports);
      var h1 := StopHost(p.host, wl.name, f.stop).0;
      StopTouchesOnlyItsName(p.host, wl.name, f.stop);
      SameElsewhereAt(p.host, h1, wl.name, n);
      RunTouchesOnlyItsName(p.host, wl.name, wl.image, ports, f.run);
      SameElsewhereAt(p.host, RunHost(p.host, wl.name, wl.image, ports, f.run).0, wl.name, n);
      RunTouchesOnlyItsName(h1, wl.name, wl.image, ports, f.run);
      SameElsewhereAt(h1, RunHost(h1, wl.name, wl.image, ports, f.run).0, wl.name, n);
    }
  }

  /** Under any pattern of errors, a container seen running and a container outside the
      desired names are left exactly as they were. */
  lemma {:induction false} ReconcileLeavesAlone(h: Host, seen: Seen, desired: seq<WorkloadSpec>, fs: nat -> StepFaults, n: string)
    requires SeenRunning(seen, n) || forall i :: 0 <= i < |desired| ==> desired[i].name != n
    ensures SameAt(h, ReconcileAll(h, seen, desired, fs).host, n)
  {
    if desired != [] {
      var init := desired[..|desired|-1];
      ReconcileLeavesAlone(h, seen, init, fs, n);
      ReconcileOneFrame(ReconcileAll(h, seen, init, fs), seen, Last(desired), fs(|desired| - 1), n);
    }
  }

  // ---------------------------------------------------------------- what it achieves

  ghost predicate DistinctNames(desired: seq<WorkloadSpec>) {
    forall i, j :: 0 <= i < j < |desired| ==> desired[i].name != desired[j].name
  }

  /** The listing the agent acts on still tells the truth about a name. */
  predicate Faithful(h: Host, seen: Seen, n: string) {
    && (n in seen <==> n in h.records)
    && (n in h.records ==> seen[n] == StatusOf(h, n))
  }

  function NotRunning(h: Host, desired: seq<WorkloadSpec>): nat {
    if desired == [] then 0
    else NotRunning(h, desired[..|desired|-1]) + (if IsRunning(h, Last(desired).name) then 0 else 1)
  }

  lemma {:induction false} NotRunningFrame(h: Host, h': Host, desired: seq<WorkloadSpec>)
    requires forall i :: 0 <= i < |desired| ==> SameAt(h, h', desired[i].name)
    ensures NotRunning(h', desired) == NotRunning(h, desired)
  {
    if desired != [] {
      NotRunningFrame(h, h', desired[..|desired|-1]);
      assert SameAt(h, h', Last(desired).name);
    }
  }

  /** The container was listed as not running, runs by now, and loses its process to the
      Stop that was meant for a dead one. */
  predicate Interrupts(h: Host, seen: Seen, name: string, f: StopFaults) {
    && name in seen && !SeenRunning(seen, name) && IsRunning(h, name)
    && !f.load && !f.loadTask && ST.OutcomeOf(f.task, false) != ST.TaskKept
  }

  function Interrupted(h: Host, seen: Seen, desired: seq<WorkloadSpec>, fs: nat -> StepFaults): nat {
    if desired == [] then 0
    else
      Interrupted(h, seen, desired[..|desired|-1], fs) +
      (if Interrupts(h, seen, Last(desired).name, fs(|desired| - 1).stop) then 1 else 0)
  }

  function Down(h: Host, name: string): nat {
    if IsRunning(h, name) then 0 else 1
  }

  lemma StopCounts(h: Host, seen: Seen, name: string, f: StopFaults)
    requires (name in h.tasks ==> name in h.records) && name in seen && !SeenRunning(seen, name)
    ensures var (h', r) := StopHost(h, name, f);
            && Down(h', name) == Down(h, name) + (if Interrupts(h, seen, name, f) then 1 else 0)
            && (r != StopFailed ==> !IsRunning(h', name)) && (name in h'.tasks ==> name in h'.records)
  {
  }

  lemma RunCounts(h: Host, name: string, image: string, ports: seq<Port>, f: RunFaults)
    requires name in h.tasks ==> name in h.records
    ensures var (h', r) := RunHost(h, name, image, ports, f);
            Down(h', name) + (if r == RunOk then 1 else 0) == Down(h, name)
  {
    RunSuccess(h, name, image, ports, f);
    if RunHost(h, name, image, ports, f).1 != RunOk {
      FailedRunLeftovers(h, name, image, ports, f);
    }
  }

  lemma ReconcileOneCounts(p: Progress, seen: Seen, wl: WorkloadSpec, f: StepFaults)
    requires wl.name in p.host.tasks ==> wl.name in p.host.records
    ensures var p' := ReconcileOne(p, seen, wl, f);
            Down(p'.host, wl.name) + p'.started
            == Down(p.host, wl.name) + p.started + (if Interrupts(p.host, seen, wl.name, f.stop) then 1 else 0)
  {
    if !SeenRunning(seen, wl.name) {
      var h := p.host;
      if wl.name in seen {
        StopCounts(h, seen, wl.name, f.stop);
        h := StopHost(h, wl.name, f.stop).0;
      }
      RunCounts(h, wl.name, wl.image, Map(FromApi, wl.ports), f.run);
    }
  }

  /** With distinct names, and whatever the listing says and whatever fails, the number of
      desired names that are not running drops by the number of successful Run calls, less
      the containers that the round itself took down. */
  lemma {:induction false} ReconcileCounts(h: Host, seen: Seen, desired: seq<WorkloadSpec>, fs: nat -> StepFaults)
    requires DistinctNames(desired) && TasksOwned(h)
    ensures var p := ReconcileAll(h, seen, desired, fs);
            NotRunning(p.host, desired) + p.started == NotRunning(h, desired) + Interrupted(h, seen, desired, fs)
  {
    if desired != [] {
      var init, wl := desired[..|desired|-1], Last(desired);
      var p := ReconcileAll(h, seen, init, fs);
      var p' := ReconcileOne(p, seen, wl, fs(|desired| - 1));
      ReconcileCounts(h, seen, init, fs);
      ReconcileLeavesAlone(h, seen, init, fs, wl.name);
      assert SameAt(h, p.host, wl.name);
      ReconcileOneCounts(p, seen, wl, fs(|desired| - 1));
      forall i | 0 <= i < |init|
        ensures SameAt(p.host, p'.host, init[i].name)
      {
        ReconcileOneFrame(p, seen, wl, fs(|desired| - 1), init[i].name);
      }
      NotRunningFrame(p.host, p'.host, init);
    }
  }

  /** No container that was listed as not running has come to run since. */
  ghost predicate NoneCameUp(h: Host, seen: Seen, desired: seq<WorkloadSpec>) {
    forall i :: 0 <= i < |desired| && desired[i].name in seen && !SeenRunning(seen, desired[i].name) ==> !IsRunning(h, desired[i].name)
  }

  lemma {:induction false} InterruptedAt(h: Host, seen: Seen, desired: seq<WorkloadSpec>, fs: nat -> StepFaults)
    ensures Interrupted(h, seen, desired, fs) == 0
        <==> forall i :: 0 <= i < |desired| ==> !Interrupts(h, seen, desired[i].name, fs(i).stop)
  {
    if desired != [] {
      var init := desired[..|desired|-1];
      InterruptedAt(h, seen, init, fs);
      assert forall i :: 0 <= i < |init| ==> init[i] == desired[i];
      assert Last(desired) == desired[|desired|-1];
    }
  }

  const NO_STOP_FAULTS :=
    StopFaults(false, false, ST.Schedule(0, false, false, false, Some(0), None, false, false, None, false), false, false, false)

  const NO_STEP_FAULTS := StepFaults(NO_STOP_FAULTS, NO_RUN_FAULTS)

  /** The drop equals the number of successful Run calls. */
  ghost predicate Balanced(h: Host, seen: Seen, desired: seq<WorkloadSpec>, fs: nat -> StepFaults) {
    var p := ReconcileAll(h, seen, desired, fs);
    NotRunning(p.host, desired) + p.started == NotRunning(h, desired)
  }

  /** It does for every pattern of errors exactly when no container listed as not running has
      come to run since; containers that died since do not matter. */
  lemma ReconcileCountsExactly(h: Host, seen: Seen, desired: seq<WorkloadSpec>)
    requires DistinctNames(desired) && TasksOwned(h)
    ensures (forall fs: nat -> StepFaults :: Balanced(h, seen, desired, fs)) <==> NoneCameUp(h, seen, desired)
  {
    forall fs: nat -> StepFaults
      ensures Balanced(h, seen, desired, fs) <==> forall i :: 0 <= i < |desired| ==> !Interrupts(h, seen, desired[i].name, fs(i).stop)
    {
      ReconcileCounts(h, seen, desired, fs);
      InterruptedAt(h, seen, desired, fs);
    }
    if i :| 0 <= i < |desired| && desired[i].name in seen && !SeenRunning(seen, desired[i].name) && IsRunning(h, desired[i].name) {
      var fs := (_: nat) => NO_STEP_FAULTS;
      assert Interrupts(h, seen, desired[i].name, fs(i).stop);
      assert !Balanced(h, seen, desired, fs);
    }
  }

  /** The input that breaks it: a container listed as Unknown, because its process was not
      started yet or was paused, and running when the loop acts. A round without any fault
      takes it down and starts it again, and the one successful Run gains nothing. */
  lemma ComingUpBreaksTheCount(h: Host, name: string, image: string, pid: nat)
    requires h == Host({name}, map[name := Record(image, [])], map[name := []], map[name := Task(pid, Live)])
    ensures var p := ReconcileAll(h, map[name := Status(name, image, Unknown, pid, [])], [WorkloadSpec(name, image, [])],
                                  (_: nat) => NO_STEP_FAULTS);
            && p.started == 1 && p.calls == 2
            && NotRunning(h, [WorkloadSpec(name, image, [])]) == 0 && NotRunning(p.host, [WorkloadSpec(name, image, [])]) == 0
  {
    var wl := WorkloadSpec(name, image, []);
    var seen := map[name := Status(name, image, Unknown, pid, [])];
    assert [wl][..0] == [];
    assert Last([wl]) == wl;
    var start := Progress(h, 0, 0);
    var fs := (_: nat) => NO_STEP_FAULTS;
    assert ReconcileAll(h, seen, [], fs) == start;
    var h1 := StopHost(h, name, NO_STOP_FAULTS).0;
    assert Gone(h1, name) && StopHost(h, name, NO_STOP_FAULTS).1 == StopOk;
    RunSuccess(h1, name, image, Map(FromApi, wl.ports), NO_RUN_FAULTS);
    assert IsRunning(ReconcileOne(start, seen, wl, NO_STEP_FAULTS).host, name);
  }

  ghost predicate AllSmooth(fs: nat -> StepFaults) {
    forall i :: fs(i).stop.Smooth() && fs(i).run.Smooth()
  }

  /** What a fault-free iteration leaves for its workload. */
  ghost predicate Settled(h: Host, h': Host, wl: WorkloadSpec) {
    if IsRunning(h, wl.name) then SameAt(h, h', wl.name)
    else Whole(h', wl.name, wl.image, Map(FromApi, wl.ports))
  }

  lemma ReconcileOneSettles(p: Progress, seen: Seen, wl: WorkloadSpec, f: StepFaults)
    requires Faithful(p.host, seen, wl.name) && OrphanFree(p.host, wl.name)
    requires f.stop.Smooth() && f.run.Smooth()
    ensures Settled(p.host, ReconcileOne(p, seen, wl, f).host, wl)
  {
    if !SeenRunning(seen, wl.name) {
      var h := p.host;
      if wl.name in seen {
        StopReleases(h, wl.name, f.stop);
        h := StopHost(h, wl.name, f.stop).0;
      }
      RunSuccess(h, wl.name, wl.image, Map(FromApi, wl.ports), f.run);
    }
  }

  /** Convergence of one round: if no call fails and no desired name has an orphan, every
      desired workload ends up running, and those that had to be started run the desired
      image with the desired ports and all four resources. */
  lemma {:induction false} ReconcileConverges(h: Host, seen: Seen, desired: seq<WorkloadSpec>, fs: nat -> StepFaults)
    requires DistinctNames(desired) && AllSmooth(fs)
    requires forall i :: 0 <= i < |desired| ==> Faithful(h, seen, desired[i].name) && OrphanFree(h, desired[i].name)
    ensures var h' := ReconcileAll(h, seen, desired, fs).host;
            forall i :: 0 <= i < |desired| ==> Settled(h, h', desired[i]) && IsRunning(h', desired[i].name)
  {
    if desired != [] {
      var init, wl := desired[..|desired|-1], Last(desired);
      var p := ReconcileAll(h, seen, init, fs);
      var p' := ReconcileOne(p, seen, wl, fs(|desired| - 1));
      ReconcileConverges(h, seen, init, fs);
      ReconcileLeavesAlone(h, seen, init, fs, wl.name);
      assert Faithful(h, seen, wl.name) && OrphanFree(h, wl.name) && SameAt(h, p.host, wl.name);
      ReconcileOneSettles(p, seen, wl, fs(|desired| - 1));
      forall i | 0 <= i < |init|
        ensures Settled(h, p'.host, desired[i]) && IsRunning(p'.host, desired[i].name)
      {
        assert init[i] == desired[i] && desired[i].name != wl.name;
        assert Settled(h, p.host, init[i]) && IsRunning(p.host, init[i].name);
        ReconcileOneFrame(p, seen, wl, fs(|desired| - 1), init[i].name);
      }
    }
  }

  /** The loop compares names and running state only: after a fault-free round a desired name
      has the desired image and ports exactly when it was not running before or had them
      already. */
  lemma RecordAfterRound(h: Host, seen: Seen, desired: seq<WorkloadSpec>, fs: nat -> StepFaults, i: nat)
    requires DistinctNames(desired) && AllSmooth(fs) && i < |desired|
    requires forall i :: 0 <= i < |desired| ==> Faithful(h, seen, desired[i].name) && OrphanFree(h, desired[i].name)
    ensures var h', wl := ReconcileAll(h, seen, desired, fs).host, desired[i];
            && wl.name in h'.records
            && (h'.records[wl.name] == Record(wl.image, Map(FromApi, wl.ports))
                <==> !IsRunning(h, wl.name) || h.records[wl.name] == Record(wl.image, Map(FromApi, wl.ports)))
  {
    ReconcileConverges(h, seen, desired, fs);
    assert Settled(h, ReconcileAll(h, seen, desired, fs).host, desired[i]);
  }

  /** Whatever the listing says, by the time the loop acts: what a fault-free iteration finds
      to do. It passes over a container that has died since it was seen running, and over one
      that has appeared since and does not run. */
  predicate PassedOver(h: Host, seen: Seen, n: string) {
    !IsRunning(h, n) && (SeenRunning(seen, n) || (n !in seen && n in h.records))
  }

  lemma ReconcileOneStartsExactly(p: Progress, seen: Seen, wl: WorkloadSpec, f: StepFaults)
    requires OrphanFree(p.host, wl.name) && f.stop.Smooth() && f.run.Smooth()
    ensures IsRunning(ReconcileOne(p, seen, wl, f).host, wl.name) <==> !PassedOver(p.host, seen, wl.name)
  {
    if !SeenRunning(seen, wl.name) {
      var h := p.host;
      if wl.name in seen {
        StopReleases(h, wl.name, f.stop);
        h := StopHost(h, wl.name, f.stop).0;
        assert Gone(h, wl.name);
      }
      RunSuccess(h, wl.name, wl.image, Map(FromApi, wl.ports), f.run);
      if RunHost(h, wl.name, wl.image, Map(FromApi, wl.ports), f.run).1 != RunOk {
        FailedRunLeftovers(h, wl.name, wl.image, Map(FromApi, wl.ports), f.run);
      }
    }
  }

  lemma SameAtSame(h: Host, h': Host, seen: Seen, n: string)
    requires SameAt(h, h', n)
    ensures IsRunning(h', n) <==> IsRunning(h, n)
    ensures OrphanFree(h', n) <==> OrphanFree(h, n)
    ensures PassedOver(h', seen, n) <==> PassedOver(h, seen, n)
  {
  }

  /** Exactly which desired workloads run after a fault-free round on an outdated listing. */
  lemma {:induction false} ReconcileStartsExactly(h: Host, seen: Seen, desired: seq<WorkloadSpec>, fs: nat -> StepFaults, i: nat)
    requires DistinctNames(desired) && AllSmooth(fs) && i < |desired| && OrphanFree(h, desired[i].name)
    ensures IsRunning(ReconcileAll(h, seen, desired, fs).host, desired[i].name) <==> !PassedOver(h, seen, desired[i].name)
  {
    var init, wl, n := desired[..|desired|-1], Last(desired), desired[i].name;
    var p, f := ReconcileAll(h, seen, init, fs), fs(|desired| - 1);
    if i == |init| {
      ReconcileLeavesAlone(h, seen, init, fs, n);
      SameAtSame(h, p.host, seen, n);
      ReconcileOneStartsExactly(p, seen, wl, f);
    } else {
      ReconcileStartsExactly(h, seen, init, fs, i);
      ReconcileOneFrame(p, seen, wl, f, n);
      SameAtSame(p.host, ReconcileOne(p, seen, wl, f).host, seen, n);
    }
  }

  // ---------------------------------------------------------------- failing rounds do no lasting harm

  ghost predicate NoOrphans(h: Host) {
    forall n :: OrphanFree(h, n)
  }

  lemma OrphanFreeElsewhere(h: Host, h': Host, name: string)
    requires NoOrphans(h) && SameElsewhere(h, h', name) && OrphanFree(h', name)
    ensures NoOrphans(h')
  {
    forall n
      ensures OrphanFree(h', n)
    {
      if n != name {
        assert OrphanFree(h, n);
        SameElsewhereAt(h, h', name, n);
      }
    }
  }

  lemma StopKeepsNoOrphans(h: Host, name: string, f: StopFaults)
    requires NoOrphans(h)
    ensures NoOrphans(StopHost(h, name, f).0)
  {
    StopKeepsOrphanFree(h, name, f);
    StopTouchesOnlyItsName(h, name, f);
    OrphanFreeElsewhere(h, StopHost(h, name, f).0, name);
  }

  lemma RunKeepsNoOrphans(h: Host, name: string, image: string, ports: seq<Port>, f: RunFaults)
    requires NoOrphans(h) && !f.Leaks()
    ensures NoOrphans(RunHost(h, name, image, ports, f).0)
  {
    RunOrphansExactly(h, name, image, ports, f);
    RunTouchesOnlyItsName(h, name, image, ports, f);
    OrphanFreeElsewhere(h, RunHost(h, name, image, ports, f).0, name);
  }

  lemma ReconcileOneKeepsNoOrphans(p: Progress, seen: Seen, wl: WorkloadSpec, f: StepFaults)
    requires NoOrphans(p.host) && !f.run.Leaks()
    ensures NoOrphans(ReconcileOne(p, seen, wl, f).host)
  {
    var ports := Map(FromApi, wl.ports);
    StopKeepsNoOrphans(p.host, wl.name, f.stop);
    RunKeepsNoOrphans(p.host, wl.name, wl.image, ports, f.run);
    RunKeepsNoOrphans(StopHost(p.host, wl.name, f.stop).0, wl.name, wl.image, ports, f.run);
  }

  /** Whatever fails, a round leaves no orphan if none of its failing Runs leaks. */
  lemma {:induction false} ReconcileKeepsNoOrphans(h: Host, seen: Seen, desired: seq<WorkloadSpec>, fs: nat -> StepFaults)
    requires NoOrphans(h) && forall i :: 0 <= i < |desired| ==> !fs(i).run.Leaks()
    ensures NoOrphans(ReconcileAll(h, seen, desired, fs).host)
  {
    if desired != [] {
      var init := desired[..|desired|-1];
      ReconcileKeepsNoOrphans(h, seen, init, fs);
      ReconcileOneKeepsNoOrphans(ReconcileAll(h, seen, init, fs), seen, Last(desired), fs(|init|));
    }
  }

  /** What may happen to a host: a round on whatever listing and reply, or a process that
      exits. */
  datatype Happening = Round(seen: Seen, desired: seq<WorkloadSpec>, fs: nat -> StepFaults) | Exits(name: string)

  function Happen(h: Host, e: Happening): Host {
    match e
    case Round(seen, desired, fs) => ReconcileAll(h, seen, desired, fs).host
    case Exits(name) => HostStep(h, OpExit(name))
  }

  function HappenAll(h: Host, es: seq<Happening>): Host {
    if es == [] then h else Happen(HappenAll(h, es[..|es|-1]), Last(es))
  }

  ghost predicate NothingLeaks(e: Happening) {
    e.Round? ==> forall i :: 0 <= i < |e.desired| ==> !e.fs(i).run.Leaks()
  }

  ghost predicate TidyRound(e: Happening) {
    e.Round? ==> forall i :: 0 <= i < |e.desired| ==> e.fs(i).run.Tidy()
  }

  /** Successful cleanup is enough. */
  lemma TidyRoundsDoNotLeak(e: Happening)
    requires TidyRound(e)
    ensures NothingLeaks(e)
  {
    if e.Round? {
      forall i | 0 <= i < |e.desired|
        ensures !e.fs(i).run.Leaks()
      {
        TidyDoesNotLeak(e.fs(i).run);
      }
    }
  }

  lemma {:induction false} HappeningsKeepNoOrphans(h: Host, es: seq<Happening>)
    requires NoOrphans(h) && forall i :: 0 <= i < |es| ==> NothingLeaks(es[i])
    ensures NoOrphans(HappenAll(h, es))
  {
    if es != [] {
      HappeningsKeepNoOrphans(h, es[..|es|-1]);
      var h1, e := HappenAll(h, es[..|es|-1]), Last(es);
      assert NothingLeaks(e);
      if e.Round? {
        ReconcileKeepsNoOrphans(h1, e.seen, e.desired, e.fs);
      } else {
        forall n
          ensures OrphanFree(Happen(h1, e), n)
        {
          assert OrphanFree(h1, n);
        }
      }
    }
  }

  /** Convergence after trouble: after any number of rounds, failing as they may without
      leaking, and any number of crashes, one fault-free round on a fresh listing starts
      every desired workload. */
  lemma ConvergesAfterFailures(h: Host, es: seq<Happening>, current: seq<Status>, desired: seq<WorkloadSpec>, fs: nat -> StepFaults)
    requires NoOrphans(h) && forall i :: 0 <= i < |es| ==> NothingLeaks(es[i])
    requires IsListing(HappenAll(h, es), current) && DistinctNames(desired) && AllSmooth(fs)
    ensures var h' := ReconcileAll(HappenAll(h, es), ByName(current), desired, fs).host;
            forall i :: 0 <= i < |desired| ==> IsRunning(h', desired[i].name) && Settled(HappenAll(h, es), h', desired[i])
  {
    HappeningsKeepNoOrphans(h, es);
    forall i | 0 <= i < |desired|
      ensures Faithful(HappenAll(h, es), ByName(current), desired[i].name) && OrphanFree(HappenAll(h, es), desired[i].name)
    {
      ListingIsFaithful(HappenAll(h, es), current, desired[i].name);
    }
    ReconcileConverges(HappenAll(h, es), ByName(current), desired, fs);
  }

  /** The same in terms of what each failing Run did: whatever failed, its cleanup calls
      succeeded. */
  lemma ConvergesAfterTidyFailures(h: Host, es: seq<Happening>, current: seq<Status>, desired: seq<WorkloadSpec>, fs: nat -> StepFaults)
    requires NoOrphans(h)
    requires forall i :: 0 <= i < |es| ==> TidyRound(es[i])
    requires IsListing(HappenAll(h, es), current) && DistinctNames(desired) && AllSmooth(fs)
    ensures var h' := ReconcileAll(HappenAll(h, es), ByName(current), desired, fs).host;
            forall i :: 0 <= i < |desired| ==> IsRunning(h', desired[i].name) && Settled(HappenAll(h, es), h', desired[i])
  {
    forall i | 0 <= i < |es|
      ensures NothingLeaks(es[i])
    {
      assert TidyRound(es[i]);
      TidyRoundsDoNotLeak(es[i]);
    }
    ConvergesAfterFailures(h, es, current, desired, fs);
  }

  /** A round that sees everything running makes no runtime call. */
  lemma {:induction false} ReconcileIdle(h: Host, seen: Seen, desired: seq<WorkloadSpec>, fs: nat -> StepFaults)
    requires forall i :: 0 <= i < |desired| ==> SeenRunning(seen, desired[i].name)
    ensures ReconcileAll(h, seen, desired, fs) == Progress(h, 0, 0)
  {
    if desired != [] {
      ReconcileIdle(h, seen, desired[..|desired|-1], fs);
    }
  }

  /** An entry of the map is the last status of its name. */
  lemma {:induction false} ByNameLast(current: seq<Status>, i: nat)
    requires i < |current| && forall j :: i < j < |current| ==> current[j].name != current[i].name
    ensures current[i].name in ByName(current) && ByName(current)[current[i].name] == current[i]
  {
    if i < |current| - 1 {
      ByNameLast(current[..|current|-1], i);
    }
  }

  /** Building the map from a listing of the host gives a faithful view of every name. */
  lemma {:induction false} ByNameAt(current: seq<Status>, n: string)
    requires forall i, j :: 0 <= i < j < |current| ==> current[i].name != current[j].name
    ensures n in ByName(current) <==> exists i :: 0 <= i < |current| && current[i].name == n
    ensures forall i :: 0 <= i < |current| && current[i].name == n ==> n in ByName(current) && ByName(current)[n] == current[i]
  {
    if current != [] {
      var init := current[..|current|-1];
      ByNameAt(init, n);
      assert Last(current) == current[|current|-1];
      assert forall i :: 0 <= i < |init| ==> init[i] == current[i];
    }
  }

  lemma ListingIsFaithful(h: Host, current: seq<Status>, n: string)
    requires IsListing(h, current)
    ensures Faithful(h, ByName(current), n)
  {
    ByNameAt(current, n);
  }
}
