/** The in-memory runtime (internal/runtime/fake.go), and the proof that Containerd behaves
    like it. */
module FakeRuntime {
  import opened Types
  import opened Runtime

  type Containers = map<string, Status>

  datatype FakeOp =
    | FakeRun(name: string, image: string, ports: seq<Port>)
    | FakeStop(name: string)
    | FakeCrash(name: string)
    | FakeIdle

  /** One operation on the map, and whether it returned nil. */
  function FakeStep(m: Containers, op: FakeOp): (Containers, bool) {
    match op
    case FakeRun(name, image, ports) =>
      if name in m then (m, false) else (m[name := Status(name, image, Running, 1, ports)], true)
    case FakeStop(name) => if name !in m then (m, false) else (m - {name}, true)
    case FakeCrash(name) => if name !in m then (m, true) else (m[name := m[name].(state := Stopped, pid := 0)], true)
    case FakeIdle => (m, true)
  }

  /** A refused operation changes nothing; a granted one changes its own name only. */
  lemma FakeStepExactly(m: Containers, op: FakeOp)
    ensures op.FakeRun? ==> (FakeStep(m, op).1 <==> op.name !in m)
    ensures op.FakeStop? ==> (FakeStep(m, op).1 <==> op.name in m)
    ensures !FakeStep(m, op).1 || op.FakeIdle? ==> FakeStep(m, op).0 == m
    ensures op.FakeRun? && op.name !in m ==>
              op.name in FakeStep(m, op).0 && FakeStep(m, op).0[op.name] == Status(op.name, op.image, Running, 1, op.ports)
    ensures op.FakeStop? ==> op.name !in FakeStep(m, op).0
    ensures op.FakeCrash? && op.name in m ==> FakeStep(m, op).0[op.name] == m[op.name].(state := Stopped, pid := 0)
    ensures forall n :: !op.FakeIdle? && n != op.name ==>
              (n in FakeStep(m, op).0 <==> n in m) && (n in m ==> FakeStep(m, op).0[n] == m[n])
  {
  }

  class Fake {
    var containers: Containers
    var pulled: set<string>
    var pullErr: bool

    constructor ()
      ensures containers == map[] && pulled == {} && !pullErr
    {
      containers, pulled, pullErr := map[], {}, false;
    }

    method Pull(image: string) returns (ok: bool)
      modifies this`pulled
      ensures ok == !pullErr
      ensures pulled == if ok then old(pulled) + {image} else old(pulled)
    {
      if pullErr {
        return false;
      }
      pulled := pulled + {image};
      return true;
    }

    method Run(name: string, image: string, ports: seq<Port>) returns (ok: bool)
      modifies this`pulled, this`containers
      ensures pullErr ==> !ok && containers == old(containers) && pulled == old(pulled)
      ensures !pullErr ==> (containers, ok) == FakeStep(old(containers), FakeRun(name, image, ports))
      ensures ok <==> !pullErr && name !in old(containers)
      ensures containers == if ok then old(containers)[name := Status(name, image, Running, 1, ports)] else old(containers)
      ensures !pullErr ==> pulled == old(pulled) + {image}
    {
      ok := Pull(image);
      if !ok {
        return;
      }
      if name in containers {
        return false;
      }
      containers := containers[name := Status(name, image, Running, 1, ports)];
    }

    method Stop(name: string) returns (ok: bool)
      modifies this`containers
      ensures (containers, ok) == FakeStep(old(containers), FakeStop(name))
      ensures ok <==> name in old(containers)
      ensures name !in containers && forall n :: n != name ==>
                (n in containers <==> n in old(containers)) && (n in containers ==> containers[n] == old(containers)[n])
    {
      if name !in containers {
        return false;
      }
      containers := containers - {name};
      return true;
    }

    method SimulateCrash(name: string)
      modifies this`containers
      ensures containers == FakeStep(old(containers), FakeCrash(name)).0
      ensures containers.Keys == old(containers).Keys
      ensures forall n :: n in containers && n != name ==> containers[n] == old(containers)[n]
      ensures name in containers ==> containers[name] == old(containers)[name].(state := Stopped, pid := 0)
    {
      if name in containers {
        containers := containers[name := containers[name].(state := Stopped, pid := 0)];
      }
    }
  }

  // ---------------------------------------------------------------- refinement

  /** Operations of the real runtime; a process may also exit on its own. */
  datatype Op =
    | OpRun(name: string, image: string, ports: seq<Port>, run: RunFaults)
    | OpStop(name: string, stop: StopFaults)
    | OpExit(name: string)

  function HostStep(h: Host, op: Op): Host {
    match op
    case OpRun(name, image, ports, f) => RunHost(h, name, image, ports, f).0
    case OpStop(name, f) => StopHost(h, name, f).0
    case OpExit(name) =>
      if name in h.tasks then h.(tasks := h.tasks[name := h.tasks[name].(status := Exited)]) else h
  }

  /** The Fake operation that a real one amounts to. A failed Run amounts to nothing; a
      failed Stop amounts to a crash when it reached the process, and to nothing otherwise. */
  function Mirror(h: Host, op: Op): FakeOp {
    match op
    case OpRun(name, image, ports, f) =>
      if RunHost(h, name, image, ports, f).1 == RunOk then FakeRun(name, image, ports) else FakeIdle
    case OpStop(name, f) =>
      var (h', r) := StopHost(h, name, f);
      if r == StopOk || r == StopNotFound then FakeStop(name)
      else if h'.tasks == h.tasks then FakeIdle
      else FakeCrash(name)
    case OpExit(name) => if name in h.tasks then FakeCrash(name) else FakeIdle
  }

  /** The same containers with the same image, ports and state; process ids are not compared. */
  predicate Agrees(h: Host, m: Containers) {
    && m.Keys == h.records.Keys
    && forall n :: n in h.records ==> m[n].(pid := 0) == StatusOf(h, n).(pid := 0)
  }

  /** A task belongs to a container. */
  predicate TasksOwned(h: Host) {
    h.tasks.Keys <= h.records.Keys
  }

  /** A Run that fails without being able to take its record back. */
  predicate LeavesRecord(h: Host, name: string, f: RunFaults) {
    && ReachesSetup(h, name, f)
    && (f.cut || f.setup || f.mkdir || f.newTask || f.start)
    && (f.cut || f.undoRecord || (!f.setup && !f.mkdir && !f.newTask && f.undoTask))
  }

  /** The operation takes back whatever record it made in vain. */
  predicate CleanOp(h: Host, op: Op) {
    op.OpRun? ==> !LeavesRecord(h, op.name, op.run)
  }

  lemma TidyRunIsClean(h: Host, name: string, f: RunFaults)
    requires f.Tidy()
    ensures !LeavesRecord(h, name, f)
  {
  }

  lemma TasksStayOwned(h: Host, op: Op)
    requires TasksOwned(h)
    ensures TasksOwned(HostStep(h, op))
  {
    var h' := HostStep(h, op);
    forall n | n in h'.tasks
      ensures n in h'.records
    {
      match op
      case OpRun(name, image, ports, f) =>
        RunTouchesOnlyItsName(h, name, image, ports, f);
        if n != name {
          SameElsewhereAt(h, h', name, n);
        } else if RunHost(h, name, image, ports, f).1 != RunOk {
          FailedRunLeftovers(h, name, image, ports, f);
        }
      case OpStop(name, f) =>
        StopTouchesOnlyItsName(h, name, f);
        if n != name {
          SameElsewhereAt(h, h', name, n);
        } else {
          StopReleases(h, name, f);
        }
      case OpExit(name) =>
    }
  }

  /** It is enough to look at the name that was touched. */
  lemma AgreesFrom(h: Host, h': Host, m: Containers, m': Containers, name: string)
    requires Agrees(h, m) && SameElsewhere(h, h', name)
    requires forall n :: n != name ==> (n in m' <==> n in m) && (n in m ==> m'[n] == m[n])
    requires name in m' <==> name in h'.records
    requires name in m' ==> m'[name].(pid := 0) == StatusOf(h', name).(pid := 0)
    ensures Agrees(h', m')
  {
    forall n
      ensures n in m' <==> n in h'.records
      ensures n in h'.records ==> m'[n].(pid := 0) == StatusOf(h', n).(pid := 0)
    {
      if n != name {
        SameElsewhereAt(h, h', name, n);
      }
    }
  }

  /** What a failed Run leaves of its own name, as a Fake would show it. */
  lemma FailedRunSeen(h: Host, name: string, image: string, ports: seq<Port>, f: RunFaults)
    requires TasksOwned(h) && RunHost(h, name, image, ports, f).1 != RunOk
    ensures var h' := RunHost(h, name, image, ports, f).0;
            && (LeavesRecord(h, name, f) ==> name !in h.records && name in h'.records && StatusOf(h', name).state != Running)
            && (!LeavesRecord(h, name, f) ==>
                  && (name in h'.records <==> name in h.records)
                  && (name in h.records ==> StatusOf(h', name) == StatusOf(h, name)))
  {
  }

  /** A Run that succeeds is the Fake's Run; one that fails and takes its record back is no
      change at all. */
  lemma RunRefines(h: Host, m: Containers, name: string, image: string, ports: seq<Port>, f: RunFaults)
    requires Agrees(h, m) && TasksOwned(h) && !LeavesRecord(h, name, f)
    ensures var op := OpRun(name, image, ports, f);
            Agrees(HostStep(h, op), FakeStep(m, Mirror(h, op)).0) && FakeStep(m, Mirror(h, op)).1
  {
    var (h', r) := RunHost(h, name, image, ports, f);
    RunTouchesOnlyItsName(h, name, image, ports, f);
    RunSuccess(h, name, image, ports, f);
    if r != RunOk {
      FailedRunSeen(h, name, image, ports, f);
    }
    var m' := FakeStep(m, Mirror(h, OpRun(name, image, ports, f))).0;
    AgreesFrom(h, h', m, m', name);
  }

  /** A Run that leaves its record behind is no operation of the Fake: the container it shows
      is new and does not run. */
  lemma LeftRecordDoesNotRefine(h: Host, m: Containers, name: string, image: string, ports: seq<Port>, f: RunFaults, op: FakeOp)
    requires Agrees(h, m) && TasksOwned(h) && LeavesRecord(h, name, f)
    ensures !Agrees(RunHost(h, name, image, ports, f).0, FakeStep(m, op).0)
  {
    RunSuccess(h, name, image, ports, f);
    FailedRunSeen(h, name, image, ports, f);
    var h' := RunHost(h, name, image, ports, f).0;
    var m' := FakeStep(m, op).0;
    assert name !in m;
    assert name in m' ==> m'[name].state == Running;
    assert name in h'.records && StatusOf(h', name).(pid := 0).state != Running;
  }

  /** A Run is an operation of the Fake exactly when it does not fail with its record left
      behind; a cleanup that fails elsewhere does not show. */
  lemma RunRefinesExactly(h: Host, m: Containers, name: string, image: string, ports: seq<Port>, f: RunFaults)
    requires Agrees(h, m) && TasksOwned(h)
    ensures (exists op: FakeOp :: Agrees(RunHost(h, name, image, ports, f).0, FakeStep(m, op).0)) <==> !LeavesRecord(h, name, f)
  {
    if LeavesRecord(h, name, f) {
      forall op: FakeOp
        ensures !Agrees(RunHost(h, name, image, ports, f).0, FakeStep(m, op).0)
      {
        LeftRecordDoesNotRefine(h, m, name, image, ports, f, op);
      }
    } else {
      RunRefines(h, m, name, image, ports, f);
      assert Agrees(RunHost(h, name, image, ports, f).0, FakeStep(m, Mirror(h, OpRun(name, image, ports, f))).0);
    }
  }

  /** What a Stop leaves of the container it was called for, as a Fake shows it. */
  lemma StopSeen(h: Host, name: string, f: StopFaults)
    requires TasksOwned(h) && name in h.records
    ensures var (h', r) := StopHost(h, name, f);
            && (r == StopOk <==> name !in h'.records)
            && (r != StopOk && h'.tasks == h.tasks ==> StatusOf(h', name) == StatusOf(h, name))
            && (r != StopOk && h'.tasks != h.tasks ==>
                  StatusOf(h', name).(pid := 0) == StatusOf(h, name).(state := Stopped, pid := 0))
  {
  }

  lemma StopRefines(h: Host, m: Containers, name: string, f: StopFaults)
    requires Agrees(h, m) && TasksOwned(h)
    ensures var op := OpStop(name, f);
            && Agrees(HostStep(h, op), FakeStep(m, Mirror(h, op)).0)
            && (StopHost(h, name, f).1 == StopOk ==> FakeStep(m, Mirror(h, op)).1)
            && (StopHost(h, name, f).1 == StopNotFound ==> !FakeStep(m, Mirror(h, op)).1)
  {
    var (h', r) := StopHost(h, name, f);
    StopTouchesOnlyItsName(h, name, f);
    if name in h.records {
      StopSeen(h, name, f);
      var m' := FakeStep(m, Mirror(h, OpStop(name, f))).0;
      AgreesFrom(h, h', m, m', name);
    }
  }

  function HostRun(h: Host, ops: seq<Op>): Host
    decreases |ops|
  {
    if ops == [] then h else HostRun(HostStep(h, ops[0]), ops[1..])
  }

  function FakeRunOf(h: Host, m: Containers, ops: seq<Op>): Containers
    decreases |ops|
  {
    if ops == [] then m else FakeRunOf(HostStep(h, ops[0]), FakeStep(m, Mirror(h, ops[0])).0, ops[1..])
  }

  /** No operation of the sequence leaves a record behind. */
  predicate CleanRun(h: Host, ops: seq<Op>)
    decreases |ops|
  {
    ops == [] || (CleanOp(h, ops[0]) && CleanRun(HostStep(h, ops[0]), ops[1..]))
  }

  /** Containerd and the Fake agree now and after every operation. */
  predicate InStep(h: Host, m: Containers, ops: seq<Op>)
    decreases |ops|
  {
    && Agrees(h, m)
    && (ops == [] || InStep(HostStep(h, ops[0]), FakeStep(m, Mirror(h, ops[0])).0, ops[1..]))
  }

  lemma OpRefines(h: Host, m: Containers, op: Op)
    requires Agrees(h, m) && TasksOwned(h)
    ensures Agrees(HostStep(h, op), FakeStep(m, Mirror(h, op)).0) <==> CleanOp(h, op)
  {
    match op
    case OpRun(name, image, ports, f) =>
      if LeavesRecord(h, name, f) {
        LeftRecordDoesNotRefine(h, m, name, image, ports, f, Mirror(h, op));
      } else {
        RunRefines(h, m, name, image, ports, f);
      }
    case OpStop(name, f) => StopRefines(h, m, name, f);
    case OpExit(name) =>
  }

  /** Over every sequence of calls and process exits, Containerd stays in step with a Fake
      that receives the mirrored operations if and only if no failing Run leaves its record
      behind. */
  lemma {:induction false} ContainerdRefinesFake(h: Host, m: Containers, ops: seq<Op>)
    requires Agrees(h, m) && TasksOwned(h)
    ensures InStep(h, m, ops) <==> CleanRun(h, ops)
    decreases |ops|
  {
    if ops != [] {
      TasksStayOwned(h, ops[0]);
      OpRefines(h, m, ops[0]);
      if CleanOp(h, ops[0]) {
        ContainerdRefinesFake(HostStep(h, ops[0]), FakeStep(m, Mirror(h, ops[0])).0, ops[1..]);
      } else {
        assert !Agrees(HostStep(h, ops[0]), FakeStep(m, Mirror(h, ops[0])).0);
      }
    }
  }

  /** Successful cleanup is enough. */
  lemma {:induction false} TidyRunsAreClean(h: Host, ops: seq<Op>)
    requires forall i :: 0 <= i < |ops| ==> ops[i].OpRun? ==> ops[i].run.Tidy()
    ensures CleanRun(h, ops)
    decreases |ops|
  {
    if ops != [] {
      if ops[0].OpRun? {
        TidyRunIsClean(h, ops[0].name, ops[0].run);
      }
      TidyRunsAreClean(HostStep(h, ops[0]), ops[1..]);
    }
  }

  /** Some Run does leave its record behind, on an empty host already. */
  lemma UntidyRunDoesNotRefine(name: string, image: string, ports: seq<Port>)
    ensures exists f: RunFaults ::
              && RunHost(EMPTY_HOST, name, image, ports, f).1 == RunFailed
              && forall op: FakeOp :: !Agrees(RunHost(EMPTY_HOST, name, image, ports, f).0, FakeStep(map[], op).0)
  {
    var f := RunFaults(false, false, false, false, false, false, false, false, true, false, false, true, false, 1);
    forall op: FakeOp
      ensures !Agrees(RunHost(EMPTY_HOST, name, image, ports, f).0, FakeStep(map[], op).0)
    {
      LeftRecordDoesNotRefine(EMPTY_HOST, map[], name, image, ports, f, op);
    }
    assert RunHost(EMPTY_HOST, name, image, ports, f).1 == RunFailed;
  }

  /** When no call fails, both succeed or both refuse: always for Stop, and for Run exactly
      when no leftover without record is in its way. */
  lemma SameAnswers(h: Host, m: Containers, name: string, image: string, ports: seq<Port>, run: RunFaults, stop: StopFaults)
    requires Agrees(h, m) && run.Smooth() && stop.Smooth()
    ensures (RunHost(h, name, image, ports, run).1 == RunOk <==> FakeStep(m, FakeRun(name, image, ports)).1)
        <==> name in h.records || Startable(h, name)
    ensures OrphanFree(h, name) ==> name in h.records || Startable(h, name)
    ensures StopHost(h, name, stop).1 == StopOk <==> FakeStep(m, FakeStop(name)).1
  {
    RunSuccess(h, name, image, ports, run);
    StopReleases(h, name, stop);
  }
}
