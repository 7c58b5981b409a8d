/** The container runtime of one machine (internal/runtime/containerd.go and network.go).
    A container owns four resources, all keyed by its name: a network namespace, a container
    record (with its snapshot), a CNI attachment and a task. */
module Runtime {
  import opened Types
  import ST = StopTask

  datatype ProcessStatus = Created | Live | Exited | Other

  datatype Task = Task(pid: nat, status: ProcessStatus)

  /** The record keeps the image and, in a label, the ports. */
  datatype Record = Record(image: string, ports: seq<Port>)

  datatype CniPort = CniPort(hostPort: int, containerPort: int, protocol: string)

  datatype Host = Host(
    netns: set<string>,
    records: map<string, Record>,
    attached: map<string, seq<CniPort>>,
    tasks: map<string, Task>)

  const EMPTY_HOST := Host({}, map[], map[], map[])

  /** Which of the calls made by one Run fail; the undo fields are the cleanup calls, whose
      errors Run ignores. `cut` says that the agent dies when the record exists and the network
      has not been touched; every other point at which it can die is a pattern of failing calls
      (see KilledRunIsAFault). `pid` is the process the task would get. */
  datatype RunFaults = RunFaults(
    pull: bool, netns: bool, encode: bool, create: bool, cut: bool, setup: bool, mkdir: bool, newTask: bool, start: bool,
    undoTask: bool, undoNet: bool, undoRecord: bool, undoNetns: bool,
    pid: nat)
  {
    predicate Tidy() {
      !cut && !undoTask && !undoNet && !undoRecord && !undoNetns
    }

    predicate Smooth() {
      !pull && !netns && !encode && !create && !cut && !setup && !mkdir && !newTask && !start
    }

    /** On a name without record: something of the failed start stays, and its record does
        not. A record that cannot be deleted owns whatever else is left. */
    predicate Leaks() {
      !pull && !netns &&
      if encode || create then undoNetns
      else if cut then false
      else if setup then !undoRecord && undoNetns
      else if mkdir || newTask then !undoRecord && (undoNet || undoNetns)
      else start && !undoTask && !undoRecord && (undoNet || undoNetns)
    }
  }

  datatype StopFaults = StopFaults(
    load: bool, loadTask: bool, task: ST.Schedule, teardown: bool, netns: bool, delete: bool)
  {
    predicate Smooth() {
      !load && !loadTask && task.Smooth() && !teardown && !netns && !delete
    }
  }

  datatype RunResult = RunOk | RunAlreadyExists | RunFailed
  datatype StopResult = StopOk | StopNotFound | StopFailed

  // ---------------------------------------------------------------- single resources

  function CniMapping(p: Port): CniPort {
    CniPort(p.hostPort, p.containerPort, OrTcp(p.protocol))
  }

  function CniMappings(ports: seq<Port>): seq<CniPort> {
    Map(CniMapping, ports)
  }

  function DropTask(h: Host, name: string, fault: bool): Host {
    if fault then h else h.(tasks := h.tasks - {name})
  }

  function DropNet(h: Host, name: string, fault: bool): Host {
    if fault then h else h.(attached := h.attached - {name})
  }

  /** containerd refuses to delete a container that still has a task. */
  function DropRecord(h: Host, name: string, fault: bool): Host {
    if fault || name in h.tasks then h else h.(records := h.records - {name})
  }

  function DropNetns(h: Host, name: string, fault: bool): Host {
    if fault then h else h.(netns := h.netns - {name})
  }

  // ---------------------------------------------------------------- Run and Stop

  function RunHost(h: Host, name: string, image: string, ports: seq<Port>, f: RunFaults): (Host, RunResult) {
    if f.pull || f.netns || name in h.netns then (h, RunFailed)
    else
      var h1 := h.(netns := h.netns + {name});
      if f.encode then (DropNetns(h1, name, f.undoNetns), RunFailed)
      else if name in h.records then (DropNetns(h1, name, f.undoNetns), RunAlreadyExists)
      else if f.create then (DropNetns(h1, name, f.undoNetns), RunFailed)
      else LaunchHost(h1.(records := h1.records[name := Record(image, ports)]), name, ports, f)
  }

  /** The second half of Run, from the moment the container record exists. */
  function LaunchHost(h: Host, name: string, ports: seq<Port>, f: RunFaults): (Host, RunResult) {
    if f.cut then (h, RunFailed)
    else if f.setup then (UndoRecord(h.(attached := h.attached - {name}), name, f), RunFailed)
    else
      var h1 := h.(attached := h.attached[name := CniMappings(ports)]);
      if f.mkdir || f.newTask || name in h1.tasks then (UndoNet(h1, name, f), RunFailed)
      else
        var h2 := h1.(tasks := h1.tasks[name := Task(f.pid, Created)]);
        if f.start then (UndoNet(DropTask(h2, name, f.undoTask), name, f), RunFailed)
        else (h2.(tasks := h2.tasks[name := Task(f.pid, Live)]), RunOk)
  }

  function UndoRecord(h: Host, name: string, f: RunFaults): Host {
    DropNetns(DropRecord(h, name, f.undoRecord), name, f.undoNetns)
  }

  function UndoNet(h: Host, name: string, f: RunFaults): Host {
    UndoRecord(DropNet(h, name, f.undoNet), name, f)
  }

  function StopHost(h: Host, name: string, f: StopFaults): (Host, StopResult) {
    if f.load then (h, StopFailed)
    else if name !in h.records then (h, StopNotFound)
    else if f.loadTask then (h, StopFailed)
    else if name !in h.tasks then CleanupHost(h, name, f)
    else
      match ST.OutcomeOf(f.task, h.tasks[name].status == Exited)
      case TaskKept => (h, StopFailed)
      case TaskExited => (h.(tasks := h.tasks[name := h.tasks[name].(status := Exited)]), StopFailed)
      case TaskDeleted => CleanupHost(h.(tasks := h.tasks - {name}), name, f)
  }

  function CleanupHost(h: Host, name: string, f: StopFaults): (Host, StopResult) {
    if f.teardown then (h, StopFailed)
    else
      var h1 := h.(attached := h.attached - {name});
      if f.netns then (h1, StopFailed)
      else
        var h2 := h1.(netns := h1.netns - {name});
        if f.delete || name in h2.tasks then (h2, StopFailed)
        else (h2.(records := h2.records - {name}), StopOk)
  }

  function MapStatus(s: ProcessStatus): State {
    match s
    case Live => Running
    case Exited => Stopped
    case _ => Unknown
  }

  /** containerStatus: no task reads as stopped, with pid 0. */
  function StatusOf(h: Host, name: string): Status
    requires name in h.records
  {
    var r := h.records[name];
    if name in h.tasks then Status(name, r.image, MapStatus(h.tasks[name].status), h.tasks[name].pid, r.ports)
    else Status(name, r.image, Stopped, 0, r.ports)
  }

  predicate IsRunning(h: Host, name: string) {
    name in h.records && StatusOf(h, name).state == Running
  }

  /** What a state and a pid must be to tell the truth about a container: the process id is the
      task's, and a task is running, stopped or neither; without a task there is no process. */
  predicate Tells(h: Host, name: string, state: State, pid: int) {
    if name in h.tasks then
      && pid == h.tasks[name].pid
      && (state == Running <==> h.tasks[name].status == Live)
      && (state == Stopped <==> h.tasks[name].status == Exited)
      && state != Pending
    else state == Stopped && pid == 0
  }

  lemma StatusTells(h: Host, name: string)
    requires name in h.records
    ensures var s := StatusOf(h, name);
            s.name == name && s.image == h.records[name].image && s.ports == h.records[name].ports && Tells(h, name, s.state, s.pid)
    ensures IsRunning(h, name) <==> name in h.tasks && h.tasks[name].status == Live
  {
  }

  // ---------------------------------------------------------------- vocabulary

  /** All four resources are in place and the process runs. */
  predicate Whole(h: Host, name: string, image: string, ports: seq<Port>) {
    && name in h.netns
    && name in h.records && h.records[name] == Record(image, ports)
    && name in h.attached && h.attached[name] == CniMappings(ports)
    && name in h.tasks && h.tasks[name].status == Live
  }

  predicate Gone(h: Host, name: string) {
    name !in h.netns && name !in h.records && name !in h.attached && name !in h.tasks
  }

  /** Nothing of the name outlives its record. */
  predicate OrphanFree(h: Host, name: string) {
    name !in h.records ==> Gone(h, name)
  }

  predicate SameElsewhere(h: Host, h': Host, name: string) {
    && h'.netns - {name} == h.netns - {name}
    && h'.records - {name} == h.records - {name}
    && h'.attached - {name} == h.attached - {name}
    && h'.tasks - {name} == h.tasks - {name}
  }

  lemma SameElsewhereAt(h: Host, h': Host, name: string, other: string)
    requires SameElsewhere(h, h', name) && other != name
    ensures other in h'.netns <==> other in h.netns
    ensures other in h'.records <==> other in h.records
    ensures other in h.records ==> h'.records[other] == h.records[other]
    ensures other in h'.attached <==> other in h.attached
    ensures other in h.attached ==> h'.attached[other] == h.attached[other]
    ensures other in h'.tasks <==> other in h.tasks
    ensures other in h.tasks ==> h'.tasks[other] == h.tasks[other]
  {
    assert other in h'.netns - {name} <==> other in h.netns - {name};
    assert other in h'.records - {name} <==> other in h.records - {name};
    assert other in h.records ==> (h'.records - {name})[other] == (h.records - {name})[other];
    assert other in h'.attached - {name} <==> other in h.attached - {name};
    assert other in h.attached ==> (h'.attached - {name})[other] == (h.attached - {name})[other];
    assert other in h'.tasks - {name} <==> other in h.tasks - {name};
    assert other in h.tasks ==> (h'.tasks - {name})[other] == (h.tasks - {name})[other];
  }

  // ---------------------------------------------------------------- Run is all or nothing

  lemma UndoTouchesOnlyItsName(h: Host, name: string, f: RunFaults)
    ensures SameElsewhere(h, UndoRecord(h, name, f), name)
    ensures SameElsewhere(h, UndoNet(h, name, f), name)
  {
    assert (h.netns - {name}) - {name} == h.netns - {name};
    assert (h.records - {name}) - {name} == h.records - {name};
    assert (h.attached - {name}) - {name} == h.attached - {name};
  }

  lemma SameElsewhereTransitive(a: Host, b: Host, c: Host, name: string)
    requires SameElsewhere(a, b, name) && SameElsewhere(b, c, name)
    ensures SameElsewhere(a, c, name)
  {
  }

  lemma SettersTouchOnlyTheirName(h: Host, name: string, cni: seq<CniPort>, task: Task, f: RunFaults)
    ensures SameElsewhere(h, h.(attached := h.attached - {name}), name)
    ensures SameElsewhere(h, h.(attached := h.attached[name := cni]), name)
    ensures SameElsewhere(h, h.(tasks := h.tasks[name := task]), name)
    ensures SameElsewhere(h, DropTask(h, name, f.undoTask), name)
  {
    assert (h.attached - {name}) - {name} == h.attached - {name};
    assert h.attached[name := cni] - {name} == h.attached - {name};
    assert h.tasks[name := task] - {name} == h.tasks - {name};
    assert (h.tasks - {name}) - {name} == h.tasks - {name};
  }

  lemma LaunchTouchesOnlyItsName(h: Host, name: string, ports: seq<Port>, f: RunFaults)
    ensures SameElsewhere(h, LaunchHost(h, name, ports, f).0, name)
  {
    var cni, made, live := CniMappings(ports), Task(f.pid, Created), Task(f.pid, Live);
    SettersTouchOnlyTheirName(h, name, cni, made, f);
    if f.setup {
      UndoTouchesOnlyItsName(h.(attached := h.attached - {name}), name, f);
    } else {
      var h1 := h.(attached := h.attached[name := cni]);
      UndoTouchesOnlyItsName(h1, name, f);
      SettersTouchOnlyTheirName(h1, name, cni, made, f);
      var h2 := h1.(tasks := h1.tasks[name := made]);
      SameElsewhereTransitive(h, h1, h2, name);
      SettersTouchOnlyTheirName(h2, name, cni, live, f);
      UndoTouchesOnlyItsName(DropTask(h2, name, f.undoTask), name, f);
    }
  }

  lemma RunTouchesOnlyItsName(h: Host, name: string, image: string, ports: seq<Port>, f: RunFaults)
    ensures SameElsewhere(h, RunHost(h, name, image, ports, f).0, name)
  {
    var h1 := h.(netns := h.netns + {name});
    assert h1.netns - {name} == h.netns - {name};
    assert DropNetns(h1, name, f.undoNetns).netns - {name} == h.netns - {name};
    var h2 := h1.(records := h1.records[name := Record(image, ports)]);
    assert h2.records - {name} == h.records - {name};
    LaunchTouchesOnlyItsName(h2, name, ports, f);
  }

  /** Nothing stands in the way of a Run of this name. */
  predicate Startable(h: Host, name: string) {
    name !in h.netns && name !in h.records && name !in h.tasks
  }

  /** Run succeeds exactly when no call fails and the name is free; then every resource is
      in place. */
  lemma RunSuccess(h: Host, name: string, image: string, ports: seq<Port>, f: RunFaults)
    ensures RunHost(h, name, image, ports, f).1 == RunOk <==> f.Smooth() && Startable(h, name)
    ensures RunHost(h, name, image, ports, f).1 == RunOk ==>
              && Whole(RunHost(h, name, image, ports, f).0, name, image, ports)
              && RunHost(h, name, image, ports, f).0.tasks[name] == Task(f.pid, Live)
  {
  }

  /** A Run that does not get as far as the network changes nothing but the namespace it has
      just made, and takes that back unless the removal fails. */
  lemma EarlyFailureLeaves(h: Host, name: string, image: string, ports: seq<Port>, f: RunFaults)
    requires !ReachesSetup(h, name, f)
    ensures var (h', r) := RunHost(h, name, image, ports, f);
            && r != RunOk && h'.records == h.records && h'.attached == h.attached && h'.tasks == h.tasks
            && h'.netns - {name} == h.netns - {name}
            && (name in h'.netns <==> name in h.netns || (!f.pull && !f.netns && f.undoNetns))
  {
  }

  /** What a failed Run of a name of which there was nothing leaves of it, resource by resource:
      each cleanup call undoes its own, whatever became of the others, except that a record
      outlives a task that could not be deleted. */
  lemma FailedRunLeaves(h: Host, name: string, image: string, ports: seq<Port>, f: RunFaults)
    requires Gone(h, name) && RunHost(h, name, image, ports, f).1 != RunOk && !f.cut
    ensures var h' := RunHost(h, name, image, ports, f).0;
            var begun := !f.pull && !f.netns;
            var recorded := begun && !f.encode && !f.create;
            var networked := recorded && !f.setup;
            var tasked := networked && !f.mkdir && !f.newTask;
            && (name in h'.netns <==> begun && f.undoNetns)
            && (name in h'.records <==> recorded && (f.undoRecord || (tasked && f.undoTask)))
            && (name in h'.attached <==> networked && f.undoNet)
            && (name in h'.tasks <==> tasked && f.undoTask)
            && (name in h'.tasks ==> h'.tasks[name] == Task(f.pid, Created))
            && (name in h'.attached ==> h'.attached[name] == CniMappings(ports))
  {
  }

  /** No resource of the name is left over without the record that should own it, unless a
      namespace stops Run before it could disturb the leftover. */
  predicate Restorable(h: Host, name: string) {
    name in h.netns || name in h.records || (name !in h.attached && name !in h.tasks)
  }

  lemma FailedRunRestores(h: Host, name: string, image: string, ports: seq<Port>, f: RunFaults)
    requires Restorable(h, name) && f.Tidy()
    requires RunHost(h, name, image, ports, f).1 != RunOk
    ensures RunHost(h, name, image, ports, f).0 == h
  {
    var h' := RunHost(h, name, image, ports, f).0;
    assert name !in h.netns ==> (h.netns + {name}) - {name} == h.netns;
    assert name !in h.records ==> h.records[name := Record(image, ports)] - {name} == h.records;
    assert name !in h.attached ==> h.attached - {name} == h.attached;
    assert name !in h.attached ==> h.attached[name := CniMappings(ports)] - {name} == h.attached;
    assert name !in h.tasks ==> h.tasks[name := Task(f.pid, Created)] - {name} == h.tasks;
  }

  /** Restorable is exactly the condition: with a leaked attachment or task and no record,
      a failure whose cleanup calls all succeed still changes the host. */
  lemma RestorationExact(h: Host, name: string, image: string, ports: seq<Port>)
    ensures (forall f: RunFaults :: f.Tidy() && RunHost(h, name, image, ports, f).1 != RunOk
                                    ==> RunHost(h, name, image, ports, f).0 == h)
        <==> Restorable(h, name)
  {
    if Restorable(h, name) {
      forall f: RunFaults | f.Tidy() && RunHost(h, name, image, ports, f).1 != RunOk
        ensures RunHost(h, name, image, ports, f).0 == h
      {
        FailedRunRestores(h, name, image, ports, f);
      }
    } else {
      var f := RunFaults(false, false, false, false, false, false, true, false, false, false, false, false, false, 1);
      assert f.Tidy();
      var r := RunHost(h, name, image, ports, f);
      assert r.1 == RunFailed;
      if name in h.tasks {
        assert name in r.0.records;
      } else {
        assert name !in r.0.attached;
      }
      assert r.0 != h;
    }
  }

  /** Whatever fails, cleanup included, a failed Run leaves no new process running and
      replaces no record and no task. A container's attachment is not touched either; one
      left over without record can be (see LeakedAttachmentFate). */
  lemma FailedRunLeftovers(h: Host, name: string, image: string, ports: seq<Port>, f: RunFaults)
    requires RunHost(h, name, image, ports, f).1 != RunOk
    ensures var h' := RunHost(h, name, image, ports, f).0;
            && (name in h'.records && name in h.records ==> h'.records[name] == h.records[name])
            && (name in h.records ==> name in h'.records)
            && (name in h'.records && name !in h.records ==> h'.records[name] == Record(image, ports))
            && (name in h'.attached ==>
                  || (name in h.attached && h'.attached[name] == h.attached[name])
                  || (name !in h.records && h'.attached[name] == CniMappings(ports)))
            && (name in h.attached && name in h.records ==> name in h'.attached && h'.attached[name] == h.attached[name])
            && (name in h.tasks ==> name in h'.tasks && h'.tasks[name] == h.tasks[name])
            && (name in h'.tasks && name !in h.tasks ==> h'.tasks[name].status == Created && name in h'.records)
            && (IsRunning(h', name) && name !in h.tasks ==> IsRunning(h, name))
  {
  }

  /** Run gets past the record and calls the network layer. */
  predicate ReachesSetup(h: Host, name: string, f: RunFaults) {
    !f.pull && !f.netns && !f.encode && !f.create && name !in h.netns && name !in h.records
  }

  /** A failed Run keeps an attachment exactly when it does not get as far as the network, or
      puts the same mappings there and cannot take them away again. */
  lemma LeakedAttachmentFate(h: Host, name: string, image: string, ports: seq<Port>, f: RunFaults)
    requires name in h.attached && RunHost(h, name, image, ports, f).1 != RunOk
    ensures var h' := RunHost(h, name, image, ports, f).0;
            (name in h'.attached && h'.attached[name] == h.attached[name])
            <==> (ReachesSetup(h, name, f) ==> f.cut || (!f.setup && f.undoNet && h.attached[name] == CniMappings(ports)))
  {
  }

  lemma TidyDoesNotLeak(f: RunFaults)
    ensures f.Tidy() ==> !f.Leaks()
  {
  }

  /** Exactly when Run keeps a name free of orphans, and exactly when it leaves the one orphan
      that blocks the name, a namespace. */
  lemma RunOrphansExactly(h: Host, name: string, image: string, ports: seq<Port>, f: RunFaults)
    requires OrphanFree(h, name)
    ensures var h' := RunHost(h, name, image, ports, f).0;
            && (OrphanFree(h', name) <==> name in h.records || !f.Leaks())
            && (name in h'.netns && name !in h'.records <==> name !in h.records && f.Leaks() && f.undoNetns)
  {
  }

  // ---------------------------------------------------------------- Stop can be retried

  lemma StopTouchesOnlyItsName(h: Host, name: string, f: StopFaults)
    ensures SameElsewhere(h, StopHost(h, name, f).0, name)
  {
    var h' := StopHost(h, name, f).0;
    assert h'.netns - {name} == h.netns - {name};
    assert h'.records - {name} == h.records - {name};
    assert h'.attached - {name} == h.attached - {name};
    assert h'.tasks - {name} == h.tasks - {name};
  }

  /** h' keeps no more of the name than h does, and resources have gone in the order task,
      attachment, namespace, record. A task that stays may have lost its process. */
  predicate Released(h: Host, h': Host, name: string) {
    && h'.netns <= h.netns
    && h'.records.Keys <= h.records.Keys && h'.attached.Keys <= h.attached.Keys && h'.tasks.Keys <= h.tasks.Keys
    && (name in h'.records ==> h'.records[name] == h.records[name])
    && (name in h'.attached ==> h'.attached[name] == h.attached[name])
    && (name in h'.tasks ==> h'.tasks[name] == h.tasks[name] || h'.tasks[name] == h.tasks[name].(status := Exited))
    && (name in h.attached && name !in h'.attached ==> name !in h'.tasks)
    && (name in h.netns && name !in h'.netns ==> name !in h'.tasks && name !in h'.attached)
    && (name in h.records && name !in h'.records ==> Gone(h', name))
  }

  lemma StopReleases(h: Host, name: string, f: StopFaults)
    ensures var (h', r) := StopHost(h, name, f);
            && Released(h, h', name)
            && (r == StopOk ==> Gone(h', name))
            && (r == StopFailed ==> name in h.records ==> h'.records == h.records)
            && (r == StopNotFound ==> h' == h && name !in h.records)
            && (f.Smooth() ==> r != StopFailed)
  {
    var (h', r) := StopHost(h, name, f);
    assert h'.tasks.Keys <= h.tasks.Keys;
    assert h'.attached.Keys <= h.attached.Keys;
    assert h'.records.Keys <= h.records.Keys;
  }

  /** When Stop succeeds, in terms of its calls: nothing fails, and the task, if there is one,
      goes. A task that has stopped already needs no signal and no wait. */
  lemma StopAnswers(h: Host, name: string, f: StopFaults)
    ensures StopHost(h, name, f).1 == StopNotFound <==> !f.load && name !in h.records
    ensures name in h.records && name !in h.tasks ==>
              (StopHost(h, name, f).1 == StopOk <==> !f.load && !f.loadTask && !f.teardown && !f.netns && !f.delete)
    ensures name in h.records && name in h.tasks && h.tasks[name].status == Exited ==>
              (StopHost(h, name, f).1 == StopOk <==>
                 && !f.load && !f.loadTask && !f.task.statusFails && !f.task.deleteFails
                 && !f.teardown && !f.netns && !f.delete)
    ensures name in h.records && name in h.tasks && h.tasks[name].status != Exited ==>
              (StopHost(h, name, f).1 == StopOk <==>
                 && !f.load && !f.loadTask && f.task.Finishes() && !f.task.deleteFails
                 && !f.teardown && !f.netns && !f.delete)
  {
  }

  /** A Stop that fails after its task, if it has one, is dealt with leaves exactly what the
      calls after the failing one would have removed. */
  lemma FailedStopLeaves(h: Host, name: string, f: StopFaults)
    requires name in h.records && StopHost(h, name, f).1 == StopFailed
    ensures var h' := StopHost(h, name, f).0;
            && h'.records == h.records
            && (name in h'.tasks ==> h' == h || h' == h.(tasks := h.tasks[name := Task(h.tasks[name].pid, Exited)]))
            && (name !in h'.tasks && name in h.tasks ==> (f.teardown || f.netns || f.delete))
            && (name !in h'.tasks && !f.load && !f.loadTask ==>
                  && h'.attached == (if f.teardown then h.attached else h.attached - {name})
                  && h'.netns == (if f.teardown || f.netns then h.netns else h.netns - {name}))
  {
  }

  lemma StopKeepsOrphanFree(h: Host, name: string, f: StopFaults)
    requires OrphanFree(h, name)
    ensures OrphanFree(StopHost(h, name, f).0, name)
  {
    StopReleases(h, name, f);
  }

  /** The host after a number of Stop calls on one name. */
  function StopAll(h: Host, name: string, fs: seq<StopFaults>): Host {
    if fs == [] then h else StopHost(StopAll(h, name, fs[..|fs|-1]), name, Last(fs)).0
  }

  /** Retrying Stop is safe: after any number of attempts, whatever each of them met, the
      answer not-found means that nothing of the name remains, success means the same, and
      a failed attempt still leaves the record that the next attempt starts from. */
  lemma {:induction false} StopRetries(h: Host, name: string, fs: seq<StopFaults>, f: StopFaults)
    requires OrphanFree(h, name)
    ensures var before := StopAll(h, name, fs);
            var (after, r) := StopHost(before, name, f);
            && OrphanFree(before, name) && OrphanFree(after, name)
            && SameElsewhere(h, before, name)
            && (r == StopOk ==> Gone(after, name))
            && (r == StopNotFound ==> Gone(before, name))
            && (name in before.records && r != StopOk ==> name in after.records)
            && (f.Smooth() ==> Gone(after, name))
    decreases |fs|
  {
    if fs != [] {
      StopRetries(h, name, fs[..|fs|-1], Last(fs));
      StopTouchesOnlyItsName(StopAll(h, name, fs[..|fs|-1]), name, Last(fs));
    }
    StopReleases(StopAll(h, name, fs), name, f);
  }

  // ---------------------------------------------------------------- orphans block a name

  datatype Call = CallRun(image: string, ports: seq<Port>, run: RunFaults) | CallStop(stop: StopFaults)

  function CallHost(h: Host, name: string, c: Call): Host {
    match c
    case CallRun(image, ports, f) => RunHost(h, name, image, ports, f).0
    case CallStop(f) => StopHost(h, name, f).0
  }

  function Calls(h: Host, name: string, cs: seq<Call>): Host {
    if cs == [] then h else CallHost(Calls(h, name, cs[..|cs|-1]), name, Last(cs))
  }

  /** A namespace without a record blocks its name for good: no sequence of Run and Stop
      calls changes anything, and no Run in it succeeds. */
  lemma {:induction false} OrphanNamespaceBlocksForever(h: Host, name: string, cs: seq<Call>, image: string, ports: seq<Port>, f: RunFaults)
    requires name in h.netns && name !in h.records
    ensures Calls(h, name, cs) == h
    ensures RunHost(Calls(h, name, cs), name, image, ports, f).1 != RunOk
    decreases |cs|
  {
    if cs != [] {
      OrphanNamespaceBlocksForever(h, name, cs[..|cs|-1], image, ports, f);
    }
  }

  /** Such an orphan is real: one Run whose task does not start and whose namespace removal
      fails leaves it behind on an empty host. */
  lemma UntidyRunCanOrphan(name: string, image: string, ports: seq<Port>)
    ensures exists f: RunFaults ::
              && RunHost(EMPTY_HOST, name, image, ports, f).1 == RunFailed
              && name in RunHost(EMPTY_HOST, name, image, ports, f).0.netns
              && name !in RunHost(EMPTY_HOST, name, image, ports, f).0.records
  {
    var f := RunFaults(false, false, false, false, false, false, false, false, true, false, false, false, true, 1);
    assert RunHost(EMPTY_HOST, name, image, ports, f).1 == RunFailed;
  }

  // ---------------------------------------------------------------- dying in the middle

  /** The hosts between the calls of a Run in which nothing fails. */
  function RunStages(h: Host, name: string, image: string, ports: seq<Port>, pid: nat): seq<Host> {
    var h1 := h.(netns := h.netns + {name});
    var h2 := h1.(records := h1.records[name := Record(image, ports)]);
    var h3 := h2.(attached := h2.attached[name := CniMappings(ports)]);
    [h, h1, h2, h3, h3.(tasks := h3.tasks[name := Task(pid, Created)]), h3.(tasks := h3.tasks[name := Task(pid, Live)])]
  }

  const NO_RUN_FAULTS :=
    RunFaults(false, false, false, false, false, false, false, false, false, false, false, false, false, 2)

  /** An agent killed before the k-th call that matters leaves what a failing Run leaves. */
  function KillFaults(k: nat, pid: nat): RunFaults {
    NO_RUN_FAULTS.(pull := k == 0, encode := k == 1, cut := k == 2, mkdir := k == 3, start := k == 4,
                   undoTask := true, undoNet := true, undoRecord := true, undoNetns := true, pid := pid)
  }

  lemma KilledRunIsAFault(h: Host, name: string, image: string, ports: seq<Port>, pid: nat, k: nat)
    requires Startable(h, name) && k < 6
    ensures RunHost(h, name, image, ports, KillFaults(k, pid)).0 == RunStages(h, name, image, ports, pid)[k]
  {
  }

  /** The same for Stop: the hosts after its calls, when the task has been deleted. */
  function StopStages(h: Host, name: string): seq<Host> {
    var h1 := h.(tasks := h.tasks - {name});
    var h2 := h1.(attached := h1.attached - {name});
    var h3 := h2.(netns := h2.netns - {name});
    [h, h1, h2, h3, h3.(records := h3.records - {name})]
  }

  lemma KilledStopIsAFault(h: Host, name: string, task: ST.Schedule, k: nat)
    requires name in h.records && name in h.tasks && task.Smooth() && k < 5
    ensures StopHost(h, name, StopFaults(k == 0, false, task, k == 1, k == 2, k == 3)).0 == StopStages(h, name)[k]
  {
  }

  // ---------------------------------------------------------------- the already-exists error

  /** Run says already-exists exactly when a record has lost its namespace and nothing fails
      before the record is looked at. */
  lemma AlreadyExistsExactly(h: Host, name: string, image: string, ports: seq<Port>, f: RunFaults)
    ensures RunHost(h, name, image, ports, f).1 == RunAlreadyExists
        <==> !f.pull && !f.netns && !f.encode && name in h.records && name !in h.netns
  {
  }

  /** A second Run of a name that has just been started fails, changes nothing, and does not
      say already-exists. */
  lemma RunTwice(h: Host, name: string, image: string, ports: seq<Port>, f: RunFaults,
                 image': string, ports': seq<Port>, f': RunFaults)
    requires RunHost(h, name, image, ports, f).1 == RunOk
    ensures var h' := RunHost(h, name, image, ports, f).0;
            RunHost(h', name, image', ports', f') == (h', RunFailed)
  {
    RunSuccess(h, name, image, ports, f);
  }

  /** A record lives in its namespace, a task in its record. */
  predicate Housed(h: Host, name: string) {
    (name in h.records ==> name in h.netns) && (name in h.tasks ==> name in h.records)
  }

  /** The call cannot take a namespace away and leave its record. */
  predicate KeepsHouse(c: Call) {
    match c
    case CallRun(_, _, f) => f.undoNetns || !(f.undoRecord || f.undoTask)
    case CallStop(f) => !f.delete
  }

  /** So a caller that is to see already-exists must have had a Stop fail in its last step, or
      a Run fail in its cleanup: over any other sequence of calls no Run ever answers it,
      although the name may be in use all the time. */
  lemma {:induction false} AlreadyExistsNeedsHalfRelease(h: Host, name: string, cs: seq<Call>, image: string, ports: seq<Port>, f: RunFaults)
    requires Housed(h, name) && forall i :: 0 <= i < |cs| ==> KeepsHouse(cs[i])
    ensures Housed(Calls(h, name, cs), name)
    ensures RunHost(Calls(h, name, cs), name, image, ports, f).1 != RunAlreadyExists
    decreases |cs|
  {
    if cs != [] {
      AlreadyExistsNeedsHalfRelease(h, name, cs[..|cs|-1], image, ports, f);
      assert KeepsHouse(Last(cs));
      CallKeepsHouse(Calls(h, name, cs[..|cs|-1]), name, Last(cs));
    }
    AlreadyExistsExactly(Calls(h, name, cs), name, image, ports, f);
  }

  lemma CallKeepsHouse(h: Host, name: string, c: Call)
    requires Housed(h, name) && KeepsHouse(c)
    ensures Housed(CallHost(h, name, c), name)
  {
  }

  /** And such a Stop is enough. */
  lemma HalfReleaseAnswersAlreadyExists(h: Host, name: string, stop: StopFaults, image: string, ports: seq<Port>, f: RunFaults)
    requires name in h.records && stop.delete && stop.(delete := false).Smooth() && f.Smooth()
    ensures RunHost(StopHost(h, name, stop).0, name, image, ports, f).1 == RunAlreadyExists
  {
  }

  // ---------------------------------------------------------------- the object itself

  class Containerd {
    var netns: set<string>
    var records: map<string, Record>
    var attached: map<string, seq<CniPort>>
    var tasks: map<string, Task>

    function View(): Host
      reads this
    {
      Host(netns, records, attached, tasks)
    }

    constructor ()
      ensures View() == EMPTY_HOST
    {
      netns, records, attached, tasks := {}, map[], map[], map[];
    }

    method DeleteNetns(name: string, fault: bool) returns (failed: bool)
      modifies this
      ensures View() == DropNetns(old(View()), name, fault) && failed == fault
    {
      if fault {
        return true;
      }
      netns := netns - {name};
      return false;
    }

    method Teardown(name: string, fault: bool) returns (failed: bool)
      modifies this
      ensures View() == DropNet(old(View()), name, fault) && failed == fault
    {
      if fault {
        return true;
      }
      attached := attached - {name};
      return false;
    }

    method DeleteRecord(name: string, fault: bool) returns (failed: bool)
      modifies this
      ensures View() == DropRecord(old(View()), name, fault)
      ensures failed <==> fault || name in old(tasks)
    {
      if fault || name in tasks {
        return true;
      }
      records := records - {name};
      return false;
    }

    /** network.setup: the mappings handed to CNI, in order, with the protocol filled in. */
    method Mappings(ports: seq<Port>) returns (mappings: seq<CniPort>)
      ensures mappings == CniMappings(ports)
    {
      mappings := [];
      for i := 0 to |ports|
        invariant mappings == CniMappings(ports[..i])
      {
        var proto := ports[i].protocol;
        if proto == "" {
          proto := TCP;
        }
        mappings := mappings + [CniPort(ports[i].hostPort, ports[i].containerPort, proto)];
      }
      assert ports[..|ports|] == ports;
    }

    method Run(name: string, image: string, ports: seq<Port>, f: RunFaults) returns (r: RunResult)
      modifies this
      ensures (View(), r) == RunHost(old(View()), name, image, ports, f)
    {
      if f.pull {
        return RunFailed;
      }
      if f.netns || name in netns {
        return RunFailed;
      }
      netns := netns + {name};
      if f.encode {
        var _ := DeleteNetns(name, f.undoNetns);
        return RunFailed;
      }
      if name in records || f.create {
        r := if name in records then RunAlreadyExists else RunFailed;
        var _ := DeleteNetns(name, f.undoNetns);
        return;
      }
      records := records[name := Record(image, ports)];
      if f.cut {
        return RunFailed;
      }
      if f.setup {
        attached := attached - {name};
        var _ := DeleteRecord(name, f.undoRecord);
        var _ := DeleteNetns(name, f.undoNetns);
        return RunFailed;
      }
      var mappings := Mappings(ports);
      attached := attached[name := mappings];
      if f.mkdir {
        var _ := Teardown(name, f.undoNet);
        var _ := DeleteRecord(name, f.undoRecord);
        var _ := DeleteNetns(name, f.undoNetns);
        return RunFailed;
      }
      if f.newTask || name in tasks {
        var _ := Teardown(name, f.undoNet);
        var _ := DeleteRecord(name, f.undoRecord);
        var _ := DeleteNetns(name, f.undoNetns);
        return RunFailed;
      }
      tasks := tasks[name := Task(f.pid, Created)];
      if f.start {
        if !f.undoTask {
          tasks := tasks - {name};
        }
        var _ := Teardown(name, f.undoNet);
        var _ := DeleteRecord(name, f.undoRecord);
        var _ := DeleteNetns(name, f.undoNetns);
        return RunFailed;
      }
      tasks := tasks[name := Task(f.pid, Live)];
      return RunOk;
    }

    /** `trace` is what was done to the task: a successful Stop has seen a live process exit
        before it deleted the task. */
    method Stop(name: string, f: StopFaults) returns (r: StopResult, trace: seq<ST.Action>)
      modifies this
      ensures (View(), r) == StopHost(old(View()), name, f)
      ensures ST.Proper(trace) && ST.Signals(trace) <= 2
      ensures name !in old(records) || name !in old(tasks) ==> trace == []
      ensures r == StopOk && name in old(tasks) ==> ST.Deleted in trace
      ensures r == StopOk && name in old(tasks) && old(tasks)[name].status != Exited ==> ST.SawExit in trace
      ensures name in old(tasks) && old(tasks)[name].status == Exited ==> ST.Signals(trace) == 0
      ensures name in old(records) && name in old(tasks) && ST.SawExit in trace ==>
                name !in tasks || tasks[name] == Task(old(tasks)[name].pid, Exited)
      ensures name in tasks && name in old(tasks) && ST.SawExit !in trace ==> tasks[name] == old(tasks)[name]
    {
      trace := [];
      if f.load {
        return StopFailed, trace;
      }
      if name !in records {
        return StopNotFound, trace;
      }
      if f.loadTask {
        return StopFailed, trace;
      }
      if name in tasks {
        var done;
        trace, done := ST.StopTask(f.task, tasks[name].status == Exited);
        if done != ST.Nil {
          if ST.SawExit in trace {
            tasks := tasks[name := tasks[name].(status := Exited)];
          }
          return StopFailed, trace;
        }
        tasks := tasks - {name};
      }
      r := Cleanup(name, f);
    }

    method Cleanup(name: string, f: StopFaults) returns (r: StopResult)
      modifies this
      ensures (View(), r) == CleanupHost(old(View()), name, f)
    {
      var failed := Teardown(name, f.teardown);
      if failed {
        return StopFailed;
      }
      failed := DeleteNetns(name, f.netns);
      if failed {
        return StopFailed;
      }
      failed := DeleteRecord(name, f.delete);
      return if failed then StopFailed else StopOk;
    }

    /** Every container exactly once, in no particular order. */
    method List() returns (statuses: seq<Status>)
      ensures IsListing(View(), statuses)
      ensures forall i :: 0 <= i < |statuses| ==>
                && statuses[i].name in records
                && statuses[i].image == records[statuses[i].name].image && statuses[i].ports == records[statuses[i].name].ports
                && Tells(View(), statuses[i].name, statuses[i].state, statuses[i].pid)
    {
      statuses := [];
      var todo := records.Keys;
      while todo != {}
        invariant todo <= records.Keys
        invariant forall i :: 0 <= i < |statuses| ==> statuses[i].name in records && statuses[i].name !in todo
        invariant forall i :: 0 <= i < |statuses| ==> statuses[i] == StatusOf(View(), statuses[i].name)
        invariant forall i, j :: 0 <= i < j < |statuses| ==> statuses[i].name != statuses[j].name
        invariant forall n :: n in records && n !in todo ==> Named(statuses, n)
      {
        var n :| n in todo;
        forall m
          ensures Named(statuses + [StatusOf(View(), n)], m) <==> Named(statuses, m) || m == n
        {
          NamedMore(statuses, StatusOf(View(), n), m);
        }
        statuses := statuses + [StatusOf(View(), n)];
        todo := todo - {n};
      }
      ListingTells(View(), statuses);
    }
  }

  lemma ListingTells(h: Host, statuses: seq<Status>)
    requires IsListing(h, statuses)
    ensures forall i :: 0 <= i < |statuses| ==>
              && statuses[i].name in h.records
              && statuses[i].image == h.records[statuses[i].name].image && statuses[i].ports == h.records[statuses[i].name].ports
              && Tells(h, statuses[i].name, statuses[i].state, statuses[i].pid)
  {
    forall i | 0 <= i < |statuses|
      ensures statuses[i].name in h.records
      ensures statuses[i].image == h.records[statuses[i].name].image && statuses[i].ports == h.records[statuses[i].name].ports
      ensures Tells(h, statuses[i].name, statuses[i].state, statuses[i].pid)
    {
      StatusTells(h, statuses[i].name);
    }
  }

  predicate Named(statuses: seq<Status>, n: string) {
    exists i :: 0 <= i < |statuses| && statuses[i].name == n
  }

  lemma NamedMore(statuses: seq<Status>, s: Status, n: string)
    ensures Named(statuses + [s], n) <==> Named(statuses, n) || s.name == n
  {
    var more := statuses + [s];
    if i :| 0 <= i < |statuses| && statuses[i].name == n {
      assert more[i].name == n;
    }
    assert more[|statuses|] == s;
  }

  predicate IsListing(h: Host, statuses: seq<Status>) {
    && (forall i :: 0 <= i < |statuses| ==> statuses[i].name in h.records && statuses[i] == StatusOf(h, statuses[i].name))
    && (forall i, j :: 0 <= i < j < |statuses| ==> statuses[i].name != statuses[j].name)
    && (forall n :: n in h.records ==> Named(statuses, n))
  }
}
