/** Restarting a container through the agent's own API (internal/agent/containers.go). The
    runtime has no restart: the handler looks the container up, stops it and runs it again. */
module ContainerApi {
  import opened Types
  import opened Runtime
  import opened FakeRuntime

  /** findContainer: the first status of that name. */
  method FindContainer(statuses: seq<Status>, name: string) returns (st: Option<Status>)
    ensures st.Some? ==> exists i :: 0 <= i < |statuses| && statuses[i] == st.value && st.value.name == name
                                     && forall j :: 0 <= j < i ==> statuses[j].name != name
    ensures st.None? ==> forall i :: 0 <= i < |statuses| ==> statuses[i].name != name
  {
    for i := 0 to |statuses|
      invariant forall j :: 0 <= j < i ==> statuses[j].name != name
    {
      if statuses[i].name == name {
        return Some(statuses[i]);
      }
    }
    return None;
  }

  datatype RestartResult = Restarted | NoSuchContainer | RestartFailed

  datatype RestartFaults = RestartFaults(list: bool, stop: StopFaults, run: RunFaults)

  function RestartHost(h: Host, name: string, f: RestartFaults): (Host, RestartResult) {
    if f.list then (h, RestartFailed)
    else if name !in h.records then (h, NoSuchContainer)
    else
      var (h1, stopped) := StopHost(h, name, f.stop);
      if stopped == StopFailed then (h1, RestartFailed)
      else
        var (h2, ran) := RunHost(h1, name, h.records[name].image, h.records[name].ports, f.run);
        (h2, if ran == RunOk then Restarted else RestartFailed)
  }

  method Restart(rt: Containerd, name: string, f: RestartFaults) returns (r: RestartResult)
    modifies rt
    ensures (rt.View(), r) == RestartHost(old(rt.View()), name, f)
  {
    if f.list {
      return RestartFailed;
    }
    var statuses := rt.List();
    var st := FindContainer(statuses, name);
    if st.None? {
      return NoSuchContainer;
    }
    var stopped, _ := rt.Stop(name, f.stop);
    if stopped == StopFailed {
      return RestartFailed;
    }
    var ran := rt.Run(name, st.value.image, st.value.ports, f.run);
    return if ran == RunOk then Restarted else RestartFailed;
  }

  /** Stop has removed the container, and starting it again fails with nothing left behind. */
  predicate Loses(h: Host, name: string, f: RestartFaults) {
    && !f.list && name in h.records && StopHost(h, name, f.stop).1 == StopOk && !f.run.Smooth()
    && !LeavesRecord(StopHost(h, name, f.stop).0, name, f.run)
  }

  /** A restart succeeds exactly when the container can be listed and stopped and no call of
      Run fails, and then it runs with the image and ports it had. Otherwise its record stays
      as it was, unless exactly Loses holds: then image and ports are gone, and trying again
      answers that there is no such container. */
  lemma RestartExactly(h: Host, name: string, f: RestartFaults)
    requires name in h.records
    ensures var (h', r) := RestartHost(h, name, f);
            && SameElsewhere(h, h', name)
            && (r == Restarted <==> !f.list && StopHost(h, name, f.stop).1 == StopOk && f.run.Smooth())
            && (r == Restarted ==> Whole(h', name, h.records[name].image, h.records[name].ports))
            && (name in h'.records ==> h'.records[name] == h.records[name])
            && (name !in h'.records <==> Loses(h, name, f))
  {
    var (h1, stopped) := StopHost(h, name, f.stop);
    var rec := h.records[name];
    StopReleases(h, name, f.stop);
    StopTouchesOnlyItsName(h, name, f.stop);
    RunTouchesOnlyItsName(h1, name, rec.image, rec.ports, f.run);
    if !f.list && stopped == StopOk {
      StartAgain(h1, name, rec, f.run);
    }
  }

  /** Running a name of which nothing is left. */
  lemma StartAgain(h: Host, name: string, rec: Record, f: RunFaults)
    requires Gone(h, name)
    ensures var (h', r) := RunHost(h, name, rec.image, rec.ports, f);
            && (r == RunOk <==> f.Smooth())
            && (r == RunOk ==> Whole(h', name, rec.image, rec.ports))
            && (name in h'.records ==> h'.records[name] == rec)
            && (name !in h'.records <==> !f.Smooth() && !LeavesRecord(h, name, f))
  {
    RunSuccess(h, name, rec.image, rec.ports, f);
  }

  /** It happens: on every host with the container, whatever its state, a Stop in which nothing
      fails and a pull that does are enough. */
  lemma RestartCanLose(h: Host, name: string, stop: StopFaults)
    requires name in h.records && stop.Smooth()
    ensures exists f: RestartFaults :: f.stop == stop && Loses(h, name, f) && RestartHost(h, name, f).1 == RestartFailed
                        && name !in RestartHost(h, name, f).0.records
  {
    var f := RestartFaults(false, stop, NO_RUN_FAULTS.(pull := true));
    StopReleases(h, name, stop);
    RestartExactly(h, name, f);
    assert Loses(h, name, f);
  }

  function RestartAll(h: Host, name: string, fs: seq<RestartFaults>): Host {
    if fs == [] then h else RestartHost(RestartAll(h, name, fs[..|fs|-1]), name, Last(fs)).0
  }

  /** A container that a restart has lost stays lost: however often it is tried again, whatever
      that meets, nothing changes and the answer is that there is no such container, or that
      the containers cannot be listed. */
  lemma {:induction false} LostIsNotFound(h: Host, name: string, f: RestartFaults, fs: seq<RestartFaults>, again: RestartFaults)
    requires Loses(h, name, f)
    ensures var lost := RestartHost(h, name, f).0;
            && RestartAll(lost, name, fs) == lost
            && RestartHost(RestartAll(lost, name, fs), name, again) == (lost, if again.list then RestartFailed else NoSuchContainer)
    decreases |fs|
  {
    if fs == [] {
      RestartExactly(h, name, f);
    } else {
      LostIsNotFound(h, name, f, fs[..|fs|-1], Last(fs));
      RestartExactly(h, name, f);
    }
  }
}
