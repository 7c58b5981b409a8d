/** Terminating one task (stopTask in internal/runtime/containerd.go): SIGTERM, a grace
    period, SIGKILL, and only then deletion. Everything the process, the timer and
    containerd may do is a Schedule; the method records what it does in a trace. */
module StopTask {
  import opened Types

  /** stopGracePeriod, in milliseconds. */
  const GRACE: nat := 10_000

  datatype Signal = SIGTERM | SIGKILL

  /** What the exit channel delivers: an exit, or a status that carries an error, which the
      code takes for an exit. */
  datatype News = Exit(at: nat) | Broken(at: nat)

  /** Times count from SIGTERM, which is sent at `now`. `exitAt` is when the process exits if
      it is not killed, `killTakes` how long after SIGKILL it exits, `breaksAt` when the exit
      channel would deliver an error; when news and the timer coincide, `timerWins` decides. A
      signal to a process that is already gone (not-found) does not count as a failure. */
  datatype Schedule = Schedule(
    now: nat, statusFails: bool, waitFails: bool, termFails: bool, exitAt: Option<nat>, breaksAt: Option<nat>,
    timerWins: bool, killFails: bool, killTakes: Option<nat>, deleteFails: bool)
  {
    function ExitTime(killed: bool): Option<nat> {
      if killed && killTakes.Some? && (exitAt.None? || GRACE + killTakes.value < exitAt.value)
      then Some(GRACE + killTakes.value) else exitAt
    }

    /** The first thing the channel delivers. */
    function NewsOf(killed: bool): Option<News> {
      match ExitTime(killed)
      case Some(e) => Some(if breaksAt.Some? && breaksAt.value < e then Broken(breaksAt.value) else Exit(e))
      case None => if breaksAt.Some? then Some(Broken(breaksAt.value)) else None
    }

    /** The channel delivers before the grace period is over. */
    predicate InTime() {
      NewsOf(false).Some? && (NewsOf(false).value.at < GRACE || (NewsOf(false).value.at == GRACE && !timerWins))
    }

    /** A live process is seen to exit: the signals can be sent, and some exit comes before the
        channel breaks. The exit comes by itself, or by SIGKILL, which is sent unless the
        channel delivers within ten seconds. */
    predicate Finishes() {
      && !statusFails && !waitFails && !termFails
      && if (exitAt.Some? && By(exitAt.value)) || (breaksAt.Some? && By(breaksAt.value))
         then exitAt.Some? && (breaksAt.Some? ==> exitAt.value <= breaksAt.value)
         else
           && !killFails
           && (|| (exitAt.Some? && (breaksAt.Some? ==> exitAt.value <= breaksAt.value))
               || (killTakes.Some? && (breaksAt.Some? ==> 10_000 + killTakes.value <= breaksAt.value)))
    }

    predicate By(t: nat) {
      t < 10_000 || (t == 10_000 && !timerWins)
    }

    /** Nothing keeps the task from being deleted, whether it has stopped already or not. */
    predicate Smooth() {
      OutcomeOf(this, true) == TaskDeleted && OutcomeOf(this, false) == TaskDeleted
    }
  }

  /** How stopping a task can end: the task is deleted, or an error leaves it either as it
      was or with its process gone. */
  datatype TaskOutcome = TaskDeleted | TaskKept | TaskExited

  /** What becomes of a task, given whether it had stopped before. Waiting for ever keeps it. */
  function OutcomeOf(s: Schedule, stopped: bool): TaskOutcome {
    if s.statusFails then TaskKept
    else if stopped then (if s.deleteFails then TaskKept else TaskDeleted)
    else if s.waitFails || s.termFails || (!s.InTime() && s.killFails) then TaskKept
    else
      var news := s.NewsOf(!s.InTime());
      if news.None? || news.value.Broken? then TaskKept
      else if s.deleteFails then TaskExited
      else TaskDeleted
  }

  /** A task is deleted exactly when its status can be read, it has stopped already or finishes,
      and the deletion works. */
  lemma DeletedExactly(s: Schedule, stopped: bool)
    ensures OutcomeOf(s, stopped) == TaskDeleted <==> !s.statusFails && (stopped || s.Finishes()) && !s.deleteFails
    ensures OutcomeOf(s, stopped) == TaskExited <==> !stopped && s.Finishes() && s.deleteFails
  {
  }

  datatype Action = Sent(signal: Signal, at: nat) | SawStopped | SawExit | SawError | Deleted | Refused

  datatype Result = Nil | Error | Hangs

  function Signals(trace: seq<Action>): nat {
    if trace == [] then 0 else (if Last(trace).Sent? then 1 else 0) + Signals(trace[..|trace|-1])
  }

  /** What may follow a trace: a deletion needs a task seen stopped or exited, SIGKILL needs
      a SIGTERM at least the grace period ago. */
  ghost predicate MayDo(trace: seq<Action>, a: Action) {
    && (a.Deleted? ==> SawStopped in trace || SawExit in trace)
    && (a.Sent? && a.signal == SIGKILL ==> exists t: nat :: Sent(SIGTERM, t) in trace && t + GRACE <= a.at)
  }

  ghost predicate Proper(trace: seq<Action>) {
    trace == [] || (Proper(trace[..|trace|-1]) && MayDo(trace[..|trace|-1], Last(trace)))
  }

  /** At every point of a proper trace. */
  lemma {:induction false} ProperAt(trace: seq<Action>, i: nat)
    requires Proper(trace) && i < |trace|
    ensures MayDo(trace[..i], trace[i])
  {
    var init := trace[..|trace|-1];
    if i < |init| {
      ProperAt(init, i);
      assert init[..i] == trace[..i] && init[i] == trace[i];
    }
  }

  lemma Append(trace: seq<Action>, a: Action)
    requires Proper(trace) && MayDo(trace, a)
    ensures Proper(trace + [a])
    ensures Signals(trace + [a]) == Signals(trace) + (if a.Sent? then 1 else 0)
    ensures forall x :: x in trace + [a] <==> x in trace || x == a
  {
    assert (trace + [a])[..|trace|] == trace;
  }

  /** What the trace says about the task. */
  function Seen(trace: seq<Action>): TaskOutcome {
    if Deleted in trace then TaskDeleted
    else if SawExit in trace then TaskExited
    else TaskKept
  }

  /** The signals: SIGTERM, and SIGKILL when the channel has not delivered in time. */
  method SendSignals(s: Schedule) returns (trace: seq<Action>, ok: bool)
    ensures Proper(trace) && Signals(trace) <= 2
    ensures forall a :: a in trace ==> a == Sent(SIGTERM, s.now) || a == Sent(SIGKILL, s.now + GRACE)
    ensures ok <==> !s.waitFails && !s.termFails && (s.InTime() || !s.killFails)
    ensures Sent(SIGKILL, s.now + GRACE) in trace ==> !s.InTime()
    ensures ok && !s.InTime() ==> Sent(SIGKILL, s.now + GRACE) in trace
    ensures !s.waitFails && !s.termFails <==> Sent(SIGTERM, s.now) in trace
  {
    if s.waitFails || s.termFails {
      return [], false;
    }
    Append([], Sent(SIGTERM, s.now));
    trace := [] + [Sent(SIGTERM, s.now)];
    if !s.InTime() {
      if s.killFails {
        return trace, false;
      }
      Append(trace, Sent(SIGKILL, s.now + GRACE));
      trace := trace + [Sent(SIGKILL, s.now + GRACE)];
    }
    return trace, true;
  }

  /** The signals and the wait; Nil means that the channel has delivered. */
  method Terminate(s: Schedule) returns (trace: seq<Action>, r: Result)
    ensures Proper(trace) && Signals(trace) <= 2
    ensures Deleted !in trace && SawStopped !in trace && Refused !in trace
    ensures r == Nil <==> !s.waitFails && !s.termFails && (s.InTime() || !s.killFails) && s.NewsOf(!s.InTime()).Some?
    ensures SawExit in trace <==> r == Nil && s.NewsOf(!s.InTime()).value.Exit?
    ensures SawError in trace <==> r == Nil && s.NewsOf(!s.InTime()).value.Broken?
    ensures r == Hangs ==> s.killTakes.None? && s.exitAt.None? && s.breaksAt.None?
    ensures r == Nil && !s.InTime() ==> Sent(SIGKILL, s.now + GRACE) in trace
    ensures !s.waitFails && !s.termFails <==> Sent(SIGTERM, s.now) in trace
    ensures s.InTime() ==> forall t: nat :: Sent(SIGKILL, t) !in trace
  {
    var ok;
    trace, ok := SendSignals(s);
    if !ok {
      return trace, Error;
    }
    var news := s.NewsOf(!s.InTime());
    if news.None? {
      return trace, Hangs;
    }
    var a := if news.value.Exit? then SawExit else SawError;
    Append(trace, a);
    return trace + [a], Nil;
  }

  /** containerd refuses to delete a task whose process runs, so after an error on the exit
      channel the deletion is tried in vain. */
  method StopTask(s: Schedule, stopped: bool) returns (trace: seq<Action>, r: Result)
    ensures Proper(trace) && Signals(trace) <= 2
    ensures r == Nil <==> Deleted in trace
    ensures Seen(trace) == OutcomeOf(s, stopped)
    ensures Deleted in trace && !stopped ==> SawExit in trace
    ensures Refused in trace ==> SawError in trace
    ensures r == Hangs ==> s.killTakes.None? && s.exitAt.None? && s.breaksAt.None?
    ensures s.InTime() || stopped ==> forall t: nat :: Sent(SIGKILL, t) !in trace
    ensures r == Nil && !stopped && !s.InTime() ==> Sent(SIGKILL, s.now + GRACE) in trace
    ensures stopped ==> Signals(trace) == 0
    ensures !stopped && !s.statusFails && !s.waitFails && !s.termFails <==> Sent(SIGTERM, s.now) in trace
  {
    trace := [];
    if s.statusFails {
      return trace, Error;
    }
    if stopped {
      Append([], SawStopped);
      trace := [] + [SawStopped];
    } else {
      trace, r := Terminate(s);
      if r != Nil {
        return;
      }
    }
    if SawError in trace {
      Append(trace, Refused);
      trace := trace + [Refused];
      return trace, Error;
    }
    if s.deleteFails {
      return trace, Error;
    }
    Append(trace, Deleted);
    trace := trace + [Deleted];
    return trace, Nil;
  }
}
