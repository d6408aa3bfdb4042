/** What each step does and that it can be taken, in every reachable state of the split-call model: the calls
    take effect, the processes store what they say, and a monitor is never stuck. */
module LifeCycleSteps {
  import opened Strings
  import opened Types
  import opened LifeCycle
  import opened LifeCycleRuns

  // ---------------------------------------------------------------- the state calls

  /** A caller that begins now can read and then write: the job's row then shows `state`, its notification
      says `noted`, and nothing else has changed. */
  ghost predicate Stores(s: State, c: nat, j: nat, call: Call, state: JState, noted: JState) {
    && Enabled(s, Read(c, j, call)) && Enabled(Apply(s, Read(c, j, call)), Write(c))
    && var s' := Apply(Apply(s, Read(c, j, call)), Write(c));
       && j < |s.jobs| && s'.jobs == s.jobs[j := s.jobs[j].(row := s.jobs[j].row.(state := Some(state)))]
       && s'.sems == s.sems && s'.pending == s.pending && s'.callback == s.callback
       && s'.notes == s.notes + (if s.callback then [(j, noted)] else [])
  }

  /** A caller that begins now is refused behind its read, and nothing has changed. */
  ghost predicate Refused(s: State, c: nat, j: nat, call: Call) {
    Enabled(s, Read(c, j, call)) && Apply(s, Read(c, j, call)) == s
  }

  /** In every reachable state each call does what its name says to a job in the state it is made for, and is
      refused for a job in any other state. */
  lemma CallsTakeEffect(states: seq<State>, steps: seq<Step>, i: nat, j: nat, c: nat)
    requires IsRun(states, steps) && i <= |steps| && j < |states[i].jobs|
    requires states[i].jobs[j].row.state.Some? && c !in states[i].pending
    ensures var s, was := states[i], states[i].jobs[j].row.state.value;
            && (if was == RUNNING then Stores(s, c, j, Suspend, SUSPENDED, SUSPENDED) else Refused(s, c, j, Suspend))
            && (if was == SUSPENDED then Stores(s, c, j, Resume, RUNNING, RUNNING) else Refused(s, c, j, Resume))
            && (if was == QUEUED then Stores(s, c, j, Hold, QUEUED_HELD, QUEUED_HELD) else Refused(s, c, j, Hold))
            && (if was == QUEUED_HELD then Stores(s, c, j, Release, QUEUED, QUEUED) else Refused(s, c, j, Release))
  {
    hide IsRun, Enabled, Apply, Stores, Refused;
    RunLength(states, steps);
    RequeuedIsNeverStored(states, steps, i, j);
    var s, was := states[i], states[i].jobs[j].row.state.value;
    if was == RUNNING { AllowedStores(s, c, j, Suspend); } else { OtherIsRefused(s, c, j, Suspend); }
    if was == SUSPENDED { AllowedStores(s, c, j, Resume); } else { OtherIsRefused(s, c, j, Resume); }
    if was == QUEUED { AllowedStores(s, c, j, Hold); } else { OtherIsRefused(s, c, j, Hold); }
    if was == QUEUED_HELD { AllowedStores(s, c, j, Release); } else { OtherIsRefused(s, c, j, Release); }
  }

  lemma AllowedStores(s: State, c: nat, j: nat, call: Call)
    requires j < |s.jobs| && s.jobs[j].row.state.Some? && c !in s.pending
    requires Decide(call, s.jobs[j].row.state.value).Some?
    ensures var was := s.jobs[j].row.state.value;
            Stores(s, c, j, call, Decide(call, was).value, Notified(call, was))
  {
    hide Decide, Notified;
    var was := s.jobs[j].row.state.value;
    assert s.pending[c := Pending(j, call, was)] - {c} == s.pending;
  }

  lemma OtherIsRefused(s: State, c: nat, j: nat, call: Call)
    requires j < |s.jobs| && s.jobs[j].row.state.Some? && c !in s.pending
    requires Decide(call, s.jobs[j].row.state.value).None?
    ensures Refused(s, c, j, call)
  {
  }

  // ---------------------------------------------------------------- what the processes store

  /** What the steps of a job's own processes do to its row: the columns, and the values they get. */
  predicate RowAfter(b: Job, own: OwnStep, row: Row) {
    match own
    case SaveQueued => row == b.row.(state := Some(QUEUED))
    case SaveRunning => row == b.row.(state := Some(RUNNING))
    case SavePid(now) =>
      b.monitor.Forked? && row == b.row.(pid := Some(b.monitor.pid), dispatched := Some(now))
    case SaveExitStatus(now) =>
      b.process.Dead?
      && row == b.row.(exitStatus := Some(if b.process.status.Exited? then b.process.status.code % 256 else 0),
                       finished := Some(now))
    case SaveFinal =>
      b.process.Dead? && row == b.row.(state := Some(if b.process.status.Exited? then DONE else FAILED))
    case _ => row == b.row
  }

  /** Only the writes of RUNNING and of the final state are notified. */
  function NotesOf(b: Job, j: nat, own: OwnStep): seq<(nat, JState)> {
    match own
    case SaveRunning => [(j, RUNNING)]
    case SaveFinal =>
      if b.process.Dead? then [(j, if b.process.status.Exited? then DONE else FAILED)] else []
    case _ => []
  }

  /** Every own step in a run: what it has stored in the row of its job, that it has left every other row and
      all pending calls alone, and what it has notified. */
  lemma OwnStepStores(states: seq<State>, steps: seq<Step>, i: nat, j: nat, own: OwnStep)
    requires IsRun(states, steps) && i < |steps| && steps[i] == Own(j, own)
    ensures var s, s' := states[i], states[i + 1];
            && j < |s.jobs| == |s'.jobs| && RowAfter(s.jobs[j], own, s'.jobs[j].row)
            && (forall k :: 0 <= k < |s.jobs| && k != j ==> s'.jobs[k] == s.jobs[k])
            && s'.pending == s.pending
            && s'.notes == s.notes + (if s.callback then NotesOf(s.jobs[j], j, own) else [])
  {
    hide Inv, SemOf, SemAfter, OwnAfter, RowAfter, NotedState, NotesOf, OwnEnabled;
    RunKeepsInv(states, steps, i);
    assert Follows(states, steps, i);
    JobAndSem(states[i], j);
    OwnAfterStores(states[i].jobs[j], SemOf(states[i], j), j, own);
  }

  lemma OwnAfterStores(b: Job, sem: Option<nat>, j: nat, own: OwnStep)
    requires JobInv(b) && OwnEnabled(b, sem, own)
    ensures RowAfter(b, own, OwnAfter(b, own).row)
    ensures NotesOf(b, j, own) == match NotedState(b, own) case None => [] case Some(state) => [(j, state)]
  {
  }

  // ---------------------------------------------------------------- nobody is stuck

  /** The row when a monitor that finds the process dead has made its three steps, and it can make them. */
  ghost predicate EndIsStored(s: State, j: nat, now: nat) {
    && Enabled(s, Own(j, WaitPid))
    && var s1 := Apply(s, Own(j, WaitPid));
       && Enabled(s1, Own(j, SaveExitStatus(now)))
       && var s2 := Apply(s1, Own(j, SaveExitStatus(now)));
          && Enabled(s2, Own(j, SaveFinal))
          && var s3 := Apply(s2, Own(j, SaveFinal));
             && j < |s.jobs| == |s3.jobs| && s.jobs[j].process.Dead?
             && s3.jobs[j].row ==
                  match s.jobs[j].process.status
                  case Exited(code) =>
                    s.jobs[j].row.(exitStatus := Some(code % 256), finished := Some(now), state := Some(DONE))
                  case Signaled(_) =>
                    s.jobs[j].row.(exitStatus := Some(0), finished := Some(now), state := Some(FAILED))
  }

  /** A monitor is never stuck behind the end of its process: in every reachable state its three steps can be
      taken and store how the process ended. */
  lemma EndProgresses(states: seq<State>, steps: seq<Step>, i: nat, j: nat, now: nat)
    requires IsRun(states, steps) && i <= |steps| && j < |states[i].jobs|
    requires states[i].jobs[j].process.Dead? && states[i].jobs[j].monitor.Posted?
    ensures EndIsStored(states[i], j, now)
  {
    hide SemOf, SemAfter, NotedState, Note, SetSem, IsRun;
    RunLength(states, steps);
  }

  /** What the monitor can do next once its process is dead: each of its program points has its step. */
  lemma MonitorIsNeverStuck(states: seq<State>, steps: seq<Step>, i: nat, j: nat, now: nat)
    requires IsRun(states, steps) && i <= |steps| && j < |states[i].jobs| && states[i].jobs[j].process.Dead?
    ensures var s, b := states[i], states[i].jobs[j];
            || (b.monitor.Forked? && Enabled(s, Own(j, SavePid(now))))
            || (b.monitor.PidSaved? && Enabled(s, Own(j, SemPost)))
            || (b.monitor.Posted? && Enabled(s, Own(j, WaitPid)))
            || (b.monitor.Reaped? && Enabled(s, Own(j, SaveExitStatus(now))))
            || (b.monitor.ExitSaved? && Enabled(s, Own(j, SaveFinal)))
            || b.monitor.Ended?
  {
    hide Inv, IsRun, SemOf;
    RunLength(states, steps);
    RunKeepsInv(states, steps, i);
    JobAndSem(states[i], j);
  }

  /** What a job process can do: write RUNNING first, or be ended by any signal; then exit with any code, or be
      ended by any signal; then nothing. */
  lemma ProcessSteps(states: seq<State>, steps: seq<Step>, i: nat, j: nat, status: Status)
    requires IsRun(states, steps) && i <= |steps| && j < |states[i].jobs|
    ensures var s, process := states[i], states[i].jobs[j].process;
            && (Enabled(s, Own(j, SaveRunning)) <==> process == Launched)
            && (Enabled(s, Own(j, JobDies(status))) <==>
                  process == LifeCycle.Running || (process == Launched && status.Signaled?))
            && (process == Launched ==>
                  Apply(s, Own(j, SaveRunning)).jobs[j].row.state == Some(RUNNING)
                  && Apply(s, Own(j, SaveRunning)).jobs[j].process == LifeCycle.Running)
  {
    hide IsRun, SemOf, SetSem, SemAfter, Note;
    RunLength(states, steps);
  }

  // ---------------------------------------------------------------- semaphores and new jobs

  /** In every reachable state a job's semaphore exists from its open until its unlink and at no other time, so
      none is left behind; it is up exactly when the monitor has posted and the submitter still waits. */
  lemma SemaphoreLives(states: seq<State>, steps: seq<Step>, i: nat, j: nat)
    requires IsRun(states, steps) && i <= |steps| && j < |states[i].jobs|
    ensures var s, b, name := states[i], states[i].jobs[j], "drmaa2" + Decimal(j + 1);
            && (name in s.sems <==> b.submitter != Inserted && b.submitter != Returned)
            && (name in s.sems ==>
                  s.sems[name] ==
                    if b.submitter == LifeCycle.Waiting
                       && (b.monitor.Posted? || b.monitor.Reaped? || b.monitor.ExitSaved? || b.monitor.Ended?)
                    then 1 else 0)
  {
    hide Inv, JobInv, IsRun, Decimal;
    RunLength(states, steps);
    RunKeepsInv(states, steps, i);
    JobAndSem(states[i], j);
  }

  /** A submission can begin in every state: it adds a row in which nothing is stored yet, and touches nothing
      else. */
  lemma JobsCanBeAdded(s: State)
    ensures Enabled(s, SaveJob)
    ensures var s' := Apply(s, SaveJob);
            && |s'.jobs| == |s.jobs| + 1 && s'.jobs[..|s.jobs|] == s.jobs
            && s'.jobs[|s.jobs|].row == Row(None, None, None, None, None)
            && s'.jobs[|s.jobs|].submitter == Inserted
            && s'.sems == s.sems && s'.pending == s.pending && s'.notes == s.notes
  {
  }
}
