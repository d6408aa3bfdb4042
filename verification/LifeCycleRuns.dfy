/** What holds over all runs of the split-call model: complete final rows, notifications, the
    semaphore handshake, and how a final state can be lost. */
module LifeCycleRuns {
  import opened Strings
  import opened Types
  import opened LifeCycle
  import Waiting

  // ---------------------------------------------------------------- reachable states

  /** A row that shows DONE or FAILED is complete: pid, dispatch time, exit status and finish time
      are stored, the job process is dead, its monitor has made its one final write, and the state
      and the exit status tell how the process ended. */
  lemma FinalRowIsComplete(states: seq<State>, steps: seq<Step>, i: nat, j: nat)
    requires IsRun(states, steps) && i <= |steps| && j < |states[i].jobs|
    requires states[i].jobs[j].row.state.Some? && Terminal(states[i].jobs[j].row.state.value)
    ensures var b := states[i].jobs[j];
            && b.process.Dead? && b.finalWrites == 1
            && b.row.pid.Some? && b.row.dispatched.Some? && b.row.finished.Some?
            && (match b.process.status
                case Exited(code) => b.row.state == Some(DONE) && b.row.exitStatus == Some(code % 256)
                case Signaled(_) => b.row.state == Some(FAILED) && b.row.exitStatus == Some(0))
  {
    hide Apply, Enabled;
    RunKeepsInv(states, steps, i);
    assert JobInv(states[i].jobs[j]);
  }

  /** Exit codes are told apart: two DONE rows, of any runs, show the same exit status
      if and only if the exit codes of their processes agree in the lower eight bits. */
  lemma ExitCodesShow(states: seq<State>, steps: seq<Step>, i: nat, j: nat,
                      states': seq<State>, steps': seq<Step>, i': nat, j': nat)
    requires IsRun(states, steps) && i <= |steps| && j < |states[i].jobs|
    requires IsRun(states', steps') && i' <= |steps'| && j' < |states'[i'].jobs|
    requires states[i].jobs[j].row.state == Some(DONE) && states'[i'].jobs[j'].row.state == Some(DONE)
    ensures var b, b' := states[i].jobs[j], states'[i'].jobs[j'];
            && b.process.Dead? && b.process.status.Exited? && b'.process.Dead? && b'.process.status.Exited?
            && (b.row.exitStatus == b'.row.exitStatus <==>
                  b.process.status.code % 256 == b'.process.status.code % 256)
            && (b.process.status.code < 256 && b'.process.status.code < 256 ==>
                  (b.row.exitStatus == b'.row.exitStatus <==> b.process.status.code == b'.process.status.code))
  {
    hide IsRun;
    RunLength(states, steps);
    RunLength(states', steps');
    FinalRowIsComplete(states, steps, i, j);
    FinalRowIsComplete(states', steps', i', j');
  }

  /** No run ever stores REQUEUED, REQUEUED_HELD or UNDETERMINED, so hold never takes the branch
      that notifies a state other than the one it writes. */
  lemma RequeuedIsNeverStored(states: seq<State>, steps: seq<Step>, i: nat, j: nat)
    requires IsRun(states, steps) && i <= |steps| && j < |states[i].jobs|
    requires states[i].jobs[j].row.state.Some?
    ensures var state := states[i].jobs[j].row.state.value;
            && state != REQUEUED && state != REQUEUED_HELD && state != UNDETERMINED
            && forall call :: Decide(call, state).Some? ==> Notified(call, state) == Decide(call, state).value
  {
    hide Apply, Enabled;
    RunKeepsInv(states, steps, i);
    assert JobInv(states[i].jobs[j]);
  }

  /** With a callback registered before submission, replaying a job's notifications from QUEUED
      gives its stored state. */
  lemma NotificationsTellState(states: seq<State>, steps: seq<Step>, i: nat, j: nat)
    requires IsRun(states, steps) && i <= |steps| && j < |states[i].jobs|
    requires states[0].callback && states[i].jobs[j].row.state.Some?
    ensures states[i].jobs[j].row.state == Some(Replay(states[i].notes, j))
  {
    hide Apply, Enabled, Replay;
    RunKeepsInv(states, steps, i);
    CallbackStays(states, steps, i);
  }

  lemma {:induction false} CallbackStays(states: seq<State>, steps: seq<Step>, i: nat)
    requires IsRun(states, steps) && i <= |steps|
    ensures states[i].callback == states[0].callback
  {
    if i > 0 {
      CallbackStays(states, steps, i - 1);
      assert Follows(states, steps, i - 1);
    }
  }

  /** A stored state other than QUEUED and QUEUED_HELD means that the job process has executed its
      write of RUNNING or has already ended. */
  lemma StartedStateIsSound(states: seq<State>, steps: seq<Step>, i: nat, j: nat)
    requires IsRun(states, steps) && i <= |steps| && j < |states[i].jobs|
    requires states[i].jobs[j].row.state.Some?
    requires states[i].jobs[j].row.state.value != QUEUED && states[i].jobs[j].row.state.value != QUEUED_HELD
    ensures HasRun(states[i].jobs[j].process) || states[i].jobs[j].process.Dead?
  {
    hide Apply, Enabled;
    RunKeepsInv(states, steps, i);
    assert JobInv(states[i].jobs[j]);
  }

  // ---------------------------------------------------------------- the semaphore handshake

  /** Once `submit_job_to_DRMS` has returned, the row holds the pid of the job's process group
      leader and a state, so terminate never reads a NULL pid and get_state never a NULL state. */
  lemma ReturnedJobHasPid(states: seq<State>, steps: seq<Step>, i: nat, j: nat)
    requires IsRun(states, steps) && i <= |steps| && j < |states[i].jobs|
    requires states[i].jobs[j].submitter == Returned
    ensures var b := states[i].jobs[j];
            && b.row.pid.Some? && b.row.dispatched.Some? && b.row.state.Some?
            && HasPosted(b.monitor) && b.row.pid.value == b.monitor.pid
  {
    hide Apply, Enabled;
    RunKeepsInv(states, steps, i);
    assert JobInv(states[i].jobs[j]);
  }

  function RowsOf(s: State): (rows: seq<Row>)
    ensures |rows| == |s.jobs| && forall k :: 0 <= k < |rows| ==> rows[k] == s.jobs[k].row
  {
    seq(|s.jobs|, k requires 0 <= k < |s.jobs| => s.jobs[k].row)
  }

  /** No step of any process or caller takes a stored column from any row, or stores another value in one
      that is not the state. */
  lemma StepGrows(s: State, step: Step, k: nat)
    requires Inv(s) && Enabled(s, step) && k < |s.jobs|
    ensures k < |Apply(s, step).jobs| && Later(s.jobs[k].row, Apply(s, step).jobs[k].row)
  {
    hide Inv, JobInv, OwnEnabled, OwnAfter, SemAfter, NotedState, ExpectedSem, SemOf, Decide, Later;
    SameGrows(s.jobs[k].row);
    match step
    case Own(j, own) =>
      JobAndSem(s, j);
      OwnGrows(s.jobs[j], SemOf(s, j), own);
    case Write(c) => WriteGrows(s.jobs[k], Decide(s.pending[c].call, s.pending[c].seen).value);
    case _ =>
  }

  lemma SameGrows(row: Row)
    ensures Later(row, row)
  {
  }

  lemma LaterChain(a: Row, b: Row, c: Row)
    requires Later(a, b) && Later(b, c)
    ensures Later(a, c)
  {
  }

  lemma OwnGrows(b: Job, sem: Option<nat>, own: OwnStep)
    requires JobInv(b) && OwnEnabled(b, sem, own)
    ensures Later(b.row, OwnAfter(b, own).row)
  {
  }

  lemma WriteGrows(b: Job, state: JState)
    ensures Later(b.row, SetState(b, state).row)
  {
  }

  lemma {:induction false} RunGrows(states: seq<State>, steps: seq<Step>, a: nat, b: nat, k: nat)
    requires IsRun(states, steps) && a <= b <= |steps| && k < |states[a].jobs|
    ensures k < |states[b].jobs| && Later(states[a].jobs[k].row, states[b].jobs[k].row)
    decreases b
  {
    hide Enabled, Apply, Init, Inv, Later;
    if a == b {
      SameGrows(states[a].jobs[k].row);
    } else {
      RunGrows(states, steps, a, b - 1, k);
      RunKeepsInv(states, steps, b - 1);
      assert Follows(states, steps, b - 1);
      StepGrows(states[b - 1], steps[b - 1], k);
      LaterChain(states[a].jobs[k].row, states[b - 1].jobs[k].row, states[b].jobs[k].row);
    }
  }

  /** Pid, dispatch time, exit status and finish time are written once: what any of them shows in a state of a
      run it shows in every later one. */
  lemma WrittenOnce(states: seq<State>, steps: seq<Step>, a: nat, b: nat, k: nat)
    requires IsRun(states, steps) && a <= b <= |steps| && k < |states[a].jobs|
    ensures k < |states[b].jobs|
    ensures var r, r' := states[a].jobs[k].row, states[b].jobs[k].row;
            && (r.pid.Some? ==> r'.pid == r.pid) && (r.dispatched.Some? ==> r'.dispatched == r.dispatched)
            && (r.exitStatus.Some? ==> r'.exitStatus == r.exitStatus)
            && (r.finished.Some? ==> r'.finished == r.finished) && (r.state.Some? ==> r'.state.Some?)
  {
    hide IsRun;
    RunGrows(states, steps, a, b, k);
  }

  lemma RunKeepsJobs(states: seq<State>, steps: seq<Step>, a: nat, b: nat, j: nat)
    requires IsRun(states, steps) && a <= b <= |steps| && j < |states[a].jobs|
    ensures |states[a].jobs| <= |states[b].jobs|
  {
    hide IsRun;
    RunLength(states, steps);
    RunGrows(states, steps, a, b, |states[a].jobs| - 1);
  }

  /** What a submission finds in the table when its wait is over, for every run and whatever has happened
      since any earlier state of it. */
  lemma WaitLeavesRows(states: seq<State>, steps: seq<Step>, a: nat, b: nat, j: nat)
    requires IsRun(states, steps) && a <= b <= |steps| && j < |states[a].jobs|
    requires j < |states[b].jobs| && states[b].jobs[j].submitter == Returned
    ensures AfterWait(RowsOf(states[a]), RowsOf(states[b]), j)
  {
    hide IsRun, Later;
    RunLength(states, steps);
    var was, now := RowsOf(states[a]), RowsOf(states[b]);
    RunKeepsJobs(states, steps, a, b, j);
    forall k | 0 <= k < |was| ensures Later(was[k], now[k]) {
      RunGrows(states, steps, a, b, k);
    }
    ReturnedJobHasPid(states, steps, b, j);
  }

  /** Steps of the three processes that are left before the submitter returns. */
  function Remaining(b: Job): nat {
    match b.submitter
    case Inserted => 8
    case Opened => 7
    case QueuedSaved => 6
    case Waiting =>
      if HasPosted(b.monitor) then 2 else if b.monitor.PidSaved? then 3 else if b.monitor.Forked? then 4 else 5
    case Released => 1
    case Returned => 0
  }

  /** The step that the submission of the job is waiting for. */
  function Due(b: Job, pid: nat, now: nat): OwnStep {
    match b.submitter
    case Inserted => SemOpen
    case Opened => SaveQueued
    case QueuedSaved => ForkMonitor
    case Waiting =>
      if HasPosted(b.monitor) then SemWait
      else if b.monitor.PidSaved? then SemPost
      else if b.monitor.Forked? then SavePid(now)
      else ForkJob(pid)
    case _ => SemUnlink
  }

  /** A submitter is never stuck: as long as it has not returned, the step it waits for is enabled,
      whatever the other jobs and the callers have done, and brings it one step nearer. In
      particular the exclusive open of the semaphore never finds its name taken. */
  lemma SubmissionProgresses(states: seq<State>, steps: seq<Step>, i: nat, j: nat, pid: nat, now: nat)
    requires IsRun(states, steps) && i <= |steps| && j < |states[i].jobs|
    requires states[i].jobs[j].submitter != Returned
    ensures var s := states[i];
            var due := Own(j, Due(s.jobs[j], pid, now));
            Enabled(s, due) && Remaining(Apply(s, due).jobs[j]) == Remaining(s.jobs[j]) - 1
  {
    hide Inv, JobInv, SemOf;
    RunKeepsInv(states, steps, i);
    var s := states[i];
    JobAndSem(s, j);
    DueIsEnabled(s.jobs[j], SemOf(s, j), pid, now);
  }

  lemma DueIsEnabled(b: Job, sem: Option<nat>, pid: nat, now: nat)
    requires JobInv(b) && sem == ExpectedSem(b) && b.submitter != Returned
    ensures OwnEnabled(b, sem, Due(b, pid, now))
    ensures Remaining(OwnAfter(b, Due(b, pid, now))) == Remaining(b) - 1
  {
  }

  /** The step is the one that the submission of job `j` waits for. */
  predicate IsDue(s: State, step: Step, j: nat) {
    && j < |s.jobs| && step.Own? && step.job == j && s.jobs[j].submitter != Returned
    && step.own == Due(s.jobs[j], if step.own.ForkJob? then step.own.pid else 0,
                       if step.own.SavePid? then step.own.now else 0)
  }

  /** How many due steps of the job the run takes between two states. */
  function DueSteps(states: seq<State>, steps: seq<Step>, j: nat, a: nat, b: nat): nat
    requires a <= b <= |steps| < |states|
    decreases b
  {
    if a == b then 0
    else DueSteps(states, steps, j, a, b - 1) + (if IsDue(states[b - 1], steps[b - 1], j) then 1 else 0)
  }

  /** No step of any process or caller moves a submission back, and a due step moves it on. */
  lemma NoStepDelays(states: seq<State>, steps: seq<Step>, i: nat, j: nat)
    requires IsRun(states, steps) && i < |steps| && j < |states[i].jobs|
    ensures j < |states[i + 1].jobs| && Remaining(states[i + 1].jobs[j]) <= Remaining(states[i].jobs[j]) <= 8
    ensures IsDue(states[i], steps[i], j) ==> Remaining(states[i + 1].jobs[j]) < Remaining(states[i].jobs[j])
  {
    hide Inv;
    RunKeepsInv(states, steps, i);
    assert Follows(states, steps, i);
    var s, step := states[i], steps[i];
    JobAndSem(s, j);
    if step.Own? && step.job == j {
      OwnNeverDelays(s.jobs[j], SemOf(s, j), step.own);
      if IsDue(s, step, j) {
        DueIsEnabled(s.jobs[j], SemOf(s, j), if step.own.ForkJob? then step.own.pid else 0,
                     if step.own.SavePid? then step.own.now else 0);
      }
    }
  }

  /** What the due steps of a stretch of a run have done to a submission. */
  lemma {:induction false} DueStepsAdvance(states: seq<State>, steps: seq<Step>, j: nat, a: nat, b: nat)
    requires IsRun(states, steps) && a <= b <= |steps| && j < |states[a].jobs|
    ensures |steps| < |states| && j < |states[b].jobs|
    ensures Remaining(states[b].jobs[j]) + DueSteps(states, steps, j, a, b) <= Remaining(states[a].jobs[j])
    decreases b
  {
    hide Apply, Enabled, Init, IsDue, Remaining;
    if a < b {
      DueStepsAdvance(states, steps, j, a, b - 1);
      NoStepDelays(states, steps, b - 1, j);
    }
  }

  /** As many due steps as are left, and never more than eight, return the submission, whatever the other
      processes and callers do in between. */
  lemma SubmissionReturns(states: seq<State>, steps: seq<Step>, j: nat, a: nat, b: nat)
    requires IsRun(states, steps) && a <= b <= |steps| && j < |states[a].jobs|
    ensures |steps| < |states| && j < |states[b].jobs|
    ensures Remaining(states[a].jobs[j]) <= 8 && DueSteps(states, steps, j, a, b) <= Remaining(states[a].jobs[j])
    ensures DueSteps(states, steps, j, a, b) == Remaining(states[a].jobs[j]) ==> states[b].jobs[j].submitter == Returned
  {
    hide IsRun, IsDue;
    DueStepsAdvance(states, steps, j, a, b);
  }

  lemma OwnNeverDelays(b: Job, sem: Option<nat>, own: OwnStep)
    requires JobInv(b) && sem == ExpectedSem(b) && OwnEnabled(b, sem, own)
    ensures Remaining(OwnAfter(b, own)) <= Remaining(b)
  {
  }

  // ---------------------------------------------------------------- how a final state is lost

  /** What one step can do to a job whose monitor has ended, and where final writes come from. */
  lemma StepOnJob(s: State, step: Step, j: nat)
    requires Inv(s) && Enabled(s, step) && j < |s.jobs|
    ensures var s' := Apply(s, step);
            && j < |s'.jobs|
            && (s.jobs[j].monitor.Ended? ==> s'.jobs[j].monitor.Ended?)
            && (s.jobs[j].monitor.Ended? && s'.jobs[j].row.state != s.jobs[j].row.state ==>
                  && step.Write? && s.pending[step.caller].job == j
                  && s'.jobs[j].row.state.Some? && !Terminal(s'.jobs[j].row.state.value))
            && (s'.jobs[j].monitor.Ended? && !s.jobs[j].monitor.Ended? ==> step == Own(j, SaveFinal))
  {
    hide JobInv, Inv;
    JobAndSem(s, j);
    match step
    case SaveJob =>
    case Own(i, own) =>
      if i == j {
        OwnOnJob(s.jobs[j], SemOf(s, j), own);
      }
    case Read(_, _, _) =>
    case Write(c) =>
      WriteIsNotFinal(s, c);
  }

  lemma OwnOnJob(b: Job, sem: Option<nat>, own: OwnStep)
    requires JobInv(b) && OwnEnabled(b, sem, own)
    ensures b.monitor.Ended? ==> OwnAfter(b, own).monitor.Ended? && OwnAfter(b, own).row == b.row
    ensures OwnAfter(b, own).monitor.Ended? && !b.monitor.Ended? ==> own == SaveFinal
  {
  }

  lemma WriteIsNotFinal(s: State, c: nat)
    requires Inv(s) && c in s.pending
    ensures Decide(s.pending[c].call, s.pending[c].seen).Some?
    ensures !Terminal(Decide(s.pending[c].call, s.pending[c].seen).value)
  {
    assert PendingInv(s.jobs, s.pending[c]);
  }

  /** A final state that was overwritten is lost forever: the row never shows DONE or FAILED again,
      so no later wait for termination can succeed. */
  lemma {:induction false} LostForever(states: seq<State>, steps: seq<Step>, a: nat, b: nat, j: nat)
    requires IsRun(states, steps) && a <= b <= |steps| && j < |states[a].jobs|
    requires states[a].jobs[j].monitor.Ended?
    requires states[a].jobs[j].row.state.Some? && !Terminal(states[a].jobs[j].row.state.value)
    ensures j < |states[b].jobs| && states[b].jobs[j].monitor.Ended?
    ensures states[b].jobs[j].row.state.Some? && !Terminal(states[b].jobs[j].row.state.value)
  {
    hide Inv, Apply, Enabled, Init;
    if a < b {
      LostForever(states, steps, a, b - 1, j);
      RunKeepsInv(states, steps, b - 1);
      assert Follows(states, steps, b - 1);
      StepOnJob(states[b - 1], steps[b - 1], j);
    }
  }

  /** An ended monitor has made its final write, in a step of the run. */
  lemma {:induction false} FinalWriteHappened(states: seq<State>, steps: seq<Step>, i: nat, j: nat) returns (t: nat)
    requires IsRun(states, steps) && i <= |steps| && j < |states[i].jobs| && states[i].jobs[j].monitor.Ended?
    ensures t < i && steps[t] == Own(j, SaveFinal)
    ensures forall m :: t < m <= i ==> j < |states[m].jobs| && states[m].jobs[j].monitor.Ended?
  {
    hide Inv, Apply, Enabled;
    RunKeepsInv(states, steps, i - 1);
    assert Follows(states, steps, i - 1);
    var s := states[i - 1];
    if j < |s.jobs| {
      StepOnJob(s, steps[i - 1], j);
      if s.jobs[j].monitor.Ended? {
        t := FinalWriteHappened(states, steps, i - 1, j);
      } else {
        t := i - 1;
      }
    } else {
      NewJobIsNotEnded(s, steps[i - 1], j);
      assert false;
    }
  }

  lemma NewJobIsNotEnded(s: State, step: Step, j: nat)
    requires Enabled(s, step) && |s.jobs| <= j < |Apply(s, step).jobs|
    ensures !Apply(s, step).jobs[j].monitor.Ended?
  {
  }

  /** A pending write was read in an earlier step, and what it saw was the stored state then. */
  lemma {:induction false} ReadHappened(states: seq<State>, steps: seq<Step>, i: nat, c: nat) returns (k: nat)
    requires IsRun(states, steps) && i <= |steps| && c in states[i].pending
    ensures var p := states[i].pending[c];
            && k < i && steps[k] == Read(c, p.job, p.call)
            && p.job < |states[k].jobs| && states[k].jobs[p.job].row.state == Some(p.seen)
            && forall m :: k < m <= i ==> c in states[m].pending && states[m].pending[c] == p
  {
    assert i > 0;
    assert Follows(states, steps, i - 1);
    var s, step := states[i - 1], steps[i - 1];
    if c in s.pending && s.pending[c] == states[i].pending[c] {
      k := ReadHappened(states, steps, i - 1, c);
    } else {
      k := i - 1;
    }
  }

  /** The only way a DONE or FAILED row is overwritten: by the write of a caller whose read came
      before the monitor's final write, and whose decision on what it read then has been pending since. */
  lemma OverwrittenByEarlierRead(states: seq<State>, steps: seq<Step>, i: nat, j: nat) returns (k: nat, t: nat)
    requires IsRun(states, steps) && i < |steps| && j < |states[i].jobs|
    requires states[i].jobs[j].row.state.Some? && Terminal(states[i].jobs[j].row.state.value)
    requires j < |states[i + 1].jobs| && states[i + 1].jobs[j].row.state != states[i].jobs[j].row.state
    ensures steps[i].Write? && steps[i].caller in states[i].pending && states[i].pending[steps[i].caller].job == j
    ensures k < t < i && steps[t] == Own(j, SaveFinal)
    ensures var c := steps[i].caller;
            var p := states[i].pending[c];
            && steps[k] == Read(c, j, p.call)
            && j < |states[k].jobs| && states[k].jobs[j].row.state == Some(p.seen)
            && (forall m :: k < m <= i ==> c in states[m].pending && states[m].pending[c] == p)
            && states[i + 1].jobs[j].row.state == Decide(p.call, p.seen)
    ensures states[i + 1].jobs[j].row.state.Some? && !Terminal(states[i + 1].jobs[j].row.state.value)
  {
    hide Apply, Enabled, Inv;
    RunKeepsInv(states, steps, i);
    assert Follows(states, steps, i);
    FinalStateEnded(states[i], j);
    StepOnJob(states[i], steps[i], j);
    WriteEnabled(states[i], steps[i]);
    WriteResult(states[i], steps[i].caller);
    var c := steps[i].caller;
    t := FinalWriteHappened(states, steps, i, j);
    k := ReadHappened(states, steps, i, c);
    RunKeepsInv(states, steps, k);
    ReadSawNoFinal(states[i], c);
    if t < k {
      LostForever(states, steps, k, i, j);
    }
  }

  lemma FinalStateEnded(s: State, j: nat)
    requires Inv(s) && j < |s.jobs| && s.jobs[j].row.state.Some? && Terminal(s.jobs[j].row.state.value)
    ensures s.jobs[j].monitor.Ended?
  {
    assert JobInv(s.jobs[j]);
  }

  lemma WriteEnabled(s: State, step: Step)
    requires Enabled(s, step) && step.Write?
    ensures step.caller in s.pending
  {
  }

  lemma WriteResult(s: State, c: nat)
    requires Enabled(s, Write(c))
    ensures var p := s.pending[c];
            && p.job < |Apply(s, Write(c)).jobs|
            && Apply(s, Write(c)).jobs[p.job].row.state == Decide(p.call, p.seen)
  {
  }

  lemma ReadSawNoFinal(s: State, c: nat)
    requires Inv(s) && c in s.pending
    ensures !Terminal(s.pending[c].seen)
  {
    assert PendingInv(s.jobs, s.pending[c]);
  }

  /** A step changes a DONE or FAILED row exactly when it is the write of a state call on that job. */
  lemma FinalStateIsLostIff(states: seq<State>, steps: seq<Step>, i: nat, j: nat)
    requires IsRun(states, steps) && i < |steps| && j < |states[i].jobs|
    requires states[i].jobs[j].row.state.Some? && Terminal(states[i].jobs[j].row.state.value)
    ensures j < |states[i + 1].jobs|
    ensures states[i + 1].jobs[j].row.state != states[i].jobs[j].row.state <==>
            steps[i].Write? && steps[i].caller in states[i].pending && states[i].pending[steps[i].caller].job == j
  {
    hide Inv;
    RunKeepsInv(states, steps, i);
    assert Follows(states, steps, i);
    FinalStateEnded(states[i], j);
    StepOnJob(states[i], steps[i], j);
    if steps[i].Write? {
      WriteIsNotFinal(states[i], steps[i].caller);
    }
  }

  /** No call has read the state of the job and not yet written. */
  ghost predicate NonePending(s: State, j: nat) {
    forall c :: c in s.pending ==> s.pending[c].job != j
  }

  /** A read that finds a final state leaves nothing to write. */
  lemma NonePendingStays(s: State, step: Step, j: nat)
    requires Enabled(s, step) && NonePending(s, j) && j < |s.jobs|
    requires s.jobs[j].row.state.Some? && Terminal(s.jobs[j].row.state.value)
    ensures NonePending(Apply(s, step), j)
  {
  }

  /** A final state on which no call is pending stays in every later state of the run. */
  lemma {:induction false} FinalStateStays(states: seq<State>, steps: seq<Step>, a: nat, b: nat, j: nat)
    requires IsRun(states, steps) && a <= b <= |steps| && j < |states[a].jobs|
    requires states[a].jobs[j].row.state.Some? && Terminal(states[a].jobs[j].row.state.value)
    requires NonePending(states[a], j)
    ensures j < |states[b].jobs| && states[b].jobs[j].row.state == states[a].jobs[j].row.state
    ensures NonePending(states[b], j)
    decreases b
  {
    hide Inv, Apply, Enabled, Init;
    if a < b {
      FinalStateStays(states, steps, a, b - 1, j);
      assert Follows(states, steps, b - 1);
      FinalStateIsLostIff(states, steps, b - 1, j);
      NonePendingStays(states[b - 1], steps[b - 1], j);
    }
  }

  /** The run `states'`, `steps'` goes on from where the other run ends. */
  ghost predicate GoesOn(states: seq<State>, steps: seq<Step>, states': seq<State>, steps': seq<Step>) {
    IsRun(states', steps') && states <= states' && steps <= steps'
  }

  /** The last state shows the same state of the job as state `a`. */
  ghost predicate Kept(states: seq<State>, steps: seq<Step>, a: nat, j: nat) {
    && |states| == |steps| + 1 && a <= |steps| && j < |states[a].jobs|
    && j < |states[|steps|].jobs| && states[|steps|].jobs[j].row.state == states[a].jobs[j].row.state
  }

  /** DONE and FAILED stay however the run goes on if and only if no call is pending on the job: one that
      is pending can write in the very next step, and what it writes is never final. */
  lemma FinalStateStaysIff(states: seq<State>, steps: seq<Step>, j: nat)
    requires IsRun(states, steps) && j < |states[|steps|].jobs|
    requires var r := states[|steps|].jobs[j].row.state; r.Some? && Terminal(r.value)
    ensures (forall states', steps' ::
               GoesOn(states, steps, states', steps') ==> Kept(states', steps', |steps|, j)) <==>
            NonePending(states[|steps|], j)
  {
    hide IsRun, Apply, Enabled, Inv;
    var n := |steps|;
    RunLength(states, steps);
    if NonePending(states[n], j) {
      forall states', steps' | GoesOn(states, steps, states', steps') ensures Kept(states', steps', n, j) {
        RunLength(states', steps');
        assert states'[n] == states[n];
        FinalStateStays(states', steps', n, |steps'|, j);
      }
    } else {
      var c :| c in states[n].pending && states[n].pending[c].job == j;
      RunKeepsInv(states, steps, n);
      PendingIsEnabled(states[n], c);
      var s := Apply(states[n], Write(c));
      var states', steps' := ExtendBy(states, steps, Write(c), s);
      WriteResult(states[n], c);
      WriteIsNotFinal(states[n], c);
      assert GoesOn(states, steps, states', steps') && !Kept(states', steps', n, j);
    }
  }

  lemma PendingIsEnabled(s: State, c: nat)
    requires Inv(s) && c in s.pending
    ensures Enabled(s, Write(c))
  {
    assert PendingInv(s.jobs, s.pending[c]);
  }

  // ---------------------------------------------------------------- a run that loses DONE

  /** A state with one job, its semaphore and the pending writes. */
  ghost function One(b: Job, sem: Option<nat>, pending: map<nat, Pending>): State {
    State([b], SetSem(map[], SemName(0), sem), pending, false, [])
  }

  lemma OneOwn(b: Job, sem: Option<nat>, pending: map<nat, Pending>, own: OwnStep)
    requires OwnEnabled(b, sem, own)
    ensures Enabled(One(b, sem, pending), Own(0, own))
    ensures Apply(One(b, sem, pending), Own(0, own)) == One(OwnAfter(b, own), SemAfter(sem, own), pending)
  {
    hide OwnEnabled, OwnAfter, SemAfter, SemName;
    var s := One(b, sem, pending);
    assert SemOf(s, 0) == sem;
    assert SetSem(s.sems, SemName(0), SemAfter(sem, own)) == SetSem(map[], SemName(0), SemAfter(sem, own));
  }

  /** The witness: a suspend reads RUNNING, the job ends and its monitor stores DONE, and the suspend
      then stores SUSPENDED. */
  lemma DoneCanBeLost()
    ensures exists states: seq<State>, steps: seq<Step>, i: nat ::
              && IsRun(states, steps) && i < |steps|
              && |states[i].jobs| == |states[i + 1].jobs| == 1
              && states[i].jobs[0].row.state == Some(DONE)
              && states[i + 1].jobs[0].row.state == Some(SUSPENDED)
  {
    var states, steps := LosingRun();
    assert states[15].jobs[0].row.state == Some(DONE);
  }

  const RUNNING_JOB :=
    Job(Row(Some(RUNNING), Some(7), Some(1), None, None), Returned, Posted(7), LifeCycle.Running, 0)

  lemma SubmittedRun() returns (states: seq<State>, steps: seq<Step>)
    ensures IsRun(states, steps) && |steps| == 10 && states[10] == One(RUNNING_JOB, None, map[])
    ensures steps == [SaveJob, Own(0, SemOpen), Own(0, SaveQueued), Own(0, ForkMonitor), Own(0, ForkJob(7)),
                      Own(0, SavePid(1)), Own(0, SemPost), Own(0, SemWait), Own(0, SemUnlink), Own(0, SaveRunning)]
  {
    hide IsRun, One;
    var b, sem, none := NEW_JOB, None, map[];
    states, steps := FirstStep();
    states, steps, b, sem := Extend(states, steps, b, sem, none, SemOpen);
    states, steps, b, sem := Extend(states, steps, b, sem, none, SaveQueued);
    states, steps, b, sem := Extend(states, steps, b, sem, none, ForkMonitor);
    states, steps, b, sem := Extend(states, steps, b, sem, none, ForkJob(7));
    states, steps, b, sem := Extend(states, steps, b, sem, none, SavePid(1));
    states, steps, b, sem := Extend(states, steps, b, sem, none, SemPost);
    states, steps, b, sem := Extend(states, steps, b, sem, none, SemWait);
    states, steps, b, sem := Extend(states, steps, b, sem, none, SemUnlink);
    states, steps, b, sem := Extend(states, steps, b, sem, none, SaveRunning);
  }

  lemma FirstStep() returns (states: seq<State>, steps: seq<Step>)
    ensures IsRun(states, steps) && steps == [SaveJob] && states[1] == One(NEW_JOB, None, map[])
  {
    var start := State([], map[], map[], false, []);
    states, steps := [start, One(NEW_JOB, None, map[])], [SaveJob];
    assert Apply(start, SaveJob) == One(NEW_JOB, None, map[]);
  }

  lemma LosingRun() returns (states: seq<State>, steps: seq<Step>)
    ensures IsRun(states, steps) && |steps| == 16
    ensures |states[15].jobs| == 1 && states[15].jobs[0].row.state == Some(DONE)
    ensures |states[16].jobs| == 1 && states[16].jobs[0].row.state == Some(SUSPENDED)
  {
    hide IsRun;
    states, steps := SubmittedRun();
    var b, sem, one := RUNNING_JOB, None, map[1 := Pending(0, Suspend, RUNNING)];
    states, steps := ExtendBy(states, steps, Read(1, 0, Suspend), One(b, sem, one));
    states, steps, b, sem := Extend(states, steps, b, sem, one, JobDies(Exited(0)));
    states, steps, b, sem := Extend(states, steps, b, sem, one, WaitPid);
    states, steps, b, sem := Extend(states, steps, b, sem, one, SaveExitStatus(2));
    states, steps, b, sem := Extend(states, steps, b, sem, one, SaveFinal);
    assert one - {1} == map[];
    states, steps := ExtendBy(states, steps, Write(1), One(SetState(b, SUSPENDED), sem, map[]));
  }

  lemma ExtendBy(states: seq<State>, steps: seq<Step>, step: Step, s: State)
    returns (states': seq<State>, steps': seq<Step>)
    requires IsRun(states, steps) && Enabled(states[|steps|], step) && s == Apply(states[|steps|], step)
    ensures states' == states + [s] && steps' == steps + [step] && IsRun(states', steps')
    ensures |states| == |steps| + 1 && states'[|steps'|] == s
  {
    hide Enabled, Apply;
    states', steps' := states + [s], steps + [step];
    forall i | 0 <= i < |steps'| ensures Follows(states', steps', i) {
      if i < |steps| {
        assert Follows(states, steps, i);
      }
    }
  }

  lemma Extend(states: seq<State>, steps: seq<Step>, b: Job, sem: Option<nat>, pending: map<nat, Pending>, own: OwnStep)
    returns (states': seq<State>, steps': seq<Step>, b': Job, sem': Option<nat>)
    requires IsRun(states, steps) && states[|steps|] == One(b, sem, pending) && OwnEnabled(b, sem, own)
    ensures b' == OwnAfter(b, own) && sem' == SemAfter(sem, own)
    ensures states' == states + [One(b', sem', pending)] && steps' == steps + [Own(0, own)] && IsRun(states', steps')
    ensures |states| == |steps| + 1 && states'[|steps'|] == One(b', sem', pending)
  {
    b', sem' := OwnAfter(b, own), SemAfter(sem, own);
    OneOwn(b, sem, pending, own);
    states', steps' := ExtendBy(states, steps, Own(0, own), One(b', sem', pending));
  }

  // ---------------------------------------------------------------- waiting on a run

  /** Polls that read the row of job `j` in states of the run, at or after state `a`. */
  ghost predicate Polls(states: seq<State>, a: nat, j: nat, at: nat -> nat, seen: nat -> JState) {
    forall p: nat :: a <= at(p) < |states| && j < |states[at(p)].jobs|
                     && states[at(p)].jobs[j].row.state == Some(seen(p))
  }

  /** A wait for the end of a job whose final state was overwritten never qualifies, so with
      INFINITE_TIME it never returns and with any other timeout it answers TIMEOUT. */
  lemma LostJobIsNeverSeenToEnd(states: seq<State>, steps: seq<Step>, a: nat, j: nat,
                                at: nat -> nat, seen: nat -> JState)
    requires IsRun(states, steps) && a <= |steps| && j < |states[a].jobs|
    requires states[a].jobs[j].monitor.Ended?
    requires states[a].jobs[j].row.state.Some? && !Terminal(states[a].jobs[j].row.state.value)
    requires Polls(states, a, j, at, seen)
    ensures forall p: nat :: !Waiting.Qualifies(Waiting.ForEnd, seen(p))
  {
    hide IsRun;
    RunLength(states, steps);
    forall p: nat ensures !Waiting.Qualifies(Waiting.ForEnd, seen(p)) {
      LostForever(states, steps, a, at(p), j);
    }
  }

  /** The other direction: a wait for the end of a job on which no call was pending when its monitor made the
      final write ends with the first poll behind that write, whatever anyone does later; what it sees is
      DONE for a process that exited and FAILED for one that a signal ended. */
  lemma PollsSeeEnd(states: seq<State>, steps: seq<Step>, t: nat, j: nat, at: nat -> nat, seen: nat -> JState, p: nat)
    requires IsRun(states, steps) && t < |steps| && steps[t] == Own(j, SaveFinal) && NonePending(states[t], j)
    requires Polls(states, t + 1, j, at, seen)
    ensures j < |states[at(p)].jobs| && states[at(p)].jobs[j].process.Dead?
    ensures seen(p) == if states[at(p)].jobs[j].process.status.Exited? then DONE else FAILED
    ensures Waiting.Qualifies(Waiting.ForEnd, seen(p))
  {
    hide IsRun, Enabled, Apply;
    RunLength(states, steps);
    FinalWriteIsFinal(states, steps, t, j);
    assert t + 1 <= at(p) < |states|;
    FinalStateStays(states, steps, t + 1, at(p), j);
    FinalRowIsComplete(states, steps, at(p), j);
  }

  lemma FinalWriteIsFinal(states: seq<State>, steps: seq<Step>, t: nat, j: nat)
    requires IsRun(states, steps) && t < |steps| && steps[t] == Own(j, SaveFinal) && NonePending(states[t], j)
    ensures j < |states[t + 1].jobs| && NonePending(states[t + 1], j)
    ensures states[t + 1].jobs[j].row.state == Some(DONE) || states[t + 1].jobs[j].row.state == Some(FAILED)
  {
    assert Follows(states, steps, t);
  }

  /** A wait for the start of a job only succeeds on a state that its process has reached: it has
      written RUNNING or has already ended. */
  lemma SeenStartIsSound(states: seq<State>, steps: seq<Step>, a: nat, j: nat,
                         at: nat -> nat, seen: nat -> JState, p: nat)
    requires IsRun(states, steps) && Polls(states, a, j, at, seen)
    requires Waiting.Qualifies(Waiting.ForStart, seen(p))
    ensures HasRun(states[at(p)].jobs[j].process) || states[at(p)].jobs[j].process.Dead?
  {
    hide IsRun;
    RunLength(states, steps);
    assert a <= at(p) < |states|;
    StartedStateIsSound(states, steps, at(p), j);
  }

  lemma RunLength(states: seq<State>, steps: seq<Step>)
    requires IsRun(states, steps)
    ensures |states| == |steps| + 1
  {
  }
}
