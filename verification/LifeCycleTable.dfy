/** The one-step model from the other side: every transition of the table happens, holds and suspensions can be
    undone, and what a poll sees tells exactly what has been written. */
module LifeCycleTable {
  import opened Strings
  import opened Types
  import opened LifeCycle
  import opened LifeCycleAtomic
  import LifeCycleRuns
  import Waiting

  // ---------------------------------------------------------------- what a call does, and what undoes it

  /** The call can be made, answers with a row that shows `state`, and notifies that. */
  ghost predicate Sets(s: State, j: nat, call: Call, state: JState) {
    && AtomicEnabled(s, Whole(j, call))
    && var s' := AtomicApply(s, Whole(j, call));
       && j < |s.jobs| && s'.jobs == s.jobs[j := s.jobs[j].(row := s.jobs[j].row.(state := Some(state)))]
       && s'.sems == s.sems && s'.pending == s.pending
       && s'.notes == s.notes + (if s.callback then [(j, state)] else [])
  }

  /** Behind the first call the second one gives back the stored state, and with it all jobs. */
  ghost predicate Undoes(s: State, j: nat, call: Call, undo: Call) {
    && AtomicEnabled(s, Whole(j, call))
    && var s' := AtomicApply(s, Whole(j, call));
       && AtomicEnabled(s', Whole(j, undo))
       && AtomicApply(s', Whole(j, undo)).jobs == s.jobs && s'.jobs != s.jobs
  }

  lemma SetsState(s: State, j: nat, call: Call, state: JState)
    requires j < |s.jobs| && s.jobs[j].row.state.Some?
    requires Decide(call, s.jobs[j].row.state.value) == Some(state)
    requires Notified(call, s.jobs[j].row.state.value) == state
    ensures Sets(s, j, call, state)
  {
    hide Decide, Notified;
  }

  lemma UndoesCall(s: State, j: nat, call: Call, undo: Call)
    requires j < |s.jobs| && s.jobs[j].row.state.Some?
    requires var was := s.jobs[j].row.state.value;
             && Decide(call, was).Some? && Decide(call, was).value != was
             && Decide(undo, Decide(call, was).value) == Some(was)
    ensures Undoes(s, j, call, undo)
  {
    hide Decide, Notified;
    var s' := AtomicApply(s, Whole(j, call));
    assert s'.jobs[j].row.state != s.jobs[j].row.state;
    assert SetState(s'.jobs[j], s.jobs[j].row.state.value) == s.jobs[j];
  }

  /** The call is refused, and nothing has changed. */
  ghost predicate Refuses(s: State, j: nat, call: Call) {
    AtomicEnabled(s, Whole(j, call)) && AtomicApply(s, Whole(j, call)) == s
  }

  lemma RefusesCall(s: State, j: nat, call: Call)
    requires j < |s.jobs| && s.jobs[j].row.state.Some? && Decide(call, s.jobs[j].row.state.value).None?
    ensures Refuses(s, j, call)
  {
  }

  lemma NeverRequeued(states: seq<State>, steps: seq<AtomicStep>, i: nat, j: nat)
    requires IsAtomicRun(states, steps) && i <= |steps| && j < |states[i].jobs| && states[i].jobs[j].row.state.Some?
    ensures states[i].jobs[j].row.state.value != REQUEUED && states[i].jobs[j].row.state.value != REQUEUED_HELD
  {
    hide AtomicFollows;
    AtomicRunKeeps(states, steps, i);
    assert JobInv(states[i].jobs[j]);
  }

  /** In every reachable state: suspend and hold succeed exactly on a running and on a queued job, resume and
      release exactly on a suspended and on a held one; each of the four gives back what its counterpart took, and
      everywhere else nothing changes. */
  lemma CallsAreUndone(states: seq<State>, steps: seq<AtomicStep>, i: nat, j: nat)
    requires IsAtomicRun(states, steps) && i <= |steps| && j < |states[i].jobs|
    requires states[i].jobs[j].row.state.Some?
    ensures var s, was := states[i], states[i].jobs[j].row.state.value;
            && (if was == RUNNING then Sets(s, j, Suspend, SUSPENDED) && Undoes(s, j, Suspend, Resume)
                else Refuses(s, j, Suspend))
            && (if was == SUSPENDED then Sets(s, j, Resume, RUNNING) && Undoes(s, j, Resume, Suspend)
                else Refuses(s, j, Resume))
            && (if was == QUEUED then Sets(s, j, Hold, QUEUED_HELD) && Undoes(s, j, Hold, Release)
                else Refuses(s, j, Hold))
            && (if was == QUEUED_HELD then Sets(s, j, Release, QUEUED) && Undoes(s, j, Release, Hold)
                else Refuses(s, j, Release))
  {
    hide AtomicFollows, Sets, Undoes, Refuses;
    NeverRequeued(states, steps, i, j);
    var s, was := states[i], states[i].jobs[j].row.state.value;
    OneCall(s, j, Suspend, RUNNING, SUSPENDED, Resume);
    OneCall(s, j, Resume, SUSPENDED, RUNNING, Suspend);
    OneCall(s, j, Hold, QUEUED, QUEUED_HELD, Release);
    OneCall(s, j, Release, QUEUED_HELD, QUEUED, Hold);
  }

  lemma OneCall(s: State, j: nat, call: Call, from: JState, to: JState, undo: Call)
    requires j < |s.jobs| && s.jobs[j].row.state.Some?
    requires s.jobs[j].row.state.value != REQUEUED && s.jobs[j].row.state.value != REQUEUED_HELD
    requires (call, from, to, undo) in {
               (Suspend, RUNNING, SUSPENDED, Resume), (Resume, SUSPENDED, RUNNING, Suspend),
               (Hold, QUEUED, QUEUED_HELD, Release), (Release, QUEUED_HELD, QUEUED, Hold)}
    ensures if s.jobs[j].row.state.value == from then Sets(s, j, call, to) && Undoes(s, j, call, undo)
            else Refuses(s, j, call)
  {
    hide Sets, Undoes, Refuses;
    if s.jobs[j].row.state.value == from {
      SetsState(s, j, call, to);
      UndoesCall(s, j, call, undo);
    } else {
      RefusesCall(s, j, call);
    }
  }

  // ---------------------------------------------------------------- every transition happens

  /** Some one-step run changes the stored state of some job so. */
  ghost predicate Happens(was: Option<JState>, now: JState) {
    exists states: seq<State>, steps: seq<AtomicStep>, i: nat, j: nat :: HappensAt(states, steps, i, j, was, now)
  }

  ghost predicate HappensAt(states: seq<State>, steps: seq<AtomicStep>, i: nat, j: nat,
                            was: Option<JState>, now: JState)
  {
    && IsAtomicRun(states, steps) && i < |steps| && j < |states[i].jobs| && j < |states[i + 1].jobs|
    && states[i].jobs[j].row.state == was && states[i + 1].jobs[j].row.state == Some(now)
    && was != Some(now)
  }

  /** The changes that can happen, listed. */
  predicate Listed(was: Option<JState>, now: JState) {
    (was, now) in {
      (None, QUEUED), (Some(QUEUED), QUEUED_HELD), (Some(QUEUED_HELD), QUEUED),
      (Some(QUEUED), RUNNING), (Some(QUEUED_HELD), RUNNING), (Some(QUEUED), FAILED), (Some(QUEUED_HELD), FAILED),
      (Some(RUNNING), SUSPENDED), (Some(SUSPENDED), RUNNING),
      (Some(RUNNING), DONE), (Some(SUSPENDED), DONE), (Some(RUNNING), FAILED), (Some(SUSPENDED), FAILED)}
  }

  /** The stored state of a job can change from `was` to `now` in a one-step run if and only if the change is
      one of the thirteen. */
  lemma TransitionsAreExact(was: Option<JState>, now: JState)
    ensures Happens(was, now) <==> Listed(was, now)
  {
    hide HappensAt;
    if Happens(was, now) {
      var states, steps, i: nat, j: nat :| HappensAt(states, steps, i, j, was, now);
      HappenedIsListed(states, steps, i, j, was, now);
    }
    if Listed(was, now) {
      ListedHappens(was, now);
    }
  }

  lemma HappenedIsListed(states: seq<State>, steps: seq<AtomicStep>, i: nat, j: nat, was: Option<JState>, now: JState)
    requires HappensAt(states, steps, i, j, was, now)
    ensures Listed(was, now)
  {
    hide IsAtomicRun;
    AtomicChangeIsTransition(states, steps, i, j);
    TransitionIsListed(was, now);
  }

  lemma TransitionIsListed(was: Option<JState>, now: JState)
    requires Transition(was, now)
    ensures Listed(was, now)
  {
  }

  // ---------------------------------------------------------------- witness runs with one job

  /** A job whose submitter waits and whose process has been launched. */
  const LAUNCHED := Job(Row(Some(QUEUED), Some(7), Some(1), None, None), LifeCycle.Waiting, Posted(7), Launched, 0)

  ghost function At(b: Job, sem: Option<nat>): State {
    LifeCycleRuns.One(b, sem, map[])
  }

  ghost predicate Ends(states: seq<State>, steps: seq<AtomicStep>, b: Job, sem: Option<nat>) {
    IsAtomicRun(states, steps) && |states| == |steps| + 1 && states[|steps|] == At(b, sem)
  }

  lemma ExtendBy(states: seq<State>, steps: seq<AtomicStep>, b: Job, sem: Option<nat>, step: AtomicStep,
                 b': Job, sem': Option<nat>)
    returns (states': seq<State>, steps': seq<AtomicStep>)
    requires Ends(states, steps, b, sem) && AtomicEnabled(At(b, sem), step)
    requires AtomicApply(At(b, sem), step) == At(b', sem')
    ensures Ends(states', steps', b', sem') && states' == states + [At(b', sem')] && steps' == steps + [step]
    ensures b.row.state != b'.row.state && b'.row.state.Some? ==> Happens(b.row.state, b'.row.state.value)
  {
    hide AtomicEnabled, AtomicApply;
    states', steps' := states + [At(b', sem')], steps + [step];
    forall i | 0 <= i < |steps'| ensures AtomicFollows(states', steps', i) {
      if i < |steps| {
        assert AtomicFollows(states, steps, i);
      }
    }
    if b.row.state != b'.row.state && b'.row.state.Some? {
      assert HappensAt(states', steps', |steps|, 0, b.row.state, b'.row.state.value);
    }
  }

  /** The run goes on with a step of the job's own. */
  lemma Extend(states: seq<State>, steps: seq<AtomicStep>, b: Job, sem: Option<nat>, own: OwnStep)
    returns (states': seq<State>, steps': seq<AtomicStep>, b': Job, sem': Option<nat>)
    requires Ends(states, steps, b, sem) && OwnEnabled(b, sem, own)
    ensures b' == OwnAfter(b, own) && sem' == SemAfter(sem, own) && Ends(states', steps', b', sem')
    ensures b.row.state != b'.row.state && b'.row.state.Some? ==> Happens(b.row.state, b'.row.state.value)
  {
    hide Ends, OwnEnabled, OwnAfter, SemAfter, Happens, Enabled, Apply;
    b', sem' := OwnAfter(b, own), SemAfter(sem, own);
    LifeCycleRuns.OneOwn(b, sem, map[], own);
    states', steps' := ExtendBy(states, steps, b, sem, Plain(Own(0, own)), b', sem');
  }

  /** The run goes on with a call on the job. */
  lemma ExtendCall(states: seq<State>, steps: seq<AtomicStep>, b: Job, sem: Option<nat>, call: Call, state: JState)
    returns (states': seq<State>, steps': seq<AtomicStep>, b': Job)
    requires Ends(states, steps, b, sem) && b.row.state.Some? && Decide(call, b.row.state.value) == Some(state)
    ensures b' == SetState(b, state) && Ends(states', steps', b', sem)
    ensures b.row.state.value != state ==> Happens(b.row.state, state)
  {
    hide Ends, Happens, Decide;
    b' := SetState(b, state);
    states', steps' := ExtendBy(states, steps, b, sem, Whole(0, call), b', sem);
  }

  lemma FirstStep() returns (states: seq<State>, steps: seq<AtomicStep>)
    ensures Ends(states, steps, NEW_JOB, None)
  {
    var start := State([], map[], map[], false, []);
    states, steps := [start, At(NEW_JOB, None)], [Plain(SaveJob)];
    assert Apply(start, SaveJob) == At(NEW_JOB, None);
    assert AtomicFollows(states, steps, 0);
  }

  lemma LaunchedRun() returns (states: seq<State>, steps: seq<AtomicStep>)
    ensures Ends(states, steps, LAUNCHED, Some(1)) && Happens(None, QUEUED)
  {
    hide Ends, Happens;
    var b, sem := NEW_JOB, None;
    states, steps := FirstStep();
    states, steps, b, sem := Extend(states, steps, b, sem, SemOpen);
    states, steps, b, sem := Extend(states, steps, b, sem, SaveQueued);
    states, steps, b, sem := Extend(states, steps, b, sem, ForkMonitor);
    states, steps, b, sem := Extend(states, steps, b, sem, ForkJob(7));
    states, steps, b, sem := Extend(states, steps, b, sem, SavePid(1));
    states, steps, b, sem := Extend(states, steps, b, sem, SemPost);
  }

  /** The process ends and its monitor stores how. */
  lemma EndRun(states: seq<State>, steps: seq<AtomicStep>, b: Job, sem: Option<nat>, status: Status)
    requires Ends(states, steps, b, sem) && b.monitor.Posted? && b.row.state.Some?
    requires b.process == LifeCycle.Running || (b.process == Launched && status.Signaled?)
    ensures var final := if status.Exited? then DONE else FAILED;
            b.row.state.value != final ==> Happens(b.row.state, final)
  {
    hide Ends, Happens;
    var states', steps', b', sem' := Extend(states, steps, b, sem, JobDies(status));
    states', steps', b', sem' := Extend(states', steps', b', sem', WaitPid);
    states', steps', b', sem' := Extend(states', steps', b', sem', SaveExitStatus(2));
    states', steps', b', sem' := Extend(states', steps', b', sem', SaveFinal);
  }

  lemma QueuedHappens()
    ensures Happens(None, QUEUED) && Happens(Some(QUEUED), QUEUED_HELD) && Happens(Some(QUEUED_HELD), QUEUED)
    ensures Happens(Some(QUEUED), FAILED) && Happens(Some(QUEUED_HELD), FAILED)
    ensures Happens(Some(QUEUED), RUNNING) && Happens(Some(QUEUED_HELD), RUNNING)
  {
    hide Ends, Happens;
    var states, steps := LaunchedRun();
    EndRun(states, steps, LAUNCHED, Some(1), Signaled(9));
    var states1, steps1, b1, sem1 := Extend(states, steps, LAUNCHED, Some(1), SaveRunning);
    var states2, steps2, b2 := ExtendCall(states, steps, LAUNCHED, Some(1), Hold, QUEUED_HELD);
    EndRun(states2, steps2, b2, Some(1), Signaled(9));
    var states3, steps3, b3, sem3 := Extend(states2, steps2, b2, Some(1), SaveRunning);
    var states4, steps4, b4 := ExtendCall(states2, steps2, b2, Some(1), Release, QUEUED);
  }

  lemma RunningHappens()
    ensures Happens(Some(RUNNING), SUSPENDED) && Happens(Some(SUSPENDED), RUNNING)
    ensures Happens(Some(RUNNING), DONE) && Happens(Some(RUNNING), FAILED)
    ensures Happens(Some(SUSPENDED), DONE) && Happens(Some(SUSPENDED), FAILED)
  {
    hide Ends, Happens;
    var states, steps := LaunchedRun();
    var sem;
    var b;
    states, steps, b, sem := Extend(states, steps, LAUNCHED, Some(1), SaveRunning);
    EndRun(states, steps, b, sem, Exited(0));
    EndRun(states, steps, b, sem, Signaled(9));
    states, steps, b := ExtendCall(states, steps, b, sem, Suspend, SUSPENDED);
    EndRun(states, steps, b, sem, Exited(0));
    EndRun(states, steps, b, sem, Signaled(9));
    states, steps, b := ExtendCall(states, steps, b, sem, Resume, RUNNING);
  }

  lemma ListedHappens(was: Option<JState>, now: JState)
    requires Listed(was, now)
    ensures Happens(was, now)
  {
    hide Happens;
    QueuedHappens();
    RunningHappens();
  }

  // ---------------------------------------------------------------- what polls see

  /** The job's own step has been taken in the first `i` steps. */
  ghost predicate Taken(steps: seq<AtomicStep>, i: nat, j: nat, own: OwnStep)
    requires i <= |steps|
  {
    exists k :: 0 <= k < i && steps[k] == Plain(Own(j, own))
  }

  lemma OwnMarks(b: Job, sem: Option<nat>, own: OwnStep)
    requires JobInv(b) && OwnEnabled(b, sem, own)
    ensures HasRun(OwnAfter(b, own).process) <==> HasRun(b.process) || own == SaveRunning
    ensures OwnAfter(b, own).monitor.Ended? <==> b.monitor.Ended? || own == SaveFinal
  {
  }

  /** What one step does to the marks that a job carries of its write of RUNNING and of its final write. */
  lemma StepMarks(states: seq<State>, steps: seq<AtomicStep>, i: nat, j: nat)
    requires IsAtomicRun(states, steps) && i < |steps| && j < |states[i + 1].jobs|
    ensures var b' := states[i + 1].jobs[j];
            if j < |states[i].jobs| then
              var b := states[i].jobs[j];
              && (HasRun(b'.process) <==> HasRun(b.process) || steps[i] == Plain(Own(j, SaveRunning)))
              && (b'.monitor.Ended? <==> b.monitor.Ended? || steps[i] == Plain(Own(j, SaveFinal)))
            else
              && !HasRun(b'.process) && !b'.monitor.Ended?
              && !(steps[i].Plain? && steps[i].step.Own? && steps[i].step.job == j)
  {
    hide Inv, JobInv, StateFollowsProcess, OwnEnabled, OwnAfter, SemAfter, NotedState, ExpectedSem, SemOf, Decide;
    AtomicRunKeeps(states, steps, i);
    assert AtomicFollows(states, steps, i);
    var s := states[i];
    if j < |s.jobs| {
      JobAndSem(s, j);
      if steps[i].Plain? && steps[i].step.Own? && steps[i].step.job == j {
        OwnMarks(s.jobs[j], SemOf(s, j), steps[i].step.own);
      }
    }
  }

  lemma {:induction false} MarksAreSteps(states: seq<State>, steps: seq<AtomicStep>, i: nat, j: nat)
    requires IsAtomicRun(states, steps) && i <= |steps| && j < |states[i].jobs|
    ensures HasRun(states[i].jobs[j].process) <==> Taken(steps, i, j, SaveRunning)
    ensures states[i].jobs[j].monitor.Ended? <==> Taken(steps, i, j, SaveFinal)
    decreases i
  {
    hide HasRun, AtomicFollows;
    if i > 0 {
      StepMarks(states, steps, i - 1, j);
      if j < |states[i - 1].jobs| {
        MarksAreSteps(states, steps, i - 1, j);
      } else {
        NothingTaken(states, steps, i - 1, j);
      }
    }
  }

  /** A job that is not in the table has taken no step. */
  lemma {:induction false} NothingTaken(states: seq<State>, steps: seq<AtomicStep>, i: nat, j: nat)
    requires IsAtomicRun(states, steps) && i <= |steps| && j >= |states[i].jobs|
    ensures forall k, own :: 0 <= k < i ==> steps[k] != Plain(Own(j, own))
    decreases i
  {
    hide OwnAfter, SemAfter, NotedState, Decide, SemOf;
    if i > 0 {
      assert AtomicFollows(states, steps, i - 1);
      NothingTaken(states, steps, i - 1, j);
    }
  }

  /** While the process lives, a poll for the start of the job succeeds if and only if the process has written
      RUNNING. */
  lemma PollSeesStartIff(states: seq<State>, steps: seq<AtomicStep>, i: nat, j: nat)
    requires IsAtomicRun(states, steps) && i <= |steps| && j < |states[i].jobs|
    requires states[i].jobs[j].row.state.Some? && !states[i].jobs[j].process.Dead?
    ensures var state := states[i].jobs[j].row.state.value;
            && (Waiting.Qualifies(Waiting.ForStart, state) <==> Taken(steps, i, j, SaveRunning))
            && (state != QUEUED && state != QUEUED_HELD <==> Taken(steps, i, j, SaveRunning))
  {
    hide IsAtomicRun, Taken;
    StartedStateIsExact(states, steps, i, j);
    MarksAreSteps(states, steps, i, j);
  }

  /** A poll for the end of the job succeeds if and only if its monitor has made the final write. */
  lemma PollSeesEndIff(states: seq<State>, steps: seq<AtomicStep>, i: nat, j: nat)
    requires IsAtomicRun(states, steps) && i <= |steps| && j < |states[i].jobs|
    requires states[i].jobs[j].row.state.Some?
    ensures var state := states[i].jobs[j].row.state.value;
            && (Waiting.Qualifies(Waiting.ForEnd, state) <==> Taken(steps, i, j, SaveFinal))
            && (state == DONE || state == FAILED <==> Taken(steps, i, j, SaveFinal))
  {
    hide AtomicFollows, Inv, JobInv;
    AtomicRunKeeps(states, steps, i);
    MarksAreSteps(states, steps, i, j);
    if Terminal(states[i].jobs[j].row.state.value) {
      LifeCycleRuns.FinalStateEnded(states[i], j);
    }
    if Taken(steps, i, j, SaveFinal) {
      var k :| 0 <= k < i && steps[k] == Plain(Own(j, SaveFinal));
      FinalWriteShows(states, steps, k, j);
      FinalStatesAbsorb(states, steps, k + 1, i, j);
    }
  }

  lemma FinalWriteShows(states: seq<State>, steps: seq<AtomicStep>, k: nat, j: nat)
    requires IsAtomicRun(states, steps) && k < |steps| && steps[k] == Plain(Own(j, SaveFinal))
    ensures j < |states[k + 1].jobs|
    ensures states[k + 1].jobs[j].row.state == Some(DONE) || states[k + 1].jobs[j].row.state == Some(FAILED)
  {
    hide SemAfter, SemOf;
    assert AtomicFollows(states, steps, k);
  }
}
