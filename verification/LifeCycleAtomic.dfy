/** The same protocol with each state call's read, check and write in one step: a restriction of the
    split-call model in which the final states absorb and the stored state follows the process. */
module LifeCycleAtomic {
  import opened Strings
  import opened Types
  import opened LifeCycle

  datatype AtomicStep = Plain(step: Step) | Whole(job: nat, call: Call)

  ghost predicate AtomicEnabled(s: State, st: AtomicStep) {
    match st
    case Plain(step) => !step.Read? && !step.Write? && Enabled(s, step)
    case Whole(j, call) => j < |s.jobs| && s.jobs[j].row.state.Some?
  }

  ghost function AtomicApply(s: State, st: AtomicStep): State
    requires AtomicEnabled(s, st)
  {
    match st
    case Plain(step) => Apply(s, step)
    case Whole(j, call) =>
      var was := s.jobs[j].row.state.value;
      match Decide(call, was)
      case None => s
      case Some(state) =>
        s.(jobs := s.jobs[j := SetState(s.jobs[j], state)],
           notes := Note(s, j, Some(Notified(call, was))))
  }

  ghost predicate IsAtomicRun(states: seq<State>, steps: seq<AtomicStep>) {
    && |states| == |steps| + 1 && Init(states[0])
    && forall i :: 0 <= i < |steps| ==> AtomicFollows(states, steps, i)
  }

  ghost predicate AtomicFollows(states: seq<State>, steps: seq<AtomicStep>, i: nat)
    requires i < |steps| && |states| == |steps| + 1
  {
    AtomicEnabled(states[i], steps[i]) && states[i + 1] == AtomicApply(states[i], steps[i])
  }

  // ---------------------------------------------------------------- refinement

  /** A whole call is the read and the write of one caller with nothing in between, or just the
      read when the state does not allow the call. */
  lemma WholeIsReadThenWrite(s: State, j: nat, call: Call, c: nat)
    requires AtomicEnabled(s, Whole(j, call)) && c !in s.pending
    ensures Enabled(s, Read(c, j, call))
    ensures var mid := Apply(s, Read(c, j, call));
            if Decide(call, s.jobs[j].row.state.value).Some?
            then Enabled(mid, Write(c)) && Apply(mid, Write(c)) == AtomicApply(s, Whole(j, call))
            else mid == AtomicApply(s, Whole(j, call))
  {
    var was := s.jobs[j].row.state.value;
    if Decide(call, was).Some? {
      assert s.pending[c := Pending(j, call, was)] - {c} == s.pending;
    }
  }

  /** Every atomic run is a split-call run with the same first and last state. */
  lemma {:induction false} AtomicRunIsSplitRun(states: seq<State>, steps: seq<AtomicStep>)
    returns (states': seq<State>, steps': seq<Step>)
    requires IsAtomicRun(states, steps)
    ensures IsRun(states', steps') && |states'| == |steps'| + 1
    ensures states'[0] == states[0] && states'[|steps'|] == states[|steps|]
    ensures states[|steps|].pending == map[]
    decreases |steps|
  {
    hide AtomicEnabled, AtomicApply, Enabled, Apply, Follows;
    if steps == [] {
      states', steps' := states, [];
    } else {
      var n := |steps| - 1;
      AtomicPrefix(states, steps);
      states', steps' := AtomicRunIsSplitRun(states[..n + 1], steps[..n]);
      assert AtomicFollows(states, steps, n);
      NothingPending(states[n], steps[n]);
      match steps[n]
      case Plain(step) =>
        PlainIsStep(states[n], step);
        states', steps' := Append(states', steps', step);
      case Whole(j, call) =>
        WholeIsReadThenWrite(states[n], j, call, 0);
        WholeIsAllowed(states[n], j, call);
        states', steps' := Append(states', steps', Read(0, j, call));
        if Decide(call, states[n].jobs[j].row.state.value).Some? {
          states', steps' := Append(states', steps', Write(0));
        }
    }
  }

  lemma AtomicPrefix(states: seq<State>, steps: seq<AtomicStep>)
    requires IsAtomicRun(states, steps) && steps != []
    ensures IsAtomicRun(states[..|steps|], steps[..|steps| - 1])
  {
    hide AtomicEnabled, AtomicApply;
    var n := |steps| - 1;
    var states', steps' := states[..n + 1], steps[..n];
    forall i | 0 <= i < n ensures AtomicFollows(states', steps', i) {
      assert AtomicFollows(states, steps, i);
    }
  }

  lemma PlainIsStep(s: State, step: Step)
    requires AtomicEnabled(s, Plain(step))
    ensures Enabled(s, step) && AtomicApply(s, Plain(step)) == Apply(s, step)
  {
  }

  lemma WholeIsAllowed(s: State, j: nat, call: Call)
    requires AtomicEnabled(s, Whole(j, call))
    ensures j < |s.jobs| && s.jobs[j].row.state.Some?
  {
  }

  lemma NothingPending(s: State, st: AtomicStep)
    requires AtomicEnabled(s, st) && s.pending == map[]
    ensures AtomicApply(s, st).pending == map[]
  {
  }

  lemma Append(states: seq<State>, steps: seq<Step>, step: Step) returns (states': seq<State>, steps': seq<Step>)
    requires IsRun(states, steps) && |states| == |steps| + 1 && Enabled(states[|steps|], step)
    ensures states' == states + [Apply(states[|steps|], step)] && steps' == steps + [step]
    ensures IsRun(states', steps') && |states'| == |steps'| + 1 && states'[|steps'|] == Apply(states[|steps|], step)
  {
    hide Enabled, Apply;
    states', steps' := states + [Apply(states[|steps|], step)], steps + [step];
    forall i | 0 <= i < |steps'| ensures Follows(states', steps', i) {
      if i < |steps| {
        assert Follows(states, steps, i);
      }
    }
  }

  // ---------------------------------------------------------------- what only whole calls keep

  /** Once the process has written RUNNING, the row never shows a queued state again. */
  predicate StateFollowsProcess(b: Job) {
    HasRun(b.process) && b.row.state.Some? ==> b.row.state.value != QUEUED && b.row.state.value != QUEUED_HELD
  }

  ghost predicate AtomicInv(s: State) {
    Inv(s) && forall j :: 0 <= j < |s.jobs| ==> StateFollowsProcess(s.jobs[j])
  }

  /** The changes of a stored state in the atomic model. */
  predicate Transition(was: Option<JState>, now: JState) {
    match was
    case None => now == QUEUED
    case Some(QUEUED) => now == QUEUED_HELD || now == RUNNING || now == FAILED
    case Some(QUEUED_HELD) => now == QUEUED || now == RUNNING || now == FAILED
    case Some(RUNNING) => now == SUSPENDED || now == DONE || now == FAILED
    case Some(SUSPENDED) => now == RUNNING || now == DONE || now == FAILED
    case _ => false
  }

  lemma OwnTransition(b: Job, sem: Option<nat>, own: OwnStep)
    requires JobInv(b) && StateFollowsProcess(b) && sem == ExpectedSem(b) && OwnEnabled(b, sem, own)
    ensures StateFollowsProcess(OwnAfter(b, own))
    ensures var r := OwnAfter(b, own).row.state;
            r == b.row.state || (r.Some? && Transition(b.row.state, r.value))
  {
  }

  lemma WholeTransition(b: Job, call: Call)
    requires JobInv(b) && StateFollowsProcess(b) && b.row.state.Some?
    requires Decide(call, b.row.state.value).Some?
    ensures var b' := SetState(b, Decide(call, b.row.state.value).value);
            JobInv(b') && StateFollowsProcess(b') && Transition(b.row.state, b'.row.state.value)
            && Notified(call, b.row.state.value) == b'.row.state.value
  {
  }

  lemma AtomicStepKeeps(s: State, st: AtomicStep)
    requires AtomicInv(s) && s.pending == map[] && AtomicEnabled(s, st)
    ensures AtomicInv(AtomicApply(s, st)) && AtomicApply(s, st).pending == map[]
  {
    hide JobInv, StateFollowsProcess, Inv, OwnEnabled, OwnAfter, SemAfter, NotedState, ExpectedSem, SemOf, Decide;
    NothingPending(s, st);
    match st
    case Plain(step) =>
      StepKeepsInv(s, step);
      match step {
        case SaveJob => NewJobFollows();
        case Own(j, own) =>
          JobAndSem(s, j);
          OwnTransition(s.jobs[j], SemOf(s, j), own);
        case _ =>
      }
    case Whole(j, call) =>
      WholeIsReadThenWrite(s, j, call, 0);
      StepKeepsInv(s, Read(0, j, call));
      if Decide(call, s.jobs[j].row.state.value).Some? {
        StepKeepsInv(Apply(s, Read(0, j, call)), Write(0));
        JobAndSem(s, j);
        WholeTransition(s.jobs[j], call);
      }
  }

  lemma NewJobFollows()
    ensures StateFollowsProcess(NEW_JOB)
  {
  }

  lemma {:induction false} AtomicRunKeeps(states: seq<State>, steps: seq<AtomicStep>, i: nat)
    requires IsAtomicRun(states, steps) && i <= |steps|
    ensures AtomicInv(states[i]) && states[i].pending == map[]
  {
    hide AtomicInv, AtomicEnabled, AtomicApply;
    if i == 0 {
      InitAtomicInv(states[0]);
    } else {
      AtomicRunKeeps(states, steps, i - 1);
      assert AtomicFollows(states, steps, i - 1);
      AtomicStepKeeps(states[i - 1], steps[i - 1]);
    }
  }

  lemma InitAtomicInv(s: State)
    requires Init(s)
    ensures AtomicInv(s)
  {
    InitInv(s);
  }

  /** Every change of a stored state in an atomic run is in the table. */
  lemma AtomicChangeIsTransition(states: seq<State>, steps: seq<AtomicStep>, i: nat, j: nat)
    requires IsAtomicRun(states, steps) && i < |steps| && j < |states[i].jobs|
    ensures j < |states[i + 1].jobs|
    ensures var r, r' := states[i].jobs[j].row.state, states[i + 1].jobs[j].row.state;
            r' == r || (r'.Some? && Transition(r, r'.value))
  {
    hide Inv, JobInv, StateFollowsProcess, OwnEnabled, OwnAfter, SemAfter, NotedState, ExpectedSem, SemOf;
    hide Decide, Transition;
    AtomicRunKeeps(states, steps, i);
    assert AtomicFollows(states, steps, i);
    var s := states[i];
    JobAndSem(s, j);
    match steps[i]
    case Plain(step) =>
      if step.Own? && step.job == j {
        OwnTransition(s.jobs[j], SemOf(s, j), step.own);
      }
    case Whole(k, call) =>
      if k == j && Decide(call, s.jobs[j].row.state.value).Some? {
        WholeTransition(s.jobs[j], call);
      }
  }

  /** DONE and FAILED are absorbing over all atomic runs. */
  lemma {:induction false} FinalStatesAbsorb(states: seq<State>, steps: seq<AtomicStep>, a: nat, b: nat, j: nat)
    requires IsAtomicRun(states, steps) && a <= b <= |steps| && j < |states[a].jobs|
    requires states[a].jobs[j].row.state.Some? && Terminal(states[a].jobs[j].row.state.value)
    ensures j < |states[b].jobs| && states[b].jobs[j].row.state == states[a].jobs[j].row.state
    decreases b
  {
    hide IsAtomicRun;
    if a < b {
      FinalStatesAbsorb(states, steps, a, b - 1, j);
      AtomicChangeIsTransition(states, steps, b - 1, j);
    }
  }

  /** While the process lives, the row shows a queued state exactly as long as RUNNING has not been
      written; the split-call model keeps only one direction of this. */
  lemma StartedStateIsExact(states: seq<State>, steps: seq<AtomicStep>, i: nat, j: nat)
    requires IsAtomicRun(states, steps) && i <= |steps| && j < |states[i].jobs|
    requires states[i].jobs[j].row.state.Some? && !states[i].jobs[j].process.Dead?
    ensures states[i].jobs[j].row.state.value == QUEUED || states[i].jobs[j].row.state.value == QUEUED_HELD <==>
            !HasRun(states[i].jobs[j].process)
  {
    hide AtomicEnabled, AtomicApply;
    AtomicRunKeeps(states, steps, i);
    JobAndSem(states[i], j);
    assert StateFollowsProcess(states[i].jobs[j]);
  }
}
