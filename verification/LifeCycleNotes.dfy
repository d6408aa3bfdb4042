/** Notifications that are sent in a step of their own: a state is saved first, the callback is called later,
    and the calls of different processes can overtake each other. */
module LifeCycleNotes {
  import opened Strings
  import opened Types
  import opened LifeCycle
  import opened LifeCycleRuns

  type Note = (nat, JState)

  /** What the process that takes a step has to notify afterwards. */
  function Noted(s: State, step: Step): seq<Note> {
    match step
    case Own(j, own) =>
      if j < |s.jobs| && NotedState(s.jobs[j], own).Some? then [(j, NotedState(s.jobs[j], own).value)] else []
    case Write(c) =>
      if c in s.pending then [(s.pending[c].job, Notified(s.pending[c].call, s.pending[c].seen))] else []
    case _ => []
  }

  /** The protocol, the notifications that are due, and those that were sent. A process sends what it has to
      notify before its next step, so what is due is with different processes and can be sent in any order. */
  datatype Delayed = Delayed(state: State, unsent: seq<Note>, sent: seq<Note>)

  datatype DelayedStep = Protocol(step: Step) | Send(i: nat)

  ghost predicate CanStep(d: Delayed, st: DelayedStep) {
    match st
    case Protocol(step) => Enabled(d.state, step)
    case Send(i) => i < |d.unsent|
  }

  ghost function TakeStep(d: Delayed, st: DelayedStep): Delayed
    requires CanStep(d, st)
  {
    match st
    case Protocol(step) => Delayed(Apply(d.state, step), d.unsent + Noted(d.state, step), d.sent)
    case Send(i) => Delayed(d.state, d.unsent[..i] + d.unsent[i + 1..], d.sent + [d.unsent[i]])
  }

  ghost predicate IsDelayedRun(ds: seq<Delayed>, steps: seq<DelayedStep>) {
    && |ds| == |steps| + 1 && Init(ds[0].state) && ds[0].unsent == [] && ds[0].sent == []
    && forall i :: 0 <= i < |steps| ==> TakesStep(ds, steps, i)
  }

  ghost predicate TakesStep(ds: seq<Delayed>, steps: seq<DelayedStep>, i: nat)
    requires i < |steps| && |ds| == |steps| + 1
  {
    CanStep(ds[i], steps[i]) && ds[i + 1] == TakeStep(ds[i], steps[i])
  }

  /** The protocol is as before: its invariant holds in every state of a delayed run. */
  lemma {:induction false} DelayedKeepsInv(ds: seq<Delayed>, steps: seq<DelayedStep>, i: nat)
    requires IsDelayedRun(ds, steps) && i <= |steps|
    ensures Inv(ds[i].state)
  {
    hide Inv, Enabled, Apply, Noted;
    if i == 0 {
      InitInv(ds[0].state);
    } else {
      DelayedKeepsInv(ds, steps, i - 1);
      assert TakesStep(ds, steps, i - 1);
      if steps[i - 1].Protocol? {
        StepKeepsInv(ds[i - 1].state, steps[i - 1].step);
      }
    }
  }

  // ---------------------------------------------------------------- what replay tells

  predicate Concerns(notes: seq<Note>, j: nat) {
    exists i :: 0 <= i < |notes| && notes[i].0 == j
  }

  /** Of two stretches of notifications the later one counts if it concerns the job. */
  lemma {:induction false} ReplayConcat(a: seq<Note>, b: seq<Note>, j: nat)
    ensures !Concerns(b, j) ==> Replay(a + b, j) == Replay(a, j)
    ensures Concerns(b, j) ==> (j, Replay(a + b, j)) in b
    decreases |b|
  {
    if b == [] {
      assert a + b == a;
    } else {
      var n := |b| - 1;
      var front := b[..n];
      assert (a + b)[..|a + b| - 1] == a + front;
      assert (a + b)[|a + b| - 1] == b[n];
      assert forall i :: 0 <= i < n ==> front[i] == b[i];
      ReplayConcat(a, front, j);
      if b[n].0 != j && Concerns(b, j) {
        var i :| 0 <= i < |b| && b[i].0 == j;
        assert front[i].0 == j;
      }
    }
  }

  /** The order in which the notifications that are due are sent. */
  ghost predicate Order(unsent: seq<Note>, rest: seq<Note>) {
    multiset(rest) == multiset(unsent)
  }

  /** If notifications of the job are due, each carries the state; otherwise the last one sent has told it. */
  predicate Settled(d: Delayed, j: nat, state: JState) {
    if Concerns(d.unsent, j) then forall i :: 0 <= i < |d.unsent| && d.unsent[i].0 == j ==> d.unsent[i].1 == state
    else Replay(d.sent, j) == state
  }

  /** Once nothing more is saved, a job's notifications tell its state in whatever order they are sent if and
      only if every one that is still due carries this state, or none is due and the last one told it. */
  lemma TellsInEveryOrderIff(d: Delayed, j: nat, state: JState)
    ensures (forall rest :: Order(d.unsent, rest) ==> Replay(d.sent + rest, j) == state) <==> Settled(d, j, state)
  {
    hide Replay;
    if Settled(d, j, state) {
      forall rest | Order(d.unsent, rest) ensures Replay(d.sent + rest, j) == state {
        SettledTells(d, j, state, rest);
      }
    } else if Concerns(d.unsent, j) {
      var i :| 0 <= i < |d.unsent| && d.unsent[i].0 == j && d.unsent[i].1 != state;
      var rest := SendLast(d.unsent, i);
      LastCounts(d.sent, d.unsent, i, j);
    } else {
      assert Order(d.unsent, d.unsent);
      ReplayConcat(d.sent, d.unsent, j);
    }
  }

  lemma SettledTells(d: Delayed, j: nat, state: JState, rest: seq<Note>)
    requires Settled(d, j, state) && Order(d.unsent, rest)
    ensures Replay(d.sent + rest, j) == state
  {
    hide Replay;
    ReplayConcat(d.sent, rest, j);
    SameConcerns(d.unsent, rest, j);
    if Concerns(rest, j) {
      var last := (j, Replay(d.sent + rest, j));
      assert last in multiset(rest);
      assert last in d.unsent;
    }
  }

  lemma SameConcerns(a: seq<Note>, b: seq<Note>, j: nat)
    requires multiset(a) == multiset(b)
    ensures Concerns(a, j) <==> Concerns(b, j)
  {
    if i :| 0 <= i < |a| && a[i].0 == j {
      assert a[i] in multiset(b);
    }
    if i :| 0 <= i < |b| && b[i].0 == j {
      assert b[i] in multiset(a);
    }
  }

  /** The order that keeps one notification for the end. */
  function SendLast(unsent: seq<Note>, i: nat): seq<Note>
    requires i < |unsent|
  {
    unsent[..i] + unsent[i + 1..] + [unsent[i]]
  }

  lemma LastCounts(sent: seq<Note>, unsent: seq<Note>, i: nat, j: nat)
    requires i < |unsent| && unsent[i].0 == j
    ensures Order(unsent, SendLast(unsent, i)) && Replay(sent + SendLast(unsent, i), j) == unsent[i].1
  {
    hide Replay;
    var front := unsent[..i] + unsent[i + 1..];
    assert unsent == unsent[..i] + [unsent[i]] + unsent[i + 1..];
    assert sent + SendLast(unsent, i) == (sent + front) + [unsent[i]];
    ReplayAppend(sent + front, j, unsent[i].1, j);
    assert unsent[i] == (j, unsent[i].1);
  }

  /** The notification at the place is sent next. */
  lemma SendOne(ds: seq<Delayed>, steps: seq<DelayedStep>, i: nat)
    returns (ds': seq<Delayed>, steps': seq<DelayedStep>)
    requires IsDelayedRun(ds, steps) && |ds| == |steps| + 1 && i < |ds[|steps|].unsent|
    ensures IsDelayedRun(ds', steps') && |ds'| == |steps'| + 1
    ensures ds <= ds' && steps' == steps + [Send(i)]
    ensures var d := ds[|steps|];
            ds'[|steps'|] == Delayed(d.state, d.unsent[..i] + d.unsent[i + 1..], d.sent + [d.unsent[i]])
  {
    var d := TakeStep(ds[|steps|], Send(i));
    ds', steps' := ds + [d], steps + [Send(i)];
    forall k | 0 <= k < |steps'| ensures TakesStep(ds', steps', k) {
      if k < |steps| {
        assert TakesStep(ds, steps, k);
      }
    }
  }

  /** Every order of the notifications that are due is one in which a run can go on: no other step is needed, and
      at its end they have been sent so. */
  lemma {:induction false} EveryOrderIsSent(ds: seq<Delayed>, steps: seq<DelayedStep>, rest: seq<Note>)
    returns (ds': seq<Delayed>, steps': seq<DelayedStep>)
    requires IsDelayedRun(ds, steps) && |ds| == |steps| + 1 && Order(ds[|steps|].unsent, rest)
    ensures IsDelayedRun(ds', steps') && |ds'| == |steps'| + 1 && ds <= ds' && steps <= steps'
    ensures ds'[|steps'|] == Delayed(ds[|steps|].state, [], ds[|steps|].sent + rest)
    decreases |rest|
  {
    hide IsDelayedRun;
    var d := ds[|steps|];
    SameLength(d.unsent, rest);
    if rest == [] {
      ds', steps' := ds, steps;
      assert d.sent + rest == d.sent;
    } else {
      var i := FindNote(d.unsent, rest);
      ds', steps' := SendOne(ds, steps, i);
      assert d.sent + [rest[0]] + rest[1..] == d.sent + rest;
      ds', steps' := EveryOrderIsSent(ds', steps', rest[1..]);
    }
  }

  lemma SameLength(a: seq<Note>, b: seq<Note>)
    requires multiset(a) == multiset(b)
    ensures |a| == |b|
  {
    assert |multiset(a)| == |a| && |multiset(b)| == |b|;
  }

  lemma FindNote(unsent: seq<Note>, rest: seq<Note>) returns (i: nat)
    requires rest != [] && Order(unsent, rest)
    ensures i < |unsent| && unsent[i] == rest[0] && Order(unsent[..i] + unsent[i + 1..], rest[1..])
  {
    assert rest[0] in multiset(unsent);
    i :| i < |unsent| && unsent[i] == rest[0];
    assert unsent == unsent[..i] + [unsent[i]] + unsent[i + 1..];
    assert rest == [] + [rest[0]] + rest[1..] && [] + rest[1..] == rest[1..];
    TakenOut(unsent[..i], unsent[i], unsent[i + 1..]);
    TakenOut([], rest[0], rest[1..]);
    assert multiset(rest) - multiset{rest[0]} == multiset(unsent) - multiset{rest[0]};
  }

  lemma TakenOut(a: seq<Note>, x: Note, b: seq<Note>)
    ensures multiset(a + [x] + b) - multiset{x} == multiset(a + b)
  {
    assert multiset(a + [x] + b) == multiset(a) + multiset{x} + multiset(b);
    assert multiset(a + b) == multiset(a) + multiset(b);
  }

  // ---------------------------------------------------------------- a run that misleads

  /** Protocol steps alone: nothing has been sent yet. */
  lemma {:induction false} NothingSent(states: seq<State>, steps: seq<Step>)
    returns (ds: seq<Delayed>, dsteps: seq<DelayedStep>)
    requires IsRun(states, steps)
    ensures IsDelayedRun(ds, dsteps) && |dsteps| == |steps| < |states| && |ds| == |dsteps| + 1
    ensures ds[|steps|] == Delayed(states[|steps|], AllNoted(states, steps, |steps|), [])
  {
    hide Enabled, Apply, Noted;
    ds := seq(|steps| + 1, i requires 0 <= i < |steps| + 1 => Delayed(states[i], AllNoted(states, steps, i), []));
    dsteps := seq(|steps|, i requires 0 <= i < |steps| => Protocol(steps[i]));
    forall i | 0 <= i < |dsteps| ensures TakesStep(ds, dsteps, i) {
      assert Follows(states, steps, i);
    }
  }

  function AllNoted(states: seq<State>, steps: seq<Step>, i: nat): seq<Note>
    requires i <= |steps| < |states|
  {
    if i == 0 then [] else AllNoted(states, steps, i - 1) + Noted(states[i - 1], steps[i - 1])
  }

  /** Steps that have nothing to notify. */
  predicate Quiet(step: Step) {
    step.SaveJob? || step.Read? || (step.Own? && !step.own.SaveRunning? && !step.own.SaveFinal?)
  }

  lemma {:induction false} QuietSteps(states: seq<State>, steps: seq<Step>, i: nat)
    requires i <= |steps| < |states| && forall k :: 0 <= k < i ==> Quiet(steps[k])
    ensures AllNoted(states, steps, i) == []
  {
    if i > 0 {
      QuietSteps(states, steps, i - 1);
    }
  }

  lemma RunningNoted(s: State)
    requires Enabled(s, Own(0, SaveRunning))
    ensures Noted(s, Own(0, SaveRunning)) == [(0, RUNNING)]
  {
  }

  /** A suspend between the job's write of RUNNING and its notification. */
  lemma OvertakenRun() returns (states: seq<State>, steps: seq<Step>)
    ensures IsRun(states, steps) && |steps| == 12 < |states|
    ensures |states[12].jobs| == 1 && states[12].jobs[0].row.state == Some(SUSPENDED)
    ensures AllNoted(states, steps, 12) == [(0, RUNNING), (0, SUSPENDED)]
  {
    hide IsRun, Enabled, Apply, AllNoted, Noted;
    var first, begun := SubmittedRun();
    RunLength(first, begun);
    var one := map[1 := Pending(0, Suspend, RUNNING)];
    SuspendSteps(one);
    var second, read := ExtendBy(first, begun, Read(1, 0, Suspend), One(RUNNING_JOB, None, one));
    states, steps := ExtendBy(second, read, Write(1), One(SetState(RUNNING_JOB, SUSPENDED), None, map[]));
    RunLength(states, steps);
    assert forall k :: 0 <= k < 9 ==> Quiet(steps[k]);
    QuietSteps(states, steps, 9);
    RunFollows(states, steps, 9);
    RunningNoted(states[9]);
    LastNotes(states, steps, one);
  }

  lemma SuspendSteps(one: map<nat, Pending>)
    requires one == map[1 := Pending(0, Suspend, RUNNING)]
    ensures var s, t := One(RUNNING_JOB, None, map[]), One(RUNNING_JOB, None, one);
            && Enabled(s, Read(1, 0, Suspend)) && Apply(s, Read(1, 0, Suspend)) == t
            && Enabled(t, Write(1)) && Apply(t, Write(1)) == One(SetState(RUNNING_JOB, SUSPENDED), None, map[])
  {
    assert one - {1} == map[];
  }

  lemma RunFollows(states: seq<State>, steps: seq<Step>, i: nat)
    requires IsRun(states, steps) && i < |steps|
    ensures i < |states| && Enabled(states[i], steps[i])
  {
    assert Follows(states, steps, i);
  }

  lemma LastNotes(states: seq<State>, steps: seq<Step>, one: map<nat, Pending>)
    requires |steps| == 12 < |states| && AllNoted(states, steps, 9) == []
    requires Noted(states[9], steps[9]) == [(0, RUNNING)]
    requires steps[10] == Read(1, 0, Suspend) && steps[11] == Write(1)
    requires states[11] == One(RUNNING_JOB, None, one) && one == map[1 := Pending(0, Suspend, RUNNING)]
    ensures AllNoted(states, steps, 12) == [(0, RUNNING), (0, SUSPENDED)]
  {
    hide Noted;
    SuspendNoted(states[10], states[11], one);
    assert AllNoted(states, steps, 10) == [(0, RUNNING)];
    assert AllNoted(states, steps, 11) == [(0, RUNNING)];
  }

  lemma SuspendNoted(s: State, t: State, one: map<nat, Pending>)
    requires t == One(RUNNING_JOB, None, one) && one == map[1 := Pending(0, Suspend, RUNNING)]
    ensures Noted(s, Read(1, 0, Suspend)) == [] && Noted(t, Write(1)) == [(0, SUSPENDED)]
  {
  }

  /** A delayed run behind which the job's own notification can be sent last: the row shows SUSPENDED and
      the notifications tell RUNNING. */
  lemma OvertakingMisleads()
    ensures exists ds: seq<Delayed>, steps: seq<DelayedStep>, rest: seq<Note> ::
              && IsDelayedRun(ds, steps)
              && var d := ds[|steps|];
                 && |d.state.jobs| == 1 && d.state.jobs[0].row.state == Some(SUSPENDED)
                 && Order(d.unsent, rest) && Replay(d.sent + rest, 0) == RUNNING
  {
    hide IsDelayedRun, IsRun, AllNoted, Replay;
    var states, steps := OvertakenRun();
    var ds, dsteps := NothingSent(states, steps);
    var d := ds[|dsteps|];
    LastCounts(d.sent, d.unsent, 0, 0);
    assert Order(d.unsent, SendLast(d.unsent, 0));
  }
}
