/** The life cycle of submitted jobs as a step system over the job table. A job is run by three
    processes (the submitter, its forked monitor, the job process that the monitor forks); any number
    of callers hold, release, suspend and resume. Every database transaction is one step; a state
    call reads in one step and writes in a later one. */
module LifeCycle {
  import opened Strings
  import opened Types

  // ---------------------------------------------------------------- state

  /** How a process ended, as `waitpid` reports it. */
  datatype Status = Exited(code: nat) | Signaled(signal: nat)

  /** The columns of a job row that the life cycle writes; None is NULL. */
  datatype Row = Row(state: Option<JState>, pid: Option<nat>, dispatched: Option<nat>,
                     exitStatus: Option<nat>, finished: Option<nat>)

  datatype Submitter = Inserted | Opened | QueuedSaved | Waiting | Released | Returned

  datatype Monitor =
    | NotForked | Started | Forked(pid: nat) | PidSaved(pid: nat) | Posted(pid: nat)
    | Reaped(pid: nat, status: Status) | ExitSaved(pid: nat, status: Status) | Ended(pid: nat, status: Status)

  datatype Process = NoProcess | Launched | Running | Dead(status: Status, ran: bool)

  /** A job: its row, the program points of its three processes, and how often its monitor wrote a
      final state. */
  datatype Job = Job(row: Row, submitter: Submitter, monitor: Monitor, process: Process, finalWrites: nat)

  datatype Call = Suspend | Resume | Hold | Release

  /** A state call between its read and its write. */
  datatype Pending = Pending(job: nat, call: Call, seen: JState)

  /** Row ids count from 1, so job `j` is row `j + 1`. `callback` says whether a callback was
      registered before the first submission; `notes` are the notifications it received. */
  datatype State = State(jobs: seq<Job>, sems: map<string, nat>, pending: map<nat, Pending>,
                         callback: bool, notes: seq<(nat, JState)>)

  ghost predicate Init(s: State) {
    s.jobs == [] && s.sems == map[] && s.pending == map[] && s.notes == []
  }

  function SemName(j: nat): string {
    "drmaa2" + Decimal(j + 1)
  }

  // ---------------------------------------------------------------- the state calls

  /** The state a call writes after it read `was`; None is the INVALID_STATE answer. */
  function Decide(call: Call, was: JState): Option<JState> {
    match call
    case Suspend => if was == RUNNING then Some(SUSPENDED) else None
    case Resume => if was == SUSPENDED then Some(RUNNING) else None
    case Hold =>
      if was == QUEUED then Some(QUEUED_HELD) else if was == REQUEUED then Some(REQUEUED_HELD) else None
    case Release =>
      if was == QUEUED_HELD then Some(QUEUED) else if was == REQUEUED_HELD then Some(REQUEUED) else None
  }

  /** The state that the call's notification carries. */
  function Notified(call: Call, was: JState): JState {
    match call
    case Suspend => SUSPENDED
    case Resume => RUNNING
    case Hold => if was == QUEUED then QUEUED_HELD else REQUEUED
    case Release => if was == QUEUED_HELD then QUEUED else REQUEUED
  }

  // ---------------------------------------------------------------- steps

  /** The steps of a job's own three processes. */
  datatype OwnStep =
    | SemOpen | SaveQueued | ForkMonitor | SemWait | SemUnlink
    | ForkJob(pid: nat) | SavePid(now: nat) | SemPost | WaitPid | SaveExitStatus(now: nat) | SaveFinal
    | SaveRunning | JobDies(status: Status)

  datatype Step =
    | SaveJob
    | Own(job: nat, own: OwnStep)
    | Read(caller: nat, job: nat, call: Call)
    | Write(caller: nat)

  predicate OwnEnabled(b: Job, sem: Option<nat>, st: OwnStep) {
    match st
    case SemOpen => b.submitter == Inserted && sem.None?
    case SaveQueued => b.submitter == Opened
    case ForkMonitor => b.submitter == QueuedSaved
    case SemWait => b.submitter == Waiting && sem.Some? && sem.value > 0
    case SemUnlink => b.submitter == Released
    case ForkJob(_) => b.monitor == Started
    case SavePid(_) => b.monitor.Forked?
    case SemPost => b.monitor.PidSaved? && sem.Some?
    case WaitPid => b.monitor.Posted? && b.process.Dead?
    case SaveExitStatus(_) => b.monitor.Reaped?
    case SaveFinal => b.monitor.ExitSaved?
    case SaveRunning => b.process == Launched
    case JobDies(status) => (b.process == Launched && status.Signaled?) || b.process == Running
  }

  /** `WEXITSTATUS`: the exit code, and 0 for a process that a signal ended. */
  function ExitStatusOf(status: Status): nat {
    match status case Exited(code) => code % 256 case Signaled(_) => 0
  }

  function FinalState(status: Status): JState {
    if status.Exited? then DONE else FAILED
  }

  /** The job after one of its own steps. */
  function OwnAfter(b: Job, st: OwnStep): Job {
    match st
    case SemOpen => b.(submitter := Opened)
    case SaveQueued => b.(submitter := QueuedSaved, row := b.row.(state := Some(QUEUED)))
    case ForkMonitor => b.(submitter := Waiting, monitor := Started)
    case SemWait => b.(submitter := Released)
    case SemUnlink => b.(submitter := Returned)
    case ForkJob(pid) => b.(monitor := Forked(pid), process := Launched)
    case SavePid(now) =>
      if b.monitor.Forked?
      then b.(monitor := PidSaved(b.monitor.pid), row := b.row.(pid := Some(b.monitor.pid), dispatched := Some(now)))
      else b
    case SemPost => if b.monitor.PidSaved? then b.(monitor := Posted(b.monitor.pid)) else b
    case WaitPid =>
      if b.monitor.Posted? && b.process.Dead? then b.(monitor := Reaped(b.monitor.pid, b.process.status)) else b
    case SaveExitStatus(now) =>
      if b.monitor.Reaped?
      then b.(monitor := ExitSaved(b.monitor.pid, b.monitor.status),
              row := b.row.(exitStatus := Some(ExitStatusOf(b.monitor.status)), finished := Some(now)))
      else b
    case SaveFinal =>
      if b.monitor.ExitSaved?
      then b.(monitor := Ended(b.monitor.pid, b.monitor.status), finalWrites := b.finalWrites + 1,
              row := b.row.(state := Some(FinalState(b.monitor.status))))
      else b
    case SaveRunning => b.(process := Running, row := b.row.(state := Some(RUNNING)))
    case JobDies(status) => b.(process := Dead(status, b.process == Running))
  }

  /** The semaphore of the job after the step; None is a name that does not exist. */
  function SemAfter(sem: Option<nat>, st: OwnStep): Option<nat> {
    match st
    case SemOpen => Some(0)
    case SemWait => if sem.Some? && sem.value > 0 then Some(sem.value - 1) else sem
    case SemPost => if sem.Some? then Some(sem.value + 1) else sem
    case SemUnlink => None
    case _ => sem
  }

  /** The state that a step notifies; the write of QUEUED is not notified. */
  function NotedState(b: Job, st: OwnStep): Option<JState> {
    match st
    case SaveRunning => Some(RUNNING)
    case SaveFinal => if b.monitor.ExitSaved? then Some(FinalState(b.monitor.status)) else None
    case _ => None
  }

  function SemOf(s: State, j: nat): Option<nat> {
    if SemName(j) in s.sems then Some(s.sems[SemName(j)]) else None
  }

  function SetSem(sems: map<string, nat>, name: string, v: Option<nat>): map<string, nat> {
    match v case Some(n) => sems[name := n] case None => sems - {name}
  }

  function Note(s: State, j: nat, noted: Option<JState>): seq<(nat, JState)> {
    if s.callback && noted.Some? then s.notes + [(j, noted.value)] else s.notes
  }

  const NEW_JOB := Job(Row(None, None, None, None, None), Inserted, NotForked, NoProcess, 0)

  ghost predicate Enabled(s: State, step: Step) {
    match step
    case SaveJob => true
    case Own(j, own) => j < |s.jobs| && OwnEnabled(s.jobs[j], SemOf(s, j), own)
    case Read(c, j, call) => c !in s.pending && j < |s.jobs| && s.jobs[j].row.state.Some?
    case Write(c) => c in s.pending && s.pending[c].job < |s.jobs|
                     && Decide(s.pending[c].call, s.pending[c].seen).Some?
  }

  function SetState(b: Job, state: JState): Job {
    b.(row := b.row.(state := Some(state)))
  }

  ghost function Apply(s: State, step: Step): State
    requires Enabled(s, step)
  {
    match step
    case SaveJob => s.(jobs := s.jobs + [NEW_JOB])
    case Own(j, own) =>
      var b := s.jobs[j];
      s.(jobs := s.jobs[j := OwnAfter(b, own)],
         sems := SetSem(s.sems, SemName(j), SemAfter(SemOf(s, j), own)),
         notes := Note(s, j, NotedState(b, own)))
    case Read(c, j, call) =>
      var was := s.jobs[j].row.state.value;
      if Decide(call, was).Some? then s.(pending := s.pending[c := Pending(j, call, was)]) else s
    case Write(c) =>
      var p := s.pending[c];
      s.(jobs := s.jobs[p.job := SetState(s.jobs[p.job], Decide(p.call, p.seen).value)],
         pending := s.pending - {c},
         notes := Note(s, p.job, Some(Notified(p.call, p.seen))))
  }

  /** A stored state stays some state; every other column that has been stored keeps its value. */
  predicate Later(was: Row, now: Row) {
    && (was.state.Some? ==> now.state.Some?) && (was.pid.Some? ==> now.pid == was.pid)
    && (was.dispatched.Some? ==> now.dispatched == was.dispatched)
    && (was.exitStatus.Some? ==> now.exitStatus == was.exitStatus)
    && (was.finished.Some? ==> now.finished == was.finished)
  }

  /** Rows as a submission that waits for job `j` can find them: nothing stored is lost, and the job has a
      state, a pid and a dispatch time. */
  predicate AfterWait(was: seq<Row>, now: seq<Row>, j: nat) {
    && j < |was| <= |now|
    && (forall k :: 0 <= k < |was| ==> Later(was[k], now[k]))
    && now[j].state.Some? && now[j].pid.Some? && now[j].dispatched.Some?
  }

  // ---------------------------------------------------------------- runs

  ghost predicate IsRun(states: seq<State>, steps: seq<Step>) {
    && |states| == |steps| + 1 && Init(states[0])
    && forall i :: 0 <= i < |steps| ==> Follows(states, steps, i)
  }

  ghost predicate Follows(states: seq<State>, steps: seq<Step>, i: nat)
    requires i < |steps| && |states| == |steps| + 1
  {
    Enabled(states[i], steps[i]) && states[i + 1] == Apply(states[i], steps[i])
  }

  // ---------------------------------------------------------------- the invariant

  predicate HasRun(p: Process) {
    p == Running || (p.Dead? && p.ran)
  }

  predicate HasPosted(m: Monitor) {
    m.Posted? || m.Reaped? || m.ExitSaved? || m.Ended?
  }

  /** The pid, once the monitor has saved it. */
  function SavedPid(m: Monitor): Option<nat> {
    match m
    case NotForked => None
    case Started => None
    case Forked(_) => None
    case _ => Some(m.pid)
  }

  /** What every job satisfies at all times. */
  predicate JobInv(b: Job) {
    && (b.row.state.None? <==> b.submitter == Inserted || b.submitter == Opened)
    && (b.monitor == NotForked <==> b.submitter == Inserted || b.submitter == Opened || b.submitter == QueuedSaved)
    && (b.submitter == Released || b.submitter == Returned ==> HasPosted(b.monitor))
    && (b.process == NoProcess <==> b.monitor == NotForked || b.monitor == Started)
    && (b.process.Dead? && b.process.status.Exited? ==> b.process.ran)
    && b.row.pid == SavedPid(b.monitor)
    && (b.row.dispatched.Some? <==> b.row.pid.Some?)
    && (b.monitor.Reaped? || b.monitor.ExitSaved? || b.monitor.Ended? ==>
          b.process.Dead? && b.process.status == b.monitor.status)
    && b.row.exitStatus ==
         (if b.monitor.ExitSaved? || b.monitor.Ended? then Some(ExitStatusOf(b.monitor.status)) else None)
    && (b.row.finished.Some? <==> b.row.exitStatus.Some?)
    && b.finalWrites == (if b.monitor.Ended? then 1 else 0)
    && (b.row.state.Some? ==> StateInv(b, b.row.state.value))
  }

  /** What a stored state says about the processes. */
  predicate StateInv(b: Job, state: JState) {
    match state
    case QUEUED => true
    case QUEUED_HELD => true
    case RUNNING => HasRun(b.process)
    case SUSPENDED => HasRun(b.process)
    case DONE => b.monitor.Ended? && b.monitor.status.Exited?
    case FAILED => b.monitor.Ended? && b.monitor.status.Signaled?
    case _ => false
  }

  /** A pending write follows a read of a state that was stored then; it never is a final one. */
  predicate PendingInv(jobs: seq<Job>, p: Pending) {
    && p.job < |jobs| && jobs[p.job].row.state.Some?
    && (p.seen == QUEUED || p.seen == QUEUED_HELD || p.seen == RUNNING || p.seen == SUSPENDED)
    && (p.seen == RUNNING || p.seen == SUSPENDED ==> HasRun(jobs[p.job].process))
    && Decide(p.call, p.seen).Some?
  }

  /** The semaphore a job's submitter and monitor share: it exists between open and unlink, and its
      value is one between the post and the wait. */
  function ExpectedSem(b: Job): Option<nat> {
    if b.submitter == Inserted || b.submitter == Returned then None
    else Some(if HasPosted(b.monitor) && b.submitter == Waiting then 1 else 0)
  }

  /** What the notifications say the state of job `j` is: the last one, or QUEUED without any. */
  function Replay(notes: seq<(nat, JState)>, j: nat): JState {
    if notes == [] then QUEUED
    else if notes[|notes| - 1].0 == j then notes[|notes| - 1].1
    else Replay(notes[..|notes| - 1], j)
  }

  ghost predicate JobsInv(s: State) {
    forall j :: 0 <= j < |s.jobs| ==> JobInv(s.jobs[j])
  }

  ghost predicate SemsInv(s: State) {
    && (forall j :: 0 <= j < |s.jobs| ==> SemOf(s, j) == ExpectedSem(s.jobs[j]))
    && (forall j :: j >= |s.jobs| ==> SemOf(s, j) == None)
  }

  ghost predicate PendingsInv(s: State) {
    forall c :: c in s.pending ==> PendingInv(s.jobs, s.pending[c])
  }

  ghost predicate NotesInv(s: State) {
    s.callback ==>
      && (forall j :: 0 <= j < |s.jobs| ==> Replay(s.notes, j) == s.jobs[j].row.state.GetOr(QUEUED))
      && (forall j :: j >= |s.jobs| ==> Replay(s.notes, j) == QUEUED)
  }

  ghost predicate Inv(s: State) {
    JobsInv(s) && SemsInv(s) && PendingsInv(s) && NotesInv(s)
  }

  lemma JobAndSem(s: State, j: nat)
    requires Inv(s) && j < |s.jobs|
    ensures JobInv(s.jobs[j]) && SemOf(s, j) == ExpectedSem(s.jobs[j])
  {
  }

  // ---------------------------------------------------------------- every step keeps it

  lemma OwnKeepsJob(b: Job, sem: Option<nat>, st: OwnStep)
    requires JobInv(b) && sem == ExpectedSem(b) && OwnEnabled(b, sem, st)
    ensures JobInv(OwnAfter(b, st))
    ensures SemAfter(sem, st) == ExpectedSem(OwnAfter(b, st))
    ensures b.row.state.Some? ==> OwnAfter(b, st).row.state.Some?
    ensures HasRun(b.process) ==> HasRun(OwnAfter(b, st).process)
    ensures OwnAfter(b, st).row.state.GetOr(QUEUED) == NotedState(b, st).GetOr(b.row.state.GetOr(QUEUED))
  {
  }

  lemma WriteKeepsJob(jobs: seq<Job>, p: Pending)
    requires PendingInv(jobs, p) && JobInv(jobs[p.job])
    ensures JobInv(SetState(jobs[p.job], Decide(p.call, p.seen).value))
    ensures Notified(p.call, p.seen) == Decide(p.call, p.seen).value
  {
  }

  lemma SemNameInjective(i: nat, j: nat)
    ensures SemName(i) == SemName(j) <==> i == j
  {
    if SemName(i) == SemName(j) {
      assert SemName(i)[6..] == Decimal(i + 1) && SemName(j)[6..] == Decimal(j + 1);
      DecimalInjective(i + 1, j + 1);
    }
  }

  lemma ReplayAppend(notes: seq<(nat, JState)>, k: nat, state: JState, j: nat)
    ensures Replay(notes + [(k, state)], j) == if k == j then state else Replay(notes, j)
  {
    assert (notes + [(k, state)])[..|notes|] == notes;
  }

  /** What one note does to the replay of every job. */
  lemma NoteReplays(s: State, k: nat, noted: Option<JState>, j: nat)
    requires s.callback
    ensures Replay(Note(s, k, noted), j) == if k == j then noted.GetOr(Replay(s.notes, j)) else Replay(s.notes, j)
  {
    if noted.Some? {
      ReplayAppend(s.notes, k, noted.value, j);
    }
  }

  lemma SetSemAt(s: State, k: nat, v: Option<nat>, j: nat)
    ensures SemOf(s.(sems := SetSem(s.sems, SemName(k), v)), j) == if j == k then v else SemOf(s, j)
  {
    hide SemName;
    SemNameInjective(j, k);
  }

  lemma SaveJobKeepsInv(s: State)
    requires Inv(s)
    ensures Inv(Apply(s, SaveJob))
  {
    var s' := Apply(s, SaveJob);
    assert JobInv(NEW_JOB);
    assert SemsInv(s') by {
      assert forall j :: 0 <= j ==> SemOf(s', j) == SemOf(s, j);
    }
  }

  lemma OwnKeepsInv(s: State, j: nat, own: OwnStep)
    requires Inv(s) && Enabled(s, Own(j, own))
    ensures Inv(Apply(s, Own(j, own)))
  {
    hide JobInv, OwnEnabled, OwnAfter, SemAfter, NotedState, ExpectedSem, SemOf, SetSem, Note, Replay, Decide, HasRun;
    var s' := Apply(s, Own(j, own));
    var b := s.jobs[j];
    OwnKeepsJob(b, SemOf(s, j), own);
    forall i: nat ensures SemOf(s', i) == if i == j then SemAfter(SemOf(s, j), own) else SemOf(s, i) {
      SetSemAt(s, j, SemAfter(SemOf(s, j), own), i);
      SameSems(s', s.(sems := SetSem(s.sems, SemName(j), SemAfter(SemOf(s, j), own))), i);
    }
    assert NotesInv(s') by {
      if s.callback {
        forall i: nat ensures Replay(s'.notes, i) ==
            if i == j then NotedState(b, own).GetOr(Replay(s.notes, i)) else Replay(s.notes, i) {
          NoteReplays(s, j, NotedState(b, own), i);
        }
      }
    }
  }

  lemma SameSems(s: State, t: State, j: nat)
    requires s.sems == t.sems
    ensures SemOf(s, j) == SemOf(t, j)
  {
  }

  lemma ReadIsPending(jobs: seq<Job>, j: nat, call: Call)
    requires j < |jobs| && JobInv(jobs[j]) && jobs[j].row.state.Some?
    ensures var was := jobs[j].row.state.value; Decide(call, was).Some? ==> PendingInv(jobs, Pending(j, call, was))
  {
  }

  lemma ReadKeepsInv(s: State, c: nat, j: nat, call: Call)
    requires Inv(s) && Enabled(s, Read(c, j, call))
    ensures Inv(Apply(s, Read(c, j, call)))
  {
    hide JobInv, Decide, HasRun, Replay, PendingInv;
    var s' := Apply(s, Read(c, j, call));
    ReadIsPending(s.jobs, j, call);
    assert SemsInv(s') by {
      assert forall i: nat :: SemOf(s', i) == SemOf(s, i);
    }
  }

  lemma PendingMeans(jobs: seq<Job>, p: Pending)
    requires PendingInv(jobs, p)
    ensures p.job < |jobs| && Decide(p.call, p.seen).Some?
  {
  }

  lemma PendingStays(jobs: seq<Job>, k: nat, state: JState, q: Pending)
    requires k < |jobs| && PendingInv(jobs, q)
    ensures PendingInv(jobs[k := SetState(jobs[k], state)], q)
  {
  }

  lemma WriteKeepsInv(s: State, c: nat)
    requires Inv(s) && Enabled(s, Write(c))
    ensures Inv(Apply(s, Write(c)))
  {
    hide JobInv, Decide, Notified, HasRun, Replay, Note, PendingInv;
    var p := s.pending[c];
    var s' := Apply(s, Write(c));
    PendingMeans(s.jobs, p);
    WriteKeepsJob(s.jobs, p);
    forall q | PendingInv(s.jobs, q) ensures PendingInv(s'.jobs, q) {
      PendingStays(s.jobs, p.job, Decide(p.call, p.seen).value, q);
    }
    assert SemsInv(s') by {
      assert forall i: nat :: SemOf(s', i) == SemOf(s, i);
    }
    assert NotesInv(s') by {
      if s.callback {
        forall i: nat ensures Replay(s'.notes, i) ==
            if i == p.job then Notified(p.call, p.seen) else Replay(s.notes, i) {
          NoteReplays(s, p.job, Some(Notified(p.call, p.seen)), i);
        }
      }
    }
  }

  lemma StepKeepsInv(s: State, step: Step)
    requires Inv(s) && Enabled(s, step)
    ensures Inv(Apply(s, step))
  {
    hide *;
    match step
    case SaveJob => SaveJobKeepsInv(s);
    case Own(j, own) => OwnKeepsInv(s, j, own);
    case Read(c, j, call) => ReadKeepsInv(s, c, j, call);
    case Write(c) => WriteKeepsInv(s, c);
  }

  /** The invariant holds in every state of every run. */
  lemma {:induction false} RunKeepsInv(states: seq<State>, steps: seq<Step>, i: nat)
    requires IsRun(states, steps) && i <= |steps|
    ensures Inv(states[i])
  {
    hide Inv, Enabled, Apply;
    if i == 0 {
      InitInv(states[0]);
    } else {
      RunKeepsInv(states, steps, i - 1);
      assert Follows(states, steps, i - 1);
      StepKeepsInv(states[i - 1], steps[i - 1]);
    }
  }

  lemma InitInv(s: State)
    requires Init(s)
    ensures Inv(s)
  {
  }
}
