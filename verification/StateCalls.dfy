/** The state calls of the API on the job table, for one job and for a job array. */
module StateCalls {
  import opened Strings
  import opened Types
  import opened LinkedLists
  import opened LifeCycle
  import ListCodec
  import opened Tables

  datatype Notification = Notification(jobId: string, sessionName: string, state: JState)

  /** The library's process-wide state: the database, the registered callback, the last error. */
  class Library {
    const db: Database
    const callback: bool
    var received: seq<Notification>
    var lastError: Error

    constructor (db: Database, callback: bool)
      ensures this.db == db && this.callback == callback && received == [] && lastError == SUCCESS
    {
      this.db := db;
      this.callback := callback;
      received := [];
      lastError := SUCCESS;
    }

    /** The job of the handle exists and has a stored state. */
    predicate Known(h: Handle)
      reads this, db
    {
      KnownIn(db.jobs, h)
    }

    /** `call_state_change_notification`, when a callback is registered. */
    method Notify(h: Handle, state: JState)
      modifies this`received
      ensures received == old(received) + if callback then [Notification(h.id, h.sessionName, state)] else []
    {
      if callback {
        received := received + [Notification(h.id, h.sessionName, state)];
      }
    }

    /** What a state call leaves behind, given the state it found: the protocol's decision on the row
        and its notification, or INVALID_STATE and nothing changed. */
    twostate predicate Did(h: Handle, call: Call, result: Error)
      requires old(Known(h))
      reads this, db
    {
      var was := old(StateIn(db.jobs, h));
      match Decide(call, was)
      case Some(state) =>
        && result == SUCCESS && lastError == old(lastError)
        && db.jobs == WithLife(old(db.jobs), h.id, (r: Row) => r.(state := Some(state)))
        && received == old(received)
             + (if callback then [Notification(h.id, h.sessionName, Notified(call, was))] else [])
      case None =>
        result == INVALID_STATE && lastError == INVALID_STATE && db.jobs == old(db.jobs) && received == old(received)
    }

    method JSuspend(h: Handle) returns (e: Error)
      requires Known(h)
      modifies this`received, this`lastError, db`jobs
      ensures Did(h, Suspend, e)
      ensures old(StateIn(db.jobs, h)) == RUNNING ==>
                && e == SUCCESS && KnownIn(db.jobs, h) && StateIn(db.jobs, h) == SUSPENDED
                && (callback ==> received == old(received) + [Notification(h.id, h.sessionName, SUSPENDED)])
      ensures old(StateIn(db.jobs, h)) != RUNNING ==>
                e == INVALID_STATE && lastError == INVALID_STATE && db.jobs == old(db.jobs) && received == old(received)
    {
      var was := db.GetState(h);
      if was == RUNNING {
        db.SaveState(h, SUSPENDED);
        Notify(h, SUSPENDED);
        return SUCCESS;
      } else {
        lastError := INVALID_STATE;
        return INVALID_STATE;
      }
    }

    method JResume(h: Handle) returns (e: Error)
      requires Known(h)
      modifies this`received, this`lastError, db`jobs
      ensures Did(h, Resume, e)
      ensures old(StateIn(db.jobs, h)) == SUSPENDED ==>
                && e == SUCCESS && KnownIn(db.jobs, h) && StateIn(db.jobs, h) == RUNNING
                && (callback ==> received == old(received) + [Notification(h.id, h.sessionName, RUNNING)])
      ensures old(StateIn(db.jobs, h)) != SUSPENDED ==>
                e == INVALID_STATE && lastError == INVALID_STATE && db.jobs == old(db.jobs) && received == old(received)
    {
      var was := db.GetState(h);
      if was == SUSPENDED {
        db.SaveState(h, RUNNING);
        Notify(h, RUNNING);
        return SUCCESS;
      } else {
        lastError := INVALID_STATE;
        return INVALID_STATE;
      }
    }

    method JHold(h: Handle) returns (e: Error)
      requires Known(h)
      modifies this`received, this`lastError, db`jobs
      ensures Did(h, Hold, e)
      ensures old(StateIn(db.jobs, h)) == QUEUED ==>
                && e == SUCCESS && KnownIn(db.jobs, h) && StateIn(db.jobs, h) == QUEUED_HELD
                && (callback ==> received == old(received) + [Notification(h.id, h.sessionName, QUEUED_HELD)])
      ensures old(StateIn(db.jobs, h)) == REQUEUED ==>
                && e == SUCCESS && KnownIn(db.jobs, h) && StateIn(db.jobs, h) == REQUEUED_HELD
                && (callback ==> received == old(received) + [Notification(h.id, h.sessionName, REQUEUED)])
      ensures old(StateIn(db.jobs, h)) != QUEUED && old(StateIn(db.jobs, h)) != REQUEUED ==>
                e == INVALID_STATE && lastError == INVALID_STATE && db.jobs == old(db.jobs) && received == old(received)
    {
      var was := db.GetState(h);
      if was == QUEUED {
        db.SaveState(h, QUEUED_HELD);
        Notify(h, QUEUED_HELD);
        return SUCCESS;
      } else if was == REQUEUED {
        db.SaveState(h, REQUEUED_HELD);
        Notify(h, REQUEUED);
        return SUCCESS;
      } else {
        lastError := INVALID_STATE;
        return INVALID_STATE;
      }
    }

    method JRelease(h: Handle) returns (e: Error)
      requires Known(h)
      modifies this`received, this`lastError, db`jobs
      ensures Did(h, Release, e)
      ensures old(StateIn(db.jobs, h)) == QUEUED_HELD ==>
                && e == SUCCESS && KnownIn(db.jobs, h) && StateIn(db.jobs, h) == QUEUED
                && (callback ==> received == old(received) + [Notification(h.id, h.sessionName, QUEUED)])
      ensures old(StateIn(db.jobs, h)) == REQUEUED_HELD ==>
                && e == SUCCESS && KnownIn(db.jobs, h) && StateIn(db.jobs, h) == REQUEUED
                && (callback ==> received == old(received) + [Notification(h.id, h.sessionName, REQUEUED)])
      ensures old(StateIn(db.jobs, h)) != QUEUED_HELD && old(StateIn(db.jobs, h)) != REQUEUED_HELD ==>
                e == INVALID_STATE && lastError == INVALID_STATE && db.jobs == old(db.jobs) && received == old(received)
    {
      var was := db.GetState(h);
      if was == QUEUED_HELD {
        db.SaveState(h, QUEUED);
        Notify(h, QUEUED);
        return SUCCESS;
      } else if was == REQUEUED_HELD {
        db.SaveState(h, REQUEUED);
        Notify(h, REQUEUED);
        return SUCCESS;
      } else {
        lastError := INVALID_STATE;
        return INVALID_STATE;
      }
    }

    /** `drmaa2_j_terminate`: the process group of the stored pid is signalled; no row changes and the answer
        is always SUCCESS. */
    method JTerminate(h: Handle) returns (e: Error, signalled: nat)
      requires db.HasJob(h.id) && db.JobOf(h.id).life.pid.Some?
      ensures e == SUCCESS && db.JobOf(h.id).life.pid == Some(signalled)
    {
      signalled := db.GetJobPid(h);
      e := SUCCESS;
    }

    /** The function pointer that the array calls pass. */
    method Call1(h: Handle, call: Call) returns (e: Error)
      requires Known(h)
      modifies this`received, this`lastError, db`jobs
      ensures Did(h, call, e) && db.jobs == CallOne(old(db.jobs), h, call)
      ensures received == old(received) + NoteOne(old(db.jobs), h, call, callback)
      ensures lastError == ErrorOne(old(db.jobs), h, call, old(lastError))
    {
      hide Decide, WithLife, KnownIn, CallOne, Notified;
      DidIsCallOne(db.jobs, h, call);
      match call
      case Suspend => e := JSuspend(h);
      case Resume => e := JResume(h);
      case Hold => e := JHold(h);
      case Release => e := JRelease(h);
    }

    /** `drmaa2_jarray_change_state`: the call on each job of the array in order, with its notification
        and its error. Whatever the single calls answered, the array call answers SUCCESS. */
    method JArrayChangeState(ja: Handle, call: Call) returns (e: Error)
      requires 1 <= Atoll(ja.id) <= |db.arrays| && db.arrays[Atoll(ja.id) - 1].jobs.Some?
      requires forall h :: h in JobsOf(db.arrays, ja) ==> Known(h)
      modifies this`received, this`lastError, db`jobs
      ensures e == SUCCESS
      ensures db.jobs == CallAll(old(db.jobs), JobsOf(db.arrays, ja), call)
      ensures received == old(received) + NotesAll(old(db.jobs), JobsOf(db.arrays, ja), call, callback)
      ensures lastError == ErrorAll(old(db.jobs), JobsOf(db.arrays, ja), call, old(lastError))
    {
      var jl := db.GetJobsOfJArray(ja);
      CallEach(jl, call);
      return SUCCESS;
    }

    method CallEach(jl: List<Handle>, call: Call)
      requires jl.Valid() && forall h :: h in jl.contents ==> Known(h)
      modifies this`received, this`lastError, db`jobs
      ensures db.jobs == CallAll(old(db.jobs), jl.contents, call)
      ensures received == old(received) + NotesAll(old(db.jobs), jl.contents, call, callback)
      ensures lastError == ErrorAll(old(db.jobs), jl.contents, call, old(lastError))
    {
      hide KnownIn, CallOne, NoteOne, ErrorOne, AllDone, Library.Did;
      ghost var hs := jl.contents;
      ghost var start := Point(db.jobs, received, lastError);
      NoneDone(start, call, callback);
      var n := ListSize(jl);
      for i := 0 to n
        invariant jl.Valid() && jl.contents == hs
        invariant forall h :: h in hs ==> KnownIn(db.jobs, h)
        invariant AllDone(start, hs[..i], call, callback, Point(db.jobs, received, lastError))
      {
        var h := ListGet(jl, i);
        KeepsAllKnown(db.jobs, h.value, call, hs);
        OneMoreDone(start, hs[..i], call, callback, Point(db.jobs, received, lastError), h.value);
        var ignored := Call1(h.value, call);
        assert hs[..i + 1] == hs[..i] + [h.value];
      }
      assert hs[..n] == hs;
      DoneMeans(start, hs, call, callback, Point(db.jobs, received, lastError));
    }
  }

  /** The job table, what the callback has received, and the last error. */
  datatype Point = Point(jobs: seq<JobRow>, received: seq<Notification>, lastError: Error)

  /** The calls on `hs` lead from one point to the other. */
  ghost predicate AllDone(start: Point, hs: seq<Handle>, call: Call, callback: bool, end: Point) {
    && end.jobs == CallAll(start.jobs, hs, call)
    && end.received == start.received + NotesAll(start.jobs, hs, call, callback)
    && end.lastError == ErrorAll(start.jobs, hs, call, start.lastError)
  }

  lemma NoneDone(start: Point, call: Call, callback: bool)
    ensures AllDone(start, [], call, callback, start)
  {
  }

  lemma DoneMeans(start: Point, hs: seq<Handle>, call: Call, callback: bool, end: Point)
    requires AllDone(start, hs, call, callback, end)
    ensures end.jobs == CallAll(start.jobs, hs, call)
    ensures end.received == start.received + NotesAll(start.jobs, hs, call, callback)
    ensures end.lastError == ErrorAll(start.jobs, hs, call, start.lastError)
  {
  }

  lemma OneMoreDone(start: Point, hs: seq<Handle>, call: Call, callback: bool, end: Point, h: Handle)
    requires AllDone(start, hs, call, callback, end)
    ensures AllDone(start, hs + [h], call, callback,
                    Point(CallOne(end.jobs, h, call), end.received + NoteOne(end.jobs, h, call, callback),
                          ErrorOne(end.jobs, h, call, end.lastError)))
  {
    hide CallOne, NoteOne, ErrorOne, CallAll, NotesAll, ErrorAll;
    AllSnoc(start.jobs, hs, call, callback, start.lastError, h);
  }

  predicate KnownIn(jobs: seq<JobRow>, h: Handle) {
    1 <= Atoll(h.id) <= |jobs| && jobs[Atoll(h.id) - 1].life.state.Some?
  }

  function StateIn(jobs: seq<JobRow>, h: Handle): JState
    requires KnownIn(jobs, h)
  {
    jobs[Atoll(h.id) - 1].life.state.value
  }

  ghost function JobsOf(arrays: seq<ArrayRow>, ja: Handle): seq<Handle>
    requires 1 <= Atoll(ja.id) <= |arrays| && arrays[Atoll(ja.id) - 1].jobs.Some?
  {
    HandlesOf(ListCodec.Split(arrays[Atoll(ja.id) - 1].jobs.value, SEPARATOR), ja.sessionName)
  }

  // ---------------------------------------------------------------- the array call on values

  /** One call on the table. */
  ghost function CallOne(jobs: seq<JobRow>, h: Handle, call: Call): seq<JobRow> {
    if KnownIn(jobs, h) && Decide(call, StateIn(jobs, h)).Some?
    then WithLife(jobs, h.id, (r: Row) => r.(state := Some(Decide(call, StateIn(jobs, h)).value)))
    else jobs
  }

  /** What a single call does to a row. */
  lemma CallOneAt(jobs: seq<JobRow>, h: Handle, call: Call, k: nat)
    requires k < |jobs|
    ensures |CallOne(jobs, h, call)| == |jobs|
    ensures var was := jobs[k].life.state;
            CallOne(jobs, h, call)[k] ==
              if Atoll(h.id) == k + 1 && was.Some? && Decide(call, was.value).Some?
              then jobs[k].(life := jobs[k].life.(state := Decide(call, was.value)))
              else jobs[k]
  {
    hide Decide, Atoll;
  }

  lemma CallOneKeepsKnown(jobs: seq<JobRow>, h: Handle, call: Call, g: Handle)
    requires KnownIn(jobs, g)
    ensures KnownIn(CallOne(jobs, h, call), g)
  {
    hide CallOne, Decide, Atoll;
    CallOneAt(jobs, h, call, Atoll(g.id) - 1);
  }

  lemma KeepsAllKnown(jobs: seq<JobRow>, h: Handle, call: Call, hs: seq<Handle>)
    requires forall g :: g in hs ==> KnownIn(jobs, g)
    ensures forall g :: g in hs ==> KnownIn(CallOne(jobs, h, call), g)
  {
    hide KnownIn, CallOne;
    forall g | g in hs ensures KnownIn(CallOne(jobs, h, call), g) {
      CallOneKeepsKnown(jobs, h, call, g);
    }
  }

  lemma DidIsCallOne(jobs: seq<JobRow>, h: Handle, call: Call)
    requires KnownIn(jobs, h)
    ensures CallOne(jobs, h, call) ==
            match Decide(call, StateIn(jobs, h))
            case Some(state) => WithLife(jobs, h.id, (r: Row) => r.(state := Some(state)))
            case None => jobs
  {
    hide Decide, Atoll;
    match Decide(call, StateIn(jobs, h))
    case Some(state) =>
      assert CallOne(jobs, h, call) == WithLife(jobs, h.id, (r: Row) => r.(state := Some(state)));
    case None =>
  }

  ghost function CallAll(jobs: seq<JobRow>, hs: seq<Handle>, call: Call): seq<JobRow>
    decreases |hs|
  {
    if hs == [] then jobs else CallOne(CallAll(jobs, hs[..|hs| - 1], call), hs[|hs| - 1], call)
  }

  /** The notification of one call. */
  ghost function NoteOne(jobs: seq<JobRow>, h: Handle, call: Call, callback: bool): seq<Notification> {
    if callback && KnownIn(jobs, h) && Decide(call, StateIn(jobs, h)).Some?
    then [Notification(h.id, h.sessionName, Notified(call, StateIn(jobs, h)))]
    else []
  }

  /** The last error behind one call. */
  ghost function ErrorOne(jobs: seq<JobRow>, h: Handle, call: Call, before: Error): Error {
    if KnownIn(jobs, h) && Decide(call, StateIn(jobs, h)).None? then INVALID_STATE else before
  }

  /** The notifications of the calls, each on the table that the calls before it have left. */
  ghost function NotesAll(jobs: seq<JobRow>, hs: seq<Handle>, call: Call, callback: bool): seq<Notification>
    decreases |hs|
  {
    if hs == [] then []
    else
      var front := hs[..|hs| - 1];
      NotesAll(jobs, front, call, callback) + NoteOne(CallAll(jobs, front, call), hs[|hs| - 1], call, callback)
  }

  ghost function ErrorAll(jobs: seq<JobRow>, hs: seq<Handle>, call: Call, before: Error): Error
    decreases |hs|
  {
    if hs == [] then before
    else
      var front := hs[..|hs| - 1];
      ErrorOne(CallAll(jobs, front, call), hs[|hs| - 1], call, ErrorAll(jobs, front, call, before))
  }

  lemma AllSnoc(jobs: seq<JobRow>, hs: seq<Handle>, call: Call, callback: bool, before: Error, h: Handle)
    ensures var all := CallAll(jobs, hs, call);
            && CallAll(jobs, hs + [h], call) == CallOne(all, h, call)
            && NotesAll(jobs, hs + [h], call, callback) ==
                 NotesAll(jobs, hs, call, callback) + NoteOne(all, h, call, callback)
            && ErrorAll(jobs, hs + [h], call, before) == ErrorOne(all, h, call, ErrorAll(jobs, hs, call, before))
  {
    hide CallOne, NoteOne, ErrorOne;
    assert (hs + [h])[..|hs|] == hs;
  }

  predicate DistinctJobs(hs: seq<Handle>) {
    forall i, j :: 0 <= i < j < |hs| ==> Atoll(hs[i].id) != Atoll(hs[j].id)
  }

  /** What each call notifies on the table as it was. */
  ghost function NotesEach(jobs: seq<JobRow>, hs: seq<Handle>, call: Call, callback: bool): seq<Notification>
    decreases |hs|
  {
    if hs == [] then []
    else NotesEach(jobs, hs[..|hs| - 1], call, callback) + NoteOne(jobs, hs[|hs| - 1], call, callback)
  }

  /** The notifications of a longer array are those of its parts, in order. */
  lemma {:induction false} NotesInOrder(jobs: seq<JobRow>, a: seq<Handle>, b: seq<Handle>, call: Call, callback: bool)
    ensures NotesEach(jobs, a + b, call, callback) ==
            NotesEach(jobs, a, call, callback) + NotesEach(jobs, b, call, callback)
    decreases |b|
  {
    hide NoteOne;
    if b == [] {
      assert a + b == a;
    } else {
      var n := |b| - 1;
      assert (a + b)[..|a + b| - 1] == a + b[..n] && (a + b)[|a + b| - 1] == b[n];
      NotesInOrder(jobs, a, b[..n], call, callback);
    }
  }

  /** With distinct jobs in the array, the notifications are, in its order, those of calls of their own. */
  lemma {:induction false} ArrayNotesAreEachCall(jobs: seq<JobRow>, hs: seq<Handle>, call: Call, callback: bool)
    requires DistinctJobs(hs)
    ensures NotesAll(jobs, hs, call, callback) == NotesEach(jobs, hs, call, callback)
    decreases |hs|
  {
    hide CallAll, Decide, Atoll, KnownIn, Notified, StateIn;
    if hs != [] {
      var n := |hs| - 1;
      FrontDistinct(hs);
      ArrayNotesAreEachCall(jobs, hs[..n], call, callback);
      OthersLeaveRow(jobs, hs[..n], call, hs[n]);
    }
  }

  lemma FrontDistinct(hs: seq<Handle>)
    requires DistinctJobs(hs) && hs != []
    ensures var n := |hs| - 1;
            DistinctJobs(hs[..n]) && forall i :: 0 <= i < n ==> Atoll(hs[..n][i].id) != Atoll(hs[n].id)
  {
    hide Atoll;
  }

  /** With distinct jobs, the last error tells whether a call of its own on any of them is refused. */
  lemma {:induction false} ArrayErrorIsAnyCall(jobs: seq<JobRow>, hs: seq<Handle>, call: Call, before: Error)
    requires DistinctJobs(hs)
    ensures ErrorAll(jobs, hs, call, before) == if AnyRefused(jobs, hs, call) then INVALID_STATE else before
    decreases |hs|
  {
    hide CallAll, Decide, Atoll, KnownIn, StateIn;
    if hs != [] {
      var n := |hs| - 1;
      FrontDistinct(hs);
      ArrayErrorIsAnyCall(jobs, hs[..n], call, before);
      OthersLeaveRow(jobs, hs[..n], call, hs[n]);
      AnyRefusedSnoc(jobs, hs, call);
    }
  }

  ghost predicate AnyRefused(jobs: seq<JobRow>, hs: seq<Handle>, call: Call) {
    exists i :: 0 <= i < |hs| && Refused(jobs, hs[i], call)
  }

  lemma AnyRefusedSnoc(jobs: seq<JobRow>, hs: seq<Handle>, call: Call)
    requires hs != []
    ensures var n := |hs| - 1;
            AnyRefused(jobs, hs, call) <==> AnyRefused(jobs, hs[..n], call) || Refused(jobs, hs[n], call)
  {
    hide Refused;
    var n := |hs| - 1;
    var front := hs[..n];
    assert forall i :: 0 <= i < n ==> front[i] == hs[i];
    if AnyRefused(jobs, hs, call) {
      var i :| 0 <= i < |hs| && Refused(jobs, hs[i], call);
      assert i < n ==> Refused(jobs, front[i], call);
    }
    if AnyRefused(jobs, front, call) {
      var i :| 0 <= i < |front| && Refused(jobs, front[i], call);
      assert Refused(jobs, hs[i], call);
    }
  }

  ghost predicate Refused(jobs: seq<JobRow>, h: Handle, call: Call) {
    KnownIn(jobs, h) && Decide(call, StateIn(jobs, h)).None?
  }

  /** Calls on other jobs do not change what a job's own call finds. */
  lemma OthersLeaveRow(jobs: seq<JobRow>, hs: seq<Handle>, call: Call, h: Handle)
    requires DistinctJobs(hs) && forall i :: 0 <= i < |hs| ==> Atoll(hs[i].id) != Atoll(h.id)
    ensures KnownIn(CallAll(jobs, hs, call), h) <==> KnownIn(jobs, h)
    ensures KnownIn(jobs, h) ==> StateIn(CallAll(jobs, hs, call), h) == StateIn(jobs, h)
  {
    hide CallAll, Decide, Atoll;
    var k := Atoll(h.id) - 1;
    if 0 <= k < |jobs| {
      ArrayCallIsEachCall(jobs, hs, call, k);
    } else if |jobs| > 0 {
      ArrayCallIsEachCall(jobs, hs, call, 0);
    } else {
      NoRows(jobs, hs, call);
    }
  }

  lemma {:induction false} NoRows(jobs: seq<JobRow>, hs: seq<Handle>, call: Call)
    requires jobs == []
    ensures CallAll(jobs, hs, call) == []
    decreases |hs|
  {
    hide Decide, Atoll;
    if hs != [] {
      NoRows(jobs, hs[..|hs| - 1], call);
    }
  }

  /** With distinct jobs in the array, each gets exactly what a call of its own decides, and no other
      row and no other column changes. */
  lemma {:induction false} ArrayCallIsEachCall(jobs: seq<JobRow>, hs: seq<Handle>, call: Call, k: nat)
    requires k < |jobs|
    requires DistinctJobs(hs)
    ensures |CallAll(jobs, hs, call)| == |jobs|
    ensures var named := exists i :: 0 <= i < |hs| && Atoll(hs[i].id) == k + 1;
            var was := jobs[k].life.state;
            CallAll(jobs, hs, call)[k] ==
              if named && was.Some? && Decide(call, was.value).Some?
              then jobs[k].(life := jobs[k].life.(state := Decide(call, was.value)))
              else jobs[k]
    decreases |hs|
  {
    hide Decide, CallOne, Atoll;
    if hs != [] {
      var n := |hs| - 1;
      var front := hs[..n];
      ArrayCallIsEachCall(jobs, front, call, k);
      CallOneAt(CallAll(jobs, front, call), hs[n], call, k);
      assert forall i :: 0 <= i < n ==> front[i] == hs[i];
      if Atoll(hs[n].id) == k + 1 {
        assert forall i :: 0 <= i < n ==> Atoll(front[i].id) != k + 1;
      }
    }
  }
}
