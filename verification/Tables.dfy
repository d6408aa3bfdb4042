/** The database tables and the row operations on them. Rows are only ever added, so the row that an
    insert makes has the id max + 1: row id `n` is element `n - 1` of its table. */
module Tables {
  import opened Strings
  import opened Types
  import opened LinkedLists
  import opened ListCodec
  import opened LifeCycle
  import Replace

  const SEPARATOR := '|'

  /** A job session; its id is a number drawn when it was created. */
  datatype Session = Session(id: int, name: string)

  /** The attributes of a job template that the submission code looks at or stores as text. */
  datatype Template = Template(
    remoteCommand: Option<string>, args: Option<seq<string>>,
    workingDirectory: Option<string>, inputPath: Option<string>, outputPath: Option<string>, errorPath: Option<string>,
    jobCategory: Option<string>, email: Option<seq<string>>, emailOnStarted: bool, emailOnTerminated: bool,
    candidateMachines: Option<seq<string>>, maxSlots: int, deadlineTime: int, accountingId: Option<string>)

  const UNSET_NUM: int := -1
  const UNSET_TIME: int := -3

  /** A stored template: lists of strings are single text columns. */
  datatype TemplateRow = TemplateRow(
    sessionName: string, plain: Template,
    args: Option<string>, email: Option<string>, candidateMachines: Option<string>)

  datatype JobRow = JobRow(sessionId: int, sessionName: string, templateId: nat, life: Row)

  datatype ArrayRow = ArrayRow(sessionName: string, templateId: nat, jobs: Option<string>)

  datatype ReservationRow = ReservationRow(sessionName: string, templateId: nat, name: string)

  /** The columns of a job row that never change: what the submitter inserted. */
  datatype JobKey = JobKey(sessionId: int, sessionName: string, templateId: nat)

  function KeyOf(row: JobRow): JobKey {
    JobKey(row.sessionId, row.sessionName, row.templateId)
  }

  function KeysOf(jobs: seq<JobRow>): (keys: seq<JobKey>)
    ensures |keys| == |jobs| && forall k :: 0 <= k < |jobs| ==> keys[k] == KeyOf(jobs[k])
  {
    seq(|jobs|, k requires 0 <= k < |jobs| => KeyOf(jobs[k]))
  }

  lemma SameKeys(a: seq<JobRow>, b: seq<JobRow>)
    requires KeysOf(a) == KeysOf(b)
    ensures |a| == |b| && forall k :: 0 <= k < |a| ==> KeyOf(a[k]) == KeyOf(b[k])
  {
    assert forall k :: 0 <= k < |a| ==> KeysOf(a)[k] == KeyOf(a[k]) && KeysOf(b)[k] == KeyOf(b[k]);
  }

  /** No row has gone or lost a stored column, and only states change. */
  predicate Grown(was: seq<JobRow>, now: seq<JobRow>) {
    |was| <= |now| && forall k :: 0 <= k < |was| ==> Later(was[k].life, now[k].life)
  }

  /** The row of a job whose submission has returned. */
  predicate Submitted(row: JobRow) {
    row.life.state.Some? && row.life.pid.Some? && row.life.dispatched.Some?
  }

  function LivesOf(jobs: seq<JobRow>): (lives: seq<Row>)
    ensures |lives| == |jobs| && forall k :: 0 <= k < |jobs| ==> lives[k] == jobs[k].life
  {
    seq(|jobs|, k requires 0 <= k < |jobs| => jobs[k].life)
  }

  function WithLives(jobs: seq<JobRow>, lives: seq<Row>): (rows: seq<JobRow>)
    requires |lives| == |jobs|
    ensures |rows| == |jobs| && forall k :: 0 <= k < |jobs| ==> rows[k] == jobs[k].(life := lives[k])
  {
    seq(|jobs|, k requires 0 <= k < |jobs| => jobs[k].(life := lives[k]))
  }

  /** What a wait can leave in the rows keeps their keys and what was stored, and shows the pid. */
  lemma WaitedRows(jobs: seq<JobRow>, lives: seq<Row>, j: nat)
    requires |lives| == |jobs| && j < |jobs| && AfterWait(LivesOf(jobs), lives, j)
    ensures var rows := WithLives(jobs, lives);
            KeysOf(rows) == KeysOf(jobs) && Grown(jobs, rows) && Submitted(rows[j])
  {
  }

  /** Some rows are possible after every wait. */
  lemma SomeWaitedRows(jobs: seq<JobRow>, j: nat)
    requires j < |jobs| && jobs[j].life.state.Some?
    ensures exists lives :: |lives| == |jobs| && AfterWait(LivesOf(jobs), lives, j)
  {
    var was := LivesOf(jobs);
    var lives := was[j := was[j].(pid := Some(was[j].pid.GetOr(0)), dispatched := Some(was[j].dispatched.GetOr(0)))];
    assert AfterWait(was, lives, j);
  }

  /** What the API hands out for a job or a job array. */
  datatype Handle = Handle(id: string, sessionName: string)

  function JoinColumn(l: Option<seq<string>>): Option<string> {
    match l case None => None case Some(items) => Join(items, SEPARATOR)
  }

  /** What the callback of a template query does: it fills a template, or ends the process. */
  datatype ReadResult = Exits | Filled(template: Template)

  /** `save_jtemplate`: the list attributes are joined; a time is printed as an `int`. */
  function StoreTemplate(t: Template, sessionName: string): TemplateRow {
    TemplateRow(sessionName, t.(args := None, email := None, candidateMachines := None,
                                deadlineTime := Replace.CInt(t.deadlineTime)),
                JoinColumn(t.args), JoinColumn(t.email), JoinColumn(t.candidateMachines))
  }

  /** The select callback: the list columns are split and numbers are read with `atoi`. A set time is stored
      as a number and read as a date, which no number is. */
  function ReadTemplate(row: TemplateRow): ReadResult {
    if row.plain.deadlineTime != UNSET_TIME then Exits
    else
      Filled(row.plain.(args := SplitColumn(row.args, SEPARATOR), email := SplitColumn(row.email, SEPARATOR),
                        candidateMachines := SplitColumn(row.candidateMachines, SEPARATOR),
                        maxSlots := Replace.CInt(row.plain.maxSlots)))
  }

  /** A list attribute survives storage exactly when it is unset or is non-empty without separators. */
  predicate Storable(l: Option<seq<string>>) {
    l.Some? ==> l.value != [] && Separable(l.value, SEPARATOR)
  }

  lemma ColumnRoundTripIff(l: Option<seq<string>>)
    ensures SplitColumn(JoinColumn(l), SEPARATOR) == l <==> Storable(l)
  {
    if l.Some? {
      SplitJoinIff(l.value, SEPARATOR);
    }
  }

  /** A stored template reads back as it was exactly when all its list attributes are storable, its deadline is
      unset and its number of slots is an `int`. */
  lemma TemplateRoundTripIff(t: Template, sessionName: string)
    ensures ReadTemplate(StoreTemplate(t, sessionName)) == Filled(t) <==>
            && Storable(t.args) && Storable(t.email) && Storable(t.candidateMachines)
            && t.deadlineTime == UNSET_TIME && Replace.InInt(t.maxSlots)
  {
    hide Storable, SplitColumn, JoinColumn, Replace.CInt;
    Replace.CIntIff(t.maxSlots);
    Replace.CIntIff(t.deadlineTime);
    Replace.CIntIff(UNSET_TIME);
    ColumnRoundTripIff(t.args);
    ColumnRoundTripIff(t.email);
    ColumnRoundTripIff(t.candidateMachines);
  }

  class Database {
    var jobSessions: set<string>
    var reservationSessions: set<string>
    var jobs: seq<JobRow>
    var templates: seq<TemplateRow>
    var arrays: seq<ArrayRow>
    var reservationTemplates: seq<string>
    var reservations: seq<ReservationRow>
    /** How many job arrays existed when each job was inserted, and how many jobs when each array was. */
    ghost var arraysBefore: seq<nat>
    ghost var jobsBefore: seq<nat>

    constructor ()
      ensures jobs == [] && templates == [] && arrays == [] && reservations == [] && reservationTemplates == []
      ensures Paired()
    {
      jobSessions, reservationSessions := {}, {};
      jobs, templates, arrays, reservationTemplates, reservations := [], [], [], [], [];
      arraysBefore, jobsBefore := [], [];
    }

    /** Every job and every array has saved one template of its own, every reservation one of its. */
    ghost predicate Paired()
      reads this
    {
      && |templates| == |jobs| + |arrays|
      && |arraysBefore| == |jobs| && |jobsBefore| == |arrays|
      && (forall k :: 0 <= k < |jobs| ==> arraysBefore[k] <= |arrays| && jobs[k].templateId == k + 1 + arraysBefore[k])
      && (forall a :: 0 <= a < |arrays| ==> jobsBefore[a] <= |jobs| && arrays[a].templateId == a + 1 + jobsBefore[a])
      && (forall k, a :: 0 <= k < |jobs| && 0 <= a < |arrays| ==> (arraysBefore[k] <= a <==> k < jobsBefore[a]))
      && |reservations| == |reservationTemplates|
      && (forall r :: 0 <= r < |reservations| ==> reservations[r].templateId == r + 1)
    }

    /** The row that an id given as text names. */
    predicate HasJob(id: string)
      reads this
    {
      1 <= Atoll(id) <= |jobs|
    }

    function JobOf(id: string): JobRow
      requires HasJob(id)
      reads this
    {
      jobs[Atoll(id) - 1]
    }

    // -------------------------------------------------------------- inserts

    method SaveJTemplate(t: Template, sessionName: string) returns (id: nat)
      modifies this`templates
      ensures templates == old(templates) + [StoreTemplate(t, sessionName)] && id == |templates|
    {
      var args := JoinOption(t.args);
      var email := JoinOption(t.email);
      var machines := JoinOption(t.candidateMachines);
      var plain := t.(args := None, email := None, candidateMachines := None,
                      deadlineTime := Replace.CInt(t.deadlineTime));
      templates := templates + [TemplateRow(sessionName, plain, args, email, machines)];
      id := |templates|;
    }

    method SaveJob(js: Session, templateId: nat) returns (id: nat)
      modifies this`jobs, this`arraysBefore
      ensures jobs == old(jobs) + [JobRow(js.id, js.name, templateId, Row(None, None, None, None, None))]
      ensures id == |jobs| && arraysBefore == old(arraysBefore) + [|arrays|]
    {
      jobs := jobs + [JobRow(js.id, js.name, templateId, Row(None, None, None, None, None))];
      arraysBefore := arraysBefore + [|arrays|];
      id := |jobs|;
    }

    method SaveJArray(sessionName: string, templateId: nat, ids: List<string>) returns (id: nat)
      requires ids.Valid()
      modifies this`arrays, this`jobsBefore
      ensures arrays == old(arrays) + [ArrayRow(sessionName, templateId, Join(ids.contents, SEPARATOR))]
      ensures id == |arrays| && jobsBefore == old(jobsBefore) + [|jobs|]
    {
      var buffer := StringJoin(ids, SEPARATOR);
      var text := if buffer == null then None else Some(buffer[..buffer.Length - 1]);
      arrays := arrays + [ArrayRow(sessionName, templateId, text)];
      jobsBefore := jobsBefore + [|jobs|];
      id := |arrays|;
    }

    /** `drmaa2_rsession_request_reservation`: the template row, then the reservation row, which is
        named after its own id. */
    method RequestReservation(sessionName: string, template: string, name: Option<string>)
      returns (e: Error, h: Option<Handle>)
      modifies this`reservationTemplates, this`reservations
      ensures e == if sessionName in reservationSessions then SUCCESS else INVALID_SESSION
      ensures e != SUCCESS ==> h == None && reservationTemplates == old(reservationTemplates)
                               && reservations == old(reservations)
      ensures e == SUCCESS ==>
                var n := |old(reservations)| + 1;
                && reservationTemplates == old(reservationTemplates) + [template]
                && reservations == old(reservations)
                   + [ReservationRow(sessionName, |reservationTemplates|, name.GetOr("reservation") + Decimal(n))]
                && h == Some(Handle(Decimal(n), sessionName))
      ensures old(Paired()) ==> Paired()
    {
      if sessionName !in reservationSessions {
        return INVALID_SESSION, None;
      }
      reservationTemplates := reservationTemplates + [template];
      var templateId := |reservationTemplates|;
      reservations := reservations + [ReservationRow(sessionName, templateId, "")];
      var id := |reservations|;
      reservations := reservations[id - 1 := reservations[id - 1].(name := name.GetOr("reservation") + Decimal(id))];
      return SUCCESS, Some(Handle(Decimal(id), sessionName));
    }

    // -------------------------------------------------------------- updates of a job row

    method GetState(h: Handle) returns (state: JState)
      requires HasJob(h.id) && JobOf(h.id).life.state.Some?
      ensures state == JobOf(h.id).life.state.value
    {
      state := jobs[Atoll(h.id) - 1].life.state.value;
    }

    method GetJobPid(h: Handle) returns (pid: nat)
      requires HasJob(h.id) && JobOf(h.id).life.pid.Some?
      ensures pid == JobOf(h.id).life.pid.value
    {
      pid := jobs[Atoll(h.id) - 1].life.pid.value;
    }

    /** An update of a row that does not exist changes nothing. */
    method SaveState(h: Handle, state: JState)
      modifies this`jobs
      ensures jobs == WithLife(old(jobs), h.id, (r: Row) => r.(state := Some(state)))
    {
      if 1 <= Atoll(h.id) <= |jobs| {
        var k := Atoll(h.id) - 1;
        jobs := jobs[k := jobs[k].(life := jobs[k].life.(state := Some(state)))];
      }
    }

    method SavePid(id: string, pid: nat, now: nat)
      modifies this`jobs
      ensures jobs == WithLife(old(jobs), id, (r: Row) => r.(pid := Some(pid), dispatched := Some(now)))
    {
      if 1 <= Atoll(id) <= |jobs| {
        var k := Atoll(id) - 1;
        jobs := jobs[k := jobs[k].(life := jobs[k].life.(pid := Some(pid), dispatched := Some(now)))];
      }
    }

    method SaveExitStatus(id: string, status: nat, now: nat)
      modifies this`jobs
      ensures jobs == WithLife(old(jobs), id, (r: Row) => r.(exitStatus := Some(status), finished := Some(now)))
    {
      if 1 <= Atoll(id) <= |jobs| {
        var k := Atoll(id) - 1;
        jobs := jobs[k := jobs[k].(life := jobs[k].life.(exitStatus := Some(status), finished := Some(now)))];
      }
    }

    /** The submitter waits for the semaphore of its job. Meanwhile the monitors, the processes and the
        callers of any job store what they like in the rows; whatever the life cycle can make of them until
        the submission returns is one of the outcomes here, see `LifeCycleRuns.WaitLeavesRows`. */
    method AwaitPost(id: nat)
      requires 1 <= id <= |jobs| && jobs[id - 1].life.state.Some?
      modifies this`jobs
      ensures KeysOf(jobs) == KeysOf(old(jobs)) && Grown(old(jobs), jobs) && Submitted(jobs[id - 1])
      ensures AfterWait(LivesOf(old(jobs)), LivesOf(jobs), id - 1)
      ensures old(Paired()) ==> Paired()
    {
      hide Database.Paired, AfterWait, Grown, KeysOf, Submitted;
      SomeWaitedRows(jobs, id - 1);
      var lives :| |lives| == |jobs| && AfterWait(LivesOf(jobs), lives, id - 1);
      WaitedRows(jobs, lives, id - 1);
      ghost var rows := WithLives(jobs, lives);
      assert LivesOf(rows) == lives;
      Store(WithLives(jobs, lives));
    }

    /** Some processes have stored columns of some rows. */
    method Store(rows: seq<JobRow>)
      requires KeysOf(rows) == KeysOf(jobs) && Grown(jobs, rows)
      modifies this`jobs
      ensures jobs == rows && (old(Paired()) ==> Paired())
    {
      hide Grown, KeysOf;
      SameKeys(jobs, rows);
      jobs := rows;
    }

    // -------------------------------------------------------------- look-ups by id

    /** What the look-up of a job's template answers: the template row with the JOB's row id. */
    function LookedUp(jobId: string): Option<ReadResult>
      reads this
    {
      var n := Atoll(jobId);
      if 1 <= n <= |templates| then Some(ReadTemplate(templates[n - 1])) else None
    }

    /** The template that was saved for the job. */
    function OwnTemplate(jobId: string): ReadResult
      requires HasJob(jobId) && 1 <= JobOf(jobId).templateId <= |templates|
      reads this
    {
      ReadTemplate(templates[JobOf(jobId).templateId - 1])
    }

    /** `get_job_template`. For a job it answers with a template; it is the job's own when no array was saved
        before the job. */
    method GetJobTemplate(jobId: string) returns (t: Option<ReadResult>)
      ensures t == LookedUp(jobId)
      ensures Paired() && HasJob(jobId) ==>
                && t.Some? && 1 <= JobOf(jobId).templateId <= |templates|
                && (arraysBefore[Atoll(jobId) - 1] == 0 ==> t.value == OwnTemplate(jobId))
    {
      var n := Atoll(jobId);
      t := if 1 <= n <= |templates| then Some(ReadTemplate(templates[n - 1])) else None;
    }

    /** `get_jobarray_template`: the template row that the array row refers to. */
    method GetJobarrayTemplate(arrayId: string) returns (t: Option<ReadResult>)
      ensures t == var n := Atoll(arrayId);
                   if 1 <= n <= |arrays| && 1 <= arrays[n - 1].templateId <= |templates|
                   then Some(ReadTemplate(templates[arrays[n - 1].templateId - 1])) else None
    {
      var n := Atoll(arrayId);
      if 1 <= n <= |arrays| {
        var id := arrays[n - 1].templateId;
        t := if 1 <= id <= |templates| then Some(ReadTemplate(templates[id - 1])) else None;
      } else {
        t := None;
      }
    }

    /** `get_rtemplate`: the reservation template row with the RESERVATION's row id, which for every reservation
        is the row that was saved for it. */
    method GetRTemplate(reservationId: string) returns (t: Option<string>)
      ensures t == var n := Atoll(reservationId);
                   if 1 <= n <= |reservationTemplates| then Some(reservationTemplates[n - 1]) else None
      ensures Paired() && 1 <= Atoll(reservationId) <= |reservations| ==>
                var own := reservations[Atoll(reservationId) - 1].templateId;
                1 <= own <= |reservationTemplates| && t == Some(reservationTemplates[own - 1])
    {
      var n := Atoll(reservationId);
      t := if 1 <= n <= |reservationTemplates| then Some(reservationTemplates[n - 1]) else None;
    }

    /** Each template row was saved for a job or for an array: of the first `r` rows, `p` belong to the first
        jobs and `q` to the first arrays. */
    lemma {:induction false} RowsOwned(r: nat) returns (p: nat, q: nat)
      requires Paired() && r <= |templates|
      ensures p <= |jobs| && q <= |arrays| && p + q == r
      ensures p < |jobs| ==> jobs[p].templateId > r
      ensures q < |arrays| ==> arrays[q].templateId > r
      ensures r > 0 ==> (p > 0 && jobs[p - 1].templateId == r) || (q > 0 && arrays[q - 1].templateId == r)
    {
      p, q := 0, 0;
      if r > 0 {
        p, q := RowsOwned(r - 1);
        p, q := NextOwner(r - 1, p, q);
      }
    }

    /** The next row belongs to the next job or to the next array. */
    lemma NextOwner(r: nat, p: nat, q: nat) returns (p': nat, q': nat)
      requires Paired() && r < |templates| && p <= |jobs| && q <= |arrays| && p + q == r
      requires p < |jobs| ==> jobs[p].templateId > r
      requires q < |arrays| ==> arrays[q].templateId > r
      ensures (p' == p + 1 && q' == q && p < |jobs| && jobs[p].templateId == r + 1)
              || (p' == p && q' == q + 1 && q < |arrays| && arrays[q].templateId == r + 1)
      ensures p' < |jobs| ==> jobs[p'].templateId > r + 1
      ensures q' < |arrays| ==> arrays[q'].templateId > r + 1
    {
      if p < |jobs| && (q == |arrays| || arraysBefore[p] <= q) {
        p', q' := p + 1, q;
        if p' < |jobs| {
          JobTemplatesDiffer(p, p');
        }
      } else {
        p', q' := p, q + 1;
        if q' < |arrays| {
          ArrayOrder(q, q');
        }
      }
    }

    /** The template row with the id of job `k` was saved for an earlier job, or for an array before it. */
    ghost predicate OthersRow(k: nat)
      requires k < |arraysBefore|
      reads this
    {
      || (exists j :: 0 <= j < k && j < |jobs| && jobs[j].templateId == k + 1)
      || (exists a :: 0 <= a < arraysBefore[k] && a < |arrays| && arrays[a].templateId == k + 1)
    }

    /** The look-up of a job's template answers with the template row that has the job's id. It is the row
        that was saved for the job if and only if no job array was saved before the job; otherwise it
        was saved for an earlier job or for one of those arrays. */
    lemma JobTemplateIsOwnIff(k: nat)
      requires Paired() && k < |jobs|
      ensures HasJob(Decimal(k + 1)) && 1 <= JobOf(Decimal(k + 1)).templateId <= |templates|
      ensures LookedUp(Decimal(k + 1)) == Some(ReadTemplate(templates[k]))
      ensures OwnTemplate(Decimal(k + 1)) == ReadTemplate(templates[jobs[k].templateId - 1])
      ensures jobs[k].templateId - 1 == k <==> arraysBefore[k] == 0
      ensures arraysBefore[k] > 0 ==> OthersRow(k)
    {
      hide Database.Paired, Database.OthersRow, ReadTemplate, Atoll, Decimal;
      IdRoundTrip(k + 1);
      PairedJob(k);
      if arraysBefore[k] > 0 {
        OtherOwner(k);
      }
    }

    lemma PairedJob(k: nat)
      requires Paired() && k < |jobs|
      ensures |arraysBefore| == |jobs| && jobs[k].templateId == k + 1 + arraysBefore[k] <= |templates|
    {
    }

    lemma OtherOwner(k: nat)
      requires Paired() && k < |jobs| && arraysBefore[k] > 0
      ensures OthersRow(k)
    {
      var p, q := RowsOwned(k + 1);
      if p > 0 && jobs[p - 1].templateId == k + 1 {
        TemplateOrder(p - 1, k);
      } else {
        assert arrays[q - 1].templateId == k + 1;
      }
    }

    lemma TemplateOrder(j: nat, k: nat)
      requires Paired() && j < |jobs| && k < |jobs|
      ensures j < k <==> jobs[j].templateId < jobs[k].templateId
    {
      if j != k {
        JobTemplatesDiffer(if j < k then j else k, if j < k then k else j);
      }
    }

    /** No two jobs share a template row. */
    lemma JobTemplatesDiffer(j: nat, k: nat)
      requires Paired() && j < k < |jobs|
      ensures jobs[j].templateId < jobs[k].templateId
    {
      var a := arraysBefore[k];
      if a < |arrays| {
        assert j < k < jobsBefore[a];
      }
    }

    /** The row that an array refers to is a template row that belongs to no job and to no other array,
        so its look-up always reads the row saved for the array. */
    lemma ArrayTemplateIsOwn(a: nat)
      requires Paired() && a < |arrays|
      ensures Atoll(Decimal(a + 1)) == a + 1 && 1 <= arrays[a].templateId <= |templates|
      ensures forall k :: 0 <= k < |jobs| ==> jobs[k].templateId != arrays[a].templateId
      ensures forall b :: 0 <= b < |arrays| && b != a ==> arrays[b].templateId != arrays[a].templateId
    {
      IdRoundTrip(a + 1);
      forall b | 0 <= b < |arrays| && b != a ensures arrays[b].templateId != arrays[a].templateId {
        ArrayOrder(if a < b then a else b, if a < b then b else a);
      }
    }

    lemma ArrayOrder(a: nat, b: nat)
      requires Paired() && a < b < |arrays|
      ensures arrays[a].templateId < arrays[b].templateId
    {
      var k := jobsBefore[b];
      if k < |jobs| {
        assert a < b < arraysBefore[k];
      }
    }

    /** The look-up of a reservation's template always reads the row saved for the reservation. */
    lemma ReservationTemplateIsOwn(r: nat)
      requires Paired() && r < |reservations|
      ensures Atoll(Decimal(r + 1)) == reservations[r].templateId <= |reservationTemplates|
    {
      IdRoundTrip(r + 1);
    }

    /** `get_jobs_of_jarray`: one handle for each stored id, in order, in the array's session. */
    method GetJobsOfJArray(ja: Handle) returns (jl: List<Handle>)
      requires 1 <= Atoll(ja.id) <= |arrays| && arrays[Atoll(ja.id) - 1].jobs.Some?
      ensures jl.Valid() && fresh(jl.Repr)
      ensures jl.contents == HandlesOf(Split(arrays[Atoll(ja.id) - 1].jobs.value, SEPARATOR), ja.sessionName)
    {
      var sl := StringSplit(arrays[Atoll(ja.id) - 1].jobs, SEPARATOR);
      jl := HandleList(sl, ja.sessionName);
    }
  }

  /** A fresh list with a handle for each id. */
  method HandleList(sl: List<string>, sessionName: string) returns (jl: List<Handle>)
    requires sl.Valid()
    ensures jl.Valid() && fresh(jl.Repr) && jl.contents == HandlesOf(sl.contents, sessionName)
  {
    hide HandlesOf;
    ghost var ids := sl.contents;
    jl := new List<Handle>(true);
    var n := ListSize(sl);
    NoHandles(ids, sessionName);
    for i := 0 to n
      invariant sl.Valid() && sl.contents == ids
      invariant jl.Valid() && fresh(jl.Repr) && jl.contents == HandlesOf(ids[..i], sessionName)
    {
      var id := ListGet(sl, i);
      var e := ListAdd(jl, Handle(id.value, sessionName));
      OneMoreHandle(ids, i, sessionName);
    }
    assert ids[..n] == ids;
  }

  lemma NoHandles(ids: seq<string>, sessionName: string)
    ensures HandlesOf(ids[..0], sessionName) == []
  {
  }

  lemma OneMoreHandle(ids: seq<string>, i: nat, sessionName: string)
    requires i < |ids|
    ensures HandlesOf(ids[..i + 1], sessionName) == HandlesOf(ids[..i], sessionName) + [Handle(ids[i], sessionName)]
  {
  }

  function HandlesOf(ids: seq<string>, sessionName: string): seq<Handle> {
    seq(|ids|, i requires 0 <= i < |ids| => Handle(ids[i], sessionName))
  }

  function WithLife(jobs: seq<JobRow>, id: string, f: Row -> Row): seq<JobRow> {
    var n := Atoll(id);
    if 1 <= n <= |jobs| then jobs[n - 1 := jobs[n - 1].(life := f(jobs[n - 1].life))] else jobs
  }

  /** `string_join` of an attribute that may be unset. */
  method JoinOption(l: Option<seq<string>>) returns (s: Option<string>)
    ensures s == JoinColumn(l)
  {
    if l.None? {
      return None;
    }
    var sl := FromSeq(l.value);
    var buffer := StringJoin(sl, SEPARATOR);
    s := if buffer == null then None else Some(buffer[..buffer.Length - 1]);
  }

  method FromSeq(items: seq<string>) returns (sl: List<string>)
    ensures sl.Valid() && fresh(sl.Repr) && sl.contents == items
  {
    sl := new List<string>(true);
    for i := 0 to |items|
      invariant sl.Valid() && fresh(sl.Repr) && sl.contents == items[..i]
    {
      var e := ListAdd(sl, items[i]);
    }
  }
}
