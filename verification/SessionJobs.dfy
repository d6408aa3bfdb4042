/** The jobs of a session: the table as a query sees it, and what `get_jobs` without a filter finds in it. */
module SessionJobs {
  import opened Strings
  import opened Types
  import opened LinkedLists
  import opened Tables
  import opened Sql
  import opened FilterMeaning
  import opened JobQueries
  import opened BulkIndices
  import opened Submission
  import opened Bulk
  import T = Timestamps

  /** When each row was inserted, and the time texts of the other stored times. */
  datatype Times = Times(submitted: nat -> T.DateTime, stored: nat -> T.DateTime)

  ghost predicate ValidTimes(times: Times) {
    (forall n: nat :: T.Valid(times.submitted(n))) && (forall n: nat :: T.Valid(times.stored(n)))
  }

  function StoredTime(t: Option<nat>, times: Times): Option<T.DateTime> {
    match t case None => None case Some(n) => Some(times.stored(n))
  }

  function NumberCell(n: Option<nat>): Cell {
    match n case None => Null case Some(v) => Int(v)
  }

  /** The columns of a row that are neither its key nor a time; those that nothing writes are NULL. */
  function OtherCell(row: JobRow, c: Column): Cell {
    match c
    case PID => NumberCell(row.life.pid)
    case EXIT_STATUS => NumberCell(row.life.exitStatus)
    case JOB_STATE => (match row.life.state case None => Null case Some(state) => Int(StateCode(state)))
    case TEMPLATE_ID => Int(row.templateId)
    case _ => Null
  }

  /** A row of the job table as a query sees it. */
  function RecordOf(row: JobRow, id: nat, times: Times): Record {
    Record(id, row.sessionName, row.sessionId,
           Some(times.submitted(id)), StoredTime(row.life.dispatched, times), StoredTime(row.life.finished, times),
           (c: Column) => OtherCell(row, c))
  }

  /** The table, from the row with the id `first` on. */
  function TableFrom(jobs: seq<JobRow>, first: nat, times: Times): seq<Record> {
    if jobs == [] then [] else [RecordOf(jobs[0], first, times)] + TableFrom(jobs[1..], first + 1, times)
  }

  function TableOf(jobs: seq<JobRow>, times: Times): seq<Record> {
    TableFrom(jobs, 1, times)
  }

  /** The handles of the rows that a session inserted; only fixed columns matter. */
  function SessionHandles(keys: seq<JobKey>, js: Session, first: nat): seq<Handle> {
    if keys == [] then []
    else
      (if keys[0].sessionName == js.name && keys[0].sessionId == js.id then [Handle(Decimal(first), js.name)] else [])
      + SessionHandles(keys[1..], js, first + 1)
  }

  lemma {:induction false} SessionHandlesAppend(a: seq<JobKey>, b: seq<JobKey>, js: Session, first: nat)
    ensures SessionHandles(a + b, js, first) == SessionHandles(a, js, first) + SessionHandles(b, js, first + |a|)
  {
    if a == [] {
      assert a + b == b;
    } else {
      assert (a + b)[1..] == a[1..] + b;
      SessionHandlesAppend(a[1..], b, js, first + 1);
    }
  }

  /** All rows of a bulk submission belong to its session. */
  lemma {:induction false} SessionHandlesOfBulk(js: Session, templatesBefore: nat, n: nat, first: nat)
    ensures |SessionHandles(JobKeys(js, templatesBefore, n), js, first)| == n
    ensures forall k :: 0 <= k < n ==>
              SessionHandles(JobKeys(js, templatesBefore, n), js, first)[k] == Handle(Decimal(first + k), js.name)
    decreases n
  {
    hide Decimal;
    if n > 0 {
      SessionHandlesOfBulk(js, templatesBefore + 1, n - 1, first + 1);
      assert JobKeys(js, templatesBefore, n)[1..] == JobKeys(js, templatesBefore + 1, n - 1);
    }
  }

  predicate OfSession(js: Session, r: Record) {
    Matches(Some(js), None, r)
  }

  function SessionTest(js: Session): Record -> bool {
    r => OfSession(js, r)
  }

  /** What is found without a filter is what the session inserted, whatever the life cycle has stored. */
  lemma {:induction false} FoundIsInserted(jobs: seq<JobRow>, js: Session, first: nat, times: Times)
    ensures HandlesOfRows(Filtered(TableFrom(jobs, first, times), SessionTest(js))) ==
            SessionHandles(KeysOf(jobs), js, first)
  {
    hide RecordOf, Decimal, HandlesOfRows, Matches;
    var table := TableFrom(jobs, first, times);
    var p := SessionTest(js);
    if jobs == [] {
      NoHandleRows();
    } else {
      var rest := TableFrom(jobs[1..], first + 1, times);
      assert table == [RecordOf(jobs[0], first, times)] + rest && table[1..] == rest;
      assert KeysOf(jobs)[1..] == KeysOf(jobs[1..]);
      FoundIsInserted(jobs[1..], js, first + 1, times);
      FirstRecord(jobs[0], js, first, times);
      FilteredCons(RecordOf(jobs[0], first, times), rest, p);
      HandlesCons(table[0], Filtered(rest, p));
    }
  }

  lemma FilteredCons(r: Record, rest: seq<Record>, p: Record -> bool)
    ensures Filtered([r] + rest, p) == if p(r) then [r] + Filtered(rest, p) else Filtered(rest, p)
  {
    assert ([r] + rest)[1..] == rest;
  }

  lemma NoHandleRows()
    ensures HandlesOfRows([]) == []
  {
  }

  lemma FirstRecord(row: JobRow, js: Session, id: nat, times: Times)
    ensures var r := RecordOf(row, id, times);
            && r.id == id && r.sessionName == row.sessionName
            && (OfSession(js, r) <==> row.sessionName == js.name && row.sessionId == js.id)
  {
  }

  lemma HandlesCons(r: Record, rows: seq<Record>)
    ensures HandlesOfRows([r] + rows) == [Handle(Decimal(r.id), r.sessionName)] + HandlesOfRows(rows)
  {
    hide Decimal;
  }

  lemma FoundInTable(jobs: seq<JobRow>, js: Session, times: Times)
    ensures Found(Some(js), None, TableOf(jobs, times)) == SessionHandles(KeysOf(jobs), js, 1)
  {
    hide RecordOf, Decimal, KeysOf, SessionHandles;
    FoundIsInserted(jobs, js, 1, times);
    var table := TableOf(jobs, times);
    FilteredAlike(table, r => Matches(Some(js), None, r), SessionTest(js));
  }

  ghost predicate AllSound(table: seq<Record>) {
    forall k :: 0 <= k < |table| ==> Sound(table[k])
  }

  lemma {:induction false} TableIsSound(jobs: seq<JobRow>, first: nat, times: Times)
    requires ValidTimes(times)
    ensures AllSound(TableFrom(jobs, first, times))
  {
    hide RecordOf, Sound, AllSound;
    if jobs == [] {
      NothingIsSound();
    } else {
      TableIsSound(jobs[1..], first + 1, times);
      RecordIsSound(jobs[0], first, times);
      SoundCons(RecordOf(jobs[0], first, times), TableFrom(jobs[1..], first + 1, times));
    }
  }

  lemma NothingIsSound()
    ensures AllSound([])
  {
  }

  lemma SoundCons(r: Record, table: seq<Record>)
    requires Sound(r) && AllSound(table)
    ensures AllSound([r] + table)
  {
    hide Sound;
  }

  lemma RecordIsSound(row: JobRow, id: nat, times: Times)
    requires ValidTimes(times)
    ensures Sound(RecordOf(row, id, times))
  {
  }

  lemma KeysAppended(was: seq<JobRow>, now: seq<JobRow>, keys: seq<JobKey>)
    requires AllEntered(was, now, keys)
    ensures KeysOf(now) == KeysOf(was) + keys && |KeysOf(was)| == |was| && |now| == |was| + |keys|
  {
    KeyCounts(was, now, keys);
  }

  /** A bulk submission adds exactly its own jobs, in order, to those that `get_jobs` finds for the session. */
  lemma {:induction false} BulkAddsItsJobs(was: seq<JobRow>, now: seq<JobRow>, js: Session, templatesBefore: nat,
                                          n: nat, times: Times)
    requires AllEntered(was, now, JobKeys(js, templatesBefore, n))
    ensures |now| == |was| + n
    ensures Found(Some(js), None, TableOf(now, times)) ==
            Found(Some(js), None, TableOf(was, times))
            + seq(n, k requires 0 <= k < n => Handle(Decimal(|was| + k + 1), js.name))
  {
    hide RecordOf, Decimal, KeysOf, SessionHandles, Found, TableOf, AllEntered, JobKeys;
    var keys := JobKeys(js, templatesBefore, n);
    KeysAppended(was, now, keys);
    FoundInTable(was, js, times);
    FoundInTable(now, js, times);
    SessionHandlesAppend(KeysOf(was), keys, js, 1);
    SessionHandlesOfBulk(js, templatesBefore, n, 1 + |was|);
  }

  /** A bulk submission, then the jobs of the session without a filter: the jobs that were there before, then
      one for each index of the range. */
  method SubmitAndQuery(db: Database, supported: seq<string>, js: Session, jt: JTemplate, h: Heap,
                        begin: nat, end: nat, step: nat, times: Times, other: Option<seq<Record>>)
    returns (jl: List?<Handle>)
    requires 1 <= begin <= end < ULONG_MODULUS && step < ULONG_MODULUS && ValidTimes(times)
    requires Runnable(db.jobSessions, supported, js, jt.Value(), begin, end, step)
    requires js.name in db.jobSessions && QuotedText(js.name) && IsCString(js.name)
    modifies h, jt, db`templates, db`jobs, db`arraysBefore, db`arrays, db`jobsBefore
    ensures jl != null && jl.Valid()
    ensures var n := (end - begin) / step + 1;
            jl.contents ==
              Found(Some(js), None, TableOf(old(db.jobs), times))
              + seq(n, k requires 0 <= k < n => Handle(Decimal(|old(db.jobs)| + k + 1), js.name))
  {
    hide Acceptable, PathsFit, EndsAfter, Database.Paired, TemplateRows, StoreTemplate, JobKeys, AllEntered;
    hide Decimal, Atoll, Found, TableFrom, Sound, QuotedText, IsCString, ValidTimes;
    ghost var n := Count(begin, end, step);
    var result, ja := RunBulkJobs(db, supported, js, jt, h, begin, end, step);
    BulkAddsItsJobs(old(db.jobs), db.jobs, js, |old(db.templates)|, n, times);
    TableIsSound(db.jobs, 1, times);
    var table := TableOf(db.jobs, times);
    assert AllSound(table);
    var e, r := JSessionGetJobs(db.jobSessions, js, None, table, other);
    jl := r;
  }
}
