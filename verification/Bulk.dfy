/** `drmaa2_jsession_run_bulk_jobs`: one job for each index, submitted through the caller's own template,
    whose path fields are overwritten for the time of each submission. */
module Bulk {
  import opened Strings
  import opened Types
  import opened LinkedLists
  import opened Pointers
  import opened Replace
  import opened Placeholders
  import opened ListCodec
  import opened Tables
  import opened Submission
  import opened BulkIndices
  import opened PathSizes

  // ---------------------------------------------------------------- the heap

  /** The strings that the loop has made and not freed. Freeing demands that the string is one of
      them, so nothing is freed twice and nothing of the caller's is freed. */
  class Heap {
    ghost var live: set<CStr>

    constructor ()
      ensures live == {}
    {
      live := {};
    }

    method New(text: string) returns (p: CStr)
      modifies this
      ensures fresh(p) && p.text == text && live == old(live) + {p}
    {
      p := new CStr(text);
      live := live + {p};
    }

    /** `drmaa2_string_free`; NULL is left alone. */
    method Free(p: CStr?)
      requires p != null ==> p in live
      modifies this
      ensures live == old(live) - Pointees(p)
    {
      live := live - Pointees(p);
    }

    /** `str_replace` into a new string. */
    method Replace(orig: CStr?, rep: string, with: string) returns (r: CStr?)
      requires rep != "" && (orig != null ==> FitsInt(orig.text, rep, with))
      modifies this
      ensures r == null <==> orig == null
      ensures r != null ==> fresh(r) && r.text == ReplaceAll(orig.text, rep, with)
      ensures live == old(live) + Pointees(r)
    {
      var buffer := StrReplace(if orig == null then None else Some(orig.text), rep, with);
      if buffer == null {
        return null;
      }
      r := New(buffer[..buffer.Length - 1]);
    }
  }

  ghost function Pointees(p: CStr?): set<CStr> {
    if p == null then {} else {p}
  }

  function TextOf(p: CStr?): Option<string> {
    if p == null then None else Some(p.text)
  }

  // ---------------------------------------------------------------- the template

  /** The caller's template; only the four paths are ever written. */
  class JTemplate {
    var workingDirectory: CStr?
    var inputPath: CStr?
    var outputPath: CStr?
    var errorPath: CStr?
    const others: Template

    constructor (workingDirectory: CStr?, inputPath: CStr?, outputPath: CStr?, errorPath: CStr?, others: Template)
      ensures Value() == others.(workingDirectory := TextOf(workingDirectory), inputPath := TextOf(inputPath),
                                 outputPath := TextOf(outputPath), errorPath := TextOf(errorPath))
    {
      this.workingDirectory, this.inputPath, this.outputPath, this.errorPath :=
        workingDirectory, inputPath, outputPath, errorPath;
      this.others := others;
    }

    function Value(): Template
      reads this
    {
      others.(workingDirectory := TextOf(workingDirectory), inputPath := TextOf(inputPath),
              outputPath := TextOf(outputPath), errorPath := TextOf(errorPath))
    }

    ghost predicate Holds(w: CStr?, i: CStr?, o: CStr?, e: CStr?)
      reads this
    {
      workingDirectory == w && inputPath == i && outputPath == o && errorPath == e
    }
  }

  /** The paths for one index. */
  function Expanded(t: Template, index: nat): Template {
    t.(workingDirectory := if t.workingDirectory.None? then None
                           else Some(ExpandWorkingDirectory(t.workingDirectory.value, index)),
       inputPath := ExpandedPath(t.inputPath, index), outputPath := ExpandedPath(t.outputPath, index),
       errorPath := ExpandedPath(t.errorPath, index))
  }

  function ExpandedPath(p: Option<string>, index: nat): Option<string> {
    if p.None? then None else Some(ExpandPath(p.value, index))
  }

  predicate OptionFits(p: Option<string>, index: nat) {
    p.Some? ==> PathFits(p.value, index)
  }

  predicate PathsFit(t: Template, index: nat) {
    && OptionFits(t.workingDirectory, index) && OptionFits(t.inputPath, index)
    && OptionFits(t.outputPath, index) && OptionFits(t.errorPath, index)
  }

  /** What the paths are does not matter to the checks of `RunJob`. */
  lemma ExpandedIsAcceptable(sessions: set<string>, supported: seq<string>, js: Session, t: Template, index: nat)
    ensures Acceptable(sessions, supported, js, Expanded(t, index)) <==> Acceptable(sessions, supported, js, t)
  {
  }

  // ---------------------------------------------------------------- one iteration

  /** Two passes; the string between them is freed. */
  method ExpandedWorkingDirectory(h: Heap, path: CStr?, index: CStr, ghost n: nat) returns (r: CStr?)
    requires index.text == Decimal(n) && OptionFits(TextOf(path), n)
    modifies h
    ensures r == null <==> path == null
    ensures r != null ==> fresh(r) && r.text == ExpandWorkingDirectory(path.text, n)
    ensures h.live == old(h.live) + Pointees(r)
  {
    hide FitsInt, ReplaceAll;
    var tmp := h.Replace(path, INDEX, index.text);
    r := h.Replace(tmp, HOME_DIR, "~");
    h.Free(tmp);
  }

  /** Three passes; the strings between them are freed. */
  method ExpandedPathField(h: Heap, path: CStr?, index: CStr, ghost n: nat) returns (r: CStr?)
    requires index.text == Decimal(n) && OptionFits(TextOf(path), n)
    modifies h
    ensures r == null <==> path == null
    ensures r != null ==> fresh(r) && r.text == ExpandPath(path.text, n)
    ensures h.live == old(h.live) + Pointees(r)
  {
    hide FitsInt, ReplaceAll;
    var tmp := ExpandedWorkingDirectory(h, path, index, n);
    r := h.Replace(tmp, WORKING_DIR, ".");
    h.Free(tmp);
  }

  /** The four fields hold different strings that the loop made. */
  ghost predicate Owned(jt: JTemplate, before: set<CStr>, live: set<CStr>)
    reads jt
  {
    var w, i, o, e := Pointees(jt.workingDirectory), Pointees(jt.inputPath), Pointees(jt.outputPath),
                      Pointees(jt.errorPath);
    before !! w !! i !! o !! e && live == before + w + i + o + e
  }

  method Expand(h: Heap, jt: JTemplate, index: CStr, ghost n: nat)
    requires index.text == Decimal(n) && PathsFit(jt.Value(), n)
    modifies h, jt
    ensures jt.Value() == Expanded(old(jt.Value()), n)
    ensures Owned(jt, old(h.live), h.live)
  {
    hide PathFits, ExpandWorkingDirectory, ExpandPath;
    var w := ExpandedWorkingDirectory(h, jt.workingDirectory, index, n);
    var i := ExpandedPathField(h, jt.inputPath, index, n);
    var o := ExpandedPathField(h, jt.outputPath, index, n);
    var e := ExpandedPathField(h, jt.errorPath, index, n);
    jt.workingDirectory := w;
    jt.inputPath := i;
    jt.outputPath := o;
    jt.errorPath := e;
  }

  /** The fields get the caller's strings back, and the strings that were made are freed. */
  method CleanUp(h: Heap, jt: JTemplate, w: CStr?, i: CStr?, o: CStr?, e: CStr?, ghost before: set<CStr>)
    requires Owned(jt, before, h.live)
    modifies h, jt
    ensures jt.Holds(w, i, o, e) && h.live == before
  {
    var tmp := jt.workingDirectory;
    jt.workingDirectory := w;
    h.Free(tmp);
    tmp := jt.inputPath;
    jt.inputPath := i;
    h.Free(tmp);
    tmp := jt.outputPath;
    jt.outputPath := o;
    h.Free(tmp);
    tmp := jt.errorPath;
    jt.errorPath := e;
    h.Free(tmp);
  }

  /** One iteration leaves the template's pointers and the heap as it found them and adds one job. */
  method RunOne(db: Database, supported: seq<string>, js: Session, jt: JTemplate, h: Heap, index: nat)
    returns (id: string)
    requires PathsFit(jt.Value(), index) && Acceptable(db.jobSessions, supported, js, jt.Value())
    modifies h, jt, db`templates, db`jobs, db`arraysBefore
    ensures jt.Holds(old(jt.workingDirectory), old(jt.inputPath), old(jt.outputPath), old(jt.errorPath))
    ensures h.live == old(h.live)
    ensures db.templates == old(db.templates) + [StoreTemplate(Expanded(old(jt.Value()), index), js.name)]
    ensures Entered(old(db.jobs), db.jobs, JobKey(js.id, js.name, |db.templates|)) && id == Decimal(|db.jobs|)
    ensures old(db.Paired()) ==> db.Paired()
  {
    hide Expanded, PathsFit, Acceptable, StoreTemplate, Entered, Database.Paired;
    var w, i, o, e := jt.workingDirectory, jt.inputPath, jt.outputPath, jt.errorPath;
    ghost var t := jt.Value();
    var indexText := h.New(Decimal(index));
    ghost var before := h.live;
    Expand(h, jt, indexText, index);
    ExpandedIsAcceptable(db.jobSessions, supported, js, t, index);
    var result, j := RunJob(db, supported, js, jt.Value());
    CleanUp(h, jt, w, i, o, e, before);
    h.Free(indexText);
    id := j.value.id;
  }

  // ---------------------------------------------------------------- the whole call

  /** The template rows of the jobs, one for each index. */
  function TemplateRows(t: Template, sessionName: string, begin: nat, step: nat, n: nat): (rows: seq<TemplateRow>)
    ensures |rows| == n
    ensures forall k :: 0 <= k < n ==> rows[k] == StoreTemplate(Expanded(t, IndexAt(begin, step, k)), sessionName)
  {
    seq(n, k requires 0 <= k < n => StoreTemplate(Expanded(t, IndexAt(begin, step, k)), sessionName))
  }

  /** The fixed columns of the job rows, each with its own template. */
  function JobKeys(js: Session, templatesBefore: nat, n: nat): (keys: seq<JobKey>)
    ensures |keys| == n
    ensures forall k :: 0 <= k < n ==> keys[k] == JobKey(js.id, js.name, templatesBefore + k + 1)
  {
    seq(n, k requires 0 <= k < n => JobKey(js.id, js.name, templatesBefore + k + 1))
  }

  /** Rows have been added, each with a state and a pid; the others have kept what they had. */
  predicate AllEntered(was: seq<JobRow>, now: seq<JobRow>, keys: seq<JobKey>) {
    && KeysOf(now) == KeysOf(was) + keys && Grown(was, now)
    && forall k :: |was| <= k < |now| ==> Submitted(now[k])
  }

  /** A row with the session and the template, of a job whose submission has returned. */
  predicate IsJobOf(row: JobRow, js: Session, templateId: int) {
    && row.sessionId == js.id && row.sessionName == js.name && row.templateId == templateId
    && row.life.state.Some? && row.life.pid.Some? && row.life.dispatched.Some?
  }

  lemma AllEnteredMeans(was: seq<JobRow>, now: seq<JobRow>, js: Session, templatesBefore: nat, n: nat)
    requires AllEntered(was, now, JobKeys(js, templatesBefore, n))
    ensures |now| == |was| + n
    ensures forall k :: 0 <= k < |was| ==> Outlived(was[k], now[k])
    ensures forall k :: |was| <= k < |now| ==> IsJobOf(now[k], js, templatesBefore + k - |was| + 1)
  {
    hide JobKeys;
    var keys := JobKeys(js, templatesBefore, n);
    assert |KeysOf(now)| == |now| && |KeysOf(was)| == |was|;
    forall k | 0 <= k < |was| ensures Outlived(was[k], now[k]) {
      assert KeysOf(now)[k] == KeysOf(was)[k];
      SameRow(was[k], now[k]);
    }
    forall k | |was| <= k < |now| ensures IsJobOf(now[k], js, templatesBefore + k - |was| + 1) {
      assert KeysOf(now)[k] == keys[k - |was|];
    }
  }

  function Ids(jobsBefore: nat, n: nat): (ids: seq<string>)
    ensures |ids| == n && forall k :: 0 <= k < n ==> ids[k] == Decimal(jobsBefore + k + 1)
  {
    seq(n, k requires 0 <= k < n => Decimal(jobsBefore + k + 1))
  }

  /** What a caller has to see to in a valid range: an accepted template, paths that fit, a step
      that is not zero, and a last index behind which a step does not wrap. */
  ghost predicate Runnable(sessions: set<string>, supported: seq<string>, js: Session, t: Template,
                           begin: nat, end: nat, step: nat)
  {
    && step >= 1 && begin <= end
    && EndsAfter(begin, end, step, Count(begin, end, step))
    && Acceptable(sessions, supported, js, t)
    && forall index: nat :: begin <= index <= end ==> PathsFit(t, index)
  }

  method RunBulkJobs(db: Database, supported: seq<string>, js: Session, jt: JTemplate, h: Heap,
                     begin: nat, end: nat, step: nat)
    returns (result: Error, ja: Option<Handle>)
    requires end < ULONG_MODULUS && step < ULONG_MODULUS
    requires 1 <= begin <= end ==> Runnable(db.jobSessions, supported, js, jt.Value(), begin, end, step)
    modifies h, jt, db`templates, db`jobs, db`arraysBefore, db`arrays, db`jobsBefore
    ensures result == if 1 <= begin <= end then SUCCESS else INVALID_ARGUMENT
    ensures jt.workingDirectory == old(jt.workingDirectory) && jt.inputPath == old(jt.inputPath)
    ensures jt.outputPath == old(jt.outputPath) && jt.errorPath == old(jt.errorPath)
    ensures jt.Holds(old(jt.workingDirectory), old(jt.inputPath), old(jt.outputPath), old(jt.errorPath))
    ensures h.live == old(h.live) && (old(db.Paired()) ==> db.Paired())
    ensures result != SUCCESS ==> ja == None && unchanged(db)
    ensures result == SUCCESS ==>
              var n := Count(begin, end, step);
              var t := old(jt.Value());
              && db.templates == old(db.templates) + TemplateRows(t, js.name, begin, step, n)
                 + [StoreTemplate(t, js.name)]
              && AllEntered(old(db.jobs), db.jobs, JobKeys(js, |old(db.templates)|, n))
              && db.arrays == old(db.arrays)
                 + [ArrayRow(js.name, |db.templates|, Join(Ids(|old(db.jobs)|, n), SEPARATOR))]
              && ja == Some(Handle(Decimal(|db.arrays|), js.name))
    ensures result == SUCCESS ==>
              && |db.jobs| == |old(db.jobs)| + (end - begin) / step + 1
              && (forall k :: 0 <= k < |old(db.jobs)| ==> Outlived(old(db.jobs)[k], db.jobs[k]))
              && (forall k :: |old(db.jobs)| <= k < |db.jobs| ==>
                    IsJobOf(db.jobs[k], js, |old(db.templates)| + k - |old(db.jobs)| + 1))
  {
    hide AllEntered, TemplateRows, JobKeys, StoreTemplate, Database.Paired;
    if end < begin {
      return INVALID_ARGUMENT, None;
    } else if begin < 1 {
      return INVALID_ARGUMENT, None;
    }
    var sl := SubmitAll(db, supported, js, jt, h, begin, end, step);
    AllEnteredMeans(old(db.jobs), db.jobs, js, |old(db.templates)|, Count(begin, end, step));
    var id := EnterArray(db, js, jt.Value(), sl);
    return SUCCESS, Some(Handle(Decimal(id), js.name));
  }

  /** The template of the array, then its row. */
  method EnterArray(db: Database, js: Session, t: Template, sl: List<string>) returns (id: nat)
    requires sl.Valid()
    modifies db`templates, db`arrays, db`jobsBefore
    ensures db.templates == old(db.templates) + [StoreTemplate(t, js.name)]
    ensures db.arrays == old(db.arrays) + [ArrayRow(js.name, |db.templates|, Join(sl.contents, SEPARATOR))]
    ensures id == |db.arrays|
    ensures old(db.Paired()) ==> db.Paired()
  {
    var templateId := db.SaveJTemplate(t, js.name);
    id := db.SaveJArray(js.name, templateId, sl);
  }

  /** The rows that `k` iterations have added, and the ids they have collected. */
  ghost predicate Added(js: Session, t: Template, begin: nat, step: nat, k: nat,
                        templates: seq<TemplateRow>, templates': seq<TemplateRow>,
                        jobs: seq<JobRow>, jobs': seq<JobRow>, ids: seq<string>)
  {
    && templates' == templates + TemplateRows(t, js.name, begin, step, k)
    && AllEntered(jobs, jobs', JobKeys(js, |templates|, k))
    && ids == Ids(|jobs|, k)
  }

  lemma NothingAdded(js: Session, t: Template, begin: nat, step: nat, templates: seq<TemplateRow>, jobs: seq<JobRow>)
    ensures Added(js, t, begin, step, 0, templates, templates, jobs, jobs, [])
  {
  }

  /** One more iteration adds a template row, a job row and an id. */
  lemma OneMoreAdded(js: Session, t: Template, begin: nat, step: nat, k: nat,
                     templates: seq<TemplateRow>, templates': seq<TemplateRow>,
                     jobs: seq<JobRow>, jobs': seq<JobRow>, jobs'': seq<JobRow>, ids: seq<string>)
    requires Added(js, t, begin, step, k, templates, templates', jobs, jobs', ids)
    requires Entered(jobs', jobs'', JobKey(js.id, js.name, |templates'| + 1))
    ensures Added(js, t, begin, step, k + 1,
                  templates, templates' + [StoreTemplate(Expanded(t, IndexAt(begin, step, k)), js.name)],
                  jobs, jobs'', ids + [Decimal(|jobs''|)])
  {
    hide TemplateRows, JobKeys, Ids, IndexAt, Expanded, StoreTemplate, Decimal, AllEntered, Entered;
    OneMoreTemplate(t, js.name, begin, step, k);
    OneMoreKey(js, |templates|, k);
    OneMoreId(|jobs|, k);
    Regroup(templates, TemplateRows(t, js.name, begin, step, k),
            StoreTemplate(Expanded(t, IndexAt(begin, step, k)), js.name));
    OneMoreEntered(jobs, jobs', jobs'', JobKeys(js, |templates|, k), JobKey(js.id, js.name, |templates'| + 1));
  }

  lemma OneMoreEntered(a: seq<JobRow>, b: seq<JobRow>, c: seq<JobRow>, keys: seq<JobKey>, key: JobKey)
    requires AllEntered(a, b, keys) && Entered(b, c, key)
    ensures AllEntered(a, c, keys + [key]) && |b| == |a| + |keys| && |c| == |b| + 1
  {
    assert |b| == |KeysOf(b)| && |c| == |KeysOf(c)|;
    Regroup(KeysOf(a), keys, key);
  }

  lemma Regroup<T>(a: seq<T>, b: seq<T>, x: T)
    ensures a + b + [x] == a + (b + [x])
  {
  }

  lemma OneMoreTemplate(t: Template, sessionName: string, begin: nat, step: nat, k: nat)
    ensures TemplateRows(t, sessionName, begin, step, k + 1) ==
            TemplateRows(t, sessionName, begin, step, k)
            + [StoreTemplate(Expanded(t, IndexAt(begin, step, k)), sessionName)]
  {
    hide IndexAt, Expanded, StoreTemplate;
  }

  lemma OneMoreKey(js: Session, templatesBefore: nat, k: nat)
    ensures JobKeys(js, templatesBefore, k + 1) ==
            JobKeys(js, templatesBefore, k) + [JobKey(js.id, js.name, templatesBefore + k + 1)]
  {
  }

  lemma OneMoreId(jobsBefore: nat, k: nat)
    ensures Ids(jobsBefore, k + 1) == Ids(jobsBefore, k) + [Decimal(jobsBefore + k + 1)]
  {
    hide Decimal;
  }

  /** The loop over the indices, in the wrapping arithmetic of `unsigned long`. */
  method SubmitAll(db: Database, supported: seq<string>, js: Session, jt: JTemplate, h: Heap,
                   begin: nat, end: nat, step: nat)
    returns (sl: List<string>)
    requires end < ULONG_MODULUS && step < ULONG_MODULUS
    requires Runnable(db.jobSessions, supported, js, jt.Value(), begin, end, step)
    modifies h, jt, db`templates, db`jobs, db`arraysBefore
    ensures jt.Holds(old(jt.workingDirectory), old(jt.inputPath), old(jt.outputPath), old(jt.errorPath))
    ensures h.live == old(h.live) && (old(db.Paired()) ==> db.Paired()) && sl.Valid() && fresh(sl.Repr)
    ensures Added(js, old(jt.Value()), begin, step, Count(begin, end, step),
                  old(db.templates), db.templates, old(db.jobs), db.jobs, sl.contents)
  {
    hide PathsFit, Acceptable, StoreTemplate, Database.Paired, Count, IndexAt, EndsAfter, Expanded;
    hide Added, Entered, Decimal;
    ghost var t, n, k: nat := jt.Value(), Count(begin, end, step), 0;
    ghost var templates, jobs := db.templates, db.jobs;
    sl := new List<string>(true);
    var index := begin;
    FirstIndex(begin, step);
    NothingAdded(js, t, begin, step, templates, jobs);
    while index <= end
      invariant k <= n && index == IndexAt(begin, step, k) && begin <= index
      invariant jt.Holds(old(jt.workingDirectory), old(jt.inputPath), old(jt.outputPath), old(jt.errorPath))
      invariant h.live == old(h.live) && (old(db.Paired()) ==> db.Paired()) && sl.Valid() && fresh(sl.Repr)
      invariant Added(js, t, begin, step, k, templates, db.templates, jobs, db.jobs, sl.contents)
      decreases end - index
    {
      NextOf(begin, end, step, k);
      SubmitOne(db, supported, js, jt, h, index, sl, begin, step, k, templates, jobs);
      index := (index + step) % ULONG_MODULUS;
      k := k + 1;
    }
    CountFits(begin, end, step, k);
  }

  /** One iteration, with the id of its job in the list. */
  method SubmitOne(db: Database, supported: seq<string>, js: Session, jt: JTemplate, h: Heap, index: nat,
                   sl: List<string>, ghost begin: nat, ghost step: nat, ghost k: nat,
                   ghost templates: seq<TemplateRow>, ghost jobs: seq<JobRow>)
    requires PathsFit(jt.Value(), index) && Acceptable(db.jobSessions, supported, js, jt.Value())
    requires sl.Valid() && {db, jt, h} !! sl.Repr && index == IndexAt(begin, step, k)
    requires Added(js, jt.Value(), begin, step, k, templates, db.templates, jobs, db.jobs, sl.contents)
    modifies h, jt, db`templates, db`jobs, db`arraysBefore, sl.Repr
    ensures jt.Holds(old(jt.workingDirectory), old(jt.inputPath), old(jt.outputPath), old(jt.errorPath))
    ensures h.live == old(h.live) && (old(db.Paired()) ==> db.Paired())
    ensures sl.Valid() && fresh(sl.Repr - old(sl.Repr))
    ensures Added(js, old(jt.Value()), begin, step, k + 1, templates, db.templates, jobs, db.jobs, sl.contents)
  {
    hide PathsFit, Acceptable, StoreTemplate, Database.Paired, IndexAt, Expanded, Added, Entered, Decimal;
    ghost var t, templates', jobs' := jt.Value(), db.templates, db.jobs;
    var id := RunOne(db, supported, js, jt, h, index);
    OneMoreAdded(js, t, begin, step, k, templates, templates', jobs, jobs', db.jobs, sl.contents);
    var added := ListAdd(sl, id);
  }

  /** An iteration that runs is one of the range, and the next index is not wrapped. */
  lemma NextOf(begin: nat, end: nat, step: nat, k: nat)
    requires begin <= end < ULONG_MODULUS && 1 <= step < ULONG_MODULUS
    requires EndsAfter(begin, end, step, Count(begin, end, step)) && IndexAt(begin, step, k) <= end
    ensures k < Count(begin, end, step)
    ensures (IndexAt(begin, step, k) + step) % ULONG_MODULUS == IndexAt(begin, step, k + 1)
    ensures IndexAt(begin, step, k + 1) > IndexAt(begin, step, k)
  {
    hide Count, IndexAt, EndsAfter, Visited;
    var n := Count(begin, end, step);
    CountFits(begin, end, step, k);
    LoopEndsIff(begin, end, step);
    NextIndex(begin, step, k);
    if k + 1 < n {
      CountFits(begin, end, step, k + 1);
    }
  }

  ghost predicate NoPlaceholder(p: Option<string>) {
    p.Some? ==> !Occurs(p.value, INDEX) && !Occurs(p.value, HOME_DIR) && !Occurs(p.value, WORKING_DIR)
  }

  /** No job of the array is stored with a placeholder left in a path, but for the job with index 2 and
      for the working directory, where its own placeholder means nothing. */
  lemma StoredPathsAreClean(t: Template, sessionName: string, begin: nat, step: nat, n: nat, k: nat)
    requires k < n && IndexAt(begin, step, k) != 2
    ensures var stored := TemplateRows(t, sessionName, begin, step, n)[k].plain;
            && NoPlaceholder(stored.inputPath) && NoPlaceholder(stored.outputPath) && NoPlaceholder(stored.errorPath)
            && (stored.workingDirectory.Some? ==>
                  !Occurs(stored.workingDirectory.value, INDEX) && !Occurs(stored.workingDirectory.value, HOME_DIR))
  {
    hide Occurs, ExpandPath, ExpandWorkingDirectory, IndexAt;
    var index := IndexAt(begin, step, k);
    WorkingDirectoryIsClean(t.workingDirectory.GetOr(""), index);
    PathIsClean(t.inputPath.GetOr(""), index);
    PathIsClean(t.outputPath.GetOr(""), index);
    PathIsClean(t.errorPath.GetOr(""), index);
  }

  // ---------------------------------------------------------------- end to end

  lemma IdsSeparate(jobsBefore: nat, n: nat)
    ensures Separable(Ids(jobsBefore, n), SEPARATOR)
  {
    assert !IsDigit(SEPARATOR);
  }

  /** The stored text of the ids splits into the ids again. */
  lemma IdsReadBack(jobsBefore: nat, n: nat, sessionName: string)
    requires n >= 1
    ensures var column := Join(Ids(jobsBefore, n), SEPARATOR);
            && column.Some?
            && HandlesOf(Split(column.value, SEPARATOR), sessionName)
               == seq(n, k requires 0 <= k < n => Handle(Decimal(jobsBefore + k + 1), sessionName))
  {
    hide Split, Separable;
    IdsSeparate(jobsBefore, n);
    SplitJoin(Ids(jobsBefore, n), SEPARATOR);
  }

  /** Submitting an array and reading it back. Its jobs: exactly one handle for each index of the range,
      in the order of submission, with the ids of the rows that were added and the name of the
      session. Its template: the one that was saved for the array itself. */
  method SubmitAndRead(db: Database, supported: seq<string>, js: Session, jt: JTemplate, h: Heap,
                       begin: nat, end: nat, step: nat)
    returns (jl: List<Handle>, template: Option<ReadResult>)
    requires 1 <= begin <= end < ULONG_MODULUS && step < ULONG_MODULUS
    requires Runnable(db.jobSessions, supported, js, jt.Value(), begin, end, step)
    modifies h, jt, db`templates, db`jobs, db`arraysBefore, db`arrays, db`jobsBefore
    ensures jl.Valid() && |jl.contents| == (end - begin) / step + 1
    ensures |db.jobs| == |old(db.jobs)| + |jl.contents|
    ensures forall k :: 0 <= k < |jl.contents| ==>
              jl.contents[k] == Handle(Decimal(|old(db.jobs)| + k + 1), js.name)
    ensures template == Some(ReadTemplate(StoreTemplate(old(jt.Value()), js.name)))
  {
    hide EndsAfter, Acceptable, PathsFit, Database.Paired, Split, HandlesOf, TemplateRows, StoreTemplate;
    hide ReadTemplate, JobKeys, AllEntered, Decimal, Atoll, Join;
    ghost var jobsBefore, n := |db.jobs|, Count(begin, end, step);
    var result, ja := RunBulkJobs(db, supported, js, jt, h, begin, end, step);
    KeyCounts(old(db.jobs), db.jobs, JobKeys(js, |old(db.templates)|, n));
    IdRoundTrip(|db.arrays|);
    IdsReadBack(jobsBefore, n, js.name);
    jl := db.GetJobsOfJArray(ja.value);
    template := db.GetJobarrayTemplate(ja.value.id);
  }

  /** A job that is submitted after the first array: the look-up of its template answers with the template
      of the array, whatever template the job was submitted with. */
  method BulkThenJob(db: Database, supported: seq<string>, js: Session, jt: JTemplate, h: Heap,
                     begin: nat, end: nat, step: nat, own: Template)
    returns (job: Handle, read: Option<ReadResult>)
    requires 1 <= begin <= end < ULONG_MODULUS && step < ULONG_MODULUS && db.Paired() && db.arrays == []
    requires Runnable(db.jobSessions, supported, js, jt.Value(), begin, end, step)
    requires Acceptable(db.jobSessions, supported, js, own)
    modifies h, jt, db`templates, db`jobs, db`arraysBefore, db`arrays, db`jobsBefore
    ensures db.HasJob(job.id) && 1 <= db.JobOf(job.id).templateId <= |db.templates|
    ensures db.OwnTemplate(job.id) == ReadTemplate(StoreTemplate(own, js.name))
    ensures read == Some(ReadTemplate(StoreTemplate(old(jt.Value()), js.name)))
  {
    hide EndsAfter, Acceptable, PathsFit, Database.Paired, Split, HandlesOf, StoreTemplate, ReadTemplate, JobKeys;
    ghost var n := Count(begin, end, step);
    PairedLengths(db);
    var result, ja := RunBulkJobs(db, supported, js, jt, h, begin, end, step);
    ghost var templates, jobs := db.templates, db.jobs;
    KeyCounts(old(db.jobs), jobs, JobKeys(js, |old(db.templates)|, n));
    var e, j := RunJob(db, supported, js, own);
    LastKey(jobs, db.jobs, JobKey(js.id, js.name, |db.templates|));
    IdRoundTrip(|db.jobs|);
    job := j.value;
    read := db.GetJobTemplate(job.id);
  }

  lemma PairedLengths(db: Database)
    requires db.Paired()
    ensures |db.templates| == |db.jobs| + |db.arrays|
  {
  }

  lemma KeyCounts(was: seq<JobRow>, now: seq<JobRow>, keys: seq<JobKey>)
    requires AllEntered(was, now, keys)
    ensures |now| == |was| + |keys|
  {
    assert |KeysOf(now)| == |now|;
  }

  lemma LastKey(was: seq<JobRow>, now: seq<JobRow>, key: JobKey)
    requires Entered(was, now, key)
    ensures |now| == |was| + 1 && KeyOf(now[|was|]) == key
  {
    assert |KeysOf(now)| == |now| && KeysOf(now)[|was|] == KeyOf(now[|was|]);
  }
}
