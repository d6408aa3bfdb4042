/** `drmaa2_jsession_run_job`: the checks of the template, then the rows of the job. While the submitter waits
    for the pid the job's own processes and others write to the table, see module `LifeCycle`. */
module Submission {
  import opened Strings
  import opened Types
  import opened LinkedLists
  import opened LifeCycle
  import opened Tables
  import opened ListCodec
  import Replace

  /** The attributes that this implementation does not support are all unset. */
  predicate OnlySupported(t: Template) {
    && t.email.None? && !t.emailOnStarted && !t.emailOnTerminated
    && t.maxSlots == UNSET_NUM && t.deadlineTime == UNSET_TIME && t.accountingId.None?
  }

  /** Reading back the template of an accepted job never ends the process, and gives the template itself if and
      only if its two list attributes survive storage. */
  lemma SupportedReadsBackIff(t: Template, sessionName: string)
    requires OnlySupported(t)
    ensures ReadTemplate(StoreTemplate(t, sessionName)).Filled?
    ensures ReadTemplate(StoreTemplate(t, sessionName)) == Filled(t) <==>
            Storable(t.args) && Storable(t.candidateMachines)
  {
    hide Storable, SplitColumn, JoinColumn, Replace.CInt;
    TemplateRoundTripIff(t, sessionName);
    Replace.CIntIff(UNSET_TIME);
    assert Storable(t.email) by {
      UnsetIsStorable();
    }
  }

  lemma UnsetIsStorable()
    ensures Storable(None)
  {
  }

  /** When a job is accepted. */
  predicate Acceptable(sessions: set<string>, supported: seq<string>, js: Session, t: Template) {
    && js.name in sessions && OnlySupported(t)
    && (t.jobCategory.Some? ==> t.jobCategory.value in supported)
  }

  /** The row of a job that its submitter has queued, before any other process has seen it. */
  function QueuedRow(js: Session, templateId: nat): JobRow {
    JobRow(js.id, js.name, templateId, Row(Some(QUEUED), None, None, None, None))
  }

  method CategoryIsSupported(supported: seq<string>, category: string) returns (found: bool)
    ensures found <==> category in supported
  {
    var sl := FromSeq(supported);
    var n := ListSize(sl);
    found := false;
    var i := 0;
    while i < n && !found
      invariant sl.Valid() && sl.contents == supported
      invariant 0 <= i <= n == |supported| && (found <==> category in supported[..i])
      decreases n - i, !found
    {
      var item := ListGet(sl, i);
      found := item.value == category;
      i := i + 1;
    }
  }

  /** What a row that was there before shows when other processes have gone on meanwhile: what was inserted, and
      what was stored in any column that is written once. */
  predicate Outlived(was: JobRow, now: JobRow) {
    && now.sessionId == was.sessionId && now.sessionName == was.sessionName && now.templateId == was.templateId
    && (was.life.state.Some? ==> now.life.state.Some?)
    && (was.life.pid.Some? ==> now.life.pid == was.life.pid)
    && (was.life.dispatched.Some? ==> now.life.dispatched == was.life.dispatched)
    && (was.life.exitStatus.Some? ==> now.life.exitStatus == was.life.exitStatus)
    && (was.life.finished.Some? ==> now.life.finished == was.life.finished)
  }

  /** A job is accepted exactly when `Acceptable` says so; the first check that fails names the error,
      and a refused job leaves no row behind. */
  method RunJob(db: Database, supported: seq<string>, js: Session, t: Template)
    returns (e: Error, h: Option<Handle>)
    modifies db`templates, db`jobs, db`arraysBefore
    ensures e == SUCCESS <==> Acceptable(db.jobSessions, supported, js, t)
    ensures e == INVALID_SESSION <==> js.name !in db.jobSessions
    ensures e == INVALID_ARGUMENT <==>
            js.name in db.jobSessions && t.jobCategory.Some? && t.jobCategory.value !in supported
    ensures e == UNSUPPORTED_ATTRIBUTE <==>
            && js.name in db.jobSessions && (t.jobCategory.None? || t.jobCategory.value in supported)
            && (t.email.Some? || t.emailOnStarted || t.emailOnTerminated || t.maxSlots != -1 || t.deadlineTime != -3
                || t.accountingId.Some?)
    ensures e in {SUCCESS, INVALID_SESSION, INVALID_ARGUMENT, UNSUPPORTED_ATTRIBUTE}
    ensures e != SUCCESS ==> h == None && unchanged(db)
    ensures e == SUCCESS ==>
              && db.templates == old(db.templates) + [StoreTemplate(t, js.name)]
              && Entered(old(db.jobs), db.jobs, JobKey(js.id, js.name, |db.templates|))
              && db.arraysBefore == old(db.arraysBefore) + [|db.arrays|]
              && h == Some(Handle(Decimal(|db.jobs|), js.name))
    ensures e == SUCCESS ==>
              && |db.jobs| == |old(db.jobs)| + 1
              && (forall k :: 0 <= k < |old(db.jobs)| ==> Outlived(old(db.jobs)[k], db.jobs[k]))
              && var row := db.jobs[|old(db.jobs)|];
                 && row.sessionId == js.id && row.sessionName == js.name && row.templateId == |db.templates|
                 && row.life.state.Some? && row.life.pid.Some? && row.life.dispatched.Some?
    ensures old(db.Paired()) ==> db.Paired()
  {
    if js.name !in db.jobSessions {
      return INVALID_SESSION, None;
    }
    if t.jobCategory.Some? {
      var found := CategoryIsSupported(supported, t.jobCategory.value);
      if !found {
        return INVALID_ARGUMENT, None;
      }
    }
    if t.email.Some? || t.emailOnStarted || t.emailOnTerminated {
      return UNSUPPORTED_ATTRIBUTE, None;
    }
    if t.maxSlots != UNSET_NUM {
      return UNSUPPORTED_ATTRIBUTE, None;
    }
    if t.deadlineTime != UNSET_TIME {
      return UNSUPPORTED_ATTRIBUTE, None;
    }
    if t.accountingId.Some? {
      return UNSUPPORTED_ATTRIBUTE, None;
    }
    var j := Enter(db, js, t);
    EnteredMeans(old(db.jobs), db.jobs, JobKey(js.id, js.name, |db.templates|));
    return SUCCESS, Some(j);
  }

  /** The two inserts, the first update of the row, and the wait for the pid. */
  method Enter(db: Database, js: Session, t: Template) returns (j: Handle)
    modifies db`templates, db`jobs, db`arraysBefore
    ensures db.templates == old(db.templates) + [StoreTemplate(t, js.name)]
    ensures Entered(old(db.jobs), db.jobs, JobKey(js.id, js.name, |db.templates|))
    ensures db.arraysBefore == old(db.arraysBefore) + [|db.arrays|]
    ensures j == Handle(Decimal(|db.jobs|), js.name)
    ensures old(db.Paired()) ==> db.Paired()
  {
    hide StoreTemplate;
    var jobId := Queue(db, js, t);
    QueuedIsEntered(old(db.jobs), js, |db.templates|);
    ghost var queued := db.jobs;
    db.AwaitPost(jobId);
    EnteredLater(old(db.jobs), queued, db.jobs, JobKey(js.id, js.name, |db.templates|));
    j := Handle(Decimal(jobId), js.name);
  }

  /** What the submitter itself writes: both inserts and the state QUEUED. */
  method Queue(db: Database, js: Session, t: Template) returns (jobId: nat)
    modifies db`templates, db`jobs, db`arraysBefore
    ensures db.templates == old(db.templates) + [StoreTemplate(t, js.name)]
    ensures db.jobs == old(db.jobs)
                       + [JobRow(js.id, js.name, |db.templates|, Row(Some(QUEUED), None, None, None, None))]
    ensures jobId == |db.jobs|
    ensures db.arraysBefore == old(db.arraysBefore) + [|db.arrays|]
    ensures old(db.Paired()) ==> db.Paired()
  {
    var templateId := db.SaveJTemplate(t, js.name);
    jobId := db.SaveJob(js, templateId);
    IdRoundTrip(jobId);
    db.SaveState(Handle(Decimal(jobId), js.name), QUEUED);
  }

  /** One row has been added, with a state and a pid; the others have kept what they had, and whatever was
      stored in any row has stayed stored. */
  predicate Entered(was: seq<JobRow>, now: seq<JobRow>, key: JobKey) {
    && KeysOf(now) == KeysOf(was) + [key] && Grown(was, now) && Submitted(now[|was|])
  }

  lemma EnteredMeans(was: seq<JobRow>, now: seq<JobRow>, key: JobKey)
    requires Entered(was, now, key)
    ensures |now| == |was| + 1 && KeyOf(now[|was|]) == key && Submitted(now[|was|])
    ensures forall k :: 0 <= k < |was| ==> Outlived(was[k], now[k])
  {
    assert |KeysOf(now)| == |now| && |KeysOf(was)| == |was|;
    assert KeysOf(now)[|was|] == KeyOf(now[|was|]);
    forall k | 0 <= k < |was| ensures Outlived(was[k], now[k]) {
      assert KeysOf(now)[k] == KeysOf(was)[k];
      SameRow(was[k], now[k]);
    }
  }

  lemma SameRow(was: JobRow, now: JobRow)
    requires KeyOf(was) == KeyOf(now) && Later(was.life, now.life)
    ensures Outlived(was, now)
  {
  }

  lemma QueuedIsEntered(was: seq<JobRow>, js: Session, templateId: nat)
    ensures KeysOf(was + [QueuedRow(js, templateId)]) == KeysOf(was) + [JobKey(js.id, js.name, templateId)]
    ensures Grown(was, was + [QueuedRow(js, templateId)])
    ensures (was + [QueuedRow(js, templateId)])[|was|].life.state.Some?
  {
  }

  lemma EnteredLater(was: seq<JobRow>, queued: seq<JobRow>, now: seq<JobRow>, key: JobKey)
    requires KeysOf(queued) == KeysOf(was) + [key] && Grown(was, queued)
    requires |queued| == |was| + 1 && queued[|was|].life.state.Some?
    requires KeysOf(now) == KeysOf(queued) && Grown(queued, now)
    requires |now| > |was| && Submitted(now[|was|])
    ensures |now| == |queued| && Entered(was, now, key)
  {
    assert |now| == |KeysOf(now)|;
  }
}
