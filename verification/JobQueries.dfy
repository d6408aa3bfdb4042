/** `get_jobs`: the filter becomes a dictionary, the dictionary a query, and the rows that the query
    selects become handles. */
module JobQueries {
  import opened Strings
  import opened Types
  import opened LinkedLists
  import opened Pointers
  import opened DictionaryModel
  import opened Dictionary
  import opened QueryText
  import opened Sql
  import opened FilterParsing
  import opened FilterMeaning
  import opened Tables
  import opened ListCodec
  import T = Timestamps
  import LifeCycle
  import LifeCycleRuns

  // ---------------------------------------------------------------- what is selected

  function Filtered(table: seq<Record>, p: Record -> bool): seq<Record> {
    if table == [] then [] else (if p(table[0]) then [table[0]] else []) + Filtered(table[1..], p)
  }

  /** The rows that a query selects, in row order; None is a text that the reference reader does not read,
      about which it says nothing. */
  function Execute(query: string, table: seq<Record>): Option<seq<Record>> {
    match Parse(query)
    case None => None
    case Some(cs) => Some(Filtered(table, r => AllHold(cs, r)))
  }

  function HandlesOfRows(rows: seq<Record>): seq<Handle> {
    seq(|rows|, i requires 0 <= i < |rows| => Handle(Decimal(rows[i].id), rows[i].sessionName))
  }

  /** The handles of the jobs that match, in the order of their ids. */
  function Found(js: Option<Session>, f: Option<JInfo>, table: seq<Record>): seq<Handle> {
    HandlesOfRows(Filtered(table, r => Matches(js, f, r)))
  }

  lemma {:induction false} FilteredAlike(table: seq<Record>, p: Record -> bool, q: Record -> bool)
    requires forall i :: 0 <= i < |table| ==> p(table[i]) == q(table[i])
    ensures Filtered(table, p) == Filtered(table, q)
  {
    if table != [] {
      FilteredAlike(table[1..], p, q);
    }
  }

  /** The query that is built from a usable filter selects the jobs that match it, for every table. */
  lemma QueryFinds(js: Option<Session>, f: Option<JInfo>, table: seq<Record>)
    requires Usable(js, f) && forall i :: 0 <= i < |table| ==> Sound(table[i])
    ensures var rows := Execute(Query(SELECT, Fields(js, f)), table);
            rows.Some? && HandlesOfRows(rows.value) == Found(js, f, table)
  {
    hide Parse, Fields, Matches, AllHold, Usable, Sound;
    var cs := Meanings(Fields(js, f));
    forall i | 0 <= i < |table| ensures AllHold(cs, table[i]) == Matches(js, f, table[i]) {
      FilterSelects(js, f, table[i]);
    }
    FilterParses(js, f);
    FilteredAlike(table, r => AllHold(cs, r), r => Matches(js, f, r));
  }

  lemma FilterParses(js: Option<Session>, f: Option<JInfo>)
    requires Usable(js, f)
    ensures Parse(Query(SELECT, Fields(js, f))) == Some(Meanings(Fields(js, f)))
  {
    hide Parse, Fields, Matches, AllHold, Usable;
    FilterSelects(js, f, Only(ROWID, ""));
  }

  /** The state column of the table is what the life cycle stores. */
  ghost predicate ShowsStates(table: seq<Record>, s: LifeCycle.State) {
    |table| == |s.jobs| &&
    forall j :: 0 <= j < |table| ==>
      table[j].others(JOB_STATE) ==
        match s.jobs[j].row.state case None => Null case Some(state) => Int(StateCode(state))
  }

  /** In no reachable state does a filter as created find a job. */
  lemma FreshFilterFindsNothing(states: seq<LifeCycle.State>, steps: seq<LifeCycle.Step>, i: nat,
                                js: Option<Session>, table: seq<Record>)
    requires LifeCycle.IsRun(states, steps) && i <= |steps| && ShowsStates(table, states[i])
    ensures Found(js, Some(FRESH), table) == []
  {
    hide LifeCycle.IsRun, MatchesSession;
    LifeCycleRuns.RunLength(states, steps);
    forall j | 0 <= j < |table| ensures !Matches(js, Some(FRESH), table[j]) {
      if states[i].jobs[j].row.state.Some? {
        LifeCycleRuns.RequeuedIsNeverStored(states, steps, i, j);
      }
      FreshFilter(js, table[j]);
    }
    FilteredOut(table, r => Matches(js, Some(FRESH), r));
  }

  lemma {:induction false} FilteredOut(table: seq<Record>, p: Record -> bool)
    requires forall i :: 0 <= i < |table| ==> !p(table[i])
    ensures Filtered(table, p) == []
  {
    if table != [] {
      FilteredOut(table[1..], p);
    }
  }

  // ---------------------------------------------------------------- the dictionary of the filter

  /** The order in which the fields are set. */
  function Rank(c: Column): nat {
    match c
    case SESSION_NAME => 0
    case SESSION_ID => 1
    case ROWID => 2
    case EXIT_STATUS => 3
    case TERMINATING_SIGNAL => 4
    case JOB_STATE => 5
    case JOB_SUB_STATE => 6
    case SUBMISSION_MACHINE => 7
    case JOB_OWNER => 8
    case SLOTS => 9
    case QUEUE_NAME => 10
    case SUBMISSION_TIME => 11
    case DISPATCH_TIME => 12
    case FINISH_TIME => 13
    case _ => 14
  }

  /** Only fields of a smaller rank have been set. */
  ghost predicate Below(es: seq<Entry>, n: nat) {
    forall i :: 0 <= i < |es| ==>
      Resolve(es[i].key.text).Some? && Rank(Resolve(es[i].key.text).value) < n
  }

  lemma NewKey(es: seq<Entry>, c: Column)
    requires Below(es, Rank(c))
    ensures !HasKey(es, ColumnName(c))
  {
    hide ColumnName, Resolve;
    NameResolves(c);
  }

  lemma AppendedField(es: seq<Entry>, key: CStr, value: CStr)
    requires !HasKey(es, key.text)
    ensures Put(es, key, value) == es + [Entry(key, value)]
    ensures Texts(Put(es, key, value)) == Texts(es) + [Pair(key.text, value.text)]
  {
    hide Position;
    assert Position(es, key.text) == |es|;
  }

  /** `drmaa2_dict_set` when the field is set. */
  method SetField(d: Dict, c: Column, v: Option<string>)
    requires d.Valid() && Below(d.entries, Rank(c))
    modifies d.Repr
    ensures d.Valid() && fresh(d.Repr - old(d.Repr)) && Below(d.entries, Rank(c) + 1)
    ensures Texts(d.entries) == old(Texts(d.entries)) + Field(c, v)
  {
    hide Dict.Chained, Balanced, UniqueKeys, Put, Position, ColumnName, Resolve, HasKey;
    if v.Some? {
      var key := new CStr(ColumnName(c));
      var value := new CStr(v.value);
      NewKey(d.entries, c);
      AppendedField(d.entries, key, value);
      NameResolves(c);
      var e := DictSet(d, key, value);
    }
  }

  method SetSession(d: Dict, js: Option<Session>)
    requires d.Valid() && d.entries == []
    modifies d.Repr
    ensures d.Valid() && fresh(d.Repr - old(d.Repr)) && Below(d.entries, 2)
    ensures Texts(d.entries) == SessionFields(js)
  {
    hide Dict.Valid, Field, Below, Texts;
    NothingSet(d.entries);
    if js.Some? {
      SetField(d, SESSION_NAME, Some(js.value.name));
      SetField(d, SESSION_ID, Some(SignedDecimal(js.value.id)));
    }
  }

  lemma NothingSet(es: seq<Entry>)
    requires es == []
    ensures Below(es, 0) && Below(es, 2) && Texts(es) == []
  {
  }

  method SetStates(d: Dict, f: JInfo)
    requires d.Valid() && Below(d.entries, 2)
    modifies d.Repr
    ensures d.Valid() && fresh(d.Repr - old(d.Repr)) && Below(d.entries, 7)
    ensures Texts(d.entries) == old(Texts(d.entries)) + StateFields(f)
  {
    hide Dict.Valid, Field, Below, Texts;
    SetField(d, ROWID, f.jobId);
    SetField(d, EXIT_STATUS, NumberText(f.exitStatus, UNSET_NUM));
    SetField(d, TERMINATING_SIGNAL, f.terminatingSignal);
    SetField(d, JOB_STATE, NumberText(f.jobState, UNSET_ENUM));
    SetField(d, JOB_SUB_STATE, f.jobSubState);
  }

  method SetPlaces(d: Dict, f: JInfo)
    requires d.Valid() && Below(d.entries, 7)
    modifies d.Repr
    ensures d.Valid() && fresh(d.Repr - old(d.Repr)) && Below(d.entries, 11)
    ensures Texts(d.entries) == old(Texts(d.entries)) + PlaceFields(f)
  {
    hide Dict.Valid, Field, Below, Texts;
    SetField(d, SUBMISSION_MACHINE, f.submissionMachine);
    SetField(d, JOB_OWNER, f.jobOwner);
    SetField(d, SLOTS, NumberText(f.slots, UNSET_NUM));
    SetField(d, QUEUE_NAME, f.queueName);
  }

  method SetTimes(d: Dict, f: JInfo)
    requires d.Valid() && Below(d.entries, 11)
    modifies d.Repr
    ensures d.Valid() && fresh(d.Repr - old(d.Repr)) && Below(d.entries, 14)
    ensures Texts(d.entries) == old(Texts(d.entries)) + TimeFields(f)
  {
    hide Dict.Valid, Field, Below, Texts;
    SetField(d, SUBMISSION_TIME, TimeText(f.submissionTime));
    SetField(d, DISPATCH_TIME, TimeText(f.dispatchTime));
    SetField(d, FINISH_TIME, TimeText(f.finishTime));
  }

  /** The dictionary holds the fields that are set, in a fixed order. */
  method FilterDict(js: Option<Session>, f: Option<JInfo>) returns (d: Dict)
    ensures d.Valid() && fresh(d.Repr) && Texts(d.entries) == Fields(js, f)
  {
    hide Dict.Valid, StateFields, PlaceFields, TimeFields, SessionFields, Below, Texts;
    d := new Dict(false);
    SetSession(d, js);
    if f.Some? {
      SetStates(d, f.value);
      SetPlaces(d, f.value);
      SetTimes(d, f.value);
    }
  }

  // ---------------------------------------------------------------- no terminator in the text

  predicate CText(v: Option<string>) {
    v.Some? ==> IsCString(v.value)
  }

  /** What C demands of the strings of a session and a filter. */
  predicate CStrings(js: Option<Session>, f: Option<JInfo>) {
    && (js.Some? ==> IsCString(js.value.name))
    && (f.Some? ==>
          && CText(f.value.jobId) && CText(f.value.terminatingSignal) && CText(f.value.jobSubState)
          && CText(f.value.submissionMachine) && CText(f.value.jobOwner) && CText(f.value.queueName))
  }

  ghost predicate CPairs(ps: seq<Pair>) {
    forall i :: 0 <= i < |ps| ==> IsCString(ps[i].key) && IsCString(ps[i].value)
  }

  lemma CPairsAppend(a: seq<Pair>, b: seq<Pair>)
    requires CPairs(a) && CPairs(b)
    ensures CPairs(a + b)
  {
  }

  lemma CPairsField(c: Column, v: Option<string>)
    requires CText(v)
    ensures CPairs(Field(c, v))
  {
    hide ColumnName;
    Plain(c);
  }

  lemma CPairsNumber(c: Column, n: int, unset: int)
    ensures CPairs(Field(c, NumberText(n, unset)))
  {
    hide Field;
    CPairsField(c, NumberText(n, unset));
  }

  lemma CPairsTime(c: Column, t: Option<T.DateTime>)
    ensures CPairs(Field(c, TimeText(t)))
  {
    hide Field;
    CPairsField(c, TimeText(t));
  }

  lemma CFields(js: Option<Session>, f: Option<JInfo>)
    requires CStrings(js, f)
    ensures CPairs(Fields(js, f))
  {
    hide CPairs, SessionFields, InfoFields;
    CSession(js);
    CInfo(f);
    CPairsAppend(SessionFields(js), InfoFields(f));
  }

  lemma CSession(js: Option<Session>)
    requires js.Some? ==> IsCString(js.value.name)
    ensures CPairs(SessionFields(js))
  {
    hide Field;
    if js.Some? {
      CPairsField(SESSION_NAME, Some(js.value.name));
      CPairsNumber(SESSION_ID, js.value.id, js.value.id + 1);
      CPairsAppend(Field(SESSION_NAME, Some(js.value.name)), Field(SESSION_ID, Some(SignedDecimal(js.value.id))));
    }
  }

  lemma CInfo(f: Option<JInfo>)
    requires CStrings(None, f)
    ensures CPairs(InfoFields(f))
  {
    hide Field, NumberText, TimeText, IsCString;
    if f.Some? {
      var i := f.value;
      CPairsField(ROWID, i.jobId);
      CPairsNumber(EXIT_STATUS, i.exitStatus, UNSET_NUM);
      CPairsField(TERMINATING_SIGNAL, i.terminatingSignal);
      CPairsNumber(JOB_STATE, i.jobState, UNSET_ENUM);
      CPairsField(JOB_SUB_STATE, i.jobSubState);
      CPairsField(SUBMISSION_MACHINE, i.submissionMachine);
      CPairsField(JOB_OWNER, i.jobOwner);
      CPairsNumber(SLOTS, i.slots, UNSET_NUM);
      CPairsField(QUEUE_NAME, i.queueName);
      CPairsTime(SUBMISSION_TIME, i.submissionTime);
      CPairsTime(DISPATCH_TIME, i.dispatchTime);
      CPairsTime(FINISH_TIME, i.finishTime);
    }
  }

  lemma CCondition(p: Pair)
    requires IsCString(p.key) && IsCString(p.value)
    ensures IsCString(ConditionText(p))
  {
    hide HasToBeEscaped;
  }

  lemma {:induction false} CClauses(ps: seq<Pair>, i: nat)
    requires CPairs(ps) && i <= |ps|
    ensures IsCString(Clauses(ps, i))
    decreases |ps| - i
  {
    hide ConditionText;
    if i < |ps| {
      CCondition(ps[i]);
      CClauses(ps, i + 1);
    }
  }

  // ---------------------------------------------------------------- the calls

  lemma CQuery(js: Option<Session>, f: Option<JInfo>)
    requires CStrings(js, f)
    ensures IsCString(Query(SELECT, Fields(js, f)))
  {
    hide Fields, CPairs, Clauses;
    CFields(js, f);
    CClauses(Fields(js, f), 0);
  }

  /** What the database answers: as the reference reader says where it reads the query; otherwise it may
      reject the query (None) or select any rows, which is `other`. */
  function Answer(query: string, table: seq<Record>, other: Option<seq<Record>>): Option<seq<Record>> {
    var rows := Execute(query, table);
    if rows.Some? then rows else other
  }

  /** `get_jobs`: adds the jobs found to `jobs`; a rejected query gives NULL. */
  method GetJobs(jobs: List<Handle>, js: Option<Session>, f: Option<JInfo>, table: seq<Record>,
                 other: Option<seq<Record>>)
    returns (r: List?<Handle>)
    requires jobs.Valid() && CStrings(js, f)
    modifies jobs.Repr
    ensures jobs.Valid() && fresh(jobs.Repr - old(jobs.Repr))
    ensures var rows := Answer(Query(SELECT, Fields(js, f)), table, other);
            if rows.None? then r == null && jobs.contents == old(jobs.contents)
            else r == jobs && jobs.contents == old(jobs.contents) + HandlesOfRows(rows.value)
    ensures Usable(js, f) && (forall i :: 0 <= i < |table| ==> Sound(table[i])) ==>
              r == jobs && jobs.contents == old(jobs.contents) + Found(js, f, table)
  {
    hide Execute, Found, Fields, Usable, Sound, Query, HandlesOfRows, EqualKeys, Dict.Valid, Texts;
    var d := FilterDict(js, f);
    var text := BuildQueryString(SELECT, d);
    CQuery(js, f);
    var query := TextIn(text, Query(SELECT, Fields(js, f)), EqualKeys(Fields(js, f), 0));
    var rows := Answer(query, table, other);
    if rows.Some? {
      AddHandles(jobs, rows.value);
    }
    r := if rows.Some? then jobs else null;
    if Usable(js, f) && forall i :: 0 <= i < |table| ==> Sound(table[i]) {
      QueryFinds(js, f, table);
    }
  }

  /** `drmaa2_jsession_get_jobs`: a session that does not exist is refused. */
  method JSessionGetJobs(sessions: set<string>, js: Session, f: Option<JInfo>, table: seq<Record>,
                         other: Option<seq<Record>>)
    returns (e: Error, r: List?<Handle>)
    requires CStrings(Some(js), f)
    ensures e == if js.name in sessions then SUCCESS else INVALID_SESSION
    ensures e != SUCCESS ==> r == null
    ensures e == SUCCESS && Usable(Some(js), f) && (forall i :: 0 <= i < |table| ==> Sound(table[i])) ==>
              r != null && r.Valid() && fresh(r.Repr) && r.contents == Found(Some(js), f, table)
  {
    hide Execute, Found, Fields, Usable, Sound, Query, HandlesOfRows, CStrings;
    if js.name !in sessions {
      return INVALID_SESSION, null;
    }
    var jobs := new List<Handle>(true);
    r := GetJobs(jobs, Some(js), f, table, other);
    e := SUCCESS;
  }

  /** The C string in a buffer: the characters in front of the first terminator. */
  method TextIn(buffer: array<char>, ghost text: string, ghost leftOver: nat) returns (s: string)
    requires Printed(buffer, text, leftOver) && IsCString(text)
    ensures s == text
  {
    var end := StrChr(buffer[..], '\0', 0);
    s := buffer[..end.value];
  }

  /** The select callback, once for each row. */
  method AddHandles(jobs: List<Handle>, rows: seq<Record>)
    requires jobs.Valid()
    modifies jobs.Repr
    ensures jobs.Valid() && fresh(jobs.Repr - old(jobs.Repr))
    ensures jobs.contents == old(jobs.contents) + HandlesOfRows(rows)
  {
    hide HandlesOfRows, Decimal;
    NoHandleRow(rows);
    for i := 0 to |rows|
      invariant jobs.Valid() && fresh(jobs.Repr - old(jobs.Repr))
      invariant jobs.contents == old(jobs.contents) + HandlesOfRows(rows[..i])
    {
      var e := ListAdd(jobs, Handle(Decimal(rows[i].id), rows[i].sessionName));
      OneMoreHandleRow(rows, i);
    }
    assert rows[..|rows|] == rows;
  }

  lemma NoHandleRow(rows: seq<Record>)
    ensures HandlesOfRows(rows[..0]) == []
  {
  }

  lemma OneMoreHandleRow(rows: seq<Record>, i: nat)
    requires i < |rows|
    ensures HandlesOfRows(rows[..i + 1]) ==
            HandlesOfRows(rows[..i]) + [Handle(Decimal(rows[i].id), rows[i].sessionName)]
  {
    hide Decimal;
  }
}
