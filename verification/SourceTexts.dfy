/** The texts and numbers that the source prints, stores and compares, written out; and what a filter on a
    single attribute finds in the job table, in terms of the rows alone. */
module SourceTexts {
  import opened Strings
  import opened Types
  import opened QueryText
  import opened Sql
  import opened FilterMeaning
  import opened JobQueries
  import opened Tables
  import opened SessionJobs
  import T = Timestamps
  import ListCodec
  import LifeCycle
  import Replace
  import BulkIndices

  // ---------------------------------------------------------------- numbers

  /** What the numbers of the states in the database stand for. */
  function StateOfCode(code: int): Option<JState> {
    match code
    case 0 => Some(UNDETERMINED)
    case 1 => Some(QUEUED)
    case 2 => Some(QUEUED_HELD)
    case 3 => Some(RUNNING)
    case 4 => Some(SUSPENDED)
    case 5 => Some(REQUEUED)
    case 6 => Some(REQUEUED_HELD)
    case 7 => Some(DONE)
    case 8 => Some(FAILED)
    case _ => None
  }

  /** No two states are stored alike, and each is read back from its number. */
  lemma StateCodes(code: int, state: JState)
    ensures StateCode(state) == code <==> StateOfCode(code) == Some(state)
  {
  }

  lemma Digits()
    ensures Decimal(120) == "120" && SignedDecimal(-45) == "-45" && Atoll("-45") == -45 && Atoll("7x") == 7
  {
    assert Decimal(12) == "12" && Decimal(45) == "45";
    DecimalRoundTrip(-45);
    assert "7x"[1..] == "x";
  }

  lemma SemaphoreNames(j: nat)
    ensures LifeCycle.SemName(j) == "drmaa2" + Decimal(j + 1) && LifeCycle.SemName(0) == "drmaa21"
  {
    assert Decimal(1) == "1";
  }

  lemma StoredLists()
    ensures ListCodec.Join(["1", "2"], SEPARATOR) == Some("1|2")
    ensures ListCodec.Split("1||2", SEPARATOR) == ["1", "", "2"]
  {
    var k, l := ["1", "2"], ["1", "", "2"];
    assert k[1..] == ["2"] && l[1..] == ["", "2"] && ["", "2"][1..] == ["2"];
    assert ListCodec.Join(["2"], SEPARATOR) == Some("2");
    assert ListCodec.Join(["", "2"], SEPARATOR) == Some("" + ['|'] + "2");
    assert ListCodec.Join(k, SEPARATOR) == Some("1" + ['|'] + "2");
    assert "1" + ['|'] + "2" == "1|2" && "" + ['|'] + "2" == "|2";
    assert ListCodec.Join(l, SEPARATOR) == Some("1" + ['|'] + "|2");
    assert "1" + ['|'] + "|2" == "1||2";
    ListCodec.SplitJoinIff(l, SEPARATOR);
  }

  /** What fits an `int` is kept, and what does not wraps around 2^32; a range that ends at the greatest
      `unsigned long` is left by no step of one, and one that ends one below it is. */
  lemma Wraps()
    ensures Replace.CInt(2147483647) == 2147483647 && Replace.CInt(2147483648) == -2147483648
    ensures Replace.CInt(-1) == -1 && Replace.CSize(-1) == 18446744073709551615
    ensures !BulkIndices.EndsAfter(18446744073709551615, 18446744073709551615, 1, 1)
    ensures BulkIndices.EndsAfter(18446744073709551614, 18446744073709551614, 1, 1)
  {
    assert BulkIndices.Visited(18446744073709551615, 1, 0) == 18446744073709551615;
    assert BulkIndices.Visited(18446744073709551614, 1, 0) == 18446744073709551614;
  }

  // ---------------------------------------------------------------- times

  lemma TwoDigits(n: nat)
    requires n < 100
    ensures T.Padded(n, 2) == [DigitChar(n / 10)] + [DigitChar(n % 10)]
  {
    hide DigitChar;
    var m := n / 10;
    assert T.Padded(m, 1) == T.Padded(m / 10, 0) + [DigitChar(m % 10)];
    assert m % 10 == m && T.Padded(m / 10, 0) == "";
  }

  lemma FourDigits(n: nat)
    requires n < 10000
    ensures T.Padded(n, 4) == [DigitChar(n / 1000)] + [DigitChar(n / 100 % 10)]
                              + ([DigitChar(n / 10 % 10)] + [DigitChar(n % 10)])
  {
    hide DigitChar;
    var m := n / 10;
    assert T.Padded(m, 3) == T.Padded(m / 10, 2) + [DigitChar(m % 10)];
    assert m / 10 == n / 100 && m / 10 / 10 == n / 1000;
    TwoDigits(m / 10);
  }

  lemma YearText()
    ensures T.Padded(2013, 4) == "2013"
  {
    hide T.Padded;
    FourDigits(2013);
  }

  lemma DayTexts()
    ensures T.Padded(2, 2) == "02" && T.Padded(3, 2) == "03"
  {
    hide T.Padded;
    TwoDigits(2);
    TwoDigits(3);
  }

  lemma ClockTexts()
    ensures T.Padded(4, 2) == "04" && T.Padded(15, 2) == "15" && T.Padded(6, 2) == "06"
  {
    hide T.Padded;
    TwoDigits(4);
    TwoDigits(15);
    TwoDigits(6);
  }

  /** Year, month, day, hour, minute and second, each with leading zeros, in this order. */
  lemma TimeText()
    ensures T.Format(T.DateTime(2013, 2, 3, 4, 15, 6)) ==
            "2013" + "-" + ("02" + "-" + ("03" + " " + ("04" + ":" + ("15" + ":" + "06"))))
  {
    hide T.Padded;
    YearText();
    DayTexts();
    ClockTexts();
  }

  /** The order is the one of the calendar: a second later is later, whatever it carries into. */
  lemma TimeOrder()
    ensures var a, b := T.DateTime(2012, 12, 31, 23, 59, 59), T.DateTime(2013, 1, 1, 0, 0, 0);
            && T.NotAfter(a, b) && !T.NotAfter(b, a) && T.NotAfter(a, a)
            && T.TextLe(T.Format(a), T.Format(b)) && !T.TextLe(T.Format(b), T.Format(a))
  {
    hide T.Format, T.TextLe;
    var a, b := T.DateTime(2012, 12, 31, 23, 59, 59), T.DateTime(2013, 1, 1, 0, 0, 0);
    T.TextOrderIsTimeOrder(a, b);
    T.TextOrderIsTimeOrder(b, a);
  }

  // ---------------------------------------------------------------- queries

  /** A filter that asks for nothing. */
  const NOTHING: JInfo := JInfo(None, -1, None, -1, None, None, None, -1, None, None, None, None)

  lemma FreshAsksForState()
    ensures FRESH == NOTHING.(jobState := 0)
  {
  }

  /** Without a set attribute there is no condition. */
  lemma NothingAsked()
    ensures Fields(None, None) == [] && Fields(None, Some(NOTHING)) == []
    ensures Query(SELECT, []) == "SELECT session_name, rowid FROM jobs "
  {
  }

  /** Every attribute that a filter has is set. */
  predicate AllSet(f: JInfo) {
    && f.jobId.Some? && f.exitStatus != -1 && f.terminatingSignal.Some? && f.jobState != -1 && f.jobSubState.Some?
    && f.submissionMachine.Some? && f.jobOwner.Some? && f.slots != -1 && f.queueName.Some?
    && f.submissionTime.Some? && f.dispatchTime.Some? && f.finishTime.Some?
  }

  lemma AllStates(f: JInfo)
    requires AllSet(f)
    ensures StateFields(f) == [
              Pair("rowid", f.jobId.value), Pair("exit_status", SignedDecimal(f.exitStatus)),
              Pair("terminating_signal", f.terminatingSignal.value), Pair("job_state", SignedDecimal(f.jobState)),
              Pair("job_sub_state", f.jobSubState.value)]
  {
    hide SignedDecimal;
  }

  lemma AllPlaces(f: JInfo)
    requires AllSet(f)
    ensures PlaceFields(f) == [
              Pair("submission_machine", f.submissionMachine.value), Pair("job_owner", f.jobOwner.value),
              Pair("slots", SignedDecimal(f.slots)), Pair("queue_name", f.queueName.value)]
  {
    hide SignedDecimal;
  }

  lemma AllTimes(f: JInfo)
    requires AllSet(f)
    ensures TimeFields(f) == [
              Pair("submission_time", T.Format(f.submissionTime.value)),
              Pair("dispatch_time", T.Format(f.dispatchTime.value)),
              Pair("finish_time", T.Format(f.finishTime.value))]
  {
    hide T.Format;
  }

  lemma BothOfSession(id: int, name: string)
    ensures SessionFields(Some(Session(id, name))) ==
            [Pair("session_name", name), Pair("session_id", SignedDecimal(id))]
  {
    hide SignedDecimal;
  }

  /** The names of the columns, and the order of the conditions, when everything is set. */
  lemma AllAsked(id: int, name: string, f: JInfo)
    requires AllSet(f)
    ensures Fields(Some(Session(id, name)), Some(f)) == [
              Pair("session_name", name), Pair("session_id", SignedDecimal(id)), Pair("rowid", f.jobId.value),
              Pair("exit_status", SignedDecimal(f.exitStatus)), Pair("terminating_signal", f.terminatingSignal.value),
              Pair("job_state", SignedDecimal(f.jobState)), Pair("job_sub_state", f.jobSubState.value),
              Pair("submission_machine", f.submissionMachine.value), Pair("job_owner", f.jobOwner.value),
              Pair("slots", SignedDecimal(f.slots)), Pair("queue_name", f.queueName.value),
              Pair("submission_time", T.Format(f.submissionTime.value)),
              Pair("dispatch_time", T.Format(f.dispatchTime.value)),
              Pair("finish_time", T.Format(f.finishTime.value))]
  {
    hide SignedDecimal, T.Format, SessionFields, StateFields, PlaceFields, TimeFields;
    BothOfSession(id, name);
    AllStates(f);
    AllPlaces(f);
    AllTimes(f);
  }

  lemma OneClause(p: Pair)
    ensures Query(SELECT, [p]) == "SELECT session_name, rowid FROM jobs" + " " + (" WHERE " + ConditionText(p))
  {
    hide ConditionText;
    assert Clauses([p], 1) == "";
    assert Clauses([p], 0) == " WHERE " + ConditionText(p) + "";
  }

  lemma TwoClauses(p: Pair, q: Pair)
    ensures Query(SELECT, [p, q]) ==
            "SELECT session_name, rowid FROM jobs" + " " + (" WHERE " + ConditionText(p) + (" AND " + ConditionText(q)))
  {
    hide ConditionText;
    assert Clauses([p, q], 2) == "";
    assert Clauses([p, q], 1) == " AND " + ConditionText(q) + "";
    assert Clauses([p, q], 0) == " WHERE " + ConditionText(p) + Clauses([p, q], 1);
  }

  /** The query for the jobs of a session: the name in quotes, the id without. */
  lemma SessionQuery(id: int, name: string)
    ensures Query(SELECT, Fields(Some(Session(id, name)), None)) ==
            "SELECT session_name, rowid FROM jobs" + " "
            + (" WHERE " + ("session_name = " + ("\"" + name + "\""))
               + (" AND " + ("session_id = " + SignedDecimal(id))))
  {
    hide SignedDecimal, Query, ConditionText;
    var p, q := Pair("session_name", name), Pair("session_id", SignedDecimal(id));
    assert Fields(Some(Session(id, name)), None) == [p] + [q] == [p, q];
    TwoClauses(p, q);
    SessionNameText(name);
    SessionIdText(SignedDecimal(id));
  }

  lemma SessionNameText(name: string)
    ensures ConditionText(Pair("session_name", name)) == "session_name = " + ("\"" + name + "\"")
  {
    assert "session_name" + " " + "=" + " " == "session_name = ";
  }

  lemma SessionIdText(id: string)
    ensures ConditionText(Pair("session_id", id)) == "session_id = " + id
  {
    assert "session_id" + " " + "=" + " " == "session_id = ";
  }

  lemma FinishTimeText(time: string)
    ensures ConditionText(Pair("finish_time", time)) == "finish_time >= " + ("\"" + time + "\"")
  {
    assert "finish_time" + " " + ">=" + " " == "finish_time >= ";
  }

  /** Times are asked for with `>=`, in quotes. */
  lemma TimeQuery(d: T.DateTime)
    ensures Query(SELECT, Fields(None, Some(NOTHING.(finishTime := Some(d))))) ==
            "SELECT session_name, rowid FROM jobs" + " "
            + (" WHERE " + ("finish_time >= " + ("\"" + T.Format(d) + "\"")))
  {
    hide T.Format, Query, ConditionText;
    var p := Pair("finish_time", T.Format(d));
    assert Fields(None, Some(NOTHING.(finishTime := Some(d)))) == [p];
    OneClause(p);
    FinishTimeText(T.Format(d));
  }

  /** A text with a character that is neither a letter nor a digit nor `_`, and without quotes, is a text that
      filters can use: it names no column. */
  lemma OrdinaryText(v: string, i: nat)
    requires i < |v| && !IsNameChar(v[i]) && '"' !in v
    ensures QuotedText(v)
  {
    hide Resolve, ColumnName;
    forall c ensures !Names(v, c) {
      NameCharacters(v, c, i);
    }
  }

  lemma NameCharacters(v: string, c: Column, i: nat)
    requires i < |v|
    ensures Names(v, c) ==> IsNameChar(v[i])
  {
    hide ColumnName, SameName;
    Plain(c);
    OtherNames();
    LikeName(v, ColumnName(c), i);
    LikeName(v, "oid", i);
    LikeName(v, "_rowid_", i);
  }

  lemma LikeName(v: string, name: string, i: nat)
    requires i < |v| && IsName(name)
    ensures SameName(v, name) ==> IsNameChar(v[i])
  {
    if SameName(v, name) {
      assert IsNameChar(name[i]) && LowerCase(v[i]) == LowerCase(name[i]);
    }
  }

  lemma OtherNames()
    ensures IsName("oid") && IsName("_rowid_")
  {
  }

  // ---------------------------------------------------------------- what single filters find

  /** The handles of the rows with the property, in row order. */
  function HandlesWhere(jobs: seq<JobRow>, p: (nat, JobRow) -> bool, first: nat): seq<Handle> {
    if jobs == [] then []
    else (if p(first, jobs[0]) then [Handle(Decimal(first), jobs[0].sessionName)] else [])
         + HandlesWhere(jobs[1..], p, first + 1)
  }

  lemma {:induction false} FoundWhere(jobs: seq<JobRow>, f: JInfo, p: (nat, JobRow) -> bool, first: nat, times: Times)
    requires forall id: nat, row :: Matches(None, Some(f), RecordOf(row, id, times)) <==> p(id, row)
    ensures HandlesOfRows(Filtered(TableFrom(jobs, first, times), r => Matches(None, Some(f), r))) ==
            HandlesWhere(jobs, p, first)
  {
    hide RecordOf, Decimal, HandlesOfRows, Matches;
    if jobs == [] {
      NoHandleRows();
    } else {
      var r, rest := RecordOf(jobs[0], first, times), TableFrom(jobs[1..], first + 1, times);
      var test := (x: Record) => Matches(None, Some(f), x);
      FoundWhere(jobs[1..], f, p, first + 1, times);
      FilteredCons(r, rest, test);
      FirstRecord(jobs[0], Session(0, ""), first, times);
      HandlesCons(r, Filtered(rest, test));
    }
  }

  /** The query of the filter, run on the table, finds exactly the rows with the property. */
  ghost predicate Finds(f: JInfo, jobs: seq<JobRow>, times: Times, p: (nat, JobRow) -> bool) {
    var rows := Execute(Query(SELECT, Fields(None, Some(f))), TableOf(jobs, times));
    rows.Some? && HandlesOfRows(rows.value) == HandlesWhere(jobs, p, 1)
  }

  lemma FilterFinds(f: JInfo, jobs: seq<JobRow>, times: Times, p: (nat, JobRow) -> bool)
    requires ValidTimes(times) && Usable(None, Some(f))
    requires forall id: nat, row :: Matches(None, Some(f), RecordOf(row, id, times)) <==> p(id, row)
    ensures Finds(f, jobs, times, p)
  {
    hide RecordOf, Matches, Execute, HandlesOfRows, Fields, Usable, Sound, TableFrom;
    TableIsSound(jobs, 1, times);
    assert AllSound(TableOf(jobs, times));
    QueryFinds(None, Some(f), TableOf(jobs, times));
    FoundWhere(jobs, f, p, 1, times);
  }

  /** A filter for a state alone finds exactly the jobs whose row shows that state. */
  lemma StateFilterFinds(code: int, jobs: seq<JobRow>, times: Times)
    requires ValidTimes(times) && 0 <= code <= 8
    ensures Finds(NOTHING.(jobState := code), jobs, times,
                  (id: nat, row: JobRow) => row.life.state == StateOfCode(code))
  {
    hide Finds, StateOfCode, StateCode;
    forall state ensures StateCode(state) == code <==> StateOfCode(code) == Some(state) {
      StateCodes(code, state);
    }
    KnownCode(code);
    FilterFinds(NOTHING.(jobState := code), jobs, times,
                (id: nat, row: JobRow) => row.life.state == StateOfCode(code));
  }

  lemma KnownCode(code: int)
    requires 0 <= code <= 8
    ensures StateOfCode(code).Some?
  {
  }

  /** A filter for an exit status alone finds exactly the jobs that have ended with it, 0 included. */
  lemma ExitFilterFinds(status: nat, jobs: seq<JobRow>, times: Times)
    requires ValidTimes(times)
    ensures Finds(NOTHING.(exitStatus := status), jobs, times,
                  (id: nat, row: JobRow) => row.life.exitStatus == Some(status))
  {
    hide Finds;
    FilterFinds(NOTHING.(exitStatus := status), jobs, times,
                (id: nat, row: JobRow) => row.life.exitStatus == Some(status));
  }

  /** A filter for a finish time finds exactly the jobs that have finished then or later. */
  lemma FinishFilterFinds(d: T.DateTime, jobs: seq<JobRow>, times: Times)
    requires ValidTimes(times) && T.Valid(d)
    ensures Finds(NOTHING.(finishTime := Some(d)), jobs, times,
                  (id: nat, row: JobRow) =>
                    row.life.finished.Some? && T.NotAfter(d, times.stored(row.life.finished.value)))
  {
    hide Finds, T.NotAfter;
    FilterFinds(NOTHING.(finishTime := Some(d)), jobs, times,
                (id: nat, row: JobRow) =>
                  row.life.finished.Some? && T.NotAfter(d, times.stored(row.life.finished.value)));
  }

  /** A filter for a dispatch time finds exactly the jobs whose pid was saved then or later. */
  lemma DispatchFilterFinds(d: T.DateTime, jobs: seq<JobRow>, times: Times)
    requires ValidTimes(times) && T.Valid(d)
    ensures Finds(NOTHING.(dispatchTime := Some(d)), jobs, times,
                  (id: nat, row: JobRow) =>
                    row.life.dispatched.Some? && T.NotAfter(d, times.stored(row.life.dispatched.value)))
  {
    hide Finds, T.NotAfter;
    FilterFinds(NOTHING.(dispatchTime := Some(d)), jobs, times,
                (id: nat, row: JobRow) =>
                  row.life.dispatched.Some? && T.NotAfter(d, times.stored(row.life.dispatched.value)));
  }

  /** A filter for a job id finds exactly the row with that id. */
  lemma IdFilterFinds(n: nat, jobs: seq<JobRow>, times: Times)
    requires ValidTimes(times)
    ensures Finds(NOTHING.(jobId := Some(Decimal(n))), jobs, times, (id: nat, row: JobRow) => id == n)
  {
    hide Finds, Decimal, Atoll, IsNumeral;
    NumberIsNumeral(n);
    IdRoundTrip(n);
    FilterFinds(NOTHING.(jobId := Some(Decimal(n))), jobs, times, (id: nat, row: JobRow) => id == n);
  }
}
