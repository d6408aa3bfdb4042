/** What a job filter selects: the fields that `get_jobs` turns into conditions, and the proof that
    the printed query selects exactly the rows that match every set field. */
module FilterMeaning {
  import opened Strings
  import opened Types
  import opened QueryText
  import opened Sql
  import opened FilterParsing
  import opened Tables
  import T = Timestamps

  const UNSET_ENUM: int := -1

  /** The attributes of a `drmaa2_jinfo` that a filter uses. Times are unset or broken down. */
  datatype JInfo = JInfo(
    jobId: Option<string>, exitStatus: int, terminatingSignal: Option<string>, jobState: int,
    jobSubState: Option<string>, submissionMachine: Option<string>, jobOwner: Option<string>, slots: int,
    queueName: Option<string>,
    submissionTime: Option<T.DateTime>, dispatchTime: Option<T.DateTime>, finishTime: Option<T.DateTime>)

  /** `drmaa2_jinfo_create`: everything is unset but the state, which is UNDETERMINED. */
  const FRESH: JInfo :=
    JInfo(None, UNSET_NUM, None, StateCode(UNDETERMINED), None, None, None, UNSET_NUM, None, None, None, None)

  // ---------------------------------------------------------------- the fields that are set

  function Field(c: Column, v: Option<string>): seq<Pair> {
    match v case None => [] case Some(text) => [Pair(ColumnName(c), text)]
  }

  function NumberText(n: int, unset: int): Option<string> {
    if n != unset then Some(SignedDecimal(n)) else None
  }

  function TimeText(t: Option<T.DateTime>): Option<string> {
    match t case None => None case Some(d) => Some(T.Format(d))
  }

  function SessionFields(js: Option<Session>): seq<Pair> {
    match js
    case None => []
    case Some(s) => Field(SESSION_NAME, Some(s.name)) + Field(SESSION_ID, Some(SignedDecimal(s.id)))
  }

  function StateFields(f: JInfo): seq<Pair> {
    Field(ROWID, f.jobId) + Field(EXIT_STATUS, NumberText(f.exitStatus, UNSET_NUM))
    + Field(TERMINATING_SIGNAL, f.terminatingSignal) + Field(JOB_STATE, NumberText(f.jobState, UNSET_ENUM))
    + Field(JOB_SUB_STATE, f.jobSubState)
  }

  function PlaceFields(f: JInfo): seq<Pair> {
    Field(SUBMISSION_MACHINE, f.submissionMachine) + Field(JOB_OWNER, f.jobOwner)
    + Field(SLOTS, NumberText(f.slots, UNSET_NUM)) + Field(QUEUE_NAME, f.queueName)
  }

  function TimeFields(f: JInfo): seq<Pair> {
    Field(SUBMISSION_TIME, TimeText(f.submissionTime)) + Field(DISPATCH_TIME, TimeText(f.dispatchTime))
    + Field(FINISH_TIME, TimeText(f.finishTime))
  }

  function InfoFields(f: Option<JInfo>): seq<Pair> {
    match f case None => [] case Some(i) => StateFields(i) + PlaceFields(i) + TimeFields(i)
  }

  function Fields(js: Option<Session>, f: Option<JInfo>): seq<Pair> {
    SessionFields(js) + InfoFields(f)
  }

  // ---------------------------------------------------------------- the rows that match

  /** A time column holds a time at or after the given one. */
  predicate AtOrAfter(t: T.DateTime, stored: Option<T.DateTime>) {
    stored.Some? && T.NotAfter(t, stored.value)
  }

  predicate MatchesSession(js: Option<Session>, r: Record) {
    js.Some? ==> r.sessionName == js.value.name && r.sessionId == js.value.id
  }

  predicate MatchesState(f: JInfo, r: Record) {
    && (f.jobId.Some? ==> r.id == Atoll(f.jobId.value))
    && (f.exitStatus != UNSET_NUM ==> r.others(EXIT_STATUS) == Int(f.exitStatus))
    && (f.terminatingSignal.Some? ==> r.others(TERMINATING_SIGNAL) == Int(Atoll(f.terminatingSignal.value)))
    && (f.jobState != UNSET_ENUM ==> r.others(JOB_STATE) == Int(f.jobState))
    && (f.jobSubState.Some? ==> r.others(JOB_SUB_STATE) == Text(f.jobSubState.value))
  }

  /** A numeral is compared with a text column as the decimal text of its number. */
  predicate MatchesPlace(f: JInfo, r: Record) {
    && (f.submissionMachine.Some? ==>
          r.others(SUBMISSION_MACHINE) == Text(SignedDecimal(Atoll(f.submissionMachine.value))))
    && (f.jobOwner.Some? ==> r.others(JOB_OWNER) == Text(SignedDecimal(Atoll(f.jobOwner.value))))
    && (f.slots != UNSET_NUM ==> r.others(SLOTS) == Int(f.slots))
    && (f.queueName.Some? ==> r.others(QUEUE_NAME) == Text(SignedDecimal(Atoll(f.queueName.value))))
  }

  predicate MatchesTimes(f: JInfo, r: Record) {
    && (f.submissionTime.Some? ==> AtOrAfter(f.submissionTime.value, r.submitted))
    && (f.dispatchTime.Some? ==> AtOrAfter(f.dispatchTime.value, r.dispatched))
    && (f.finishTime.Some? ==> AtOrAfter(f.finishTime.value, r.finished))
  }

  predicate Matches(js: Option<Session>, f: Option<JInfo>, r: Record) {
    MatchesSession(js, r)
    && (f.Some? ==> MatchesState(f.value, r) && MatchesPlace(f.value, r) && MatchesTimes(f.value, r))
  }

  /** Stored times are times. */
  predicate Sound(r: Record) {
    && (r.submitted.Some? ==> T.Valid(r.submitted.value))
    && (r.dispatched.Some? ==> T.Valid(r.dispatched.value))
    && (r.finished.Some? ==> T.Valid(r.finished.value))
  }

  /** Text that is printed in quotes: it holds no quote and does not name a column. */
  predicate QuotedText(v: string) {
    '"' !in v && Resolve(v).None?
  }

  predicate UnquotedText(v: Option<string>) {
    v.Some? ==> IsNumeral(v.value)
  }

  predicate TimeOk(t: Option<T.DateTime>) {
    t.Some? ==> T.Valid(t.value)
  }

  predicate Usable(js: Option<Session>, f: Option<JInfo>) {
    && (js.Some? ==> QuotedText(js.value.name))
    && (f.Some? ==>
          && UnquotedText(f.value.jobId) && UnquotedText(f.value.terminatingSignal)
          && (f.value.jobSubState.Some? ==> QuotedText(f.value.jobSubState.value))
          && UnquotedText(f.value.submissionMachine) && UnquotedText(f.value.jobOwner)
          && UnquotedText(f.value.queueName)
          && TimeOk(f.value.submissionTime) && TimeOk(f.value.dispatchTime) && TimeOk(f.value.finishTime))
  }

  // ---------------------------------------------------------------- one condition

  lemma Plain(c: Column)
    ensures IsName(ColumnName(c))
  {
    hide IsName, ColumnName;
    match c
    case SESSION_NAME | SESSION_ID | ROWID | EXIT_STATUS | TERMINATING_SIGNAL | JOB_STATE | JOB_SUB_STATE =>
      PlainJobName(c);
    case SUBMISSION_MACHINE | JOB_OWNER | SLOTS | QUEUE_NAME | SUBMISSION_TIME | DISPATCH_TIME | FINISH_TIME =>
      PlainPlaceName(c);
    case TEMPLATE_ID | PID | ANNOTATION | ALLOCATED_MACHINES | WALLCLOCK_TIME | TIME_AMOUNT => PlainOtherName(c);
  }

  lemma PlainJobName(c: Column)
    requires c.SESSION_NAME? || c.SESSION_ID? || c.ROWID? || c.EXIT_STATUS? || c.TERMINATING_SIGNAL?
             || c.JOB_STATE? || c.JOB_SUB_STATE?
    ensures IsName(ColumnName(c))
  {
  }

  lemma PlainPlaceName(c: Column)
    requires c.SUBMISSION_MACHINE? || c.JOB_OWNER? || c.SLOTS? || c.QUEUE_NAME? || c.SUBMISSION_TIME?
             || c.DISPATCH_TIME? || c.FINISH_TIME?
    ensures IsName(ColumnName(c))
  {
  }

  lemma PlainOtherName(c: Column)
    requires c.TEMPLATE_ID? || c.PID? || c.ANNOTATION? || c.ALLOCATED_MACHINES? || c.WALLCLOCK_TIME? || c.TIME_AMOUNT?
    ensures IsName(ColumnName(c))
  {
  }

  predicate EscapedColumn(c: Column) {
    c.SESSION_NAME? || c.JOB_SUB_STATE? || TimeColumn(c)
  }

  predicate TimeColumn(c: Column) {
    c.SUBMISSION_TIME? || c.DISPATCH_TIME? || c.FINISH_TIME?
  }

  lemma EscapedIs(c: Column)
    ensures HasToBeEscaped(ColumnName(c)) <==> EscapedColumn(c)
    ensures Comperator(ColumnName(c)) == if TimeColumn(c) then ">=" else "="
  {
    hide ColumnName, HasToBeEscaped, Comperator;
    EscapedNames(ColumnName(c));
    SameColumn(c, SESSION_NAME);
    SameColumn(c, JOB_SUB_STATE);
    SameColumn(c, SUBMISSION_TIME);
    SameColumn(c, DISPATCH_TIME);
    SameColumn(c, FINISH_TIME);
  }

  lemma EscapedNames(s: string)
    ensures var time := s == ColumnName(SUBMISSION_TIME) || s == ColumnName(DISPATCH_TIME)
                        || s == ColumnName(FINISH_TIME);
            && (HasToBeEscaped(s) <==> s == ColumnName(SESSION_NAME) || s == ColumnName(JOB_SUB_STATE) || time)
            && Comperator(s) == if time then ">=" else "="
  {
  }

  lemma SameColumn(c: Column, d: Column)
    ensures ColumnName(c) == ColumnName(d) <==> c == d
  {
    hide ColumnName;
    NameResolves(c);
    NameResolves(d);
  }

  /** An unquoted numeral selects the rows that hold its number. */
  lemma NumeralField(c: Column, v: string, r: Record)
    requires !EscapedColumn(c) && IsNumeral(v)
    ensures Fits(Pair(ColumnName(c), v)) && Quotable(Pair(ColumnName(c), v))
    ensures Holds(Meaning(Pair(ColumnName(c), v)), r) <==>
            CellOf(r, c) == if TextColumn(c) then Text(SignedDecimal(Atoll(v))) else Int(Atoll(v))
  {
    hide Resolve, CellOf, HasToBeEscaped, Comperator, IsName, IsNumeral, Atoll, SignedDecimal, ColumnName;
    EscapedIs(c);
    Plain(c);
    NameResolves(c);
  }

  lemma PlainValueIsText(c: Column, v: string, r: Record)
    requires (c.SESSION_NAME? || c.JOB_SUB_STATE?) && Resolve(v).None?
    ensures Holds(Meaning(Pair(ColumnName(c), v)), r) <==> CellOf(r, c) == Text(v)
  {
    hide Resolve, CellOf, HasToBeEscaped, Comperator, IsNumeral, Atoll, SignedDecimal, ColumnName;
    EscapedIs(c);
    NameResolves(c);
  }

  /** A quoted text that names no column selects the rows that hold it. */
  lemma TextField(c: Column, v: string, r: Record)
    requires (c.SESSION_NAME? || c.JOB_SUB_STATE?) && QuotedText(v)
    ensures Fits(Pair(ColumnName(c), v)) && Quotable(Pair(ColumnName(c), v))
    ensures Holds(Meaning(Pair(ColumnName(c), v)), r) <==> CellOf(r, c) == Text(v)
  {
    hide Resolve, Holds, Meaning, HasToBeEscaped, IsName, ColumnName;
    EscapedIs(c);
    Plain(c);
    PlainValueIsText(c, v, r);
  }

  /** The text of a time names no column and does not read as a number. */
  lemma TimeIsText(d: T.DateTime)
    ensures Resolve(T.Format(d)).None? && '"' !in T.Format(d) && !IsNumeral(T.Format(d))
  {
    hide Resolve, T.Padded;
    var s := T.Format(d);
    assert s[4] == '-';
  }

  /** The `>=` on a stored time selects exactly the rows at or after the given time. */
  lemma TimeField(c: Column, d: T.DateTime, stored: Option<T.DateTime>, r: Record)
    requires TimeColumn(c) && T.Valid(d) && TimeOk(stored) && CellOf(r, c) == TimeCell(stored)
    ensures Fits(Pair(ColumnName(c), T.Format(d))) && Quotable(Pair(ColumnName(c), T.Format(d)))
    ensures Holds(Meaning(Pair(ColumnName(c), T.Format(d))), r) <==> AtOrAfter(d, stored)
  {
    hide Resolve, CellOf, HasToBeEscaped, Comperator, IsName, IsNumeral, Atoll, SignedDecimal, ColumnName;
    hide T.Format, T.NotAfter, T.TextLe;
    EscapedIs(c);
    Plain(c);
    NameResolves(c);
    TimeIsText(d);
    if stored.Some? {
      T.TextOrderIsTimeOrder(d, stored.value);
    }
  }

  lemma NumberIsNumeral(n: int)
    ensures IsNumeral(SignedDecimal(n)) && Atoll(SignedDecimal(n)) == n
  {
    DecimalRoundTrip(n);
    if n < 0 {
      assert SignedDecimal(n)[1..] == Decimal(-n);
    } else {
      assert IsDigit(Decimal(n)[0]);
    }
  }

  /** A word that names a column does not read as a number. */
  lemma NameIsNoNumeral(v: string, k: Column)
    requires Names(v, k)
    ensures !IsNumeral(v) && v != ""
  {
    var name := if SameName(v, ColumnName(k)) then ColumnName(k) else if SameName(v, "oid") then "oid" else "_rowid_";
    assert !IsDigit(name[0]) && name[0] != '-';
    assert LowerCase(v[0]) == LowerCase(name[0]);
  }

  /** A row with `v` in one column, and no column but that one equal to it. */
  function Only(c: Column, v: string): Record {
    Record(0, if c.SESSION_NAME? then v else v + "x", 0, None, None, None,
           (d: Column) => if d == c then Text(v) else Null)
  }

  lemma OnlyThere(c: Column, v: string, k: Column)
    requires (c.SESSION_NAME? || c.JOB_SUB_STATE?) && k != c
    ensures CellOf(Only(c, v), c) == Text(v)
    ensures CellOf(Only(c, v), k).Text? ==> TextColumn(k) && CellOf(Only(c, v), k) == Text(v + "x")
  {
  }

  /** The condition with a column's name for its value compares two columns. */
  lemma NamedValueIsRead(c: Column, v: string, k: Column, r: Record)
    requires c.SESSION_NAME? || c.JOB_SUB_STATE?
    requires Resolve(v) == Some(k)
    ensures Holds(Meaning(Pair(ColumnName(c), v)), r) <==>
            if TextColumn(k) then Compare(Eq, CellOf(r, c), CellOf(r, k))
            else Compare(Eq, AsNumber(CellOf(r, c)), AsNumber(CellOf(r, k)))
  {
    hide Resolve, CellOf, HasToBeEscaped, Comperator, ColumnName, IsNumeral, Atoll, Names, AsNumber, Compare;
    EscapedIs(c);
    NameResolves(c);
  }

  /** Compared with itself, a column passes whatever text it holds. */
  lemma OwnNameMisread(c: Column, v: string)
    requires c.SESSION_NAME? || c.JOB_SUB_STATE?
    requires Resolve(v) == Some(c)
    ensures Holds(Meaning(Pair(ColumnName(c), v)), Only(c, v + "y"))
  {
    hide Resolve, Holds, Meaning, ColumnName, Names, AsNumber;
    NamedValueIsRead(c, v, c, Only(c, v + "y"));
  }

  /** Compared with another column, a column fails although it holds the text. */
  lemma OtherNameMisread(c: Column, v: string, k: Column)
    requires c.SESSION_NAME? || c.JOB_SUB_STATE?
    requires Resolve(v) == Some(k) && k != c
    ensures !Holds(Meaning(Pair(ColumnName(c), v)), Only(c, v))
  {
    hide Resolve, Holds, Meaning, ColumnName, IsNumeral, Atoll, Names, Only, CellOf;
    NameIsNoNumeral(v, k);
    NamedValueIsRead(c, v, k, Only(c, v));
    OnlyThere(c, v, k);
  }

  /** A quoted value is compared as text in every row if and only if it does not name a column: a name
      is read as the column. */
  lemma QuotedValueIff(c: Column, v: string)
    requires c.SESSION_NAME? || c.JOB_SUB_STATE?
    ensures (forall r :: Holds(Meaning(Pair(ColumnName(c), v)), r) <==> CellOf(r, c) == Text(v)) <==>
            Resolve(v).None?
  {
    hide Holds, Resolve, HasToBeEscaped, Comperator, ColumnName, IsNumeral, Atoll, Names;
    if Resolve(v).Some? {
      var k := Resolve(v).value;
      var r := Only(c, if k == c then v + "y" else v);
      if k == c {
        OwnNameMisread(c, v);
      } else {
        OtherNameMisread(c, v, k);
      }
      assert Holds(Meaning(Pair(ColumnName(c), v)), r) != (CellOf(r, c) == Text(v));
    } else {
      forall r ensures Holds(Meaning(Pair(ColumnName(c), v)), r) <==> CellOf(r, c) == Text(v) {
        PlainValueIsText(c, v, r);
      }
    }
  }

  // ---------------------------------------------------------------- all conditions

  /** The fields print and parse, and their conditions hold of the row exactly when `m` says so. */
  predicate Good(ps: seq<Pair>, r: Record, m: bool) {
    && (forall j :: 0 <= j < |ps| ==> Fits(ps[j]) && Quotable(ps[j]))
    && (AllHold(Meanings(ps), r) <==> m)
  }

  lemma GoodAppend(a: seq<Pair>, b: seq<Pair>, r: Record, m: bool, n: bool)
    requires Good(a, r, m) && Good(b, r, n)
    ensures Good(a + b, r, m && n)
  {
    hide Fits, Quotable, Meaning, Holds;
    assert Meanings(a + b) == Meanings(a) + Meanings(b);
    AllHoldAppend(Meanings(a), Meanings(b), r);
  }

  lemma GoodField(c: Column, v: Option<string>, r: Record, m: bool)
    requires v.Some? ==> Fits(Pair(ColumnName(c), v.value)) && Quotable(Pair(ColumnName(c), v.value))
    requires v.Some? ==> (Holds(Meaning(Pair(ColumnName(c), v.value)), r) <==> m)
    ensures Good(Field(c, v), r, v.Some? ==> m)
  {
    hide Fits, Quotable, Meaning, Holds, ColumnName;
    if v.Some? {
      assert Meanings(Field(c, v))[0] == Meaning(Pair(ColumnName(c), v.value));
    }
  }

  /** A number, or a text that is a numeral, when it is set. */
  lemma GoodNumeral(c: Column, v: Option<string>, r: Record)
    requires !EscapedColumn(c) && UnquotedText(v)
    ensures Good(Field(c, v), r, v.Some? ==>
                   CellOf(r, c) == if TextColumn(c) then Text(SignedDecimal(Atoll(v.value))) else Int(Atoll(v.value)))
  {
    hide Good, Fits, Quotable, Meaning, Holds, ColumnName, CellOf, Field, IsNumeral, Atoll, SignedDecimal;
    if v.Some? {
      NumeralField(c, v.value, r);
      GoodField(c, v, r, CellOf(r, c) ==
                         if TextColumn(c) then Text(SignedDecimal(Atoll(v.value))) else Int(Atoll(v.value)));
    } else {
      GoodField(c, v, r, true);
    }
  }

  lemma GoodNumber(c: Column, n: int, unset: int, r: Record)
    requires !EscapedColumn(c) && !TextColumn(c)
    ensures Good(Field(c, NumberText(n, unset)), r, n != unset ==> CellOf(r, c) == Int(n))
  {
    hide Good, CellOf, Field, IsNumeral, Atoll, SignedDecimal;
    NumberIsNumeral(n);
    GoodNumeral(c, NumberText(n, unset), r);
  }

  lemma GoodText(c: Column, v: Option<string>, r: Record)
    requires c.SESSION_NAME? || c.JOB_SUB_STATE?
    requires v.Some? ==> QuotedText(v.value)
    ensures Good(Field(c, v), r, v.Some? ==> CellOf(r, c) == Text(v.value))
  {
    hide Good, Fits, Quotable, Meaning, Holds, ColumnName, CellOf, Field, QuotedText;
    if v.Some? {
      TextField(c, v.value, r);
      GoodField(c, v, r, CellOf(r, c) == Text(v.value));
    } else {
      GoodField(c, v, r, true);
    }
  }

  lemma GoodTime(c: Column, d: Option<T.DateTime>, stored: Option<T.DateTime>, r: Record)
    requires TimeColumn(c) && TimeOk(d) && TimeOk(stored) && CellOf(r, c) == TimeCell(stored)
    ensures Good(Field(c, TimeText(d)), r, d.Some? ==> AtOrAfter(d.value, stored))
  {
    hide Good, Fits, Quotable, Meaning, Holds, ColumnName, CellOf, Field, T.Format, AtOrAfter;
    if d.Some? {
      TimeField(c, d.value, stored, r);
      GoodField(c, TimeText(d), r, AtOrAfter(d.value, stored));
    } else {
      GoodField(c, None, r, true);
    }
  }

  lemma GoodSession(js: Option<Session>, r: Record)
    requires js.Some? ==> QuotedText(js.value.name)
    ensures Good(SessionFields(js), r, MatchesSession(js, r))
  {
    hide Good, Field, QuotedText, Atoll, SignedDecimal, IsNumeral;
    if js.Some? {
      GoodText(SESSION_NAME, Some(js.value.name), r);
      NumberIsNumeral(js.value.id);
      GoodNumeral(SESSION_ID, Some(SignedDecimal(js.value.id)), r);
      GoodAppend(Field(SESSION_NAME, Some(js.value.name)), Field(SESSION_ID, Some(SignedDecimal(js.value.id))), r,
                 r.sessionName == js.value.name, r.sessionId == js.value.id);
    } else {
      GoodNothing(r);
    }
  }

  lemma GoodNothing(r: Record)
    ensures Good([], r, true)
  {
  }

  lemma GoodStates(f: JInfo, r: Record)
    requires UnquotedText(f.jobId) && UnquotedText(f.terminatingSignal)
    requires f.jobSubState.Some? ==> QuotedText(f.jobSubState.value)
    ensures Good(StateFields(f), r, MatchesState(f, r))
  {
    hide Good, Field, QuotedText, Atoll, UnquotedText, NumberText;
    GoodNumeral(ROWID, f.jobId, r);
    GoodNumber(EXIT_STATUS, f.exitStatus, UNSET_NUM, r);
    GoodNumeral(TERMINATING_SIGNAL, f.terminatingSignal, r);
    GoodNumber(JOB_STATE, f.jobState, UNSET_ENUM, r);
    GoodText(JOB_SUB_STATE, f.jobSubState, r);
    var a, b := Field(ROWID, f.jobId), Field(EXIT_STATUS, NumberText(f.exitStatus, UNSET_NUM));
    var c, d := Field(TERMINATING_SIGNAL, f.terminatingSignal), Field(JOB_STATE, NumberText(f.jobState, UNSET_ENUM));
    var m1 := f.jobId.Some? ==> r.id == Atoll(f.jobId.value);
    var m2 := f.exitStatus != UNSET_NUM ==> r.others(EXIT_STATUS) == Int(f.exitStatus);
    var m3 := f.terminatingSignal.Some? ==> r.others(TERMINATING_SIGNAL) == Int(Atoll(f.terminatingSignal.value));
    var m4 := f.jobState != UNSET_ENUM ==> r.others(JOB_STATE) == Int(f.jobState);
    var m5 := f.jobSubState.Some? ==> r.others(JOB_SUB_STATE) == Text(f.jobSubState.value);
    GoodAppend(a, b, r, m1, m2);
    GoodAppend(a + b, c, r, m1 && m2, m3);
    GoodAppend(a + b + c, d, r, m1 && m2 && m3, m4);
    GoodAppend(a + b + c + d, Field(JOB_SUB_STATE, f.jobSubState), r, m1 && m2 && m3 && m4, m5);
  }

  lemma GoodPlaces(f: JInfo, r: Record)
    requires UnquotedText(f.submissionMachine) && UnquotedText(f.jobOwner) && UnquotedText(f.queueName)
    ensures Good(PlaceFields(f), r, MatchesPlace(f, r))
  {
    hide Good, Field, Atoll, SignedDecimal, UnquotedText, NumberText;
    GoodNumeral(SUBMISSION_MACHINE, f.submissionMachine, r);
    GoodNumeral(JOB_OWNER, f.jobOwner, r);
    GoodNumber(SLOTS, f.slots, UNSET_NUM, r);
    GoodNumeral(QUEUE_NAME, f.queueName, r);
    var a, b := Field(SUBMISSION_MACHINE, f.submissionMachine), Field(JOB_OWNER, f.jobOwner);
    var c := Field(SLOTS, NumberText(f.slots, UNSET_NUM));
    var m1 := f.submissionMachine.Some? ==>
      r.others(SUBMISSION_MACHINE) == Text(SignedDecimal(Atoll(f.submissionMachine.value)));
    var m2 := f.jobOwner.Some? ==> r.others(JOB_OWNER) == Text(SignedDecimal(Atoll(f.jobOwner.value)));
    var m3 := f.slots != UNSET_NUM ==> r.others(SLOTS) == Int(f.slots);
    var m4 := f.queueName.Some? ==> r.others(QUEUE_NAME) == Text(SignedDecimal(Atoll(f.queueName.value)));
    GoodAppend(a, b, r, m1, m2);
    GoodAppend(a + b, c, r, m1 && m2, m3);
    GoodAppend(a + b + c, Field(QUEUE_NAME, f.queueName), r, m1 && m2 && m3, m4);
  }

  lemma GoodTimes(f: JInfo, r: Record)
    requires TimeOk(f.submissionTime) && TimeOk(f.dispatchTime) && TimeOk(f.finishTime) && Sound(r)
    ensures Good(TimeFields(f), r, MatchesTimes(f, r))
  {
    hide Good, Field, TimeText, AtOrAfter, TimeCell;
    GoodTime(SUBMISSION_TIME, f.submissionTime, r.submitted, r);
    GoodTime(DISPATCH_TIME, f.dispatchTime, r.dispatched, r);
    GoodTime(FINISH_TIME, f.finishTime, r.finished, r);
    var a, b := Field(SUBMISSION_TIME, TimeText(f.submissionTime)), Field(DISPATCH_TIME, TimeText(f.dispatchTime));
    var m1 := f.submissionTime.Some? ==> AtOrAfter(f.submissionTime.value, r.submitted);
    var m2 := f.dispatchTime.Some? ==> AtOrAfter(f.dispatchTime.value, r.dispatched);
    var m3 := f.finishTime.Some? ==> AtOrAfter(f.finishTime.value, r.finished);
    GoodAppend(a, b, r, m1, m2);
    GoodAppend(a + b, Field(FINISH_TIME, TimeText(f.finishTime)), r, m1 && m2, m3);
  }

  lemma GoodFields(js: Option<Session>, f: Option<JInfo>, r: Record)
    requires Usable(js, f) && Sound(r)
    ensures Good(Fields(js, f), r, Matches(js, f, r))
  {
    hide Good, SessionFields, StateFields, PlaceFields, TimeFields;
    hide MatchesSession, MatchesState, MatchesPlace, MatchesTimes, QuotedText, UnquotedText, TimeOk, Sound;
    GoodSession(js, r);
    if f.Some? {
      var i := f.value;
      GoodStates(i, r);
      GoodPlaces(i, r);
      GoodTimes(i, r);
      GoodAppend(StateFields(i), PlaceFields(i), r, MatchesState(i, r), MatchesPlace(i, r));
      GoodAppend(StateFields(i) + PlaceFields(i), TimeFields(i), r, MatchesState(i, r) && MatchesPlace(i, r),
                 MatchesTimes(i, r));
      GoodAppend(SessionFields(js), InfoFields(f), r, MatchesSession(js, r),
                 MatchesState(i, r) && MatchesPlace(i, r) && MatchesTimes(i, r));
    } else {
      GoodNothing(r);
      GoodAppend(SessionFields(js), [], r, MatchesSession(js, r), true);
    }
  }

  /** The text that is built from a filter parses to its fields, and its conditions select exactly the
      rows of the session that match every set field. */
  lemma FilterSelects(js: Option<Session>, f: Option<JInfo>, r: Record)
    requires Usable(js, f) && Sound(r)
    ensures Parse(Query(SELECT, Fields(js, f))) == Some(Meanings(Fields(js, f)))
    ensures AllHold(Meanings(Fields(js, f)), r) <==> Matches(js, f, r)
  {
    hide Fields, Matches, Usable, Sound, Fits, Quotable, Parse, AllHold;
    GoodFields(js, f, r);
    ParseQueryIff(Fields(js, f));
  }

  /** A filter as created is not empty: it asks for the state UNDETERMINED. */
  lemma FreshFilter(js: Option<Session>, r: Record)
    ensures Matches(js, Some(FRESH), r) <==> MatchesSession(js, r) && r.others(JOB_STATE) == Int(0)
    ensures Fields(js, Some(FRESH)) == SessionFields(js) + [Pair("job_state", "0")]
  {
    assert SignedDecimal(0) == "0";
  }
}
