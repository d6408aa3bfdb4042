/** A reference reading of the queries that the filters print: a parser for
    `SELECT … FROM jobs WHERE k op v AND …` and an evaluator over rows of the job table, with the
    comparison rules of the database (NULL fails every comparison, column affinity, and a quoted
    word that names a column is read as that column). */
module Sql {
  import opened Strings
  import opened Timestamps

  const SELECT := "SELECT session_name, rowid FROM jobs"

  // ---------------------------------------------------------------- syntax

  datatype Op = Eq | Ge

  datatype Operand = Str(text: string) | Num(n: int)

  datatype Condition = Condition(key: string, op: Op, operand: Operand)

  /** What a reader took from the front of a text, and what it left. */
  datatype Read<T> = Fail | Got(value: T, rest: string)

  predicate IsNameChar(c: char) {
    'a' <= c <= 'z' || 'A' <= c <= 'Z' || c == '_' || IsDigit(c)
  }

  predicate IsName(s: string) {
    s != "" && forall i :: 0 <= i < |s| ==> IsNameChar(s[i])
  }

  /** An optional minus sign and at least one digit. */
  predicate IsNumeral(s: string) {
    var d := if s != "" && s[0] == '-' then s[1..] else s;
    d != "" && AllDigits(d)
  }

  function ReadName(s: string): (r: (string, string))
    ensures |r.0| + |r.1| == |s|
  {
    if s == "" || !IsNameChar(s[0]) then ("", s)
    else
      var (name, rest) := ReadName(s[1..]);
      ([s[0]] + name, rest)
  }

  function ReadDigits(s: string): (r: (string, string))
    ensures |r.0| + |r.1| == |s|
  {
    if s == "" || !IsDigit(s[0]) then ("", s)
    else
      var (digits, rest) := ReadDigits(s[1..]);
      ([s[0]] + digits, rest)
  }

  /** The inside of a quoted word, behind its opening quote; two quotes stand for one. */
  function ReadQuoted(s: string): (r: Read<string>)
    ensures r.Got? ==> |r.rest| < |s|
    decreases |s|
  {
    if s == "" then Fail
    else if s[0] != '"' then
      match ReadQuoted(s[1..])
      case Fail => Fail
      case Got(t, rest) => Got([s[0]] + t, rest)
    else if |s| > 1 && s[1] == '"' then
      match ReadQuoted(s[2..])
      case Fail => Fail
      case Got(t, rest) => Got("\"" + t, rest)
    else Got("", s[1..])
  }

  function ReadOp(s: string): (r: Read<Op>)
    ensures r.Got? ==> |r.rest| < |s|
  {
    if " = " <= s then Got(Eq, s[3..]) else if " >= " <= s then Got(Ge, s[4..]) else Fail
  }

  function ReadNumber(s: string): (r: Read<Operand>)
    ensures r.Got? ==> |r.rest| <= |s|
  {
    var negative := s != "" && s[0] == '-';
    var (digits, rest) := ReadDigits(if negative then s[1..] else s);
    if digits == "" then Fail
    else
      var n: int := LeadingDigits(digits, 0);
      Got(Num(if negative then -n else n), rest)
  }

  function ReadOperand(s: string): (r: Read<Operand>)
    ensures r.Got? ==> |r.rest| <= |s|
  {
    if s != "" && s[0] == '"' then
      match ReadQuoted(s[1..])
      case Fail => Fail
      case Got(t, rest) => Got(Str(t), rest)
    else ReadNumber(s)
  }

  function ReadCondition(s: string): (r: Read<Condition>)
    ensures r.Got? ==> |r.rest| < |s|
  {
    var (key, s1) := ReadName(s);
    if key == "" then Fail
    else
      match ReadOp(s1)
      case Fail => Fail
      case Got(op, s2) =>
        match ReadOperand(s2)
        case Fail => Fail
        case Got(operand, rest) => Got(Condition(key, op, operand), rest)
  }

  function ParseConditions(s: string): Option<seq<Condition>>
    decreases |s|
  {
    match ReadCondition(s)
    case Fail => None
    case Got(c, rest) =>
      if rest == "" then Some([c])
      else if !(" AND " <= rest) then None
      else
        match ParseConditions(rest[5..])
        case None => None
        case Some(cs) => Some([c] + cs)
  }

  function SkipBlanks(s: string): string {
    if s != "" && s[0] == ' ' then SkipBlanks(s[1..]) else s
  }

  function Parse(query: string): Option<seq<Condition>> {
    if !(SELECT <= query) then None
    else
      var s := SkipBlanks(query[|SELECT|..]);
      if s == "" then Some([]) else if "WHERE " <= s then ParseConditions(s[6..]) else None
  }

  // ---------------------------------------------------------------- the job table

  datatype Column =
    | SESSION_NAME | SESSION_ID | ROWID | EXIT_STATUS | TERMINATING_SIGNAL | JOB_STATE | JOB_SUB_STATE
    | SUBMISSION_MACHINE | JOB_OWNER | SLOTS | QUEUE_NAME | SUBMISSION_TIME | DISPATCH_TIME | FINISH_TIME
    | TEMPLATE_ID | PID | ANNOTATION | ALLOCATED_MACHINES | WALLCLOCK_TIME | TIME_AMOUNT

  function ColumnName(c: Column): string {
    match c
    case SESSION_NAME => "session_name"
    case SESSION_ID => "session_id"
    case ROWID => "rowid"
    case EXIT_STATUS => "exit_status"
    case TERMINATING_SIGNAL => "terminating_signal"
    case JOB_STATE => "job_state"
    case JOB_SUB_STATE => "job_sub_state"
    case SUBMISSION_MACHINE => "submission_machine"
    case JOB_OWNER => "job_owner"
    case SLOTS => "slots"
    case QUEUE_NAME => "queue_name"
    case SUBMISSION_TIME => "submission_time"
    case DISPATCH_TIME => "dispatch_time"
    case FINISH_TIME => "finish_time"
    case TEMPLATE_ID => "template_id"
    case PID => "pid"
    case ANNOTATION => "annotation"
    case ALLOCATED_MACHINES => "allocated_machines"
    case WALLCLOCK_TIME => "wallclock_time"
    case TIME_AMOUNT => "time_amount"
  }

  predicate TextColumn(c: Column) {
    c.SESSION_NAME? || c.ANNOTATION? || c.JOB_SUB_STATE? || c.ALLOCATED_MACHINES? || c.SUBMISSION_MACHINE?
    || c.JOB_OWNER? || c.QUEUE_NAME?
  }

  function LowerCase(c: char): char {
    if 'A' <= c <= 'Z' then c - 'A' + 'a' else c
  }

  /** Names are compared without regard to the case of letters. */
  predicate SameName(s: string, name: string) {
    |s| == |name| && forall i :: 0 <= i < |s| ==> LowerCase(s[i]) == LowerCase(name[i])
  }

  predicate Names(s: string, c: Column) {
    SameName(s, ColumnName(c)) || (c.ROWID? && (SameName(s, "oid") || SameName(s, "_rowid_")))
  }

  const COLUMNS: seq<Column> := [
    SESSION_NAME, SESSION_ID, ROWID, EXIT_STATUS, TERMINATING_SIGNAL, JOB_STATE, JOB_SUB_STATE,
    SUBMISSION_MACHINE, JOB_OWNER, SLOTS, QUEUE_NAME, SUBMISSION_TIME, DISPATCH_TIME, FINISH_TIME,
    TEMPLATE_ID, PID, ANNOTATION, ALLOCATED_MACHINES, WALLCLOCK_TIME, TIME_AMOUNT]

  function ResolveIn(s: string, cs: seq<Column>): (r: Option<Column>)
    ensures r.Some? ==> Names(s, r.value)
    ensures r.None? ==> forall c :: c in cs ==> !Names(s, c)
  {
    if cs == [] then None else if Names(s, cs[0]) then Some(cs[0]) else ResolveIn(s, cs[1..])
  }

  /** The column that a word names; ROWID has two more names. */
  function Resolve(s: string): (r: Option<Column>)
    ensures r.Some? ==> Names(s, r.value)
    ensures r.None? ==> forall c :: !Names(s, c)
  {
    assert forall c: Column :: c in COLUMNS by {
      forall c: Column ensures c in COLUMNS {
        AllColumns(c);
      }
    }
    ResolveIn(s, COLUMNS)
  }

  lemma AllColumns(c: Column)
    ensures c in COLUMNS
  {
    assert exists i :: 0 <= i < |COLUMNS| && COLUMNS[i] == c by {
      assert COLUMNS[0].SESSION_NAME? && COLUMNS[1].SESSION_ID? && COLUMNS[2].ROWID? && COLUMNS[3].EXIT_STATUS?
        && COLUMNS[4].TERMINATING_SIGNAL? && COLUMNS[5].JOB_STATE? && COLUMNS[6].JOB_SUB_STATE?
        && COLUMNS[7].SUBMISSION_MACHINE? && COLUMNS[8].JOB_OWNER? && COLUMNS[9].SLOTS? && COLUMNS[10].QUEUE_NAME?
        && COLUMNS[11].SUBMISSION_TIME? && COLUMNS[12].DISPATCH_TIME? && COLUMNS[13].FINISH_TIME?
        && COLUMNS[14].TEMPLATE_ID? && COLUMNS[15].PID? && COLUMNS[16].ANNOTATION?
        && COLUMNS[17].ALLOCATED_MACHINES? && COLUMNS[18].WALLCLOCK_TIME? && COLUMNS[19].TIME_AMOUNT?;
    }
  }

  datatype Cell = Null | Int(n: int) | Text(s: string)

  /** A row of the job table. The times are NULL or texts that `datetime('now')` wrote. */
  datatype Record = Record(
    id: nat, sessionName: string, sessionId: int,
    submitted: Option<DateTime>, dispatched: Option<DateTime>, finished: Option<DateTime>, others: Column -> Cell)

  function TimeCell(t: Option<DateTime>): Cell {
    match t case None => Null case Some(d) => Text(Format(d))
  }

  function CellOf(r: Record, c: Column): Cell {
    match c
    case ROWID => Int(r.id)
    case SESSION_NAME => Text(r.sessionName)
    case SESSION_ID => Int(r.sessionId)
    case SUBMISSION_TIME => TimeCell(r.submitted)
    case DISPATCH_TIME => TimeCell(r.dispatched)
    case FINISH_TIME => TimeCell(r.finished)
    case _ => r.others(c)
  }

  // ---------------------------------------------------------------- evaluation

  /** Numbers come before texts. */
  predicate CellLe(a: Cell, b: Cell) {
    match a
    case Null => false
    case Int(m) => (b.Int? && m <= b.n) || b.Text?
    case Text(s) => b.Text? && TextLe(s, b.s)
  }

  predicate Compare(op: Op, a: Cell, b: Cell) {
    !a.Null? && !b.Null? && match op case Eq => a == b case Ge => CellLe(b, a)
  }

  /** A text that is compared with an INTEGER column becomes a number if it reads as one. */
  function AsNumber(c: Cell): Cell {
    if c.Text? && IsNumeral(c.s) then Int(Atoll(c.s)) else c
  }

  /** A number that is compared with a TEXT column becomes its decimal text. */
  function AsText(c: Cell): Cell {
    if c.Int? then Text(SignedDecimal(c.n)) else c
  }

  predicate Holds(c: Condition, r: Record) {
    match Resolve(c.key)
    case None => false
    case Some(k) =>
      var left := CellOf(r, k);
      match c.operand
      case Num(n) => Compare(c.op, left, if TextColumn(k) then AsText(Int(n)) else Int(n))
      case Str(t) =>
        match Resolve(t)
        case None => Compare(c.op, left, if TextColumn(k) then Text(t) else AsNumber(Text(t)))
        case Some(k') =>
          if TextColumn(k) == TextColumn(k') then Compare(c.op, left, CellOf(r, k'))
          else Compare(c.op, AsNumber(left), AsNumber(CellOf(r, k')))
  }

  predicate AllHold(cs: seq<Condition>, r: Record) {
    forall i :: 0 <= i < |cs| ==> Holds(cs[i], r)
  }

  lemma AllHoldAppend(a: seq<Condition>, b: seq<Condition>, r: Record)
    ensures AllHold(a + b, r) <==> AllHold(a, r) && AllHold(b, r)
  {
    assert forall i :: 0 <= i < |a| ==> (a + b)[i] == a[i];
    assert forall i :: 0 <= i < |b| ==> (a + b)[|a| + i] == b[i];
    if AllHold(a + b, r) {
      forall i | 0 <= i < |b| ensures Holds(b[i], r) {
        assert Holds((a + b)[|a| + i], r);
      }
    }
  }

  // ---------------------------------------------------------------- names

  /** The name of a column names no other column. */
  lemma NameResolves(c: Column)
    ensures Resolve(ColumnName(c)) == Some(c)
  {
    assert SameName(ColumnName(c), ColumnName(c));
    assert Names(ColumnName(c), c);
    forall d | d != c ensures !Names(ColumnName(c), d) {
      NamesDiffer(c, d);
    }
  }

  lemma DifferAt(s: string, t: string, i: nat)
    requires i < |s| && i < |t| && LowerCase(s[i]) != LowerCase(t[i])
    ensures !SameName(s, t)
  {
  }

  /** Names of equal length differ in their first, second or fifth letter. */
  lemma LettersDiffer(c: Column, d: Column)
    requires c != d && |ColumnName(c)| == |ColumnName(d)|
    ensures !SameName(ColumnName(c), ColumnName(d))
  {
    hide SameName, LowerCase, ColumnName;
    var s, t := ColumnName(c), ColumnName(d);
    SomeLetterDiffers(c, d);
    var i := if s[0] != t[0] then 0 else if s[1] != t[1] then 1 else 4;
    LettersAreLower(c, i);
    LettersAreLower(d, i);
    DifferAt(s, t, i);
  }

  lemma SomeLetterDiffers(c: Column, d: Column)
    requires c != d && |ColumnName(c)| == |ColumnName(d)|
    ensures |ColumnName(c)| >= 2 && (ColumnName(c)[0] != ColumnName(d)[0] || ColumnName(c)[1] != ColumnName(d)[1]
                                     || (|ColumnName(c)| > 4 && ColumnName(c)[4] != ColumnName(d)[4]))
  {
  }

  lemma LettersAreLower(c: Column, i: nat)
    requires i < |ColumnName(c)| && (i == 0 || i == 1 || i == 4)
    ensures LowerCase(ColumnName(c)[i]) == ColumnName(c)[i]
  {
  }

  lemma NamesDiffer(c: Column, d: Column)
    requires c != d
    ensures !Names(ColumnName(c), d)
  {
    hide SameName, LowerCase;
    var s := ColumnName(c);
    LengthsDiffer(s, ColumnName(d));
    if |s| == |ColumnName(d)| {
      LettersDiffer(c, d);
    }
    LengthsDiffer(s, "_rowid_");
    LengthsDiffer(s, "oid");
    if |s| == 3 {
      PidIsNotOid();
    }
  }

  lemma PidIsNotOid()
    ensures !SameName("pid", "oid")
  {
    DifferAt("pid", "oid", 0);
  }

  lemma LengthsDiffer(s: string, t: string)
    ensures |s| != |t| ==> !SameName(s, t)
  {
  }
}
