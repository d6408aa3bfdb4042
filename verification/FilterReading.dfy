/** When the query of a session and a filter is read back as the fields it was built from. */
module FilterReading {
  import opened Strings
  import opened QueryText
  import opened Sql
  import opened FilterParsing
  import opened FilterMeaning
  import opened Tables
  import T = Timestamps

  /** The fields fit, and all of them can be quoted exactly when `m` says so. */
  predicate Prints(ps: seq<Pair>, m: bool) {
    (forall j :: 0 <= j < |ps| ==> Fits(ps[j])) && ((forall j :: 0 <= j < |ps| ==> Quotable(ps[j])) <==> m)
  }

  lemma PrintsAppend(a: seq<Pair>, b: seq<Pair>, m: bool, n: bool)
    requires Prints(a, m) && Prints(b, n)
    ensures Prints(a + b, m && n)
  {
    hide Fits, Quotable;
    var ps := a + b;
    assert forall j :: 0 <= j < |a| ==> ps[j] == a[j];
    assert forall j :: 0 <= j < |b| ==> ps[|a| + j] == b[j];
    if forall j :: 0 <= j < |ps| ==> Quotable(ps[j]) {
      forall j | 0 <= j < |b| ensures Quotable(b[j]) {
        assert Quotable(ps[|a| + j]);
      }
    }
  }

  lemma PrintsNumeral(c: Column, v: Option<string>)
    requires !EscapedColumn(c) && UnquotedText(v)
    ensures Prints(Field(c, v), true)
  {
    hide ColumnName, HasToBeEscaped, IsName, IsNumeral;
    EscapedIs(c);
    Plain(c);
  }

  lemma PrintsNumber(c: Column, n: int, unset: int)
    requires !EscapedColumn(c)
    ensures Prints(Field(c, NumberText(n, unset)), true)
  {
    hide Prints, Field, IsNumeral;
    NumberIsNumeral(n);
    PrintsNumeral(c, NumberText(n, unset));
  }

  lemma PrintsText(c: Column, v: Option<string>)
    requires EscapedColumn(c)
    ensures Prints(Field(c, v), v.Some? ==> '"' !in v.value)
  {
    hide ColumnName, HasToBeEscaped, IsName, IsNumeral;
    EscapedIs(c);
    Plain(c);
    if v.Some? {
      assert Quotable(Field(c, v)[0]) <==> '"' !in v.value;
    }
  }

  lemma PrintsTime(c: Column, d: Option<T.DateTime>)
    requires TimeColumn(c)
    ensures Prints(Field(c, TimeText(d)), true)
  {
    hide Prints, Field, T.Format;
    PrintsText(c, TimeText(d));
    if d.Some? {
      TimeIsText(d.value);
    }
  }

  predicate NoQuote(v: Option<string>) {
    v.Some? ==> '"' !in v.value
  }

  lemma PrintsStates(f: JInfo)
    requires UnquotedText(f.jobId) && UnquotedText(f.terminatingSignal)
    ensures Prints(StateFields(f), NoQuote(f.jobSubState))
  {
    hide Prints, Field, UnquotedText, NumberText;
    PrintsNumeral(ROWID, f.jobId);
    PrintsNumber(EXIT_STATUS, f.exitStatus, UNSET_NUM);
    PrintsNumeral(TERMINATING_SIGNAL, f.terminatingSignal);
    PrintsNumber(JOB_STATE, f.jobState, UNSET_ENUM);
    PrintsText(JOB_SUB_STATE, f.jobSubState);
    var a, b := Field(ROWID, f.jobId), Field(EXIT_STATUS, NumberText(f.exitStatus, UNSET_NUM));
    var c, d := Field(TERMINATING_SIGNAL, f.terminatingSignal), Field(JOB_STATE, NumberText(f.jobState, UNSET_ENUM));
    PrintsAppend(a, b, true, true);
    PrintsAppend(a + b, c, true, true);
    PrintsAppend(a + b + c, d, true, true);
    PrintsAppend(a + b + c + d, Field(JOB_SUB_STATE, f.jobSubState), true, NoQuote(f.jobSubState));
  }

  lemma PrintsPlaces(f: JInfo)
    requires UnquotedText(f.submissionMachine) && UnquotedText(f.jobOwner) && UnquotedText(f.queueName)
    ensures Prints(PlaceFields(f), true)
  {
    hide Prints, Field, UnquotedText, NumberText;
    PrintsNumeral(SUBMISSION_MACHINE, f.submissionMachine);
    PrintsNumeral(JOB_OWNER, f.jobOwner);
    PrintsNumber(SLOTS, f.slots, UNSET_NUM);
    PrintsNumeral(QUEUE_NAME, f.queueName);
    var a, b := Field(SUBMISSION_MACHINE, f.submissionMachine), Field(JOB_OWNER, f.jobOwner);
    var c := Field(SLOTS, NumberText(f.slots, UNSET_NUM));
    PrintsAppend(a, b, true, true);
    PrintsAppend(a + b, c, true, true);
    PrintsAppend(a + b + c, Field(QUEUE_NAME, f.queueName), true, true);
  }

  lemma PrintsTimes(f: JInfo)
    ensures Prints(TimeFields(f), true)
  {
    hide Prints, Field, TimeText;
    PrintsTime(SUBMISSION_TIME, f.submissionTime);
    PrintsTime(DISPATCH_TIME, f.dispatchTime);
    PrintsTime(FINISH_TIME, f.finishTime);
    var a, b := Field(SUBMISSION_TIME, TimeText(f.submissionTime)), Field(DISPATCH_TIME, TimeText(f.dispatchTime));
    PrintsAppend(a, b, true, true);
    PrintsAppend(a + b, Field(FINISH_TIME, TimeText(f.finishTime)), true, true);
  }

  lemma PrintsSession(js: Option<Session>)
    ensures Prints(SessionFields(js), js.Some? ==> '"' !in js.value.name)
  {
    hide Prints, Field, NumberText, IsNumeral;
    if js.Some? {
      PrintsText(SESSION_NAME, Some(js.value.name));
      NumberIsNumeral(js.value.id);
      PrintsNumeral(SESSION_ID, Some(SignedDecimal(js.value.id)));
      PrintsAppend(Field(SESSION_NAME, Some(js.value.name)), Field(SESSION_ID, Some(SignedDecimal(js.value.id))),
                   '"' !in js.value.name, true);
    } else {
      PrintsNothing();
    }
  }

  lemma PrintsNothing()
    ensures Prints([], true)
  {
  }

  /** What is printed without quotes is a numeral. */
  predicate Numerals(f: Option<JInfo>) {
    f.Some? ==>
      && UnquotedText(f.value.jobId) && UnquotedText(f.value.terminatingSignal)
      && UnquotedText(f.value.submissionMachine) && UnquotedText(f.value.jobOwner) && UnquotedText(f.value.queueName)
  }

  lemma PrintsFields(js: Option<Session>, f: Option<JInfo>)
    requires Numerals(f)
    ensures Prints(Fields(js, f), (js.Some? ==> '"' !in js.value.name) && (f.Some? ==> NoQuote(f.value.jobSubState)))
  {
    hide Prints, SessionFields, StateFields, PlaceFields, TimeFields, UnquotedText, NoQuote;
    PrintsSession(js);
    var m := js.Some? ==> '"' !in js.value.name;
    if f.Some? {
      var i := f.value;
      PrintsStates(i);
      PrintsPlaces(i);
      PrintsTimes(i);
      PrintsAppend(StateFields(i), PlaceFields(i), NoQuote(i.jobSubState), true);
      PrintsAppend(StateFields(i) + PlaceFields(i), TimeFields(i), NoQuote(i.jobSubState), true);
      PrintsAppend(SessionFields(js), InfoFields(f), m, NoQuote(i.jobSubState));
    } else {
      PrintsNothing();
      PrintsAppend(SessionFields(js), [], m, true);
    }
  }

  /** The query of a session and a filter is read back as the fields it was built from if and only if neither
      the session's name nor the sub-state holds a quote. */
  lemma FilterReadBackIff(js: Option<Session>, f: Option<JInfo>)
    requires Numerals(f)
    ensures Parse(Query(SELECT, Fields(js, f))) == Some(Meanings(Fields(js, f))) <==>
            (js.Some? ==> '"' !in js.value.name) && (f.Some? ==> NoQuote(f.value.jobSubState))
  {
    hide Fields, Numerals, Fits, Quotable, Parse, NoQuote;
    PrintsFields(js, f);
    ParseQueryIff(Fields(js, f));
  }

  /** A session name with a quote, which the library accepts, gives a query that asks for something else. */
  lemma QuoteInName(id: int)
    ensures var js := Some(Session(id, "a\"b"));
            Parse(Query(SELECT, Fields(js, None))) != Some(Meanings(Fields(js, None)))
  {
    hide Fields, Parse;
    var js := Some(Session(id, "a\"b"));
    assert js.value.name[1] == '"';
    FilterReadBackIff(js, None);
  }
}
