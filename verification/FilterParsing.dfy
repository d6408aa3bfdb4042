/** The printed filter parses back to exactly the fields that were printed. */
module FilterParsing {
  import opened Strings
  import opened QueryText
  import opened Sql

  /** The condition that a filter field stands for. */
  function Meaning(p: Pair): Condition {
    Condition(p.key, if Comperator(p.key) == ">=" then Ge else Eq,
              if HasToBeEscaped(p.key) then Str(p.value) else Num(Atoll(p.value)))
  }

  function Meanings(ps: seq<Pair>): (cs: seq<Condition>)
    ensures |cs| == |ps| && forall i :: 0 <= i < |ps| ==> cs[i] == Meaning(ps[i])
  {
    seq(|ps|, i requires 0 <= i < |ps| => Meaning(ps[i]))
  }

  /** A field that is printed without quotes holds a numeral. */
  predicate Fits(p: Pair) {
    IsName(p.key) && (HasToBeEscaped(p.key) || IsNumeral(p.value))
  }

  /** A field that is printed in quotes holds none. */
  predicate Quotable(p: Pair) {
    HasToBeEscaped(p.key) ==> '"' !in p.value
  }

  predicate EndsAt(t: string) {
    t == "" || t[0] == ' '
  }

  // ---------------------------------------------------------------- words and numbers

  lemma {:induction false} ReadNameOf(name: string, t: string)
    requires forall i :: 0 <= i < |name| ==> IsNameChar(name[i])
    requires EndsAt(t)
    ensures ReadName(name + t) == (name, t)
  {
    if name == "" {
      assert name + t == t;
    } else {
      assert (name + t)[1..] == name[1..] + t;
      ReadNameOf(name[1..], t);
      assert name == [name[0]] + name[1..];
    }
  }

  lemma {:induction false} ReadDigitsOf(digits: string, t: string)
    requires AllDigits(digits) && EndsAt(t)
    ensures ReadDigits(digits + t) == (digits, t)
  {
    if digits == "" {
      assert digits + t == t;
    } else {
      assert (digits + t)[1..] == digits[1..] + t;
      ReadDigitsOf(digits[1..], t);
      assert digits == [digits[0]] + digits[1..];
    }
  }

  lemma ReadNumberOf(v: string, t: string)
    requires IsNumeral(v) && EndsAt(t)
    ensures ReadNumber(v + t) == Got(Num(Atoll(v)), t) && (v + t)[0] != '"'
  {
    assert (v + t)[0] == v[0];
    if v[0] == '-' {
      assert (v + t)[1..] == v[1..] + t;
      ReadDigitsOf(v[1..], t);
    } else {
      ReadDigitsOf(v, t);
    }
  }

  // ---------------------------------------------------------------- quoted words

  lemma {:induction false} ReadQuotedOf(v: string, t: string)
    requires '"' !in v && EndsAt(t)
    ensures ReadQuoted(v + "\"" + t) == Got(v, t)
  {
    var s := v + "\"" + t;
    if v == "" {
      assert s[1..] == t;
    } else {
      assert s[1..] == v[1..] + "\"" + t;
      ReadQuotedOf(v[1..], t);
      assert v == [v[0]] + v[1..];
    }
  }

  function Quotes(k: nat): string {
    if k == 0 then "" else "\"" + Quotes(k - 1)
  }

  lemma QuotesAppend(k: nat)
    ensures Quotes(k + 1) == Quotes(k) + "\""
  {
    if k > 0 {
      QuotesAppend(k - 1);
    }
  }

  /** A word that holds a quote is never read back as itself: `k` more quotes than are left in the
      text would have to be produced. */
  lemma {:induction false} ReadQuotedNever(k: nat, v: string, t: string)
    requires k > 0 || '"' in v
    requires EndsAt(t)
    ensures ReadQuoted(v + "\"" + t).Got? ==> ReadQuoted(v + "\"" + t).value != Quotes(k) + v
    decreases |v|
  {
    var s := v + "\"" + t;
    if v == "" {
      assert s[1..] == t;
      assert ReadQuoted(s) == Got("", t);
      assert Quotes(k) != "";
    } else if v[0] != '"' {
      assert s[1..] == v[1..] + "\"" + t;
      if k == 0 {
        var r := ReadQuoted(s[1..]);
        ReadQuotedNever(0, v[1..], t);
        assert Quotes(0) + v == v == [v[0]] + v[1..] && Quotes(0) + v[1..] == v[1..];
        SameTail([v[0]], if r.Got? then r.value else "", v[1..]);
      } else {
        assert (Quotes(k) + v)[0] == '"';
      }
    } else {
      ReadQuotedNeverRun(k, v, t);
    }
  }

  /** The case of a word that starts with a quote. */
  lemma {:induction false} ReadQuotedNeverRun(k: nat, v: string, t: string)
    requires v != "" && v[0] == '"' && EndsAt(t)
    ensures ReadQuoted(v + "\"" + t).Got? ==> ReadQuoted(v + "\"" + t).value != Quotes(k) + v
    decreases |v|, 0
  {
    var s := v + "\"" + t;
    if |v| == 1 {
      assert v == "\"";
      assert s == "\"\"" + t;
      ReadQuotedLoneQuote(k, t);
    } else if v[1] != '"' {
      assert s[0] == '"' && s[1] == v[1];
      assert ReadQuoted(s) == Got("", s[1..]);
    } else {
      var z := v[2..];
      assert v == "\"\"" + z && s == "\"\"" + (z + "\"" + t);
      ReadQuotedNever(k + 1, z, t);
      ReadQuotedDouble(z + "\"" + t);
      QuotesShift(k, z);
      var r := ReadQuoted(z + "\"" + t);
      SameTail("\"", if r.Got? then r.value else "", Quotes(k + 1) + z);
    }
  }

  /** Two quotes are read as one, and the reading goes on. */
  lemma ReadQuotedDouble(x: string)
    ensures ReadQuoted("\"\"" + x) ==
            match ReadQuoted(x) case Fail => Fail case Got(t, rest) => Got("\"" + t, rest)
  {
    assert ("\"\"" + x)[2..] == x;
  }

  lemma QuotesShift(k: nat, z: string)
    ensures Quotes(k) + ("\"\"" + z) == "\"" + (Quotes(k + 1) + z)
  {
    QuotesAppend(k);
    QuotesAppend(k + 1);
    assert Quotes(k) + ("\"\"" + z) == Quotes(k) + "\"" + "\"" + z;
    assert Quotes(k + 2) == "\"" + Quotes(k + 1);
  }

  /** A lone quote in front of the closing one: what follows starts with a blank. */
  lemma ReadQuotedLoneQuote(k: nat, t: string)
    requires EndsAt(t)
    ensures ReadQuoted("\"\"" + t).Got? ==> ReadQuoted("\"\"" + t).value != Quotes(k) + "\""
  {
    ReadQuotedDouble(t);
    QuotesAppend(k);
    AllQuotes(k + 1);
    if ReadQuoted(t).Got? {
      assert ReadQuoted(t).value[0] == ' ';
      assert ReadQuoted("\"\"" + t).value[1] == ' ';
    }
  }

  lemma SameTail<T>(a: seq<T>, x: seq<T>, y: seq<T>)
    ensures a + x == a + y ==> x == y
  {
    if a + x == a + y {
      assert x == (a + x)[|a|..] && y == (a + y)[|a|..];
    }
  }

  lemma {:induction false} AllQuotes(k: nat)
    ensures |Quotes(k)| == k && forall i :: 0 <= i < k ==> Quotes(k)[i] == '"'
  {
    if k > 0 {
      AllQuotes(k - 1);
    }
  }

  // ---------------------------------------------------------------- conditions

  lemma ReadOpOf(key: string, x: string)
    ensures ReadOp(" " + Comperator(key) + " " + x) == Got(if Comperator(key) == ">=" then Ge else Eq, x)
  {
    var s := " " + Comperator(key) + " " + x;
    if Comperator(key) == ">=" {
      assert s == " >= " + x && s[4..] == x;
      assert s[1] == '>';
    } else {
      assert s == " = " + x && s[3..] == x;
    }
  }

  function OperandText(p: Pair): string {
    if HasToBeEscaped(p.key) then Quoted(p.value) else p.value
  }

  /** What reading a printed condition comes down to. */
  lemma ReadConditionIs(p: Pair, t: string)
    requires IsName(p.key)
    ensures ReadCondition(ConditionText(p) + t) ==
            match ReadOperand(OperandText(p) + t)
            case Fail => Fail
            case Got(operand, rest) => Got(Condition(p.key, Meaning(p).op, operand), rest)
  {
    hide HasToBeEscaped, Comperator, ReadOp, ReadOperand, ReadName, Quoted;
    var x := OperandText(p) + t;
    var s1 := " " + Comperator(p.key) + " " + x;
    assert ConditionText(p) + t == p.key + s1;
    ReadNameOf(p.key, s1);
    ReadOpOf(p.key, x);
  }

  lemma ReadOperandOf(p: Pair, t: string)
    requires Fits(p) && EndsAt(t)
    ensures Quotable(p) ==> ReadOperand(OperandText(p) + t) == Got(Meaning(p).operand, t)
    ensures !Quotable(p) ==> var r := ReadOperand(OperandText(p) + t); r.Got? ==> r.value != Meaning(p).operand
  {
    hide HasToBeEscaped, Comperator, ReadQuoted, ReadNumber, IsNumeral, Atoll;
    var s := OperandText(p) + t;
    if HasToBeEscaped(p.key) {
      assert s[0] == '"' && s[1..] == p.value + "\"" + t;
      if Quotable(p) {
        ReadQuotedOf(p.value, t);
      } else {
        ReadQuotedNever(0, p.value, t);
        assert Quotes(0) + p.value == p.value;
      }
    } else {
      ReadNumberOf(p.value, t);
    }
  }

  lemma ReadConditionOf(p: Pair, t: string)
    requires Fits(p) && EndsAt(t)
    ensures Quotable(p) ==> ReadCondition(ConditionText(p) + t) == Got(Meaning(p), t)
    ensures !Quotable(p) ==> var r := ReadCondition(ConditionText(p) + t); r.Got? ==> r.value != Meaning(p)
  {
    hide HasToBeEscaped, Comperator, ReadOperand, ReadCondition, ConditionText, OperandText, IsNumeral, Quotable;
    ReadConditionIs(p, t);
    ReadOperandOf(p, t);
  }

  // ---------------------------------------------------------------- the whole query

  lemma ClausesEnd(ps: seq<Pair>, i: nat)
    requires 0 < i <= |ps|
    ensures EndsAt(Clauses(ps, i))
    ensures i < |ps| ==> Clauses(ps, i) == " AND " + (ConditionText(ps[i]) + Clauses(ps, i + 1))
    ensures i == |ps| ==> Clauses(ps, i) == ""
  {
    hide ConditionText;
  }

  lemma {:induction false} ParseClauses(ps: seq<Pair>, i: nat)
    requires i < |ps| && forall j :: i <= j < |ps| ==> Fits(ps[j])
    ensures ParseConditions(ConditionText(ps[i]) + Clauses(ps, i + 1)) == Some(Meanings(ps[i..])) <==>
            forall j :: i <= j < |ps| ==> Quotable(ps[j])
    decreases |ps| - i
  {
    hide ReadCondition, ConditionText, Fits, Quotable, Meaning, Clauses;
    var t := Clauses(ps, i + 1);
    var s := ConditionText(ps[i]) + t;
    ClausesEnd(ps, i + 1);
    ReadConditionOf(ps[i], t);
    FirstParsed(s);
    var ms := Meanings(ps[i + 1..]);
    assert Meanings(ps[i..]) == [Meaning(ps[i])] + ms;
    if !Quotable(ps[i]) {
      assert Meanings(ps[i..])[0] == Meaning(ps[i]);
    } else if i + 1 < |ps| {
      ParseClauses(ps, i + 1);
      assert t[5..] == ConditionText(ps[i + 1]) + Clauses(ps, i + 2);
      var rest := ParseConditions(t[5..]);
      SameTail([Meaning(ps[i])], if rest.Some? then rest.value else [], ms);
    } else {
      assert ParseConditions(s) == Some([Meaning(ps[i])]);
      assert ms == [] && [Meaning(ps[i])] + ms == [Meaning(ps[i])];
    }
  }

  lemma FirstParsed(s: string)
    ensures var r := ParseConditions(s);
            r.Some? ==> ReadCondition(s).Got? && r.value != [] && r.value[0] == ReadCondition(s).value
  {
    hide ReadCondition;
  }

  /** The text of a filter parses to exactly its key, operator, value list, in order, if and only if no
      quoted value holds a quote. */
  lemma ParseQueryIff(ps: seq<Pair>)
    requires forall j :: 0 <= j < |ps| ==> Fits(ps[j])
    ensures Parse(Query(SELECT, ps)) == Some(Meanings(ps)) <==> forall j :: 0 <= j < |ps| ==> Quotable(ps[j])
  {
    hide Fits, Quotable, Meaning, ParseConditions, ConditionText;
    if ps == [] {
      assert Clauses(ps, 0) == "" && Meanings(ps) == [];
      ParseIs("");
    } else {
      var x := ConditionText(ps[0]) + Clauses(ps, 1);
      assert Clauses(ps, 0) == " WHERE " + x;
      ParseIs(" WHERE " + x);
      ParseWhere(x);
      assert ps[0..] == ps;
      ParseClauses(ps, 0);
    }
  }

  /** The printed query has one blank behind the start, and a second one in front of WHERE. */
  lemma ParseIs(clauses: string)
    ensures Parse(SELECT + " " + clauses) ==
            var s := SkipBlanks(clauses);
            if s == "" then Some([]) else if "WHERE " <= s then ParseConditions(s[6..]) else None
  {
    hide ParseConditions;
    var query := SELECT + " " + clauses;
    var s := query[|SELECT|..];
    assert s == " " + clauses && s[1..] == clauses;
  }

  lemma ParseWhere(x: string)
    ensures SkipBlanks(" WHERE " + x) == "WHERE " + x && ("WHERE " + x)[6..] == x
  {
    var s := " WHERE " + x;
    assert s[1..] == "WHERE " + x;
  }
}
