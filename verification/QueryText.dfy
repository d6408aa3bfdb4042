/** `build_query_string`: the WHERE clause of a filter, printed into a buffer of a hand-computed size. */
module QueryText {
  import opened LinkedLists
  import opened Pointers
  import opened DictionaryModel
  import opened Dictionary
  import opened Replace

  // ---------------------------------------------------------------- the text

  predicate HasToBeEscaped(key: string) {
    || key == "session_name" || key == "job_sub_state"
    || key == "submission_time" || key == "dispatch_time" || key == "finish_time"
  }

  function Comperator(key: string): string {
    if key == "submission_time" || key == "dispatch_time" || key == "finish_time" then ">=" else "="
  }

  /** A filter field: the name of a column and the text that the column is compared with. */
  datatype Pair = Pair(key: string, value: string)

  function Quoted(value: string): string {
    "\"" + value + "\""
  }

  function ConditionText(p: Pair): string {
    p.key + " " + Comperator(p.key) + " " + (if HasToBeEscaped(p.key) then Quoted(p.value) else p.value)
  }

  function Glue(i: nat): string {
    if i == 0 then " WHERE " else " AND "
  }

  /** The conditions from number `i` on, each behind its connective. */
  function Clauses(ps: seq<Pair>, i: nat): string
    requires i <= |ps|
    decreases |ps| - i
  {
    if i == |ps| then "" else Glue(i) + ConditionText(ps[i]) + Clauses(ps, i + 1)
  }

  function Query(start: string, ps: seq<Pair>): string {
    start + " " + Clauses(ps, 0)
  }

  // ---------------------------------------------------------------- the space

  /** How many of the fields are compared with `=`. */
  function EqualKeys(ps: seq<Pair>, i: nat): nat
    requires i <= |ps|
    decreases |ps| - i
  {
    if i == |ps| then 0 else (if Comperator(ps[i].key) == "=" then 1 else 0) + EqualKeys(ps, i + 1)
  }

  function FieldSpace(p: Pair): nat {
    |p.key| + |p.value| + 4 + (if HasToBeEscaped(p.key) then 2 else 0)
  }

  function FieldsSpace(ps: seq<Pair>, i: nat): nat
    requires i <= |ps|
    decreases |ps| - i
  {
    if i == |ps| then 0 else FieldSpace(ps[i]) + FieldsSpace(ps, i + 1)
  }

  function GlueSpace(n: nat): nat {
    if n > 0 then 7 + (n - 1) * 5 else 0
  }

  lemma ConditionLength(p: Pair)
    ensures |ConditionText(p)| + (if Comperator(p.key) == "=" then 1 else 0) == FieldSpace(p)
  {
    hide HasToBeEscaped;
  }

  /** The space reserved for the fields exceeds their text by one for each `=`. */
  lemma {:induction false} ClausesLength(ps: seq<Pair>, i: nat)
    requires i <= |ps|
    ensures |Clauses(ps, i)| + EqualKeys(ps, i) ==
            FieldsSpace(ps, i) + (if i == 0 then GlueSpace(|ps|) else (|ps| - i) * 5)
    decreases |ps| - i
  {
    hide HasToBeEscaped, Comperator, ConditionText, FieldSpace;
    if i < |ps| {
      ConditionLength(ps[i]);
      ClausesLength(ps, i + 1);
    }
  }

  // ---------------------------------------------------------------- the code

  /** The texts behind the pointers of a dictionary. */
  ghost function Texts(es: seq<Entry>): (ps: seq<Pair>)
    ensures |ps| == |es|
    ensures forall i :: 0 <= i < |es| ==> ps[i] == Pair(es[i].key.text, es[i].value.text)
  {
    seq(|es|, i requires 0 <= i < |es| => Pair(es[i].key.text, es[i].value.text))
  }

  /** The buffer holds the text and its terminator; what is left over is one character for each `=`,
      and the terminator that is stored last does not fall on the text. */
  ghost predicate Printed(buffer: array<char>, text: string, leftOver: nat)
    reads buffer
  {
    && buffer.Length == |text| + 1 + leftOver
    && buffer[..|text|] == text && buffer[|text|] == '\0' && buffer[buffer.Length - 1] == '\0'
  }

  /** `build_query_string`; a NULL dictionary copies the start. */
  method BuildQueryString(start: string, filter: Dict?) returns (query: array<char>)
    requires filter != null ==> filter.Valid()
    ensures fresh(query)
    ensures filter == null ==> query[..] == start + ['\0']
    ensures filter != null ==>
              var ps := Texts(filter.entries);
              Printed(query, Query(start, ps), EqualKeys(ps, 0))
  {
    if filter == null {
      query := new char[|start| + 1];
      StrCpy(query, 0, start);
      return;
    }
    ghost var ps := Texts(filter.entries);
    var keys := DictList(filter);
    var space := RequiredSpace(start, filter, keys, ps);
    query := new char[space];
    Print(query, start, filter, keys, ps);
  }

  /** The value that the look-up of a listed key finds is the value of that entry. */
  method FieldAt(filter: Dict, keys: List<string>, i: nat, ghost ps: seq<Pair>) returns (p: Pair)
    requires filter.Valid() && keys.Valid() && keys.contents == KeyOrder(filter.entries)
    requires ps == Texts(filter.entries) && i < |ps|
    ensures p == ps[i]
  {
    hide Position, Balanced, AsMap, UniqueKeys;
    var key := ListGet(keys, i);
    var value := DictGet(filter, key.value);
    MapAt(filter.entries, i);
    p := Pair(key.value, value.value.text);
  }

  method RequiredSpace(start: string, filter: Dict, keys: List<string>, ghost ps: seq<Pair>) returns (space: nat)
    requires filter.Valid() && keys.Valid() && keys.contents == KeyOrder(filter.entries)
    requires ps == Texts(filter.entries)
    ensures space == |Query(start, ps)| + 1 + EqualKeys(ps, 0)
  {
    hide Balanced, UniqueKeys, Dict.Chained;
    space := |start| + 2;
    var n := ListSize(keys);
    for i := 0 to n
      invariant space + FieldsSpace(ps, i) == |start| + 2 + FieldsSpace(ps, 0)
    {
      var p := FieldAt(filter, keys, i, ps);
      space := space + |p.key| + |p.value| + 4;
      if HasToBeEscaped(p.key) {
        space := space + 2;
      }
    }
    if n > 0 {
      space := space + 7;
      space := space + (n - 1) * 5;
    }
    ClausesLength(ps, 0);
  }

  method Print(query: array<char>, start: string, filter: Dict, keys: List<string>, ghost ps: seq<Pair>)
    requires filter.Valid() && keys.Valid() && keys.contents == KeyOrder(filter.entries)
    requires query.Length == |Query(start, ps)| + 1 + EqualKeys(ps, 0) && ps == Texts(filter.entries)
    requires query !in filter.Repr && query !in keys.Repr
    modifies query
    ensures Printed(query, Query(start, ps), EqualKeys(ps, 0))
  {
    hide Balanced, UniqueKeys, Dict.Chained, Clauses;
    ghost var goal := Query(start, ps);
    StrCpy(query, 0, start);
    query[|start|] := ' ';
    var ins: nat := |start| + 1;
    assert goal[ins..] == Clauses(ps, 0);
    PrintClauses(query, goal, ins, filter, keys, ps);
    query[query.Length - 1] := '\0';
    assert query[..|goal|] == goal;
  }

  /** The loop over the keys; with at least one key the last copy leaves a terminator behind the text. */
  method PrintClauses(query: array<char>, ghost goal: string, start: nat, filter: Dict, keys: List<string>,
                      ghost ps: seq<Pair>)
    requires filter.Valid() && keys.Valid() && keys.contents == KeyOrder(filter.entries)
    requires Filled(query, goal, start) && |goal| < query.Length && goal[start..] == Clauses(ps, 0)
    requires ps == Texts(filter.entries) && query !in filter.Repr && query !in keys.Repr
    modifies query
    ensures Filled(query, goal, |goal|) && (ps != [] ==> query[|goal|] == '\0')
  {
    hide Balanced, UniqueKeys, Dict.Chained, ConditionText, Clauses;
    var ins: nat := start;
    var n := ListSize(keys);
    for i := 0 to n
      invariant Filled(query, goal, ins) && goal[ins..] == Clauses(ps, i)
      invariant i > 0 ==> query[ins] == '\0'
    {
      var glue := if i != 0 then " AND " else " WHERE ";
      var p := FieldAt(filter, keys, i, ps);
      var current := PrintField(p);
      NextClause(ps, i);
      PrintClause(query, goal, ins, glue, current, Clauses(ps, i + 1));
      ins := ins + |glue| + |current|;
    }
    NoClause(ps);
    assert ins == |goal|;
  }

  lemma NextClause(ps: seq<Pair>, i: nat)
    requires i < |ps|
    ensures Clauses(ps, i) == (if i != 0 then " AND " else " WHERE ") + ConditionText(ps[i]) + Clauses(ps, i + 1)
  {
  }

  lemma NoClause(ps: seq<Pair>)
    ensures Clauses(ps, |ps|) == ""
  {
  }

  /** The two calls of `asprintf`. */
  method PrintField(p: Pair) returns (current: string)
    ensures current == ConditionText(p)
  {
    hide HasToBeEscaped, Comperator;
    current := if HasToBeEscaped(p.key) then p.key + " " + Comperator(p.key) + " \"" + p.value + "\""
               else p.key + " " + Comperator(p.key) + " " + p.value;
    assert p.key + " " + Comperator(p.key) + " \"" + p.value + "\""
        == p.key + " " + Comperator(p.key) + " " + Quoted(p.value);
  }

  method PrintClause(query: array<char>, ghost goal: string, ins: nat, glue: string, current: string,
                     ghost tail: string)
    requires Filled(query, goal, ins) && |goal| < query.Length && goal[ins..] == glue + current + tail
    modifies query
    ensures Filled(query, goal, ins + |glue| + |current|) && query[ins + |glue| + |current|] == '\0'
    ensures goal[ins + |glue| + |current|..] == tail
  {
    GoalStep(goal, ins, glue, current, tail);
    StrCpy(query, ins, glue);
    StrCpy(query, ins + |glue|, current);
  }
}
