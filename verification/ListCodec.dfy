/** `string_split` and `string_join`, with which lists of strings are stored in one column. */
module ListCodec {
  import opened Strings
  import opened LinkedLists
  import opened Replace

  // ---------------------------------------------------------------- reference definitions

  /** `strchr`: the first position of `c` in `s` at or after `from`. */
  function StrChr(s: string, c: char, from: nat): (r: Option<nat>)
    requires from <= |s|
    ensures r.None? ==> forall j :: from <= j < |s| ==> s[j] != c
    ensures r.Some? ==> from <= r.value < |s| && s[r.value] == c
    ensures r.Some? ==> forall j :: from <= j < r.value ==> s[j] != c
    decreases |s| - from
  {
    if from == |s| then None else if s[from] == c then Some(from) else StrChr(s, c, from + 1)
  }

  function SplitFrom(s: string, c: char, from: nat): (l: seq<string>)
    requires from <= |s|
    ensures l != []
    decreases |s| - from
  {
    match StrChr(s, c, from)
    case None => [s[from..]]
    case Some(i) => [s[from..i]] + SplitFrom(s, c, i + 1)
  }

  function Split(s: string, c: char): (l: seq<string>)
    ensures l != []
  {
    SplitFrom(s, c, 0)
  }

  /** The items, each followed by the separator. */
  function Terminated(l: seq<string>, c: char): string {
    if l == [] then "" else l[0] + [c] + Terminated(l[1..], c)
  }

  /** The items with the separator between them; an empty list is stored as NULL. */
  function Join(l: seq<string>, c: char): Option<string> {
    if l == [] then None
    else if |l| == 1 then Some(l[0])
    else Some(l[0] + [c] + Join(l[1..], c).value)
  }

  /** What a list column reads back as: NULL stays NULL. */
  function SplitColumn(s: Option<string>, c: char): Option<seq<string>> {
    if s.None? then None else Some(Split(s.value, c))
  }

  function CountOf(s: string, c: char): nat {
    multiset(s)[c]
  }

  predicate Separable(l: seq<string>, c: char) {
    forall i :: 0 <= i < |l| ==> c !in l[i]
  }

  // ---------------------------------------------------------------- round trips

  /** Joining what was split gives the text back, for every text. */
  lemma JoinSplit(s: string, c: char)
    ensures Join(Split(s, c), c) == Some(s)
  {
    JoinSplitFrom(s, c, 0);
    assert s[0..] == s;
  }

  lemma {:induction false} JoinSplitFrom(s: string, c: char, from: nat)
    requires from <= |s|
    ensures Join(SplitFrom(s, c, from), c) == Some(s[from..])
    decreases |s| - from
  {
    hide StrChr;
    match StrChr(s, c, from)
    case None =>
    case Some(i) =>
      JoinSplitFrom(s, c, i + 1);
      assert s[from..] == s[from..i] + [c] + s[i + 1..];
      assert SplitFrom(s, c, from)[1..] == SplitFrom(s, c, i + 1);
  }

  /** No item of a split text holds the separator, and there is one item more than separators. */
  lemma SplitItems(s: string, c: char)
    ensures Separable(Split(s, c), c) && |Split(s, c)| == 1 + CountOf(s, c)
  {
    SplitItemsFrom(s, c, 0);
    assert s[0..] == s;
  }

  lemma {:induction false} SplitItemsFrom(s: string, c: char, from: nat)
    requires from <= |s|
    ensures Separable(SplitFrom(s, c, from), c) && |SplitFrom(s, c, from)| == 1 + CountOf(s[from..], c)
    decreases |s| - from
  {
    hide StrChr, CountOf;
    match StrChr(s, c, from)
    case None =>
      NoneCounted(s[from..], c);
    case Some(i) =>
      SplitItemsFrom(s, c, i + 1);
      CountAround(s[from..i], c, s[i + 1..]);
      assert s[from..] == s[from..i] + [c] + s[i + 1..];
  }

  lemma NoneCounted(s: string, c: char)
    requires c !in s
    ensures CountOf(s, c) == 0
  {
  }

  lemma CountAround(a: string, c: char, z: string)
    requires c !in a
    ensures CountOf(a + [c] + z, c) == 1 + CountOf(z, c)
  {
    NoneCounted(a, c);
  }

  /** Splitting what was joined gives the list back exactly for non-empty lists whose items are free
      of the separator; the empty list reads back as NULL. */
  lemma SplitJoinIff(l: seq<string>, c: char)
    ensures SplitColumn(Join(l, c), c) == Some(l) <==> l != [] && Separable(l, c)
  {
    if l != [] {
      JoinIsSome(l, c);
      SplitItems(Join(l, c).value, c);
      if Separable(l, c) {
        SplitJoin(l, c);
      }
    }
  }

  lemma JoinIsSome(l: seq<string>, c: char)
    ensures Join(l, c).Some? <==> l != []
  {
  }

  lemma SplitJoin(l: seq<string>, c: char)
    requires l != [] && Separable(l, c)
    ensures Join(l, c).Some? && Split(Join(l, c).value, c) == l
  {
    JoinIsSome(l, c);
    var s := Join(l, c).value;
    var m := Split(s, c);
    JoinSplit(s, c);
    SplitItems(s, c);
    TerminatedIs(l, c);
    TerminatedIs(m, c);
    TerminatedInjective(l, m, c);
  }

  /** Lists of items without the separator that join alike are equal. */
  lemma {:induction false} TerminatedInjective(l: seq<string>, m: seq<string>, c: char)
    requires Separable(l, c) && Separable(m, c) && Terminated(l, c) == Terminated(m, c)
    ensures l == m
  {
    if l != [] && m != [] {
      FirstItem(l[0], Terminated(l[1..], c), m[0], Terminated(m[1..], c), c);
      TerminatedInjective(l[1..], m[1..], c);
      assert l == [l[0]] + l[1..] && m == [m[0]] + m[1..];
    }
  }

  lemma FirstItem(a: string, x: string, b: string, y: string, c: char)
    requires c !in a && c !in b && a + [c] + x == b + [c] + y
    ensures a == b && x == y
  {
    var s := a + [c] + x;
    var t := b + [c] + y;
    assert s[|a|] == c && t[|b|] == c;
    assert forall j :: 0 <= j < |a| ==> s[j] == a[j];
    assert forall j :: 0 <= j < |b| ==> t[j] == b[j];
    assert |a| == |b|;
    assert a == s[..|a|] && b == t[..|b|] && x == s[|a| + 1..] && y == t[|b| + 1..];
  }

  // ---------------------------------------------------------------- the code

  /** `string_split`; a NULL string gives a NULL list. */
  method StringSplit(s: Option<string>, separator: char) returns (sl: List?<string>)
    requires separator != '\0'
    ensures sl == null <==> s.None?
    ensures sl != null ==> sl.Valid() && fresh(sl.Repr) && sl.contents == Split(s.value, separator)
  {
    if s.None? {
      return null;
    }
    sl := SplitLoop(s.value, separator);
  }

  method SplitLoop(text: string, separator: char) returns (sl: List<string>)
    ensures sl.Valid() && fresh(sl.Repr) && sl.contents == Split(text, separator)
  {
    hide StrChr, SplitFrom;
    sl := new List<string>(true);
    var rest: nat := 0;
    var pos := StrChr(text, separator, rest);
    while pos.Some?
      invariant rest <= |text| && pos == StrChr(text, separator, rest)
      invariant sl.Valid() && fresh(sl.Repr)
      invariant sl.contents + SplitFrom(text, separator, rest) == Split(text, separator)
      decreases |text| - rest
    {
      SplitStep(sl.contents, text, separator, rest);
      var e := ListAdd(sl, text[rest..pos.value]);
      rest := pos.value + 1;
      pos := StrChr(text, separator, rest);
    }
    SplitEnd(text, separator, rest);
    var e := ListAdd(sl, text[rest..]);
  }

  lemma SplitEnd(text: string, c: char, rest: nat)
    requires rest <= |text| && StrChr(text, c, rest).None?
    ensures SplitFrom(text, c, rest) == [text[rest..]]
  {
  }

  lemma SplitStep(done: seq<string>, text: string, c: char, rest: nat)
    requires rest <= |text| && StrChr(text, c, rest).Some?
    ensures var i := StrChr(text, c, rest).value;
            done + SplitFrom(text, c, rest) == done + [text[rest..i]] + SplitFrom(text, c, i + 1)
  {
    hide StrChr;
  }

  /** The size that `string_join` computes: every item and one more character for each. */
  function JoinSize(l: seq<string>): nat {
    if l == [] then 0 else |l[0]| + 1 + JoinSize(l[1..])
  }

  lemma {:induction false} TerminatedIs(l: seq<string>, c: char)
    ensures |Terminated(l, c)| == JoinSize(l)
    ensures l != [] ==> Join(l, c).Some? && Terminated(l, c) == Join(l, c).value + [c]
  {
    if |l| == 1 {
      assert Terminated(l[1..], c) == "";
    } else if l != [] {
      TerminatedIs(l[1..], c);
    }
  }

  /** Character `j` of an item stands behind the items before it and their separators. */
  lemma {:induction false} TerminatedAt(l: seq<string>, c: char, i: nat)
    requires i < |l|
    ensures JoinSize(l[..i + 1]) == JoinSize(l[..i]) + |l[i]| + 1
    ensures JoinSize(l[..i + 1]) <= |Terminated(l, c)|
    ensures Terminated(l, c)[JoinSize(l[..i])..JoinSize(l[..i + 1])] == l[i] + [c]
  {
    var rest := l[1..];
    var t := l[0] + [c];
    assert Terminated(l, c) == t + Terminated(rest, c);
    if i == 0 {
      assert l[..1][1..] == [];
    } else {
      TerminatedAt(rest, c, i - 1);
      assert l[..i][1..] == rest[..i - 1] && l[..i + 1][1..] == rest[..i];
      var lo, hi := JoinSize(rest[..i - 1]), JoinSize(rest[..i]);
      assert (t + Terminated(rest, c))[|t| + lo..|t| + hi] == Terminated(rest, c)[lo..hi];
    }
  }

  /** `string_join`; a NULL or empty list gives NULL. The buffer that was sized from the items is
      filled exactly: the separator behind the last item becomes the terminator. */
  method StringJoin(sl: List?<string>, separator: char) returns (r: array?<char>)
    requires sl != null ==> sl.Valid()
    ensures r == null <==> sl == null || Join(sl.contents, separator).None?
    ensures r != null ==> fresh(r) && r[..] == Join(sl.contents, separator).value + ['\0']
  {
    if sl == null {
      return null;
    }
    var n := ListSize(sl);
    JoinIsSome(sl.contents, separator);
    if n == 0 {
      return null;
    }
    var count := CountCharacters(sl);
    var buffer := new char[count];
    FillItems(buffer, sl, separator);
    TerminatedIs(sl.contents, separator);
    buffer[count - 1] := '\0';
    r := buffer;
  }

  method CountCharacters(sl: List<string>) returns (count: nat)
    requires sl.Valid()
    ensures count == JoinSize(sl.contents)
  {
    count := 0;
    var n := ListSize(sl);
    for i := 0 to n
      invariant count == JoinSize(sl.contents[..i])
    {
      var item := ListGet(sl, i);
      TerminatedAt(sl.contents, '|', i);
      count := count + |item.value| + 1;
    }
    assert sl.contents[..n] == sl.contents;
  }

  method FillItems(buffer: array<char>, sl: List<string>, separator: char)
    requires sl.Valid() && buffer.Length == JoinSize(sl.contents)
    modifies buffer
    ensures buffer[..] == Terminated(sl.contents, separator)
  {
    ghost var l := sl.contents;
    ghost var goal := Terminated(l, separator);
    TerminatedIs(l, separator);
    var next: nat := 0;
    var n := ListSize(sl);
    for i := 0 to n
      invariant next == JoinSize(l[..i]) && Filled(buffer, goal, next)
    {
      var item := ListGet(sl, i);
      TerminatedAt(l, separator, i);
      CopyItem(buffer, goal, next, item.value, separator);
      next := next + |item.value| + 1;
    }
    assert l[..n] == l;
  }

  method CopyItem(buffer: array<char>, ghost goal: string, next: nat, item: string, separator: char)
    requires Filled(buffer, goal, next) && next + |item| + 1 <= |goal|
    requires goal[next..next + |item| + 1] == item + [separator]
    modifies buffer
    ensures Filled(buffer, goal, next + |item| + 1)
  {
    ghost var part := goal[next..next + |item| + 1];
    assert forall j :: next <= j < next + |item| + 1 ==> goal[j] == part[j - next];
    StrNCpy(buffer, next, item, |item|);
    buffer[next + |item|] := separator;
  }
}
