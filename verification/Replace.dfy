/** Placeholder substitution: the recursive meaning of `str_replace` and the two-pass buffer code. */
module Replace {
  import opened Strings

  const INT_MAX: int := 0x7FFF_FFFF
  const SIZE_MODULUS: int := 0x1_0000_0000_0000_0000

  // ---------------------------------------------------------------- reference definition

  /** Leftmost, non-overlapping replacement in what is left of `s` at `from`. */
  function ReplaceFrom(s: string, rep: string, with: string, from: nat): string
    requires rep != "" && from <= |s|
    decreases |s| - from
  {
    match FindFrom(s, rep, from)
    case None => s[from..]
    case Some(i) => s[from..i] + with + ReplaceFrom(s, rep, with, i + |rep|)
  }

  function ReplaceAll(s: string, rep: string, with: string): string
    requires rep != ""
  {
    ReplaceFrom(s, rep, with, 0)
  }

  /** The parts of `s` between the matches that a left-to-right scan for `rep` consumes. */
  function PiecesFrom(s: string, rep: string, from: nat): (ps: seq<string>)
    requires rep != "" && from <= |s|
    ensures |ps| > 0
    decreases |s| - from
  {
    match FindFrom(s, rep, from)
    case None => [s[from..]]
    case Some(i) => [s[from..i]] + PiecesFrom(s, rep, i + |rep|)
  }

  function Pieces(s: string, rep: string): (ps: seq<string>)
    requires rep != ""
    ensures |ps| > 0
  {
    PiecesFrom(s, rep, 0)
  }

  function MatchesFrom(s: string, rep: string, from: nat): nat
    requires rep != "" && from <= |s|
  {
    |PiecesFrom(s, rep, from)| - 1
  }

  function Matches(s: string, rep: string): nat
    requires rep != ""
  {
    MatchesFrom(s, rep, 0)
  }

  function Weave(ps: seq<string>, with: string): string {
    if ps == [] then "" else if |ps| == 1 then ps[0] else ps[0] + with + Weave(ps[1..], with)
  }

  /** The scan cuts `s` into its pieces, and the replacement puts `with` at exactly those cuts. */
  lemma ReplaceIsWeave(s: string, rep: string, with: string)
    requires rep != ""
    ensures ReplaceAll(s, rep, with) == Weave(Pieces(s, rep), with)
    ensures Weave(Pieces(s, rep), rep) == s
  {
    ReplaceFromIsWeave(s, rep, with, 0);
    ReplaceFromIsWeave(s, rep, rep, 0);
    ReplaceBySelf(s, rep, 0);
    assert s[0..] == s;
  }

  lemma {:induction false} ReplaceFromIsWeave(s: string, rep: string, with: string, from: nat)
    requires rep != "" && from <= |s|
    ensures ReplaceFrom(s, rep, with, from) == Weave(PiecesFrom(s, rep, from), with)
    decreases |s| - from
  {
    match FindFrom(s, rep, from)
    case None =>
    case Some(i) =>
      ReplaceFromIsWeave(s, rep, with, i + |rep|);
      WeaveCons(s[from..i], PiecesFrom(s, rep, i + |rep|), with);
  }

  lemma WeaveCons(p: string, ps: seq<string>, with: string)
    requires ps != []
    ensures Weave([p] + ps, with) == p + with + Weave(ps, with)
  {
    assert ([p] + ps)[1..] == ps;
  }

  lemma {:induction false} ReplaceBySelf(s: string, rep: string, from: nat)
    requires rep != "" && from <= |s|
    ensures ReplaceFrom(s, rep, rep, from) == s[from..]
    decreases |s| - from
  {
    match FindFrom(s, rep, from)
    case None =>
    case Some(i) =>
      ReplaceBySelf(s, rep, i + |rep|);
      assert s[from..] == s[from..i] + s[i..i + |rep|] + s[i + |rep|..];
  }

  /** No match is missed: what lies between two cuts holds no occurrence of the pattern, and
      nor does a piece followed by the pattern before its end, so each cut is the leftmost one. */
  lemma {:induction false} PiecesAreLeftmost(s: string, rep: string, from: nat, k: nat)
    requires rep != "" && from <= |s| && k < |PiecesFrom(s, rep, from)|
    ensures !Occurs(PiecesFrom(s, rep, from)[k], rep)
    ensures k + 1 < |PiecesFrom(s, rep, from)| ==>
              Find(PiecesFrom(s, rep, from)[k] + rep, rep) == Some(|PiecesFrom(s, rep, from)[k]|)
    decreases k
  {
    hide FindFrom, Find;
    match FindFrom(s, rep, from)
    case None =>
      assert k == 0 && s[from..|s|] == s[from..];
      PartHasNoMatch(s, rep, from, |s|);
    case Some(i) =>
      if k == 0 {
        PartHasNoMatch(s, rep, from, i);
        FirstMatchEndsPiece(s, rep, from, i);
      } else {
        PiecesAreLeftmost(s, rep, i + |rep|, k - 1);
      }
  }

  /** An occurrence in a part of a string is an occurrence in the string. */
  lemma OccursInSlice(s: string, lo: nat, hi: nat, p: string, i: nat)
    requires lo <= hi <= |s| && OccursAt(s[lo..hi], p, i)
    ensures OccursAt(s, p, lo + i)
  {
    var t := s[lo..hi];
    assert lo + i + |p| <= |s|;
    assert t[i..i + |p|] == s[lo + i..lo + i + |p|] by {
      assert forall k :: i <= k < i + |p| ==> t[k] == s[lo + k];
    }
  }

  lemma PartHasNoMatch(s: string, rep: string, lo: nat, hi: nat)
    requires rep != "" && lo <= hi <= |s|
    requires forall i: nat :: lo <= i < hi ==> !OccursAt(s, rep, i)
    ensures !Occurs(s[lo..hi], rep)
  {
    if Occurs(s[lo..hi], rep) {
      var i: nat :| OccursAt(s[lo..hi], rep, i);
      OccursInSlice(s, lo, hi, rep, i);
      assert false;
    }
  }

  lemma FirstMatchEndsPiece(s: string, rep: string, from: nat, i: nat)
    requires rep != "" && from <= |s| && FindFrom(s, rep, from) == Some(i)
    ensures Find(s[from..i] + rep, rep) == Some(i - from)
  {
    hide FindFrom;
    var t := s[from..i] + rep;
    assert t == s[from..i + |rep|];
    forall j: nat | OccursAt(t, rep, j) ensures j == i - from {
      OccursInSlice(s, from, i + |rep|, rep, j);
    }
    assert OccursAt(t, rep, i - from);
  }

  /** The length the first pass computes, also when the replacement is shorter than the pattern. */
  lemma ReplaceLength(s: string, rep: string, with: string)
    requires rep != ""
    ensures |ReplaceAll(s, rep, with)| == |s| + (|with| - |rep|) * Matches(s, rep)
  {
    ReplaceFromLength(s, rep, with, 0);
  }

  lemma {:induction false} ReplaceFromLength(s: string, rep: string, with: string, from: nat)
    requires rep != "" && from <= |s|
    ensures |ReplaceFrom(s, rep, with, from)| == |s| - from + (|with| - |rep|) * MatchesFrom(s, rep, from)
    decreases |s| - from
  {
    match FindFrom(s, rep, from)
    case None =>
    case Some(i) =>
      ReplaceFromLength(s, rep, with, i + |rep|);
      MulStep(|with| - |rep|, MatchesFrom(s, rep, i + |rep|));
  }

  lemma MulStep(d: int, m: int)
    ensures d * (m + 1) == d * m + d
  {
  }

  /** Replacement cannot put a terminator into a C string. */
  lemma {:induction false} ReplaceKeepsCString(s: string, rep: string, with: string, from: nat)
    requires rep != "" && IsCString(s) && IsCString(with) && from <= |s|
    ensures IsCString(ReplaceFrom(s, rep, with, from))
    decreases |s| - from
  {
    match FindFrom(s, rep, from)
    case None =>
    case Some(i) => ReplaceKeepsCString(s, rep, with, i + |rep|);
  }

  // ---------------------------------------------------------------- the buffer code

  const UINT_MODULUS: int := 0x1_0000_0000

  /** A value that is stored in an `int`. */
  function CInt(n: int): int {
    var r := n % UINT_MODULUS;
    if r > INT_MAX then r - UINT_MODULUS else r
  }

  predicate InInt(n: int) {
    -INT_MAX - 1 <= n <= INT_MAX
  }

  /** An `int` that is passed as a `size_t`. */
  function CSize(n: int): nat {
    n % SIZE_MODULUS
  }

  /** Lengths and a count that an `int` holds, a product that does not overflow `int`, and an original
      that is an object of the address space. */
  predicate SizesFit(orig: string, rep: string, with: string)
    requires rep != ""
  {
    && |rep| <= INT_MAX && |with| <= INT_MAX && Matches(orig, rep) <= INT_MAX
    && -INT_MAX - 1 <= (|with| - |rep|) * Matches(orig, rep) <= INT_MAX
    && |orig| < SIZE_MODULUS / 2
  }

  /** Each part in front of a match, with the match, has a length that an `int` of the copying pass holds. */
  predicate FrontsFitFrom(s: string, rep: string, from: nat)
    requires rep != "" && from <= |s|
  {
    var ps := PiecesFrom(s, rep, from);
    forall k :: 0 <= k < |ps| - 1 ==> |ps[k]| + |rep| <= INT_MAX
  }

  predicate FrontsFit(s: string, rep: string)
    requires rep != ""
  {
    FrontsFitFrom(s, rep, 0)
  }

  /** What C demands of the arguments. */
  predicate FitsInt(orig: string, rep: string, with: string)
    requires rep != ""
  {
    SizesFit(orig, rep, with) && FrontsFit(orig, rep)
  }

  /** An `int` keeps a value if and only if it has a place for it. */
  lemma CIntIff(n: int)
    ensures InInt(CInt(n)) && (CInt(n) == n <==> InInt(n))
  {
    if InInt(n) && n < 0 {
      assert n % UINT_MODULUS == n + UINT_MODULUS;
    }
  }

  lemma {:induction false} PieceInWeave(ps: seq<string>, with: string, k: nat)
    requires k < |ps|
    ensures |ps[k]| <= |Weave(ps, with)|
    decreases k
  {
    if k > 0 {
      PieceInWeave(ps[1..], with, k - 1);
    }
  }

  lemma CSizeOf(n: nat)
    requires n < UINT_MODULUS
    ensures n <= INT_MAX ==> CInt(n) == n && CSize(CInt(n)) == n
    ensures n > INT_MAX ==> CInt(n) < 0 && CSize(CInt(n)) >= SIZE_MODULUS - INT_MAX - 1
  {
    if n > INT_MAX {
      assert CInt(n) == n - UINT_MODULUS;
      assert CSize(CInt(n)) == CInt(n) + SIZE_MODULUS;
    }
  }

  /** What the copying pass does with the part in front of a match stays inside: the characters that
      `strncpy` copies are within the buffer, and the `int` sum that moves the cursor does not overflow. */
  predicate StepInside(front: nat, rep: nat, size: nat) {
    CSize(CInt(front)) <= size && InInt(CInt(front) + CInt(rep))
  }

  ghost predicate CopiesInside(s: string, rep: string, with: string)
    requires rep != ""
  {
    var ps := Pieces(s, rep);
    forall k :: 0 <= k < |ps| - 1 ==> StepInside(|ps[k]|, |rep|, |ReplaceAll(s, rep, with)| + 1)
  }

  lemma StepInsideIff(front: nat, rep: nat, size: nat)
    requires 0 < rep <= INT_MAX && front < UINT_MODULUS && size < SIZE_MODULUS - INT_MAX - 1
    requires front <= INT_MAX ==> front <= size
    ensures StepInside(front, rep, size) <==> front + rep <= INT_MAX
  {
    hide CInt, CSize;
    CSizeOf(front);
    CSizeOf(rep);
  }

  /** For texts below 4 GB the bound on the fronts is exact: a longer front is a negative `int`, whose copy is
      longer than the buffer, or its sum with the length of the pattern overflows. */
  lemma CopiesInsideIff(s: string, rep: string, with: string)
    requires rep != "" && SizesFit(s, rep, with) && |s| < UINT_MODULUS
    ensures CopiesInside(s, rep, with) <==> FrontsFit(s, rep)
  {
    hide Pieces, PiecesFrom, ReplaceAll, Weave, StepInside, Matches;
    var ps := Pieces(s, rep);
    PiecesIs(s, rep);
    ReplaceIsWeave(s, rep, with);
    ReplaceLength(s, rep, with);
    var size := |ReplaceAll(s, rep, with)| + 1;
    forall k | 0 <= k < |ps| - 1 ensures StepInside(|ps[k]|, |rep|, size) <==> |ps[k]| + |rep| <= INT_MAX {
      PieceInWeave(ps, rep, k);
      PieceInWeave(ps, with, k);
      StepInsideIff(|ps[k]|, |rep|, size);
    }
  }

  /** Each step copies exactly the part in front of its match and moves the cursor exactly behind the match. */
  ghost predicate StepsExact(s: string, rep: string)
    requires rep != ""
  {
    var ps := Pieces(s, rep);
    forall k :: 0 <= k < |ps| - 1 ==> CInt(|ps[k]|) == |ps[k]| && InInt(CInt(|ps[k]|) + CInt(|rep|))
  }

  /** For texts of any length the steps are exact if and only if the fronts fit. */
  lemma StepsExactIff(s: string, rep: string)
    requires 0 < |rep| <= INT_MAX
    ensures StepsExact(s, rep) <==> FrontsFit(s, rep)
  {
    hide Pieces, PiecesFrom, CInt;
    var ps := Pieces(s, rep);
    PiecesIs(s, rep);
    CIntIff(|rep|);
    forall k | 0 <= k < |ps| - 1
      ensures CInt(|ps[k]|) == |ps[k]| && InInt(CInt(|ps[k]|) + CInt(|rep|)) <==> |ps[k]| + |rep| <= INT_MAX
    {
      CIntIff(|ps[k]|);
    }
  }

  /** A text with one match has two pieces. */
  lemma OnlyMatch(t: string, rep: string, i: nat)
    requires rep != "" && OccursAt(t, rep, i) && forall j: nat :: OccursAt(t, rep, j) ==> j == i
    ensures Pieces(t, rep) == [t[0..i], t[i + |rep|..]]
  {
    hide FindFrom;
    assert FindFrom(t, rep, 0) == Some(i);
    assert FindFrom(t, rep, i + |rep|).None?;
    assert PiecesFrom(t, rep, i + |rep|) == [t[i + |rep|..]];
    assert PiecesFrom(t, rep, 0) == [t[0..i]] + PiecesFrom(t, rep, i + |rep|);
  }

  /** A text with `n` characters in front of its only match. */
  function Fronted(n: nat): string {
    seq(n, _ => 'a') + "x"
  }

  lemma FrontedPieces(n: nat)
    ensures |Fronted(n)| == n + 1
    ensures var ps := Pieces(Fronted(n), "x"); |ps| == 2 && |ps[0]| == n
  {
    hide PiecesFrom, Pieces;
    var s := Fronted(n);
    assert |s| == n + 1 && s[n] == 'x' && forall i :: 0 <= i < n ==> s[i] == 'a';
    forall j: nat | OccursAt(s, "x", j) ensures j == n {
      assert s[j] == s[j..j + 1][0] == 'x';
    }
    assert OccursAt(s, "x", n) by {
      assert s[n..n + 1] == "x";
    }
    OnlyMatch(s, "x", n);
  }

  lemma FrontedInsideIff(n: nat)
    requires n < UINT_MODULUS - 1
    ensures SizesFit(Fronted(n), "x", "y")
    ensures CopiesInside(Fronted(n), "x", "y") <==> n + 1 <= INT_MAX
  {
    hide PiecesFrom, Pieces, Fronted, CopiesInside;
    var s := Fronted(n);
    FrontedPieces(n);
    PiecesIs(s, "x");
    assert Matches(s, "x") == 1;
    CopiesInsideIff(s, "x", "y");
  }

  /** 2^31 characters in front of a match: the copy is longer than the buffer. */
  lemma LongFrontFails()
    ensures SizesFit(Fronted(INT_MAX + 1), "x", "y") && !CopiesInside(Fronted(INT_MAX + 1), "x", "y")
    ensures CSize(CInt(INT_MAX + 1)) > INT_MAX + 3
  {
    hide CopiesInside, SizesFit;
    FrontedInsideIff(INT_MAX + 1);
    CSizeOf(INT_MAX + 1);
  }

  /** One character less: the copy is exact, and the sum behind it overflows. */
  lemma BoundaryFrontFails()
    ensures SizesFit(Fronted(INT_MAX), "x", "y") && !CopiesInside(Fronted(INT_MAX), "x", "y")
    ensures CSize(CInt(INT_MAX)) == INT_MAX && CInt(CInt(INT_MAX) + CInt(1)) == -INT_MAX - 1
  {
    hide CopiesInside, SizesFit;
    FrontedInsideIff(INT_MAX);
  }

  lemma PiecesIs(s: string, rep: string)
    requires rep != ""
    ensures Pieces(s, rep) == PiecesFrom(s, rep, 0)
  {
  }

  lemma FrontsStep(s: string, rep: string, from: nat)
    requires rep != "" && from <= |s| && FrontsFitFrom(s, rep, from) && FindFrom(s, rep, from).Some?
    ensures var i := FindFrom(s, rep, from).value;
            i - from + |rep| <= INT_MAX && FrontsFitFrom(s, rep, i + |rep|)
  {
    hide FindFrom;
    var i := FindFrom(s, rep, from).value;
    var ps, rest := PiecesFrom(s, rep, from), PiecesFrom(s, rep, i + |rep|);
    assert ps == [s[from..i]] + rest;
    assert ps[0] == s[from..i];
    forall k | 0 <= k < |rest| - 1 ensures |rest[k]| + |rep| <= INT_MAX {
      assert rest[k] == ps[k + 1];
    }
  }

  /** `size_t` arithmetic wraps, and the wrapped sum is the exact size. */
  lemma WrappedSizeIsExact(n: int, p: int)
    requires 0 <= n + p && n + p + 1 < SIZE_MODULUS
    ensures (n + p % SIZE_MODULUS + 1) % SIZE_MODULUS == n + p + 1
  {
    var q := p / SIZE_MODULUS;
    assert p == SIZE_MODULUS * q + p % SIZE_MODULUS;
    assert n + p % SIZE_MODULUS + 1 == n + p + 1 - SIZE_MODULUS * q;
  }

  /** `strcpy`: every character, then the terminator. */
  method StrCpy(dst: array<char>, at: nat, src: string)
    requires at + |src| < dst.Length
    modifies dst
    ensures forall j :: 0 <= j < |src| ==> dst[at + j] == src[j]
    ensures dst[at + |src|] == '\0'
    ensures forall j :: 0 <= j < at || at + |src| < j < dst.Length ==> dst[j] == old(dst[j])
  {
    StrNCpy(dst, at, src, |src|);
    dst[at + |src|] := '\0';
  }

  /** `strncpy` with a count no larger than the source: that many characters and no terminator. */
  method StrNCpy(dst: array<char>, at: nat, src: string, n: nat)
    requires n <= |src| && at + n <= dst.Length
    modifies dst
    ensures forall j :: 0 <= j < n ==> dst[at + j] == src[j]
    ensures forall j :: 0 <= j < at || at + n <= j < dst.Length ==> dst[j] == old(dst[j])
  {
    for k := 0 to n
      invariant forall j :: 0 <= j < k ==> dst[at + j] == src[j]
      invariant forall j :: 0 <= j < at || at + k <= j < dst.Length ==> dst[j] == old(dst[j])
    {
      dst[at + k] := src[k];
    }
  }

  /** The counting pass. */
  method CountMatches(orig: string, rep: string) returns (count: nat)
    requires rep != ""
    ensures count == Matches(orig, rep)
  {
    count := 0;
    var ins: nat := 0;
    var tmp := FindFrom(orig, rep, ins);
    while tmp.Some?
      invariant ins <= |orig|
      invariant tmp == FindFrom(orig, rep, ins)
      invariant count + MatchesFrom(orig, rep, ins) == Matches(orig, rep)
      decreases |orig| - ins
    {
      ins := tmp.value + |rep|;
      tmp := FindFrom(orig, rep, ins);
      count := count + 1;
    }
  }

  /** `str_replace`. Every store, intermediate terminators included, is inside the buffer that was
      sized from the count of the first pass; a NULL original gives NULL. */
  method StrReplace(orig: Option<string>, rep: string, with: string) returns (result: array?<char>)
    requires rep != ""
    requires orig.Some? ==> FitsInt(orig.value, rep, with)
    ensures orig.None? <==> result == null
    ensures result != null ==> fresh(result) && result[..] == ReplaceAll(orig.value, rep, with) + ['\0']
  {
    if orig.None? {
      return null;
    }
    var s := orig.value;
    var count := CountMatches(s, rep);
    var size := MallocSize(s, rep, with, count);
    var buffer := new char[size];
    FillBuffer(buffer, s, rep, with, count);
    result := buffer;
  }

  /** The argument of `malloc`, in wrapping `size_t` arithmetic. */
  function MallocSize(s: string, rep: string, with: string, count: nat): (size: nat)
    requires rep != "" && count == Matches(s, rep) && FitsInt(s, rep, with)
    ensures size == |ReplaceAll(s, rep, with)| + 1
  {
    ReplaceLength(s, rep, with);
    WrappedSizeIsExact(|s|, (|with| - |rep|) * count);
    (|s| + (|with| - |rep|) * count % SIZE_MODULUS + 1) % SIZE_MODULUS
  }

  /** `tmp` characters of the goal are in the buffer. */
  ghost predicate Filled(buffer: array<char>, goal: string, tmp: nat)
    reads buffer
  {
    tmp <= |goal| <= buffer.Length && forall j :: 0 <= j < tmp ==> buffer[j] == goal[j]
  }

  /** The copying pass, with its lengths in `int` variables. */
  method FillBuffer(buffer: array<char>, s: string, rep: string, with: string, matches: nat)
    requires rep != "" && matches == Matches(s, rep) && FitsInt(s, rep, with)
    requires buffer.Length == |ReplaceAll(s, rep, with)| + 1
    modifies buffer
    ensures buffer[..] == ReplaceAll(s, rep, with) + ['\0']
  {
    hide FindFrom, FrontsFitFrom, CInt, CSize, ReplaceFrom, MatchesFrom;
    ghost var goal := ReplaceAll(s, rep, with);
    CSizeOf(|rep|);
    CSizeOf(|with|);
    var lenRep, lenWith := CInt(|rep|), CInt(|with|);
    var count := matches;
    var orig: nat, tmp: nat := 0, 0;
    while count > 0
      invariant orig <= |s| && Filled(buffer, goal, tmp) && FrontsFitFrom(s, rep, orig)
      invariant count == MatchesFrom(s, rep, orig)
      invariant goal[tmp..] == ReplaceFrom(s, rep, with, orig)
      decreases count
    {
      NextMatch(s, rep, with, orig);
      FrontsStep(s, rep, orig);
      var ins := FindFrom(s, rep, orig).value;
      CSizeOf(ins - orig);
      CSizeOf(ins - orig + |rep|);
      var lenFront := CInt(ins - orig);
      CopyStep(buffer, goal, tmp, s, orig, lenFront, with, ReplaceFrom(s, rep, with, ins + |rep|));
      tmp := tmp + lenFront + lenWith;
      orig := orig + CInt(lenFront + lenRep);
      count := count - 1;
    }
    NoMatch(s, rep, with, orig);
    FillRest(buffer, goal, tmp, s[orig..]);
  }

  lemma NextMatch(s: string, rep: string, with: string, from: nat)
    requires rep != "" && from <= |s| && MatchesFrom(s, rep, from) > 0
    ensures FindFrom(s, rep, from).Some?
    ensures var i := FindFrom(s, rep, from).value;
            && i + |rep| <= |s|
            && MatchesFrom(s, rep, from) == MatchesFrom(s, rep, i + |rep|) + 1
            && ReplaceFrom(s, rep, with, from) == s[from..i] + with + ReplaceFrom(s, rep, with, i + |rep|)
  {
    hide FindFrom;
  }

  lemma NoMatch(s: string, rep: string, with: string, from: nat)
    requires rep != "" && from <= |s| && MatchesFrom(s, rep, from) == 0
    ensures ReplaceFrom(s, rep, with, from) == s[from..]
  {
    hide FindFrom;
  }

  /** What is left of the original, with the terminator. */
  method FillRest(buffer: array<char>, ghost goal: string, tmp: nat, rest: string)
    requires Filled(buffer, goal, tmp) && buffer.Length == |goal| + 1 && goal[tmp..] == rest
    modifies buffer
    ensures buffer[..] == goal + ['\0']
  {
    StrCpy(buffer, tmp, rest);
    assert forall j :: tmp <= j < |goal| ==> goal[j] == goal[tmp..][j - tmp];
  }

  lemma GoalStep(goal: string, tmp: nat, front: string, with: string, tail: string)
    requires tmp <= |goal| && goal[tmp..] == front + with + tail
    ensures tmp + |front| + |with| <= |goal| && goal[tmp + |front| + |with|..] == tail
    ensures forall j :: tmp <= j < tmp + |front| ==> goal[j] == front[j - tmp]
    ensures forall j :: tmp + |front| <= j < tmp + |front| + |with| ==> goal[j] == with[j - tmp - |front|]
  {
    var left := goal[tmp..];
    assert |left| == |front| + |with| + |tail|;
    assert forall j :: tmp <= j < |goal| ==> goal[j] == left[j - tmp];
  }

  /** The part in front of a match, then the replacement with its terminator. */
  method CopyStep(buffer: array<char>, ghost goal: string, tmp: nat, s: string, orig: nat, lenFront: int,
                  with: string, ghost tail: string)
    requires 0 <= lenFront && orig + lenFront <= |s| && CSize(lenFront) == lenFront
    requires Filled(buffer, goal, tmp) && |goal| < buffer.Length
    requires goal[tmp..] == s[orig..orig + lenFront] + with + tail
    modifies buffer
    ensures Filled(buffer, goal, tmp + lenFront + |with|)
    ensures goal[tmp + lenFront + |with|..] == tail
  {
    GoalStep(goal, tmp, s[orig..orig + lenFront], with, tail);
    CopyFront(buffer, goal, tmp, s, orig, CSize(lenFront));
    CopyWith(buffer, goal, tmp + lenFront, with);
  }

  method CopyFront(buffer: array<char>, ghost goal: string, tmp: nat, s: string, orig: nat, n: nat)
    requires orig + n <= |s| && tmp + n <= |goal| < buffer.Length && Filled(buffer, goal, tmp)
    requires forall j :: tmp <= j < tmp + n ==> goal[j] == s[orig..orig + n][j - tmp]
    modifies buffer
    ensures Filled(buffer, goal, tmp + n)
  {
    StrNCpy(buffer, tmp, s[orig..], n);
  }

  method CopyWith(buffer: array<char>, ghost goal: string, tmp: nat, with: string)
    requires tmp + |with| <= |goal| < buffer.Length && Filled(buffer, goal, tmp)
    requires forall j :: tmp <= j < tmp + |with| ==> goal[j] == with[j - tmp]
    modifies buffer
    ensures Filled(buffer, goal, tmp + |with|)
  {
    StrCpy(buffer, tmp, with);
  }
}
