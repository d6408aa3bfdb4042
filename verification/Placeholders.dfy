/** Expansion of the placeholders of a bulk job's path attributes. */
module Placeholders {
  import opened Strings
  import opened Replace

  const INDEX := "$DRMAA2_INDEX$"
  const HOME_DIR := "$DRMAA2_HOME_DIR$"
  const WORKING_DIR := "$DRMAA2_WORKING_DIR$"

  /** What the bulk loop makes of the working directory for one job index. */
  function ExpandWorkingDirectory(s: string, index: nat): string {
    ReplaceAll(ReplaceAll(s, INDEX, Decimal(index)), HOME_DIR, "~")
  }

  /** What the bulk loop makes of the input, output and error path for one job index. */
  function ExpandPath(s: string, index: nat): string {
    ReplaceAll(ExpandWorkingDirectory(s, index), WORKING_DIR, ".")
  }

  // ---------------------------------------------------------------- what survives a pass

  /** No occurrence of `p` can reach into or around an inserted `w`. */
  ghost predicate Foreign(w: string, p: string) {
    w != "" && p != "" && p[0] !in w && p[|p| - 1] !in w && !Occurs(p, w)
  }

  ghost predicate SomePieceHolds(ps: seq<string>, p: string) {
    exists k :: 0 <= k < |ps| && Occurs(ps[k], p)
  }

  lemma OccursAroundInsertion(a: string, w: string, z: string, p: string)
    requires Foreign(w, p)
    ensures Occurs(a + w + z, p) <==> Occurs(a, p) || Occurs(z, p)
  {
    var t := a + w + z;
    if Occurs(a, p) {
      OccursInPart("", a, w + z, p);
      assert "" + a + (w + z) == t;
    }
    if Occurs(z, p) {
      OccursInPart(a + w, z, "", p);
      assert a + w + z + "" == t;
    }
    if Occurs(t, p) {
      var i: nat :| OccursAt(t, p, i);
      OccurrenceMissesInsertion(a, w, z, p, i);
    }
  }

  lemma OccurrenceMissesInsertion(a: string, w: string, z: string, p: string, i: nat)
    requires w != "" && p != "" && OccursAt(a + w + z, p, i)
    ensures || OccursAt(a, p, i)
            || (i >= |a| + |w| && OccursAt(z, p, i - |a| - |w|))
            || p[0] in w || p[|p| - 1] in w || Occurs(p, w)
  {
    var t := a + w + z;
    assert forall j :: i <= j < i + |p| ==> t[i..i + |p|][j - i] == t[j];
    assert forall j :: i <= j < i + |p| ==> p[j - i] == t[j];
    if i + |p| <= |a| {
      assert a[i..i + |p|] == t[i..i + |p|];
    } else if i >= |a| + |w| {
      assert z[i - |a| - |w|..i - |a| - |w| + |p|] == t[i..i + |p|];
    } else if i >= |a| {
      assert t[i] == w[i - |a|];
    } else if i + |p| <= |a| + |w| {
      assert t[i + |p| - 1] == w[i + |p| - 1 - |a|];
    } else {
      var at := |a| - i;
      assert p[at..at + |w|] == t[|a|..|a| + |w|] == w;
      assert OccursAt(p, w, at);
    }
  }

  /** Exactly what a pass leaves: an occurrence of `p` after the pass is one that lay
      inside a piece between two matches before it. */
  lemma {:induction false} SurvivesFromIff(s: string, rep: string, w: string, p: string, from: nat)
    requires rep != "" && Foreign(w, p) && from <= |s|
    ensures Occurs(ReplaceFrom(s, rep, w, from), p) <==> SomePieceHolds(PiecesFrom(s, rep, from), p)
    decreases |s| - from
  {
    hide FindFrom, Occurs, Foreign;
    match FindFrom(s, rep, from)
    case None =>
      assert PiecesFrom(s, rep, from)[0] == ReplaceFrom(s, rep, w, from);
    case Some(i) =>
      var rest := PiecesFrom(s, rep, i + |rep|);
      SurvivesFromIff(s, rep, w, p, i + |rep|);
      OccursAroundInsertion(s[from..i], w, ReplaceFrom(s, rep, w, i + |rep|), p);
      assert PiecesFrom(s, rep, from) == [s[from..i]] + rest;
      HoldsCons(s[from..i], rest, p);
  }

  lemma HoldsCons(a: string, ps: seq<string>, p: string)
    ensures SomePieceHolds([a] + ps, p) <==> Occurs(a, p) || SomePieceHolds(ps, p)
  {
    hide Occurs;
    var all := [a] + ps;
    assert all[0] == a;
    assert forall k :: 0 <= k < |ps| ==> all[k + 1] == ps[k];
    assert forall k :: 1 <= k < |all| ==> all[k] == ps[k - 1];
  }

  lemma SurvivesIff(s: string, rep: string, w: string, p: string)
    requires rep != "" && Foreign(w, p)
    ensures Occurs(ReplaceAll(s, rep, w), p) <==> SomePieceHolds(Pieces(s, rep), p)
  {
    SurvivesFromIff(s, rep, w, p, 0);
  }

  lemma {:induction false} PieceIsPart(s: string, rep: string, from: nat, k: nat, p: string)
    requires rep != "" && from <= |s| && k < |PiecesFrom(s, rep, from)|
    requires Occurs(PiecesFrom(s, rep, from)[k], p)
    ensures Occurs(s, p)
    decreases k
  {
    hide FindFrom;
    var hi := match FindFrom(s, rep, from) case None => |s| case Some(i) => i;
    if k == 0 {
      assert PiecesFrom(s, rep, from)[0] == s[from..hi];
      var i: nat :| OccursAt(s[from..hi], p, i);
      OccursInSlice(s, from, hi, p, i);
    } else {
      PieceIsPart(s, rep, hi + |rep|, k - 1, p);
    }
  }

  /** A pass with a foreign replacement creates no placeholder and leaves none of its own. */
  lemma PassIsClean(s: string, rep: string, w: string, p: string)
    requires rep != "" && Foreign(w, p)
    ensures Occurs(ReplaceAll(s, rep, w), p) ==> Occurs(s, p) && p != rep
  {
    SurvivesIff(s, rep, w, p);
    if Occurs(ReplaceAll(s, rep, w), p) {
      var k :| 0 <= k < |Pieces(s, rep)| && Occurs(Pieces(s, rep)[k], p);
      PieceIsPart(s, rep, 0, k, p);
      PiecesAreLeftmost(s, rep, 0, k);
    }
  }

  // ---------------------------------------------------------------- the three placeholders

  predicate IsPlaceholder(p: string) {
    p == INDEX || p == HOME_DIR || p == WORKING_DIR
  }

  /** The only digit of a placeholder is the 2 of its prefix. */
  lemma OnlyDigit(p: string, j: nat)
    requires IsPlaceholder(p) && j < |p|
    ensures IsDigit(p[j]) <==> j == 6
  {
    assert |INDEX| == 14 && |HOME_DIR| == 17 && |WORKING_DIR| == 20;
    if p == INDEX {
    } else if p == HOME_DIR {
    } else {
    }
  }

  lemma DigitsAroundTheDigit(p: string, w: string, d: nat)
    requires d < |p| && forall j :: 0 <= j < |p| && IsDigit(p[j]) ==> j == d
    requires w != "" && AllDigits(w) && Occurs(p, w)
    ensures w == [p[d]]
  {
    var i: nat :| OccursAt(p, w, i);
    assert w == p[i..i + |w|];
    assert p[i] == w[0] && p[i + |w| - 1] == w[|w| - 1];
    assert i == d && |w| == 1;
  }

  lemma DigitsInPlaceholder(p: string, w: string)
    requires IsPlaceholder(p) && w != "" && AllDigits(w) && Occurs(p, w)
    ensures w == "2"
  {
    hide AllDigits, Occurs;
    forall j | 0 <= j < |p| && IsDigit(p[j]) ensures j == 6 {
      OnlyDigit(p, j);
    }
    DigitsAroundTheDigit(p, w, 6);
  }

  lemma IndexIsForeign(p: string, index: nat)
    requires IsPlaceholder(p) && index != 2
    ensures Foreign(Decimal(index), p)
  {
    OnlyDigit(p, 0);
    OnlyDigit(p, |p| - 1);
    if Occurs(p, Decimal(index)) {
      DigitsInPlaceholder(p, Decimal(index));
      OnlyTwoPrintsTwo(index);
    }
  }

  lemma OnlyTwoPrintsTwo(index: nat)
    requires Decimal(index) == "2"
    ensures index == 2
  {
    assert Decimal(2) == "2";
    DecimalInjective(index, 2);
  }

  lemma TildeAndDotAreForeign(p: string)
    requires IsPlaceholder(p)
    ensures Foreign("~", p) && Foreign(".", p)
  {
    NotIn(p, '~');
    NotIn(p, '.');
  }

  lemma NotIn(p: string, c: char)
    requires IsPlaceholder(p) && c in "~."
    ensures Foreign([c], p)
  {
    assert |INDEX| == 14 && |HOME_DIR| == 17 && |WORKING_DIR| == 20;
    assert c !in INDEX && c !in HOME_DIR && c !in WORKING_DIR;
    SingleCharacter(p, c);
  }

  lemma SingleCharacter(p: string, c: char)
    ensures Occurs(p, [c]) ==> c in p
  {
    forall i: nat | OccursAt(p, [c], i) ensures p[i] == c {
      assert p[i..i + 1][0] == p[i];
    }
  }

  /** The `~` and `.` passes never create a placeholder, for any text they are given. */
  lemma LaterPassesCreateNone(t: string, p: string)
    requires IsPlaceholder(p)
    ensures Occurs(ReplaceAll(t, HOME_DIR, "~"), p) ==> Occurs(t, p) && p != HOME_DIR
    ensures Occurs(ReplaceAll(t, WORKING_DIR, "."), p) ==> Occurs(t, p) && p != WORKING_DIR
  {
    TildeAndDotAreForeign(p);
    PassIsClean(t, HOME_DIR, "~", p);
    PassIsClean(t, WORKING_DIR, ".", p);
  }

  /** The expanded working directory holds no HOME_DIR, and no INDEX unless the index is 2. */
  lemma WorkingDirectoryIsClean(s: string, index: nat)
    ensures !Occurs(ExpandWorkingDirectory(s, index), HOME_DIR)
    ensures index != 2 ==> !Occurs(ExpandWorkingDirectory(s, index), INDEX)
  {
    var t := ReplaceAll(s, INDEX, Decimal(index));
    LaterPassesCreateNone(t, HOME_DIR);
    LaterPassesCreateNone(t, INDEX);
    if index != 2 {
      IndexIsForeign(INDEX, index);
      PassIsClean(s, INDEX, Decimal(index), INDEX);
    }
  }

  /** The other expanded paths hold no HOME_DIR and no WORKING_DIR, and no INDEX unless the index is 2. */
  lemma PathIsClean(s: string, index: nat)
    ensures !Occurs(ExpandPath(s, index), HOME_DIR) && !Occurs(ExpandPath(s, index), WORKING_DIR)
    ensures index != 2 ==> !Occurs(ExpandPath(s, index), INDEX)
  {
    var t := ExpandWorkingDirectory(s, index);
    WorkingDirectoryIsClean(s, index);
    LaterPassesCreateNone(t, HOME_DIR);
    LaterPassesCreateNone(t, WORKING_DIR);
    LaterPassesCreateNone(t, INDEX);
  }

  // ---------------------------------------------------------------- job index 2

  const HEAD := "$DRMAA"
  const TAIL := "_INDEX$"

  predicate EndsWith(s: string, x: string) {
    |x| <= |s| && s[|s| - |x|..] == x
  }

  predicate StartsWith(s: string, x: string) {
    |x| <= |s| && s[..|x|] == x
  }

  /** Around a cut that the scan made stand the two halves of a placeholder. */
  predicate IsSeam(ps: seq<string>, k: nat) {
    k + 1 < |ps| && EndsWith(ps[k], HEAD) && StartsWith(ps[k + 1], TAIL)
  }

  predicate HasSeam(ps: seq<string>) {
    exists k: nat :: k < |ps| && IsSeam(ps, k)
  }

  lemma SeamFormsIndex(a: string, z: string)
    requires EndsWith(a, HEAD) && StartsWith(z, TAIL)
    ensures Occurs(a + "2" + z, INDEX)
  {
    var t := a + "2" + z;
    assert a == a[..|a| - 6] + HEAD && z == TAIL + z[7..];
    assert t == a[..|a| - 6] + INDEX + z[7..];
    OccursInPart(a[..|a| - 6], INDEX, z[7..], INDEX) by {
      assert OccursAt(INDEX, INDEX, 0);
    }
  }

  lemma OccursAroundTwo(a: string, z: string, i: nat)
    requires OccursAt(a + "2" + z, INDEX, i)
    ensures || OccursAt(a, INDEX, i)
            || (i >= |a| + 1 && OccursAt(z, INDEX, i - |a| - 1))
            || (i + 6 == |a| && EndsWith(a, HEAD) && StartsWith(z, TAIL))
  {
    var t := a + "2" + z;
    assert |INDEX| == 14;
    if i + 14 <= |a| {
      assert a[i..i + 14] == t[i..i + 14];
    } else if i >= |a| + 1 {
      assert z[i - |a| - 1..i - |a| - 1 + 14] == t[i..i + 14];
    } else {
      var at := |a| - i;
      assert INDEX[at] == t[i..i + 14][at] == t[|a|] == '2';
      OnlyDigit(INDEX, at);
      assert a[|a| - 6..] == t[i..|a|] == t[i..i + 14][..6];
      assert z[..7] == t[|a| + 1..i + 14] == t[i..i + 14][7..];
      assert INDEX[..6] == HEAD && INDEX[7..] == TAIL;
    }
  }

  lemma OccursAroundTwoIff(a: string, z: string)
    ensures Occurs(a + "2" + z, INDEX) <==>
            Occurs(a, INDEX) || Occurs(z, INDEX) || (EndsWith(a, HEAD) && StartsWith(z, TAIL))
  {
    var t := a + "2" + z;
    if Occurs(t, INDEX) {
      var i: nat :| OccursAt(t, INDEX, i);
      OccursAroundTwo(a, z, i);
    }
    if Occurs(a, INDEX) {
      OccursInPart("", a, "2" + z, INDEX);
      assert "" + a + ("2" + z) == t;
    }
    if Occurs(z, INDEX) {
      OccursInPart(a + "2", z, "", INDEX);
      assert a + "2" + z + "" == t;
    }
    if EndsWith(a, HEAD) && StartsWith(z, TAIL) {
      SeamFormsIndex(a, z);
    }
  }

  /** The tail of a placeholder holds no 2, so it cannot begin in a piece and end behind the cut. */
  lemma WeaveStart(ps: seq<string>)
    requires ps != []
    ensures StartsWith(Weave(ps, "2"), TAIL) <==> StartsWith(ps[0], TAIL)
  {
    var t := Weave(ps, "2");
    if |ps| > 1 {
      assert t == ps[0] + "2" + Weave(ps[1..], "2");
      if |ps[0]| < 7 <= |t| {
        assert t[..7][|ps[0]|] == '2';
      } else if |ps[0]| >= 7 {
        assert t[..7] == ps[0][..7];
      }
    }
  }

  lemma SeamCons(a: string, ps: seq<string>)
    requires ps != []
    ensures HasSeam([a] + ps) <==> HasSeam(ps) || (EndsWith(a, HEAD) && StartsWith(ps[0], TAIL))
  {
    hide EndsWith, StartsWith;
    var all := [a] + ps;
    assert forall k: nat :: k < |ps| ==> all[k + 1] == ps[k];
    if HasSeam(ps) {
      var k: nat :| k < |ps| && IsSeam(ps, k);
      assert IsSeam(all, k + 1);
    }
    if EndsWith(a, HEAD) && StartsWith(ps[0], TAIL) {
      assert IsSeam(all, 0);
    }
    if HasSeam(all) {
      var k: nat :| k < |all| && IsSeam(all, k);
      assert k > 0 ==> IsSeam(ps, k - 1);
    }
  }

  lemma {:induction false} WeaveTwoIff(ps: seq<string>)
    requires ps != []
    ensures Occurs(Weave(ps, "2"), INDEX) <==> HasSeam(ps) || SomePieceHolds(ps, INDEX)
  {
    hide Occurs, EndsWith, StartsWith;
    if |ps| == 1 {
      assert ps == [ps[0]] + [];
      HoldsCons(ps[0], [], INDEX);
    } else {
      assert ps == [ps[0]] + ps[1..];
      WeaveTwoIff(ps[1..]);
      WeaveStart(ps[1..]);
      OccursAroundTwoIff(ps[0], Weave(ps[1..], "2"));
      HoldsCons(ps[0], ps[1..], INDEX);
      SeamCons(ps[0], ps[1..]);
    }
  }

  /** Job index 2 forms a fresh INDEX exactly when two neighbouring pieces of the template,
      between the matches its scan consumes, end and begin with the halves of the placeholder. */
  lemma IndexTwoFormsIndexIff(s: string)
    ensures Occurs(ReplaceAll(s, INDEX, Decimal(2)), INDEX) <==> HasSeam(Pieces(s, INDEX))
  {
    hide Occurs, HasSeam, FindFrom;
    var ps := Pieces(s, INDEX);
    ReplaceIsWeave(s, INDEX, "2");
    WeaveTwoIff(ps);
    forall k | 0 <= k < |ps| ensures !Occurs(ps[k], INDEX) {
      PiecesAreLeftmost(s, INDEX, 0, k);
    }
  }

  /** A pass that finds nothing changes nothing. */
  lemma NothingToReplace(s: string, rep: string, w: string)
    requires rep != "" && !Occurs(s, rep)
    ensures ReplaceAll(s, rep, w) == s
  {
    assert Find(s, rep).None?;
  }

  const WITNESS := "$DRMAA" + INDEX + "_INDEX$"

  lemma WitnessPieces()
    ensures Pieces(WITNESS, INDEX) == [HEAD, TAIL]
  {
    assert |WITNESS| == 27;
    forall i: nat | OccursAt(WITNESS, INDEX, i) ensures i >= 6 {
      assert WITNESS[i] == WITNESS[i..i + 14][0] == '$';
      assert WITNESS[i + 6] == WITNESS[i..i + 14][6] == '2';
    }
    assert OccursAt(WITNESS, INDEX, 6);
    assert FindFrom(WITNESS, INDEX, 0) == Some(6);
    assert FindFrom(WITNESS, INDEX, 20).None?;
    assert WITNESS[..6] == HEAD && WITNESS[20..] == TAIL;
    assert PiecesFrom(WITNESS, INDEX, 20) == [TAIL];
    assert PiecesFrom(WITNESS, INDEX, 0) == [WITNESS[0..6]] + PiecesFrom(WITNESS, INDEX, 20);
  }

  /** The template `$DRMAA$DRMAA2_INDEX$_INDEX$` keeps an INDEX through the whole expansion for job 2. */
  lemma WitnessKeepsIndex()
    ensures ExpandWorkingDirectory(WITNESS, 2) == INDEX && ExpandPath(WITNESS, 2) == INDEX
    ensures Occurs(INDEX, INDEX)
  {
    hide FindFrom, Occurs;
    WitnessPieces();
    ReplaceIsWeave(WITNESS, INDEX, "2");
    WeaveCons(HEAD, [TAIL], "2");
    assert Weave([HEAD] + [TAIL], "2") == HEAD + "2" + TAIL == INDEX;
    assert [HEAD] + [TAIL] == [HEAD, TAIL];
    assert Decimal(2) == "2";
    ShorterHoldsNone(INDEX, HOME_DIR);
    ShorterHoldsNone(INDEX, WORKING_DIR);
    NothingToReplace(INDEX, HOME_DIR, "~");
    NothingToReplace(INDEX, WORKING_DIR, ".");
    OccursInItself(INDEX);
  }

  lemma OccursInItself(p: string)
    ensures Occurs(p, p)
  {
    assert OccursAt(p, p, 0);
  }

  lemma ShorterHoldsNone(s: string, p: string)
    requires |s| < |p|
    ensures !Occurs(s, p)
  {
  }

  /** Expansion removes every placeholder from every template exactly for the indices other than 2. */
  lemma CleanForEveryTemplateIff(index: nat)
    ensures (forall s: string :: !Occurs(ExpandWorkingDirectory(s, index), INDEX)) <==> index != 2
    ensures (forall s: string :: !Occurs(ExpandPath(s, index), INDEX)) <==> index != 2
  {
    hide Occurs, ExpandWorkingDirectory, ExpandPath;
    if index == 2 {
      WitnessKeepsIndex();
    } else {
      forall s: string
        ensures !Occurs(ExpandWorkingDirectory(s, index), INDEX) && !Occurs(ExpandPath(s, index), INDEX)
      {
        WorkingDirectoryIsClean(s, index);
        PathIsClean(s, index);
      }
    }
  }
}
