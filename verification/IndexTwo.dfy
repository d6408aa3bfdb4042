/** Job index 2: which INDEX placeholders survive the whole expansion of a path. The index pass forms one
    at each seam of the template; a later pass takes its first or last `$` away exactly when it
    consumes a match that shares this character. */
module IndexTwo {
  import opened Strings
  import opened Replace
  import opened Placeholders

  /** A pass behind the index pass, with what it inserts. */
  predicate LaterPass(rep: string, w: string) {
    (rep == HOME_DIR && w == "~") || (rep == WORKING_DIR && w == ".")
  }

  /** How many matches, each sharing its last `$` with the next, end at the character `p` of the text. */
  function ChainFrom(t: string, rep: string, from: nat, p: nat): nat
    requires |rep| > 1
    decreases p
  {
    var m := |rep| - 1;
    if p >= from + m && OccursAt(t, rep, p - m) then 1 + ChainFrom(t, rep, from, p - m) else 0
  }

  /** The placeholder at `p` loses neither of its `$`: no match begins with its last one, and of the
      chain of matches that ends with its first one, the scan consumes every other and not the last. */
  predicate SparedFrom(t: string, rep: string, from: nat, p: nat)
    requires |rep| > 1
  {
    !OccursAt(t, rep, p + |INDEX| - 1) && ChainFrom(t, rep, from, p) % 2 == 0
  }

  predicate Spared(t: string, rep: string, p: nat)
    requires |rep| > 1
  {
    SparedFrom(t, rep, 0, p)
  }

  /** Where a pass puts the character `p` of the text. */
  function ImageFrom(t: string, rep: string, w: string, from: nat, p: nat): nat
    requires rep != "" && from <= |t| && from <= p
    decreases |t| - from
  {
    match FindFrom(t, rep, from)
    case None => p - from
    case Some(i) => if p < i + |rep| then p - from else i - from + |w| + ImageFrom(t, rep, w, i + |rep|, p)
  }

  function Image(t: string, rep: string, w: string, p: nat): nat
    requires rep != ""
  {
    ImageFrom(t, rep, w, 0, p)
  }

  // ---------------------------------------------------------------- overlaps

  lemma DollarsOfIndex(j: nat)
    requires j < |INDEX|
    ensures INDEX[j] == '$' <==> j == 0 || j == 13
  {
  }

  lemma DollarsOfHome(j: nat)
    requires j < |HOME_DIR|
    ensures HOME_DIR[j] == '$' <==> j == 0 || j == |HOME_DIR| - 1
  {
  }

  lemma DollarsOfWorking(j: nat)
    requires j < |WORKING_DIR|
    ensures WORKING_DIR[j] == '$' <==> j == 0 || j == |WORKING_DIR| - 1
  {
  }

  lemma Dollars(rep: string, w: string, j: nat)
    requires LaterPass(rep, w) && j < |rep|
    ensures rep[j] == '$' <==> j == 0 || j == |rep| - 1
  {
    if rep == HOME_DIR {
      DollarsOfHome(j);
    } else {
      DollarsOfWorking(j);
    }
  }

  lemma Char(t: string, p: string, i: nat, j: nat)
    requires OccursAt(t, p, i) && j < |p|
    ensures i + j < |t| && t[i + j] == p[j]
  {
    assert t[i..i + |p|][j] == t[i + j];
  }

  /** A match and a placeholder overlap in one `$` or not at all. */
  lemma Overlap(t: string, rep: string, w: string, i: nat, p: nat)
    requires LaterPass(rep, w) && OccursAt(t, rep, i) && OccursAt(t, INDEX, p)
    ensures p + 14 <= i || p + 13 == i || p == i + |rep| - 1 || p >= i + |rep|
  {
    if p < i < p + 14 {
      Char(t, rep, i, 0);
      Char(t, INDEX, p, i - p);
      DollarsOfIndex(i - p);
    } else if i <= p < i + |rep| {
      Char(t, INDEX, p, 0);
      Char(t, rep, i, p - i);
      Dollars(rep, w, p - i);
      if p == i {
        Char(t, rep, i, 8);
        Char(t, INDEX, p, 8);
      }
    }
  }

  lemma SelfOverlap(t: string, rep: string, w: string, i: nat, q: nat)
    requires LaterPass(rep, w) && OccursAt(t, rep, i) && OccursAt(t, rep, q) && i <= q
    ensures q == i || q == i + |rep| - 1 || q >= i + |rep|
  {
    if q < i + |rep| {
      Char(t, rep, q, 0);
      Char(t, rep, i, q - i);
      Dollars(rep, w, q - i);
    }
  }

  // ---------------------------------------------------------------- chains and the scan

  lemma ChainBeforeFirst(t: string, rep: string, from: nat, p: nat)
    requires |rep| > 1 && from <= |t|
    requires FindFrom(t, rep, from).None? || p < FindFrom(t, rep, from).value + |rep| - 1
    ensures ChainFrom(t, rep, from, p) == 0
  {
  }

  lemma ChainAtFirst(t: string, rep: string, from: nat)
    requires |rep| > 1 && from <= |t| && FindFrom(t, rep, from).Some?
    ensures ChainFrom(t, rep, from, FindFrom(t, rep, from).value + |rep| - 1) == 1
  {
    ChainBeforeFirst(t, rep, from, FindFrom(t, rep, from).value);
  }

  /** Behind the first match a chain is as odd or even as one that is counted from there. */
  lemma {:induction false} ChainParity(t: string, rep: string, w: string, from: nat, i: nat, p: nat)
    requires LaterPass(rep, w) && from <= |t| && FindFrom(t, rep, from) == Some(i) && p >= i + |rep|
    ensures ChainFrom(t, rep, from, p) % 2 == ChainFrom(t, rep, i + |rep|, p) % 2
    decreases p
  {
    hide FindFrom, LaterPass;
    assert |rep| > 1 by { Long(rep, w); }
    var q := p - (|rep| - 1);
    if OccursAt(t, rep, q) {
      SelfOverlap(t, rep, w, i, q);
      if q >= i + |rep| {
        ChainParity(t, rep, w, from, i, q);
      } else {
        ChainAtFirst(t, rep, from);
      }
    }
  }

  lemma Long(rep: string, w: string)
    requires LaterPass(rep, w)
    ensures |rep| > 14 && |w| == 1
  {
  }

  /** A spared placeholder lies in front of the first match or behind it. */
  lemma SparedMissesFirst(t: string, rep: string, w: string, from: nat, p: nat)
    requires LaterPass(rep, w) && from <= |t| && FindFrom(t, rep, from).Some? && OccursAt(t, INDEX, p)
    requires |rep| > 1 && SparedFrom(t, rep, from, p)
    ensures var i := FindFrom(t, rep, from).value; p + 14 <= i || p >= i + |rep|
  {
    hide FindFrom, LaterPass, ChainFrom;
    Overlap(t, rep, w, FindFrom(t, rep, from).value, p);
    ChainAtFirst(t, rep, from);
  }

  // ---------------------------------------------------------------- one pass

  lemma OccursInFront(a: string, z: string, p: string, q: nat)
    requires OccursAt(a, p, q)
    ensures OccursAt(a + z, p, q)
  {
    assert (a + z)[q..q + |p|] == a[q..q + |p|];
  }

  lemma OccursBehind(a: string, z: string, p: string, q: nat)
    requires OccursAt(z, p, q)
    ensures OccursAt(a + z, p, |a| + q)
  {
    assert (a + z)[|a| + q..|a| + q + |p|] == z[q..q + |p|];
  }

  lemma OccursInCut(t: string, lo: nat, hi: nat, p: string, i: nat)
    requires lo <= i && i + |p| <= hi <= |t| && OccursAt(t, p, i)
    ensures OccursAt(t[lo..hi], p, i - lo)
  {
    var u := t[lo..hi];
    assert forall k :: i <= k < i + |p| ==> u[k - lo] == t[k];
    assert u[i - lo..i - lo + |p|] == t[i..i + |p|];
  }

  /** A spared placeholder is found again where the pass puts it. */
  lemma {:induction false} PassKeeps(t: string, rep: string, w: string, from: nat, p: nat)
    requires LaterPass(rep, w) && |rep| > 1 && from <= |t| && from <= p
    requires OccursAt(t, INDEX, p) && SparedFrom(t, rep, from, p)
    ensures OccursAt(ReplaceFrom(t, rep, w, from), INDEX, ImageFrom(t, rep, w, from, p))
    decreases |t| - from
  {
    hide FindFrom, LaterPass, ChainFrom, OccursAt;
    assert |INDEX| == 14;
    match FindFrom(t, rep, from)
    case None =>
      Within(t, INDEX, p);
      OccursInCut(t, from, |t|, INDEX, p);
      assert t[from..|t|] == t[from..];
    case Some(i) =>
      Within(t, rep, i);
      SparedMissesFirst(t, rep, w, from, p);
      var a, z := t[from..i], ReplaceFrom(t, rep, w, i + |rep|);
      assert ReplaceFrom(t, rep, w, from) == a + w + z == a + (w + z);
      if p + 14 <= i {
        OccursInCut(t, from, i, INDEX, p);
        OccursInFront(a, w + z, INDEX, p - from);
      } else {
        ChainParity(t, rep, w, from, i, p);
        PassKeeps(t, rep, w, i + |rep|, p);
        OccursBehind(a + w, z, INDEX, ImageFrom(t, rep, w, i + |rep|, p));
      }
  }

  lemma Within(t: string, p: string, i: nat)
    requires OccursAt(t, p, i)
    ensures i + |p| <= |t|
  {
  }

  /** Every placeholder behind a pass was spared by it. */
  lemma {:induction false} PassLeaves(t: string, rep: string, w: string, from: nat, q: nat) returns (p: nat)
    requires LaterPass(rep, w) && |rep| > 1 && from <= |t|
    requires OccursAt(ReplaceFrom(t, rep, w, from), INDEX, q)
    ensures from <= p && OccursAt(t, INDEX, p) && SparedFrom(t, rep, from, p)
    ensures ImageFrom(t, rep, w, from, p) == q
    decreases |t| - from
  {
    hide FindFrom, LaterPass, ChainFrom, OccursAt;
    assert |INDEX| == 14;
    match FindFrom(t, rep, from)
    case None =>
      p := from + q;
      assert t[from..|t|] == t[from..];
      OccursInSlice(t, from, |t|, INDEX, q);
      ChainBeforeFirst(t, rep, from, p);
    case Some(i) =>
      Within(t, rep, i);
      var a, z := t[from..i], ReplaceFrom(t, rep, w, i + |rep|);
      Long(rep, w);
      InsertedIsForeign(rep, w);
      OccurrenceMissesInsertion(a, w, z, INDEX, q);
      if OccursAt(a, INDEX, q) {
        p := from + q;
        Within(a, INDEX, q);
        OccursInSlice(t, from, i, INDEX, q);
        ChainBeforeFirst(t, rep, from, p);
      } else {
        p := PassLeaves(t, rep, w, i + |rep|, q - |a| - |w|);
        ChainParity(t, rep, w, from, i, p);
      }
  }

  lemma InsertedIsForeign(rep: string, w: string)
    requires LaterPass(rep, w)
    ensures INDEX[0] !in w && INDEX[|INDEX| - 1] !in w && !Occurs(INDEX, w)
  {
    TildeAndDotAreForeign(INDEX);
  }

  // ---------------------------------------------------------------- seams

  /** Where the index pass forms a placeholder at a seam. */
  function SeamAt(ps: seq<string>, k: nat): nat
    requires IsSeam(ps, k)
    decreases k
  {
    if k == 0 then |ps[0]| - |HEAD| else |ps[0]| + 1 + (SeamBehind(ps, k); SeamAt(ps[1..], k - 1))
  }

  lemma SeamBehind(ps: seq<string>, k: nat)
    requires k > 0
    ensures IsSeam(ps, k) <==> ps != [] && IsSeam(ps[1..], k - 1)
  {
  }

  lemma {:induction false} SeamIsIndex(ps: seq<string>, k: nat)
    requires IsSeam(ps, k)
    ensures OccursAt(Weave(ps, "2"), INDEX, SeamAt(ps, k))
    decreases k
  {
    var rest := ps[1..];
    var z := Weave(rest, "2");
    assert Weave(ps, "2") == ps[0] + "2" + z;
    if k == 0 {
      WeaveStart(rest);
      SeamIsAt(ps[0], z);
    } else {
      SeamBehind(ps, k);
      SeamIsIndex(rest, k - 1);
      OccursBehind(ps[0] + "2", z, INDEX, SeamAt(rest, k - 1));
    }
  }

  lemma SeamIsAt(a: string, z: string)
    requires EndsWith(a, HEAD) && StartsWith(z, TAIL)
    ensures OccursAt(a + "2" + z, INDEX, |a| - |HEAD|)
  {
    var t := a + "2" + z;
    assert a == a[..|a| - 6] + HEAD && z == TAIL + z[7..];
    assert t == a[..|a| - 6] + INDEX + z[7..];
    assert t[|a| - 6..|a| - 6 + 14] == INDEX;
  }

  lemma {:induction false} IndexIsSeam(ps: seq<string>, p: nat) returns (k: nat)
    requires ps != [] && forall j :: 0 <= j < |ps| ==> !Occurs(ps[j], INDEX)
    requires OccursAt(Weave(ps, "2"), INDEX, p)
    ensures IsSeam(ps, k) && SeamAt(ps, k) == p
  {
    hide EndsWith, StartsWith;
    k := 0;
    if |ps| > 1 {
      var rest := ps[1..];
      var z := Weave(rest, "2");
      OccursAroundTwo(ps[0], z, p);
      if p >= |ps[0]| + 1 {
        k := IndexIsSeam(rest, p - |ps[0]| - 1);
        k := k + 1;
        SeamBehind(ps, k);
      } else {
        WeaveStart(rest);
      }
    }
  }

  // ---------------------------------------------------------------- the whole expansion

  /** The text behind the index pass of job 2. */
  function Indexed(s: string): string {
    ReplaceAll(s, INDEX, "2")
  }

  /** A seam of the template whose placeholder the HOME_DIR pass spares. */
  predicate SparedSeam(s: string, k: nat) {
    var ps := Pieces(s, INDEX);
    IsSeam(ps, k) && Spared(Indexed(s), HOME_DIR, SeamAt(ps, k))
  }

  /** A seam whose placeholder the WORKING_DIR pass spares as well, where the HOME_DIR pass has put it. */
  predicate TwiceSparedSeam(s: string, k: nat) {
    && SparedSeam(s, k)
    && Spared(ExpandWorkingDirectory(s, 2), WORKING_DIR,
              Image(Indexed(s), HOME_DIR, "~", SeamAt(Pieces(s, INDEX), k)))
  }

  lemma TwoIsTwo()
    ensures Decimal(2) == "2"
  {
  }

  /** The placeholders behind the index pass stand exactly at the seams. */
  lemma SeamToIndex(s: string, k: nat)
    requires IsSeam(Pieces(s, INDEX), k)
    ensures OccursAt(Indexed(s), INDEX, SeamAt(Pieces(s, INDEX), k))
  {
    hide FindFrom, OccursAt, IsSeam;
    ReplaceIsWeave(s, INDEX, "2");
    SeamIsIndex(Pieces(s, INDEX), k);
  }

  lemma IndexToSeam(s: string, p: nat) returns (k: nat)
    requires OccursAt(Indexed(s), INDEX, p)
    ensures IsSeam(Pieces(s, INDEX), k) && SeamAt(Pieces(s, INDEX), k) == p
  {
    hide FindFrom, OccursAt, Occurs, IsSeam;
    var ps := Pieces(s, INDEX);
    ReplaceIsWeave(s, INDEX, "2");
    forall j | 0 <= j < |ps| ensures !Occurs(ps[j], INDEX) {
      PiecesAreLeftmost(s, INDEX, 0, j);
    }
    k := IndexIsSeam(ps, p);
  }

  /** A seam that is spared, and where its placeholder stands in the expanded working directory. */
  lemma SeamToDirectory(s: string, k: nat)
    requires SparedSeam(s, k)
    ensures OccursAt(ExpandWorkingDirectory(s, 2), INDEX, Image(Indexed(s), HOME_DIR, "~", SeamAt(Pieces(s, INDEX), k)))
  {
    hide FindFrom, OccursAt, IsSeam, ChainFrom;
    TwoIsTwo();
    SeamToIndex(s, k);
    PassKeeps(Indexed(s), HOME_DIR, "~", 0, SeamAt(Pieces(s, INDEX), k));
  }

  lemma DirectoryToSeam(s: string, q: nat) returns (k: nat)
    requires OccursAt(ExpandWorkingDirectory(s, 2), INDEX, q)
    ensures SparedSeam(s, k) && Image(Indexed(s), HOME_DIR, "~", SeamAt(Pieces(s, INDEX), k)) == q
  {
    hide FindFrom, OccursAt, IsSeam, ChainFrom;
    TwoIsTwo();
    var p := PassLeaves(Indexed(s), HOME_DIR, "~", 0, q);
    k := IndexToSeam(s, p);
  }

  /** For job index 2 the expanded working directory holds an INDEX if and only if the template has a seam
      that the HOME_DIR pass spares. */
  lemma DirectoryKeepsIndexIff(s: string)
    ensures Occurs(ExpandWorkingDirectory(s, 2), INDEX) <==> exists k: nat :: SparedSeam(s, k)
  {
    hide OccursAt, SparedSeam, ExpandWorkingDirectory;
    var t := ExpandWorkingDirectory(s, 2);
    if Occurs(t, INDEX) {
      var q: nat :| OccursAt(t, INDEX, q);
      var k := DirectoryToSeam(s, q);
    }
    if k: nat :| SparedSeam(s, k) {
      SparedIsSeam(s, k);
      SeamToDirectory(s, k);
    }
  }

  lemma SparedIsSeam(s: string, k: nat)
    requires SparedSeam(s, k)
    ensures IsSeam(Pieces(s, INDEX), k)
  {
  }

  /** The same for the other three paths: a seam that both later passes spare. */
  lemma PathKeepsIndexIff(s: string)
    ensures Occurs(ExpandPath(s, 2), INDEX) <==> exists k: nat :: TwiceSparedSeam(s, k)
  {
    hide FindFrom, OccursAt, IsSeam, ChainFrom, ExpandWorkingDirectory, SparedFrom, SparedSeam;
    var t := ExpandWorkingDirectory(s, 2);
    if Occurs(ExpandPath(s, 2), INDEX) {
      var r: nat :| OccursAt(ExpandPath(s, 2), INDEX, r);
      var q := PassLeaves(t, WORKING_DIR, ".", 0, r);
      var k := DirectoryToSeam(s, q);
      assert TwiceSparedSeam(s, k);
    }
    if k: nat :| TwiceSparedSeam(s, k) {
      SparedIsSeam(s, k);
      SeamToDirectory(s, k);
      PassKeeps(t, WORKING_DIR, ".", 0, Image(Indexed(s), HOME_DIR, "~", SeamAt(Pieces(s, INDEX), k)));
    }
  }

  const REST := "DRMAA2_HOME_DIR$"
  const UNDONE := HEAD + INDEX + (TAIL + REST)

  lemma DollarsOfRest(j: nat)
    requires j < 23
    ensures (TAIL + REST)[j] == '$' <==> j == 6 || j == 22
  {
    assert (TAIL + REST)[j] == if j < 7 then TAIL[j] else REST[j - 7];
  }

  lemma DollarsOfHead(j: nat)
    requires j < 6
    ensures HEAD[j] == '$' <==> j == 0
  {
  }

  lemma DollarsOfUndone(j: nat)
    requires j < |UNDONE|
    ensures UNDONE[j] == '$' <==> j == 0 || j == 6 || j == 19 || j == 26 || j == 42
  {
    if j < 6 {
      DollarsOfHead(j);
    } else if j < 20 {
      assert UNDONE[j] == INDEX[j - 6];
      DollarsOfIndex(j - 6);
    } else {
      assert UNDONE[j] == (TAIL + REST)[j - 20];
      DollarsOfRest(j - 20);
    }
  }

  lemma UndonePieces()
    ensures Pieces(UNDONE, INDEX) == [HEAD, TAIL + REST]
  {
    assert OccursAt(UNDONE, INDEX, 6) by {
      assert UNDONE[6..20] == INDEX;
    }
    forall i: nat | OccursAt(UNDONE, INDEX, i) ensures i == 6 {
      Char(UNDONE, INDEX, i, 0);
      Char(UNDONE, INDEX, i, 13);
      DollarsOfUndone(i);
      DollarsOfUndone(i + 13);
    }
    OnlyMatch(UNDONE, INDEX, 6);
    assert UNDONE[0..6] == HEAD && UNDONE[20..] == TAIL + REST;
  }

  /** A template in which the index pass forms an INDEX that the HOME_DIR pass takes away again. */
  lemma HomeCanUndo()
    ensures Occurs(Indexed(UNDONE), INDEX) && !Occurs(ExpandWorkingDirectory(UNDONE, 2), INDEX)
  {
    hide FindFrom, Occurs, ExpandWorkingDirectory, IsSeam, ChainFrom, OccursAt;
    var ps := [HEAD, TAIL + REST];
    UndonePieces();
    OnlySeam();
    SeamToIndex(UNDONE, 0);
    IsThere(Indexed(UNDONE), INDEX, 0);
    IndexedUndone();
    forall k: nat ensures !SparedSeam(UNDONE, k) {
    }
    DirectoryKeepsIndexIff(UNDONE);
  }

  lemma IsThere(t: string, p: string, i: nat)
    requires OccursAt(t, p, i)
    ensures Occurs(t, p)
  {
  }

  lemma OnlySeam()
    ensures forall k: nat :: IsSeam([HEAD, TAIL + REST], k) <==> k == 0
    ensures SeamAt([HEAD, TAIL + REST], 0) == 0
  {
  }

  lemma IndexedUndone()
    ensures OccursAt(Indexed(UNDONE), HOME_DIR, 13)
  {
    hide FindFrom;
    UndonePieces();
    ReplaceIsWeave(UNDONE, INDEX, "2");
    var z := TAIL + REST;
    assert Weave([HEAD, z], "2") == HEAD + "2" + z by {
      WeaveCons(HEAD, [z], "2");
      assert [HEAD] + [z] == [HEAD, z];
    }
    assert HEAD + "2" + z == INDEX[..13] + HOME_DIR;
    assert (INDEX[..13] + HOME_DIR)[13..30] == HOME_DIR;
  }
}
