/** Attribute by attribute: what a bulk submission stores for one of its jobs, in the texts that the expansion
    looks for and puts in. */
module StoredPaths {
  import opened Strings
  import opened Replace
  import opened Placeholders
  import opened ListCodec
  import opened Tables
  import opened BulkIndices
  import opened Bulk
  import opened PathSizes
  import opened Submission
  import IndexTwo

  // ---------------------------------------------------------------- a template row

  /** A list attribute and the text column that it is stored in. */
  predicate ColumnHolds(column: Option<string>, items: Option<seq<string>>) {
    match items
    case None => column == None
    case Some(l) => if l == [] then column == None else column.Some? && column == Join(l, '|')
  }

  /** The attributes of a template that a bulk submission does not expand. */
  predicate OthersStored(row: TemplateRow, t: Template) {
    && row.plain.remoteCommand == t.remoteCommand && row.plain.jobCategory == t.jobCategory
    && row.plain.emailOnStarted == t.emailOnStarted && row.plain.emailOnTerminated == t.emailOnTerminated
    && row.plain.maxSlots == t.maxSlots && row.plain.accountingId == t.accountingId
    && row.plain.deadlineTime == CInt(t.deadlineTime)
    && ColumnHolds(row.args, t.args) && ColumnHolds(row.email, t.email)
    && ColumnHolds(row.candidateMachines, t.candidateMachines)
  }

  /** A row as a single job or an array stores it: every attribute in the column of its name. */
  lemma StoredAsItIs(t: Template, sessionName: string)
    ensures var row := StoreTemplate(t, sessionName);
            && row.sessionName == sessionName && OthersStored(row, t)
            && row.plain.workingDirectory == t.workingDirectory && row.plain.inputPath == t.inputPath
            && row.plain.outputPath == t.outputPath && row.plain.errorPath == t.errorPath
  {
    hide CInt;
  }

  function TwoPasses(p: Option<string>, index: string): Option<string> {
    if p.None? then None
    else Some(ReplaceAll(ReplaceAll(p.value, "$DRMAA2_INDEX$", index), "$DRMAA2_HOME_DIR$", "~"))
  }

  function ThreePasses(p: Option<string>, index: string): Option<string> {
    var two := TwoPasses(p, index);
    if two.None? then None else Some(ReplaceAll(two.value, "$DRMAA2_WORKING_DIR$", "."))
  }

  /** The row of job `k` of a bulk submission: each path is what the passes for its index make of the same
      path of the caller's template, and every other attribute is the caller's. */
  lemma StoredAttributes(t: Template, sessionName: string, begin: nat, step: nat, n: nat, k: nat)
    requires k < n
    ensures var row, index := TemplateRows(t, sessionName, begin, step, n)[k], Decimal(begin + k * step);
            && row.sessionName == sessionName && OthersStored(row, t)
            && row.plain.workingDirectory == TwoPasses(t.workingDirectory, index)
            && row.plain.inputPath == ThreePasses(t.inputPath, index)
            && row.plain.outputPath == ThreePasses(t.outputPath, index)
            && row.plain.errorPath == ThreePasses(t.errorPath, index)
  {
    hide CInt, ReplaceAll;
    assert IndexAt(begin, step, k) == begin + k * step;
    StoredAsItIs(Expanded(t, IndexAt(begin, step, k)), sessionName);
  }

  /** A path without placeholders is stored unchanged, in the same attribute, for every index. */
  lemma PlainPathsAreKept(t: Template, sessionName: string, begin: nat, step: nat, n: nat, k: nat)
    requires k < n
    ensures var stored := TemplateRows(t, sessionName, begin, step, n)[k].plain;
            && (NoPlaceholder(t.workingDirectory) ==> stored.workingDirectory == t.workingDirectory)
            && (NoPlaceholder(t.inputPath) ==> stored.inputPath == t.inputPath)
            && (NoPlaceholder(t.outputPath) ==> stored.outputPath == t.outputPath)
            && (NoPlaceholder(t.errorPath) ==> stored.errorPath == t.errorPath)
  {
    hide TemplateRows, TwoPasses, ThreePasses, NoPlaceholder;
    StoredAttributes(t, sessionName, begin, step, n, k);
    var index := Decimal(begin + k * step);
    PlainPathPasses(t.workingDirectory, index);
    PlainPathPasses(t.inputPath, index);
    PlainPathPasses(t.outputPath, index);
    PlainPathPasses(t.errorPath, index);
  }

  lemma PlainPathPasses(p: Option<string>, index: string)
    ensures NoPlaceholder(p) ==> TwoPasses(p, index) == p && ThreePasses(p, index) == p
  {
    hide Occurs, ReplaceAll;
    if p.Some? && NoPlaceholder(p) {
      NothingToReplace(p.value, INDEX, index);
      NothingToReplace(p.value, HOME_DIR, "~");
      NothingToReplace(p.value, WORKING_DIR, ".");
    }
  }

  // ---------------------------------------------------------------- one placeholder in plain text

  /** The only `$` of a placeholder are its first and its last character. */
  lemma DollarsOf(p: string, j: nat)
    requires IsPlaceholder(p) && j < |p|
    ensures p[j] == '$' <==> j == 0 || j == |p| - 1
  {
    if p == INDEX {
      IndexTwo.DollarsOfIndex(j);
    } else if p == HOME_DIR {
      IndexTwo.DollarsOfHome(j);
    } else {
      IndexTwo.DollarsOfWorking(j);
    }
  }

  lemma PlaceholderLengths(p: string, q: string)
    requires IsPlaceholder(p) && IsPlaceholder(q)
    ensures |p| > 2 && |q| > 2 && (|p| == |q| <==> p == q)
  {
    assert |INDEX| == 14 && |HOME_DIR| == 17 && |WORKING_DIR| == 20;
  }

  /** The `$` of a text with one placeholder are those of the placeholder. */
  lemma DollarsAround(a: string, p: string, z: string, i: nat)
    requires IsPlaceholder(p) && '$' !in a && '$' !in z && i < |a + p + z|
    ensures (a + p + z)[i] == '$' <==> i == |a| || i == |a| + |p| - 1
  {
    hide IsPlaceholder;
    PlaceholderLengths(p, p);
    if i < |a| {
      assert (a + p + z)[i] == a[i];
    } else if i < |a| + |p| {
      DollarsOf(p, i - |a|);
    } else {
      assert (a + p + z)[i] == z[i - |a| - |p|];
    }
  }

  /** Nothing but the placeholder itself is found in such a text, and only where it stands. */
  lemma OnlyThatOne(a: string, p: string, z: string, q: string, i: nat)
    requires IsPlaceholder(p) && IsPlaceholder(q) && '$' !in a && '$' !in z
    requires OccursAt(a + p + z, q, i)
    ensures i == |a| && p == q
  {
    hide IsPlaceholder;
    PlaceholderLengths(p, q);
    DollarsOf(q, 0);
    DollarsOf(q, |q| - 1);
    IndexTwo.Char(a + p + z, q, i, 0);
    IndexTwo.Char(a + p + z, q, i, |q| - 1);
    DollarsAround(a, p, z, i);
    DollarsAround(a, p, z, i + |q| - 1);
  }

  lemma StandsThere(a: string, p: string, z: string)
    ensures OccursAt(a + p + z, p, |a|)
  {
    assert (a + p + z)[|a|..|a| + |p|] == p;
  }

  /** A pass for that placeholder replaces it; a pass for another one changes nothing. */
  lemma OnePass(a: string, p: string, z: string, q: string, w: string)
    requires IsPlaceholder(p) && IsPlaceholder(q) && '$' !in a && '$' !in z
    ensures |q| > 0 && ReplaceAll(a + p + z, q, w) == if p == q then a + w + z else a + p + z
  {
    hide IsPlaceholder, OccursAt, ReplaceAll, Pieces;
    var s := a + p + z;
    PlaceholderLengths(p, q);
    if p == q {
      StandsThere(a, p, z);
      forall i: nat | OccursAt(s, q, i) ensures i == |a| {
        OnlyThatOne(a, p, z, q, i);
      }
      OnlyMatch(s, q, |a|);
      assert s[0..|a|] == a && s[|a| + |q|..] == z;
      ReplaceIsWeave(s, q, w);
      WeaveCons(a, [z], w);
      assert [a] + [z] == [a, z] && Weave([z], w) == z;
    } else {
      assert !Occurs(s, q) by {
        forall i: nat ensures !OccursAt(s, q, i) {
          if OccursAt(s, q, i) {
            OnlyThatOne(a, p, z, q, i);
          }
        }
      }
      NothingToReplace(s, q, w);
    }
  }

  lemma NoDollarNoPlaceholder(s: string)
    requires '$' !in s
    ensures NoPlaceholder(Some(s))
  {
    forall q: string, i: nat | IsPlaceholder(q) ensures !OccursAt(s, q, i) {
      if OccursAt(s, q, i) {
        DollarsOf(q, 0);
        IndexTwo.Char(s, q, i, 0);
      }
    }
  }

  lemma DigitsAreNoDollars(n: nat)
    ensures '$' !in Decimal(n)
  {
    assert !IsDigit('$');
  }

  /** What each placeholder stands for in a working directory: the index in digits, `~`, and nothing for
      its own placeholder, which is kept. */
  lemma DirectoryWithOne(a: string, z: string, index: nat)
    requires '$' !in a && '$' !in z
    ensures ExpandWorkingDirectory(a + "$DRMAA2_INDEX$" + z, index) == a + Decimal(index) + z
    ensures ExpandWorkingDirectory(a + "$DRMAA2_HOME_DIR$" + z, index) == a + "~" + z
    ensures ExpandWorkingDirectory(a + "$DRMAA2_WORKING_DIR$" + z, index) == a + "$DRMAA2_WORKING_DIR$" + z
  {
    hide ReplaceAll, Decimal;
    var digits := Decimal(index);
    assert IsPlaceholder(INDEX) && IsPlaceholder(HOME_DIR) && IsPlaceholder(WORKING_DIR);
    OnePass(a, INDEX, z, INDEX, digits);
    DigitsAreNoDollars(index);
    NoDollarNoPlaceholder(a + digits + z);
    NothingToReplace(a + digits + z, HOME_DIR, "~");
    OnePass(a, HOME_DIR, z, INDEX, digits);
    OnePass(a, HOME_DIR, z, HOME_DIR, "~");
    OnePass(a, WORKING_DIR, z, INDEX, digits);
    OnePass(a, WORKING_DIR, z, HOME_DIR, "~");
  }

  /** What each placeholder stands for in the other paths: the index in digits, `~` and `.`. */
  lemma PathWithOne(a: string, z: string, index: nat)
    requires '$' !in a && '$' !in z
    ensures ExpandPath(a + "$DRMAA2_INDEX$" + z, index) == a + Decimal(index) + z
    ensures ExpandPath(a + "$DRMAA2_HOME_DIR$" + z, index) == a + "~" + z
    ensures ExpandPath(a + "$DRMAA2_WORKING_DIR$" + z, index) == a + "." + z
  {
    hide ReplaceAll, Decimal, ExpandWorkingDirectory;
    var digits := Decimal(index);
    assert IsPlaceholder(WORKING_DIR);
    DirectoryWithOne(a, z, index);
    DigitsAreNoDollars(index);
    NoDollarNoPlaceholder(a + digits + z);
    NothingToReplace(a + digits + z, WORKING_DIR, ".");
    NoDollarNoPlaceholder(a + "~" + z);
    NothingToReplace(a + "~" + z, WORKING_DIR, ".");
    OnePass(a, WORKING_DIR, z, WORKING_DIR, ".");
  }

  // ---------------------------------------------------------------- what can be submitted

  predicate Short(p: Option<string>) {
    p.Some? ==> |p.value| <= 65536
  }

  /** What is enough for a bulk submission: an existing session, an accepted template with paths of usual
      length, a step, and a range that ends a step below 2^64. */
  lemma OrdinarySubmission(sessions: set<string>, supported: seq<string>, js: Session, t: Template,
                           begin: nat, end: nat, step: nat)
    requires js.name in sessions && (t.jobCategory.Some? ==> t.jobCategory.value in supported)
    requires t.email.None? && !t.emailOnStarted && !t.emailOnTerminated
    requires t.maxSlots == -1 && t.deadlineTime == -3 && t.accountingId.None?
    requires Short(t.workingDirectory) && Short(t.inputPath) && Short(t.outputPath) && Short(t.errorPath)
    requires begin <= end && step >= 1 && end + step < 18446744073709551616
    ensures Runnable(sessions, supported, js, t, begin, end, step)
  {
    hide PathFits, EndsAfter, Count, IndexAt;
    LoopEndsIff(begin, end, step);
    CountFits(begin, end, step, Count(begin, end, step) - 1);
    forall index: nat | begin <= index <= end ensures PathsFit(t, index) {
      ShortPathFits(t.workingDirectory.GetOr(""), index);
      ShortPathFits(t.inputPath.GetOr(""), index);
      ShortPathFits(t.outputPath.GetOr(""), index);
      ShortPathFits(t.errorPath.GetOr(""), index);
    }
  }
}
