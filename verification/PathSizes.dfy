/** The sizes that `str_replace` computes in `int` and `size_t` when the bulk loop expands a path. */
module PathSizes {
  import opened Strings
  import opened Replace
  import opened Placeholders
  import T = Timestamps

  /** Each pass over the path stays within what C's arithmetic holds. */
  predicate PathFits(s: string, index: nat) {
    && FitsInt(s, INDEX, Decimal(index))
    && FitsInt(ReplaceAll(s, INDEX, Decimal(index)), HOME_DIR, "~")
    && FitsInt(ExpandWorkingDirectory(s, index), WORKING_DIR, ".")
  }

  lemma {:induction false} DecimalLength(n: nat, k: nat)
    requires k >= 1 && n < T.Bound(k)
    ensures |Decimal(n)| <= k
  {
    if n >= 10 {
      assert T.Bound(k) == 10 * T.Bound(k - 1);
      assert k > 1;
      DecimalLength(n / 10, k - 1);
    }
  }

  lemma IndexLength(index: nat)
    requires index < SIZE_MODULUS
    ensures |Decimal(index)| <= 20
  {
    assert T.Bound(20) == 100_000_000_000_000_000_000 by {
      T.Bounds();
      assert T.Bound(8) == 100_000_000 by {
        assert T.Bound(5) == 100_000 && T.Bound(6) == 1_000_000 && T.Bound(7) == 10_000_000;
      }
      assert T.Bound(12) == 1_000_000_000_000 by {
        assert T.Bound(9) == 1_000_000_000 && T.Bound(10) == 10_000_000_000 && T.Bound(11) == 100_000_000_000;
      }
      assert T.Bound(16) == 10_000_000_000_000_000 by {
        assert T.Bound(13) == 10_000_000_000_000 && T.Bound(14) == 100_000_000_000_000;
        assert T.Bound(15) == 1_000_000_000_000_000;
      }
      assert T.Bound(17) == 100_000_000_000_000_000 && T.Bound(18) == 1_000_000_000_000_000_000;
      assert T.Bound(19) == 10_000_000_000_000_000_000;
    }
    DecimalLength(index, 20);
  }

  /** Matches do not overlap. */
  lemma MatchesBound(s: string, rep: string)
    requires rep != ""
    ensures Matches(s, rep) * |rep| <= |s| && Matches(s, rep) <= |s|
  {
    hide Matches, ReplaceAll;
    ReplaceLength(s, rep, "");
    Times(Matches(s, rep), |rep|);
  }

  lemma Times(m: nat, r: nat)
    requires r > 0
    ensures (0 - r) * m == -(m * r) && m <= m * r
  {
    var q: nat := r - 1;
    assert m * r == m * q + m;
  }

  lemma ShortFronts(s: string, rep: string)
    requires rep != "" && |s| + |rep| <= INT_MAX
    ensures FrontsFit(s, rep)
  {
    hide PiecesFrom, ReplaceAll, Weave;
    var ps := PiecesFrom(s, rep, 0);
    PiecesIs(s, rep);
    ReplaceIsWeave(s, rep, rep);
    forall k | 0 <= k < |ps| - 1 ensures |ps[k]| + |rep| <= INT_MAX {
      PieceInWeave(ps, rep, k);
    }
  }

  lemma ShortFits(s: string, rep: string, with: string, n: nat)
    requires 0 < |rep| <= 20 && |with| <= 20 && |s| <= n && 20 * n <= INT_MAX
    ensures FitsInt(s, rep, with) && |ReplaceAll(s, rep, with)| <= 21 * n
  {
    hide Matches, ReplaceAll, FrontsFit;
    var m := Matches(s, rep);
    MatchesBound(s, rep);
    ShortFronts(s, rep);
    ReplaceLength(s, rep, with);
    var d := |with| - |rep|;
    Between(d, m);
  }

  lemma Between(d: int, m: nat)
    requires -20 <= d <= 20
    ensures -20 * m <= d * m <= 20 * m
  {
  }

  /** Paths of up to 65536 characters fit, for every index of the loop. */
  lemma ShortPathFits(s: string, index: nat)
    requires |s| <= 65536 && index < SIZE_MODULUS
    ensures PathFits(s, index)
  {
    hide FitsInt, ReplaceAll;
    IndexLength(index);
    ShortFits(s, INDEX, Decimal(index), 65536);
    ShortFits(ReplaceAll(s, INDEX, Decimal(index)), HOME_DIR, "~", 21 * 65536);
    ShortFits(ExpandWorkingDirectory(s, index), WORKING_DIR, ".", 21 * 21 * 65536);
  }
}
