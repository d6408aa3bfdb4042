/** Shared string facts: C strings, `strstr`, and decimal printing and parsing. */
module Strings {

  datatype Option<+T> = None | Some(value: T) {
    function GetOr(default: T): T {
      match this
      case Some(v) => v
      case None => default
    }
  }

  /** The characters of a C string never include the terminator. */
  predicate IsCString(s: string) {
    '\0' !in s
  }

  // ---------------------------------------------------------------- occurrences

  predicate OccursAt(s: string, p: string, i: nat) {
    i + |p| <= |s| && s[i..i + |p|] == p
  }

  ghost predicate Occurs(s: string, p: string) {
    exists i: nat :: OccursAt(s, p, i)
  }

  /** The leftmost occurrence of `p` in `s` at or after `from`. */
  function FindFrom(s: string, p: string, from: nat): (r: Option<nat>)
    requires from <= |s|
    ensures r.None? ==> forall i: nat :: from <= i ==> !OccursAt(s, p, i)
    ensures r.Some? ==> from <= r.value && OccursAt(s, p, r.value)
    ensures r.Some? ==> forall i: nat :: from <= i < r.value ==> !OccursAt(s, p, i)
    decreases |s| - from
  {
    if OccursAt(s, p, from) then Some(from) else if from == |s| then None else FindFrom(s, p, from + 1)
  }

  /** `strstr`: the leftmost occurrence of `p` in `s`. */
  function Find(s: string, p: string): (r: Option<nat>)
    ensures r.None? <==> !Occurs(s, p)
    ensures r.Some? ==> OccursAt(s, p, r.value) && forall i: nat :: i < r.value ==> !OccursAt(s, p, i)
  {
    FindFrom(s, p, 0)
  }

  /** Whatever occurs in a part of a string occurs in the whole. */
  lemma OccursInPart(a: string, m: string, z: string, p: string)
    requires Occurs(m, p)
    ensures Occurs(a + m + z, p)
  {
    var i: nat :| OccursAt(m, p, i);
    assert (a + m + z)[|a| + i..|a| + i + |p|] == m[i..i + |p|];
    assert OccursAt(a + m + z, p, |a| + i);
  }

  // ---------------------------------------------------------------- decimal text

  predicate IsDigit(c: char) {
    '0' <= c <= '9'
  }

  predicate AllDigits(s: string) {
    forall i :: 0 <= i < |s| ==> IsDigit(s[i])
  }

  function DigitChar(d: nat): (c: char)
    requires d < 10
    ensures IsDigit(c) && DigitValue(c) == d
  {
    "0123456789"[d]
  }

  function DigitValue(c: char): (d: nat)
    requires IsDigit(c)
    ensures d < 10
  {
    (c - '0') as nat
  }

  /** What `%lu` and `%lld` print for a number that is not negative. */
  function Decimal(n: nat): (s: string)
    ensures |s| > 0 && AllDigits(s)
  {
    if n < 10 then [DigitChar(n)] else Decimal(n / 10) + [DigitChar(n % 10)]
  }

  /** What `%d` and `%lld` print. */
  function SignedDecimal(n: int): string {
    if n < 0 then "-" + Decimal(-n) else Decimal(n)
  }

  /** The value of the leading digits of `s`, read after a prefix worth `acc`. */
  function LeadingDigits(s: string, acc: nat): nat {
    if s == "" || !IsDigit(s[0]) then acc else LeadingDigits(s[1..], 10 * acc + DigitValue(s[0]))
  }

  /** `atoll` on text without leading blanks: an optional minus sign, then as many digits as follow. */
  function Atoll(s: string): int {
    if s != "" && s[0] == '-' then -(LeadingDigits(s[1..], 0) as int) else LeadingDigits(s, 0)
  }

  lemma {:induction false} LeadingDigitsAppend(u: string, v: string, acc: nat)
    requires AllDigits(u)
    ensures LeadingDigits(u + v, acc) == LeadingDigits(v, LeadingDigits(u, acc))
  {
    if u == "" {
      assert u + v == v;
    } else {
      assert (u + v)[1..] == u[1..] + v;
      LeadingDigitsAppend(u[1..], v, 10 * acc + DigitValue(u[0]));
    }
  }

  lemma {:induction false} DecimalValue(n: nat)
    ensures LeadingDigits(Decimal(n), 0) == n
  {
    if n >= 10 {
      DecimalValue(n / 10);
      LeadingDigitsAppend(Decimal(n / 10), [DigitChar(n % 10)], 0);
      var d := [DigitChar(n % 10)];
      assert d[1..] == "";
      assert LeadingDigits(d, n / 10) == LeadingDigits("", 10 * (n / 10) + n % 10);
    } else {
      assert Decimal(n)[1..] == "";
    }
  }

  /** Printing then reading gives the number back. */
  lemma DecimalRoundTrip(n: int)
    ensures Atoll(SignedDecimal(n)) == n
  {
    if n < 0 {
      DecimalValue(-n);
      assert SignedDecimal(n)[1..] == Decimal(-n);
    } else {
      DecimalValue(n);
      assert SignedDecimal(n) == Decimal(n) && IsDigit(Decimal(n)[0]);
    }
  }

  /** A printed row id names its row. */
  lemma IdRoundTrip(n: nat)
    ensures Atoll(Decimal(n)) == n
  {
    DecimalRoundTrip(n);
    assert SignedDecimal(n) == Decimal(n);
  }

  /** Two numbers that print alike are equal. */
  lemma DecimalInjective(m: nat, n: nat)
    requires Decimal(m) == Decimal(n)
    ensures m == n
  {
    DecimalValue(m);
    DecimalValue(n);
  }
}
