/** The indices of a bulk submission: a strided loop over 64-bit unsigned numbers. */
module BulkIndices {

  const ULONG_MODULUS: int := 0x1_0000_0000_0000_0000

  /** The index in iteration `k`: each step adds modulo 2^64. */
  function Visited(begin: nat, step: nat, k: nat): nat {
    if k == 0 then begin else (Visited(begin, step, k - 1) + step) % ULONG_MODULUS
  }

  /** The loop runs for exactly `n` iterations. */
  ghost predicate EndsAfter(begin: nat, end: nat, step: nat, n: nat) {
    Visited(begin, step, n) > end && forall k: nat :: k < n ==> Visited(begin, step, k) <= end
  }

  /** How many indices lie in the range. */
  function Count(begin: nat, end: nat, step: nat): (n: nat)
    requires begin <= end && step >= 1
    ensures n >= 1
  {
    (end - begin) / step + 1
  }

  function IndexAt(begin: nat, step: nat, k: nat): nat {
    begin + k * step
  }

  /** The last index is in the range and the one behind it is not. */
  lemma CountFits(begin: nat, end: nat, step: nat, k: nat)
    requires begin <= end && step >= 1
    ensures IndexAt(begin, step, k) <= end <==> k < Count(begin, end, step)
  {
    var d := end - begin;
    var q, r := d / step, d % step;
    assert d == q * step + r;
    if k <= q {
      assert k * step <= q * step by { MulMonotone(k, q, step); }
    } else {
      assert (q + 1) * step <= k * step by { MulMonotone(q + 1, k, step); }
      assert (q + 1) * step == q * step + step;
    }
  }

  lemma MulMonotone(a: nat, b: nat, c: nat)
    requires a <= b
    ensures a * c <= b * c
  {
  }

  lemma NextIndex(begin: nat, step: nat, k: nat)
    ensures IndexAt(begin, step, k + 1) == IndexAt(begin, step, k) + step
  {
  }

  /** As long as nothing wraps, iteration `k` sees index `begin + k * step`. */
  lemma {:induction false} VisitedIs(begin: nat, end: nat, step: nat, k: nat)
    requires begin <= end < ULONG_MODULUS && step >= 1 && k < Count(begin, end, step)
    ensures Visited(begin, step, k) == IndexAt(begin, step, k) <= end
  {
    hide Count, IndexAt;
    CountFits(begin, end, step, k);
    if k > 0 {
      VisitedIs(begin, end, step, k - 1);
      NextIndex(begin, step, k - 1);
    } else {
      FirstIndex(begin, step);
    }
  }

  lemma FirstIndex(begin: nat, step: nat)
    ensures IndexAt(begin, step, 0) == begin
  {
  }

  /** The first `n` iterations see the indices begin, begin + step, and so on. */
  ghost predicate InOrder(begin: nat, step: nat, n: nat) {
    forall k: nat :: k < n ==> Visited(begin, step, k) == IndexAt(begin, step, k)
  }

  /** The loop visits exactly the indices of the range, each once and in order, and then ends, if and
      only if the step behind the last index does not wrap. */
  lemma LoopEndsIff(begin: nat, end: nat, step: nat)
    requires begin <= end < ULONG_MODULUS && 1 <= step < ULONG_MODULUS
    ensures var n := Count(begin, end, step);
            && InOrder(begin, step, n)
            && (EndsAfter(begin, end, step, n) <==> IndexAt(begin, step, n - 1) + step < ULONG_MODULUS)
  {
    hide Count, IndexAt, EndsAfter, Visited;
    var n := Count(begin, end, step);
    CountFits(begin, end, step, n);
    CountFits(begin, end, step, n - 1);
    NextIndex(begin, step, n - 1);
    AllVisited(begin, end, step, n);
    BehindLast(begin, end, step, n, IndexAt(begin, step, n - 1));
  }

  lemma AllVisited(begin: nat, end: nat, step: nat, n: nat)
    requires begin <= end < ULONG_MODULUS && step >= 1 && n == Count(begin, end, step)
    ensures InOrder(begin, step, n)
    ensures forall k: nat :: k < n ==> Visited(begin, step, k) <= end
    ensures Visited(begin, step, n - 1) == IndexAt(begin, step, n - 1)
  {
    hide Count, IndexAt, Visited;
    forall k: nat | k < n ensures Visited(begin, step, k) == IndexAt(begin, step, k) <= end {
      VisitedIs(begin, end, step, k);
    }
  }

  /** After the last index of the range the loop ends exactly when the next sum does not wrap. */
  lemma BehindLast(begin: nat, end: nat, step: nat, n: nat, last: nat)
    requires n >= 1 && Visited(begin, step, n - 1) == last <= end < ULONG_MODULUS && step < ULONG_MODULUS
    requires last + step > end
    requires forall k: nat :: k < n ==> Visited(begin, step, k) <= end
    ensures EndsAfter(begin, end, step, n) <==> last + step < ULONG_MODULUS
  {
    assert Visited(begin, step, n) == (last + step) % ULONG_MODULUS;
    Wraps(last, step, end);
  }

  lemma Wraps(last: nat, step: nat, end: nat)
    requires last <= end < ULONG_MODULUS && step < ULONG_MODULUS && last + step > end
    ensures (last + step) % ULONG_MODULUS > end <==> last + step < ULONG_MODULUS
  {
    if last + step >= ULONG_MODULUS {
      assert (last + step) % ULONG_MODULUS == last + step - ULONG_MODULUS;
    }
  }

  /** With a step of zero the loop never ends. */
  lemma ZeroStepNeverEnds(begin: nat, end: nat, n: nat)
    requires begin <= end < ULONG_MODULUS
    ensures !EndsAfter(begin, end, 0, n)
  {
    ZeroStepStays(begin, n);
  }

  lemma {:induction false} ZeroStepStays(begin: nat, k: nat)
    requires begin < ULONG_MODULUS
    ensures Visited(begin, 0, k) == begin
  {
    if k > 0 {
      ZeroStepStays(begin, k - 1);
    }
  }
}
