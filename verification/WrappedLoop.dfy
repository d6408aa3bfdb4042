/** When a bulk loop whose index wraps ends at all: the indices it ever sees are those of one residue class. */
module WrappedLoop {
  import opened BulkIndices

  // ---------------------------------------------------------------- the greatest common divisor

  function Gcd(a: nat, b: nat): nat
    decreases b
  {
    if b == 0 then a else Gcd(b, a % b)
  }

  lemma {:induction false} GcdDivides(a: nat, b: nat) returns (p: nat, q: nat)
    ensures a == p * Gcd(a, b) && b == q * Gcd(a, b)
    decreases b
  {
    if b == 0 {
      p, q := 1, 0;
    } else {
      var q', r := GcdDivides(b, a % b);
      q := q';
      p := Recompose(a, b, a / b, Gcd(b, a % b), q, r);
    }
  }

  lemma Recompose(a: nat, b: nat, d: nat, g: nat, q: nat, r: nat) returns (p: nat)
    requires a == d * b + r * g && b == q * g
    ensures a == p * g
  {
    NonNegative(d, q);
    p := d * q + r;
    Regroup(d, q, g);
    Distribute(d * q, r, g);
  }

  lemma Regroup(x: int, y: int, z: int)
    ensures x * (y * z) == (x * y) * z
  {
  }

  lemma Distribute(x: int, y: int, z: int)
    ensures (x + y) * z == x * z + y * z
  {
  }

  lemma {:induction false} Bezout(a: nat, b: nat) returns (u: int, v: int)
    ensures u * a + v * b == Gcd(a, b)
    decreases b
  {
    if b == 0 {
      u, v := 1, 0;
    } else {
      var u', v' := Bezout(b, a % b);
      u, v := v', u' - v' * (a / b);
      BezoutStep(a, b, u', v');
    }
  }

  lemma BezoutStep(a: nat, b: nat, u: int, v: int)
    requires b > 0
    ensures u * b + v * (a % b) == v * a + (u - v * (a / b)) * b
  {
    var d := a / b;
    assert a % b == a - d * b;
    Distribute(a, -(d * b), v);
    Distribute(u, -(v * d), b);
    Regroup(v, d, b);
    assert v * (a % b) == (a + -(d * b)) * v;
  }

  // ---------------------------------------------------------------- residues

  /** A multiple of `m` that is not zero is at least `m` away from it. */
  lemma Multiples(m: nat, d: int)
    ensures d >= 1 ==> m * d >= m
    ensures d <= -1 ==> m * d + m <= 0
  {
    if d >= 1 {
      AtLeast(m, d);
    } else if d <= -1 {
      AtLeast(m, -d);
      Negate(m, d);
    }
  }

  lemma Negate(m: int, d: int)
    ensures m * -d == -(m * d)
  {
  }

  lemma AtLeast(m: nat, d: int)
    requires d >= 1
    ensures m * d >= m
  {
    assert m * d == m * (d - 1) + m;
    NonNegative(m, d - 1);
  }

  lemma NonNegative(a: nat, b: int)
    requires b >= 0
    ensures a * b >= 0
  {
  }

  /** The index in iteration `k`, in closed form. */
  lemma {:induction false} VisitedSum(begin: nat, step: nat, k: nat) returns (t: nat)
    requires begin < ULONG_MODULUS
    ensures Visited(begin, step, k) == begin + k * step - ULONG_MODULUS * t
    ensures Visited(begin, step, k) < ULONG_MODULUS
  {
    if k == 0 {
      t := 0;
    } else {
      t := VisitedSum(begin, step, k - 1);
      var x := Visited(begin, step, k - 1) + step;
      var w := x / ULONG_MODULUS;
      assert x == ULONG_MODULUS * w + x % ULONG_MODULUS;
      Distribute(k - 1, 1, step);
      t := t + w;
    }
  }

  /** The step that an index of the loop and its first index differ by a multiple of. */
  function Stride(step: nat): nat {
    Gcd(step, ULONG_MODULUS)
  }

  lemma StrideDivides(step: nat) returns (p: nat, q: nat)
    ensures step == p * Stride(step) && ULONG_MODULUS == q * Stride(step)
    ensures 0 < Stride(step) <= ULONG_MODULUS && q >= 1
  {
    hide Gcd;
    p, q := GcdDivides(step, ULONG_MODULUS);
    PositiveFactors(q, Stride(step), ULONG_MODULUS);
  }

  lemma PositiveFactors(q: nat, g: nat, m: nat)
    requires m == q * g && m > 0
    ensures q >= 1 && 0 < g <= m
  {
    if q > 0 {
      AtLeast(g, q);
    }
  }

  /** The greatest 64-bit number that differs from the first index by a multiple of the stride. */
  function Top(begin: nat, step: nat): int
    requires Stride(step) > 0
  {
    TopOf(ULONG_MODULUS, begin, Stride(step))
  }

  function TopOf(m: nat, begin: nat, g: nat): int
    requires g > 0
  {
    m - g + begin % g
  }

  lemma {:induction false} VisitedInClass(begin: nat, step: nat, k: nat) returns (c: int)
    requires begin < ULONG_MODULUS
    ensures Visited(begin, step, k) == begin + c * Stride(step)
  {
    hide Stride, Visited;
    var p, q := StrideDivides(step);
    var t := VisitedSum(begin, step, k);
    c := ClassSum(step, ULONG_MODULUS, Stride(step), p, q, k, t);
  }

  lemma ClassSum(step: int, m: int, g: int, p: int, q: int, k: int, t: int) returns (c: int)
    requires step == p * g && m == q * g
    ensures k * step - m * t == c * g
  {
    c := k * p - t * q;
    Distribute(k * p, -(t * q), g);
    Negate(g, t * q);
    Regroup(k, p, g);
    Regroup(t, q, g);
  }

  /** A number of the class below the modulus is at most the top. */
  lemma ClassBelowTop(m: nat, begin: nat, g: nat, q: nat, x: nat, c: int)
    requires g > 0 && m == q * g && x < m && x == begin + c * g
    ensures x <= TopOf(m, begin, g)
  {
    var d, r := begin / g, begin % g;
    assert begin == g * d + r;
    Distribute(d, c, g);
    Distribute(q, -(d + c), g);
    assert m - x == g * (q - (d + c)) - r;
    Multiples(g, q - (d + c));
  }

  /** The top is a number of the class below the modulus. */
  lemma TopInClass(m: nat, begin: nat, g: nat, q: nat) returns (c: int)
    requires g > 0 && m == q * g && begin < m
    ensures TopOf(m, begin, g) == begin + c * g && 0 <= TopOf(m, begin, g) < m
  {
    var d, r := begin / g, begin % g;
    assert begin == g * d + r;
    c := q - 1 - d;
    Distribute(q, -1 - d, g);
    Distribute(1, d, g);
    Distribute(1, -1 - d, g);
    Negate(g, 1 + d);
    Multiples(g, q);
  }

  lemma VisitedBelowTop(begin: nat, step: nat, k: nat)
    requires begin < ULONG_MODULUS
    ensures Stride(step) > 0 && Visited(begin, step, k) <= Top(begin, step)
  {
    hide Stride, Visited, TopOf;
    var p, q := StrideDivides(step);
    var t := VisitedSum(begin, step, k);
    var c := VisitedInClass(begin, step, k);
    ClassBelowTop(ULONG_MODULUS, begin, Stride(step), q, Visited(begin, step, k), c);
  }

  /** The top is reached. */
  lemma TopIsVisited(begin: nat, step: nat) returns (k: nat)
    requires begin < ULONG_MODULUS
    ensures Stride(step) > 0 && Visited(begin, step, k) == Top(begin, step)
  {
    hide Stride, Gcd, Visited, TopOf;
    var p, q := StrideDivides(step);
    var u, v := Bezout(step, ULONG_MODULUS);
    StrideIs(step);
    var c := TopInClass(ULONG_MODULUS, begin, Stride(step), q);
    var e: int;
    k, e := Reach(step, ULONG_MODULUS, u, v, Stride(step), c);
    var t := VisitedSum(begin, step, k);
    SameResidue(ULONG_MODULUS, Visited(begin, step, k), Top(begin, step), e, t);
  }

  lemma StrideIs(step: nat)
    ensures Stride(step) == Gcd(step, ULONG_MODULUS)
  {
  }

  /** Some multiple of the step is `c` strides away, up to multiples of the modulus. */
  lemma Reach(step: int, m: nat, u: int, v: int, g: int, c: int) returns (k: nat, e: int)
    requires m > 0 && u * step + v * m == g
    ensures k * step == c * g - m * e
  {
    var w := (u * c) / m;
    k := (u * c) % m;
    assert u * c == m * w + k;
    e := c * v + w * step;
    ReachSum(step, m, u, v, g, c, w, k);
  }

  lemma ReachSum(step: int, m: int, u: int, v: int, g: int, c: int, w: int, k: int)
    requires u * step + v * m == g && u * c == m * w + k
    ensures k * step == c * g - m * (c * v + w * step)
  {
    var us, vm, uc, mw := u * step, v * m, u * c, m * w;
    assert k * step == uc * step - mw * step by {
      Distribute(uc, -mw, step);
      Negate(step, mw);
    }
    assert uc * step == c * us by {
      Regroup(c, u, step);
    }
    assert c * g == c * us + c * vm by {
      Distribute(us, vm, c);
    }
    assert m * (c * v + w * step) == c * vm + mw * step by {
      Distribute(c * v, w * step, m);
      Regroup(c, v, m);
      Regroup(m, w, step);
    }
  }

  lemma SameResidue(m: nat, x: int, y: int, e: int, t: int)
    requires 0 <= x < m && 0 <= y < m && x == y - m * e - m * t
    ensures x == y
  {
    Distribute(-e, -t, m);
    Negate(m, e);
    Negate(m, t);
    Multiples(m, -e - t);
  }

  // ---------------------------------------------------------------- when the loop ends

  /** The first iteration that sees an index behind the end. */
  lemma {:induction false} FirstBehind(begin: nat, end: nat, step: nat, k: nat) returns (n: nat)
    requires Visited(begin, step, k) > end
    ensures EndsAfter(begin, end, step, n) && n <= k
  {
    hide Visited;
    if j: nat :| j < k && Visited(begin, step, j) > end {
      n := FirstBehind(begin, end, step, j);
    } else {
      n := k;
    }
  }

  /** The loop ends, in its range or behind a wrap, if and only if the greatest index of its residue class
      modulo the common divisor of the step and 2^64 lies behind the end. */
  lemma LoopEndsAtAllIff(begin: nat, end: nat, step: nat)
    requires begin <= end < ULONG_MODULUS
    ensures Stride(step) > 0
    ensures (exists n: nat :: EndsAfter(begin, end, step, n)) <==> Top(begin, step) > end
  {
    hide Visited, Stride, Top;
    var k := TopIsVisited(begin, step);
    if Top(begin, step) > end {
      var n := FirstBehind(begin, end, step, k);
    }
    if n: nat :| EndsAfter(begin, end, step, n) {
      VisitedBelowTop(begin, step, n);
    }
  }

  /** With step 0 the class is the first index alone. */
  lemma ZeroStride()
    ensures Stride(0) == ULONG_MODULUS
  {
    assert Gcd(0, ULONG_MODULUS) == Gcd(ULONG_MODULUS, 0);
  }
}
