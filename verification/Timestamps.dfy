/** Times as the database stores them: the fixed-width text of `%Y-%m-%d %H:%M:%S`. */
module Timestamps {
  import opened Strings

  /** The fields of a broken-down time with a four-digit year. */
  datatype DateTime = DateTime(year: nat, month: nat, day: nat, hour: nat, minute: nat, second: nat)

  predicate Valid(d: DateTime) {
    && d.year < 10000 && 1 <= d.month <= 12 && 1 <= d.day <= 31
    && d.hour < 24 && d.minute < 60 && d.second <= 60
  }

  /** Chronological order: the first field that differs decides. */
  predicate NotAfter(a: DateTime, b: DateTime) {
    if a.year != b.year then a.year < b.year
    else if a.month != b.month then a.month < b.month
    else if a.day != b.day then a.day < b.day
    else if a.hour != b.hour then a.hour < b.hour
    else if a.minute != b.minute then a.minute < b.minute
    else a.second <= b.second
  }

  /** Text order of the database: character by character, a prefix before what extends it. */
  predicate TextLe(a: string, b: string) {
    if a == "" then true
    else if b == "" then false
    else if a[0] != b[0] then a[0] < b[0]
    else TextLe(a[1..], b[1..])
  }

  /** `n` with leading zeros to `width` digits. */
  function Padded(n: nat, width: nat): (s: string)
    ensures |s| == width && AllDigits(s)
  {
    if width == 0 then "" else Padded(n / 10, width - 1) + [DigitChar(n % 10)]
  }

  function Format(d: DateTime): (s: string)
    ensures |s| == 19
  {
    Padded(d.year, 4) + "-" + (Padded(d.month, 2) + "-" + (Padded(d.day, 2) + " "
    + (Padded(d.hour, 2) + ":" + (Padded(d.minute, 2) + ":" + Padded(d.second, 2)))))
  }

  function Bound(width: nat): nat {
    if width == 0 then 1 else 10 * Bound(width - 1)
  }

  lemma {:induction false} TextLeReflexive(s: string)
    ensures TextLe(s, s)
  {
    if s != "" {
      TextLeReflexive(s[1..]);
    }
  }

  /** Of texts that begin with parts of equal length, differing parts decide. */
  lemma {:induction false} TextLeParts(a: string, x: string, b: string, y: string)
    requires |a| == |b|
    ensures TextLe(a + x, b + y) <==> if a == b then TextLe(x, y) else TextLe(a, b)
  {
    if a == "" {
      assert a + x == x && b + y == y;
    } else {
      assert (a + x)[1..] == a[1..] + x && (b + y)[1..] == b[1..] + y;
      assert a == [a[0]] + a[1..] && b == [b[0]] + b[1..];
      TextLeParts(a[1..], x, b[1..], y);
    }
  }

  /** Numbers of the same width compare as texts as they compare as numbers. */
  lemma {:induction false} PaddedOrder(m: nat, n: nat, width: nat)
    requires m < Bound(width) && n < Bound(width)
    ensures Padded(m, width) == Padded(n, width) <==> m == n
    ensures TextLe(Padded(m, width), Padded(n, width)) <==> m <= n
  {
    if width > 0 {
      PaddedOrder(m / 10, n / 10, width - 1);
      var a, b := [DigitChar(m % 10)], [DigitChar(n % 10)];
      TextLeParts(Padded(m / 10, width - 1), a, Padded(n / 10, width - 1), b);
      assert a == b <==> m % 10 == n % 10;
      assert a[1..] == "" && b[1..] == "";
      assert TextLe(a, b) <==> m % 10 <= n % 10;
      LastDigit(Padded(m / 10, width - 1), a, Padded(n / 10, width - 1), b);
    }
  }

  lemma LastDigit(p: string, a: string, q: string, b: string)
    requires |p| == |q|
    ensures p + a == q + b <==> p == q && a == b
  {
    if p + a == q + b {
      assert p == (p + a)[..|p|] && q == (q + b)[..|q|];
      assert a == (p + a)[|p|..] && b == (q + b)[|q|..];
    }
  }

  lemma Bounds()
    ensures Bound(2) == 100 && Bound(4) == 10000
  {
    assert Bound(0) == 1 && Bound(1) == 10 && Bound(2) == 100 && Bound(3) == 1000;
  }

  /** A field and the punctuation behind it decide before everything that follows. */
  lemma FieldOrder(m: nat, n: nat, width: nat, sep: string, x: string, y: string)
    requires m < Bound(width) && n < Bound(width)
    ensures TextLe(Padded(m, width) + sep + x, Padded(n, width) + sep + y) <==>
            if m == n then TextLe(x, y) else m < n
  {
    PaddedOrder(m, n, width);
    var p, q := Padded(m, width), Padded(n, width);
    assert p + sep + x == p + (sep + x) && q + sep + y == q + (sep + y);
    TextLeParts(p, sep + x, q, sep + y);
    TextLeParts(sep, x, sep, y);
  }

  /** For times with four-digit years, text order is chronological order. */
  lemma TextOrderIsTimeOrder(a: DateTime, b: DateTime)
    requires Valid(a) && Valid(b)
    ensures TextLe(Format(a), Format(b)) <==> NotAfter(a, b)
  {
    hide Padded, TextLe;
    Bounds();
    var x5, y5 := Padded(a.second, 2), Padded(b.second, 2);
    var x4, y4 := Padded(a.minute, 2) + ":" + x5, Padded(b.minute, 2) + ":" + y5;
    var x3, y3 := Padded(a.hour, 2) + ":" + x4, Padded(b.hour, 2) + ":" + y4;
    var x2, y2 := Padded(a.day, 2) + " " + x3, Padded(b.day, 2) + " " + y3;
    var x1, y1 := Padded(a.month, 2) + "-" + x2, Padded(b.month, 2) + "-" + y2;
    FieldOrder(a.year, b.year, 4, "-", x1, y1);
    FieldOrder(a.month, b.month, 2, "-", x2, y2);
    FieldOrder(a.day, b.day, 2, " ", x3, y3);
    FieldOrder(a.hour, b.hour, 2, ":", x4, y4);
    FieldOrder(a.minute, b.minute, 2, ":", x5, y5);
    PaddedOrder(a.second, b.second, 2);
  }
}
