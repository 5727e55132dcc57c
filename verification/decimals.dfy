/** The numeric side of amount extraction: the locale normalisation of a
    captured number and `Double(_:)` on the result, with exact decimals. */
module Decimals {
  import opened Common
  import opened Chars

  /** `replacingOccurrences(of: a, with: b)` for one-character strings. */
  function ReplaceAll(t: string, a: char, b: char): (r: string)
    ensures |r| == |t|
    ensures a != b ==> a !in r
  {
    if t == [] then [] else [if t[0] == a then b else t[0]] + ReplaceAll(t[1..], a, b)
  }

  /** `replacingOccurrences(of: c, with: "")`. */
  function RemoveAll(t: string, c: char): (r: string)
    ensures c !in r
    ensures |r| <= |t|
  {
    if t == [] then [] else (if t[0] == c then [] else [t[0]]) + RemoveAll(t[1..], c)
  }

  /** Every other character survives as often as it occurred. */
  lemma {:induction false} RemoveCounts(t: string, c: char, x: char)
    requires x != c
    ensures multiset(RemoveAll(t, c))[x] == multiset(t)[x]
    decreases |t|
  {
    if t != [] {
      RemoveCounts(t[1..], c, x);
      assert t == [t[0]] + t[1..];
    }
  }

  lemma {:induction false} ReplaceKeepsDigits(t: string, a: char, b: char)
    requires !IsDigit(a) && !IsDigit(b)
    ensures Filter(ReplaceAll(t, a, b), IsDigit) == Filter(t, IsDigit)
    decreases |t|
  {
    if t != [] {
      ReplaceKeepsDigits(t[1..], a, b);
      assert ReplaceAll(t, a, b)[1..] == ReplaceAll(t[1..], a, b);
    }
  }

  lemma {:induction false} ReplaceCounts(t: string, a: char, b: char)
    requires a != b
    ensures multiset(ReplaceAll(t, a, b))[b] == multiset(t)[b] + multiset(t)[a]
    ensures multiset(ReplaceAll(t, a, b))[a] == 0
    decreases |t|
  {
    if t != [] {
      ReplaceCounts(t[1..], a, b);
      assert t == [t[0]] + t[1..];
      assert ReplaceAll(t, a, b) == [ReplaceAll(t, a, b)[0]] + ReplaceAll(t[1..], a, b);
    }
  }

  lemma {:induction false} RemoveKeepsDigits(t: string, c: char)
    requires !IsDigit(c)
    ensures Filter(RemoveAll(t, c), IsDigit) == Filter(t, IsDigit)
    decreases |t|
  {
    if t != [] {
      RemoveKeepsDigits(t[1..], c);
      var head: string := if t[0] == c then [] else [t[0]];
      FilterAppend(head, RemoveAll(t[1..], c), IsDigit);
    }
  }

  /** The locale normalisation of a captured number: with both separators
      the text is read as `1.234,56` (drop every `.`, then `,` is the decimal
      point); with only `,` every `,` becomes `.`; otherwise unchanged. */
  function Normalize(t: string): (r: string)
    ensures ',' !in r
    ensures ',' !in t ==> r == t
  {
    if ',' in t && '.' in t then ReplaceAll(RemoveAll(t, '.'), ',', '.')
    else if ',' in t then ReplaceAll(t, ',', '.')
    else t
  }

  /** Normalisation keeps the digits in order and turns the decimal commas,
      and only those, into points: the result has as many `.` as the source
      had `,` when it had any. */
  lemma NormalizeKeepsDigits(t: string)
    ensures Filter(Normalize(t), IsDigit) == Filter(t, IsDigit)
    ensures multiset(Normalize(t))['.'] == if ',' in t then multiset(t)[','] else multiset(t)['.']
  {
    if ',' in t && '.' in t {
      RemoveThenReplace(t);
    } else if ',' in t {
      ReplaceKeepsDigits(t, ',', '.');
      ReplaceCounts(t, ',', '.');
      assert multiset(t)['.'] == 0;
    }
  }

  /** The both-separators branch: points dropped, then commas replaced. */
  lemma RemoveThenReplace(t: string)
    ensures Filter(ReplaceAll(RemoveAll(t, '.'), ',', '.'), IsDigit) == Filter(t, IsDigit)
    ensures multiset(ReplaceAll(RemoveAll(t, '.'), ',', '.'))['.'] == multiset(t)[',']
  {
    var u := RemoveAll(t, '.');
    RemoveKeepsDigits(t, '.');
    RemoveCounts(t, '.', ',');
    ReplaceKeepsDigits(u, ',', '.');
    ReplaceCounts(u, ',', '.');
    assert multiset(u)['.'] == 0;
  }

  /** Strings of ASCII digits only. */
  predicate AllDigits(s: string)
  {
    forall k :: 0 <= k < |s| ==> IsDigit(s[k])
  }

  lemma {:induction false} RemoveAllAppend(x: string, y: string, c: char)
    ensures RemoveAll(x + y, c) == RemoveAll(x, c) + RemoveAll(y, c)
    decreases |x|
  {
    if x == [] {
      assert x + y == y;
    } else {
      assert (x + y)[0] == x[0] && (x + y)[1..] == x[1..] + y;
      RemoveAllAppend(x[1..], y, c);
    }
  }

  lemma {:induction false} RemoveAllMissing(x: string, c: char)
    requires c !in x
    ensures RemoveAll(x, c) == x
    decreases |x|
  {
    if x != [] {
      assert x[0] != c && x == [x[0]] + x[1..];
      RemoveAllMissing(x[1..], c);
    }
  }

  lemma NoSeparators(x: string)
    requires AllDigits(x)
    ensures '.' !in x && ',' !in x
  {
  }

  /** Removing the only point of `x.y`. */
  lemma RemovePoint(x: string, y: string)
    requires '.' !in x && '.' !in y
    ensures RemoveAll(x + ['.'] + y, '.') == x + y
  {
    RemoveTrailingPoint(x);
    RemoveAllAppend(x + ['.'], y, '.');
    RemoveAllMissing(y, '.');
  }

  lemma RemoveTrailingPoint(x: string)
    requires '.' !in x
    ensures RemoveAll(x + ['.'], '.') == x
  {
    RemoveAllAppend(x, ['.'], '.');
    RemoveAllMissing(x, '.');
    RemoveAllOnly('.');
  }

  lemma RemoveAllOnly(c: char)
    ensures RemoveAll([c], c) == []
  {
    assert [c][1..] == [];
  }

  lemma {:induction false} ReplaceAllAppend(x: string, y: string, a: char, b: char)
    ensures ReplaceAll(x + y, a, b) == ReplaceAll(x, a, b) + ReplaceAll(y, a, b)
    decreases |x|
  {
    if x == [] {
      assert x + y == y;
    } else {
      assert (x + y)[0] == x[0] && (x + y)[1..] == x[1..] + y;
      ReplaceAllAppend(x[1..], y, a, b);
    }
  }

  lemma {:induction false} ReplaceAllMissing(x: string, a: char, b: char)
    requires a !in x
    ensures ReplaceAll(x, a, b) == x
    decreases |x|
  {
    if x != [] {
      assert x[0] != a && x == [x[0]] + x[1..];
      ReplaceAllMissing(x[1..], a, b);
    }
  }

  lemma ReplaceAllOnly(a: char, b: char)
    ensures ReplaceAll([a], a, b) == [b]
  {
    assert [a][1..] == [];
  }

  /** Turning the only comma of `x,y` into a point. */
  lemma ReplaceComma(x: string, y: string)
    requires ',' !in x && ',' !in y
    ensures ReplaceAll(x + [','] + y, ',', '.') == x + ['.'] + y
  {
    ReplaceTrailingComma(x);
    ReplaceAllAppend(x + [','], y, ',', '.');
    ReplaceAllMissing(y, ',', '.');
  }

  lemma ReplaceTrailingComma(x: string)
    requires ',' !in x
    ensures ReplaceAll(x + [','], ',', '.') == x + ['.']
  {
    ReplaceAllAppend(x, [','], ',', '.');
    ReplaceAllMissing(x, ',', '.');
    ReplaceAllOnly(',', '.');
  }

  /** The three shapes of a captured number. Grouping points with a decimal
      comma, `1.234,56`: the points go and the comma becomes the point. */
  lemma NormalizeGroupedComma(a: string, b: string, c: string)
    requires AllDigits(a) && AllDigits(b) && AllDigits(c)
    ensures Normalize(a + ['.'] + b + [','] + c) == a + b + ['.'] + c
  {
    NoSeparators(a);
    NoSeparators(b);
    NoSeparators(c);
    var t := a + ['.'] + b + [','] + c;
    assert t[|a|] == '.' && t[|a| + 1 + |b|] == ',';
    assert t == a + ['.'] + (b + [','] + c);
    RemovePoint(a, b + [','] + c);
    assert a + (b + [','] + c) == (a + b) + [','] + c;
    ReplaceComma(a + b, c);
  }

  /** Grouping commas with a decimal point, `1,234.56`: the same rule
      applies, so the grouping comma becomes the decimal point and the
      decimal point disappears. */
  lemma NormalizeGroupedPoint(a: string, b: string, c: string)
    requires AllDigits(a) && AllDigits(b) && AllDigits(c)
    ensures Normalize(a + [','] + b + ['.'] + c) == a + ['.'] + (b + c)
  {
    NoSeparators(a);
    NoSeparators(b);
    NoSeparators(c);
    var t := a + [','] + b + ['.'] + c;
    assert t[|a|] == ',' && t[|a| + 1 + |b|] == '.';
    assert t == (a + [','] + b) + ['.'] + c;
    RemovePoint(a + [','] + b, c);
    assert a + [','] + b + c == a + [','] + (b + c);
    ReplaceComma(a, b + c);
  }

  /** A decimal comma alone, `12,50`: it becomes the point. */
  lemma NormalizeComma(a: string, c: string)
    requires AllDigits(a) && AllDigits(c)
    ensures Normalize(a + [','] + c) == a + ['.'] + c
  {
    NoSeparators(a);
    NoSeparators(c);
    CommaOnly(a, c);
    ReplaceComma(a, c);
  }

  /** With a comma and no point, normalisation only replaces the commas. */
  lemma CommaOnly(a: string, c: string)
    requires '.' !in a && '.' !in c
    ensures Normalize(a + [','] + c) == ReplaceAll(a + [','] + c, ',', '.')
  {
    var t := a + [','] + c;
    assert t[|a|] == ',';
    assert '.' !in a + [','];
  }

  /** What `Double(_:)` accepts among strings of digits and points: digits
      with at most one `.` and at least one digit. */
  predicate IsDecimal(t: string)
  {
    && (forall k :: 0 <= k < |t| ==> IsDigit(t[k]) || t[k] == '.')
    && (forall i, j :: 0 <= i < j < |t| && t[i] == '.' ==> t[j] != '.')
    && exists k :: 0 <= k < |t| && IsDigit(t[k])
  }

  function Pow10(n: nat): (r: nat)
    ensures r >= 1
  {
    if n == 0 then 1 else 10 * Pow10(n - 1)
  }

  /** A digit string read as a base-ten integer. */
  function DigitsValue(ds: string): nat
    requires forall k :: 0 <= k < |ds| ==> IsDigit(ds[k])
  {
    if ds == [] then 0
    else
      DigitsValue(ds[..|ds| - 1]) * 10 + DigitOf(ds[|ds| - 1])
  }

  function DigitOf(c: char): (d: nat)
    requires IsDigit(c)
    ensures d <= 9
  {
    c as int - '0' as int
  }

  lemma {:induction false} DigitsValueAppend(a: string, b: string)
    requires forall k :: 0 <= k < |a| ==> IsDigit(a[k])
    requires forall k :: 0 <= k < |b| ==> IsDigit(b[k])
    ensures DigitsValue(a + b) == DigitsValue(a) * Pow10(|b|) + DigitsValue(b)
    decreases |b|
  {
    if b != [] {
      var n := |b| - 1;
      var b' := b[..n];
      assert (a + b)[..|a + b| - 1] == a + b';
      assert (a + b)[|a + b| - 1] == b[n];
      DigitsValueAppend(a, b');
      var x, p, y, d := DigitsValue(a), Pow10(n), DigitsValue(b'), DigitOf(b[n]);
      assert DigitsValue(a + b) == (x * p + y) * 10 + d;
      assert DigitsValue(b) == y * 10 + d;
      ShiftDigit(x, p, y, d);
    } else {
      assert a + b == a;
    }
  }

  /** Appending a digit to `x` shifted by `p` places and followed by `y`. */
  lemma ShiftDigit(x: int, p: int, y: int, d: int)
    ensures (x * p + y) * 10 + d == x * (10 * p) + (y * 10 + d)
  {
  }

  /** Offset of the first `.` of `t`. */
  function PointIndex(t: string): (d: nat)
    requires '.' in t
    ensures d < |t| && t[d] == '.' && '.' !in t[..d]
  {
    if t[0] == '.' then 0
    else
      var d := 1 + PointIndex(t[1..]);
      assert t[..d] == [t[0]] + t[1..][..d - 1];
      d
  }

  /** Number of digits after the decimal point. */
  function FractionDigits(t: string): nat
  {
    if '.' in t then |t| - PointIndex(t) - 1 else 0
  }

  /** The digits before the point (all of them when there is none). */
  function IntegerPart(t: string): (r: string)
    requires IsDecimal(t)
    ensures forall k :: 0 <= k < |r| ==> IsDigit(r[k])
  {
    if '.' in t then
      var d := PointIndex(t);
      assert forall k :: 0 <= k < d ==> t[k] == t[..d][k];
      t[..d]
    else
      assert forall k :: 0 <= k < |t| ==> t[k] in t;
      t
  }

  /** The digits after the point (none when there is no point). */
  function FractionPart(t: string): (r: string)
    requires IsDecimal(t)
    ensures |r| == FractionDigits(t)
    ensures forall k :: 0 <= k < |r| ==> IsDigit(r[k])
  {
    if '.' in t then t[PointIndex(t) + 1..] else []
  }

  /** Reading the two parts one after the other gives every digit of the
      decimal, in order. */
  lemma {:induction false} PartsAreTheDigits(t: string)
    requires IsDecimal(t)
    ensures Filter(t, IsDigit) == IntegerPart(t) + FractionPart(t)
  {
    if '.' in t {
      var d := PointIndex(t);
      assert t == t[..d] + ['.'] + t[d + 1..];
      DropPoint(t[..d], t[d + 1..]);
    } else {
      DigitsOnly(IntegerPart(t));
      assert IntegerPart(t) + FractionPart(t) == t;
    }
  }

  lemma {:induction false} DigitsOnly(a: string)
    requires forall k :: 0 <= k < |a| ==> IsDigit(a[k])
    ensures Filter(a, IsDigit) == a
  {
  }

  lemma {:induction false} NoDigits(d: string)
    requires d == ['.']
    ensures Filter(d, IsDigit) == []
  {
    assert !IsDigit(d[0]);
  }

  /** Dropping the point of `a.b` leaves the digits `ab`. */
  lemma {:induction false} DropPoint(a: string, b: string)
    requires forall k :: 0 <= k < |a| ==> IsDigit(a[k])
    requires forall k :: 0 <= k < |b| ==> IsDigit(b[k])
    ensures Filter(a + ['.'] + b, IsDigit) == a + b
  {
    var dot: string := ['.'];
    FilterAppend(a + dot, b, IsDigit);
    FilterAppend(a, dot, IsDigit);
    DigitsOnly(a);
    DigitsOnly(b);
    NoDigits(dot);
    assert Filter(a + dot, IsDigit) == a;
  }

  /** A string of fraction digits read after a decimal point:
      `0.d1 d2 ...`, built from the last digit towards the first, one
      division by ten per digit. */
  function FractionValue(ds: string): (r: real)
    requires forall k :: 0 <= k < |ds| ==> IsDigit(ds[k])
    ensures 0.0 <= r < 1.0
  {
    if ds == [] then 0.0
    else (DigitOf(ds[0]) as real + FractionValue(ds[1..])) / 10.0
  }

  /** `v` scaled up by `10^k`: `k` multiplications by ten. */
  function Scaled(v: real, k: nat): real
  {
    if k == 0 then v else Scaled(v, k - 1) * 10.0
  }

  lemma {:induction false} ScaledAdd(a: real, b: real, k: nat)
    ensures Scaled(a + b, k) == Scaled(a, k) + Scaled(b, k)
  {
    if k > 0 {
      ScaledAdd(a, b, k - 1);
    }
  }

  lemma {:induction false} ScaledTenth(a: real, k: nat)
    ensures Scaled(a / 10.0, k + 1) == Scaled(a, k)
  {
    if k > 0 {
      ScaledTenth(a, k - 1);
    }
  }

  lemma {:induction false} ScaledInteger(n: nat, k: nat)
    ensures Scaled(n as real, k) == (n * Pow10(k)) as real
  {
    if k > 0 {
      ScaledInteger(n, k - 1);
      assert n * Pow10(k) == n * Pow10(k - 1) * 10;
    }
  }

  /** Scaling the fraction digits back by ten to their count gives the
      integer they spell. */
  lemma {:induction false} FractionScaled(ds: string)
    requires forall k :: 0 <= k < |ds| ==> IsDigit(ds[k])
    ensures Scaled(FractionValue(ds), |ds|) == DigitsValue(ds) as real
    decreases |ds|
  {
    if ds != [] {
      var d, rest := DigitOf(ds[0]), ds[1..];
      var n := |rest|;
      FractionScaled(rest);
      ScaledTenth(d as real + FractionValue(rest), n);
      ScaledAdd(d as real, FractionValue(rest), n);
      ScaledInteger(d, n);
      assert ds == [ds[0]] + rest;
      DigitsValueAppend([ds[0]], rest);
      assert DigitsValue([ds[0]]) == d by {
        assert [ds[0]][..0] == [];
      }
    }
  }

  /** `Double(_:)`, with the exact decimal value instead of the nearest
      binary floating-point number: the integer part plus the fraction
      digits read after the point. Its integer part is the integer the
      digits before the point spell. */
  function ParseDecimal(t: string): (r: Option<real>)
    ensures r.Some? <==> IsDecimal(t)
  {
    if !IsDecimal(t) then None
    else Some(DigitsValue(IntegerPart(t)) as real + FractionValue(FractionPart(t)))
  }

  /** A parsed decimal lies between the integer its digits before the
      point spell and the next integer. */
  lemma ParseDecimalBounds(t: string)
    requires IsDecimal(t)
    ensures DigitsValue(IntegerPart(t)) as real <= ParseDecimal(t).value < DigitsValue(IntegerPart(t)) as real + 1.0
  {
  }

  /** The first point of `a.c` is the one after `a`. */
  lemma {:induction false} PointAfter(a: string, c: string)
    requires AllDigits(a)
    ensures '.' in a + ['.'] + c && PointIndex(a + ['.'] + c) == |a|
    decreases |a|
  {
    var t := a + ['.'] + c;
    assert t[|a|] == '.';
    if a != [] {
      assert t[1..] == a[1..] + ['.'] + c;
      PointAfter(a[1..], c);
    }
  }

  /** `a.c` reads as the integer `a` plus the fraction digits `c`. */
  lemma ParseDecimalOfParts(a: string, c: string)
    requires AllDigits(a) && AllDigits(c) && a + c != []
    ensures ParseDecimal(a + ['.'] + c) == Some(DigitsValue(a) as real + FractionValue(c))
  {
    PartsOfDecimal(a, c);
    ParseDecimalFromParts(a + ['.'] + c, a, c);
  }

  lemma ParseDecimalFromParts(t: string, a: string, c: string)
    requires IsDecimal(t) && IntegerPart(t) == a && FractionPart(t) == c
    ensures AllDigits(a) && AllDigits(c)
    ensures ParseDecimal(t) == Some(DigitsValue(a) as real + FractionValue(c))
  {
  }

  lemma PartsOfDecimal(a: string, c: string)
    requires AllDigits(a) && AllDigits(c) && a + c != []
    ensures IsDecimal(a + ['.'] + c)
    ensures IntegerPart(a + ['.'] + c) == a && FractionPart(a + ['.'] + c) == c
  {
    var t := a + ['.'] + c;
    PointAfter(a, c);
    OnePoint(a, c);
    assert t[..|a|] == a && t[|a| + 1..] == c;
  }

  lemma OnePoint(a: string, c: string)
    requires AllDigits(a) && AllDigits(c) && a + c != []
    ensures IsDecimal(a + ['.'] + c)
  {
    var t := a + ['.'] + c;
    if a != [] {
      assert IsDigit(t[0]);
    } else {
      assert IsDigit(t[1]);
    }
  }

  /** The parsed value scaled up by ten to the number of fraction digits is
      the integer all the digits spell, read without the point. */
  lemma {:induction false} ParseDecimalScaled(t: string)
    requires IsDecimal(t)
    ensures Scaled(ParseDecimal(t).value, FractionDigits(t)) == DigitsValue(Filter(t, IsDigit)) as real
  {
    var a, b := IntegerPart(t), FractionPart(t);
    var x, v := DigitsValue(a), ParseDecimal(t).value;
    assert v == x as real + FractionValue(b);
    FractionScaled(b);
    ScaledAdd(x as real, FractionValue(b), |b|);
    ScaledInteger(x, |b|);
    assert Scaled(v, |b|) == (x * Pow10(|b|) + DigitsValue(b)) as real;
    DigitsValueAppend(a, b);
    PartsAreTheDigits(t);
  }
}
