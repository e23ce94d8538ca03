/** The numbers found in free text by `raw.match(/\d+(?:\.\d+)?/g)` followed
    by `.map(Number)`: a left-to-right scan for runs of decimal digits,
    each optionally followed by a dot and a further run of digits. */
module Numerals {
  import opened Js
  import opened Text

  predicate AllDigits(s: string)
  {
    forall i | 0 <= i < |s| :: IsDigit(s[i])
  }

  predicate NoDigits(s: string)
  {
    forall i | 0 <= i < |s| :: !IsDigit(s[i])
  }

  function DigitValue(c: char): (r: nat)
    requires IsDigit(c)
    ensures r < 10
  {
    c as int - '0' as int
  }

  function DigitChar(d: nat): (c: char)
    requires d < 10
    ensures IsDigit(c) && DigitValue(c) == d
  {
    ('0' as int + d) as char
  }

  /** `Number(d)` for a run of digits: its base-10 value. */
  function DigitsValue(d: string): nat
    requires AllDigits(d)
  {
    if |d| == 0 then 0 else DigitsValue(d[..|d| - 1]) * 10 + DigitValue(d[|d| - 1])
  }

  /** The end of the longest run of digits that starts at i. */
  function RunEnd(s: string, i: nat): (j: nat)
    requires i <= |s|
    ensures i <= j <= |s|
    ensures AllDigits(s[i..j])
    ensures j == |s| || !IsDigit(s[j])
    decreases |s| - i
  {
    if i < |s| && IsDigit(s[i]) then RunEnd(s, i + 1) else i
  }

  /** The match that starts at the digit s[i]: where it ends and the number
      it denotes. The fraction is taken only when a digit follows the dot. */
  function MatchAt(s: string, i: nat): (m: (nat, real))
    requires i < |s| && IsDigit(s[i])
    ensures i < m.0 <= |s|
    ensures m.1 >= 0.0
  {
    var j := RunEnd(s, i);
    var whole := DigitsValue(s[i..j]) as real;
    if j + 1 < |s| && s[j] == '.' && IsDigit(s[j + 1]) then
      var k := RunEnd(s, j + 1);
      (k, whole + DigitsValue(s[j + 1..k]) as real / Pow10(k - j - 1) as real)
    else
      (j, whole)
  }

  /** All matches from position i on, as numbers. */
  function ScanFrom(s: string, i: nat): (r: seq<real>)
    requires i <= |s|
    ensures forall k | 0 <= k < |r| :: r[k] >= 0.0
    decreases |s| - i
  {
    if i == |s| then []
    else if !IsDigit(s[i]) then ScanFrom(s, i + 1)
    else
      var m := MatchAt(s, i);
      [m.1] + ScanFrom(s, m.0)
  }

  /** `(s.match(/\d+(?:\.\d+)?/g) ?? []).map(Number)`. */
  function Matches(s: string): (r: seq<real>)
    ensures forall k | 0 <= k < |r| :: r[k] >= 0.0
  {
    ScanFrom(s, 0)
  }

  /** The scan finds nothing exactly when no digit is left to read. */
  lemma {:induction false} ScanEmptyIffNoDigit(s: string, i: nat)
    requires i <= |s|
    ensures ScanFrom(s, i) == [] <==> NoDigits(s[i..])
    decreases |s| - i
  {
    if i < |s| && !IsDigit(s[i]) {
      ScanEmptyIffNoDigit(s, i + 1);
      assert forall k | 1 <= k < |s[i..]| :: s[i..][k] == s[i + 1..][k - 1];
    } else if i < |s| {
      assert s[i..][0] == s[i];
    }
  }

  lemma MatchesEmptyIffNoDigit(s: string)
    ensures Matches(s) == [] <==> NoDigits(s)
  {
    ScanEmptyIffNoDigit(s, 0);
    assert s[0..] == s;
  }

  /** The decimal digits of a natural number, as `String(n)` writes it. */
  function DecimalString(n: nat): (d: string)
    ensures |d| >= 1 && AllDigits(d)
    ensures DigitsValue(d) == n
  {
    if n < 10 then [DigitChar(n)]
    else
      var d := DecimalString(n / 10) + [DigitChar(n % 10)];
      assert d[..|d| - 1] == DecimalString(n / 10);
      d
  }

  /** A run of digits ends where the first non-digit sits. */
  lemma {:induction false} RunEndAt(s: string, i: nat, j: nat)
    requires i <= j <= |s|
    requires AllDigits(s[i..j])
    requires j == |s| || !IsDigit(s[j])
    ensures RunEnd(s, i) == j
    decreases j - i
  {
    if i < j {
      assert s[i..j][0] == s[i];
      RunEndAt(s, i + 1, j);
    }
  }

  /** Skipping text without digits changes nothing that is found. */
  lemma {:induction false} ScanSkips(s: string, i: nat, k: nat)
    requires i <= k <= |s|
    requires NoDigits(s[i..k])
    ensures ScanFrom(s, i) == ScanFrom(s, k)
    decreases k - i
  {
    if i < k {
      assert s[i..k][0] == s[i];
      ScanSkips(s, i + 1, k);
    }
  }

  /** A whole number written out stands alone as one match worth itself,
      read from any position where it begins and where it runs to the end. */
  lemma WholeNumberAt(s: string, i: nat, n: nat)
    requires i + |DecimalString(n)| <= |s|
    requires s[i..i + |DecimalString(n)|] == DecimalString(n)
    requires i + |DecimalString(n)| == |s| || (s[i + |DecimalString(n)|] != '.' && !IsDigit(s[i + |DecimalString(n)|]))
    ensures ScanFrom(s, i) == [n as real] + ScanFrom(s, i + |DecimalString(n)|)
  {
    var d := DecimalString(n);
    var j := i + |d|;
    assert s[i] == d[0];
    RunEndAt(s, i, j);
  }

  /** `"12".match(...)` finds just 12. */
  lemma MatchesOfWholeNumber(n: nat)
    ensures Matches(DecimalString(n)) == [n as real]
  {
    var d := DecimalString(n);
    assert d[0..|d|] == d;
    WholeNumberAt(d, 0, n);
  }

  /** s is x, then sep, then y, read off by position. */
  predicate LaidOut(s: string, x: string, sep: string, y: string)
  {
    && |s| == |x| + |sep| + |y|
    && s[..|x|] == x
    && s[|x|..|x| + |sep|] == sep
    && s[|x| + |sep|..] == y
  }

  lemma LaidOutConcat(x: string, sep: string, y: string)
    ensures LaidOut(x + sep + y, x, sep, y)
  {
    var s := x + sep + y;
    assert s[..|x|] == x;
    assert s[|x|..|x| + |sep|] == sep;
    assert s[|x| + |sep|..] == y;
  }

  /** Two whole numbers around a separator without digits: the scan over
      a text laid out that way. */
  lemma {:induction false} ScanWholeRange(s: string, a: nat, sep: string, b: nat)
    requires |sep| >= 1 && NoDigits(sep) && sep[0] != '.'
    requires LaidOut(s, DecimalString(a), sep, DecimalString(b))
    ensures ScanFrom(s, 0) == [a as real, b as real]
  {
    var da, db := DecimalString(a), DecimalString(b);
    var i := |da| + |sep|;
    assert s[0..|da|] == da;
    assert s[|da|] == sep[0];
    WholeNumberAt(s, 0, a);
    ScanSkips(s, |da|, i);
    assert s[i..i + |db|] == db;
    WholeNumberAt(s, i, b);
  }

  /** A range written "a<sep>b", where the separator holds no digit and
      does not start with a dot, yields exactly a and b. */
  lemma MatchesOfRange(a: nat, sep: string, b: nat)
    requires |sep| >= 1 && NoDigits(sep) && sep[0] != '.'
    ensures Matches(DecimalString(a) + sep + DecimalString(b)) == [a as real, b as real]
  {
    LaidOutConcat(DecimalString(a), sep, DecimalString(b));
    ScanWholeRange(DecimalString(a) + sep + DecimalString(b), a, sep, b);
  }

  /** `Number("a.f")` for runs of digits a and f. */
  function DecimalValue(a: string, f: string): (r: real)
    requires AllDigits(a) && AllDigits(f)
    ensures DigitsValue(a) as real <= r < DigitsValue(a) as real + 1.0
  {
    var fraction := DigitsValue(f) as real / Pow10(|f|) as real;
    assert 0.0 <= fraction < 1.0 by {
      DigitsBelow(f);
      FractionBelowOne(DigitsValue(f) as real, Pow10(|f|) as real);
    }
    DigitsValue(a) as real + fraction
  }

  /** A non-negative n below p divided by p lies in [0, 1). */
  lemma FractionBelowOne(n: real, p: real)
    requires 0.0 <= n < p
    ensures 0.0 <= n / p < 1.0
  {
    DivLess(n, p, p);
    assert p / p == 1.0;
    DivMonotone(0.0, n, p);
    assert 0.0 / p == 0.0;
  }

  /** A run of n digits stays below 10^n. */
  lemma {:induction false} DigitsBelow(d: string)
    requires AllDigits(d)
    ensures DigitsValue(d) < Pow10(|d|)
  {
    if |d| > 0 {
      DigitsBelow(d[..|d| - 1]);
    }
  }

  /** The text "a.f" sits in s at position i. */
  predicate DecimalAt(s: string, i: nat, a: string, f: string)
  {
    && i + |a| + 1 + |f| <= |s|
    && s[i..i + |a|] == a
    && s[i + |a|] == '.'
    && s[i + |a| + 1..i + |a| + 1 + |f|] == f
  }

  lemma DecimalAtStart(a: string, f: string, t: string)
    ensures DecimalAt(a + "." + f + t, 0, a, f)
  {
    var s := a + "." + f + t;
    assert s[0..|a|] == a;
    assert s[|a| + 1..|a| + 1 + |f|] == f;
  }

  lemma DecimalAtEnd(u: string, a: string, f: string)
    ensures DecimalAt(u + (a + "." + f), |u|, a, f)
  {
    var s := u + (a + "." + f);
    assert s[|u|..|u| + |a|] == a;
    assert s[|u| + |a| + 1..|u| + |a| + 1 + |f|] == f;
  }

  /** The match at a number with a fraction, "a.f", ends after f and is
      worth a + f / 10^|f|. */
  lemma DecimalMatchAt(s: string, i: nat, a: string, f: string)
    requires |a| >= 1 && |f| >= 1 && AllDigits(a) && AllDigits(f)
    requires DecimalAt(s, i, a, f)
    requires i + |a| + 1 + |f| == |s| || !IsDigit(s[i + |a| + 1 + |f|])
    ensures IsDigit(s[i]) && MatchAt(s, i) == (i + |a| + 1 + |f|, DecimalValue(a, f))
  {
    var j := i + |a|;
    var k := j + 1 + |f|;
    assert s[i] == a[0];
    assert RunEnd(s, i) == j by { RunEndAt(s, i, j); }
    assert s[j + 1] == f[0];
    assert RunEnd(s, j + 1) == k by { RunEndAt(s, j + 1, k); }
    assert k - j - 1 == |f|;
  }

  /** A number with a fraction, "a.f", is one match worth a + f / 10^|f|,
      read from any position where it begins. */
  lemma DecimalNumberAt(s: string, i: nat, a: string, f: string, e: nat)
    requires |a| >= 1 && |f| >= 1 && AllDigits(a) && AllDigits(f)
    requires DecimalAt(s, i, a, f) && e == i + |a| + 1 + |f|
    requires e == |s| || !IsDigit(s[e])
    ensures ScanFrom(s, i) == [DecimalValue(a, f)] + ScanFrom(s, e)
  {
    DecimalMatchAt(s, i, a, f);
  }

  /** `"2.5".match(...)` finds just 2.5. */
  lemma MatchesOfDecimal(a: string, f: string)
    requires |a| >= 1 && |f| >= 1 && AllDigits(a) && AllDigits(f)
    ensures Matches(a + "." + f) == [DecimalValue(a, f)]
  {
    var s := a + "." + f;
    DecimalAtStart(a, f, []);
    assert a + "." + f + [] == s;
    DecimalNumberAt(s, 0, a, f, |s|);
  }

  /** A range of two numbers with fractions, "a.f<sep>b.g", where the
      separator holds no digit, yields exactly the two numbers. */
  lemma MatchesOfDecimalRange(a: string, f: string, sep: string, b: string, g: string)
    requires |a| >= 1 && |f| >= 1 && AllDigits(a) && AllDigits(f)
    requires |b| >= 1 && |g| >= 1 && AllDigits(b) && AllDigits(g)
    requires |sep| >= 1 && NoDigits(sep)
    ensures Matches(a + "." + f + sep + b + "." + g) == [DecimalValue(a, f), DecimalValue(b, g)]
  {
    var x, y := a + "." + f, b + "." + g;
    var s := x + sep + y;
    var i := |x| + |sep|;
    assert s == a + "." + f + sep + b + "." + g;
    assert ScanFrom(s, 0) == [DecimalValue(a, f)] + ScanFrom(s, |x|) by {
      DecimalAtStart(a, f, sep + y);
      assert a + "." + f + (sep + y) == s;
      assert s[|x|] == sep[0];
      DecimalNumberAt(s, 0, a, f, |x|);
    }
    assert ScanFrom(s, |x|) == ScanFrom(s, i) by {
      assert s[|x|..i] == sep;
      ScanSkips(s, |x|, i);
    }
    assert ScanFrom(s, i) == [DecimalValue(b, g)] by {
      DecimalAtEnd(x + sep, b, g);
      DecimalNumberAt(s, i, b, g, |s|);
    }
  }
}
