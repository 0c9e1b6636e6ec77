/** Decimal digits, Python's `int()` of a string, `str()` of an integer and
  Python's `round()` (round half to even) on an exact quotient.

  Only the ASCII digits '0'..'9' are digits here; Python's `\d` and `int()`
  also accept other Unicode decimal digits, which the model leaves out.
 */
module Numbers {
  import opened Common
  import opened Text

  predicate IsDigit(c: char) { '0' <= c <= '9' }

  function DigitValue(c: char): (d: nat)
    requires IsDigit(c)
    ensures d <= 9
  {
    (c as int) - ('0' as int)
  }

  function DigitChar(d: nat): (c: char)
    requires d <= 9
    ensures IsDigit(c) && DigitValue(c) == d
  {
    (('0' as int) + d) as char
  }

  /** The value of a run of decimal digits, most significant first. */
  function DigitsValue(s: string): nat
    requires All(s, IsDigit)
  {
    if s == [] then 0 else 10 * DigitsValue(s[..|s| - 1]) + DigitValue(s[|s| - 1])
  }

  lemma DigitsValueSnoc(s: string, c: char)
    requires All(s, IsDigit) && IsDigit(c)
    ensures All(s + [c], IsDigit)
    ensures DigitsValue(s + [c]) == 10 * DigitsValue(s) + DigitValue(c)
  {
    assert (s + [c])[..|s|] == s;
  }

  /** Digits written after other digits shift them left by their count. */
  lemma {:induction false} DigitsValueAppend(a: string, b: string)
    requires All(a, IsDigit) && All(b, IsDigit)
    ensures All(a + b, IsDigit)
    ensures DigitsValue(a + b) == DigitsValue(a) * Pow10(|b|) + DigitsValue(b)
    decreases |b|
  {
    if b == [] {
      assert a + b == a;
    } else {
      var b' := b[..|b| - 1];
      var c := b[|b| - 1];
      DigitsValueAppend(a, b');
      assert a + b == (a + b') + [c];
      DigitsValueSnoc(a + b', c);
      assert b[..|b| - 1] == b';
      ShiftStep(DigitsValue(a), Pow10(|b'|), DigitsValue(b'), DigitValue(c));
    }
  }

  lemma ShiftStep(x: nat, p: nat, y: nat, d: nat)
    ensures 10 * (x * p + y) + d == x * (10 * p) + (10 * y + d)
  {
  }

  /** A canonical decimal numeral: no leading zero unless it is "0". */
  predicate Canonical(s: string) {
    s != [] && All(s, IsDigit) && (s[0] == '0' ==> |s| == 1)
  }

  /** Python's `str(n)` for a non-negative integer. */
  function NatToDecimal(n: nat): (r: string)
    ensures Canonical(r)
    ensures DigitsValue(r) == n
  {
    if n < 10 then [DigitChar(n)]
    else
      var r := NatToDecimal(n / 10) + [DigitChar(n % 10)];
      DigitsValueSnoc(NatToDecimal(n / 10), DigitChar(n % 10));
      r
  }

  /** Python's `str(i)` for any integer. */
  function IntToDecimal(i: int): (r: string)
    ensures r != []
  {
    if i < 0 then "-" + NatToDecimal(-i) else NatToDecimal(i)
  }

  lemma {:induction false} LeadingDigitBound(s: string)
    requires All(s, IsDigit) && s != []
    ensures DigitsValue(s) >= DigitValue(s[0])
    decreases |s|
  {
    if |s| > 1 {
      var s' := s[..|s| - 1];
      assert s'[0] == s[0];
      LeadingDigitBound(s');
    }
  }

  /** `str(int(s)) == s` for canonical numerals: the other half of the
      round trip between numerals and numbers. */
  lemma {:induction false} DecimalOfValue(s: string)
    requires Canonical(s)
    ensures NatToDecimal(DigitsValue(s)) == s
    decreases |s|
  {
    if |s| == 1 {
      assert DigitsValue(s) == DigitValue(s[0]) by {
        assert s[..0] == [];
      }
      assert [DigitChar(DigitValue(s[0]))] == s;
    } else {
      var s' := s[..|s| - 1];
      var c := s[|s| - 1];
      assert s'[0] == s[0];
      LeadingDigitBound(s');
      assert DigitsValue(s') >= 1;
      var n := DigitsValue(s);
      assert n == 10 * DigitsValue(s') + DigitValue(c);
      assert n / 10 == DigitsValue(s') && n % 10 == DigitValue(c);
      DecimalOfValue(s');
      assert s == s' + [c];
    }
  }

  function Min(a: nat, b: nat): nat { if a <= b then a else b }

  /** Length of the digit run starting at position `p` of `s`. */
  function DigitRun(s: string, p: nat): (n: nat)
    ensures p <= |s| ==> p + n <= |s| && All(s[p..p + n], IsDigit)
    ensures p <= |s| && p + n < |s| ==> !IsDigit(s[p + n])
    ensures p > |s| ==> n == 0
  {
    if p <= |s| then
      var n := Span(s[p..], IsDigit);
      assert s[p..][..n] == s[p..p + n];
      n
    else 0
  }

  /** `\d+` tried at position `p`: the whole digit run from there. */
  function DigitsAt(s: string, p: nat): (r: Option<nat>)
  {
    var n := DigitRun(s, p);
    if n > 0 then Some(DigitsValue(s[p..p + n])) else None
  }

  /** `int(re.findall(r"\d+", s)[0])`: the first integer written in `s`, or
      `None` where Python's indexing raises because there is none. */
  function FirstInteger(s: string): (r: Option<nat>)
    ensures r.None? <==> forall i :: 0 <= i < |s| ==> !IsDigit(s[i])
  {
    DigitsAtDigit(s);
    match Search(s, DigitsAt)
    case Some(h) => Some(h.value)
    case None => None
  }

  /** A maximal run of digits is the run `DigitRun` measures. */
  lemma DigitRunIs(s: string, p: nat, n: nat)
    requires p + n <= |s| && All(s[p..p + n], IsDigit)
    requires p + n < |s| ==> !IsDigit(s[p + n])
    ensures DigitRun(s, p) == n
  {
    var m := DigitRun(s, p);
    assert forall k :: p <= k < p + n ==> IsDigit(s[k]) by {
      forall k | p <= k < p + n
        ensures IsDigit(s[k])
      {
        assert s[p..p + n][k - p] == s[k];
      }
    }
    assert forall k :: p <= k < p + m ==> IsDigit(s[k]) by {
      forall k | p <= k < p + m
        ensures IsDigit(s[k])
      {
        assert s[p..p + m][k - p] == s[k];
      }
    }
  }

  /** The integer `FirstInteger` reads is the value of the leftmost maximal
      digit run: the first item `re.findall(r"\d+", s)` lists. */
  lemma FirstIntegerAt(s: string, p: nat, n: nat)
    requires p + n <= |s| && n > 0 && All(s[p..p + n], IsDigit)
    requires p + n < |s| ==> !IsDigit(s[p + n])
    requires forall i :: 0 <= i < p ==> !IsDigit(s[i])
    ensures FirstInteger(s) == Some(DigitsValue(s[p..p + n]))
  {
    DigitsAtRun(s, p, n);
    NoDigitsBefore(s, p);
    SearchLeftmost(s, DigitsAt, p, DigitsValue(s[p..p + n]));
  }

  lemma DigitsAtRun(s: string, p: nat, n: nat)
    requires p + n <= |s| && n > 0 && All(s[p..p + n], IsDigit)
    requires p + n < |s| ==> !IsDigit(s[p + n])
    ensures DigitsAt(s, p) == Some(DigitsValue(s[p..p + n]))
  {
    DigitRunIs(s, p, n);
  }

  lemma NoDigitsBefore(s: string, p: nat)
    requires p <= |s|
    requires forall i :: 0 <= i < p ==> !IsDigit(s[i])
    ensures NoMatchBefore(s, DigitsAt, p)
  {
    DigitsAtDigit(s);
  }

  lemma DigitsAtDigit(s: string)
    ensures forall p :: 0 <= p < |s| ==> (DigitsAt(s, p).Some? <==> IsDigit(s[p]))
    ensures DigitsAt(s, |s|).None?
  {
    forall p | 0 <= p < |s|
      ensures DigitsAt(s, p).Some? <==> IsDigit(s[p])
    {
      var n := DigitRun(s, p);
      if n > 0 {
        assert s[p..p + n][0] == s[p];
      }
    }
  }

  // ---------------------------------------------------------------------------
  // int()

  /** Python's digit grouping: digits, with single underscores between them. */
  predicate DigitGroups(b: string) {
    && b != [] && IsDigit(b[0]) && IsDigit(b[|b| - 1])
    && (forall i :: 0 <= i < |b| ==> IsDigit(b[i]) || b[i] == '_')
    && (forall i :: 0 <= i < |b| - 1 ==> b[i] == '_' ==> b[i + 1] != '_')
  }

  function Ungroup(b: string): (r: string)
    requires forall i :: 0 <= i < |b| ==> IsDigit(b[i]) || b[i] == '_'
    ensures All(r, IsDigit)
    ensures All(b, IsDigit) ==> r == b
  {
    if b == [] then []
    else
      var r := Ungroup(b[..|b| - 1]);
      if b[|b| - 1] == '_' then r
      else
        assert b == b[..|b| - 1] + [b[|b| - 1]];
        r + [b[|b| - 1]]
  }

  /** Python's `int(s)` in base 10: surrounding whitespace, an optional sign,
      and digits with optional single underscores between them.  `None`
      stands for the `ValueError` Python raises on anything else. */
  function PyInt(s: string): Option<int>
  {
    ReadSigned(Strip(s))
  }

  /** `int()` after the surrounding whitespace is gone. */
  function ReadSigned(t: string): (r: Option<int>)
    ensures r.Some? ==> exists i :: 0 <= i < |t| && IsDigit(t[i])
  {
    if t == [] then None
    else
      var body := if t[0] == '-' || t[0] == '+' then t[1..] else t;
      if !DigitGroups(body) then None
      else
        var v := DigitsValue(Ungroup(body));
        assert IsDigit(t[|t| - 1]);
        var i: int := if t[0] == '-' then -(v as int) else v as int;
        Some(i)
  }

  /** Text without a single digit, such as "N/A" or "", is not a number. */
  lemma PyIntNeedsDigit(s: string)
    requires forall i :: 0 <= i < |s| ==> !IsDigit(s[i])
    ensures PyInt(s).None?
  {
    var t := TrimStart(s);
    assert forall i :: 0 <= i < |t| ==> t[i] == s[Span(s, IsSpace) + i];
    var u := TrimEnd(t);
    assert forall i :: 0 <= i < |u| ==> u[i] == t[i];
  }

  /** `int(str(i)) == i`: the decimal rendering of any integer reads back. */
  lemma PyIntOfDecimal(i: int)
    ensures PyInt(IntToDecimal(i)) == Some(i)
  {
    var n: nat := if i < 0 then -i else i;
    var d := NatToDecimal(n);
    if i < 0 {
      NegativeNumeral(d);
      assert IntToDecimal(i) == "-" + d;
    } else {
      PositiveNumeral(d);
    }
  }

  /** A canonical numeral reads as its value. */
  lemma PositiveNumeral(d: string)
    requires Canonical(d)
    ensures PyInt(d) == Some(DigitsValue(d) as int)
  {
    NumeralIsGroups(d);
    assert IsDigit(d[0]) && IsDigit(d[|d| - 1]);
    assert Trimmed(d);
  }

  /** A canonical numeral after a minus sign reads as its negated value. */
  lemma NegativeNumeral(d: string)
    requires Canonical(d)
    ensures PyInt("-" + d) == Some(-(DigitsValue(d) as int))
  {
    SignedIsTrimmed(d);
    ReadNegative(d);
  }

  lemma SignedIsTrimmed(d: string)
    requires d != [] && IsDigit(d[|d| - 1])
    ensures Strip("-" + d) == "-" + d
  {
    var s := "-" + d;
    assert s[|s| - 1] == d[|d| - 1];
    assert Trimmed(s);
  }

  lemma ReadNegative(d: string)
    requires Canonical(d)
    ensures ReadSigned("-" + d) == Some(-(DigitsValue(d) as int))
  {
    NumeralIsGroups(d);
    var t := "-" + d;
    assert t[0] == '-' && t[1..] == d;
    var v := DigitsValue(Ungroup(d));
    assert ReadSigned(t) == Some(-(v as int));
  }

  lemma NumeralIsGroups(d: string)
    requires Canonical(d)
    ensures DigitGroups(d) && Ungroup(d) == d
  {
  }

  // ---------------------------------------------------------------------------
  // round()

  /** Python's `round(n / d)`: the integer nearest to the quotient, ties
      going to the even neighbour. */
  function RoundHalfEven(n: int, d: int): (r: int)
    requires d > 0
    ensures 2 * (n - r * d) <= d && 2 * (r * d - n) <= d
    ensures 2 * (n - r * d) == d || 2 * (r * d - n) == d ==> r % 2 == 0
    ensures n >= 0 ==> r >= 0
  {
    var q := n / d;
    var m := n % d;
    Quotient(n, d);
    if 2 * m < d then q
    else if 2 * m > d then
      assert (q + 1) * d - n == d - m;
      q + 1
    else if q % 2 == 0 then q
    else
      assert (q + 1) * d - n == d - m;
      q + 1
  }

  /** Euclidean division by a positive divisor, spelled out. */
  lemma Quotient(n: int, d: int)
    requires d > 0
    ensures n == (n / d) * d + n % d && 0 <= n % d < d
    ensures n >= 0 ==> n / d >= 0
  {
  }

  /** The two properties of `RoundHalfEven` single out its result. */
  lemma RoundHalfEvenUnique(n: int, d: int, k: int)
    requires d > 0
    requires 2 * (n - k * d) <= d && 2 * (k * d - n) <= d
    requires 2 * (n - k * d) == d || 2 * (k * d - n) == d ==> k % 2 == 0
    ensures k == RoundHalfEven(n, d)
  {
    var r := RoundHalfEven(n, d);
    if k < r {
      NearestNeighbours(n, d, k, r);
    } else if k > r {
      NearestNeighbours(n, d, r, k);
    }
  }

  /** Two distinct integers within half a step of n / d are neighbouring
      ties. */
  lemma NearestNeighbours(n: int, d: int, lo: int, hi: int)
    requires d > 0 && lo < hi
    requires 2 * (n - lo * d) <= d && 2 * (lo * d - n) <= d
    requires 2 * (n - hi * d) <= d && 2 * (hi * d - n) <= d
    ensures hi == lo + 1
    ensures 2 * (n - lo * d) == d && 2 * (hi * d - n) == d
  {
    var a := lo * d;
    var b := hi * d;
    assert b - a == (hi - lo) * d;
    MulMono(hi - lo, d);
    assert b - a == d;
    assert (hi - lo - 1) * d == 0;
  }

  lemma MulMono(a: int, d: int)
    requires a >= 1 && d > 0
    ensures a * d >= d
  {
  }

  function Pow10(k: nat): (p: nat)
    ensures p >= 1
  {
    if k == 0 then 1 else 10 * Pow10(k - 1)
  }

  lemma Pow10AtLeastTen(k: nat)
    requires k >= 1
    ensures Pow10(k) >= 10
  {
  }

  /** A number has at most `k` decimal digits exactly when it is below
      `10^k`. */
  lemma {:induction false} DecimalWidth(n: nat, k: nat)
    requires k >= 1
    ensures |NatToDecimal(n)| <= k <==> n < Pow10(k)
    decreases k
  {
    Pow10AtLeastTen(k);
    if n >= 10 {
      assert |NatToDecimal(n)| == |NatToDecimal(n / 10)| + 1;
      if k > 1 {
        DecimalWidth(n / 10, k - 1);
        assert Pow10(k) == 10 * Pow10(k - 1);
      } else {
        assert |NatToDecimal(n / 10)| >= 1;
      }
    }
  }
}
