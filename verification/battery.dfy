/** The battery probe of the audit, `get_battery_health`, over the output of
  `upower -i …/battery_BAT0`: the last "energy-full:" and
  "energy-full-design:" readings and their ratio as a whole percentage.

  Readings are kept as exact decimals; the model computes the percentage
  from them exactly where Python goes through binary floating point.
 */
module Battery {
  import opened Common
  import opened Text
  import opened Numbers

  /** A non-negative decimal number `units / 10^scale`. */
  datatype Decimal = Decimal(units: nat, scale: nat)

  function Value(x: Decimal): real {
    x.units as real / Pow10(x.scale) as real
  }

  // ---------------------------------------------------------------------------
  // re.findall(r"[\d.]+", s)[0] and float()

  predicate IsNumChar(c: char) { IsDigit(c) || c == '.' }

  /** `[\d.]+` tried at position `p`: the whole run of digits and dots. */
  function NumberAt(s: string, p: nat): (r: Option<string>)
    ensures r.Some? ==> r.value != [] && All(r.value, IsNumChar)
    ensures p < |s| ==> (r.Some? <==> IsNumChar(s[p]))
  {
    if p < |s| then
      var n := Span(s[p..], IsNumChar);
      if n > 0 then
        assert s[p..][..n] == s[p..p + n];
        Some(s[p..p + n])
      else None
    else None
  }

  /** The first `[\d.]+` token of `s`, if any. */
  function FirstNumber(s: string): (r: Option<string>)
    ensures r.Some? ==> r.value != [] && All(r.value, IsNumChar)
    ensures r.None? <==> forall i :: 0 <= i < |s| ==> !IsNumChar(s[i])
  {
    match Search(s, NumberAt)
    case Some(h) =>
      assert NumberAt(s, h.pos) == Some(h.value);
      Some(h.value)
    case None =>
      forall i | 0 <= i < |s|
        ensures !IsNumChar(s[i])
      {
        assert NumberAt(s, i).None?;
      }
      None
  }

  /** A maximal run of digits and dots is the token `NumberAt` reads. */
  lemma NumberAtIs(s: string, p: nat, n: nat)
    requires p + n <= |s| && n > 0 && All(s[p..p + n], IsNumChar)
    requires p + n < |s| ==> !IsNumChar(s[p + n])
    ensures NumberAt(s, p) == Some(s[p..p + n])
  {
    assert s[p..] == s[p..p + n] + s[p + n..];
    if p + n < |s| {
      SpanOfPrefix(s[p..p + n], s[p + n..], IsNumChar);
    } else {
      SpanOfAll(s[p..p + n], IsNumChar);
    }
  }

  /** The token `FirstNumber` returns is the leftmost maximal run of digits
      and dots: the first item `re.findall(r"[\d.]+", s)` lists. */
  lemma FirstNumberAt(s: string, p: nat, n: nat)
    requires p + n <= |s| && n > 0 && All(s[p..p + n], IsNumChar)
    requires p + n < |s| ==> !IsNumChar(s[p + n])
    requires forall i :: 0 <= i < p ==> !IsNumChar(s[i])
    ensures FirstNumber(s) == Some(s[p..p + n])
  {
    NumberAtIs(s, p, n);
    assert NoMatchBefore(s, NumberAt, p);
    SearchLeftmost(s, NumberAt, p, s[p..p + n]);
  }

  predicate HasDigit(t: string) {
    exists i :: 0 <= i < |t| && IsDigit(t[i])
  }

  predicate AtMostOneDot(t: string) {
    forall i, j :: 0 <= i < j < |t| && t[i] == '.' ==> t[j] != '.'
  }

  lemma DotOccurs(t: string, i: nat)
    requires i < |t| && t[i] == '.'
    ensures OccursAt(t, ".", i)
  {
    assert t[i..i + 1] == ['.'];
  }

  /** Python's `float()` of a `[\d.]+` token: digits with at most one
      decimal point.  `None` stands for the `ValueError` that "." or
      "1.2.3" raise. */
  function ParseFloat(t: string): (r: Option<Decimal>)
    requires All(t, IsNumChar)
    ensures r.Some? <==> HasDigit(t) && AtMostOneDot(t)
    ensures r.Some? ==> r.value.scale < |t|
  {
    match Find(t, ".")
    case None =>
      assert forall i :: 0 <= i < |t| ==> t[i] != '.' by {
        forall i | 0 <= i < |t| && t[i] == '.'
          ensures false
        {
          DotOccurs(t, i);
        }
      }
      if t == [] then None
      else
        assert IsDigit(t[0]);
        Some(Decimal(DigitsValue(t), 0))
    case Some(k) =>
      var a := t[..k];
      var b := t[k + 1..];
      assert forall i :: 0 <= i < k ==> t[i] != '.' by {
        forall i | 0 <= i < k && t[i] == '.'
          ensures false
        {
          DotOccurs(t, i);
        }
      }
      assert t[k] == '.' by { assert t[k..k + 1] == "."; }
      if '.' in b then
        var j :| 0 <= j < |b| && b[j] == '.';
        assert t[k + 1 + j] == '.';
        None
      else if a + b == [] then
        assert t == ".";
        None
      else
        assert forall i :: 0 <= i < |b| ==> b[i] in b;
        assert All(a + b, IsDigit);
        assert HasDigit(t) by {
          if a != [] {
            assert IsDigit(t[0]);
          } else {
            assert IsDigit(t[k + 1]);
          }
        }
        assert AtMostOneDot(t) by {
          forall i, j | 0 <= i < j < |t| && t[i] == '.'
            ensures t[j] != '.'
          {
            assert i == k;
            assert t[j] == b[j - k - 1];
          }
        }
        Some(Decimal(DigitsValue(a + b), |b|))
  }

  /** A token of digits alone is read as that whole number. */
  lemma ParseFloatOfDigits(a: string)
    requires a != [] && All(a, IsDigit)
    ensures All(a, IsNumChar)
    ensures ParseFloat(a) == Some(Decimal(DigitsValue(a), 0))
    ensures Value(ParseFloat(a).value) == DigitsValue(a) as real
  {
    assert forall i :: 0 <= i < |a| ==> a[i] != '.';
    NotContainsFirstChar(a, ".");
  }

  /** A token with one decimal point is read as the digits before it plus
      the fraction the digits after it spell. */
  lemma ParseFloatOfPoint(a: string, b: string)
    requires All(a, IsDigit) && All(b, IsDigit) && a + b != []
    ensures All(a + "." + b, IsNumChar)
    ensures ParseFloat(a + "." + b) == Some(Decimal(DigitsValue(a + b), |b|))
    ensures Value(ParseFloat(a + "." + b).value) ==
            DigitsValue(a) as real + DigitsValue(b) as real / Pow10(|b|) as real
  {
    var t := a + "." + b;
    assert All(t, IsNumChar) by {
      forall i | 0 <= i < |t|
        ensures IsNumChar(t[i])
      {
        if i < |a| {
          assert t[i] == a[i];
        } else if i > |a| {
          assert t[i] == b[i - |a| - 1];
        }
      }
    }
    FindPoint(a, b);
    assert t[..|a|] == a && t[|a| + 1..] == b;
    assert forall i :: 0 <= i < |b| ==> b[i] != '.';
    DigitsValueAppend(a, b);
    ShiftedValue(DigitsValue(a), DigitsValue(b), Pow10(|b|));
  }

  /** The first '.' of a token that starts with digits and a point. */
  lemma FindPoint(a: string, b: string)
    requires All(a, IsDigit)
    ensures Find(a + "." + b, ".") == Some(|a|)
  {
    var t := a + "." + b;
    assert OccursAt(t, ".", |a|) by {
      assert t[|a|..|a| + 1] == ".";
    }
    ContainsAt(t, ".", |a|);
    forall j | 0 <= j < |a|
      ensures !OccursAt(t, ".", j)
    {
      assert t[j] == a[j];
    }
  }

  lemma ShiftedValue(x: nat, y: nat, p: nat)
    requires p >= 1
    ensures (x * p + y) as real / p as real == x as real + y as real / p as real
  {
    assert (x * p + y) as real == x as real * p as real + y as real;
  }

  // ---------------------------------------------------------------------------
  // The line scan

  /** Lines are compared after `strip()`. */
  predicate IsFullLine(line: string) {
    Contains(Strip(line), "energy-full:") && !Contains(Strip(line), "design")
  }

  predicate IsDesignLine(line: string) {
    Contains(Strip(line), "energy-full-design:")
  }

  /** What a selected line reads: nothing when it holds no number, an error
      when its first number is not a float. */
  function LineReading(line: string): Option<Result<Decimal>>
  {
    match FirstNumber(Strip(line))
    case None => None
    case Some(t) =>
      match ParseFloat(t)
      case None => Some(Err(BadBatteryNumber))
      case Some(v) => Some(Ok(v))
  }

  function FullReading(line: string): Option<Result<Decimal>>
  {
    if IsFullLine(line) then LineReading(line) else None
  }

  function DesignReading(line: string): Option<Result<Decimal>>
  {
    if IsDesignLine(line) then LineReading(line) else None
  }

  /** A line on which the loop raises. */
  predicate IsBadLine(line: string) {
    FullReading(line) == Some(Err(BadBatteryNumber)) || DesignReading(line) == Some(Err(BadBatteryNumber))
  }

  function OkValue(r: Option<Result<Decimal>>): Option<Decimal>
  {
    match r
    case Some(Ok(v)) => Some(v)
    case _ => None
  }

  function FullValue(line: string): Option<Decimal> { OkValue(FullReading(line)) }

  function DesignValue(line: string): Option<Decimal> { OkValue(DesignReading(line)) }

  /** The value of the last line a pick accepts, if any. */
  function LastValue(ls: seq<string>, pick: string -> Option<Decimal>): Option<Decimal>
  {
    match LastHit(ls, pick)
    case None => None
    case Some(h) => Some(h.value)
  }

  datatype Readings = Readings(full: Option<Decimal>, design: Option<Decimal>)

  function Update(cur: Option<Decimal>, reading: Option<Result<Decimal>>): Result<Option<Decimal>>
  {
    match reading
    case None => Ok(cur)
    case Some(Err(e)) => Err(e)
    case Some(Ok(v)) => Ok(Some(v))
  }

  /** One iteration of the loop: the "energy-full:" test, then the
      "energy-full-design:" test. */
  function Step(rd: Readings, line: string): Result<Readings>
  {
    match Update(rd.full, FullReading(line))
    case Err(e) => Err(e)
    case Ok(f) =>
      match Update(rd.design, DesignReading(line))
      case Err(e) => Err(e)
      case Ok(d) => Ok(Readings(f, d))
  }

  /** The loop over the lines, as written: each line in turn. */
  function Scan(ls: seq<string>): Result<Readings>
  {
    if ls == [] then Ok(Readings(None, None))
    else
      match Scan(ls[..|ls| - 1])
      case Err(e) => Err(e)
      case Ok(rd) => Step(rd, ls[|ls| - 1])
  }

  /** One iteration raises exactly on a bad line; otherwise each reading
      the line holds replaces the previous one. */
  lemma StepMeaning(rd: Readings, line: string)
    ensures Step(rd, line).Err? <==> IsBadLine(line)
    ensures Step(rd, line).Err? ==> Step(rd, line).error == BadBatteryNumber
    ensures Step(rd, line).Ok? ==>
              Step(rd, line).value ==
              Readings(if FullValue(line).Some? then FullValue(line) else rd.full,
                       if DesignValue(line).Some? then DesignValue(line) else rd.design)
  {
  }

  lemma LastValueSnoc(ls: seq<string>, pick: string -> Option<Decimal>)
    requires ls != []
    ensures LastValue(ls, pick) ==
      if pick(ls[|ls| - 1]).Some? then pick(ls[|ls| - 1]) else LastValue(ls[..|ls| - 1], pick)
  {
  }

  /** The loop raises exactly when some selected line's first number is not
      a float; otherwise each reading is that of the last line selecting it
      that holds a number. */
  lemma {:induction false} ScanMeaning(ls: seq<string>)
    ensures Scan(ls).Err? <==> !NoneWhere(ls, IsBadLine)
    ensures Scan(ls).Err? ==> Scan(ls).error == BadBatteryNumber
    ensures Scan(ls).Ok? ==> Scan(ls).value == Readings(LastValue(ls, FullValue), LastValue(ls, DesignValue))
    decreases |ls|
  {
    if ls != [] {
      var init := ls[..|ls| - 1];
      var line := ls[|ls| - 1];
      ScanMeaning(init);
      NoneWhereSnoc(ls, IsBadLine);
      LastValueSnoc(ls, FullValue);
      LastValueSnoc(ls, DesignValue);
      if Scan(init).Ok? {
        StepMeaning(Scan(init).value, line);
      }
    }
  }

  // ---------------------------------------------------------------------------
  // get_battery_health

  /** The percentage the two readings give: "N/A" unless the full-charge
      reading is non-zero and the design reading positive. */
  function Percentage(full: Option<Decimal>, design: Option<Decimal>): (r: string)
    ensures r == "N/A" <==> !(full.Some? && full.value.units != 0 && design.Some? && design.value.units > 0)
    ensures r != "N/A" ==> exists p: nat :: r == NatToDecimal(p) && NearestPercent(p, full.value, design.value)
  {
    if full.Some? && full.value.units != 0 && design.Some? && design.value.units > 0 then
      var f := full.value;
      var d := design.value;
      var p := RoundHalfEven(f.units * Pow10(d.scale) * 100, d.units * Pow10(f.scale));
      PercentMeaning(f, d, p);
      var r := NatToDecimal(p);
      assert IsDigit(r[0]);
      r
    else "N/A"
  }

  /** `p` is within one half of `100 * full / design`, and even on a tie. */
  predicate NearestPercent(p: int, full: Decimal, design: Decimal)
    requires design.units > 0
  {
    var x := 100.0 * Value(full) / Value(design);
    2.0 * (x - p as real) <= 1.0 && 2.0 * (p as real - x) <= 1.0 &&
    (2.0 * (x - p as real) == 1.0 || 2.0 * (p as real - x) == 1.0 ==> p % 2 == 0)
  }

  /** Scaling both readings to a common denominator does not change the
      ratio, so rounding the integer quotient rounds the real one. */
  lemma PercentMeaning(f: Decimal, d: Decimal, p: int)
    requires d.units > 0
    requires p == RoundHalfEven(f.units * Pow10(d.scale) * 100, d.units * Pow10(f.scale))
    ensures NearestPercent(p, f, d)
  {
    var n := f.units * Pow10(d.scale) * 100;
    var m := d.units * Pow10(f.scale);
    var x := 100.0 * Value(f) / Value(d);
    RatioOfDecimals(f, d);
    NearestOfQuotient(n, m, p, x);
  }

  /** `100 * full / design` as one quotient of integers. */
  lemma RatioOfDecimals(f: Decimal, d: Decimal)
    requires d.units > 0
    ensures 100.0 * Value(f) / Value(d) ==
            (f.units * Pow10(d.scale) * 100) as real / (d.units * Pow10(f.scale)) as real
  {
    var a := f.units as real;
    var b := Pow10(f.scale) as real;
    var c := d.units as real;
    var e := Pow10(d.scale) as real;
    QuotientOfQuotients(a, b, c, e);
    assert (f.units * Pow10(d.scale) * 100) as real == a * e * 100.0;
    assert (d.units * Pow10(f.scale)) as real == c * b;
  }

  lemma QuotientOfQuotients(a: real, b: real, c: real, e: real)
    requires b > 0.0 && c > 0.0 && e > 0.0
    ensures 100.0 * (a / b) / (c / e) == (a * e * 100.0) / (c * b)
  {
  }

  /** Half-step bounds on integers carry over to the real quotient. */
  lemma NearestOfQuotient(n: int, m: int, p: int, x: real)
    requires m > 0 && x == n as real / m as real
    requires p == RoundHalfEven(n, m)
    ensures 2.0 * (x - p as real) <= 1.0 && 2.0 * (p as real - x) <= 1.0
    ensures 2.0 * (x - p as real) == 1.0 || 2.0 * (p as real - x) == 1.0 ==> p % 2 == 0
  {
    var up := 2 * (n - p * m);
    var down := 2 * (p * m - n);
    assert up <= m && down <= m;
    assert up == m || down == m ==> p % 2 == 0;
    GapAsQuotient(n, m, p, x);
    DivAtMostOne(up as real, m as real);
    DivAtMostOne(down as real, m as real);
  }

  lemma GapAsQuotient(n: int, m: int, p: int, x: real)
    requires m > 0 && x == n as real / m as real
    ensures 2.0 * (x - p as real) == (2 * (n - p * m)) as real / m as real
    ensures 2.0 * (p as real - x) == (2 * (p * m - n)) as real / m as real
  {
    CastDiff(n, p, m);
    ScaledGap(n as real, p as real, m as real, x);
  }

  lemma CastDiff(n: int, p: int, m: int)
    ensures (2 * (n - p * m)) as real == 2.0 * (n as real - p as real * m as real)
    ensures (2 * (p * m - n)) as real == 2.0 * (p as real * m as real - n as real)
  {
  }

  lemma ScaledGap(a: real, q: real, mr: real, x: real)
    requires mr > 0.0 && x == a / mr
    ensures 2.0 * (x - q) == 2.0 * (a - q * mr) / mr
    ensures 2.0 * (q - x) == 2.0 * (q * mr - a) / mr
  {
  }

  lemma DivAtMostOne(v: real, m: real)
    requires m > 0.0
    ensures v / m <= 1.0 <==> v <= m
    ensures v / m == 1.0 <==> v == m
  {
  }

  /** `get_battery_health` */
  function GetBatteryHealth(upower: string): (r: Result<string>)
    ensures r.Err? <==> !NoneWhere(Lines(upower), IsBadLine)
    ensures r.Err? ==> r.error == BadBatteryNumber
    ensures r.Ok? ==> r.value == Percentage(LastValue(Lines(upower), FullValue), LastValue(Lines(upower), DesignValue))
  {
    ScanMeaning(Lines(upower));
    match Scan(Lines(upower))
    case Err(e) => Err(e)
    case Ok(rd) => Ok(Percentage(rd.full, rd.design))
  }

  /** Without an "energy-full-design:" reading there is no percentage. */
  lemma NoDesignNoPercentage(upower: string)
    requires forall i :: 0 <= i < |Lines(upower)| ==> !IsDesignLine(Lines(upower)[i])
    requires GetBatteryHealth(upower).Ok?
    ensures GetBatteryHealth(upower) == Ok("N/A")
  {
    var ls := Lines(upower);
    assert forall i :: 0 <= i < |ls| ==> DesignValue(ls[i]).None?;
  }

  /** A battery holding 42.0 of its designed 50.0 is at 84 percent, and
      41.0 of 50.0 at 82. */
  lemma PercentageExamples()
    ensures Percentage(Some(Decimal(420, 1)), Some(Decimal(500, 1))) == "84"
    ensures Percentage(Some(Decimal(41, 0)), Some(Decimal(50, 0))) == "82"
  {
    RoundHalfEvenUnique(420 * Pow10(1) * 100, 500 * Pow10(1), 84);
    assert NatToDecimal(84) == "84";
    RoundHalfEvenUnique(41 * Pow10(0) * 100, 50 * Pow10(0), 82);
    assert NatToDecimal(82) == "82";
  }

  /** A zero full-charge reading, or a zero design reading, gives "N/A". */
  lemma ZeroReadingGivesNothing(full: Decimal, design: Decimal)
    requires full.units == 0 || design.units == 0
    ensures Percentage(Some(full), Some(design)) == "N/A"
  {
  }
}
