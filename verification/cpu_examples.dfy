/** Worked examples of the CPU probes on the model strings the audit
  documents, including the one where its docstring and its code part ways.
 */
module CpuExamples {
  import opened Common
  import opened Text
  import opened Numbers
  import opened Cpu

  lemma DigitsThen(s: string, p: nat, n: nat)
    requires p + n <= |s| && All(s[p..p + n], IsDigit)
    requires p + n < |s| && !IsDigit(s[p + n])
    ensures DigitRun(s, p) == n
  {
    assert s[p..] == s[p..p + n] + s[p + n..];
    SpanOfPrefix(s[p..p + n], s[p + n..], IsDigit);
  }

  lemma IntelCaptureAt(s: string, p: nat, n: nat)
    requires p + 3 <= |s| && s[p] == 'i' && s[p + 1] in "3579" && s[p + 2] == '-'
    requires DigitRun(s, p + 3) == n && n >= 2
    ensures IntelAt(s, p) == Some(s[p + 3..p + 3 + Min(n, 5)])
  {
  }

  lemma IntelFirst(s: string, c: string)
    requires |s| >= 3 && s[0] == 'i' && s[1] in "3579" && s[2] == '-'
    requires IntelAt(s, 0) == Some(c) && (|c| == 4 || |c| == 5)
    ensures ParseCpuGeneration(s) ==
      if |c| == 4 then DigitValue(c[0]) else 10 * DigitValue(c[0]) + DigitValue(c[1])
  {
    IntelRule(s, 0, c);
  }

  /** "i7-8565U": the capture "8565" has four digits, generation 8. */
  lemma Example8565U()
    ensures ParseCpuGeneration("i7-8565U") == 8
  {
    var s := "i7-8565U";
    DigitsThen(s, 3, 4);
    assert s[1] in "3579";
    IntelCaptureAt(s, 0, DigitRun(s, 3));
    assert s[3..7] == "8565";
    IntelFirst(s, "8565");
  }

  /** "i7-1185G7": the capture "1185" also has four digits, so the code
      yields 1 (its docstring, at audit.py line 322, says 11). */
  lemma Example1185G7()
    ensures ParseCpuGeneration("i7-1185G7") == 1
  {
    var s := "i7-1185G7";
    DigitsThen(s, 3, 4);
    assert s[1] in "3579";
    IntelCaptureAt(s, 0, DigitRun(s, 3));
    assert s[3..7] == "1185";
    IntelFirst(s, "1185");
  }

  /** "i5-13500H": five digits, the first two give 13. */
  lemma Example13500H()
    ensures ParseCpuGeneration("i5-13500H") == 13
  {
    var s := "i5-13500H";
    DigitsThen(s, 3, 5);
    assert s[1] in "3579";
    IntelCaptureAt(s, 0, DigitRun(s, 3));
    assert s[3..8] == "13500";
    IntelFirst(s, "13500");
  }

  /** "i7-14700H": generation 14. */
  lemma Example14700H()
    ensures ParseCpuGeneration("i7-14700H") == 14
  {
    var s := "i7-14700H";
    DigitsThen(s, 3, 5);
    assert s[1] in "3579";
    IntelCaptureAt(s, 0, DigitRun(s, 3));
    assert s[3..8] == "14700";
    IntelFirst(s, "14700");
  }

  /** A six-digit run: the greedy group stops at five digits. */
  lemma ExampleSixDigits()
    ensures ParseCpuGeneration("i9-123456") == 12
  {
    var s := "i9-123456";
    assert s[3..] == "123456";
    SpanOfAll("123456", IsDigit);
    assert DigitRun(s, 3) == 6;
    assert s[1] in "3579";
    IntelCaptureAt(s, 0, DigitRun(s, 3));
    assert s[3..8] == "12345";
    IntelFirst(s, "12345");
  }

  /** "Ryzen 7 5800H": the digit after the tier, 5. */
  lemma ExampleRyzen()
    ensures ParseCpuGeneration("Ryzen 7 5800H") == 5
  {
    var s := "Ryzen 7 5800H";
    NoIntelAnywhere(s);
    OneSpaceAt(s, 5);
    OneSpaceAt(s, 7);
    RyzenAtIntro(s, 0, 6, 8);
    RyzenRule(s, 0, 5);
  }

  lemma OneSpaceAt(s: string, p: nat)
    requires p + 1 < |s| && s[p] == ' ' && !IsSpace(s[p + 1])
    ensures SpaceRun(s, p) == 1
  {
    assert s[p..] == [s[p]] + s[p + 1..];
    SpanOfPrefix([s[p]], s[p + 1..], IsSpace);
  }

  /** The Ryzen pattern at `p` with the tier digit at `tier` and the series
      digit at `series`. */
  lemma RyzenAtIntro(s: string, p: nat, tier: nat, series: nat)
    requires p + 5 <= |s| && s[p..p + 5] == "Ryzen"
    requires tier == p + 5 + SpaceRun(s, p + 5) && tier > p + 5 && tier < |s| && IsDigit(s[tier])
    requires series == tier + 1 + SpaceRun(s, tier + 1) && series > tier + 1 && series < |s| && IsDigit(s[series])
    ensures RyzenAt(s, p) == Some(DigitValue(s[series]))
  {
  }

  /** "Celeron N4000": neither pattern, generation 0. */
  lemma ExampleCeleron()
    ensures ParseCpuGeneration("Celeron N4000") == 0
  {
    var s := "Celeron N4000";
    NoIntelAnywhere(s);
    NoRyzenAnywhere(s);
    NoGenerationRule(s);
  }

  /** A three-digit Intel capture yields nothing and the Ryzen pattern is
      tried instead: "Core i3-350M" is generation 0. */
  lemma ExampleThreeDigits()
    ensures ParseCpuGeneration("Core i3-350M") == 0
  {
    var s := "Core i3-350M";
    NoIntelBefore(s, 5);
    DigitsThen(s, 8, 3);
    assert s[6] in "3579";
    IntelCaptureAt(s, 5, 3);
    assert s[8..11] == "350";
    assert IntelSilent(s) by {
      forall p | 0 <= p <= |s| && IntelAt(s, p).Some? && NoMatchBefore(s, IntelAt, p)
        ensures |IntelAt(s, p).value| <= 3
      {
        assert p <= 5;
      }
    }
    NoRyzenAnywhere(s);
    NoGenerationRule(s);
  }
}
