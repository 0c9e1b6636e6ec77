/** The graphics probes of the audit: `get_discrete_gpu` over the output of
  `lspci`, and `get_screen_resolution` over the output of `xrandr` with the
  contents of the DRM `modes` files as fallback.
 */
module Graphics {
  import opened Common
  import opened Text
  import opened Numbers

  // ---------------------------------------------------------------------------
  // get_discrete_gpu

  /** An lspci line naming an NVIDIA device, or an AMD Radeon one, in any
      letter case. */
  predicate IsDiscreteGpuLine(line: string) {
    var lower := ToLower(line);
    Contains(lower, "nvidia") || (Contains(lower, "amd") && Contains(lower, "radeon"))
  }

  /** The device description after the first ": ", or a placeholder when
      the line has none. */
  function GpuDescription(line: string): (r: string)
    ensures !Contains(line, ": ") ==> r == "Discrete GPU"
    ensures Contains(line, ": ") ==> exists k :: Find(line, ": ") == Some(k) && r == Strip(line[k + 2..])
  {
    match AfterFirst(line, ": ")
    case None => "Discrete GPU"
    case Some(rest) => Strip(rest)
  }

  /** The test reads the line in lower case, so letter case is invisible to
      it: a line and its lower case are classified alike. */
  lemma GpuTestIgnoresCase(line: string)
    ensures IsDiscreteGpuLine(ToLower(line)) == IsDiscreteGpuLine(line)
  {
    LowerFixesLower(line);
  }

  function GpuPick(line: string): (r: Option<string>)
    ensures r.Some? <==> IsDiscreteGpuLine(line)
    ensures r.Some? ==> r.value == GpuDescription(line)
  {
    if IsDiscreteGpuLine(line) then Some(GpuDescription(line)) else None
  }

  /** `get_discrete_gpu`: the description on the first discrete-GPU line, or
      "None". */
  function GetDiscreteGpu(lspci: string): (r: string)
    ensures forall i: nat :: FirstWhere(Lines(lspci), IsDiscreteGpuLine, i) ==>
              r == GpuDescription(Lines(lspci)[i])
    ensures NoneWhere(Lines(lspci), IsDiscreteGpuLine) ==> r == "None"
  {
    var ls := Lines(lspci);
    match FirstHit(ls, GpuPick)
    case Some(h) =>
      assert FirstWhere(ls, IsDiscreteGpuLine, h.pos);
      FirstWhereUnique(ls, IsDiscreteGpuLine, h.pos);
      h.value
    case None =>
      assert NoneWhere(ls, IsDiscreteGpuLine);
      "None"
  }

  // ---------------------------------------------------------------------------
  // get_screen_resolution

  datatype Mode = Mode(width: nat, height: nat)

  function Area(m: Mode): nat { m.width * m.height }

  /** The pattern `(\d{3,5})x(\d{3,5})` tried at position `p`.  The first
      group can only be followed by 'x' if it took the whole digit run, so
      the run must have three to five digits; the second group takes up to
      five digits of a run of at least three. */
  function ModeAt(s: string, p: nat): Option<Mode>
  {
    var r1 := DigitRun(s, p);
    if 3 <= r1 <= 5 && p + r1 < |s| && s[p + r1] == 'x' then
      var q := p + r1 + 1;
      var r2 := DigitRun(s, q);
      if r2 >= 3 then Some(Mode(RunValue(s, p, r1), RunValue(s, q, Min(r2, 5))))
      else None
    else None
  }

  /** The value of the first `n` digits of the digit run at `p`. */
  function RunValue(s: string, p: nat, n: nat): nat
    requires p <= |s| && n <= DigitRun(s, p)
  {
    assert s[p..p + n] == s[p..p + DigitRun(s, p)][..n];
    DigitsValue(s[p..p + n])
  }

  /** A match has sides of at most five digits each. */
  lemma ModeAtBounds(s: string, p: nat)
    ensures ModeAt(s, p).Some? ==> ModeAt(s, p).value.width < 100000 && ModeAt(s, p).value.height < 100000
  {
    var r1 := DigitRun(s, p);
    if ModeAt(s, p).Some? {
      var q := p + r1 + 1;
      RunValueBelow(s, p, r1);
      RunValueBelow(s, q, Min(DigitRun(s, q), 5));
    }
  }

  lemma RunValueBelow(s: string, p: nat, n: nat)
    requires p <= |s| && n <= DigitRun(s, p) && n <= 5
    ensures RunValue(s, p, n) < 100000
  {
    assert s[p..p + n] == s[p..p + DigitRun(s, p)][..n];
    DigitsBelow(s[p..p + n], 5);
  }

  /** At most `k` digits are worth less than `10^k`. */
  lemma {:induction false} DigitsBelow(s: string, k: nat)
    requires All(s, IsDigit) && |s| <= k
    ensures DigitsValue(s) < Pow10(k)
    decreases k
  {
    if s != [] {
      DigitsBelow(s[..|s| - 1], k - 1);
    }
  }

  /** The first match on a line, if any. */
  function LineMode(line: string): Option<Mode>
  {
    match Search(line, ModeAt)
    case Some(h) => Some(h.value)
    case None => None
  }

  /** The first match on each line. */
  function LineModes(ls: seq<string>): (ms: seq<Option<Mode>>)
    ensures |ms| == |ls| && forall i :: 0 <= i < |ls| ==> ms[i] == LineMode(ls[i])
  {
    seq(|ls|, i requires 0 <= i < |ls| => LineMode(ls[i]))
  }

  /** The loop keeping the mode of largest area, starting from `start`, over
      the lines' matches: a mode replaces the current one only when its area
      is strictly larger. */
  function Best(ms: seq<Option<Mode>>, start: Mode): (r: Mode)
    ensures Area(r) >= Area(start)
    ensures forall i :: 0 <= i < |ms| && ms[i].Some? ==> Area(ms[i].value) <= Area(r)
    ensures r == start || exists i :: 0 <= i < |ms| && ms[i] == Some(r)
  {
    if ms == [] then start
    else
      var m := Best(ms[..|ms| - 1], start);
      var last := ms[|ms| - 1];
      if last.Some? && Area(last.value) > Area(m) then last.value else m
  }

  /** Ties keep the earlier mode: the result is first reached at a line whose
      predecessors all have smaller area. */
  lemma {:induction false} BestIsEarliest(ms: seq<Option<Mode>>, start: Mode)
    requires Best(ms, start) != start
    ensures exists i :: 0 <= i < |ms| && ms[i] == Some(Best(ms, start)) &&
              Area(Best(ms, start)) > Area(start) &&
              forall j :: 0 <= j < i && ms[j].Some? ==> Area(ms[j].value) < Area(Best(ms, start))
    decreases |ms|
  {
    var init := ms[..|ms| - 1];
    var last := ms[|ms| - 1];
    var m := Best(init, start);
    if last.Some? && Area(last.value) > Area(m) {
      var i := |ms| - 1;
      assert ms[i] == Some(Best(ms, start));
      assert forall j :: 0 <= j < i ==> ms[j] == init[j];
    } else {
      assert Best(ms, start) == m;
      BestIsEarliest(init, start);
      var i :| 0 <= i < |init| && init[i] == Some(m) && Area(m) > Area(start) &&
               forall j :: 0 <= j < i && init[j].Some? ==> Area(init[j].value) < Area(m);
      assert ms[i] == Some(m);
      assert forall j :: 0 <= j < i ==> ms[j] == init[j];
    }
  }

  /** From zero, the largest mode has width zero exactly when no line has a
      mode of positive area, and then it is still zero. */
  lemma BestFromZero(ms: seq<Option<Mode>>)
    ensures Best(ms, Mode(0, 0)).width == 0 <==>
            forall i :: 0 <= i < |ms| && ms[i].Some? ==> Area(ms[i].value) == 0
    ensures Best(ms, Mode(0, 0)).width == 0 ==> Best(ms, Mode(0, 0)) == Mode(0, 0)
  {
    var m := Best(ms, Mode(0, 0));
    if m != Mode(0, 0) {
      var i :| 0 <= i < |ms| && ms[i] == Some(m);
      BestIsEarliest(ms, Mode(0, 0));
      assert Area(m) > 0;
    }
  }

  /** The lines of every DRM `modes` file, in the order they are visited. */
  function DrmLines(files: seq<string>): seq<string>
  {
    if files == [] then [] else DrmLines(files[..|files| - 1]) + Lines(files[|files| - 1])
  }

  /** The mode chosen from xrandr, and from the DRM files when xrandr gave
      none of positive width. */
  function ChosenMode(xrandr: string, drmModes: seq<string>): Mode
  {
    var m := Best(LineModes(Lines(xrandr)), Mode(0, 0));
    if m.width == 0 then Best(LineModes(DrmLines(drmModes)), m) else m
  }

  /** No line's match has positive area. */
  predicate NoPositiveMode(ls: seq<string>) {
    forall i :: 0 <= i < |ls| && LineMode(ls[i]).Some? ==> Area(LineMode(ls[i]).value) == 0
  }

  /** No mode of positive width is chosen exactly when neither source has a
      line with a mode of positive area. */
  lemma ChosenModeZero(xrandr: string, drmModes: seq<string>)
    ensures ChosenMode(xrandr, drmModes).width == 0 <==>
            NoPositiveMode(Lines(xrandr)) && NoPositiveMode(DrmLines(drmModes))
  {
    var xs := LineModes(Lines(xrandr));
    var ds := LineModes(DrmLines(drmModes));
    BestFromZero(xs);
    BestFromZero(ds);
  }

  function ResolutionClass(m: Mode): (c: string)
  {
    if m.width > 2500 then "4K/Retina Class" else "Standard"
  }

  function ResolutionText(m: Mode): string
  {
    NatToDecimal(m.width) + "x" + NatToDecimal(m.height)
  }

  /** `get_screen_resolution`: the resolution text and its class. */
  function GetScreenResolution(xrandr: string, drmModes: seq<string>): (r: (string, string))
    ensures r == ("N/A", "N/A") <==> NoPositiveMode(Lines(xrandr)) && NoPositiveMode(DrmLines(drmModes))
    ensures r.0 == "N/A" <==> r.1 == "N/A"
    ensures r != ("N/A", "N/A") ==>
              r.0 == ResolutionText(ChosenMode(xrandr, drmModes)) &&
              (r.1 == "4K/Retina Class" <==> ChosenMode(xrandr, drmModes).width > 2500) &&
              (r.1 == "Standard" <==> ChosenMode(xrandr, drmModes).width <= 2500)
  {
    var m := ChosenMode(xrandr, drmModes);
    ChosenModeZero(xrandr, drmModes);
    if m.width == 0 then ("N/A", "N/A")
    else
      assert IsDigit(ResolutionText(m)[0]);
      (ResolutionText(m), ResolutionClass(m))
  }

  /** The resolution text reads back through the pattern: a mode whose sides
      have three to five digits is written so that the pattern recovers it. */
  lemma ResolutionTextRoundTrip(m: Mode)
    requires 100 <= m.width < 100000 && 100 <= m.height < 100000
    ensures LineMode(ResolutionText(m)) == Some(m)
  {
    var a := NatToDecimal(m.width);
    var b := NatToDecimal(m.height);
    DecimalWidth(m.width, 5);
    DecimalWidth(m.height, 5);
    DecimalWidth(m.width, 2);
    DecimalWidth(m.height, 2);
    ModeTextAt(a, b);
    DecimalOfValue(a);
    DecimalOfValue(b);
    SearchLeftmost(ResolutionText(m), ModeAt, 0, m);
  }

  /** Two digit strings of three to five digits joined by 'x' match at the
      start. */
  lemma ModeTextAt(a: string, b: string)
    requires All(a, IsDigit) && All(b, IsDigit)
    requires 3 <= |a| <= 5 && 3 <= |b| <= 5
    ensures ModeAt(a + "x" + b, 0) == Some(Mode(DigitsValue(a), DigitsValue(b)))
  {
    var s := a + "x" + b;
    ModeTextFirst(a, b);
    ModeTextSecond(a, b);
    ModeAtIntro(s, 0, |a|, |a| + 1, |b|);
  }

  lemma ModeTextFirst(a: string, b: string)
    requires All(a, IsDigit)
    ensures var s := a + "x" + b;
      |a| < |s| && s[|a|] == 'x' && DigitRun(s, 0) == |a| && RunValue(s, 0, |a|) == DigitsValue(a)
  {
    assert a + "x" + b == a + ("x" + b);
    FirstRun(a, "x" + b);
  }

  lemma ModeTextSecond(a: string, b: string)
    requires All(b, IsDigit)
    ensures var s := a + "x" + b;
      DigitRun(s, |a| + 1) == |b| && RunValue(s, |a| + 1, |b|) == DigitsValue(b)
  {
    LastRun(a + "x", b);
  }

  /** The match at `p` when the runs there are known. */
  lemma ModeAtIntro(s: string, p: nat, r1: nat, q: nat, r2: nat)
    requires 3 <= r1 <= 5 && 3 <= r2 <= 5 && p + r1 < |s| && s[p + r1] == 'x' && q == p + r1 + 1
    requires DigitRun(s, p) == r1 && DigitRun(s, q) == r2
    ensures ModeAt(s, p) == Some(Mode(RunValue(s, p, r1), RunValue(s, q, r2)))
  {
  }

  /** A digit string followed by a non-digit is the whole run at the start. */
  lemma FirstRun(a: string, rest: string)
    requires All(a, IsDigit) && rest != [] && !IsDigit(rest[0])
    ensures DigitRun(a + rest, 0) == |a| && RunValue(a + rest, 0, |a|) == DigitsValue(a)
  {
    var s := a + rest;
    assert s[0..] == s;
    SpanOfPrefix(a, rest, IsDigit);
    assert s[0..|a|] == a;
  }

  /** A digit string at the end is the whole run where it starts. */
  lemma LastRun(pre: string, b: string)
    requires All(b, IsDigit)
    ensures DigitRun(pre + b, |pre|) == |b| && RunValue(pre + b, |pre|, |b|) == DigitsValue(b)
  {
    var s := pre + b;
    assert s[|pre|..] == b;
    SpanOfAll(b, IsDigit);
    assert s[|pre|..|pre| + |b|] == b;
  }
}
