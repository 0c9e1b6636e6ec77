/** The CPU probes of the audit: `get_cpu_info` over the text of
  /proc/cpuinfo and `parse_cpu_generation` over the CPU model string.
 */
module Cpu {
  import opened Common
  import opened Text
  import opened Numbers

  datatype CpuInfo = CpuInfo(model: string, cores: nat)

  predicate IsModelNameLine(line: string) { StartsWith(line, "model name") }

  predicate IsProcessorLine(line: string) { StartsWith(line, "processor") }

  /** What a line does to the model name while that is still "N/A": a
      "model name" line sets it (and so ends the search unless its value is
      itself "N/A"), or raises when it has no colon. */
  function ModelPick(line: string): Option<Result<string>>
  {
    if !IsModelNameLine(line) then None
    else
      match FieldValue(line)
      case None => Some(Err(CpuModelWithoutColon))
      case Some(v) => if v == "N/A" then None else Some(Ok(v))
  }

  /** `get_cpu_info`: the model name and the number of logical processors. */
  function GetCpuInfo(cpuinfo: string): (r: Result<CpuInfo>)
    ensures r.Ok? ==> r.value.cores == CountWhere(Lines(cpuinfo), IsProcessorLine)
    ensures r.Err? ==> r.error == CpuModelWithoutColon
  {
    var ls := Lines(cpuinfo);
    var cores := CountWhere(ls, IsProcessorLine);
    match FirstHit(ls, ModelPick)
    case None => Ok(CpuInfo("N/A", cores))
    case Some(h) =>
      match h.value
      case Err(e) => Err(e)
      case Ok(v) => Ok(CpuInfo(v, cores))
  }

  /** The core count is zero exactly when no line starts with "processor". */
  lemma NoProcessorNoCores(cpuinfo: string)
    requires GetCpuInfo(cpuinfo).Ok?
    ensures GetCpuInfo(cpuinfo).value.cores == 0 <==> NoneWhere(Lines(cpuinfo), IsProcessorLine)
  {
    CountWhereZero(Lines(cpuinfo), IsProcessorLine);
  }

  /** Every "model name" line before line `i` left the model at "N/A". */
  predicate StillUnknown(ls: seq<string>, i: nat)
    requires i <= |ls|
  {
    forall j :: 0 <= j < i && IsModelNameLine(ls[j]) ==> FieldValue(ls[j]) == Some("N/A")
  }

  lemma StillUnknownNoPick(ls: seq<string>, i: nat)
    requires i <= |ls| && StillUnknown(ls, i)
    ensures forall j :: 0 <= j < i ==> ModelPick(ls[j]).None?
  {
  }

  /** The model is the value of the first "model name" line whose value is
      not "N/A". */
  lemma CpuModelFirstValue(cpuinfo: string, i: nat)
    requires i < |Lines(cpuinfo)| && StillUnknown(Lines(cpuinfo), i)
    requires IsModelNameLine(Lines(cpuinfo)[i])
    requires FieldValue(Lines(cpuinfo)[i]).Some? && FieldValue(Lines(cpuinfo)[i]).value != "N/A"
    ensures GetCpuInfo(cpuinfo).Ok?
    ensures GetCpuInfo(cpuinfo).value.model == FieldValue(Lines(cpuinfo)[i]).value
  {
    var ls := Lines(cpuinfo);
    StillUnknownNoPick(ls, i);
    FirstHitAt(ls, ModelPick, i);
  }

  /** A "model name" line without a colon, reached while the model is still
      "N/A", makes the scan raise. */
  lemma CpuModelMissingColon(cpuinfo: string, i: nat)
    requires i < |Lines(cpuinfo)| && StillUnknown(Lines(cpuinfo), i)
    requires IsModelNameLine(Lines(cpuinfo)[i]) && !Contains(Lines(cpuinfo)[i], ":")
    ensures GetCpuInfo(cpuinfo) == Err(CpuModelWithoutColon)
  {
    var ls := Lines(cpuinfo);
    StillUnknownNoPick(ls, i);
    FirstHitAt(ls, ModelPick, i);
  }

  /** When no "model name" line has a value other than "N/A", the model stays
      "N/A" and the scan succeeds. */
  lemma CpuModelUnknown(cpuinfo: string)
    requires StillUnknown(Lines(cpuinfo), |Lines(cpuinfo)|)
    ensures GetCpuInfo(cpuinfo) == Ok(CpuInfo("N/A", CountWhere(Lines(cpuinfo), IsProcessorLine)))
  {
    StillUnknownNoPick(Lines(cpuinfo), |Lines(cpuinfo)|);
  }

  // ---------------------------------------------------------------------------
  // parse_cpu_generation

  /** The pattern `i[3579]-(\d{2,5})` tried at position `p`: the greedy group
      takes up to five digits of the run and needs at least two. */
  function IntelAt(s: string, p: nat): (r: Option<string>)
    ensures r.Some? ==> 2 <= |r.value| <= 5 && All(r.value, IsDigit)
  {
    if p + 3 <= |s| && s[p] == 'i' && s[p + 1] in "3579" && s[p + 2] == '-' then
      var n := DigitRun(s, p + 3);
      if n >= 2 then
        assert s[p + 3..p + 3 + Min(n, 5)] == s[p + 3..p + 3 + n][..Min(n, 5)];
        Some(s[p + 3..p + 3 + Min(n, 5)])
      else None
    else None
  }

  /** `Ryzen\s+\d\s+(\d)` tried at position `p`.  Since `\s` and `\d` are
      disjoint, each `\s+` can only succeed by taking its whole run. */
  function RyzenAt(s: string, p: nat): (r: Option<nat>)
    ensures r.Some? ==> r.value <= 9
  {
    if p + 5 <= |s| && s[p..p + 5] == "Ryzen" then
      var w1 := SpaceRun(s, p + 5);
      var tier := p + 5 + w1;
      if w1 >= 1 && tier < |s| && IsDigit(s[tier]) then
        var w2 := SpaceRun(s, tier + 1);
        var series := tier + 1 + w2;
        if w2 >= 1 && series < |s| && IsDigit(s[series]) then Some(DigitValue(s[series]))
        else None
      else None
    else None
  }

  function SpaceRun(s: string, p: nat): nat
  {
    if p <= |s| then Span(s[p..], IsSpace) else 0
  }

  /** The generation a captured Intel model number gives: the first digit of
      four, the first two of five, nothing for two or three. */
  function IntelGeneration(digits: string): (g: Option<nat>)
    requires All(digits, IsDigit)
    ensures g.Some? <==> |digits| == 4 || |digits| == 5
    ensures g.Some? ==> g.value <= 99
  {
    if |digits| == 4 then Some(DigitValue(digits[0]))
    else if |digits| == 5 then Some(10 * DigitValue(digits[0]) + DigitValue(digits[1]))
    else None
  }

  /** `parse_cpu_generation` */
  function ParseCpuGeneration(cpu: string): (g: nat)
    ensures g <= 99
    ensures g != 0 ==> Search(cpu, IntelAt).Some? || Search(cpu, RyzenAt).Some?
  {
    var intel := match Search(cpu, IntelAt)
                 case Some(h) => IntelGeneration(h.value)
                 case None => None;
    if intel.Some? then intel.value
    else
      match Search(cpu, RyzenAt)
      case Some(h) => h.value
      case None => 0
  }

  /** The leftmost Intel match yields nothing: there is none, or its
      greedy capture has only two or three digits. */
  predicate IntelSilent(s: string) {
    forall p :: 0 <= p <= |s| && IntelAt(s, p).Some? && NoMatchBefore(s, IntelAt, p) ==>
      |IntelAt(s, p).value| <= 3
  }

  /** A four- or five-digit capture at the leftmost Intel match decides the
      generation. */
  lemma IntelRule(s: string, p: nat, c: string)
    requires p <= |s| && IntelAt(s, p) == Some(c) && NoMatchBefore(s, IntelAt, p)
    requires |c| == 4 || |c| == 5
    ensures ParseCpuGeneration(s) ==
      if |c| == 4 then DigitValue(c[0]) else 10 * DigitValue(c[0]) + DigitValue(c[1])
  {
    SearchLeftmost(s, IntelAt, p, c);
  }

  /** Otherwise the leftmost Ryzen match gives the digit after the tier. */
  lemma RyzenRule(s: string, p: nat, d: nat)
    requires IntelSilent(s)
    requires p <= |s| && RyzenAt(s, p) == Some(d) && NoMatchBefore(s, RyzenAt, p)
    ensures ParseCpuGeneration(s) == d
  {
    SearchLeftmost(s, RyzenAt, p, d);
    IntelSilentGivesNothing(s);
  }

  /** And with neither, the generation is undetermined: 0. */
  lemma NoGenerationRule(s: string)
    requires IntelSilent(s)
    requires forall p :: 0 <= p <= |s| ==> RyzenAt(s, p).None?
    ensures ParseCpuGeneration(s) == 0
  {
    SearchNone(s, RyzenAt);
    IntelSilentGivesNothing(s);
  }

  lemma IntelSilentGivesNothing(s: string)
    requires IntelSilent(s)
    ensures match Search(s, IntelAt)
            case Some(h) => IntelGeneration(h.value).None?
            case None => true
  {
    match Search(s, IntelAt)
    case Some(h) =>
      assert IntelAt(s, h.pos) == Some(h.value);
    case None =>
  }

  lemma NoIntelBefore(s: string, p: nat)
    requires p <= |s| && 'i' !in s[..p]
    ensures NoMatchBefore(s, IntelAt, p)
  {
    forall q | 0 <= q < p
      ensures IntelAt(s, q).None?
    {
      assert s[..p][q] == s[q];
    }
  }

  lemma NoIntelAnywhere(s: string)
    requires 'i' !in s
    ensures forall p :: 0 <= p <= |s| ==> IntelAt(s, p).None?
    ensures IntelSilent(s)
  {
    forall q | 0 <= q <= |s|
      ensures IntelAt(s, q).None?
    {
      if q < |s| {
        assert s[q] in s;
      }
    }
  }

  lemma NoRyzenAnywhere(s: string)
    requires 'R' !in s
    ensures forall p :: 0 <= p <= |s| ==> RyzenAt(s, p).None?
  {
    forall q | 0 <= q <= |s|
      ensures RyzenAt(s, q).None?
    {
      if q + 5 <= |s| {
        assert s[q] in s;
        assert s[q..q + 5][0] == s[q];
      }
    }
  }
}
