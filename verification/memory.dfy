/** The RAM probes of the audit: `get_ram_total_gb` over the text of
  /proc/meminfo and `get_ram_type` over the output of `dmidecode -t memory`.
 */
module Memory {
  import opened Common
  import opened Text
  import opened Numbers

  /** Kibibytes in a gibibyte: /proc/meminfo reports kB, the ledger GB. */
  const KiBPerGiB: nat := 1048576

  predicate IsMemTotalLine(line: string) { StartsWith(line, "MemTotal") }

  /** The first "MemTotal" line ends the scan with its first integer, or
      raises when it has none. */
  function MemTotalPick(line: string): Option<Option<nat>>
  {
    if IsMemTotalLine(line) then Some(FirstInteger(line)) else None
  }

  /** `get_ram_total_gb` */
  function GetRamTotalGb(meminfo: string): (r: Result<nat>)
    ensures r.Err? <==> exists i: nat :: FirstWhere(Lines(meminfo), IsMemTotalLine, i) &&
                                    FirstInteger(Lines(meminfo)[i]).None?
    ensures r.Err? ==> r.error == MemTotalWithoutDigits
    ensures NoneWhere(Lines(meminfo), IsMemTotalLine) ==> r == Ok(0)
    ensures forall i: nat, kb: nat ::
              (FirstWhere(Lines(meminfo), IsMemTotalLine, i) && FirstInteger(Lines(meminfo)[i]) == Some(kb)) ==>
              r.Ok? && 2 * (kb - r.value * KiBPerGiB) <= KiBPerGiB &&
              2 * (r.value * KiBPerGiB - kb) <= KiBPerGiB &&
              r.value == RoundHalfEven(kb, KiBPerGiB)
  {
    var ls := Lines(meminfo);
    match FirstHit(ls, MemTotalPick)
    case None =>
      assert NoneWhere(ls, IsMemTotalLine);
      Ok(0)
    case Some(h) =>
      assert FirstWhere(ls, IsMemTotalLine, h.pos);
      FirstWhereUnique(ls, IsMemTotalLine, h.pos);
      match h.value
      case None => Err(MemTotalWithoutDigits)
      case Some(kb) =>
        Ok(RoundHalfEven(kb, KiBPerGiB))
  }

  /** `get_ram_type`: the value of the first line naming a DDR type. */
  predicate IsDdrTypeLine(line: string) {
    Contains(line, "Type:") && Contains(line, "DDR")
  }

  function RamTypePick(line: string): (r: Option<string>)
    ensures r.Some? <==> IsDdrTypeLine(line)
    ensures r.Some? ==> FieldValue(line) == r
  {
    if IsDdrTypeLine(line) then
      ColonInside(line, "Type:", 4);
      Some(FieldValue(line).value)
    else None
  }

  function GetRamType(table: string): (r: string)
    ensures (exists i: nat :: FirstWhere(Lines(table), IsDdrTypeLine, i) &&
                         FieldValue(Lines(table)[i]) == Some(r)) ||
            (r == "N/A" && NoneWhere(Lines(table), IsDdrTypeLine))
  {
    var ls := Lines(table);
    match FirstHit(ls, RamTypePick)
    case Some(h) =>
      assert FirstWhere(ls, IsDdrTypeLine, h.pos);
      assert RamTypePick(ls[h.pos]) == Some(h.value);
      assert FieldValue(ls[h.pos]) == Some(h.value);
      var i: nat := h.pos;
      assert FirstWhere(Lines(table), IsDdrTypeLine, i) && FieldValue(Lines(table)[i]) == Some(h.value);
      h.value
    case None =>
      assert NoneWhere(ls, IsDdrTypeLine);
      "N/A"
  }

  /** A line containing "Type:" contains a colon, so its value is defined. */
  lemma ColonInside(s: string, sub: string, k: nat)
    requires Contains(s, sub) && k < |sub| && sub[k] == ':'
    ensures Contains(s, ":")
  {
    var i: nat :| i <= |s| && OccursAt(s, sub, i);
    assert s[i + k] == sub[k];
    assert OccursAt(s, ":", i + k);
  }
}
