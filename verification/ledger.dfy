/** The ledger row of the audit, as `export_to_csv` builds it: one value per
  column of the fixed header, each looked up in the audit dictionary with
  its own default.
 */
module Ledger {
  import opened Common
  import opened Text
  import opened Numbers
  import opened Disks
  import opened Recommendation
  import opened Audit

  /** The ledger's columns, in order. */
  const CsvHeaders: seq<string> := [
    "timestamp", "service_tag", "model", "cpu", "cores",
    "ram_gb", "ram_type", "storage_type", "storage_gb",
    "smart_status", "battery_pct", "gpu", "resolution",
    "resolution_class", "screen_grade", "chassis_grade",
    "charger", "recommendation"]

  /** The dictionary keys behind the columns after the timestamp. */
  const LedgerKeys: seq<Key> := [
    ServiceTagKey, ModelKey, CpuKey, CoresKey,
    RamGbKey, RamTypeKey, StorageTypeKey, StorageGbKey,
    SmartStatusKey, BatteryPctKey, GpuKey, ResolutionKey,
    ResolutionClassKey, ScreenGradeKey, ChassisGradeKey,
    ChargerKey, RecommendationKey]

  /** Each column after the first is named by its key. */
  lemma HeadersAreKeys()
    ensures |CsvHeaders| == |LedgerKeys| + 1 && CsvHeaders[0] == "timestamp"
    ensures forall i :: 0 <= i < |LedgerKeys| ==> CsvHeaders[i + 1] == LedgerKeys[i].Name()
  {
  }

  /** The value a column takes when the dictionary lacks its key. */
  function Default(key: Key): Cell
  {
    match key
    case CoresKey => Number(0)
    case RamGbKey => Number(0)
    case StorageGbKey => Number(0)
    case GpuKey => Text("None")
    case ScreenGradeKey => Text("")
    case ChassisGradeKey => Text("")
    case ChargerKey => Text("")
    case RecommendationKey => Text("")
    case _ => Text("N/A")
  }

  /** `data.get(key, default)` */
  function Get(data: map<Key, Cell>, key: Key): (c: Cell)
    ensures key in data ==> c == data[key]
    ensures key !in data ==> c == Default(key)
  {
    if key in data then data[key] else Default(key)
  }

  /** The values `export_to_csv` looks up for the columns after the
      timestamp, in header order. */
  function LedgerCells(data: map<Key, Cell>): (cells: seq<Cell>)
    ensures |cells| == |LedgerKeys|
    ensures forall i :: 0 <= i < |LedgerKeys| ==> cells[i] == Get(data, LedgerKeys[i])
  {
    seq(|LedgerKeys|, i requires 0 <= i < |LedgerKeys| => Get(data, LedgerKeys[i]))
  }

  /** The row written for `data`, stamped with `timestamp` (the formatted
      clock, which is an input here). */
  function LedgerRow(data: map<Key, Cell>, timestamp: string): (row: seq<string>)
    ensures |row| == |CsvHeaders| && row[0] == timestamp
    ensures forall i :: 0 <= i < |LedgerKeys| ==> row[i + 1] == Render(LedgerCells(data)[i])
  {
    var cells := LedgerCells(data);
    [timestamp] + seq(|cells|, i requires 0 <= i < |cells| => Render(cells[i]))
  }

  /** The column named after a key holds that key's value, or its default
      when the dictionary lacks the key. */
  lemma ColumnOfKey(data: map<Key, Cell>, timestamp: string, j: nat, k: Key)
    requires j < |CsvHeaders| && CsvHeaders[j] == k.Name()
    ensures 1 <= j && LedgerKeys[j - 1] == k
    ensures LedgerRow(data, timestamp)[j] == Render(if k in data then data[k] else Default(k))
  {
    HeadersAreKeys();
    assert k.Name() != "timestamp";
    KeyNamesDistinct(LedgerKeys[j - 1], k);
  }

  /** Every column has its own name. */
  lemma HeadersDistinct()
    ensures forall i, j :: 0 <= i < j < |CsvHeaders| ==> CsvHeaders[i] != CsvHeaders[j]
  {
  }

  /** The internal entries of the audit dictionary never reach the ledger. */
  lemma InternalKeysNotExported()
    ensures DiskKey !in LedgerKeys && CpuGenKey !in LedgerKeys
    ensures "_disk" !in CsvHeaders && "_cpu_gen" !in CsvHeaders
  {
  }

  /** A completed audit fills every column from the record: each column
      holds the entry `main` stored under its key, and no default is used. */
  lemma AuditRow(h: HardwareRecord, g: Grades, rec: Disposition)
    ensures forall i :: 0 <= i < |LedgerKeys| ==>
              LedgerCells(AuditData(h, g, rec))[i] == AuditEntry(h, g, rec, LedgerKeys[i])
  {
  }

  /** An empty dictionary gives the row of defaults. */
  lemma EmptyRow()
    ensures LedgerCells(map[]) == [
      Text("N/A"), Text("N/A"), Text("N/A"), Number(0),
      Number(0), Text("N/A"), Text("N/A"), Number(0),
      Text("N/A"), Text("N/A"), Text("None"), Text("N/A"),
      Text("N/A"), Text(""), Text(""), Text(""), Text("")]
  {
  }

  /** Integers are written in decimal: "0" for the numeric defaults. */
  lemma ZeroRendersAsZero()
    ensures Render(Number(0)) == "0"
  {
    assert NatToDecimal(0) == "0";
  }
}
