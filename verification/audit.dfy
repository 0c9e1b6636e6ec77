/** The silent hardware scan of the audit, `run_hardware_scan`: every probe
  parsed into one record, and the audit record that the grading phase and
  the recommendation complete.

  The probes' outputs are inputs here.  Text read from a file or a command
  is as `read_file` and `run` return it: stripped, and empty on failure.
  The size and SMART queries take the chosen disk as an argument, so they
  are given as functions of the disk path.
 */
module Audit {
  import opened Common
  import opened Text
  import opened Numbers
  import opened Cpu
  import opened Memory
  import opened Disks
  import opened Battery
  import opened Graphics
  import opened Recommendation

  datatype Probes = Probes(
    serialNumber: string,         // dmidecode -s system-serial-number
    productName: string,          // dmidecode -s system-product-name
    cpuinfo: string,              // /proc/cpuinfo
    meminfo: string,              // /proc/meminfo
    memoryTable: string,          // dmidecode -t memory
    mounts: string,               // /proc/mounts
    removablePartitions: string,  // lsblk -nrpo NAME,RM,TYPE | grep '1 part'
    blockDevices: string,         // lsblk -dnpo NAME,TYPE,RM
    nvmeExists: bool,             // /dev/nvme0n1 exists
    sdaExists: bool,              // /dev/sda exists
    diskSize: string -> string,   // lsblk -bdn -o SIZE <disk>
    smartReport: string -> string, // smartctl -H <disk>
    upower: string,               // upower -i …/battery_BAT0
    lspci: string,                // lspci
    xrandr: string,               // xrandr
    drmModes: seq<string>)        // each /sys/class/drm/*/modes

  datatype HardwareRecord = HardwareRecord(
    serviceTag: string, model: string, cpu: string, cores: nat,
    ramGb: nat, ramType: string,
    storageType: StorageKind, storageGb: int, smartStatus: SmartStatus,
    batteryPct: string, gpu: string,
    resolution: string, resolutionClass: string,
    disk: string, cpuGeneration: nat)

  /** `get_service_tag` and `get_model_name`: the probe's text, or "N/A"
      when it printed nothing. */
  function Identity(out: string): (r: string)
    ensures r != ""
    ensures out != "" ==> r == out
    ensures out == "" ==> r == "N/A"
  {
    if out != "" then out else "N/A"
  }

  /** `run_hardware_scan`.  The scan stops at the first probe whose parser
      raises: the CPU, then the RAM, then the battery. */
  function HardwareScan(p: Probes): (r: Result<HardwareRecord>)
    ensures r.Err? <==>
              GetCpuInfo(p.cpuinfo).Err? || GetRamTotalGb(p.meminfo).Err? || GetBatteryHealth(p.upower).Err?
    ensures r.Err? ==> r.error == (if GetCpuInfo(p.cpuinfo).Err? then CpuModelWithoutColon
                                   else if GetRamTotalGb(p.meminfo).Err? then MemTotalWithoutDigits
                                   else BadBatteryNumber)
    ensures r.Ok? ==> r.value.serviceTag != "" && r.value.model != ""
    ensures r.Ok? ==> r.value.cpuGeneration == ParseCpuGeneration(r.value.cpu) && r.value.cpuGeneration <= 99
    ensures r.Ok? ==> r.value.cores == CountWhere(Lines(p.cpuinfo), IsProcessorLine)
    ensures r.Ok? ==> r.value.disk == GetPrimaryDisk(p.mounts, p.removablePartitions, p.blockDevices,
                                                      p.nvmeExists, p.sdaExists)
    ensures r.Ok? ==> (r.value.storageType == NoDisk <==> r.value.disk == "")
    ensures r.Ok? ==> (r.value.resolution == "N/A" <==> r.value.resolutionClass == "N/A")
    ensures r.Ok? ==> r.value.serviceTag == Identity(p.serialNumber) && r.value.model == Identity(p.productName)
    ensures r.Ok? ==> r.value.cpu == GetCpuInfo(p.cpuinfo).value.model
    ensures r.Ok? ==> r.value.ramGb == GetRamTotalGb(p.meminfo).value && r.value.ramType == GetRamType(p.memoryTable)
    ensures r.Ok? ==>
              var s := GetStorageInfo(r.value.disk, p.diskSize(r.value.disk), p.smartReport(r.value.disk));
              r.value.storageType == s.kind && r.value.storageGb == s.capacityGb && r.value.smartStatus == s.smart
    ensures r.Ok? ==> r.value.batteryPct == GetBatteryHealth(p.upower).value && r.value.gpu == GetDiscreteGpu(p.lspci)
    ensures r.Ok? ==> (r.value.resolution, r.value.resolutionClass) == GetScreenResolution(p.xrandr, p.drmModes)
  {
    match GetCpuInfo(p.cpuinfo)
    case Err(e) => Err(e)
    case Ok(cpu) =>
      match GetRamTotalGb(p.meminfo)
      case Err(e) => Err(e)
      case Ok(ramGb) =>
        var disk := GetPrimaryDisk(p.mounts, p.removablePartitions, p.blockDevices, p.nvmeExists, p.sdaExists);
        var storage := GetStorageInfo(disk, p.diskSize(disk), p.smartReport(disk));
        match GetBatteryHealth(p.upower)
        case Err(e) => Err(e)
        case Ok(battery) =>
          var (resolution, resolutionClass) := GetScreenResolution(p.xrandr, p.drmModes);
          Ok(HardwareRecord(
            Identity(p.serialNumber), Identity(p.productName), cpu.model, cpu.cores,
            ramGb, GetRamType(p.memoryTable),
            storage.kind, storage.capacityGb, storage.smart,
            battery, GetDiscreteGpu(p.lspci),
            resolution, resolutionClass,
            disk, ParseCpuGeneration(cpu.model)))
  }

  /** The answers of the interactive grading phase. */
  datatype Grades = Grades(screen: Grade, chassis: Grade, charger: Charger)

  /** `compute_recommendation` on a scanned and graded unit. */
  function Recommend(h: HardwareRecord, g: Grades): (r: Disposition)
    ensures r == PartsRepair <==> h.smartStatus == Failed || g.screen == C || g.chassis == C
  {
    Classify(h.smartStatus, g.screen, g.chassis, h.gpu, h.cpuGeneration, h.batteryPct)
  }

  // ---------------------------------------------------------------------------
  // The audit record as a dictionary

  /** A value of the audit dictionary: text, or an integer. */
  datatype Cell = Text(text: string) | Number(number: int)

  /** `str()` of a value, as the ledger writes it. */
  function Render(c: Cell): string
  {
    match c
    case Text(s) => s
    case Number(n) => IntToDecimal(n)
  }

  /** The keys of the audit dictionary, "_disk" and "_cpu_gen" being for
      internal use. */
  datatype Key =
    | ServiceTagKey | ModelKey | CpuKey | CoresKey | RamGbKey | RamTypeKey
    | StorageTypeKey | StorageGbKey | SmartStatusKey | DiskKey | BatteryPctKey
    | GpuKey | ResolutionKey | ResolutionClassKey | CpuGenKey
    | ScreenGradeKey | ChassisGradeKey | ChargerKey | RecommendationKey
  {
    function Name(): string {
      match this
      case ServiceTagKey => "service_tag"
      case ModelKey => "model"
      case CpuKey => "cpu"
      case CoresKey => "cores"
      case RamGbKey => "ram_gb"
      case RamTypeKey => "ram_type"
      case StorageTypeKey => "storage_type"
      case StorageGbKey => "storage_gb"
      case SmartStatusKey => "smart_status"
      case DiskKey => "_disk"
      case BatteryPctKey => "battery_pct"
      case GpuKey => "gpu"
      case ResolutionKey => "resolution"
      case ResolutionClassKey => "resolution_class"
      case CpuGenKey => "_cpu_gen"
      case ScreenGradeKey => "screen_grade"
      case ChassisGradeKey => "chassis_grade"
      case ChargerKey => "charger"
      case RecommendationKey => "recommendation"
    }
  }

  /** Distinct keys have distinct names, so a dictionary over `Key` is a
      dictionary over their names. */
  lemma KeyNamesDistinct(k1: Key, k2: Key)
    ensures k1.Name() == k2.Name() ==> k1 == k2
  {
  }

  /** Every key of the dictionary. */
  const AllKeys: set<Key> := {
    ServiceTagKey, ModelKey, CpuKey, CoresKey, RamGbKey, RamTypeKey,
    StorageTypeKey, StorageGbKey, SmartStatusKey, DiskKey, BatteryPctKey,
    GpuKey, ResolutionKey, ResolutionClassKey, CpuGenKey,
    ScreenGradeKey, ChassisGradeKey, ChargerKey, RecommendationKey}

  /** The value `main` stores under `key`. */
  function AuditEntry(h: HardwareRecord, g: Grades, rec: Disposition, key: Key): Cell
  {
    match key
    case ServiceTagKey => Text(h.serviceTag)
    case ModelKey => Text(h.model)
    case CpuKey => Text(h.cpu)
    case CoresKey => Number(h.cores)
    case RamGbKey => Number(h.ramGb)
    case RamTypeKey => Text(h.ramType)
    case StorageTypeKey => Text(h.storageType.Label())
    case StorageGbKey => Number(h.storageGb)
    case SmartStatusKey => Text(h.smartStatus.Label())
    case DiskKey => Text(h.disk)
    case BatteryPctKey => Text(h.batteryPct)
    case GpuKey => Text(h.gpu)
    case ResolutionKey => Text(h.resolution)
    case ResolutionClassKey => Text(h.resolutionClass)
    case CpuGenKey => Number(h.cpuGeneration)
    case ScreenGradeKey => Text(g.screen.Label())
    case ChassisGradeKey => Text(g.chassis.Label())
    case ChargerKey => Text(g.charger.Label())
    case RecommendationKey => Text(rec.Label())
  }

  /** The dictionary `main` builds: the scan's entries, the grades, and the
      recommendation `rec` computed from them (see `Recommend`).  Every key
      is present. */
  function AuditData(h: HardwareRecord, g: Grades, rec: Disposition): (data: map<Key, Cell>)
    ensures forall k: Key :: k in data && data[k] == AuditEntry(h, g, rec, k)
    ensures data[RecommendationKey] == Text(rec.Label())
  {
    var data := map k | k in AllKeys :: AuditEntry(h, g, rec, k);
    assert forall k: Key :: k in AllKeys by {
      forall k: Key
        ensures k in AllKeys
      {
        KeyListed(k);
      }
    }
    data
  }

  lemma KeyListed(k: Key)
    ensures k in AllKeys
  {
    match k
    case ServiceTagKey =>
    case ModelKey =>
    case CpuKey =>
    case CoresKey =>
    case RamGbKey =>
    case RamTypeKey =>
    case StorageTypeKey =>
    case StorageGbKey =>
    case SmartStatusKey =>
    case DiskKey =>
    case BatteryPctKey =>
    case GpuKey =>
    case ResolutionKey =>
    case ResolutionClassKey =>
    case CpuGenKey =>
    case ScreenGradeKey =>
    case ChassisGradeKey =>
    case ChargerKey =>
    case RecommendationKey =>
  }
}
