/** The storage probes of the audit: finding the live USB the system booted
  from (`find_boot_usb_partition`), choosing the internal disk to report
  (`get_primary_disk`) and grading it (`get_storage_info`).
 */
module Disks {
  import opened Common
  import opened Text
  import opened Numbers

  // ---------------------------------------------------------------------------
  // find_boot_usb_partition

  /** Mount points at which live systems mount their boot medium. */
  const LiveMediaMounts: seq<string> :=
    ["/run/archiso/bootmnt", "/run/initramfs/live", "/cdrom", "/live/image"]

  /** A /proc/mounts line whose second field is a live-media mount point. */
  predicate IsLiveMediaLine(line: string) {
    var ws := Words(line);
    |ws| >= 2 && ws[1] in LiveMediaMounts
  }

  predicate HasColumn(line: string) { Words(line) != [] }

  function FirstColumn(line: string): string
    requires HasColumn(line)
  {
    Words(line)[0]
  }

  function LiveMediaPick(line: string): (r: Option<string>)
    ensures r.Some? <==> IsLiveMediaLine(line)
    ensures r.Some? ==> r.value == FirstColumn(line)
  {
    if IsLiveMediaLine(line) then Some(Words(line)[0]) else None
  }

  function FirstColumnPick(line: string): (r: Option<string>)
    ensures r.Some? <==> HasColumn(line)
    ensures r.Some? ==> r.value == FirstColumn(line)
  {
    if HasColumn(line) then Some(Words(line)[0]) else None
  }

  /** `find_boot_usb_partition`, given the text of /proc/mounts and the
      output of `lsblk -nrpo NAME,RM,TYPE | grep '1 part'`. */
  function FindBootUsbPartition(mounts: string, removable: string): (r: string)
    ensures forall i: nat :: FirstWhere(Lines(mounts), IsLiveMediaLine, i) ==>
              r == FirstColumn(Lines(mounts)[i])
    ensures NoneWhere(Lines(mounts), IsLiveMediaLine) ==>
              (forall i: nat :: FirstWhere(Lines(removable), HasColumn, i) ==>
                 r == FirstColumn(Lines(removable)[i]))
    ensures NoneWhere(Lines(mounts), IsLiveMediaLine) && NoneWhere(Lines(removable), HasColumn) ==>
              r == ""
    ensures All(r, IsWordChar)
  {
    var ms := Lines(mounts);
    match FirstHit(ms, LiveMediaPick)
    case Some(h) =>
      assert FirstWhere(ms, IsLiveMediaLine, h.pos);
      FirstWhereUnique(ms, IsLiveMediaLine, h.pos);
      h.value
    case None =>
      assert NoneWhere(ms, IsLiveMediaLine);
      var rs := Lines(removable);
      match FirstHit(rs, FirstColumnPick)
      case Some(h) =>
        assert FirstWhere(rs, HasColumn, h.pos);
        FirstWhereUnique(rs, HasColumn, h.pos);
        h.value
      case None =>
        assert NoneWhere(rs, HasColumn);
        ""
  }

  // ---------------------------------------------------------------------------
  // The boot device's parent: re.sub(r"p?\d+$", "", boot)

  /** Length of the maximal run of digits at the end of `t`. */
  function TrailingDigits(t: string): (n: nat)
    ensures n <= |t|
    ensures All(t[|t| - n..], IsDigit)
    ensures n < |t| ==> !IsDigit(t[|t| - n - 1])
  {
    if t != [] && IsDigit(t[|t| - 1]) then
      var init := t[..|t| - 1];
      var n := TrailingDigits(init);
      var tail := init[|init| - n..];
      assert t[|t| - (n + 1)..] == tail + [t[|t| - 1]];
      assert n < |init| ==> init[|init| - n - 1] == t[|t| - (n + 1) - 1];
      n + 1
    else 0
  }

  /** `p?\d+$` removed where `$` is the very end: the leftmost match starts
      at the maximal trailing digit run, or at a 'p' just before it. */
  function StripAtEnd(t: string): (r: string)
    ensures |r| <= |t| && r == t[..|r|]
  {
    var n := TrailingDigits(t);
    if n == 0 then t
    else
      var k := |t| - n;
      if k > 0 && t[k - 1] == 'p' then t[..k - 1] else t[..k]
  }

  /** `re.sub(r"p?\d+$", "", s)`.  Python's `$` also matches just before a
      final newline, which is then kept. */
  function StripPartitionNumber(s: string): (r: string)
  {
    if s != [] && s[|s| - 1] == '\n' then StripAtEnd(s[..|s| - 1]) + "\n"
    else StripAtEnd(s)
  }

  /** What the substitution removes from a device path: a non-empty digit
      run that is maximal unless a 'p' precedes it, together with that 'p';
      a path not ending in a digit is left alone. */
  lemma StripPartitionNumberSpec(s: string)
    requires All(s, IsWordChar)
    ensures var r := StripPartitionNumber(s);
      && |r| <= |s| && r == s[..|r|]
      && (s == [] || !IsDigit(s[|s| - 1]) <==> r == s)
      && (r != s ==> var cut := s[|r|..];
            (All(cut, IsDigit) && (r == [] || !IsDigit(r[|r| - 1])) && (r == [] || r[|r| - 1] != 'p')) ||
            (cut[0] == 'p' && All(cut[1..], IsDigit) && |cut| >= 2))
  {
    if s != [] {
      assert s[|s| - 1] != '\n';
    }
    var n := TrailingDigits(s);
    if n > 0 {
      var k := |s| - n;
      assert s[k..] == s[|s| - n..];
      if k > 0 && s[k - 1] == 'p' {
        assert s[k - 1..][1..] == s[k..];
      }
    }
  }

  /** A whole-disk name followed by a partition number: the parent is
      recovered when the name does not itself end in a digit or 'p'
      ("/dev/sdb" + "1"). */
  lemma ParentOfNumberedPartition(disk: string, n: nat)
    requires disk != [] && !IsDigit(disk[|disk| - 1]) && disk[|disk| - 1] != 'p'
    requires disk[|disk| - 1] != '\n'
    ensures StripPartitionNumber(disk + NatToDecimal(n)) == disk
  {
    var d := NatToDecimal(n);
    var s := disk + d;
    assert s[..|disk|] == disk;
    TrailingDigitsOfSuffix(disk, d);
  }

  /** A disk name followed by 'p' and a partition number is always cut back
      to the disk name ("/dev/nvme0n1" + "p2"). */
  lemma ParentOfPPartition(disk: string, n: nat)
    ensures StripPartitionNumber(disk + "p" + NatToDecimal(n)) == disk
  {
    var d := NatToDecimal(n);
    var s := disk + "p" + d;
    assert s == (disk + "p") + d;
    TrailingDigitsOfSuffix(disk + "p", d);
    assert s[..|disk|] == disk;
  }

  lemma {:induction false} TrailingDigitsOfSuffix(a: string, d: string)
    requires a != [] && !IsDigit(a[|a| - 1])
    requires All(d, IsDigit)
    ensures TrailingDigits(a + d) == |d|
    decreases |d|
  {
    if d == [] {
      assert a + d == a;
    } else {
      var d' := d[..|d| - 1];
      assert (a + d)[..|a + d| - 1] == a + d';
      TrailingDigitsOfSuffix(a, d');
    }
  }

  /** `boot_parent`: empty when no boot partition was found. */
  function BootParent(boot: string): string
  {
    if boot != "" then StripPartitionNumber(boot) else ""
  }

  // ---------------------------------------------------------------------------
  // get_primary_disk

  /** An `lsblk -dnpo NAME,TYPE,RM` line for a non-removable whole disk. */
  predicate IsFixedDiskLine(line: string) {
    var ws := Words(line);
    |ws| >= 3 && ws[1] == "disk" && ws[2] == "0"
  }

  predicate IsPrimaryCandidate(line: string, bootParent: string) {
    IsFixedDiskLine(line) && Words(line)[0] != bootParent
  }

  predicate FirstCandidate(ls: seq<string>, bootParent: string, i: nat) {
    i < |ls| && IsPrimaryCandidate(ls[i], bootParent) &&
    forall j :: 0 <= j < i ==> !IsPrimaryCandidate(ls[j], bootParent)
  }

  function CandidatePick(line: string, bootParent: string): (r: Option<string>)
    ensures r.Some? <==> IsPrimaryCandidate(line, bootParent)
    ensures r.Some? ==> r.value == Words(line)[0]
  {
    if IsPrimaryCandidate(line, bootParent) then Some(Words(line)[0]) else None
  }

  /** The disk chosen once the boot medium's parent is known; the two flags
      say whether /dev/nvme0n1 and /dev/sda exist. */
  function PrimaryDisk(blockDevices: string, bootParent: string, nvmeExists: bool, sdaExists: bool): (r: string)
    ensures forall i: nat :: FirstCandidate(Lines(blockDevices), bootParent, i) ==>
              r == Words(Lines(blockDevices)[i])[0]
    ensures (forall i :: 0 <= i < |Lines(blockDevices)| ==> !IsPrimaryCandidate(Lines(blockDevices)[i], bootParent)) ==>
              r == (if nvmeExists then "/dev/nvme0n1" else if sdaExists then "/dev/sda" else "")
  {
    var ls := Lines(blockDevices);
    match FirstHit(ls, l => CandidatePick(l, bootParent))
    case Some(h) =>
      assert CandidatePick(ls[h.pos], bootParent) == Some(h.value);
      assert FirstCandidate(ls, bootParent, h.pos) by {
        forall j | 0 <= j < h.pos
          ensures !IsPrimaryCandidate(ls[j], bootParent)
        {
          assert CandidatePick(ls[j], bootParent).None?;
        }
      }
      h.value
    case None =>
      assert forall i :: 0 <= i < |ls| ==> CandidatePick(ls[i], bootParent).None?;
      if nvmeExists then "/dev/nvme0n1"
      else if sdaExists then "/dev/sda"
      else ""
  }

  /** `get_primary_disk` */
  function GetPrimaryDisk(mounts: string, removable: string, blockDevices: string,
                          nvmeExists: bool, sdaExists: bool): string
  {
    PrimaryDisk(blockDevices, BootParent(FindBootUsbPartition(mounts, removable)), nvmeExists, sdaExists)
  }

  /** The chosen disk is never the whole disk holding the boot partition:
      any lsblk name it returns differs from the boot parent. */
  lemma PrimaryDiskSkipsBootMedium(blockDevices: string, bootParent: string, nvmeExists: bool, sdaExists: bool, i: nat)
    requires FirstCandidate(Lines(blockDevices), bootParent, i)
    ensures PrimaryDisk(blockDevices, bootParent, nvmeExists, sdaExists) != bootParent
    ensures IsFixedDiskLine(Lines(blockDevices)[i])
  {
  }

  // ---------------------------------------------------------------------------
  // get_storage_info

  datatype StorageKind = NVMe | SATA | NoDisk {
    function Label(): string {
      match this
      case NVMe => "NVMe"
      case SATA => "SATA"
      case NoDisk => "N/A"
    }
  }

  datatype SmartStatus = Passed | Failed | Unknown {
    function Label(): string {
      match this
      case Passed => "PASSED"
      case Failed => "FAILED"
      case Unknown => "N/A"
    }
  }

  datatype StorageInfo = StorageInfo(kind: StorageKind, capacityGb: int, smart: SmartStatus)

  /** Bytes in a (decimal) gigabyte. */
  const BytesPerGB: nat := 1000000000

  /** The health verdict of `smartctl -H`: PASSED is looked for first. */
  function SmartVerdict(out: string): (s: SmartStatus)
    ensures s == Passed <==> Contains(out, "PASSED")
    ensures s == Failed <==> !Contains(out, "PASSED") && Contains(out, "FAILED")
    ensures s == Unknown <==> !Contains(out, "PASSED") && !Contains(out, "FAILED")
  {
    if Contains(out, "PASSED") then Passed
    else if Contains(out, "FAILED") then Failed
    else Unknown
  }

  /** `get_storage_info(disk)`, given the outputs of `lsblk -bdn -o SIZE disk`
      and `smartctl -H disk`. */
  function GetStorageInfo(disk: string, sizeText: string, smartText: string): (r: StorageInfo)
    ensures disk == "" ==> r == StorageInfo(NoDisk, 0, Unknown)
    ensures disk != "" ==> r.kind != NoDisk && (r.kind == NVMe <==> Contains(disk, "nvme"))
    ensures disk != "" && PyInt(sizeText).None? ==> r.capacityGb == 0
    ensures disk != "" && PyInt(sizeText).Some? ==>
              var b := PyInt(sizeText).value;
              2 * (b - r.capacityGb * BytesPerGB) <= BytesPerGB &&
              2 * (r.capacityGb * BytesPerGB - b) <= BytesPerGB &&
              r.capacityGb == RoundHalfEven(b, BytesPerGB)
    ensures disk != "" ==> r.smart == SmartVerdict(smartText)
  {
    if disk == "" then StorageInfo(NoDisk, 0, Unknown)
    else
      var kind := if Contains(disk, "nvme") then NVMe else SATA;
      var gb := match PyInt(sizeText)
                case None => 0
                case Some(b) => RoundHalfEven(b, BytesPerGB);
      StorageInfo(kind, gb, SmartVerdict(smartText))
  }

  /** A 512 GB NVMe drive that passes its self-test:
      512110190592 bytes round to 512. */
  lemma StorageExample()
    ensures GetStorageInfo("/dev/nvme0n1", "512110190592", "test result: PASSED") ==
            StorageInfo(NVMe, 512, Passed)
  {
    assert OccursAt("/dev/nvme0n1", "nvme", 5);
    assert OccursAt("test result: PASSED", "PASSED", 13);
    SizeTextExample();
    RoundHalfEvenUnique(512110190592, BytesPerGB, 512);
  }

  lemma SizeTextExample()
    ensures PyInt("512110190592") == Some(512110190592)
  {
    SizePrefixExample();
    assert NatToDecimal(5121101) == "5121101";
    assert NatToDecimal(51211019) == "51211019";
    assert NatToDecimal(512110190) == "512110190";
    assert NatToDecimal(5121101905) == "5121101905";
    assert NatToDecimal(51211019059) == "51211019059";
    assert NatToDecimal(512110190592) == "512110190592";
    PyIntOfDecimal(512110190592);
  }

  /** The first six digits of the example size, written one digit at a time. */
  lemma SizePrefixExample()
    ensures NatToDecimal(512110) == "512110"
  {
    assert NatToDecimal(5) == "5";
    assert NatToDecimal(51) == "51";
    assert NatToDecimal(512) == "512";
    assert NatToDecimal(5121) == "5121";
    assert NatToDecimal(51211) == "51211";
  }

  /** "/dev/sdb1" has parent "/dev/sdb" and "/dev/nvme0n1p2" has parent
      "/dev/nvme0n1". */
  lemma PartitionParentExamples()
    ensures StripPartitionNumber("/dev/sdb1") == "/dev/sdb"
    ensures StripPartitionNumber("/dev/nvme0n1p2") == "/dev/nvme0n1"
  {
    assert NatToDecimal(1) == "1";
    ParentOfNumberedPartition("/dev/sdb", 1);
    assert "/dev/sdb" + NatToDecimal(1) == "/dev/sdb1";
    assert NatToDecimal(2) == "2";
    ParentOfPPartition("/dev/nvme0n1", 2);
    assert "/dev/nvme0n1" + "p" + NatToDecimal(2) == "/dev/nvme0n1p2";
  }

  /** A SATA disk named with a 'p' before its number loses the 'p' as well:
      "/dev/sdp1" becomes "/dev/sd", a name no lsblk row carries, so the
      boot medium "/dev/sdp" is not excluded. */
  lemma PartitionParentSwallowsP()
    ensures StripPartitionNumber("/dev/sdp1") == "/dev/sd"
  {
    assert NatToDecimal(1) == "1";
    ParentOfPPartition("/dev/sd", 1);
    assert "/dev/sd" + "p" + NatToDecimal(1) == "/dev/sdp1";
  }
}
