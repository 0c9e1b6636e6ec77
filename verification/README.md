# Laptop auditor: hardware scan and value logic

The laptop auditor runs from a live USB stick. It probes the machine with
`/proc` files, `dmidecode`, `lsblk`, `smartctl`, `upower`, `lspci` and
`xrandr`, and it parses every probe's text into one hardware record. The
operator then grades the screen, the chassis and the charger. An ordered
rule set turns the record and the grades into one of four dispositions, and
the result is appended as a row to a CSV ledger.

This project models the pure part of that pipeline in Dafny:

- the field parsers, each over the probe's text taken as an input string;
- the boot-medium and primary-disk selection;
- the CPU-generation heuristic;
- the recommendation rules;
- the mapping of an audit record onto the ledger's columns.

Python's text built-ins are modelled with their Python meaning:

- `splitlines` uses the full set of Python line boundaries, and `\r\n`
  counts as one.
- `split()`, `strip()` and the regex class `\s` use the full `str.isspace`
  set.
- `int()` accepts surrounding whitespace, a sign, and single underscores
  between digits.
- `round()` rounds half to even.
- `re.search` is a leftmost scan. The greedy and backtracking behaviour of
  each pattern is spelled out in its `…At` function.

The probe helpers `run` and `read_file` are documented to return '' on
failure (audit.py:49, 60), and `get_battery_health` to return a percentage
or 'N/A' (audit.py:253). Even so, three parsers raise on some malformed
inputs, and the source does not catch those exceptions. The model returns them as
errors of a `Result`:

- a "model name" line without a colon;
- a "MemTotal" line without digits;
- an energy reading such as "1.2.3" that `float()` rejects.

`HardwareScan` returns the first of these in scan order. Numbers too large
for a double also raise in Python; "## Left out" lists those cases.

Modules, in dependency order:

- `common.dfy`: `Option`, `Result`, `Hit` and the scan errors.
- `text.dfy`: lines, words, strip, substring search, `lower()` and generic
  first/last-line scans.
- `numbers.dfy`: digits, `str()`/`int()` of integers, round-half-even.
- `cpu.dfy` and `cpu_examples.dfy`: `get_cpu_info`, `parse_cpu_generation`
  and its documented examples.
- `memory.dfy`: `get_ram_total_gb` and `get_ram_type`.
- `disks.dfy`: `find_boot_usb_partition`, `get_primary_disk` and
  `get_storage_info`.
- `battery.dfy`: `get_battery_health`.
- `graphics.dfy`: `get_discrete_gpu` and `get_screen_resolution`.
- `recommendation.dfy`: `compute_recommendation`.
- `audit.dfy`: `run_hardware_scan` and the audit dictionary.
- `ledger.dfy`: the row `export_to_csv` writes.

The code and its own docstrings disagree in two places. The model follows
the code in both:

- **The `i7-1185G7` example.** The docstring of `parse_cpu_generation`
  (audit.py:322) says it gives 11. The code captures "1185", which has four
  digits, so it returns 1. `CpuExamples.Example1185G7` proves that the
  model returns 1.
- **Malformed probe output.** The probe helpers promise '' on failure
  (audit.py:49, 60) and the battery probe promises 'N/A' (audit.py:253),
  which suggests every probe degrades to a sentinel. The three inputs
  listed above raise instead.

## Model

| member | source | states |
|---|---|---|
| Text.Lines | usb_files/audit.py:175 | `splitlines()` yields lines free of line boundaries, and non-empty text has at least one line |
| Text.LinesOfJoin | usb_files/audit.py:175 | joining break-free lines with "\n" and splitting again gives the same lines back |
| Text.Words | usb_files/audit.py:103 | `split()` yields non-empty words without whitespace |
| Text.WordsOfJoin | usb_files/audit.py:103 | joining words with single spaces and splitting again gives the same words back |
| Text.Strip | usb_files/audit.py:258 | `strip()` leaves no whitespace at either end and leaves already-trimmed text alone |
| Text.AfterFirst | usb_files/audit.py:279 | `split(sep, 1)[1]` exists exactly when `sep` occurs, and it is the text after the leftmost occurrence |
| Text.FieldValue | usb_files/audit.py:177 | the value of `split(":", 1)[1].strip()` exists exactly when the line has a colon |
| Text.LowerFixesLower | usb_files/audit.py:276 | `lower()` changes exactly the capitals: text is its own lower case exactly when it has no capital, the result has none, and lowering is idempotent |
| Text.SearchLeftmost | usb_files/audit.py:329 | `re.search` reports the leftmost position where the pattern matches |
| Numbers.NatToDecimal | usb_files/audit.py:268 | `str(n)` is a canonical numeral whose value is `n` |
| Numbers.DecimalOfValue | usb_files/audit.py:268 | a canonical numeral is `str()` of its own value: the other half of the round trip |
| Numbers.FirstInteger | usb_files/audit.py:188 | `re.findall(r"\d+", line)[0]` is missing exactly when the line has no digit |
| Numbers.FirstIntegerAt | usb_files/audit.py:188 | when a digit occurs, the integer read is the value of the leftmost maximal digit run, the first item `re.findall` lists |
| Numbers.PyIntOfDecimal | usb_files/audit.py:236 | `int(str(i)) == i` for every integer |
| Numbers.PyIntNeedsDigit | usb_files/audit.py:481 | `int()` rejects text without a digit, such as "N/A" |
| Numbers.RoundHalfEven | usb_files/audit.py:189 | `round(n / d)` is within half of the quotient, goes to the even neighbour on a tie, and is not negative for `n >= 0` |
| Numbers.RoundHalfEvenUnique | usb_files/audit.py:189 | those properties single out `round()`'s result |
| Numbers.DecimalWidth | usb_files/audit.py:290 | a number has at most `k` digits exactly when it is below `10^k` |
| Cpu.GetCpuInfo | usb_files/audit.py:170-180 | the core count is the number of "processor" lines; the only failure is the missing-colon error |
| Cpu.NoProcessorNoCores | usb_files/audit.py:178-179 | the core count is zero exactly when no line starts with "processor" |
| Cpu.CpuModelFirstValue | usb_files/audit.py:176-177 | the model is the value of the first "model name" line whose value is not "N/A" |
| Cpu.CpuModelMissingColon | usb_files/audit.py:176-177 | a colon-less "model name" line, reached while the model is still "N/A", makes the scan fail |
| Cpu.CpuModelUnknown | usb_files/audit.py:172-180 | with no "model name" value other than "N/A", the model stays "N/A" |
| Cpu.IntelAt | usb_files/audit.py:329 | the greedy Intel capture has two to five digits |
| Cpu.IntelGeneration | usb_files/audit.py:331-335 | only four- and five-digit captures give a generation, and it is below 100 |
| Cpu.ParseCpuGeneration | usb_files/audit.py:317-340 | the generation is at most 99 and is non-zero only when one of the two patterns matched |
| Cpu.IntelRule | usb_files/audit.py:329-335 | at the leftmost Intel match, four digits give the first digit and five give the first two |
| Cpu.RyzenRule | usb_files/audit.py:337-339 | when the Intel branch gives nothing, the leftmost Ryzen match gives the digit after the tier |
| Cpu.NoGenerationRule | usb_files/audit.py:329-340 | with neither a usable Intel capture nor a Ryzen match, the generation is 0 |
| Cpu.NoIntelAnywhere | usb_files/audit.py:329 | text without an "i" has no Intel match at any position, so the Intel branch gives nothing |
| Cpu.NoRyzenAnywhere | usb_files/audit.py:337 | text without an "R" has no Ryzen match |
| CpuExamples.Example8565U | usb_files/audit.py:321 | "i7-8565U" gives 8 |
| CpuExamples.Example1185G7 | usb_files/audit.py:322 | "i7-1185G7" gives 1, not the 11 the docstring claims |
| CpuExamples.Example13500H | usb_files/audit.py:323 | "i5-13500H" gives 13 |
| CpuExamples.Example14700H | usb_files/audit.py:324 | "i7-14700H" gives 14 |
| CpuExamples.ExampleRyzen | usb_files/audit.py:325 | "Ryzen 7 5800H" gives 5 |
| CpuExamples.ExampleCeleron | usb_files/audit.py:326 | "Celeron N4000" gives 0 |
| CpuExamples.ExampleSixDigits | usb_files/audit.py:329 | a six-digit run is cut to five digits by the greedy group |
| CpuExamples.ExampleThreeDigits | usb_files/audit.py:329-340 | a three-digit Intel capture falls through to the Ryzen pattern, and the result is 0 |
| Memory.GetRamTotalGb | usb_files/audit.py:183-190 | the first "MemTotal" line gives its first integer in kB, rounded to the nearest GiB with ties to the even neighbour; without digits it fails; with no such line the total is 0 |
| Memory.RamTypePick | usb_files/audit.py:197-198 | a line the selection picks always has a colon, so its `split(":", 1)[1]` value exists and does not raise |
| Memory.GetRamType | usb_files/audit.py:193-199 | the type is the value on the first line naming "Type:" and "DDR", or "N/A" when there is none |
| Disks.FindBootUsbPartition | usb_files/audit.py:93-117 | the first column of the first live-media mount line, else the first column of the first removable-partition line, else "" |
| Disks.StripPartitionNumberSpec | usb_files/audit.py:209 | `p?\d+$` removes a non-empty trailing digit run, together with a 'p' just before it, and changes nothing else |
| Disks.ParentOfNumberedPartition | usb_files/audit.py:209 | a disk name not ending in a digit or 'p', followed by a partition number, is cut back to the disk name |
| Disks.ParentOfPPartition | usb_files/audit.py:209 | a disk name followed by 'p' and a partition number is cut back to the disk name |
| Disks.PartitionParentExamples | usb_files/audit.py:209 | "/dev/sdb1" gives "/dev/sdb" and "/dev/nvme0n1p2" gives "/dev/nvme0n1" |
| Disks.PartitionParentSwallowsP | usb_files/audit.py:209 | "/dev/sdp1" loses its 'p' as well and becomes "/dev/sd" |
| Disks.PrimaryDisk | usb_files/audit.py:211-222 | the first fixed whole disk other than the boot parent, else "/dev/nvme0n1", then "/dev/sda", then "", by the existence flags |
| Disks.PrimaryDiskSkipsBootMedium | usb_files/audit.py:214-216 | when a candidate line exists, the chosen disk is never the boot parent |
| Disks.SmartVerdict | usb_files/audit.py:241-247 | PASSED when the output says so, whether or not it also says FAILED; else FAILED; else N/A |
| Disks.GetStorageInfo | usb_files/audit.py:225-249 | no disk gives ("N/A", 0, "N/A"); NVMe exactly when the path contains "nvme"; capacity 0 when `int()` fails, else the nearest whole GB with ties to the even neighbour; SMART as above |
| Disks.StorageExample | usb_files/audit.py:233-236 | 512110190592 bytes on an NVMe disk that passes its self-test give 512 GB |
| Battery.FirstNumber | usb_files/audit.py:260 | the first `[\d.]+` token is missing exactly when the line has no digit or dot |
| Battery.FirstNumberAt | usb_files/audit.py:260 | when a digit or dot occurs, the token is the leftmost maximal run of digits and dots, the first item `re.findall` lists |
| Battery.ParseFloat | usb_files/audit.py:262 | `float()` accepts a digit-and-dot token exactly when it has a digit and at most one dot |
| Battery.ParseFloatOfDigits | usb_files/audit.py:262 | `float()` of a digit string is the number those digits spell |
| Battery.ParseFloatOfPoint | usb_files/audit.py:262 | `float()` of `a.b` is the value of `a` plus the fraction `b / 10^len(b)` |
| Battery.StepMeaning | usb_files/audit.py:258-266 | one loop iteration fails exactly on a bad line; otherwise each reading found replaces the old one |
| Battery.ScanMeaning | usb_files/audit.py:257-266 | the loop fails exactly when some selected line has a bad number; otherwise each reading is that of the last line selecting it |
| Battery.Percentage | usb_files/audit.py:267-269 | "N/A" exactly unless the full reading is non-zero and the design reading positive; otherwise the decimal of the nearest percentage |
| Battery.PercentMeaning | usb_files/audit.py:268 | the integer rounding is the rounding of `100 * full / design` |
| Battery.GetBatteryHealth | usb_files/audit.py:252-269 | the health is the percentage of the last full and last design readings, or the error of a bad number |
| Battery.NoDesignNoPercentage | usb_files/audit.py:263-269 | without a design line there is no percentage |
| Battery.ZeroReadingGivesNothing | usb_files/audit.py:267-269 | a zero full or design reading gives "N/A" |
| Battery.PercentageExamples | usb_files/audit.py:267-268 | 42.0 of 50.0 is "84", and 41 of 50 is "82" |
| Graphics.GpuDescription | usb_files/audit.py:279-280 | the text after the first ": ", stripped, or "Discrete GPU" when there is none |
| Graphics.GpuTestIgnoresCase | usb_files/audit.py:276-277 | the discrete-GPU test reads the lower-cased line, so a line and its lower case are classified alike |
| Graphics.GetDiscreteGpu | usb_files/audit.py:272-281 | the description on the first discrete-GPU line, or "None" |
| Graphics.ModeAtBounds | usb_files/audit.py:290-292 | a `WxH` match has sides of at most five digits, so below 100000 |
| Graphics.Best | usb_files/audit.py:288-294 | the kept mode has an area at least that of every line's match, and it is the start or some line's match |
| Graphics.BestIsEarliest | usb_files/audit.py:293-294 | ties keep the earlier line: every line before the chosen one has a smaller area |
| Graphics.BestFromZero | usb_files/audit.py:297 | from (0, 0), the width stays 0 exactly when no line has a mode of positive area |
| Graphics.ChosenModeZero | usb_files/audit.py:287-309 | no width is found exactly when neither xrandr nor the DRM files offer a mode of positive area |
| Graphics.GetScreenResolution | usb_files/audit.py:284-314 | ("N/A", "N/A") exactly when no positive-area mode exists; otherwise `WxH` of the chosen mode, "4K/Retina Class" exactly when the width exceeds 2500 |
| Graphics.ResolutionTextRoundTrip | usb_files/audit.py:290-312 | the `WxH` text of a mode with three- to five-digit sides is read back as that mode |
| Recommendation.BatteryValueOfPercentage | usb_files/audit.py:480-483 | `int()` reads a percentage written by the battery probe back as itself, and "N/A" counts as 0 |
| Recommendation.Classify | usb_files/audit.py:472-494 | repair exactly on FAILED or a C grade; otherwise high value exactly with a GPU; otherwise bad battery exactly below 60, else standard resale |
| Recommendation.LabelsDistinct | usb_files/audit.py:486-494 | the four disposition labels are distinct, so the ledger's recommendation column identifies the disposition |
| Recommendation.CpuGenerationIrrelevant | usb_files/audit.py:490-491 | the CPU-generation branch never changes the outcome: two generations give the same disposition, since the fall-through also gives Standard Resale |
| Recommendation.RepairDominates | usb_files/audit.py:486-487 | each repair condition alone forces PARTS/REPAIR, whatever the other inputs |
| Recommendation.UnreadableBatteryIsBad | usb_files/audit.py:480-493 | without a GPU or repair condition, a battery text without digits gives the discount |
| Recommendation.GpuScenario | usb_files/audit.py:488-489 | a sound unit with an NVIDIA GPU, generation 11 and battery 80 is HIGH VALUE |
| Recommendation.WeakBatteryScenario | usb_files/audit.py:490-493 | a sound unit without a GPU, generation 6 and battery 55 is Bad Battery |
| Audit.Identity | usb_files/audit.py:162-167 | the service tag and model are never empty: the probe's text when it printed something, otherwise "N/A" |
| Audit.HardwareScan | usb_files/audit.py:343-393 | the scan fails exactly when the CPU, RAM or battery parser fails, with the first of those errors; otherwise every field is its probe parser's result on that probe's text (identity, CPU model and cores, RAM total and type, storage of the chosen disk, battery, GPU, resolution), the generation is parsed from the scanned model, and storage is N/A exactly when no disk was chosen |
| Audit.Recommend | usb_files/audit.py:486-487 | on a scanned unit, repair is recommended exactly for a failed self-test or a C grade |
| Audit.KeyNamesDistinct | usb_files/audit.py:353-385 | the dictionary's keys are distinct strings |
| Audit.AuditData | usb_files/audit.py:350-385 | every one of the 19 keys is present, with the value `main` stores under it, including the internal "_disk" and "_cpu_gen" entries and the recommendation |
| Ledger.HeadersAreKeys | usb_files/audit.py:26-32 | the ledger header is "timestamp" followed by the names of the exported keys, in order |
| Ledger.HeadersDistinct | usb_files/audit.py:26-32 | the 18 column names are distinct |
| Ledger.InternalKeysNotExported | usb_files/audit.py:506-525 | "_disk" and "_cpu_gen" never reach the ledger |
| Ledger.ColumnOfKey | usb_files/audit.py:506-525 | the column named after a key holds `str(data.get(key, default))`: the entry when present, otherwise the column's literal default |
| Ledger.LedgerRow | usb_files/audit.py:506-531 | the written row has one field per header, with the timestamp first |
| Ledger.AuditRow | usb_files/audit.py:506-525 | for a completed audit every column holds the entry `main` stored under its key, so no default is used |
| Ledger.EmptyRow | usb_files/audit.py:506-525 | an empty dictionary gives "N/A" everywhere, except 0 for the counts, "None" for the GPU and "" for the grades, charger and recommendation |
| Ledger.ZeroRendersAsZero | usb_files/audit.py:511-515 | the numeric default 0 is written as "0" |

## Left out

- Running commands and reading files (`run`, `read_file`, timeouts) are not modelled. Their stripped text is an input, and a failure is the empty text.
- Mounting and unmounting the USB stick (`mount_usb_rw`, `sync_and_unmount`) are not modelled: they are side effects on the system.
- Interactive grading (`display_test`, `getch`, `prompt_choice`, `pause`) is left out because it is terminal I/O. Its answers are the `Grades` input.
- CSV writing is left out: the file-existence check, the header line, `csv` quoting and the append. The model stops at the row's field values.
- The clock is left out. The formatted timestamp is an input.
- `print_summary`, `main`'s printing and the progress output of `run_hardware_scan` are left out.
- `offer_wipe` is left out because it runs destructive external commands behind keyboard input.
- The `/sys/class/drm/*/modes` glob is not modelled. The files' contents are an input list in visiting order, and an empty list stands for a missing directory.
- The `os.path.exists` checks on `/dev/nvme0n1` and `/dev/sda` are boolean inputs.
- Battery.GetBatteryHealth: the percentage is computed exactly from the decimal readings. Python converts them with `float()` and divides in binary floating point, so a ratio lying within rounding error of a .5 boundary, or a reading too long for a double, can differ.
- Battery.GetBatteryHealth: an energy reading of 309 or more digits is `inf` as a float. `round()` of the resulting `inf` or `nan` at audit.py:268 then raises an uncaught exception. The model computes the exact percentage instead.
- Memory.GetRamTotalGb: `kb / 1_048_576` at audit.py:189 raises OverflowError when the quotient exceeds the double range (about 1.8e308). The model rounds the exact quotient instead.
- Disks.GetStorageInfo: `int(size_bytes) / 1_000_000_000` at audit.py:236 raises OverflowError when the quotient exceeds the double range. `except ValueError` at audit.py:237 does not catch it. The model rounds the exact quotient instead.
- Numbers.RoundHalfEven: `kb / 1048576` and `bytes / 10^9` are rounded as exact rationals. Python rounds the double quotient. For the first the double is exact for realistic sizes. For the second, no realistic byte count lies that close to a .5 boundary.
- Numbers.FirstInteger, Numbers.PyInt, Cpu.IntelAt, Cpu.RyzenAt, Graphics.ModeAt, Battery.NumberAt, Disks.TrailingDigits, Disks.StripPartitionNumber: Python's `\d` and `int()` also accept non-ASCII decimal digits. The model knows only '0'..'9'.
- Text.ToLower: only ASCII capitals are lowered, one character for one. Python's `lower()` also lowers other letters and does not always keep the length: `'İ'.lower()` is 'i' followed by a combining dot. The GPU test is unaffected. The only non-ASCII characters whose lower case holds an ASCII letter are 'İ' and the Kelvin sign ('k'). 'k' occurs in none of "nvidia", "amd" and "radeon", and the combining dot after the 'i' breaks any match, because no needle ends in 'i'.
- Recommendation.Classify: it takes the scanned and graded values directly. The `data.get` defaults of `compute_recommendation` are not modelled, because `main` always calls it with every key present.
