/** The value logic of the audit, `compute_recommendation`: an ordered rule
  set turning the scanned facts and the operator's grades into one of four
  dispositions.
 */
module Recommendation {
  import opened Common
  import opened Text
  import opened Numbers
  import opened Disks

  /** The operator's answer to "Rate Screen/Chassis Condition?". */
  datatype Grade = A | B | C {
    function Label(): string {
      match this
      case A => "A"
      case B => "B"
      case C => "C"
    }
  }

  /** The operator's answer to "Charger Included?". */
  datatype Charger = Y | N {
    function Label(): string {
      match this
      case Y => "Y"
      case N => "N"
    }
  }

  datatype Disposition = PartsRepair | HighValue | StandardResale | BadBattery {
    function Label(): string {
      match this
      case PartsRepair => "PARTS/REPAIR"
      case HighValue => "HIGH VALUE (Gaming/Creator)"
      case StandardResale => "Standard Resale"
      case BadBattery => "Bad Battery (Discount)"
    }
  }

  /** The battery percentage as the rules read it: `int()` of the text, with
      anything `int()` rejects (such as "N/A") counted as 0. */
  function BatteryValue(battery: string): (b: int)
    ensures PyInt(battery).Some? ==> b == PyInt(battery).value
    ensures PyInt(battery).None? ==> b == 0
  {
    match PyInt(battery)
    case Some(b) => b
    case None => 0
  }

  /** The battery text reads back as the percentage the battery probe wrote,
      and its "N/A" counts as 0. */
  lemma BatteryValueOfPercentage(p: nat)
    ensures BatteryValue(NatToDecimal(p)) == p
    ensures BatteryValue("N/A") == 0
  {
    PyIntOfDecimal(p);
    PyIntNeedsDigit("N/A");
  }

  /** Any condition that sends the unit to parts or repair. */
  predicate NeedsRepair(smart: SmartStatus, screen: Grade, chassis: Grade) {
    smart == Failed || screen == C || chassis == C
  }

  /** `compute_recommendation`, rules tried in order: repair, discrete GPU,
      recent CPU with a good battery, weak battery, and otherwise standard
      resale.  The contract describes the outcome without the CPU rule: its
      cases all end in standard resale anyway. */
  function Classify(smart: SmartStatus, screen: Grade, chassis: Grade, gpu: string,
                    cpuGeneration: int, battery: string): (r: Disposition)
    ensures r == PartsRepair <==> NeedsRepair(smart, screen, chassis)
    ensures r == HighValue <==> !NeedsRepair(smart, screen, chassis) && gpu != "None"
    ensures r == BadBattery <==>
              !NeedsRepair(smart, screen, chassis) && gpu == "None" && BatteryValue(battery) < 60
    ensures r == StandardResale <==>
              !NeedsRepair(smart, screen, chassis) && gpu == "None" && BatteryValue(battery) >= 60
  {
    var batt := BatteryValue(battery);
    if smart == Failed || screen == C || chassis == C then PartsRepair
    else if gpu != "None" then HighValue
    else if cpuGeneration >= 8 && batt > 65 then StandardResale
    else if batt < 60 then BadBattery
    else StandardResale
  }

  /** The CPU generation never changes the recommendation. */
  lemma CpuGenerationIrrelevant(smart: SmartStatus, screen: Grade, chassis: Grade, gpu: string,
                                battery: string, g1: int, g2: int)
    ensures Classify(smart, screen, chassis, gpu, g1, battery) ==
            Classify(smart, screen, chassis, gpu, g2, battery)
  {
  }

  /** A failed self-test, or a C grade for screen or chassis, forces repair
      whatever the GPU, generation and battery. */
  lemma RepairDominates(smart: SmartStatus, screen: Grade, chassis: Grade, gpu: string,
                        cpuGeneration: int, battery: string)
    requires smart == Failed || screen == C || chassis == C
    ensures Classify(smart, screen, chassis, gpu, cpuGeneration, battery) == PartsRepair
  {
  }

  /** A battery reading that is not a number, such as "N/A", counts as an
      empty battery. */
  lemma UnreadableBatteryIsBad(smart: SmartStatus, screen: Grade, chassis: Grade,
                               cpuGeneration: int, battery: string)
    requires !NeedsRepair(smart, screen, chassis)
    requires forall i :: 0 <= i < |battery| ==> !IsDigit(battery[i])
    ensures Classify(smart, screen, chassis, "None", cpuGeneration, battery) == BadBattery
  {
    PyIntNeedsDigit(battery);
  }

  /** The four labels are distinct, so the label determines the disposition. */
  lemma LabelsDistinct(x: Disposition, y: Disposition)
    ensures x.Label() == y.Label() ==> x == y
  {
  }

  /** A GPU on an otherwise sound unit, with generation 11 and battery 80:
      the GPU rule fires before the battery and generation rules. */
  lemma GpuScenario()
    ensures Classify(Passed, A, A, "NVIDIA GeForce RTX 3050", 11, "80").Label() ==
            "HIGH VALUE (Gaming/Creator)"
  {
  }

  /** No GPU, generation 6 and battery 55: a discounted unit. */
  lemma WeakBatteryScenario()
    ensures Classify(Passed, A, A, "None", 6, "55").Label() == "Bad Battery (Discount)"
  {
    assert NatToDecimal(5) == "5";
    assert NatToDecimal(55) == "55";
    PyIntOfDecimal(55);
  }
}
