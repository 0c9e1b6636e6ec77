/** Shared result types of the audit model.

  The audit script degrades every failed probe to a sentinel string, but three
  spots in it raise an uncaught exception on malformed probe text.  Those are
  modelled as `Err` values of `Result`, everything else as ordinary values.
 */
module Common {

  datatype Option<+T> = None | Some(value: T)

  /** A match found by a scan: where it was found and what it produced. */
  datatype Hit<+T> = Hit(pos: nat, value: T)

  /** The uncaught exceptions of the hardware scan. */
  datatype ScanError =
    | CpuModelWithoutColon    // IndexError: a "model name" line without ':'
    | MemTotalWithoutDigits   // IndexError: a "MemTotal" line without any digit
    | BadBatteryNumber        // ValueError: float() of a token such as "1.2.3"

  datatype Result<+T> = Ok(value: T) | Err(error: ScanError)
}
