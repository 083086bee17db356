/** Shared result types and the integer widths of the modelled program. */
module Basics {

  datatype Option<+T> = None | Some(value: T)

  datatype Result<+T> = Ok(value: T) | Err(error: Error)

  /** The business errors of the services, plus storage failures (`Unavailable`, `Rejected`). */
  datatype Error =
    | NotFound
    | VersionConflict
    | DecisionLocked
    | NotDecisionOwner
    | ReviewRole
    | SeparationOfDuty
    | InvalidInput
    | InvalidTransition
    | AuditFailed
    | Rejected     // a unique index or a column range refused the write
    | Unavailable  // the statement itself failed

  /** Go's `uint` on a 64-bit platform. */
  type Uint = n: nat | n < 0x1_0000_0000_0000_0000

  /** Versions live in a signed 64-bit column, so nothing from here up can be stored. */
  const VERSION_LIMIT: nat := 0x8000_0000_0000_0000

  /** `ExpectedVersion + 1` with Go's wrap-around. */
  function NextVersion(v: Uint): Uint {
    if v == 0xFFFF_FFFF_FFFF_FFFF then 0 else v + 1
  }

  function Min(a: int, b: int): int {
    if a < b then a else b
  }
}
