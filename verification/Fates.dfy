/** What can become of what is asked of the database. */
module Fates {
  /** Of one statement or transaction: carried out; refused; or carried out with the answer lost. */
  datatype Fate = Done | Refused | Unreported

  /** Nothing decides which. */
  method Attempt() returns (fate: Fate) {
    if * { fate := Done; } else if * { fate := Refused; } else { fate := Unreported; }
  }
}
