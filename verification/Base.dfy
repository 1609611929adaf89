/** Row numbers, result types and the enumerations several tables share. */
module Base {

  /** A table is a sequence that only grows; a row's key is its position in it. */
  type Id = nat

  datatype Option<+T> = None | Some(value: T)

  datatype Result<+T, +E> = Ok(value: T) | Err(error: E)

  datatype PayUnit = PerDay | PerHour | PerMonth | PerTask

  /** The placement_status enumeration. Nothing in the application assigns Replaced. */
  datatype Status =
    | Offered | Accepted | Declined | Active | Completed
    | NoShow | Terminated | Replaced | Cancelled

  /** Holding the candidate's time: what the overlap guard looks at. */
  predicate Live(s: Status) {
    s == Offered || s == Accepted || s == Active
  }
}
