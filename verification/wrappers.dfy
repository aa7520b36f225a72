/** Plain option and outcome datatypes shared by the scheduler modules. */
module Wrappers {

  /** A value that may be absent (a null `Dictionary::Ptr`, a missing segment). */
  datatype Option<+T> = None | Some(value: T)

  /** The outcome of a check that either passes or fails with an error value. */
  datatype Outcome<+E> = Pass | Fail(error: E)
}
