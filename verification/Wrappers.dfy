/** The one optional-value type the other modules share. */
module Wrappers {

  /** A Go pointer or comma-ok result: present or absent. */
  datatype Option<+T> = None | Some(value: T)
}
