/** Datatypes shared by every module. */
module Basics {
  datatype Option<+T> = None | Some(value: T)

  /** What polling a future yields. */
  datatype Poll<+T> = Pending | Ready(value: T)
}
