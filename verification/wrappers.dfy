/** The null-or-value wrapper used for the nullable `Date` column (pandas `NaT` is `None`). */
module Wrappers {

  datatype Option<+T> = None | Some(value: T)
}
