/** The optional value used for nullable table cells (a pandas NaN after a left join). */
module Wrappers {

  datatype Option<+T> = None | Some(value: T)
}
