/** The optional value used wherever the script may hold JavaScript `null`. */
module Wrappers {

  datatype Option<+T> = None | Some(value: T)
}
