/** The optional value the simulator expresses with Python's `None`. */
module Wrappers {
  datatype Option<+T> = None | Some(value: T)
}
