/** The optional value the models use for DOM lookups that may find nothing
    and attributes that may be absent. */
module Wrappers {
  datatype Option<+T> = None | Some(value: T)
}
