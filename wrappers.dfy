/** An optional value, for fields that may be unset and for a prompt that may
    never return. */
module Wrappers {

  datatype Option<+T> = None | Some(value: T)
}
