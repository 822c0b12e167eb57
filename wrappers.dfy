/** The conventional optional value, used for the non-owning object reference of a Selection. */
module Wrappers {

  datatype Option<+T> = None | Some(value: T)
}
