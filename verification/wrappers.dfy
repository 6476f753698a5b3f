/** The optional value used wherever the source reads `attrs.get(...)`, which yields
    None for an absent attribute. */
module Wrappers {
  datatype Option<+T> = None | Some(value: T)
}
