/** Option and Result, shaped after the Rust types the modelled crates use. */
module Wrappers {

  datatype Option<T> = None | Some(value: T) {
    /** `Option::or`: the receiver when present, otherwise the other option. */
    function Or(other: Option<T>): Option<T> {
      if Some? then this else other
    }
  }

  datatype Result<T, E> = Ok(value: T) | Err(error: E)
}
