/** The optional value used for `std::string::npos` results and for a construction that may abort. */
module Wrappers {

  datatype Option<T> = None | Some(value: T)
}
