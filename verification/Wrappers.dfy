/** The optional value that stands for the server's `std::optional`. */
module Wrappers {
  datatype Option<+T> = None | Some(value: T)
}
