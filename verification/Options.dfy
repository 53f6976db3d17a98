/** The two result shapes the collector's functions use: a Python `None`, and an exception. */
module Options {

  datatype Option<+T> = None | Some(value: T)

  datatype Result<+T> = Ok(value: T) | Raised
}
