/** Optional values and results with an error, standing for Java's null and thrown exceptions. */
module Wrappers {

  datatype Option<+T> = None | Some(value: T)

  datatype Result<+T, +E> = Ok(value: T) | Err(error: E)

  /** The unchecked Java exceptions the modelled code can raise. */
  datatype JavaException =
    | IllegalArgumentException   // Enum.valueOf on a name the enum does not have
    | IndexOutOfBoundsException  // List.set on an index outside the list
}
