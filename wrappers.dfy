/** Option and Result, and the Java exceptions the code generator and its
    runtime helpers can raise or let escape. */
module Wrappers {

  datatype Option<+T> = None | Some(value: T)

  /** The exceptions that matter to the model. Only `IllegalArgument` is
      ever caught by the processor; the others escape `process`. */
  datatype Exception =
    | IllegalArgument(message: string)  // IllegalArgumentException(message)
    | IndexOutOfBounds                  // List.get(0) on an empty type-argument list
    | ClassCast                         // (DeclaredType) cast of a primitive type
    | NullPointer                       // a method without @Query
    | SqlException                      // a row value that cannot be read

  /** A Java call that either returns a value or throws. */
  datatype Result<+T> = Ok(value: T) | Throw(error: Exception)
}
