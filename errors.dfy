/** The Python exceptions that the batch join lets propagate to its caller. */
module Errors {

  datatype Error =
    | KeyError(key: string)        // `d[key]` on a record that lacks the key
    | TypeError(operation: string) // an operator or `int()` applied to an unsupported operand type
    | ValueError(literal: string)  // `int(s)` on a string that is not an integer literal
}
