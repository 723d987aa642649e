/** Failure-compatible results, and the errors and panics of the code generator. */
module Wrappers {

  datatype Option<+T> = None | Some(value: T)

  /** What stops a compilation: the `Err` values and the `expect` panics of the source. */
  datatype CodegenError =
    | StringConstant            // string constants are not supported
    | DepthPanic                // DUP or SWAP deeper than 16 behind an `expect`
    | UnknownCallee             // no call information for an internal function
    | ArgumentCount             // call arity differs from the callee's
    | ExternalCall              // external calls are not implemented
    | MissingLabel              // a terminator names a block without a label
    | MissingBlock              // the block order names a block that is not there
    | TooManyParameters         // more parameters than SWAP can reach
    | UnresolvedLabel(target: nat)
    | UndefinedVariable         // a variable used before its definition
    | MissingRegister           // an operand or destination without a slot
    | MissingStorageKey         // a storage variable without a key

  datatype Result<+T> = Ok(value: T) | Err(error: CodegenError) {
    predicate IsFailure() {
      Err?
    }

    function PropagateFailure<U>(): Result<U>
      requires Err?
    {
      Err(error)
    }

    function Extract(): T
      requires Ok?
    {
      value
    }
  }
}
