/** Failure values shared by every model.  The source reports failures by
    throwing JavaScript `Error`s, whose observable parts are a name and a
    message; callers inspect one or the other. */
module Outcomes {

  datatype Option<+T> = None | Some(value: T)

  /** The error names the source sets itself or gets from its libraries. */
  datatype ErrorName =
    | PlainError              // `new Error(message)`
    | ValidationError         // a Mongoose schema check failed
    | StoreError              // the database driver reported a failure
    | RegisterUserExists
    | LoginUserDoesNotExist
    | LoginIncorrectPassword

  datatype Error = Error(name: ErrorName, message: string)

  datatype Result<+T> = Ok(value: T) | Fail(error: Error)

  /** `throw new Error(message)` */
  function Raise(message: string): Error
  {
    Error(PlainError, message)
  }

  /** `throw new Error((e as Error).message)`, the idiom of every catch block
      in the models: the message survives, the name does not. */
  function Rethrow(e: Error): (r: Error)
    ensures r.name == PlainError && r.message == e.message
  {
    Raise(e.message)
  }
}
