/** Shared helper datatypes: Java's nullable references and the exceptions
    that can leave the modelled core. */
module Wrappers {

  /** A Java reference that may be null; `None` stands for null. */
  datatype Option<+T> = None | Some(value: T)

  /** Why a `CallbackHandler.handle` call failed. */
  datatype CallbackFailure = IOException | UnsupportedCallbackException

  /** The exceptions the core lets escape. */
  datatype Exception =
    | NullPointerException
    | IllegalArgumentException
    | AuthenticationException(cause: CallbackFailure)

  /** What a Java call does: it returns a value or it throws. */
  datatype Raised<+T> = Returned(value: T) | Threw(error: Exception)
}
