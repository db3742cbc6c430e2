/** Failure-carrying results shared by the modules of this model. */
module Wrappers {

  /** A value that Java may hand over as `null`. */
  datatype Option<+T> = None | Some(value: T)

  /** The exceptions the modelled Java code raises. */
  datatype Error =
    | IllegalArgument   // AssertUtils.assertTrue / assertNotNull failed
    | RemoteError       // the keyspace generator's remote store did not answer

  /** A normal return value, or the exception that replaced it. */
  datatype Result<+T> = Success(value: T) | Failure(error: Error)
}
