/** Failure-carrying values shared by the detector, the inspector and the engine. */
module Wrappers {

  datatype Option<+T> = None | Some(value: T)

  datatype Result<+R, +E> = Success(value: R) | Failure(error: E)

  /** The outcome of a step that produces no value (a connect handshake). */
  datatype Outcome<+E> = Pass | Fail(error: E)

  /** The exceptions the core lets escape to its caller. */
  datatype Error =
    | ContainerNotFound           // thrown by PeekEngine.inspectContainer
    | NotConnected                // thrown by every PostgresInspector query method
    | NameMissing                 // `c.Names[0].replace` on a container listed without a name
    | RuntimeError(message: string) // the container runtime rejected an inspect call
    | DriverError(message: string)  // the database driver rejected a connect or a query
}
