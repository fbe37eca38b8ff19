// Failure-carrying results shared by every module.
module Results {

  datatype Option<+T> = None | Some(value: T)

  // The gRPC status classes the driver distinguishes.
  datatype Error =
    | Internal
    | AlreadyExists
    | NotFound
    | FailedPrecondition
    | Unavailable
    | InvalidArgument
    | Aborted
    | Cancelled
    | DependentClones

  datatype Result<+T> = Ok(value: T) | Err(error: Error)
}
