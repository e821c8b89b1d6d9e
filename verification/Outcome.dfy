/** Results and the exception classes that the modelled operations can raise. */
module Outcome {

  datatype Option<+T> = None | Some(value: T)

  /** The classes of `domain/errors.py`, plus the two ways an exception outside that
      hierarchy gets out: a Python `ValueError` (which includes `UnicodeEncodeError`)
      and anything else the library raises. */
  datatype Failure =
    | LifecycleError
    | RuntimeUnavailableError
    | StartupTimeoutError
    | ShutdownTimeoutError
    | NodeIncompatibleError
    | ExecutionContextError
    | RpcError
    | RpcUnavailableError
    | RpcTimeoutError
    | RpcAuthenticationError
    | RpcIncompatibleNodeError
    | RpcMalformedResponseError
    | RpcResponseSizeExceededError
    | RpcResourceNotFoundError
    | RpcProtocolError
    | RpcExecutionContextError
    | ConfigurationError
    | ValueError
    | OtherException
  {
    /** True of `RpcError` and its subclasses. */
    predicate IsRpc() {
      RpcError? || RpcUnavailableError? || RpcTimeoutError? || RpcAuthenticationError? ||
      RpcIncompatibleNodeError? || RpcMalformedResponseError? || RpcResponseSizeExceededError? ||
      RpcResourceNotFoundError? || RpcProtocolError? || RpcExecutionContextError?
    }
  }

  datatype Result<+T> = Ok(value: T) | Err(error: Failure)
}
