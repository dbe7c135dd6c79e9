/** The router's error type and its `Result` alias. */
module Errors {
  import opened Basics

  /** One constructor per variant of `NodeBalancerError`; the payloads of the
      foreign errors (Kubernetes client, watcher stream, I/O) are kept only as
      a message. */
  datatype Error =
    | KubeError(message: string)
    | NoPodsAvailable
    | UnknownNode(node: string)
    | NoAddressesAvailable(node: string)
    | ServiceNotFound
    | UnknownPort(port: u16)
    | WatcherError(message: string)
    | MissingSpec
    | WrongServiceType(serviceType: string)
    | IOError(message: string)

  /** `crate::Result<T>`. */
  datatype Result<T> = Ok(value: T) | Err(error: Error)
}
