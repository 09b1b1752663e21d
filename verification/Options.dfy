/** What every other module shares: an optional value, the error codes of the service and the
    width of its counters. */
module Options {

  /** One more than the largest 32-bit count. */
  const WORD: nat := 0x1_0000_0000

  datatype Option<+T> = None | Some(value: T)

  /** The codes the modelled operations can return, under the names the service gives them. */
  datatype VfErr =
    | SUCCESS
    | INVALID_PARAMETER
    | OOM
    | INIT_FAILED
    | FILE_ERR
    | CONV_INIT_ERR
    | CONV_PROCESSING_ERR
    | QUEUE_SHUTDOWN
}
