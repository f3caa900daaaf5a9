/** The status codes of df_status and the result type of operations that return one. */
module Status {

  datatype Status =
    | Ok
    | InvalidArgument
    | OpenFailed
    | IoFailed
    | PermissionDenied
    | Unsupported
    | NoMemory
    | TooSmall
    | TooLarge
    | SourceTooLarge
    | DeviceRequired
    | DeviceForbidden
    | SystemDisk
    | Mounted
    | Confirmation
    | IdentityChanged
    | VerifyMismatch
    | FormatFailed
    | Internal

  /** A status that reports a failure. */
  type ErrorStatus = s: Status | s != Ok witness IoFailed

  datatype Result<+T> = Success(value: T) | Failure(error: ErrorStatus)

  datatype Option<+T> = None | Some(value: T)
}
