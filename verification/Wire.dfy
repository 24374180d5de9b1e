/** The two reports an Agent sends to the control plane. */
module Wire {
  import opened Base

  datatype Action = Rename | Trash | Restore | Purge | OtherAction

  datatype RegisterRequest = RegisterRequest(
    localFileId: FileId, name: Name, mime: Mime, size: int, sha256: Hash, endpoint: Endpoint)

  datatype LifecycleReport = LifecycleReport(
    operationId: OpId, localFileId: FileId, action: Action, name: Name, purgeAfter: Option<Time>)

  datatype Report =
    | Registration(request: RegisterRequest)
    | Lifecycle(change: LifecycleReport)
    | Unsupported

  /** The empty name of a report that carries none. */
  const NO_NAME: Name
}
