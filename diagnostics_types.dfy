/**
 * The diagnostics payload a host returns, as the dashboard reads it: build
 * metadata, one record per extension (its details or its last error) and
 * server metadata.
 */
module DiagnosticsTypes {

  import opened Wrappers
  import opened Records

  /** An `Error` value; only its message is observable by the dashboard. */
  datatype Error = Error(message: string)

  /** The `lastError` of an extension that failed to load. */
  datatype LastError = LastError(errorMessage: string, time: string)

  datatype ExtensionInfo = ExtensionInfo(
    extensionName: string,
    config: Option<Record<string>>,
    stageDefinition: Option<Record<seq<string>>>)

  /** A value of the `extensions` record: `ExtensionInfo` or `ExtensionError`. */
  datatype ExtensionValue = Info(info: ExtensionInfo) | Failed(lastError: LastError)

  datatype Diagnostics = Diagnostics(
    buildInfo: Record<string>,
    extensions: Record<ExtensionValue>,
    serverInfo: Record<string>)
}
