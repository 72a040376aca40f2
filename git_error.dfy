/** The git layer's error type and its `Display` text (src/git/error.rs). */
module GitErrors {

  datatype GitError =
    | MissingGitBinary
    | GitExecutionError(output: string)
    | IoError(cause: string)
    | UnsupportedRefType(value: string)
    | UnsupportedGitBackend(value: string)
    | MalformedRepositoryPath(value: string)

  /** The `#[error(...)]` text of each variant. */
  function Message(e: GitError): (m: string)
  {
    match e
    case MissingGitBinary =>
      "Missing Git binary. Make sure Git is installed on your system and is globally accessible (present in PATH)."
    case GitExecutionError(o) => "Error while executing git: " + o
    case IoError(c) => "I/O error: " + c
    case UnsupportedRefType(v) => "Unsupported Git reference type: " + v
    case UnsupportedGitBackend(v) => "Unsupported Git backend: " + v
    case MalformedRepositoryPath(v) => "Malformed repository path: " + v
  }
}
