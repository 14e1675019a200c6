/** What a child process did, as the two trees observe it. */
module Process {
  import opened Text

  /** A QProcess run: it did not start, it did not finish in time, or it exited with a code and output. */
  datatype ProcessOutcome =
    | FailedToStart
    | TimedOut
    | Finished(exitCode: int, stdout: String)

  /** A `subprocess.run` call: it raised OSError, or it completed with a return code and output. */
  datatype RunResult =
    | OsError
    | Completed(returncode: int, stdout: String)
}
