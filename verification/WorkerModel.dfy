/** The worker's values: what a run is asked, what it observes and what it reports (worker/src/model.rs). */
module WorkerModel {
  import opened Prelude

  /** A span of time in nanoseconds. */
  type Duration = nat

  const U64_MAX: nat := 0xFFFF_FFFF_FFFF_FFFF

  type U64 = n: nat | n <= 0xFFFF_FFFF_FFFF_FFFF

  /** An I/O error kind; the listed ones have a name of their own on the wire. */
  datatype ErrorKind = Listed(index: nat) | Unlisted(index: nat)

  datatype IoError = IoError(kind: ErrorKind, message: string)

  datatype Phase = Compile | BuggyExecution | FixedExecution

  datatype Stream = Stdout | Stderr

  datatype Termination = ByTimeout | ByCancellation | ByWaitFailure | ByOutputCaptureFailure

  datatype ProcessExit =
    | NeverStarted
    | ExitedWithCode(code: int)
    | ExitedWithoutCode
    | TerminatedBySupervisor(reason: Termination, exitCode: Option<int>)

  datatype Timeout = NotConfigured | NotTriggered(limit: Duration) | Triggered(limit: Duration)

  datatype Cancellation = NotSelected | Selected

  datatype Failure =
    | SpawnFailure(error: IoError)
    | NonZeroExit(code: Option<int>)
    | TimedOut
    | Cancelled
    | WaitFailure(error: IoError)
    | OutputCaptureFailure(stream: Stream, kind: Option<ErrorKind>, message: string)
    | TerminationFailure(error: IoError)

  datatype LimitKind =
    | CpuTime | MemoryBytes | DiskTempWorkspaceBytes | ProcessCount | FileCount
    | StdoutBytes | StderrBytes | TimeoutLimit
    | OtherLimit(name: string)

  datatype LimitValue =
    | DurationValue(duration: Duration)
    | BytesValue(bytes: U64)
    | CountValue(count: U64)
    | CustomValue(value: U64, unit: string)

  datatype Enforcement = NotEnforced | CaptureBoundEnforced | SupervisorTimeoutEnforced | RuntimeLimitEnforced

  datatype Observation = Observation(
    kind: LimitKind, configured: LimitValue, observed: Option<LimitValue>, enforcement: Enforcement,
    terminated: bool, truncated: Option<bool>)

  datatype OtherLimitRequest = OtherLimitRequest(name: string, limit: LimitValue)

  datatype Limits = Limits(
    cpuTime: Option<Duration>, memoryBytes: Option<U64>, diskBytes: Option<U64>, processCount: Option<U64>,
    fileCount: Option<U64>,
    stdoutBytes: U64, stderrBytes: U64, timeout: Option<Duration>, other: seq<OtherLimitRequest>)

  datatype Request = Request(phase: Phase, limits: Limits)

  datatype BoundedOutput = BoundedOutput(captured: seq<bv8>, total: U64, limit: U64, truncated: bool)

  datatype ExecutionResult = ExecutionResult(
    phase: Phase, processId: Option<U64>, processExit: ProcessExit, timeout: Timeout, cancellation: Cancellation,
    stdout: BoundedOutput, stderr: BoundedOutput, duration: Duration,
    observations: seq<Observation>, failures: seq<Failure>)

  function EmptyOutput(limit: U64): BoundedOutput {
    BoundedOutput([], 0, limit, false)
  }
}
