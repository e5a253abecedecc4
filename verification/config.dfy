/**
 The immutable runtime configuration and the job description handed to
 the orchestrator. Identity fields are strings; the build target stays a
 decoded JSON value because the validators inspect its shape.
 */
module Config {
  import opened Json

  datatype RuntimeConfig = RuntimeConfig(
    env: string,
    firebaseProject: string,
    exportBucket: string,
    lockTtlSeconds: int)

  datatype Job = Job(
    jobId: string,
    env: string,
    orgId: string,
    verticalKey: string,
    templateKey: string,
    exportId: string,
    buildTarget: Value)

  /** Microseconds are the resolution of the timestamps the builder takes. */
  type Instant = int

  const MicrosPerSecond: int := 1_000_000
  const MicrosPerMilli: int := 1_000
}
