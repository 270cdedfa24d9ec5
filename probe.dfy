/**
 * The external diagnostic commands, seen from the pipeline.  Running a child
 * process is outside the model: a `ProbeRunner` is any total function from the
 * command line (and its timeout) to what the process produced, either its
 * captured standard output with its exit status, or the exception that
 * `subprocess.run` raised (binary missing, timeout expired).
 */
module Probe {

  /** A command line as handed to `subprocess.run`, with its timeout in seconds. */
  datatype ProbeRequest = ProbeRequest(argv: seq<string>, timeoutSeconds: nat)

  /** What running a command gives back. */
  datatype ProbeOutput =
    | Completed(stdout: string, returncode: int)
    | Raised(message: string)

  type ProbeRunner = ProbeRequest -> ProbeOutput

  /** `ping -c 4 <target>` with a 10-second timeout (the default `count` is 4). */
  function PingRequest(target: string): ProbeRequest {
    ProbeRequest(["ping", "-c", "4", target], 10)
  }

  /** `traceroute -m 15 <target>` with a 30-second timeout. */
  function TraceRequest(target: string): ProbeRequest {
    ProbeRequest(["traceroute", "-m", "15", target], 30)
  }
}
