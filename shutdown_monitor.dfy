/** The decision taken by the shutdown-monitor thread that Elasticsearch.main
    starts when the node stays attached to its controlling CLI process. The
    thread blocks on one read of stdin and then exits the JVM; only the
    exit-code rule is modelled here, not the thread. */
module ShutdownMonitor {

  /** What InputStream.read() may return: a byte 0..255, or -1 at end of stream. */
  type ReadValue = v: int | -1 <= v < 256

  /** The outcome of the single stdin.read() call. */
  datatype ReadResult =
    | Returned(value: ReadValue)  // a byte, or -1 for end of stream
    | Threw                       // IOException

  /** The value of `msg` once the read is over: -1 unless read() returned. */
  function Received(r: ReadResult): (msg: int)
    ensures -1 <= msg < 256
    ensures r.Threw? ==> msg == -1
    ensures r.Returned? ==> msg == r.value
  {
    match r
    case Returned(v) => v
    case Threw => -1
  }

  /** The exit code of the monitor: 0 when the byte read is the shutdown
      marker, 1 otherwise. The marker is taken to be non-negative. */
  function MonitorExitCode(r: ReadResult, shutdownMarker: nat): (code: int)
    ensures code == 0 || code == 1
    ensures code == 0 <==> r.Returned? && r.value == shutdownMarker
  {
    if Received(r) == shutdownMarker then 0 else 1
  }
}
