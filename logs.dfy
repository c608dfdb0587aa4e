/** Process-creation log records, as read from the log file, and the
    (parent, child) process pair every stage of the pipeline keys on. */
module Logs {

  /** One row of the log file. The ground-truth `is_suspicious` column is
      carried by the file but never read by the baseline or the detector. */
  datatype LogRecord = LogRecord(
    timestamp: string,
    hostname: string,
    parentProcess: string,
    childProcess: string)

  /** A parent -> child process relationship. */
  type Pair = (string, string)

  function PairOf(r: LogRecord): Pair
  {
    (r.parentProcess, r.childProcess)
  }
}
