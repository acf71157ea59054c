/** Failure-carrying values shared by every component of the noise generator. */
module Outcomes {

  datatype Option<+T> = None | Some(value: T)

  datatype Result<+T, +E> = Success(value: T) | Failure(error: E)

  /** The conditions that end the process with a non-zero exit code. */
  datatype Fatal =
    | NetworkDown       // the readiness probe failed more often than allowed
    | PiholeDown        // the query-log API failed more often than allowed
    | WrongFormat       // a query record of the API response is too short
    | DownloadFailed    // the HTTP download of the domain archive failed
    | TableExists       // CREATE TABLE on a database that already has the table
    | ImportFailed      // the archive could not be imported (a bad row, or an input without a length)
    | NoSuchTable       // the domain table is missing when domains are fetched
    | DomainIndexError  // fewer domains were fetched than queries are planned
}
