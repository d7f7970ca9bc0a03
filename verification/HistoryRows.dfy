// The status column of job_executions (src/db/migrate.js).
module HistoryRows {

  datatype ExecStatus = Running | Success | Failed | Dlq
}
