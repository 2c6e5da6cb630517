/** The records exchanged by the log service (the pydantic models). */
module Models {

  datatype Option<+T> = None | Some(value: T) {
    function GetOr(default: T): T
    {
      match this
      case Some(v) => v
      case None => default
    }
  }

  /** One parsed log line. The timestamp is an integer on a totally ordered time line. */
  datatype LogEntry = LogEntry(timestamp: int, level: string, message: string, source: Option<string>)

  /** Summary statistics of the current store. */
  datatype LogSummary = LogSummary(
    totalCount: nat,
    errorCount: nat,
    warningCount: nat,
    startTime: Option<int>,
    endTime: Option<int>)

  /** Optional filter criteria; an absent criterion does not filter. */
  datatype FilterRequest = FilterRequest(
    level: Option<string>,
    keyword: Option<string>,
    startDate: Option<int>,
    endDate: Option<int>)

  /** The answer of a chat request together with the log entries it was grounded in. */
  datatype ChatResponse = ChatResponse(answer: string, context: seq<LogEntry>)
}
