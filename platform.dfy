/**
 * The platform logger that the codec reports malformed input to. Only the
 * records it receives are modelled: a message template and its optional
 * argument (the `{0}` offset).
 */
module Platforms {
  import opened Wrappers

  datatype LogRecord = LogRecord(template: string, arg: Option<int>)

  class Platform {
    /** Every record logged so far, oldest first. */
    var records: seq<LogRecord>

    constructor ()
      ensures records == []
    {
      records := [];
    }

    /** Appends one diagnostic and changes nothing else. */
    method Log(template: string, arg: Option<int>)
      modifies this
      ensures records == old(records) + [LogRecord(template, arg)]
    {
      records := records + [LogRecord(template, arg)];
    }
  }
}
