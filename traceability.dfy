/**
 * The traceability service as the pipeline sees it: `logSuccess` and `logError`
 * append one event each to an append-only trace.
 */
module Traceability {
  import opened JavaStrings

  /** Which of the two calls recorded the event. */
  datatype Severity = LevelSuccess | LevelError

  datatype TraceEvent = TraceEvent(severity: Severity, tipoEvento: string, procesoId: JString, message: string)

  class TraceLog {
    var events: seq<TraceEvent>

    constructor()
      ensures events == []
    {
      events := [];
    }

    /** `logSuccess(tipoEvento, procesoId, mensaje)`. */
    method LogSuccess(tipoEvento: string, procesoId: JString, message: string)
      modifies this
      ensures events == old(events) + [TraceEvent(LevelSuccess, tipoEvento, procesoId, message)]
    {
      events := events + [TraceEvent(LevelSuccess, tipoEvento, procesoId, message)];
    }

    /** `logError(tipoEvento, procesoId, mensaje)`. */
    method LogError(tipoEvento: string, procesoId: JString, message: string)
      modifies this
      ensures events == old(events) + [TraceEvent(LevelError, tipoEvento, procesoId, message)]
    {
      events := events + [TraceEvent(LevelError, tipoEvento, procesoId, message)];
    }
  }
}
