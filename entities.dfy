/**
 * The records the pipeline works on: the incoming request, the persisted alert and
 * the enumerations whose names end up in the store and in the trace.
 */
module Entities {
  import opened Wrappers
  import opened JavaStrings
  import opened Timestamps

  /** EstadoAlerta: the delivery state of an alert. */
  datatype EstadoAlerta = PENDIENTE | ENVIADA | ERROR_ENVIO

  /** TipoEvento: the kind of a trace event; the trace records its `name()`. */
  datatype TipoEvento = PROCESO_OK | PROCESO_WARN | PROCESO_ERROR

  /** `TipoEvento.name()`. */
  function EventName(t: TipoEvento): string {
    match t
    case PROCESO_OK => "PROCESO_OK"
    case PROCESO_WARN => "PROCESO_WARN"
    case PROCESO_ERROR => "PROCESO_ERROR"
  }

  /** The request body (every field may be null; bean validation runs outside this model). */
  datatype RequestSendEmail = RequestSendEmail(
    to: JString,
    cc: JString,
    asunto: JString,
    nombreArchivo: JString,
    tipoError: JString,
    camaraAfectada: JString,
    trama: JString)

  /** A snapshot of an alert's columns, with `fechaEnvio`, the delivery time the service sets. */
  datatype AlertaRow = AlertaRow(
    idAlerta: Option<nat>,
    nomArchivo: JString,
    tipError: JString,
    fechaError: Option<LocalDateTime>,
    camAfectada: JString,
    trama: JString,
    fechaCreacion: Option<LocalDateTime>,
    usuarioCreacion: JString,
    estado: EstadoAlerta,
    fechaEnvio: Option<LocalDateTime>)

  /** What `new Alerta()` holds: nothing set, estado `PENDIENTE`. */
  const BLANK_ROW := AlertaRow(None, None, None, None, None, None, None, None, PENDIENTE, None)

  /**
   * The Alerta entity. Its Lombok setters are plain field writes, so the services
   * assign the fields directly.
   */
  class Alerta {
    var idAlerta: Option<nat>
    var nomArchivo: JString
    var tipError: JString
    var fechaError: Option<LocalDateTime>
    var camAfectada: JString
    var trama: JString
    var fechaCreacion: Option<LocalDateTime>
    var usuarioCreacion: JString
    var estado: EstadoAlerta
    var fechaEnvio: Option<LocalDateTime>

    /** `new Alerta()`: every reference null, estado `PENDIENTE`. */
    constructor()
      ensures Row() == BLANK_ROW
    {
      idAlerta := None;
      nomArchivo := None;
      tipError := None;
      fechaError := None;
      camAfectada := None;
      trama := None;
      fechaCreacion := None;
      usuarioCreacion := None;
      estado := PENDIENTE;
      fechaEnvio := None;
    }

    /** The current values of the fields. */
    function Row(): AlertaRow
      reads this
    {
      AlertaRow(idAlerta, nomArchivo, tipError, fechaError, camAfectada, trama,
        fechaCreacion, usuarioCreacion, estado, fechaEnvio)
    }
  }
}
