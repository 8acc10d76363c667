/**
 * AlertaService: the orchestration of one incoming alert. It creates the entity,
 * stores it, asks the mail service to send the alert, records the delivery state and
 * stores the entity again, leaving a trace of each step. The clock, the mail
 * libraries and the database are the parameters of one run (`Environment`).
 */
module AlertaService {
  import opened Wrappers
  import opened JavaStrings
  import opened EmailUtils
  import opened ValidationException
  import opened Timestamps
  import opened Entities
  import opened Traceability
  import opened Repository
  import opened Mail
  import opened EmailService

  const SAVED_LOG := "Alerta guardada en BD con ID: {}"
  const SENT_LOG := "Correo enviado exitosamente para alerta ID: {}"
  const NOT_SENT_LOG := "Error al enviar correo para alerta ID: {}"
  const VALIDATION_LOG := "Error de validación de emails: "
  const ENCODING_LOG := "Error de codificación para alerta ID: "
  const MAIL_LOG := "Error al enviar correo para alerta ID: "
  const FAILURE_LOG := "Error al procesar alerta: "
  const INTERNAL_ERROR := "Error interno al procesar la alerta"

  /**
   * What the outside world does during one `procesarAlerta`: the two readings of
   * `LocalDateTime.now()`, the mail libraries' behaviour and the fate of the two saves.
   */
  datatype Environment = Environment(
    createdAt: LocalDateTime,
    sentAt: LocalDateTime,
    mail: MailOutcome,
    firstSave: SaveOutcome,
    secondSave: SaveOutcome)

  /** What `procesarAlerta` throws: the validation exception it rethrows, or its own `RuntimeException` wrapping a cause. */
  datatype ProcessFault =
    | ValidationFault(exception: EmailValidationException)
    | InternalFault(message: string, cause: string)

  /** `logError(PROCESO_ERROR, procesoId, message)`. */
  function ErrorEvent(procesoId: JString, message: string): TraceEvent {
    TraceEvent(LevelError, EventName(PROCESO_ERROR), procesoId, message)
  }

  // ---------------------------------------------------------------------------
  // crearAlerta
  // ---------------------------------------------------------------------------

  /** The entity `crearAlerta` builds from the request at time `now`. */
  function CreatedRow(alertaDTO: RequestSendEmail, now: LocalDateTime): (r: AlertaRow)
    ensures r.estado == PENDIENTE && r.idAlerta.None? && r.fechaEnvio.None? && r.fechaCreacion == Some(now)
  {
    BLANK_ROW.(
      nomArchivo := alertaDTO.nombreArchivo,
      tipError := alertaDTO.tipoError,
      fechaCreacion := Some(now),
      camAfectada := alertaDTO.camaraAfectada,
      trama := alertaDTO.trama,
      estado := PENDIENTE)
  }

  /**
   * The new alert copies the request's file name, error type, camera and frame, is
   * dated `now` and pending, and has no id, error date, creating user or send date.
   */
  lemma CreatedRowFields(alertaDTO: RequestSendEmail, now: LocalDateTime)
    ensures var a := CreatedRow(alertaDTO, now);
      && a.nomArchivo == alertaDTO.nombreArchivo && a.tipError == alertaDTO.tipoError
      && a.camAfectada == alertaDTO.camaraAfectada && a.trama == alertaDTO.trama
      && a.fechaCreacion == Some(now) && a.estado == PENDIENTE
      && a.idAlerta.None? && a.fechaError.None? && a.usuarioCreacion.None? && a.fechaEnvio.None?
  {
  }

  /** The method `crearAlerta`: a fresh entity holding `CreatedRow`. */
  method CrearAlerta(alertaDTO: RequestSendEmail, now: LocalDateTime) returns (alerta: Alerta)
    ensures fresh(alerta) && alerta.Row() == CreatedRow(alertaDTO, now)
  {
    alerta := new Alerta();
    alerta.nomArchivo := alertaDTO.nombreArchivo;
    alerta.tipError := alertaDTO.tipoError;
    alerta.fechaCreacion := Some(now);
    alerta.camAfectada := alertaDTO.camaraAfectada;
    alerta.trama := alertaDTO.trama;
    alerta.estado := PENDIENTE;
  }

  // ---------------------------------------------------------------------------
  // enviarCorreoAlerta
  // ---------------------------------------------------------------------------

  /** What `enviarCorreoAlerta` returns or throws, and the events its own handlers record. */
  datatype Correo = Correo(result: Result<bool, EmailValidationException>, events: seq<TraceEvent>)

  /** `enviarCorreoAlerta` around one `enviarAlertaCorreo` whose effect is `d`, for the alert with id `id`. */
  function Absorb(d: DispatchEffect, id: Option<nat>, procesoId: JString): Correo {
    match d.result
    case Success(b) => Correo(Success(b), [])
    case Failure(InvalidAddresses(e)) => Correo(Failure(e), [])
    case Failure(UnsupportedEncoding) => Correo(Success(false), [ErrorEvent(procesoId, ENCODING_LOG + ShowNumber(id))])
    case Failure(_) => Correo(Success(false), [ErrorEvent(procesoId, MAIL_LOG + ShowNumber(id))])
  }

  /**
   * Only the validation exception escapes, unchanged; every other fault of the mail
   * service becomes `false` with one `PROCESO_ERROR` error event naming the alert, the
   * encoding error with its own text. A returned value is the service's own.
   */
  lemma AbsorbFacts(d: DispatchEffect, id: Option<nat>, procesoId: JString)
    ensures var c := Absorb(d, id, procesoId);
      && (c.result.Failure? <==> d.result.Failure? && d.result.error.InvalidAddresses?)
      && (c.result.Failure? ==> c.result.error == d.result.error.exception && c.events == [])
      && (d.result.Success? ==> c.result == Success(d.result.value) && c.events == [])
      && (d.result == Failure(UnsupportedEncoding) ==>
            c.result == Success(false) && c.events == [TraceEvent(LevelError, "PROCESO_ERROR", procesoId, ENCODING_LOG + ShowNumber(id))])
      && (d.result.Failure? && (d.result.error.NullReference? || d.result.error.MailFailure?) ==>
            c.result == Success(false) && c.events == [TraceEvent(LevelError, "PROCESO_ERROR", procesoId, MAIL_LOG + ShowNumber(id))])
      && (c.result == Success(true) <==> d.result == Success(true))
  {
  }

  // ---------------------------------------------------------------------------
  // procesarAlerta
  // ---------------------------------------------------------------------------

  /** One run's effect: the result or fault, the table and id counter after it, the message sent and the events appended. */
  datatype ProcessEffect = ProcessEffect(
    result: Result<AlertaRow, ProcessFault>,
    rows: map<nat, AlertaRow>,
    nextId: nat,
    sent: Option<MimeMessage>,
    events: seq<TraceEvent>)

  /** The delivery state `procesarAlerta` records for the answer `enviado` of `enviarCorreoAlerta`. */
  function Updated(saved: AlertaRow, enviado: bool, sentAt: LocalDateTime): AlertaRow {
    if enviado then saved.(fechaEnvio := Some(sentAt), estado := ENVIADA) else saved.(estado := ERROR_ENVIO)
  }

  /** The trace event for that answer. */
  function OutcomeEvent(enviado: bool, procesoId: JString, id: nat): TraceEvent {
    if enviado then Event(PROCESO_OK, procesoId, SENT_LOG + ShowNumber(Some(id)))
    else Event(PROCESO_ERROR, procesoId, NOT_SENT_LOG + ShowNumber(Some(id)))
  }

  /**
   * `procesarAlerta` after the first save stored `saved` under `id`, given the effect `d`
   * of the mail service's call.
   */
  function AfterSave(saved: AlertaRow, id: nat, rows: map<nat, AlertaRow>, nextId: nat,
    d: DispatchEffect, procesoId: JString, env: Environment): ProcessEffect
  {
    var c := Absorb(d, Some(id), procesoId);
    var before := [Event(PROCESO_OK, procesoId, SAVED_LOG + ShowNumber(Some(id)))] + d.events + c.events;
    match c.result
    case Failure(e) =>
      ProcessEffect(Failure(ValidationFault(e)), rows, nextId, d.sent,
        before + [ErrorEvent(procesoId, VALIDATION_LOG + e.message)])
    case Success(enviado) =>
      var events := before + [OutcomeEvent(enviado, procesoId, id)];
      if env.secondSave.StoreFault? then
        ProcessEffect(Failure(InternalFault(INTERNAL_ERROR, env.secondSave.message)), rows, nextId, d.sent,
          events + [ErrorEvent(procesoId, FAILURE_LOG + env.secondSave.message)])
      else
        var updated := Updated(saved, enviado, env.sentAt);
        ProcessEffect(Success(updated), rows[id := updated], nextId, d.sent, events)
  }

  /** Appending to the trace in steps, as the methods do, gives the events `AfterSave` lists. */
  lemma TraceAppend(events: seq<TraceEvent>, first: TraceEvent, ds: seq<TraceEvent>, cs: seq<TraceEvent>, tail: seq<TraceEvent>)
    ensures events + [first] + ds + cs + tail == events + ([first] + ds + cs + tail)
  {
  }

  lemma TraceAppend2(events: seq<TraceEvent>, first: TraceEvent, ds: seq<TraceEvent>, cs: seq<TraceEvent>, x: TraceEvent, y: TraceEvent)
    ensures events + [first] + ds + cs + [x, y] == events + ([first] + ds + cs + [x] + [y])
  {
  }

  /** The alert as the first save stores it: created from the request and given the next id. */
  function Saved(req: RequestSendEmail, now: LocalDateTime, id: nat): AlertaRow {
    CreatedRow(req, now).(idAlerta := Some(id))
  }

  /** One run of `procesarAlerta` on a table `rows` whose next id is `nextId`. */
  function Process(req: RequestSendEmail, procesoId: JString, rows: map<nat, AlertaRow>, nextId: nat,
    emailFrom: string, env: Environment): ProcessEffect
  {
    if env.firstSave.StoreFault? then
      ProcessEffect(Failure(InternalFault(INTERNAL_ERROR, env.firstSave.message)), rows, nextId, None,
        [ErrorEvent(procesoId, FAILURE_LOG + env.firstSave.message)])
    else
      var saved := Saved(req, env.createdAt, nextId);
      AfterSave(saved, nextId, rows[nextId := saved], nextId + 1,
        Dispatch(req, saved, procesoId, emailFrom, env.mail), procesoId, env)
  }

  /** After a stored first save, `Process` is the rest of the run on the saved row. */
  lemma ProcessAfterFirstSave(req: RequestSendEmail, procesoId: JString, rows: map<nat, AlertaRow>, nextId: nat,
    emailFrom: string, env: Environment)
    requires env.firstSave.Stored?
    ensures var saved := Saved(req, env.createdAt, nextId);
      Process(req, procesoId, rows, nextId, emailFrom, env) ==
        AfterSave(saved, nextId, rows[nextId := saved], nextId + 1,
          Dispatch(req, saved, procesoId, emailFrom, env.mail), procesoId, env)
  {
  }

  /**
   * The shape every effect of `enviarAlertaCorreo` has: a fault records nothing, an
   * answer records one event (`PROCESO_OK` for true, `PROCESO_ERROR` for false), and a
   * message goes out exactly when the answer is true.
   */
  predicate WellFormed(d: DispatchEffect) {
    && (d.result.Failure? ==> d.events == [] && d.sent.None?)
    && (d.result.Success? ==> |d.events| == 1)
    && (d.result == Success(true) <==> d.sent.Some?)
    && (d.result == Success(true) ==> d.events[0].tipoEvento == "PROCESO_OK")
    && (d.result == Success(false) ==> d.events[0].tipoEvento == "PROCESO_ERROR")
  }

  lemma WellFormedOn(toResults: seq<EmailValidationResult>, ccResults: seq<EmailValidationResult>,
    req: RequestSendEmail, a: AlertaRow, procesoId: JString, emailFrom: string, outcome: MailOutcome)
    requires InvalidOf(toResults) == [] ==> req.to.Some? && req.to.value != []
    ensures WellFormed(DispatchOn(toResults, ccResults, req, a, procesoId, emailFrom, outcome))
  {
    EventNameLengths();
    if InvalidOf(toResults) == [] && !(CcGiven(req.cc) && InvalidOf(ccResults) != []) && outcome != MessagingFault {
      RenderWellFormed(ParseEmailAddresses(req.to), CcList(req.cc), req, a, procesoId, emailFrom, outcome);
    }
  }

  /** The steps after the recipients are set have that shape. */
  lemma RenderWellFormed(to: seq<string>, cc: seq<string>, req: RequestSendEmail, a: AlertaRow, procesoId: JString,
    emailFrom: string, outcome: MailOutcome)
    requires outcome != MessagingFault
    ensures WellFormed(Render(to, cc, req, a, procesoId, emailFrom, outcome))
  {
    EventNameLengths();
  }

  /** Every call of `enviarAlertaCorreo` has that shape (its warning branch being dead). */
  lemma DispatchWellFormed(req: RequestSendEmail, a: AlertaRow, procesoId: JString, emailFrom: string, outcome: MailOutcome)
    ensures WellFormed(Dispatch(req, a, procesoId, emailFrom, outcome))
  {
    ValidToIsGiven(req.to);
    WellFormedOn(Validations(req.to), Validations(req.cc), req, a, procesoId, emailFrom, outcome);
  }

  /**
   * After a stored first save, for any well-formed mail effect: the alert ends `ENVIADA`
   * with the send time exactly when the message went out and `ERROR_ENVIO` with no send
   * time otherwise; a second save that works stores that row under the alert's id; the
   * trace is the save event, one event of the delivery and the outcome event.
   */
  lemma AfterSaveAnswered(saved: AlertaRow, id: nat, rows: map<nat, AlertaRow>, nextId: nat,
    d: DispatchEffect, procesoId: JString, env: Environment)
    requires WellFormed(d) && saved.fechaEnvio.None?
    requires !(d.result.Failure? && d.result.error.InvalidAddresses?)
    ensures var p := AfterSave(saved, id, rows, nextId, d, procesoId, env);
      && p.sent == d.sent && p.nextId == nextId
      && |p.events| == (if env.secondSave.Stored? then 3 else 4)
      && p.events[0] == TraceEvent(LevelSuccess, "PROCESO_OK", procesoId, SAVED_LOG + NatToString(id))
      && (d.sent.Some? ==>
            p.events[1] == d.events[0] && p.events[1].tipoEvento == "PROCESO_OK"
            && p.events[2] == TraceEvent(LevelSuccess, "PROCESO_OK", procesoId, SENT_LOG + NatToString(id)))
      && (d.sent.None? ==>
            p.events[1].tipoEvento == "PROCESO_ERROR"
            && p.events[2] == TraceEvent(LevelSuccess, "PROCESO_ERROR", procesoId, NOT_SENT_LOG + NatToString(id)))
      && (env.secondSave.Stored? ==>
            && p.result.Success?
            && p.rows == rows[id := p.result.value]
            && (p.result.value.estado == ENVIADA <==> d.sent.Some?)
            && (p.result.value.estado == ENVIADA ==> p.result.value == saved.(fechaEnvio := Some(env.sentAt), estado := ENVIADA))
            && (p.result.value.estado != ENVIADA ==> p.result.value == saved.(estado := ERROR_ENVIO)))
      && (env.secondSave.StoreFault? ==>
            && p.result == Failure(InternalFault("Error interno al procesar la alerta", env.secondSave.message))
            && p.rows == rows
            && p.events[3] == TraceEvent(LevelError, "PROCESO_ERROR", procesoId, FAILURE_LOG + env.secondSave.message))
  {
    AbsorbFacts(d, Some(id), procesoId);
    EventNameLengths();
  }

  /**
   * After a stored first save, a rejected address list ends the run with the same
   * validation exception: nothing is sent, no second save happens, and the trace is the
   * save event followed by the validation error naming the exception's message.
   */
  lemma AfterSaveRejected(saved: AlertaRow, id: nat, rows: map<nat, AlertaRow>, nextId: nat,
    d: DispatchEffect, procesoId: JString, env: Environment)
    requires WellFormed(d)
    requires d.result.Failure? && d.result.error.InvalidAddresses?
    ensures var p := AfterSave(saved, id, rows, nextId, d, procesoId, env);
      && p.result == Failure(ValidationFault(d.result.error.exception))
      && p.rows == rows && p.nextId == nextId && p.sent.None?
      && p.events == [TraceEvent(LevelSuccess, "PROCESO_OK", procesoId, SAVED_LOG + NatToString(id)),
                      TraceEvent(LevelError, "PROCESO_ERROR", procesoId, VALIDATION_LOG + d.result.error.exception.message)]
  {
    AbsorbFacts(d, Some(id), procesoId);
  }

  /** When the first save fails nothing else happens: no mail, no change to the table, one error event. */
  lemma FirstSaveFaultStops(req: RequestSendEmail, procesoId: JString, rows: map<nat, AlertaRow>, nextId: nat,
    emailFrom: string, env: Environment)
    requires env.firstSave.StoreFault?
    ensures var p := Process(req, procesoId, rows, nextId, emailFrom, env);
      && p.result == Failure(InternalFault("Error interno al procesar la alerta", env.firstSave.message))
      && p.rows == rows && p.nextId == nextId && p.sent.None?
      && p.events == [TraceEvent(LevelError, "PROCESO_ERROR", procesoId, "Error al procesar alerta: " + env.firstSave.message)]
  {
  }

  /**
   * With both saves stored and the addresses accepted, the run returns the stored alert:
   * it sits under the next id, keeps what `crearAlerta` copied from the request, and is
   * `ENVIADA` (with the send time) exactly when the message went out, `ERROR_ENVIO`
   * (without one) otherwise. The trace has three events: the save, the delivery's own,
   * and the outcome.
   */
  lemma ProcessStoresOutcome(req: RequestSendEmail, procesoId: JString, rows: map<nat, AlertaRow>, nextId: nat,
    emailFrom: string, env: Environment)
    requires env.firstSave.Stored? && env.secondSave.Stored?
    requires AllValid(req.to) && (CcGiven(req.cc) ==> AllValid(req.cc))
    ensures var p := Process(req, procesoId, rows, nextId, emailFrom, env);
      && p.result.Success?
      && p.rows == rows[nextId := p.result.value] && p.nextId == nextId + 1
      && p.result.value.idAlerta == Some(nextId)
      && p.result.value.nomArchivo == req.nombreArchivo && p.result.value.tipError == req.tipoError
      && p.result.value.camAfectada == req.camaraAfectada && p.result.value.trama == req.trama
      && p.result.value.fechaCreacion == Some(env.createdAt)
      && (p.result.value.estado == ENVIADA <==> p.sent.Some?)
      && (p.result.value.estado == ENVIADA ==> p.result.value.fechaEnvio == Some(env.sentAt))
      && (p.result.value.estado != ENVIADA ==> p.result.value.estado == ERROR_ENVIO && p.result.value.fechaEnvio.None?)
      && |p.events| == 3
      && p.events[0] == TraceEvent(LevelSuccess, "PROCESO_OK", procesoId, SAVED_LOG + NatToString(nextId))
      && p.events[2].message == (if p.sent.Some? then SENT_LOG else NOT_SENT_LOG) + NatToString(nextId)
  {
    var saved := Saved(req, env.createdAt, nextId);
    var d := Dispatch(req, saved, procesoId, emailFrom, env.mail);
    DispatchWellFormed(req, saved, procesoId, emailFrom, env.mail);
    AcceptedListsPass(req, saved, procesoId, emailFrom, env.mail);
    AfterSaveAnswered(saved, nextId, rows[nextId := saved], nextId + 1, d, procesoId, env);
    var v := Process(req, procesoId, rows, nextId, emailFrom, env).result.value;
    MapOverwrite(rows, nextId, saved, v);
  }

  lemma MapOverwrite(m: map<nat, AlertaRow>, k: nat, x: AlertaRow, y: AlertaRow)
    ensures m[k := x][k := y] == m[k := y]
  {
  }

  /** Lists that validate never make the mail service throw the validation exception. */
  lemma AcceptedListsPass(req: RequestSendEmail, a: AlertaRow, procesoId: JString, emailFrom: string, outcome: MailOutcome)
    requires AllValid(req.to) && (CcGiven(req.cc) ==> AllValid(req.cc))
    ensures var d := Dispatch(req, a, procesoId, emailFrom, outcome);
      !(d.result.Failure? && d.result.error.InvalidAddresses?)
  {
    ValidToIsGiven(req.to);
    AcceptedListsPassOn(Validations(req.to), Validations(req.cc), req, a, procesoId, emailFrom, outcome);
  }

  lemma AcceptedListsPassOn(toResults: seq<EmailValidationResult>, ccResults: seq<EmailValidationResult>,
    req: RequestSendEmail, a: AlertaRow, procesoId: JString, emailFrom: string, outcome: MailOutcome)
    requires InvalidOf(toResults) == [] && (CcGiven(req.cc) ==> InvalidOf(ccResults) == [])
    ensures var d := DispatchOn(toResults, ccResults, req, a, procesoId, emailFrom, outcome);
      !(d.result.Failure? && d.result.error.InvalidAddresses?)
  {
    if req.to.Some? && req.to.value != [] && outcome != MessagingFault {
      RenderNeverRejects(ParseEmailAddresses(req.to), CcList(req.cc), req, a, procesoId, emailFrom, outcome);
    }
  }

  /** The steps after the recipients are set never throw the validation exception. */
  lemma RenderNeverRejects(to: seq<string>, cc: seq<string>, req: RequestSendEmail, a: AlertaRow, procesoId: JString,
    emailFrom: string, outcome: MailOutcome)
    requires outcome != MessagingFault
    ensures var d := Render(to, cc, req, a, procesoId, emailFrom, outcome);
      !(d.result.Failure? && d.result.error.InvalidAddresses?)
  {
  }

  /** Lists that do not validate always make the mail service throw the validation exception. */
  lemma RejectedListsFail(req: RequestSendEmail, a: AlertaRow, procesoId: JString, emailFrom: string, outcome: MailOutcome)
    requires !(AllValid(req.to) && (CcGiven(req.cc) ==> AllValid(req.cc)))
    ensures var d := Dispatch(req, a, procesoId, emailFrom, outcome);
      d.result.Failure? && d.result.error.InvalidAddresses?
  {
    RejectedListsFailOn(Validations(req.to), Validations(req.cc), req, a, procesoId, emailFrom, outcome);
  }

  lemma RejectedListsFailOn(toResults: seq<EmailValidationResult>, ccResults: seq<EmailValidationResult>,
    req: RequestSendEmail, a: AlertaRow, procesoId: JString, emailFrom: string, outcome: MailOutcome)
    requires !(InvalidOf(toResults) == [] && (CcGiven(req.cc) ==> InvalidOf(ccResults) == []))
    ensures var d := DispatchOn(toResults, ccResults, req, a, procesoId, emailFrom, outcome);
      d.result.Failure? && d.result.error.InvalidAddresses?
  {
  }

  /**
   * A TO or given CC list with an invalid entry makes the run rethrow the validation
   * exception after the first save: the stored alert stays `PENDIENTE`, nothing is sent,
   * and the trace is the save event followed by the validation error.
   */
  lemma ProcessRejectsAddresses(req: RequestSendEmail, procesoId: JString, rows: map<nat, AlertaRow>, nextId: nat,
    emailFrom: string, env: Environment)
    requires env.firstSave.Stored?
    requires !(AllValid(req.to) && (CcGiven(req.cc) ==> AllValid(req.cc)))
    ensures var p := Process(req, procesoId, rows, nextId, emailFrom, env);
      && p.result.Failure? && p.result.error.ValidationFault?
      && p.rows == rows[nextId := Saved(req, env.createdAt, nextId)]
      && p.rows[nextId].estado == PENDIENTE && p.rows[nextId].fechaEnvio.None?
      && p.nextId == nextId + 1 && p.sent.None?
      && p.events == [TraceEvent(LevelSuccess, "PROCESO_OK", procesoId, SAVED_LOG + NatToString(nextId)),
                      TraceEvent(LevelError, "PROCESO_ERROR", procesoId, VALIDATION_LOG + p.result.error.exception.message)]
  {
    var saved := Saved(req, env.createdAt, nextId);
    var d := Dispatch(req, saved, procesoId, emailFrom, env.mail);
    DispatchWellFormed(req, saved, procesoId, emailFrom, env.mail);
    RejectedListsFail(req, saved, procesoId, emailFrom, env.mail);
    AfterSaveRejected(saved, nextId, rows[nextId := saved], nextId + 1, d, procesoId, env);
  }

  /**
   * A failing second save still reports an internal error although the mail service
   * has already run (and may have sent the message): the table keeps the `PENDIENTE` row
   * of the first save.
   */
  lemma SecondSaveFaultAfterSending(req: RequestSendEmail, procesoId: JString, rows: map<nat, AlertaRow>, nextId: nat,
    emailFrom: string, env: Environment)
    requires env.firstSave.Stored? && env.secondSave.StoreFault?
    requires AllValid(req.to) && (CcGiven(req.cc) ==> AllValid(req.cc))
    ensures var p := Process(req, procesoId, rows, nextId, emailFrom, env);
      && p.result == Failure(InternalFault("Error interno al procesar la alerta", env.secondSave.message))
      && p.rows == rows[nextId := Saved(req, env.createdAt, nextId)] && p.rows[nextId].estado == PENDIENTE
      && (p.sent.Some? <==> env.mail == Delivered && req.tipoError.Some? && Addressed(req))
      && |p.events| == 4
      && p.events[3] == TraceEvent(LevelError, "PROCESO_ERROR", procesoId, "Error al procesar alerta: " + env.secondSave.message)
  {
    var saved := Saved(req, env.createdAt, nextId);
    var d := Dispatch(req, saved, procesoId, emailFrom, env.mail);
    DispatchWellFormed(req, saved, procesoId, emailFrom, env.mail);
    AcceptedListsPass(req, saved, procesoId, emailFrom, env.mail);
    SentExactlyWhenAllGoesWell(req, saved, procesoId, emailFrom, env.mail);
    AfterSaveAnswered(saved, nextId, rows[nextId := saved], nextId + 1, d, procesoId, env);
  }

  /**
   * The message goes out exactly when the first save works, both lists validate, the
   * mail libraries do not fail and the request names an error type (the alert's
   * creation date is always set); it is then the message filled from the saved alert.
   */
  lemma ProcessSendsExactlyWhen(req: RequestSendEmail, procesoId: JString, rows: map<nat, AlertaRow>, nextId: nat,
    emailFrom: string, env: Environment)
    ensures var p := Process(req, procesoId, rows, nextId, emailFrom, env);
      && (p.sent.Some? <==>
            env.firstSave.Stored? && AllValid(req.to) && (CcGiven(req.cc) ==> AllValid(req.cc))
            && env.mail == Delivered && req.tipoError.Some? && Addressed(req))
      && (p.sent.Some? ==> p.sent.value == Outgoing(req, Saved(req, env.createdAt, nextId), emailFrom))
  {
    if env.firstSave.Stored? {
      var saved := Saved(req, env.createdAt, nextId);
      var d := Dispatch(req, saved, procesoId, emailFrom, env.mail);
      SentExactlyWhenAllGoesWell(req, saved, procesoId, emailFrom, env.mail);
      DispatchWellFormed(req, saved, procesoId, emailFrom, env.mail);
      AbsorbFacts(d, Some(nextId), procesoId);
    }
  }

  /**
   * A request without an error type passes validation and saving, but the template
   * context cannot be built: the resulting `NullPointerException` is absorbed, the alert
   * ends `ERROR_ENVIO` and the delivery event is the generic send error.
   */
  lemma MissingTipoErrorEndsInErrorEnvio(req: RequestSendEmail, procesoId: JString, rows: map<nat, AlertaRow>, nextId: nat,
    emailFrom: string, env: Environment)
    requires env.firstSave.Stored? && env.secondSave.Stored? && env.mail == Delivered
    requires AllValid(req.to) && (CcGiven(req.cc) ==> AllValid(req.cc))
    requires req.tipoError.None?
    ensures var p := Process(req, procesoId, rows, nextId, emailFrom, env);
      && p.result.Success? && p.result.value.estado == ERROR_ENVIO && p.sent.None?
      && p.events[1] == TraceEvent(LevelError, "PROCESO_ERROR", procesoId, MAIL_LOG + NatToString(nextId))
  {
    var saved := Saved(req, env.createdAt, nextId);
    ValidToIsGiven(req.to);
    NullTipoErrorOn(Validations(req.to), Validations(req.cc), req, saved, procesoId, emailFrom);
    var d := Dispatch(req, saved, procesoId, emailFrom, env.mail);
    DispatchWellFormed(req, saved, procesoId, emailFrom, env.mail);
    AfterSaveAnswered(saved, nextId, rows[nextId := saved], nextId + 1, d, procesoId, env);
  }

  /**
   * A TO made only of a separator, without a CC, passes validation and saving, but the
   * transport refuses the recipient-less message: its runtime failure is absorbed, the
   * alert ends `ERROR_ENVIO` and the delivery event is the generic send error.
   */
  lemma SeparatorOnlyToEndsInErrorEnvio(sep: char, req: RequestSendEmail, procesoId: JString, rows: map<nat, AlertaRow>,
    nextId: nat, emailFrom: string, env: Environment)
    requires sep in SEPARATORS && req.to == Some([sep]) && !CcGiven(req.cc) && req.tipoError.Some?
    requires env.firstSave.Stored? && env.secondSave.Stored? && env.mail == Delivered
    ensures var p := Process(req, procesoId, rows, nextId, emailFrom, env);
      && p.result.Success? && p.result.value.estado == ERROR_ENVIO && p.sent.None?
      && p.events[1] == TraceEvent(LevelError, "PROCESO_ERROR", procesoId, MAIL_LOG + NatToString(nextId))
  {
    var saved := Saved(req, env.createdAt, nextId);
    SeparatorOnlyToIsRefused(sep, req, saved, procesoId, emailFrom, env.mail);
    var d := Dispatch(req, saved, procesoId, emailFrom, env.mail);
    DispatchWellFormed(req, saved, procesoId, emailFrom, env.mail);
    AfterSaveAnswered(saved, nextId, rows[nextId := saved], nextId + 1, d, procesoId, env);
  }

  lemma NullTipoErrorOn(toResults: seq<EmailValidationResult>, ccResults: seq<EmailValidationResult>,
    req: RequestSendEmail, a: AlertaRow, procesoId: JString, emailFrom: string)
    requires InvalidOf(toResults) == [] && (CcGiven(req.cc) ==> InvalidOf(ccResults) == [])
    requires req.to.Some? && req.to.value != []
    requires a.tipError.None?
    ensures DispatchOn(toResults, ccResults, req, a, procesoId, emailFrom, Delivered).result == Failure(NullReference)
  {
  }

  /**
   * AlertaService with its collaborators. Spring injects the same trace service into
   * it and into the mail service, which `Valid` records.
   */
  class AlertaServiceImpl {
    const alertaRepository: AlertaRepository
    const emailService: EmailServiceImpl
    const traceabilityService: TraceLog

    predicate Valid()
      reads this, alertaRepository
    {
      emailService.traceabilityService == traceabilityService && alertaRepository.Valid()
    }

    constructor(alertaRepository: AlertaRepository, emailService: EmailServiceImpl, traceabilityService: TraceLog)
      requires alertaRepository.Valid() && emailService.traceabilityService == traceabilityService
      ensures this.alertaRepository == alertaRepository && this.emailService == emailService
      ensures this.traceabilityService == traceabilityService
      ensures Valid()
    {
      this.alertaRepository := alertaRepository;
      this.emailService := emailService;
      this.traceabilityService := traceabilityService;
    }

    /** `enviarCorreoAlerta`: the mail service's call, with the faults handled as `Absorb` says. */
    method EnviarCorreoAlerta(request: RequestSendEmail, alerta: Alerta, procesoId: JString, outcome: MailOutcome)
      returns (r: Result<bool, EmailValidationException>)
      requires emailService.traceabilityService == traceabilityService
      modifies emailService.javaMailSender, traceabilityService
      ensures var d := Dispatch(request, alerta.Row(), procesoId, emailService.emailFrom, outcome);
        var c := Absorb(d, alerta.idAlerta, procesoId);
        && r == c.result
        && emailService.javaMailSender.outbox == old(emailService.javaMailSender.outbox) + SentList(d.sent)
        && traceabilityService.events == old(traceabilityService.events) + d.events + c.events
    {
      var res := emailService.EnviarAlertaCorreo(request, alerta, procesoId, outcome);
      match res {
        case Success(enviado) =>
          r := Success(enviado);
        case Failure(InvalidAddresses(e)) =>
          r := Failure(e);
        case Failure(UnsupportedEncoding) =>
          traceabilityService.LogError(EventName(PROCESO_ERROR), procesoId, ENCODING_LOG + ShowNumber(alerta.idAlerta));
          r := Success(false);
        case Failure(_) =>
          traceabilityService.LogError(EventName(PROCESO_ERROR), procesoId, MAIL_LOG + ShowNumber(alerta.idAlerta));
          r := Success(false);
      }
    }

    /**
     * `procesarAlerta`: the run `Process` describes. The returned alert is the fresh
     * entity holding the final row; the table, the outbox and the trace change as
     * `Process` says.
     */
    method ProcesarAlerta(request: RequestSendEmail, procesoId: JString, env: Environment)
      returns (r: Result<Alerta, ProcessFault>)
      requires Valid()
      modifies alertaRepository, emailService.javaMailSender, traceabilityService
      ensures Valid()
      ensures var p := Process(request, procesoId, old(alertaRepository.rows), old(alertaRepository.nextId), emailService.emailFrom, env);
        && (r.Success? <==> p.result.Success?)
        && (r.Success? ==> fresh(r.value) && r.value.Row() == p.result.value)
        && (r.Failure? ==> p.result == Failure(r.error))
        && alertaRepository.rows == p.rows && alertaRepository.nextId == p.nextId
        && emailService.javaMailSender.outbox == old(emailService.javaMailSender.outbox) + SentList(p.sent)
        && traceabilityService.events == old(traceabilityService.events) + p.events
    {
      ghost var rows0, nextId0 := alertaRepository.rows, alertaRepository.nextId;
      var alerta := CrearAlerta(request, env.createdAt);
      var stored := alertaRepository.Save(alerta, env.firstSave);
      if !stored {
        traceabilityService.LogError(EventName(PROCESO_ERROR), procesoId, FAILURE_LOG + env.firstSave.message);
        return Failure(InternalFault(INTERNAL_ERROR, env.firstSave.message));
      }
      // a new entity is persisted in place, so the saved alert is the created one
      assert alerta.Row() == Saved(request, env.createdAt, old(alertaRepository.nextId));
      ProcessAfterFirstSave(request, procesoId, rows0, nextId0, emailService.emailFrom, env);
      r := RecordDelivery(request, alerta, procesoId, env);
    }

    /**
     * The rest of `procesarAlerta` once the first save has stored `alertaGuardada`: trace
     * the save, send, record the delivery state and save again, as `AfterSave` says.
     */
    method RecordDelivery(request: RequestSendEmail, alertaGuardada: Alerta, procesoId: JString, env: Environment)
      returns (r: Result<Alerta, ProcessFault>)
      requires Valid()
      requires alertaGuardada.idAlerta.Some? && alertaGuardada.idAlerta.value < alertaRepository.nextId
      modifies alertaRepository, alertaGuardada, emailService.javaMailSender, traceabilityService
      ensures Valid()
      ensures var p := AfterSave(old(alertaGuardada.Row()), old(alertaGuardada.idAlerta.value),
          old(alertaRepository.rows), old(alertaRepository.nextId),
          Dispatch(request, old(alertaGuardada.Row()), procesoId, emailService.emailFrom, env.mail), procesoId, env);
        && (r.Success? <==> p.result.Success?)
        && (r.Success? ==> r.value == alertaGuardada && alertaGuardada.Row() == p.result.value)
        && (r.Failure? ==> p.result == Failure(r.error))
        && alertaRepository.rows == p.rows && alertaRepository.nextId == p.nextId
        && emailService.javaMailSender.outbox == old(emailService.javaMailSender.outbox) + SentList(p.sent)
        && traceabilityService.events == old(traceabilityService.events) + p.events
    {
      ghost var id := alertaGuardada.idAlerta.value;
      ghost var d := Dispatch(request, alertaGuardada.Row(), procesoId, emailService.emailFrom, env.mail);
      ghost var c := Absorb(d, Some(id), procesoId);
      ghost var events0 := traceabilityService.events;
      traceabilityService.LogSuccess(EventName(PROCESO_OK), procesoId, SAVED_LOG + ShowNumber(alertaGuardada.idAlerta));
      var correoEnviado := EnviarCorreoAlerta(request, alertaGuardada, procesoId, env.mail);
      ghost var first := Event(PROCESO_OK, procesoId, SAVED_LOG + ShowNumber(Some(id)));
      if correoEnviado.Failure? {
        traceabilityService.LogError(EventName(PROCESO_ERROR), procesoId, VALIDATION_LOG + correoEnviado.error.message);
        TraceAppend(events0, first, d.events, c.events, [ErrorEvent(procesoId, VALIDATION_LOG + correoEnviado.error.message)]);
        return Failure(ValidationFault(correoEnviado.error));
      }
      r := StoreOutcome(alertaGuardada, correoEnviado.value, procesoId, env);
      if env.secondSave.StoreFault? {
        TraceAppend2(events0, first, d.events, c.events, OutcomeEvent(correoEnviado.value, procesoId, id),
          ErrorEvent(procesoId, FAILURE_LOG + env.secondSave.message));
      } else {
        TraceAppend(events0, first, d.events, c.events, [OutcomeEvent(correoEnviado.value, procesoId, id)]);
      }
    }

    /**
     * The end of `procesarAlerta` for the answer `enviado`: set the delivery state, trace
     * it and save the alert again.
     */
    method StoreOutcome(alertaGuardada: Alerta, enviado: bool, procesoId: JString, env: Environment)
      returns (r: Result<Alerta, ProcessFault>)
      requires Valid()
      requires alertaGuardada.idAlerta.Some? && alertaGuardada.idAlerta.value < alertaRepository.nextId
      modifies alertaRepository, alertaGuardada, traceabilityService
      ensures Valid()
      ensures var id := old(alertaGuardada.idAlerta.value);
        var updated := Updated(old(alertaGuardada.Row()), enviado, env.sentAt);
        && alertaRepository.nextId == old(alertaRepository.nextId)
        && (env.secondSave.Stored? ==>
              && r == Success(alertaGuardada) && alertaGuardada.Row() == updated
              && alertaRepository.rows == old(alertaRepository.rows)[id := updated]
              && traceabilityService.events == old(traceabilityService.events) + [OutcomeEvent(enviado, procesoId, id)])
        && (env.secondSave.StoreFault? ==>
              && r == Failure(InternalFault(INTERNAL_ERROR, env.secondSave.message))
              && alertaRepository.rows == old(alertaRepository.rows)
              && traceabilityService.events == old(traceabilityService.events)
                   + [OutcomeEvent(enviado, procesoId, id), ErrorEvent(procesoId, FAILURE_LOG + env.secondSave.message)])
    {
      if enviado {
        alertaGuardada.fechaEnvio := Some(env.sentAt);
        alertaGuardada.estado := ENVIADA;
        traceabilityService.LogSuccess(EventName(PROCESO_OK), procesoId, SENT_LOG + ShowNumber(alertaGuardada.idAlerta));
      } else {
        alertaGuardada.estado := ERROR_ENVIO;
        traceabilityService.LogSuccess(EventName(PROCESO_ERROR), procesoId, NOT_SENT_LOG + ShowNumber(alertaGuardada.idAlerta));
      }
      var stored := alertaRepository.Save(alertaGuardada, env.secondSave);
      if !stored {
        traceabilityService.LogError(EventName(PROCESO_ERROR), procesoId, FAILURE_LOG + env.secondSave.message);
        return Failure(InternalFault(INTERNAL_ERROR, env.secondSave.message));
      }
      return Success(alertaGuardada);
    }
  }
}
