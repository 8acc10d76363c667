/**
 * The notification dispatcher (EmailServiceImpl): it validates the TO and CC lists,
 * fills a MIME message field by field, renders the alert template over a context built
 * from the alert, sends the message and records the outcome in the trace.
 *
 * `Dispatch` states what one call does (its result, the message handed to the sender,
 * the trace events) as a function of the request, the alert, and how the mail
 * libraries behave; the method `EmailServiceImpl.EnviarAlertaCorreo` performs the same
 * steps on the stateful helper, sender and trace and is proved to agree with it.
 */
module EmailService {
  import opened Wrappers
  import opened JavaStrings
  import opened EmailUtils
  import opened ValidationException
  import opened Timestamps
  import opened Entities
  import opened Traceability
  import opened Mail

  const NOT_AVAILABLE := "No disponible"
  const TEMPLATE_SUCCESS := "success-email"
  const TEMPLATE_ALERT := "alerta-email"
  const SENDER_NAME := "Soporte"
  const SUBJECT_SEPARATOR := " - "
  const MSG_INVALID_CC := "Emails inválidos en campo CC"
  const MSG_NO_TO := "No se especificaron destinatarios TO para alerta ID: "
  const MSG_SENT := "Correo enviado exitosamente para alerta ID: "
  const MSG_PROCESS_ERROR := "Error al procesar alerta: "

  // ---------------------------------------------------------------------------
  // formatearXml
  // ---------------------------------------------------------------------------

  /** The three chained replacements, in the order the code applies them: `<`, then `>`, then `&`. */
  function EscapeXml(s: string): (r: string)
    ensures '<' !in r && '>' !in r
  {
    var lt := Replace(s, '<', "&lt;");
    var gt := Replace(lt, '>', "&gt;");
    ReplaceFacts(s, '<', "&lt;");
    ReplaceFacts(lt, '>', "&gt;");
    ReplaceFacts(gt, '&', "&amp;");
    Replace(gt, '&', "&amp;")
  }

  /** `formatearXml`: a placeholder for a null or blank payload, the escaped payload otherwise. */
  function FormatearXml(xml: JString): (r: string)
    ensures '<' !in r && '>' !in r
  {
    if xml.None? || Trim(xml.value) == [] then NOT_AVAILABLE else EscapeXml(xml.value)
  }

  /**
   * What one char of the payload becomes, as an independent reference: since `&` is
   * replaced last, the entities inserted for `<` and `>` have their own `&` escaped again.
   */
  function EscapedChar(c: char): string {
    if c == '<' then "&amp;lt;"
    else if c == '>' then "&amp;gt;"
    else if c == '&' then "&amp;"
    else [c]
  }

  function EscapeEachChar(s: string): string {
    if s == [] then [] else EscapedChar(s[0]) + EscapeEachChar(s[1..])
  }

  /** How the entity texts split around their `&`. */
  lemma EntityTexts()
    ensures "&lt;" == "&" + "lt;" && "&gt;" == "&" + "gt;"
    ensures "&amp;" + "lt;" == "&amp;lt;" && "&amp;" + "gt;" == "&amp;gt;"
    ensures '>' !in "&lt;" && '&' !in "lt;" && '&' !in "gt;"
  {
  }

  lemma EscapeLessThan()
    ensures EscapeXml("<") == "&amp;lt;"
  {
    EntityTexts();
    ReplaceOfChar('<', '<', "&lt;");
    ReplaceAbsent("&lt;", '>', "&gt;");
    ReplaceAppend("&", "lt;", '&', "&amp;");
    ReplaceOfChar('&', '&', "&amp;");
    ReplaceAbsent("lt;", '&', "&amp;");
  }

  lemma EscapeGreaterThan()
    ensures EscapeXml(">") == "&amp;gt;"
  {
    EntityTexts();
    ReplaceOfChar('>', '<', "&lt;");
    ReplaceOfChar('>', '>', "&gt;");
    ReplaceAppend("&", "gt;", '&', "&amp;");
    ReplaceOfChar('&', '&', "&amp;");
    ReplaceAbsent("gt;", '&', "&amp;");
  }

  lemma EscapeXmlOfChar(c: char)
    ensures EscapeXml([c]) == EscapedChar(c)
  {
    if c == '<' {
      EscapeLessThan();
    } else if c == '>' {
      EscapeGreaterThan();
    } else {
      ReplaceOfChar(c, '<', "&lt;");
      ReplaceOfChar(c, '>', "&gt;");
      ReplaceOfChar(c, '&', "&amp;");
    }
  }

  /** The escaping of a concatenation is the concatenation of the escapings. */
  lemma EscapeXmlAppend(x: string, y: string)
    ensures EscapeXml(x + y) == EscapeXml(x) + EscapeXml(y)
  {
    ReplaceAppend(x, y, '<', "&lt;");
    ReplaceAppend(Replace(x, '<', "&lt;"), Replace(y, '<', "&lt;"), '>', "&gt;");
    ReplaceAppend(Replace(Replace(x, '<', "&lt;"), '>', "&gt;"),
      Replace(Replace(y, '<', "&lt;"), '>', "&gt;"), '&', "&amp;");
  }

  /** The chained replacements act char by char, as the reference says. */
  lemma {:induction false} EscapeXmlIsPerChar(s: string)
    ensures EscapeXml(s) == EscapeEachChar(s)
  {
    if s != [] {
      assert s == [s[0]] + s[1..];
      EscapeXmlAppend([s[0]], s[1..]);
      EscapeXmlOfChar(s[0]);
      EscapeXmlIsPerChar(s[1..]);
    }
  }

    /** Every `&` of a text starts the entity `&amp;`. */
  predicate AmpersandsBeginEntities(t: string) {
    forall i :: 0 <= i < |t| && t[i] == '&' ==> i + 5 <= |t| && t[i..i + 5] == "&amp;"
  }

  lemma AmpersandsBeginEntitiesAppend(a: string, b: string)
    requires AmpersandsBeginEntities(a) && AmpersandsBeginEntities(b)
    ensures AmpersandsBeginEntities(a + b)
  {
    var t := a + b;
    forall i | 0 <= i < |t| && t[i] == '&'
      ensures i + 5 <= |t| && t[i..i + 5] == "&amp;"
    {
      if i < |a| {
        assert a[i] == '&';
        assert t[i..i + 5] == a[i..i + 5];
      } else {
        assert b[i - |a|] == '&';
        assert t[i..i + 5] == b[i - |a|..i - |a| + 5];
      }
    }
  }

  /** Replacing every `&` by `&amp;` leaves no `&` that does not begin `&amp;`. */
  lemma {:induction false} AmpersandReplaceBeginsEntities(u: string)
    ensures AmpersandsBeginEntities(Replace(u, '&', "&amp;"))
  {
    if u != [] {
      AmpersandReplaceBeginsEntities(u[1..]);
      var head := if u[0] == '&' then "&amp;" else [u[0]];
      assert AmpersandsBeginEntities(head) by {
        if u[0] == '&' {
          assert forall i :: 0 < i < 5 ==> "&amp;"[i] != '&';
        }
      }
      AmpersandsBeginEntitiesAppend(head, Replace(u[1..], '&', "&amp;"));
    }
  }

  /** Every `&` of the escaped text begins `&amp;`. */
  lemma EscapedAmpersandsBeginEntities(s: string)
    ensures AmpersandsBeginEntities(EscapeXml(s))
  {
    AmpersandReplaceBeginsEntities(Replace(Replace(s, '<', "&lt;"), '>', "&gt;"));
  }

  /** One HTML decoding of `&amp;` (the only entity the last replacement produces). */
  function DecodeAmp(t: string): string
    decreases |t|
  {
    if t == [] then []
    else if |t| >= 5 && t[..5] == "&amp;" then "&" + DecodeAmp(t[5..])
    else [t[0]] + DecodeAmp(t[1..])
  }

  lemma {:induction false} DecodeAmpUndoesReplace(u: string)
    ensures DecodeAmp(Replace(u, '&', "&amp;")) == u
  {
    if u != [] {
      var rest := Replace(u[1..], '&', "&amp;");
      DecodeAmpUndoesReplace(u[1..]);
      if u[0] == '&' {
        var t := "&amp;" + rest;
        assert t[..5] == "&amp;" && t[5..] == rest;
      } else {
        var t := [u[0]] + rest;
        assert t[1..] == rest;
      }
      assert u == [u[0]] + u[1..];
    }
  }

  /**
   * What a reader of the rendered HTML sees: decoding the escaped payload once gives the
   * payload with each `<` and `>` still written as the entity text `&lt;` and `&gt;`.
   */
  lemma DecodedPayloadShowsEntities(s: string)
    ensures DecodeAmp(EscapeXml(s)) == Replace(Replace(s, '<', "&lt;"), '>', "&gt;")
  {
    DecodeAmpUndoesReplace(Replace(Replace(s, '<', "&lt;"), '>', "&gt;"));
  }

  /**
   * `formatearXml`: null or blank gives "No disponible"; any other payload gives a text
   * with no `<` or `>`, whose every `&` begins `&amp;`, built char by char by the reference.
   */
  lemma FormatearXmlFacts(xml: JString)
    ensures xml.None? || Trim(xml.value) == [] ==> FormatearXml(xml) == NOT_AVAILABLE
    ensures xml.Some? && Trim(xml.value) != [] ==>
      && FormatearXml(xml) == EscapeEachChar(xml.value)
      && '<' !in FormatearXml(xml) && '>' !in FormatearXml(xml)
      && AmpersandsBeginEntities(FormatearXml(xml))
  {
    if xml.Some? && Trim(xml.value) != [] {
      EscapeXmlIsPerChar(xml.value);
      EscapedAmpersandsBeginEntities(xml.value);
    }
  }

  lemma PerCharExample()
    ensures EscapeEachChar("<a>&b") == "&amp;lt;a&amp;gt;&amp;b"
  {
  }

  lemma PerCharEntityExample()
    ensures EscapeEachChar("<") == EscapeEachChar("&lt;") == "&amp;lt;"
  {
  }

  /** The payload `<a>&b` comes out with its entities escaped twice. */
  lemma FormatearXmlExample()
    ensures FormatearXml(Some("<a>&b")) == "&amp;lt;a&amp;gt;&amp;b"
  {
    PerCharExample();
    EscapeXmlIsPerChar("<a>&b");
    assert Trim("<a>&b") != [];
  }

  /** Because `&` is replaced last, a `<` and the text `&lt;` render the same. */
  lemma FormatearXmlConfusesEntities()
    ensures FormatearXml(Some("<")) == FormatearXml(Some("&lt;")) == "&amp;lt;"
  {
    PerCharEntityExample();
    EscapeXmlIsPerChar("<");
    EscapeXmlIsPerChar("&lt;");
    assert Trim("<") != [] && Trim("&lt;") != [];
  }

  // ---------------------------------------------------------------------------
  // crearContextoPlantilla and the template choice
  // ---------------------------------------------------------------------------

  /**
   * `crearContextoPlantilla`: the template variables; `None` stands for the
   * NullPointerException of formatting a null `fechaCreacion`.
   */
  function CrearContextoPlantilla(a: AlertaRow): (r: Option<TemplateContext>)
    ensures r.Some? <==> a.fechaCreacion.Some?
  {
    match a.fechaCreacion
    case None => None
    case Some(fecha) =>
      Some(TemplateContext(a.nomArchivo, a.tipError, FormatDateTime(fecha), a.camAfectada,
        FormatearXml(a.trama), a.idAlerta))
  }

  /**
   * The context's `fecha` is the creation time in `dd/MM/yyyy HH:mm:ss` (each field
   * reads back from it), its `trama` the escaped payload, and the other variables are
   * the alert's own fields.
   */
  lemma ContextFields(a: AlertaRow)
    requires a.fechaCreacion.Some?
    ensures var c := CrearContextoPlantilla(a).value;
      && c.nombreArchivo == a.nomArchivo && c.tipoError == a.tipError
      && c.camaraAfectada == a.camAfectada && c.alertaId == a.idAlerta
      && c.trama == FormatearXml(a.trama)
      && |c.fecha| == 19
      && DecimalValue(c.fecha[0..2]) == a.fechaCreacion.value.day
      && DecimalValue(c.fecha[3..5]) == a.fechaCreacion.value.month
      && DecimalValue(c.fecha[6..10]) == a.fechaCreacion.value.year
      && DecimalValue(c.fecha[11..13]) == a.fechaCreacion.value.hour
      && DecimalValue(c.fecha[14..16]) == a.fechaCreacion.value.minute
      && DecimalValue(c.fecha[17..19]) == a.fechaCreacion.value.second
  {
    FormatDateTimeFields(a.fechaCreacion.value);
  }

  /** "success-email" for an empty `tipError`, "alerta-email" otherwise. */
  function TemplateFor(tipError: string): string {
    if tipError == [] then TEMPLATE_SUCCESS else TEMPLATE_ALERT
  }

  lemma TemplateChoice(tipError: string)
    ensures TemplateFor(tipError) == TEMPLATE_SUCCESS <==> tipError == []
    ensures TemplateFor(tipError) == TEMPLATE_ALERT <==> tipError != []
  {
    assert TEMPLATE_SUCCESS[0] != TEMPLATE_ALERT[0];
  }

  // ---------------------------------------------------------------------------
  // enviarAlertaCorreo
  // ---------------------------------------------------------------------------

  /** What `enviarAlertaCorreo` throws. */
  datatype DispatchFault =
    | InvalidAddresses(exception: EmailValidationException)  // EmailValidationException
    | UnsupportedEncoding                                    // UnsupportedEncodingException from setFrom
    | NullReference                                          // NullPointerException on a null alert field
    | MailFailure                                            // the runtime MailException of send

  /** One call's effect: what it returns or throws, the message it sends, the trace events it appends. */
  datatype DispatchEffect = DispatchEffect(result: Result<bool, DispatchFault>, sent: Option<MimeMessage>, events: seq<TraceEvent>)

  /** The messages a call hands the sender: none, or the one it sent. */
  function SentList(sent: Option<MimeMessage>): seq<MimeMessage> {
    if sent.Some? then [sent.value] else []
  }

  /** `cc != null && !cc.isEmpty()`: the test guarding both the CC validation and `setCc`. */
  predicate CcGiven(cc: JString) {
    cc.Some? && cc.value != []
  }

  /** `asunto + " - " + tipoError`, with Java's rendering of null. */
  function Subject(req: RequestSendEmail): string {
    Show(req.asunto) + SUBJECT_SEPARATOR + Show(req.tipoError)
  }

  /** The CC list handed to `setCc`, or none when the CC is not given. */
  function CcList(cc: JString): seq<string> {
    if CcGiven(cc) then ParseEmailAddresses(cc) else []
  }

  /** The request's lists leave the filled message some recipient, which `send` demands. */
  predicate Addressed(req: RequestSendEmail) {
    ParseEmailAddresses(req.to) != [] || CcList(req.cc) != []
  }

  /** The message just before `send`, for the recipient lists `setTo` and `setCc` received. */
  function Filled(to: seq<string>, cc: seq<string>, req: RequestSendEmail, a: AlertaRow, emailFrom: string): MimeMessage
    requires a.fechaCreacion.Some? && a.tipError.Some?
  {
    MimeMessage(
      to, cc, emailFrom, SENDER_NAME, Subject(req),
      Some(Processed(TemplateFor(a.tipError.value), CrearContextoPlantilla(a).value)),
      true)
  }

  /** The message as the helper has filled it just before `send`. */
  function Outgoing(req: RequestSendEmail, a: AlertaRow, emailFrom: string): MimeMessage
    requires a.fechaCreacion.Some? && a.tipError.Some?
  {
    Filled(ParseEmailAddresses(req.to), CcList(req.cc), req, a, emailFrom)
  }

  function Event(t: TipoEvento, procesoId: JString, message: string): TraceEvent {
    TraceEvent(LevelSuccess, EventName(t), procesoId, message)
  }

  /**
   * One call of `enviarAlertaCorreo`, step by step as the code takes them, given the
   * validation results of the TO and CC lists. The mail libraries' behaviour is the
   * parameter `outcome`: a `MessagingFault` is raised by one of the helper's setters,
   * an `EncodingFault` by `setFrom`, a `TransportFault` by `send`; `send` also refuses
   * a message without any recipient.
   */
  function DispatchOn(toResults: seq<EmailValidationResult>, ccResults: seq<EmailValidationResult>,
    req: RequestSendEmail, a: AlertaRow, procesoId: JString, emailFrom: string, outcome: MailOutcome): DispatchEffect
  {
    if InvalidOf(toResults) != [] then
      DispatchEffect(Failure(InvalidAddresses(FromResults(toResults))), None, [])
    else if CcGiven(req.cc) && InvalidOf(ccResults) != [] then
      DispatchEffect(Failure(InvalidAddresses(WithMessage(MSG_INVALID_CC, ccResults))), None, [])
    else
      Deliver(req, a, procesoId, emailFrom, outcome)
  }

  /** The steps after validation: recipients, sender, subject, template, send. */
  function Deliver(req: RequestSendEmail, a: AlertaRow, procesoId: JString, emailFrom: string, outcome: MailOutcome): DispatchEffect {
    if !(req.to.Some? && req.to.value != []) then
      DispatchEffect(Success(false), None, [Event(PROCESO_WARN, procesoId, MSG_NO_TO + ShowNumber(a.idAlerta))])
    else if outcome == MessagingFault then
      DispatchEffect(Success(false), None, [Event(PROCESO_ERROR, procesoId, MSG_PROCESS_ERROR + ShowNumber(a.idAlerta))])
    else
      Render(ParseEmailAddresses(req.to), CcList(req.cc), req, a, procesoId, emailFrom, outcome)
  }

  /** The steps after the recipients are set: sender, subject, template, send. */
  function Render(to: seq<string>, cc: seq<string>, req: RequestSendEmail, a: AlertaRow, procesoId: JString,
    emailFrom: string, outcome: MailOutcome): DispatchEffect
    requires outcome != MessagingFault
  {
    if outcome == EncodingFault then
      DispatchEffect(Failure(UnsupportedEncoding), None, [])
    else if a.fechaCreacion.None? || a.tipError.None? then
      DispatchEffect(Failure(NullReference), None, [])
    else if outcome == TransportFault || !HasRecipient(Filled(to, cc, req, a, emailFrom)) then
      DispatchEffect(Failure(MailFailure), None, [])
    else
      DispatchEffect(Success(true), Some(Filled(to, cc, req, a, emailFrom)), [Event(PROCESO_OK, procesoId, MSG_SENT + ShowNumber(a.idAlerta))])
  }

  /** `enviarAlertaCorreo` on the lists as `parseAndValidateEmailAddresses` validates them. */
  function Dispatch(req: RequestSendEmail, a: AlertaRow, procesoId: JString, emailFrom: string, outcome: MailOutcome): DispatchEffect {
    DispatchOn(Validations(req.to), Validations(req.cc), req, a, procesoId, emailFrom, outcome)
  }

  lemma EventNameLengths()
    ensures |EventName(PROCESO_OK)| == 10 && |EventName(PROCESO_WARN)| == 12 && |EventName(PROCESO_ERROR)| == 13
  {
  }

  /** A list passes validation exactly when every one of its results is valid. */
  predicate AllValid(emails: JString) {
    InvalidOf(Validations(emails)) == []
  }

  lemma AllValidMeansEveryResult(emails: JString)
    ensures AllValid(emails) <==> forall i :: 0 <= i < |Validations(emails)| ==> Validations(emails)[i].isValid
  {
    InvalidOfExtremes(Validations(emails));
  }

  /** A TO list that passes validation is neither null nor empty. */
  lemma ValidToIsGiven(to: JString)
    ensures AllValid(to) ==> to.Some? && to.value != []
  {
    if AllValid(to) {
      AllValidMeansEveryResult(to);
      ValidListIsGiven(to);
    }
  }

  /**
   * An invalid TO entry stops the call with the exception carrying the whole TO result
   * list (valid entries included) and the message `buildMessage` makes of it: nothing is
   * sent and nothing is traced.
   */
  lemma InvalidToStops(req: RequestSendEmail, a: AlertaRow, procesoId: JString, emailFrom: string, outcome: MailOutcome)
    requires exists i :: 0 <= i < |Validations(req.to)| && !Validations(req.to)[i].isValid
    ensures var d := Dispatch(req, a, procesoId, emailFrom, outcome);
      && d.result.Failure? && d.result.error.InvalidAddresses?
      && d.result.error.exception.validationResults == Validations(req.to)
      && d.result.error.exception.message == DetailedMessage(Validations(req.to))
      && d.sent.None? && d.events == []
  {
    AllValidMeansEveryResult(req.to);
  }

  /** Whatever the CC results, a CC that is null or the empty string plays no part in the call. */
  lemma CcIgnoredWhenNotGivenOn(toResults: seq<EmailValidationResult>, ccResults: seq<EmailValidationResult>,
    otherCcResults: seq<EmailValidationResult>,
    req: RequestSendEmail, a: AlertaRow, procesoId: JString, emailFrom: string, outcome: MailOutcome)
    requires !CcGiven(req.cc)
    ensures DispatchOn(toResults, ccResults, req, a, procesoId, emailFrom, outcome)
         == DispatchOn(toResults, otherCcResults, req.(cc := None), a, procesoId, emailFrom, outcome)
  {
    var other := req.(cc := None);
    assert CcList(req.cc) == [] == CcList(other.cc);
    if InvalidOf(toResults) == [] && outcome != MessagingFault {
      RenderOnSubject(ParseEmailAddresses(req.to), [], req, other, a, procesoId, emailFrom, outcome);
    }
  }

  /** The steps after the recipients are set see the request only through its subject. */
  lemma RenderOnSubject(to: seq<string>, cc: seq<string>, req: RequestSendEmail, other: RequestSendEmail, a: AlertaRow,
    procesoId: JString, emailFrom: string, outcome: MailOutcome)
    requires outcome != MessagingFault && Subject(req) == Subject(other)
    ensures Render(to, cc, req, a, procesoId, emailFrom, outcome) == Render(to, cc, other, a, procesoId, emailFrom, outcome)
  {
  }

  /**
   * CC is validated only when it is neither null nor the empty string: with such a CC
   * the call behaves as with no CC at all.
   */
  lemma CcIgnoredWhenNotGiven(req: RequestSendEmail, a: AlertaRow, procesoId: JString, emailFrom: string, outcome: MailOutcome)
    requires !CcGiven(req.cc)
    ensures Dispatch(req, a, procesoId, emailFrom, outcome) == Dispatch(req.(cc := None), a, procesoId, emailFrom, outcome)
  {
    CcIgnoredWhenNotGivenOn(Validations(req.to), Validations(req.cc), Validations(None), req, a, procesoId, emailFrom, outcome);
  }

  /**
   * A given CC with an invalid entry, after a valid TO, stops the call with
   * "Emails inválidos en campo CC" and the whole CC result list: nothing is sent or traced.
   */
  lemma InvalidCcStops(req: RequestSendEmail, a: AlertaRow, procesoId: JString, emailFrom: string, outcome: MailOutcome)
    requires AllValid(req.to) && CcGiven(req.cc)
    requires exists i :: 0 <= i < |Validations(req.cc)| && !Validations(req.cc)[i].isValid
    ensures var d := Dispatch(req, a, procesoId, emailFrom, outcome);
      && d.result == Failure(InvalidAddresses(EmailValidationException(MSG_INVALID_CC, Validations(req.cc))))
      && d.sent.None? && d.events == []
  {
    AllValidMeansEveryResult(req.cc);
  }

  /** A CC of blanks is not empty, so it is validated, and stops the call. */
  lemma BlankCcStops(req: RequestSendEmail, a: AlertaRow, procesoId: JString, emailFrom: string, outcome: MailOutcome)
    requires AllValid(req.to)
    requires req.cc.Some? && req.cc.value != [] && Trim(req.cc.value) == []
    ensures Dispatch(req, a, procesoId, emailFrom, outcome).result ==
      Failure(InvalidAddresses(EmailValidationException(MSG_INVALID_CC, [EmailValidationResult(Some(""), false, MSG_NONE_GIVEN)])))
  {
  }

  /** For results under which a valid TO list is a given one, no warning is recorded and false means a `MessagingException`. */
  lemma NoWarningOn(toResults: seq<EmailValidationResult>, ccResults: seq<EmailValidationResult>,
    req: RequestSendEmail, a: AlertaRow, procesoId: JString, emailFrom: string, outcome: MailOutcome)
    requires InvalidOf(toResults) == [] ==> req.to.Some? && req.to.value != []
    ensures var d := DispatchOn(toResults, ccResults, req, a, procesoId, emailFrom, outcome);
      && (forall e :: e in d.events ==> e.tipoEvento != EventName(PROCESO_WARN))
      && (d.result == Success(false) ==> outcome == MessagingFault)
  {
    EventNameLengths();
    if InvalidOf(toResults) == [] && !(CcGiven(req.cc) && InvalidOf(ccResults) != []) && outcome != MessagingFault {
      RenderNeverWarns(ParseEmailAddresses(req.to), CcList(req.cc), req, a, procesoId, emailFrom, outcome);
    }
  }

  /** The steps after the recipients are set record no warning and never answer false. */
  lemma RenderNeverWarns(to: seq<string>, cc: seq<string>, req: RequestSendEmail, a: AlertaRow, procesoId: JString,
    emailFrom: string, outcome: MailOutcome)
    requires outcome != MessagingFault
    ensures var d := Render(to, cc, req, a, procesoId, emailFrom, outcome);
      && (forall e :: e in d.events ==> e.tipoEvento != EventName(PROCESO_WARN))
      && d.result != Success(false)
  {
    EventNameLengths();
  }

  /**
   * The `PROCESO_WARN` branch cannot be taken: a TO that passes validation is neither
   * null nor empty. So the call never records a warning, and returns false only for a
   * `MessagingException`.
   */
  lemma WarningBranchIsDead(req: RequestSendEmail, a: AlertaRow, procesoId: JString, emailFrom: string, outcome: MailOutcome)
    ensures var d := Dispatch(req, a, procesoId, emailFrom, outcome);
      && (forall e :: e in d.events ==> e.tipoEvento != EventName(PROCESO_WARN))
      && (d.result == Success(false) ==> outcome == MessagingFault)
  {
    ValidToIsGiven(req.to);
    NoWarningOn(Validations(req.to), Validations(req.cc), req, a, procesoId, emailFrom, outcome);
  }

  /** When a message goes out, for results under which a valid TO list is a given one. */
  lemma SentOn(toResults: seq<EmailValidationResult>, ccResults: seq<EmailValidationResult>,
    req: RequestSendEmail, a: AlertaRow, procesoId: JString, emailFrom: string, outcome: MailOutcome)
    requires InvalidOf(toResults) == [] ==> req.to.Some? && req.to.value != []
    ensures var d := DispatchOn(toResults, ccResults, req, a, procesoId, emailFrom, outcome);
      && (d.sent.Some? <==>
           InvalidOf(toResults) == [] && (CcGiven(req.cc) ==> InvalidOf(ccResults) == []) && outcome == Delivered
           && a.fechaCreacion.Some? && a.tipError.Some? && Addressed(req))
      && (d.result == Success(true) <==> d.sent.Some?)
      && (d.sent.Some? ==>
           && d.sent.value == Outgoing(req, a, emailFrom)
           && d.events == [Event(PROCESO_OK, procesoId, MSG_SENT + ShowNumber(a.idAlerta))])
  {
    if InvalidOf(toResults) == [] && !(CcGiven(req.cc) && InvalidOf(ccResults) != []) && outcome != MessagingFault {
      RenderSends(ParseEmailAddresses(req.to), CcList(req.cc), req, a, procesoId, emailFrom, outcome);
    }
  }

  /** The steps after the recipients are set send exactly when nothing fails and some recipient is named. */
  lemma RenderSends(to: seq<string>, cc: seq<string>, req: RequestSendEmail, a: AlertaRow, procesoId: JString,
    emailFrom: string, outcome: MailOutcome)
    requires outcome != MessagingFault
    ensures var d := Render(to, cc, req, a, procesoId, emailFrom, outcome);
      && (d.sent.Some? <==> outcome == Delivered && a.fechaCreacion.Some? && a.tipError.Some? && (to != [] || cc != []))
      && (d.result == Success(true) <==> d.sent.Some?)
      && (d.sent.Some? ==>
           && d.sent.value == Filled(to, cc, req, a, emailFrom)
           && d.events == [Event(PROCESO_OK, procesoId, MSG_SENT + ShowNumber(a.idAlerta))])
  {
  }

  /**
   * A message is sent exactly when both lists validate, the libraries do not fail, the
   * alert's `fechaCreacion` and `tipError` are set and the message names some recipient;
   * the call then returns true, hands the
   * sender the filled message and records one `PROCESO_OK` event naming the alert.
   */
  lemma SentExactlyWhenAllGoesWell(req: RequestSendEmail, a: AlertaRow, procesoId: JString, emailFrom: string, outcome: MailOutcome)
    ensures var d := Dispatch(req, a, procesoId, emailFrom, outcome);
      && (d.sent.Some? <==>
           AllValid(req.to) && (CcGiven(req.cc) ==> AllValid(req.cc)) && outcome == Delivered
           && a.fechaCreacion.Some? && a.tipError.Some? && Addressed(req))
      && (d.result == Success(true) <==> d.sent.Some?)
      && (d.sent.Some? ==>
           && d.sent.value == Outgoing(req, a, emailFrom)
           && d.events == [TraceEvent(LevelSuccess, "PROCESO_OK", procesoId, MSG_SENT + ShowNumber(a.idAlerta))])
  {
    ValidToIsGiven(req.to);
    SentOn(Validations(req.to), Validations(req.cc), req, a, procesoId, emailFrom, outcome);
  }

  /**
   * The filled message of a validated request: every TO token, trimmed and in order, each
   * in the address pattern's language; the CC addresses when CC was given; the configured
   * sender as "Soporte"; the subject `asunto - tipoError`; the template chosen by
   * `tipError` over the alert's context, as HTML.
   */
  lemma OutgoingMessage(req: RequestSendEmail, a: AlertaRow, emailFrom: string)
    requires AllValid(req.to)
    requires a.fechaCreacion.Some? && a.tipError.Some?
    ensures var m := Outgoing(req, a, emailFrom);
      && req.to.Some?
      && |m.to| == |Split(req.to.value, SEPARATORS)|
      && (forall i :: 0 <= i < |m.to| ==>
            m.to[i] == Trim(Split(req.to.value, SEPARATORS)[i]) && MatchesEmailPattern(m.to[i]))
      && m.to == ValidEmails(Validations(req.to))
      && m.cc == (if CcGiven(req.cc) then ValidEmails(Validations(req.cc)) else [])
      && m.from == emailFrom && m.personal == SENDER_NAME
      && m.subject == Show(req.asunto) + " - " + Show(req.tipoError)
      && m.text == Some(Processed(if a.tipError.value == [] then "success-email" else "alerta-email", CrearContextoPlantilla(a).value))
      && m.isHtml
  {
    AllValidMeansEveryResult(req.to);
    AllValidListIsKept(req.to);
    ParsedAreTheValidOnes(req.to);
    ParsedAreTheValidOnes(req.cc);
    var tokens := Split(req.to.value, SEPARATORS);
    KeptAddressesMatch(tokens);
    var m := Outgoing(req, a, emailFrom);
    forall i | 0 <= i < |m.to| ensures MatchesEmailPattern(m.to[i]) {
      assert m.to[i] in KeepValid(tokens);
    }
  }

  lemma MessagingFaultOn(toResults: seq<EmailValidationResult>, ccResults: seq<EmailValidationResult>,
    req: RequestSendEmail, a: AlertaRow, procesoId: JString, emailFrom: string)
    requires InvalidOf(toResults) == [] && (CcGiven(req.cc) ==> InvalidOf(ccResults) == [])
    requires req.to.Some? && req.to.value != []
    ensures DispatchOn(toResults, ccResults, req, a, procesoId, emailFrom, MessagingFault) ==
      DispatchEffect(Success(false), None, [Event(PROCESO_ERROR, procesoId, MSG_PROCESS_ERROR + ShowNumber(a.idAlerta))])
  {
  }

  /**
   * A `MessagingException` after validation is absorbed: the call returns false, sends
   * nothing and records one `PROCESO_ERROR` event naming the alert.
   */
  lemma MessagingFaultReturnsFalse(req: RequestSendEmail, a: AlertaRow, procesoId: JString, emailFrom: string)
    requires AllValid(req.to) && (CcGiven(req.cc) ==> AllValid(req.cc))
    ensures Dispatch(req, a, procesoId, emailFrom, MessagingFault) ==
      DispatchEffect(Success(false), None, [TraceEvent(LevelSuccess, "PROCESO_ERROR", procesoId, MSG_PROCESS_ERROR + ShowNumber(a.idAlerta))])
  {
    ValidToIsGiven(req.to);
    MessagingFaultOn(Validations(req.to), Validations(req.cc), req, a, procesoId, emailFrom);
  }

  /**
   * A TO that passes validation leaves the message without a TO recipient only when it
   * has no token at all; then it is a recipient-less message unless a CC is given.
   */
  lemma ValidToUnaddressedOnlyWithoutTokens(req: RequestSendEmail)
    requires AllValid(req.to)
    ensures req.to.Some?
    ensures ParseEmailAddresses(req.to) == [] <==> Split(req.to.value, SEPARATORS) == []
    ensures !Addressed(req) <==> Split(req.to.value, SEPARATORS) == [] && CcList(req.cc) == []
  {
    AllValidMeansEveryResult(req.to);
    AllValidListIsKept(req.to);
  }

  /**
   * A TO made only of a separator (`","` or `";"`) validates, for it has no token at all;
   * `setTo` gets an empty list, so without a CC the transport refuses the message: the
   * runtime failure of `send` escapes, nothing is sent and nothing is traced.
   */
  lemma SeparatorOnlyToIsRefused(sep: char, req: RequestSendEmail, a: AlertaRow, procesoId: JString, emailFrom: string,
    outcome: MailOutcome)
    requires sep in SEPARATORS && req.to == Some([sep]) && !CcGiven(req.cc)
    requires a.fechaCreacion.Some? && a.tipError.Some?
    requires outcome == Delivered || outcome == TransportFault
    ensures AllValid(req.to)
    ensures var d := Dispatch(req, a, procesoId, emailFrom, outcome);
      d.result == Failure(MailFailure) && d.sent.None? && d.events == []
  {
    OneSeparatorHasNoTokens(sep);
    NoTokensNoResults([sep]);
    SeparatorOnlyRender(req, a, procesoId, emailFrom, outcome);
  }

  lemma SeparatorOnlyRender(req: RequestSendEmail, a: AlertaRow, procesoId: JString, emailFrom: string, outcome: MailOutcome)
    requires a.fechaCreacion.Some? && a.tipError.Some? && outcome != MessagingFault && outcome != EncodingFault
    ensures Render([], [], req, a, procesoId, emailFrom, outcome) == DispatchEffect(Failure(MailFailure), None, [])
  {
  }

  /** A list made of one separator is not blank and splits into no token at all. */
  lemma OneSeparatorHasNoTokens(sep: char)
    requires sep in SEPARATORS
    ensures Trim([sep]) != [] && Split([sep], SEPARATORS) == []
  {
    OneSeparatorTrim(sep);
    OneSeparatorPieces(sep);
    TwoEmptyPiecesDropped();
  }

  /** A non-blank list with no token gives no result and no address. */
  lemma NoTokensNoResults(s: string)
    requires Trim(s) != [] && Split(s, SEPARATORS) == []
    ensures Validations(Some(s)) == [] && ParseEmailAddresses(Some(s)) == []
  {
  }

  lemma OneSeparatorTrim(sep: char)
    requires sep in SEPARATORS
    ensures Trim([sep]) == [sep]
  {
    assert sep == ',' || sep == ';';
  }

  lemma OneSeparatorPieces(sep: char)
    requires sep in SEPARATORS
    ensures Pieces([sep], SEPARATORS) == ["", ""]
  {
    assert [sep][1..] == [];
  }

  lemma TwoEmptyPiecesDropped()
    ensures DropTrailingEmpty(["", ""]) == []
  {
    assert ["", ""][..1] == [""];
    assert [""][..0] == [];
  }

  /** EmailServiceImpl with its collaborators: the mail sender, the trace and the configured sender address. */
  class EmailServiceImpl {
    const javaMailSender: JavaMailSender
    const traceabilityService: TraceLog
    const emailFrom: string

    constructor(javaMailSender: JavaMailSender, traceabilityService: TraceLog, emailFrom: string)
      ensures this.javaMailSender == javaMailSender && this.traceabilityService == traceabilityService
      ensures this.emailFrom == emailFrom
    {
      this.javaMailSender := javaMailSender;
      this.traceabilityService := traceabilityService;
      this.emailFrom := emailFrom;
    }

    /**
     * `enviarAlertaCorreo`: returns or throws what `Dispatch` says, hands the sender
     * exactly the message `Dispatch` says (or none) and appends exactly its events.
     */
    method EnviarAlertaCorreo(req: RequestSendEmail, alerta: Alerta, procesoId: JString, outcome: MailOutcome)
      returns (r: Result<bool, DispatchFault>)
      modifies javaMailSender, traceabilityService
      ensures var d := Dispatch(req, alerta.Row(), procesoId, emailFrom, outcome);
        && r == d.result
        && javaMailSender.outbox == old(javaMailSender.outbox) + SentList(d.sent)
        && traceabilityService.events == old(traceabilityService.events) + d.events
    {
      var helper := new MimeMessageHelper();
      var emailValidationResultList := ParseAndValidateEmailAddresses(req.to);
      var invalidEmails := InvalidOf(emailValidationResultList);
      if invalidEmails != [] {
        var e := NewEmailValidationException(emailValidationResultList);
        return Failure(InvalidAddresses(e));
      }
      r := CheckCcAndSend(helper, emailValidationResultList, req, alerta, procesoId, outcome);
    }

    /**
     * The part of `enviarAlertaCorreo` after a TO list has passed validation: the CC
     * check, then the rest, as `DispatchOn` says for those TO results.
     */
    method CheckCcAndSend(helper: MimeMessageHelper, toResults: seq<EmailValidationResult>, req: RequestSendEmail,
      alerta: Alerta, procesoId: JString, outcome: MailOutcome)
      returns (r: Result<bool, DispatchFault>)
      requires InvalidOf(toResults) == [] && helper.message == EMPTY_MESSAGE
      modifies helper, javaMailSender, traceabilityService
      ensures var d := DispatchOn(toResults, Validations(req.cc), req, alerta.Row(), procesoId, emailFrom, outcome);
        && r == d.result
        && javaMailSender.outbox == old(javaMailSender.outbox) + SentList(d.sent)
        && traceabilityService.events == old(traceabilityService.events) + d.events
    {
      if req.cc.Some? && req.cc.value != [] {
        var ccValidationResultList := ParseAndValidateEmailAddresses(req.cc);
        var invalidCcEmails := InvalidOf(ccValidationResultList);
        if invalidCcEmails != [] {
          return Failure(InvalidAddresses(WithMessage(MSG_INVALID_CC, ccValidationResultList)));
        }
      }
      r := FillAndSend(helper, req, alerta, procesoId, outcome);
    }

    /**
     * The rest of the `try` block of `enviarAlertaCorreo`, once both lists have passed
     * validation: it fills the fresh helper, renders the template and sends, as `Deliver` says.
     */
    method FillAndSend(helper: MimeMessageHelper, req: RequestSendEmail, alerta: Alerta, procesoId: JString, outcome: MailOutcome)
      returns (r: Result<bool, DispatchFault>)
      requires helper.message == EMPTY_MESSAGE
      modifies helper, javaMailSender, traceabilityService
      ensures var d := Deliver(req, alerta.Row(), procesoId, emailFrom, outcome);
        && r == d.result
        && javaMailSender.outbox == old(javaMailSender.outbox) + SentList(d.sent)
        && traceabilityService.events == old(traceabilityService.events) + d.events
    {
      var to;
      if req.to.Some? && req.to.value != [] {
        if outcome == MessagingFault {
          // the catch of MessagingException
          traceabilityService.LogSuccess(EventName(PROCESO_ERROR), procesoId, MSG_PROCESS_ERROR + ShowNumber(alerta.idAlerta));
          return Success(false);
        }
        to := ParseEmailAddresses(req.to);
        helper.SetTo(to);
      } else {
        // never taken after validation (see WarningBranchIsDead)
        traceabilityService.LogSuccess(EventName(PROCESO_WARN), procesoId, MSG_NO_TO + ShowNumber(alerta.idAlerta));
        return Success(false);
      }
      var cc := [];
      if req.cc.Some? && req.cc.value != [] {
        cc := ParseEmailAddresses(req.cc);
        helper.SetCc(cc);
      }
      r := RenderAndSend(helper, to, cc, req, alerta, procesoId, outcome);
    }

    /**
     * The steps of `enviarAlertaCorreo` after the recipients are set: the sender, the
     * subject, the rendered template and the send, as `Deliver` says for a given TO list.
     */
    method RenderAndSend(helper: MimeMessageHelper, to: seq<string>, cc: seq<string>, req: RequestSendEmail,
      alerta: Alerta, procesoId: JString, outcome: MailOutcome)
      returns (r: Result<bool, DispatchFault>)
      requires outcome != MessagingFault
      requires helper.message == EMPTY_MESSAGE.(to := to, cc := cc)
      modifies helper, javaMailSender, traceabilityService
      ensures var d := Render(to, cc, req, alerta.Row(), procesoId, emailFrom, outcome);
        && r == d.result
        && javaMailSender.outbox == old(javaMailSender.outbox) + SentList(d.sent)
        && traceabilityService.events == old(traceabilityService.events) + d.events
    {
      if outcome == EncodingFault {
        return Failure(UnsupportedEncoding);
      }
      helper.SetFrom(emailFrom, SENDER_NAME);
      helper.SetSubject(Show(req.asunto) + SUBJECT_SEPARATOR + Show(req.tipoError));
      var context := CrearContextoPlantilla(alerta.Row());
      if context.None? || alerta.tipError.None? {
        return Failure(NullReference);
      }
      var contenidoHtml;
      if alerta.tipError.value == [] {
        contenidoHtml := Processed(TEMPLATE_SUCCESS, context.value);
      } else {
        contenidoHtml := Processed(TEMPLATE_ALERT, context.value);
      }
      helper.SetText(contenidoHtml, true);
      var accepted := javaMailSender.Send(helper.message, outcome == TransportFault);
      if !accepted {
        return Failure(MailFailure);
      }
      traceabilityService.LogSuccess(EventName(PROCESO_OK), procesoId, MSG_SENT + ShowNumber(alerta.idAlerta));
      return Success(true);
    }
  }
}
