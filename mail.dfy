/**
 * The parts of the mail and template libraries the dispatcher drives: a message
 * helper filled field by field, a sender with an outbox, and a template engine
 * whose rendering stays symbolic.
 */
module Mail {
  import opened Wrappers
  import opened JavaStrings

  /** The Thymeleaf context variables the dispatcher sets. */
  datatype TemplateContext = TemplateContext(
    nombreArchivo: JString,
    tipoError: JString,
    fecha: string,
    camaraAfectada: JString,
    trama: string,
    alertaId: Option<nat>)

  /** `templateEngine.process(name, context)`: the rendered page, identified by what it was rendered from. */
  datatype Html = Processed(templateName: string, context: TemplateContext)

  /** The outbound message as far as the helper fills it. */
  datatype MimeMessage = MimeMessage(
    to: seq<string>,
    cc: seq<string>,
    from: string,
    personal: string,
    subject: string,
    text: Option<Html>,
    isHtml: bool)

  const EMPTY_MESSAGE := MimeMessage([], [], "", "", "", None, false)

  /**
   * How the libraries behave for this message: everything works; a `MessagingException`
   * while the helper is filled; an `UnsupportedEncodingException` from `setFrom`; or a
   * runtime failure of `send` (a transport fault; a message without recipients is refused
   * whatever the outcome).
   */
  datatype MailOutcome = Delivered | MessagingFault | EncodingFault | TransportFault

  /** MimeMessageHelper over a fresh multipart message. */
  class MimeMessageHelper {
    var message: MimeMessage

    constructor()
      ensures message == EMPTY_MESSAGE
    {
      message := EMPTY_MESSAGE;
    }

    method SetTo(to: seq<string>)
      modifies this
      ensures message == old(message).(to := to)
    {
      message := message.(to := to);
    }

    method SetCc(cc: seq<string>)
      modifies this
      ensures message == old(message).(cc := cc)
    {
      message := message.(cc := cc);
    }

    method SetFrom(from: string, personal: string)
      modifies this
      ensures message == old(message).(from := from, personal := personal)
    {
      message := message.(from := from, personal := personal);
    }

    method SetSubject(subject: string)
      modifies this
      ensures message == old(message).(subject := subject)
    {
      message := message.(subject := subject);
    }

    method SetText(text: Html, isHtml: bool)
      modifies this
      ensures message == old(message).(text := Some(text), isHtml := isHtml)
    {
      message := message.(text := Some(text), isHtml := isHtml);
    }
  }

  /** The message names some recipient, in TO or in CC. */
  predicate HasRecipient(m: MimeMessage) {
    m.to != [] || m.cc != []
  }

  /** JavaMailSender: every message the transport accepts lands in the outbox, in order. */
  class JavaMailSender {
    var outbox: seq<MimeMessage>

    constructor()
      ensures outbox == []
    {
      outbox := [];
    }

    /**
     * `send`: the SMTP transport refuses a message without any recipient ("No recipient
     * addresses", rethrown as the runtime `MailSendException`), and `transportFault` is a
     * failure of the transport itself. An accepted message is appended to the outbox.
     */
    method Send(m: MimeMessage, transportFault: bool) returns (accepted: bool)
      modifies this
      ensures accepted <==> !transportFault && HasRecipient(m)
      ensures outbox == old(outbox) + (if accepted then [m] else [])
    {
      accepted := !transportFault && HasRecipient(m);
      if accepted {
        outbox := outbox + [m];
      }
    }
  }
}
