# Alert notification pipeline (mom-ms-correo), modelled in Dafny

The service receives an alert about a failed file (`RequestSendEmail`), stores it as an
`Alerta` row, mails it to the TO/CC lists of the request and records the outcome in the
row and in a traceability log. This project models that core and proves what it does:

- **Address validation** (`EmailUtils`). `validateEmail` runs its first-failure-wins guards
  on the trimmed address and ends with the regular expression of `EmailUtils.java:172`. The
  regex is modelled as its language, read off the pattern: some `@` and some later `.` cut
  the text into a local part, a host part and a top-level domain. `parseAndValidateEmailAddresses`
  splits a list on `,`/`;` the way Java's `String.split` does (trailing empty tokens dropped)
  and validates each token in a loop. `parseEmailAddresses` keeps only the valid addresses.
- **Validation fault** (`EmailValidationException`). It keeps the whole result list and
  derives the invalid entries, their messages and, for the one-argument constructor, a
  message built for zero, one or many invalid entries by a `StringBuilder` loop.
- **Dispatcher** (`EmailServiceImpl.enviarAlertaCorreo`, `crearContextoPlantilla`,
  `formatearXml`). The TO and CC lists are validated first. Then a message helper is filled
  field by field, the template is chosen by `tipError`, the mail is sent and the result is
  traced. The mail and template libraries are stand-ins. `MailOutcome` says which library
  call fails, and `Processed(template, context)` is the rendered page.
- **Orchestrator** (`AlertaService.procesarAlerta`, `crearAlerta`, `enviarCorreoAlerta`).
  The alert is created `PENDIENTE`, saved (an id is assigned), dispatched, set to `ENVIADA`
  (with `fechaEnvio`) or `ERROR_ENVIO`, and saved again. Faults take the three routes of
  the code: a validation fault is rethrown, other dispatch faults become `false`, and
  anything else becomes an internal error.

The stateful parts are classes:
- `Alerta`, the entity, whose fields the services assign;
- `AlertaRepository`, an id-keyed map of row snapshots with a next-id counter;
- `TraceLog`, an append-only event sequence shared by both services;
- `MimeMessageHelper` and `JavaMailSender`, with an outbox.

Every method is proved against a function of its inputs and the old state: `Validations`,
`DetailedMessage`, `Dispatch`/`Deliver` and `Process`/`AfterSave`. The lemmas state the
properties about those functions.

What the code does and the model keeps as written:
- `formatearXml` replaces `<`, then `>`, then `&`. The `&` of the entities it has just
  inserted is therefore escaped again: `<` becomes `&amp;lt;`, exactly as the text `&lt;`
  does (`FormatearXmlConfusesEntities`).
- A TO list made of one separator (`","` or `";"`) splits into no token at all. It
  passes validation with zero results, and `setTo` receives an empty list. Without a CC
  the transport refuses the message for having no recipient; that runtime failure is
  absorbed into `false`, so the alert ends `ERROR_ENVIO` (`SeparatorOnlyToIsRefused`,
  `SeparatorOnlyToEndsInErrorEnvio`).
- A CC that is non-empty but blank is validated and rejected with the CC exception, because
  the CC test uses `isEmpty` and not `trim` (`BlankCcStops`).
- The `PROCESO_WARN` branch for a missing TO can never run: an empty TO is already rejected
  by validation (`WarningBranchIsDead`).
- A null `tipoError` makes `enviarAlertaCorreo` throw a `NullPointerException` at
  `EmailServiceImpl.java:91`. `enviarCorreoAlerta` absorbs it into `false`, so the alert
  ends `ERROR_ENVIO` (`MissingTipoErrorEndsInErrorEnvio`).
- The trace texts of `procesarAlerta` keep the literal `{}` before the id, e.g.
  `"Alerta guardada en BD con ID: {}7"`.
- A failing second save reports the internal error after the mail has already gone out.
  In the model, which does not roll the first save back (see "Left out"), the row stays
  `PENDIENTE` (`SecondSaveFaultAfterSending`).

`Alerta.java` declares no `fechaEnvio`, although `AlertaService.java:45` sets it. The model
gives the entity an optional `fechaEnvio` field.

Files: `wrappers.dfy` (Option, Result), `java_strings.dfy` (Java's `trim`, `split`,
`replace`, `%d`), `timestamps.dfy` (`dd/MM/yyyy HH:mm:ss`), `entities.dfy`,
`repository.dfy`, `traceability.dfy`, `mail.dfy`, `email_utils.dfy`,
`validation_exception.dfy`, `email_service.dfy`, `alerta_service.dfy`.

## Model

Source paths are under `src/main/java/pe/gob/bcrp/`.

| member | source | states |
|---|---|---|
| JavaStrings.Trim | src/main/java/pe/gob/bcrp/util/EmailUtils.java:97-101 | `trim` never lengthens a string and leaves one with no blank end unchanged |
| JavaStrings.TrimFacts | src/main/java/pe/gob/bcrp/util/EmailUtils.java:97-101 | a trimmed string starts and ends with a char above U+0020, and is empty exactly when every char of the input is at most U+0020 |
| JavaStrings.TrimStartFacts | src/main/java/pe/gob/bcrp/util/EmailUtils.java:97-101 | `trim` drops exactly the leading chars up to U+0020 and stops at the first char above it |
| JavaStrings.TrimEndFacts | src/main/java/pe/gob/bcrp/util/EmailUtils.java:97-101 | it drops exactly the trailing chars up to U+0020 and stops at the last char above it |
| JavaStrings.TrimEmptyIffBlank | src/main/java/pe/gob/bcrp/util/EmailUtils.java:97 | `trim()` is empty exactly for a blank string (both directions) |
| JavaStrings.TrimIdempotent | src/main/java/pe/gob/bcrp/util/EmailUtils.java:62-68 | trimming an already trimmed token again changes nothing, which is why `validateEmail` may trim twice |
| JavaStrings.CountInZero | src/main/java/pe/gob/bcrp/util/EmailUtils.java:125 | the count of chars in a set is zero exactly when no char of the string is in it |
| JavaStrings.CountInAppend | src/main/java/pe/gob/bcrp/util/EmailUtils.java:125 | counting `@` adds up over a concatenation |
| JavaStrings.CountOfOneZero | src/main/java/pe/gob/bcrp/util/EmailUtils.java:104-108 | no `@` is counted exactly when the text holds no `@` (the count test and the `contains` test agree) |
| JavaStrings.DropTrailingEmptyFacts | src/main/java/pe/gob/bcrp/util/EmailUtils.java:59 | dropping trailing empty tokens keeps a prefix, ends in a non-empty token (or is empty) and drops only empty tokens |
| JavaStrings.Split | src/main/java/pe/gob/bcrp/util/EmailUtils.java:59 | a text without separators splits into itself alone; never more tokens than separators plus one |
| JavaStrings.PiecesAroundDelimiter | src/main/java/pe/gob/bcrp/util/EmailUtils.java:59 | a separator splits the text into the pieces before it followed by the pieces after it |
| JavaStrings.Pieces | src/main/java/pe/gob/bcrp/util/EmailUtils.java:59 | before trailing empties are dropped, a regex split yields one more piece than there are separators |
| JavaStrings.PiecesOfUndelimited | src/main/java/pe/gob/bcrp/util/EmailUtils.java:59 | a text without separators is one piece, itself |
| JavaStrings.PiecesDelimiterFree | src/main/java/pe/gob/bcrp/util/EmailUtils.java:59 | no piece holds a separator |
| JavaStrings.SplitDelimiterFree | src/main/java/pe/gob/bcrp/util/EmailUtils.java:59 | no token of `split("[,;]")` contains a separator |
| JavaStrings.SplitAtSingleDelimiter | src/main/java/pe/gob/bcrp/util/EmailUtils.java:133 | with exactly one `@`, at neither end, `split("@")` gives the text before and the text after it |
| JavaStrings.ReplaceFacts | src/main/java/pe/gob/bcrp/service/impl/EmailServiceImpl.java:138-140 | after replacing `c` by a text without `c` no `c` is left; any other char not in the replacement is in the result iff it is in the input |
| JavaStrings.ReplaceOfChar | src/main/java/pe/gob/bcrp/service/impl/EmailServiceImpl.java:138-140 | a one-char string becomes the replacement if it is the char, else stays |
| JavaStrings.ReplaceAbsent | src/main/java/pe/gob/bcrp/service/impl/EmailServiceImpl.java:138-140 | `replace` of an absent char is the identity |
| JavaStrings.ReplaceAppend | src/main/java/pe/gob/bcrp/service/impl/EmailServiceImpl.java:138-140 | `replace` distributes over concatenation |
| JavaStrings.NatToString | src/main/java/pe/gob/bcrp/service/impl/EmailServiceImpl.java:75 | `%d` prints a non-empty run of digits without a leading zero |
| JavaStrings.NatToStringRoundTrip | src/main/java/pe/gob/bcrp/service/impl/EmailServiceImpl.java:75 | reading the printed id back gives the id |
| Timestamps.FormatDateTime | src/main/java/pe/gob/bcrp/service/impl/EmailServiceImpl.java:117-121 | `dd/MM/yyyy HH:mm:ss` always renders 19 chars |
| Timestamps.DigitsValue | src/main/java/pe/gob/bcrp/service/impl/EmailServiceImpl.java:117 | a zero-padded field reads back as its value when it fits in the width |
| Timestamps.FormatDateTimeFields | src/main/java/pe/gob/bcrp/service/impl/EmailServiceImpl.java:117-121 | `dd/MM/yyyy HH:mm:ss` renders 19 chars with separators at fixed places, and each field reads back from its own positions |
| Timestamps.FormatDateFields | src/main/java/pe/gob/bcrp/service/impl/EmailServiceImpl.java:117-121 | `dd/MM/yyyy` renders 10 chars with `/` at 2 and 5, and day, month and year read back |
| Timestamps.FormatTimeFields | src/main/java/pe/gob/bcrp/service/impl/EmailServiceImpl.java:117-121 | `HH:mm:ss` renders 8 chars with `:` at 2 and 5, and hour, minute and second read back |
| Timestamps.FormatDateTimeInjective | src/main/java/pe/gob/bcrp/service/impl/EmailServiceImpl.java:117-121 | two date-times with the same rendering are equal |
| EmailUtils.ValidateEmail | src/main/java/pe/gob/bcrp/util/EmailUtils.java:96-101 | null or blank input is invalid with "Email vacío o nulo" and keeps the input; otherwise the result carries the trimmed address, and a valid result carries "Email válido" |
| EmailUtils.ValidateTrimmed | src/main/java/pe/gob/bcrp/util/EmailUtils.java:101-181 | the result carries the address it checked, and a valid one the message "Email válido" |
| EmailUtils.MissingAtIsReported | src/main/java/pe/gob/bcrp/util/EmailUtils.java:104-108 | a non-blank address without `@` is invalid with "Email sin símbolo '@'" |
| EmailUtils.SeveralAtsAreReported | src/main/java/pe/gob/bcrp/util/EmailUtils.java:110-130 | two or more `@`, neither first nor last, give "Email con múltiples '@' o sin '@'" |
| EmailUtils.WrongAtCountIsReported | src/main/java/pe/gob/bcrp/util/EmailUtils.java:103-130 | any `@` count other than one is rejected by one of the four `@` guards |
| EmailUtils.SplitOfSingleAt | src/main/java/pe/gob/bcrp/util/EmailUtils.java:133-141 | once the `@` guards pass, the split at `@` has exactly two non-empty parts |
| EmailUtils.StructureGuardsNeverFire | src/main/java/pe/gob/bcrp/util/EmailUtils.java:133-155 | the structure, missing-local-part and missing-domain messages are never produced |
| EmailUtils.TrimmedStructureGuards | src/main/java/pe/gob/bcrp/util/EmailUtils.java:133-155 | the same for the trimmed address: only the `@`, dot and pattern guards can reject it |
| EmailUtils.SingleAtOfAddress | src/main/java/pe/gob/bcrp/util/EmailUtils.java:172 | a text in the pattern's language has exactly one `@`, the one between the local part and the domain |
| EmailUtils.AllLocalCharsAt | src/main/java/pe/gob/bcrp/util/EmailUtils.java:172 | the inner local-part class `[a-zA-Z0-9._%-]` of `[a-zA-Z0-9]([a-zA-Z0-9._%-]*[a-zA-Z0-9])?` holds of a text iff it holds of each of its chars |
| EmailUtils.AllHostCharsAt | src/main/java/pe/gob/bcrp/util/EmailUtils.java:172 | the same for the inner host class `[a-zA-Z0-9.-]` of `[a-zA-Z0-9]([a-zA-Z0-9.-]*[a-zA-Z0-9])?` |
| EmailUtils.AllLettersAt | src/main/java/pe/gob/bcrp/util/EmailUtils.java:172 | the same for the top-level-domain class `[a-zA-Z]` |
| EmailUtils.MatchesEmailPattern | src/main/java/pe/gob/bcrp/util/EmailUtils.java:172 | a text matching the pattern has at least six chars, the length of `a@b.cd` |
| EmailUtils.AddressEnds | src/main/java/pe/gob/bcrp/util/EmailUtils.java:172 | a text in the pattern's language neither starts nor ends with `@`, and its domain holds a dot but does not end with one |
| EmailUtils.PartsGuardAccepts | src/main/java/pe/gob/bcrp/util/EmailUtils.java:143-169 | a non-empty local part and a domain with a dot, not last, pass the four part guards |
| EmailUtils.PatternImpliesGuards | src/main/java/pe/gob/bcrp/util/EmailUtils.java:103-173 | every guard before the regex is implied by the regex |
| EmailUtils.ValidIffMatchesPattern | src/main/java/pe/gob/bcrp/util/EmailUtils.java:96-181 | `validateEmail` accepts exactly the non-null inputs whose trimmed text matches the pattern |
| EmailUtils.TrimmedValidIffPattern | src/main/java/pe/gob/bcrp/util/EmailUtils.java:101-181 | the guard chain accepts a non-empty trimmed address iff it matches the pattern |
| EmailUtils.TokenResults | src/main/java/pe/gob/bcrp/util/EmailUtils.java:61-70 | one result per token, in order, the i-th being the result for token i |
| EmailUtils.TokenResultsSnoc | src/main/java/pe/gob/bcrp/util/EmailUtils.java:61-70 | one more token appends its result at the end |
| EmailUtils.ParseAndValidateEmailAddresses | src/main/java/pe/gob/bcrp/util/EmailUtils.java:50-73 | the loop builds exactly `Validations(emails)` |
| EmailUtils.BlankListGivesOneResult | src/main/java/pe/gob/bcrp/util/EmailUtils.java:53-56 | null or blank input yields exactly one result: email "", invalid, "No se proporcionaron emails" |
| EmailUtils.ValidationsPerToken | src/main/java/pe/gob/bcrp/util/EmailUtils.java:59-70 | otherwise one result per split token, in order, carrying the trimmed token; it is valid iff the token matches the pattern; a token blank after trimming gives "Email vacío" |
| EmailUtils.KeepValid | src/main/java/pe/gob/bcrp/util/EmailUtils.java:85-88 | the trim-and-filter stream keeps no more addresses than there are tokens |
| EmailUtils.ParseEmailAddresses | src/main/java/pe/gob/bcrp/util/EmailUtils.java:80-89 | a null or blank list gives no address; otherwise no more addresses than separators plus one |
| EmailUtils.KeepValidIsValidView | src/main/java/pe/gob/bcrp/util/EmailUtils.java:85-88 | the stream filter keeps the addresses of exactly the valid results, in order |
| EmailUtils.ParsedAreTheValidOnes | src/main/java/pe/gob/bcrp/util/EmailUtils.java:80-89 | `parseEmailAddresses(s)` is the list of emails of the valid results of `parseAndValidateEmailAddresses(s)`, in order (empty for null or blank input) |
| EmailUtils.KeptAddressesMatch | src/main/java/pe/gob/bcrp/util/EmailUtils.java:85-88 | every kept address matches the pattern, and there are no more of them than tokens |
| EmailUtils.ValidEmailsOfAllValid | src/main/java/pe/gob/bcrp/util/EmailUtils.java:85-88 | when every result is valid, every address is kept, in order |
| EmailUtils.ValidListIsGiven | src/main/java/pe/gob/bcrp/util/EmailUtils.java:53-56 | a list whose results are all valid is neither null nor blank |
| EmailUtils.AllValidListIsKept | src/main/java/pe/gob/bcrp/util/EmailUtils.java:50-89 | for such a list, `parseEmailAddresses` returns every trimmed token, in order |
| ValidationException.GetInvalidEmails | src/main/java/pe/gob/bcrp/exception/EmailValidationException.java:31-35 | `getInvalidEmails` returns exactly the stored results that are not valid, and no more entries than are stored |
| ValidationException.InvalidOf | src/main/java/pe/gob/bcrp/exception/EmailValidationException.java:31-35 | the filter returns no more entries than it is given |
| ValidationException.InvalidOfMembers | src/main/java/pe/gob/bcrp/exception/EmailValidationException.java:31-35 | the invalid entries are exactly the entries of the list that are not valid |
| ValidationException.InvalidOfAppend | src/main/java/pe/gob/bcrp/exception/EmailValidationException.java:31-35 | filtering keeps the order: the filter of a concatenation is the concatenation of the filters |
| ValidationException.InvalidOfExtremes | src/main/java/pe/gob/bcrp/exception/EmailValidationException.java:31-35 | an all-invalid list is kept whole, and the filter is empty exactly when every entry is valid |
| ValidationException.InvalidOfSingle | src/main/java/pe/gob/bcrp/exception/EmailValidationException.java:50-59 | a list with one invalid entry filters to that entry alone |
| ValidationException.MessagesOf | src/main/java/pe/gob/bcrp/exception/EmailValidationException.java:41-43 | one message per entry, the i-th the message of entry i |
| ValidationException.GetErrorMessages | src/main/java/pe/gob/bcrp/exception/EmailValidationException.java:40-44 | as many messages as invalid entries, the i-th the message of invalid entry i |
| ValidationException.JoinEntriesSnoc | src/main/java/pe/gob/bcrp/exception/EmailValidationException.java:64-68 | an entry after others is preceded by `", "` |
| ValidationException.JoinEntriesCons | src/main/java/pe/gob/bcrp/exception/EmailValidationException.java:64-68 | the join is the first entry, `", "` and the join of the rest |
| ValidationException.JoinPrefixStep | src/main/java/pe/gob/bcrp/exception/EmailValidationException.java:64-68 | each loop step appends `", "` (except at index 0) and the entry `'<email>' (<message>)` |
| ValidationException.JoinFirstEntry | src/main/java/pe/gob/bcrp/exception/EmailValidationException.java:63-70 | two or more entries join as the first, `", "`, and the rest |
| ValidationException.BuildMessage | src/main/java/pe/gob/bcrp/exception/EmailValidationException.java:49-71 | the method returns exactly `DetailedMessage` of the list |
| ValidationException.AppendEntries | src/main/java/pe/gob/bcrp/exception/EmailValidationException.java:63-70 | the builder loop yields the prefix followed by the joined entries |
| ValidationException.NoInvalidMessage | src/main/java/pe/gob/bcrp/exception/EmailValidationException.java:54-56 | with no invalid entry the message is "Error de validación de emails" |
| ValidationException.SingleInvalidMessage | src/main/java/pe/gob/bcrp/exception/EmailValidationException.java:58-61 | with exactly one invalid entry the message is `Email inválido '<email>': <message>` |
| ValidationException.ManyInvalidMessage | src/main/java/pe/gob/bcrp/exception/EmailValidationException.java:63-70 | with two or more, the message is "Se encontraron emails inválidos: ", the first entry, then `", "` and the other entries in order |
| ValidationException.WithMessage | src/main/java/pe/gob/bcrp/exception/EmailValidationException.java:14-17 | the two-argument form keeps the caller's message verbatim and the whole list |
| ValidationException.FromResults | src/main/java/pe/gob/bcrp/exception/EmailValidationException.java:19-22 | the one-argument form stores the whole list, valid entries included |
| ValidationException.NewEmailValidationException | src/main/java/pe/gob/bcrp/exception/EmailValidationException.java:19-22 | the constructor running `buildMessage` gives the exception `FromResults` describes |
| EmailService.EscapeLessThan | src/main/java/pe/gob/bcrp/service/impl/EmailServiceImpl.java:138-140 | `<` comes out as `&amp;lt;` |
| EmailService.EscapeGreaterThan | src/main/java/pe/gob/bcrp/service/impl/EmailServiceImpl.java:138-140 | `>` comes out as `&amp;gt;` |
| EmailService.EscapeXmlOfChar | src/main/java/pe/gob/bcrp/service/impl/EmailServiceImpl.java:138-140 | each char is escaped as the reference table `EscapedChar` says |
| EmailService.EscapeXmlAppend | src/main/java/pe/gob/bcrp/service/impl/EmailServiceImpl.java:138-140 | the chained replaces distribute over concatenation |
| EmailService.EscapeXmlIsPerChar | src/main/java/pe/gob/bcrp/service/impl/EmailServiceImpl.java:138-140 | the three chained replaces equal the independent char-by-char escaping |
| EmailService.EscapeXml | src/main/java/pe/gob/bcrp/service/impl/EmailServiceImpl.java:138-140 | the three chained replaces leave no `<` and no `>` |
| EmailService.FormatearXml | src/main/java/pe/gob/bcrp/service/impl/EmailServiceImpl.java:132-141 | the text put into the template holds no `<` and no `>`, for the placeholder as for an escaped payload |
| EmailService.AmpersandsBeginEntitiesAppend | src/main/java/pe/gob/bcrp/service/impl/EmailServiceImpl.java:140 | two texts whose `&` all begin `&amp;` concatenate to one |
| EmailService.AmpersandReplaceBeginsEntities | src/main/java/pe/gob/bcrp/service/impl/EmailServiceImpl.java:140 | after the last replace every `&` begins `&amp;` |
| EmailService.EscapedAmpersandsBeginEntities | src/main/java/pe/gob/bcrp/service/impl/EmailServiceImpl.java:138-140 | every `&` of the escaped payload begins `&amp;` |
| EmailService.DecodeAmpUndoesReplace | src/main/java/pe/gob/bcrp/service/impl/EmailServiceImpl.java:140 | decoding `&amp;` inverts the last replace |
| EmailService.DecodedPayloadShowsEntities | src/main/java/pe/gob/bcrp/service/impl/EmailServiceImpl.java:138-140 | a reader decoding `&amp;` once sees `&lt;`/`&gt;` entities, not the original angles |
| EmailService.FormatearXmlFacts | src/main/java/pe/gob/bcrp/service/impl/EmailServiceImpl.java:132-141 | null or blank gives "No disponible"; otherwise the per-char escaping, with no `<` or `>`, and every `&` beginning `&amp;` |
| EmailService.PerCharExample | src/main/java/pe/gob/bcrp/service/impl/EmailServiceImpl.java:138-140 | the reference escaping maps `<a>&b` to `&amp;lt;a&amp;gt;&amp;b` |
| EmailService.PerCharEntityExample | src/main/java/pe/gob/bcrp/service/impl/EmailServiceImpl.java:138-140 | the reference escaping maps `<` and `&lt;` to the same text |
| EmailService.FormatearXmlExample | src/main/java/pe/gob/bcrp/service/impl/EmailServiceImpl.java:132-141 | `formatearXml("<a>&b")` is `&amp;lt;a&amp;gt;&amp;b` |
| EmailService.FormatearXmlConfusesEntities | src/main/java/pe/gob/bcrp/service/impl/EmailServiceImpl.java:138-140 | `<` and the text `&lt;` format identically, as `&amp;lt;` (the double escape) |
| EmailService.CrearContextoPlantilla | src/main/java/pe/gob/bcrp/service/impl/EmailServiceImpl.java:115-127 | a context exists exactly when `fechaCreacion` is set (otherwise `format` throws) |
| EmailService.ContextFields | src/main/java/pe/gob/bcrp/service/impl/EmailServiceImpl.java:115-126 | the context copies file name, error type, camera and id; `trama` is `formatearXml(trama)`; `fecha` is `fechaCreacion` in `dd/MM/yyyy HH:mm:ss`, each field reading back |
| EmailService.TemplateChoice | src/main/java/pe/gob/bcrp/service/impl/EmailServiceImpl.java:91-95 | "success-email" iff `tipError` is empty, "alerta-email" iff it is not |
| EmailService.AllValidMeansEveryResult | src/main/java/pe/gob/bcrp/service/impl/EmailServiceImpl.java:48-52 | the invalid-entry filter is empty exactly when every result is valid |
| EmailService.ValidToIsGiven | src/main/java/pe/gob/bcrp/service/impl/EmailServiceImpl.java:52-70 | a TO list that passes validation is neither null nor empty |
| EmailService.InvalidToStops | src/main/java/pe/gob/bcrp/service/impl/EmailServiceImpl.java:45-54 | an invalid TO entry throws the exception with the full TO list and its built message; nothing is sent or traced |
| EmailService.CcIgnoredWhenNotGivenOn | src/main/java/pe/gob/bcrp/service/impl/EmailServiceImpl.java:57-82 | with a null or empty CC, the CC results play no part |
| EmailService.CcIgnoredWhenNotGiven | src/main/java/pe/gob/bcrp/service/impl/EmailServiceImpl.java:57-82 | a null or empty CC behaves as no CC at all |
| EmailService.InvalidCcStops | src/main/java/pe/gob/bcrp/service/impl/EmailServiceImpl.java:57-66 | a given CC with an invalid entry throws "Emails inválidos en campo CC" with the full CC list; nothing is sent or traced |
| EmailService.BlankCcStops | src/main/java/pe/gob/bcrp/service/impl/EmailServiceImpl.java:57-66 | a non-empty blank CC is rejected with the one "No se proporcionaron emails" result |
| EmailService.NoWarningOn | src/main/java/pe/gob/bcrp/service/impl/EmailServiceImpl.java:70-77 | for any validation results that reject an empty TO, no `PROCESO_WARN` is traced and `false` means a messaging fault |
| EmailService.WarningBranchIsDead | src/main/java/pe/gob/bcrp/service/impl/EmailServiceImpl.java:70-77 | the `PROCESO_WARN`/`return false` branch never runs; `false` comes only from a `MessagingException` |
| EmailService.SentOn | src/main/java/pe/gob/bcrp/service/impl/EmailServiceImpl.java:45-103 | for any validation results, a mail is sent iff both lists pass, the message names some recipient, the libraries work and the alert has date and error type; true iff sent; the sent message and its `PROCESO_OK` event |
| EmailService.SentExactlyWhenAllGoesWell | src/main/java/pe/gob/bcrp/service/impl/EmailServiceImpl.java:40-103 | the same for the actual validation of TO and CC |
| EmailService.OutgoingMessage | src/main/java/pe/gob/bcrp/service/impl/EmailServiceImpl.java:70-96 | recipients are `parseEmailAddresses(to)` (every trimmed token, each matching the pattern), CC when given is `parseEmailAddresses(cc)`, sender "Soporte", subject `asunto + " - " + tipoError`, HTML of the chosen template |
| EmailService.MessagingFaultOn | src/main/java/pe/gob/bcrp/service/impl/EmailServiceImpl.java:105-109 | after validation, a `MessagingException` returns false with one `PROCESO_ERROR` event and sends nothing |
| EmailService.MessagingFaultReturnsFalse | src/main/java/pe/gob/bcrp/service/impl/EmailServiceImpl.java:105-109 | the same for lists that pass validation |
| EmailService.OneSeparatorHasNoTokens | src/main/java/pe/gob/bcrp/util/EmailUtils.java:53-59 | a list made of one separator is not blank, and `split("[,;]")` gives no token at all |
| EmailService.NoTokensNoResults | src/main/java/pe/gob/bcrp/util/EmailUtils.java:50-89 | a non-blank list with no token yields no validation result and no parsed address |
| EmailService.ValidToUnaddressedOnlyWithoutTokens | src/main/java/pe/gob/bcrp/service/impl/EmailServiceImpl.java:45-82 | a TO list that passes validation gives no recipient iff it splits into no token; the message then names nobody iff the CC list is empty too |
| EmailService.SeparatorOnlyToIsRefused | src/main/java/pe/gob/bcrp/service/impl/EmailServiceImpl.java:45-99 | a TO of `","` or `";"` without CC passes validation, but the transport refuses the recipient-less message: a mail failure, nothing sent, nothing traced |
| EmailService.SeparatorOnlyRender | src/main/java/pe/gob/bcrp/service/impl/EmailServiceImpl.java:84-99 | with empty TO and CC lists the send fails with a mail failure and traces nothing |
| EmailService.RenderSends | src/main/java/pe/gob/bcrp/service/impl/EmailServiceImpl.java:84-103 | after the recipients are set: sent iff the libraries work, the alert has date and error type and some recipient is set; true iff sent; the sent message and its one `PROCESO_OK` event |
| EmailService.RenderOnSubject | src/main/java/pe/gob/bcrp/service/impl/EmailServiceImpl.java:84-103 | the steps after the recipients are set read the request only through its subject |
| EmailService.EmailServiceImpl.constructor | src/main/java/pe/gob/bcrp/service/impl/EmailServiceImpl.java:28-35 | the service holds the injected sender, trace and configured sender address |
| EmailService.EmailServiceImpl.EnviarAlertaCorreo | src/main/java/pe/gob/bcrp/service/impl/EmailServiceImpl.java:40-110 | the result, the outbox and the trace are as `Dispatch` says |
| EmailService.EmailServiceImpl.CheckCcAndSend | src/main/java/pe/gob/bcrp/service/impl/EmailServiceImpl.java:57-109 | after a TO list that passed: the CC check, then the rest, as `DispatchOn` says for those TO results |
| EmailService.EmailServiceImpl.FillAndSend | src/main/java/pe/gob/bcrp/service/impl/EmailServiceImpl.java:69-109 | after validation: recipients, then the rest, with the results, outbox and trace of `Deliver` |
| EmailService.EmailServiceImpl.RenderAndSend | src/main/java/pe/gob/bcrp/service/impl/EmailServiceImpl.java:84-103 | for the recipient lists already set: sender, subject, template, send and `PROCESO_OK` trace as `Render` says |
| EmailService.RenderNeverWarns | src/main/java/pe/gob/bcrp/service/impl/EmailServiceImpl.java:84-103 | the steps after the recipients are set never trace a warning and never answer false |
| AlertaService.CreatedRowFields | src/main/java/pe/gob/bcrp/service/impl/AlertaService.java:70-80 | `crearAlerta` copies file name, error type, camera and frame, dates the alert `now`, sets `PENDIENTE` and leaves the other fields unset |
| AlertaService.CreatedRow | src/main/java/pe/gob/bcrp/service/impl/AlertaService.java:70-80 | a created alert is `PENDIENTE`, has no id and no `fechaEnvio`, and is dated `now` |
| AlertaService.CrearAlerta | src/main/java/pe/gob/bcrp/service/impl/AlertaService.java:70-80 | a fresh entity holding that row |
| AlertaService.AbsorbFacts | src/main/java/pe/gob/bcrp/service/impl/AlertaService.java:85-101 | only the validation exception escapes, unchanged; an encoding error and any other fault become false with one `PROCESO_ERROR` error event; an answer passes through; true iff the mail service said true |
| AlertaService.WellFormedOn | src/main/java/pe/gob/bcrp/service/impl/EmailServiceImpl.java:40-110 | for any validation results, a fault traces nothing and sends nothing; an answer traces one event; true iff sent |
| AlertaService.RenderWellFormed | src/main/java/pe/gob/bcrp/service/impl/EmailServiceImpl.java:84-103 | the steps after the recipients are set: a fault traces and sends nothing, success sends one message and traces one `PROCESO_OK` event |
| AlertaService.DispatchWellFormed | src/main/java/pe/gob/bcrp/service/impl/EmailServiceImpl.java:40-110 | the same for the actual validation |
| AlertaService.AfterSaveAnswered | src/main/java/pe/gob/bcrp/service/impl/AlertaService.java:38-64 | after the first save and an answer: `PROCESO_OK` with the id, the dispatcher's event, one outcome event; true gives `ENVIADA` with `fechaEnvio`, false `ERROR_ENVIO` with the rest unchanged; a failing second save leaves the table and reports the internal error |
| AlertaService.AfterSaveRejected | src/main/java/pe/gob/bcrp/service/impl/AlertaService.java:38-60 | a validation exception is traced as `PROCESO_ERROR` with its message and rethrown unchanged; nothing more is stored |
| AlertaService.FirstSaveFaultStops | src/main/java/pe/gob/bcrp/service/impl/AlertaService.java:35-64 | a failing first save: nothing stored or sent, one error event, "Error interno al procesar la alerta" with the cause's message |
| AlertaService.ProcessStoresOutcome | src/main/java/pe/gob/bcrp/service/impl/AlertaService.java:32-56 | on the normal path the row is stored under the new id with the request's fields, `ENVIADA` with `fechaEnvio` iff sent and `ERROR_ENVIO` without it otherwise, with three trace events |
| AlertaService.AcceptedListsPass | src/main/java/pe/gob/bcrp/service/impl/EmailServiceImpl.java:45-67 | lists that pass validation never raise the validation exception |
| AlertaService.RenderNeverRejects | src/main/java/pe/gob/bcrp/service/impl/EmailServiceImpl.java:84-103 | the steps after the recipients are set never raise the validation exception |
| AlertaService.AcceptedListsPassOn | src/main/java/pe/gob/bcrp/service/impl/EmailServiceImpl.java:45-67 | the same for any validation results |
| AlertaService.RejectedListsFail | src/main/java/pe/gob/bcrp/service/impl/EmailServiceImpl.java:45-67 | lists that fail validation always raise it |
| AlertaService.RejectedListsFailOn | src/main/java/pe/gob/bcrp/service/impl/EmailServiceImpl.java:45-67 | the same for any validation results |
| AlertaService.ProcessRejectsAddresses | src/main/java/pe/gob/bcrp/service/impl/AlertaService.java:32-60 | invalid addresses: the row stays stored `PENDIENTE` without `fechaEnvio`, nothing is sent, and the trace is the save event and the validation error |
| AlertaService.SecondSaveFaultAfterSending | src/main/java/pe/gob/bcrp/service/impl/AlertaService.java:41-64 | a failing second save reports the internal error although the mail may have gone out (when both lists pass, the message names some recipient and the libraries work); the stored row stays `PENDIENTE` |
| AlertaService.ProcessSendsExactlyWhen | src/main/java/pe/gob/bcrp/service/impl/AlertaService.java:32-55 | a mail goes out iff the first save works, both lists pass, the message names some recipient, the libraries work and `tipoError` is given; it is the message built from the saved alert |
| AlertaService.MissingTipoErrorEndsInErrorEnvio | src/main/java/pe/gob/bcrp/service/impl/AlertaService.java:41-53 | a null `tipoError` makes the dispatcher throw; it is absorbed as false, the alert ends `ERROR_ENVIO` and nothing is sent |
| AlertaService.SeparatorOnlyToEndsInErrorEnvio | src/main/java/pe/gob/bcrp/service/impl/AlertaService.java:41-53 | a TO of `","` or `";"` without CC is absorbed as false after the refused send: the alert ends `ERROR_ENVIO`, nothing is sent, and the mail-error event is traced |
| AlertaService.ProcessAfterFirstSave | src/main/java/pe/gob/bcrp/service/impl/AlertaService.java:35-64 | after a stored first save the run continues on the saved row, under the next id |
| AlertaService.NullTipoErrorOn | src/main/java/pe/gob/bcrp/service/impl/EmailServiceImpl.java:88-91 | with a null `tipError` the dispatcher fails with a null reference after validation |
| AlertaService.AlertaServiceImpl.constructor | src/main/java/pe/gob/bcrp/service/impl/AlertaService.java:21-27 | the service holds the injected repository, mail service and trace, and starts valid |
| AlertaService.AlertaServiceImpl.EnviarCorreoAlerta | src/main/java/pe/gob/bcrp/service/impl/AlertaService.java:85-101 | result, outbox and trace as `Absorb` of `Dispatch` says |
| AlertaService.AlertaServiceImpl.ProcesarAlerta | src/main/java/pe/gob/bcrp/service/impl/AlertaService.java:32-65 | the result, table, outbox and trace are as `Process` says; the repository stays valid |
| AlertaService.AlertaServiceImpl.RecordDelivery | src/main/java/pe/gob/bcrp/service/impl/AlertaService.java:38-64 | the steps after the first save, as `AfterSave` says |
| AlertaService.AlertaServiceImpl.StoreOutcome | src/main/java/pe/gob/bcrp/service/impl/AlertaService.java:44-64 | the estado and `fechaEnvio` for the answer, the outcome event, and the second save or its fault |
| Entities.Alerta.constructor | src/main/java/pe/gob/bcrp/model/entity/Alerta.java:16-55 | a new entity has every reference unset and estado `PENDIENTE` |
| Repository.AlertaRepository.Save | src/main/java/pe/gob/bcrp/repository/AlertaRepository.java:8 | `save` of a new entity assigns the next id and inserts it; of a stored one overwrites its row; on a fault nothing changes; ids stay keyed |
| Traceability.TraceLog.LogSuccess | src/main/java/pe/gob/bcrp/service/impl/EmailServiceImpl.java:101-102 | appends one success event |
| Traceability.TraceLog.LogError | src/main/java/pe/gob/bcrp/service/impl/AlertaService.java:59 | appends one error event |
| Mail.MimeMessageHelper.SetTo | src/main/java/pe/gob/bcrp/service/impl/EmailServiceImpl.java:72 | sets the recipients only |
| Mail.MimeMessageHelper.SetCc | src/main/java/pe/gob/bcrp/service/impl/EmailServiceImpl.java:81 | sets the CC list only |
| Mail.MimeMessageHelper.SetFrom | src/main/java/pe/gob/bcrp/service/impl/EmailServiceImpl.java:84 | sets the sender and its display name only |
| Mail.MimeMessageHelper.SetSubject | src/main/java/pe/gob/bcrp/service/impl/EmailServiceImpl.java:85 | sets the subject only |
| Mail.MimeMessageHelper.SetText | src/main/java/pe/gob/bcrp/service/impl/EmailServiceImpl.java:96 | sets the body and its HTML flag only |
| Mail.JavaMailSender.Send | src/main/java/pe/gob/bcrp/service/impl/EmailServiceImpl.java:99 | accepts the message iff the transport works and it names some recipient; only an accepted message is appended to the outbox |

## Left out

- The controllers, `ResponseDTO`, `GlobalExceptionHandler` and the HTTP status mapping: request/response shaping outside the pipeline.
- The superseded `services`/`controllers`/`model/dtos` variant: an older draft with no address validation.
- The integration test: it needs a running server and database.
- Bean validation (`@NotBlank` on the request): the framework enforces it before the core runs. Every request field may be null here.
- JavaMail's transport checks: only the refusal of a message without any recipient is modelled (`Mail.JavaMailSender.Send`); other address checks of the SMTP server are not.
- JavaMail, `MimeMessage` and Thymeleaf: foreign libraries, replaced by the helper/outbox stand-ins, the `MailOutcome` parameter and a symbolic `Processed(template, context)` page.
- `log.warn`/`log.error`: logging without effect on the result. The traceability service is only its event sequence.
- The clock: `LocalDateTime.now()` values arrive in `Environment` (`createdAt`, `sentAt`). Years are restricted to 1..9999, the ones `yyyy` prints in four digits.
- JPA identity generation is a next-id counter in `AlertaRepository`. `@Transactional` rollback on a `RuntimeException` is not modelled: the model keeps what was saved before the fault.
- Null `request`/`alerta` objects: the callers always pass objects, so only their fields may be null.
- `fechaError` and `usuarioCreacion`: nothing in the core sets them; they stay unset.
- AlertaService.AlertaServiceImpl.ProcesarAlerta: `save` is modelled as returning the same entity it was given (what JPA does for a new entity). A merge that returns a different instance is not modelled.
- EmailService.EmailServiceImpl.FillAndSend: a `MessagingException` is modelled at the first helper call after validation (`setTo`). One thrown by the helper's constructor at line 43, before validation, or by `setCc`/`setSubject`/`setText`, leads to the same `false` and trace, but its position relative to the validation exception is not distinguished.
- EmailService.EmailServiceImpl.CheckCcAndSend, EmailService.EmailServiceImpl.FillAndSend, EmailService.EmailServiceImpl.RenderAndSend, AlertaService.AlertaServiceImpl.RecordDelivery, AlertaService.AlertaServiceImpl.StoreOutcome, ValidationException.AppendEntries: these methods are consecutive parts of one Java method each (`enviarAlertaCorreo`, `procesarAlerta`, `buildMessage`), cut at a statement boundary so that each proof stays small.
- The rendered HTML text: the template is identified by name and context only.
