/**
 * Address validation and address-list parsing (EmailUtils): a chain of
 * first-failure-wins guards that ends in a regular-expression check, and the
 * split of a `,`/`;`-separated list into one validation result per token.
 */
module EmailUtils {
  import opened Wrappers
  import opened JavaStrings

  /** The outcome of validating one address (EmailUtils.EmailValidationResult). */
  datatype EmailValidationResult = EmailValidationResult(email: JString, isValid: bool, message: string)

  const MSG_EMPTY_OR_NULL := "Email vacío o nulo"
  const MSG_NO_AT := "Email sin símbolo '@'"
  const MSG_ENDS_WITH_AT := "Email incompleto (termina en '@')"
  const MSG_STARTS_WITH_AT := "Email con formato inválido (empieza con '@')"
  const MSG_MULTIPLE_AT := "Email con múltiples '@' o sin '@'"
  const MSG_BAD_STRUCTURE := "Email con estructura inválida"
  const MSG_NO_LOCAL_PART := "Email sin parte local (antes del '@')"
  const MSG_NO_DOMAIN := "Email sin dominio (después del '@')"
  const MSG_DOMAIN_WITHOUT_DOT := "Email con dominio sin punto"
  const MSG_DOMAIN_ENDS_WITH_DOT := "Email con dominio que termina en punto"
  const MSG_REGEX := "Email con formato inválido según validación regex"
  const MSG_VALID := "Email válido"
  const MSG_NONE_GIVEN := "No se proporcionaron emails"
  const MSG_EMPTY_TOKEN := "Email vacío"

  /** The chars of the list-splitting regex `[,;]`. */
  const SEPARATORS: set<char> := {',', ';'}

  // ---------------------------------------------------------------------------
  // The final pattern
  //   ^[a-zA-Z0-9]([a-zA-Z0-9._%-]*[a-zA-Z0-9])?@[a-zA-Z0-9]([a-zA-Z0-9.-]*[a-zA-Z0-9])?\.[a-zA-Z]{2,}$
  // ---------------------------------------------------------------------------

  predicate IsAsciiLetter(c: char) {
    'a' <= c <= 'z' || 'A' <= c <= 'Z'
  }

  predicate IsAsciiAlnum(c: char) {
    IsAsciiLetter(c) || '0' <= c <= '9'
  }

  predicate IsLocalChar(c: char) {
    IsAsciiAlnum(c) || c == '.' || c == '_' || c == '%' || c == '-'
  }

  predicate IsHostChar(c: char) {
    IsAsciiAlnum(c) || c == '.' || c == '-'
  }

  // Recursive, so that a mention of the pattern unfolds them only on demand.

  predicate AllLocalChars(s: string) {
    s == [] || (IsLocalChar(s[0]) && AllLocalChars(s[1..]))
  }

  predicate AllHostChars(s: string) {
    s == [] || (IsHostChar(s[0]) && AllHostChars(s[1..]))
  }

  predicate AllLetters(s: string) {
    s == [] || (IsAsciiLetter(s[0]) && AllLetters(s[1..]))
  }

  lemma {:induction false} AllLocalCharsAt(s: string)
    ensures AllLocalChars(s) <==> forall i :: 0 <= i < |s| ==> IsLocalChar(s[i])
  {
    if s != [] {
      AllLocalCharsAt(s[1..]);
      assert forall i :: 1 <= i < |s| ==> s[i] == s[1..][i - 1];
    }
  }

  lemma {:induction false} AllHostCharsAt(s: string)
    ensures AllHostChars(s) <==> forall i :: 0 <= i < |s| ==> IsHostChar(s[i])
  {
    if s != [] {
      AllHostCharsAt(s[1..]);
      assert forall i :: 1 <= i < |s| ==> s[i] == s[1..][i - 1];
    }
  }

  lemma {:induction false} AllLettersAt(s: string)
    ensures AllLetters(s) <==> forall i :: 0 <= i < |s| ==> IsAsciiLetter(s[i])
  {
    if s != [] {
      AllLettersAt(s[1..]);
      assert forall i :: 1 <= i < |s| ==> s[i] == s[1..][i - 1];
    }
  }

  /** `[a-zA-Z0-9]([a-zA-Z0-9._%-]*[a-zA-Z0-9])?` */
  predicate IsLocalPart(s: string) {
    s != [] && IsAsciiAlnum(s[0]) && IsAsciiAlnum(s[|s| - 1]) && AllLocalChars(s)
  }

  /** `[a-zA-Z0-9]([a-zA-Z0-9.-]*[a-zA-Z0-9])?` */
  predicate IsHostPart(s: string) {
    s != [] && IsAsciiAlnum(s[0]) && IsAsciiAlnum(s[|s| - 1]) && AllHostChars(s)
  }

  /** `[a-zA-Z]{2,}` */
  predicate IsTopLevelDomain(s: string) {
    |s| >= 2 && AllLetters(s)
  }

  /** `s` reads as a local part, the `@` at `at`, a host part, the `.` at `dot` and a top-level domain. */
  predicate IsAddressAt(s: string, at: nat, dot: nat) {
    at < dot < |s| && s[at] == '@' && s[dot] == '.' &&
    IsLocalPart(s[..at]) && IsHostPart(s[at + 1..dot]) && IsTopLevelDomain(s[dot + 1..])
  }

  /**
   * `email.matches(emailPattern)`: the language of the pattern, read off it directly:
   * some `@` and some later `.` cut the whole string into a local part, a host part
   * and a top-level domain.
   */
  predicate MatchesEmailPattern(s: string)
    ensures MatchesEmailPattern(s) ==> |s| >= 6
  {
    exists at, dot | 0 <= at < dot < |s| :: IsAddressAt(s, at, dot)
  }

  lemma {:induction false} LocalCharsHaveNoAt(s: string)
    requires AllLocalChars(s)
    ensures '@' !in s
  {
    if s != [] {
      LocalCharsHaveNoAt(s[1..]);
      assert s == [s[0]] + s[1..];
    }
  }

  lemma {:induction false} HostCharsHaveNoAt(s: string)
    requires AllHostChars(s)
    ensures '@' !in s
  {
    if s != [] {
      HostCharsHaveNoAt(s[1..]);
      assert s == [s[0]] + s[1..];
    }
  }

  lemma {:induction false} LettersHaveNoAtOrDot(s: string)
    requires AllLetters(s)
    ensures '@' !in s && '.' !in s
    ensures s != [] ==> IsAsciiLetter(s[|s| - 1])
  {
    if s != [] {
      LettersHaveNoAtOrDot(s[1..]);
      assert s == [s[0]] + s[1..];
    }
  }

  /** The local part, the host and the top-level domain hold no `@`, so the one at `at` is the only one. */
  lemma SingleAtOfAddress(s: string, at: nat, dot: nat)
    requires IsAddressAt(s, at, dot)
    ensures CountIn(s, {'@'}) == 1 && '@' !in s[..at] && '@' !in s[at + 1..]
  {
    var local, host, tld := s[..at], s[at + 1..dot], s[dot + 1..];
    LocalCharsHaveNoAt(local);
    HostCharsHaveNoAt(host);
    LettersHaveNoAtOrDot(tld);
    var domain := s[at + 1..];
    assert domain == host + ['.'] + tld;
    assert s == local + ['@'] + domain;
    CountOfOneZero(local, '@');
    CountOfOneZero(domain, '@');
    CountInAppend(local + ['@'], domain, {'@'});
    CountInAppend(local, ['@'], {'@'});
  }

  // ---------------------------------------------------------------------------
  // validateEmail
  // ---------------------------------------------------------------------------

  function Invalid(email: string, message: string): EmailValidationResult {
    EmailValidationResult(Some(email), false, message)
  }

  /** The `@` guards of `validateEmail`, in source order: the message of the first that fails. */
  function AtGuard(e: string): Option<string>
    requires e != []
  {
    if '@' !in e then Some(MSG_NO_AT)
    else if e[|e| - 1] == '@' then Some(MSG_ENDS_WITH_AT)
    else if e[0] == '@' then Some(MSG_STARTS_WITH_AT)
    else if CountIn(e, {'@'}) != 1 then Some(MSG_MULTIPLE_AT)
    else None
  }

  /** The guards on `email.split("@")`, in source order: the message of the first that fails. */
  function PartsGuard(parts: seq<string>): Option<string> {
    if |parts| != 2 then Some(MSG_BAD_STRUCTURE)
    else
      var localPart, domainPart := parts[0], parts[1];
      if localPart == [] then Some(MSG_NO_LOCAL_PART)
      else if domainPart == [] then Some(MSG_NO_DOMAIN)
      else if '.' !in domainPart then Some(MSG_DOMAIN_WITHOUT_DOT)
      else if domainPart[|domainPart| - 1] == '.' then Some(MSG_DOMAIN_ENDS_WITH_DOT)
      else None
  }

  /** `validateEmail` after the blank check, on the trimmed address. */
  function ValidateTrimmed(e: string): (r: EmailValidationResult)
    requires e != []
    ensures r.email == Some(e)
    ensures r.isValid ==> r.message == MSG_VALID
  {
    match AtGuard(e)
    case Some(m) => Invalid(e, m)
    case None =>
      match PartsGuard(Split(e, {'@'}))
      case Some(m) => Invalid(e, m)
      case None =>
        if !MatchesEmailPattern(e) then Invalid(e, MSG_REGEX)
        else EmailValidationResult(Some(e), true, MSG_VALID)
  }

  /** `validateEmail`: null or blank input is rejected as such; otherwise the trimmed address is checked. */
  function ValidateEmail(email: JString): (r: EmailValidationResult)
    ensures email.None? || Trim(email.value) == [] ==>
      r == EmailValidationResult(email, false, MSG_EMPTY_OR_NULL)
    ensures email.Some? && Trim(email.value) != [] ==> r.email == Some(Trim(email.value))
    ensures r.isValid ==> r.message == MSG_VALID
  {
    if email.None? || Trim(email.value) == [] then EmailValidationResult(email, false, MSG_EMPTY_OR_NULL)
    else ValidateTrimmed(Trim(email.value))
  }

  /** A non-blank address without `@` is rejected for that reason. */
  lemma MissingAtIsReported(s: string)
    requires Trim(s) != [] && '@' !in Trim(s)
    ensures ValidateEmail(Some(s)) == EmailValidationResult(Some(Trim(s)), false, MSG_NO_AT)
  {
  }

  /** Two or more `@`, neither first nor last, are reported as multiple `@`. */
  lemma SeveralAtsAreReported(s: string)
    requires var e := Trim(s); e != [] && CountIn(e, {'@'}) >= 2 && e[0] != '@' && e[|e| - 1] != '@'
    ensures ValidateEmail(Some(s)) == EmailValidationResult(Some(Trim(s)), false, MSG_MULTIPLE_AT)
  {
    var e := Trim(s);
    CountOfOneZero(e, '@');
    assert AtGuard(e) == Some(MSG_MULTIPLE_AT);
    assert ValidateTrimmed(e) == Invalid(e, MSG_MULTIPLE_AT);
  }

  /** The messages' lengths, which tell most of them apart without comparing their texts. */
  lemma MessageLengths()
    ensures |MSG_EMPTY_OR_NULL| == 18
    ensures |MSG_NO_AT| == 21
    ensures |MSG_ENDS_WITH_AT| == 33
    ensures |MSG_STARTS_WITH_AT| == 44
    ensures |MSG_MULTIPLE_AT| == 33
    ensures |MSG_BAD_STRUCTURE| == 29
    ensures |MSG_NO_LOCAL_PART| == 37
    ensures |MSG_NO_DOMAIN| == 35
    ensures |MSG_DOMAIN_WITHOUT_DOT| == 27
    ensures |MSG_DOMAIN_ENDS_WITH_DOT| == 38
    ensures |MSG_REGEX| == 49
    ensures |MSG_VALID| == 12
    ensures |MSG_NONE_GIVEN| == 27
    ensures |MSG_EMPTY_TOKEN| == 11
  { }

  /**
   * Once the single-`@` guard passes, splitting at `@` gives a non-empty local part and
   * a non-empty domain, so the three guards that follow never fire.
   */
  lemma StructureGuardsNeverFire(email: JString)
    ensures ValidateEmail(email).message != MSG_BAD_STRUCTURE
    ensures ValidateEmail(email).message != MSG_NO_LOCAL_PART
    ensures ValidateEmail(email).message != MSG_NO_DOMAIN
  {
    MessageLengths();
    if email.Some? && Trim(email.value) != [] {
      TrimmedStructureGuards(Trim(email.value));
    }
  }

  /** The same, for the trimmed address: only the `@`, dot and pattern guards can reject it. */
  lemma TrimmedStructureGuards(e: string)
    requires e != []
    ensures var m := ValidateTrimmed(e).message; |m| != 29 && |m| != 37 && |m| != 35
  {
    MessageLengths();
    if AtGuard(e).None? {
      SplitOfSingleAt(e);
      var parts := Split(e, {'@'});
      var g := PartsGuard(parts);
      assert g.None? || g.value == MSG_DOMAIN_WITHOUT_DOT || g.value == MSG_DOMAIN_ENDS_WITH_DOT;
    }
  }

  /** An address that passes the `@` guards splits into a non-empty local part and a non-empty domain. */
  lemma SplitOfSingleAt(e: string)
    requires e != [] && AtGuard(e).None?
    ensures var parts := Split(e, {'@'}); |parts| == 2 && parts[0] != [] && parts[1] != []
  {
    var k :| 0 <= k < |e| && e[k] == '@';
    SplitAtSingleDelimiter(e, k, {'@'});
  }

  /** Every guard before the pattern check is implied by the pattern. */
  lemma PatternImpliesGuards(e: string)
    requires MatchesEmailPattern(e)
    ensures e != [] && AtGuard(e).None? && PartsGuard(Split(e, {'@'})).None?
  {
    var at, dot :| 0 <= at < dot < |e| && IsAddressAt(e, at, dot);
    SingleAtOfAddress(e, at, dot);
    AddressEnds(e, at, dot);
    SplitAtSingleDelimiter(e, at, {'@'});
    PartsGuardAccepts(e[..at], e[at + 1..]);
  }

  /** A split into a non-empty local part and a domain with a dot, not at its end, passes the structure guards. */
  lemma PartsGuardAccepts(localPart: string, domainPart: string)
    requires localPart != [] && '.' in domainPart && domainPart[|domainPart| - 1] != '.'
    ensures PartsGuard([localPart, domainPart]).None?
  {
    var parts := [localPart, domainPart];
    assert parts[0] == localPart && parts[1] == domainPart;
  }

  /**
   * An address starts with its local part and ends with its top-level domain: neither
   * end is `@` or `.`, and the domain after the `@` holds a dot but does not end with one.
   */
  lemma AddressEnds(e: string, at: nat, dot: nat)
    requires IsAddressAt(e, at, dot)
    ensures e[0] != '@' && e[|e| - 1] != '@'
    ensures var domain := e[at + 1..]; '.' in domain && domain[|domain| - 1] != '.'
  {
    var local, tld, domain := e[..at], e[dot + 1..], e[at + 1..];
    LettersHaveNoAtOrDot(tld);
    assert e[0] == local[0];
    assert e[|e| - 1] == tld[|tld| - 1];
    assert domain[dot - at - 1] == '.';
    assert domain[|domain| - 1] == tld[|tld| - 1];
  }

  /**
   * The whole guard chain accepts exactly the addresses whose trimmed text is in the
   * language of the pattern: the earlier guards only choose the message of a rejection.
   */
  lemma ValidIffMatchesPattern(email: JString)
    ensures ValidateEmail(email).isValid <==> email.Some? && MatchesEmailPattern(Trim(email.value))
  {
    if email.Some? && Trim(email.value) != [] {
      TrimmedValidIffPattern(Trim(email.value));
    }
  }

  lemma TrimmedValidIffPattern(e: string)
    requires e != []
    ensures ValidateTrimmed(e).isValid <==> MatchesEmailPattern(e)
  {
    if MatchesEmailPattern(e) {
      PatternImpliesGuards(e);
    }
  }

  /** Zero `@` or more than one: a non-blank address is rejected by one of the `@` guards. */
  lemma WrongAtCountIsReported(s: string)
    requires Trim(s) != [] && CountIn(Trim(s), {'@'}) != 1
    ensures var r := ValidateEmail(Some(s));
      !r.isValid && r.message in {MSG_NO_AT, MSG_ENDS_WITH_AT, MSG_STARTS_WITH_AT, MSG_MULTIPLE_AT}
  {
    var e := Trim(s);
    var g := AtGuard(e);
    assert g.Some? && g.value in {MSG_NO_AT, MSG_ENDS_WITH_AT, MSG_STARTS_WITH_AT, MSG_MULTIPLE_AT};
    assert ValidateEmail(Some(s)) == Invalid(e, g.value);
  }

  // ---------------------------------------------------------------------------
  // parseAndValidateEmailAddresses and parseEmailAddresses
  // ---------------------------------------------------------------------------

  /** The result the parse loop records for one token of the split. */
  function TokenResult(token: string): EmailValidationResult {
    var t := Trim(token);
    if t == [] then EmailValidationResult(Some(t), false, MSG_EMPTY_TOKEN) else ValidateEmail(Some(t))
  }

  /** The results of a token list: one per token, in order. */
  function TokenResults(tokens: seq<string>): (r: seq<EmailValidationResult>)
    ensures |r| == |tokens|
    ensures forall i {:trigger r[i]} :: 0 <= i < |tokens| ==> r[i] == TokenResult(tokens[i])
  {
    seq(|tokens|, i requires 0 <= i < |tokens| => TokenResult(tokens[i]))
  }

  lemma TokenResultsSnoc(tokens: seq<string>, token: string)
    ensures TokenResults(tokens + [token]) == TokenResults(tokens) + [TokenResult(token)]
  {
    var a, b := TokenResults(tokens + [token]), TokenResults(tokens) + [TokenResult(token)];
    forall i | 0 <= i < |a| ensures a[i] == b[i] {
      if i < |tokens| {
        assert (tokens + [token])[i] == tokens[i];
      } else {
        assert (tokens + [token])[i] == token;
      }
    }
    assert |a| == |b|;
  }

  lemma TokenResultsTail(tokens: seq<string>)
    requires tokens != []
    ensures TokenResults(tokens)[1..] == TokenResults(tokens[1..])
  {
    var a, b := TokenResults(tokens)[1..], TokenResults(tokens[1..]);
    forall i | 0 <= i < |a| ensures a[i] == b[i] {
      assert a[i] == TokenResults(tokens)[i + 1];
    }
  }

  /** What `parseAndValidateEmailAddresses` returns. */
  function Validations(emails: JString): seq<EmailValidationResult> {
    if emails.None? || Trim(emails.value) == [] then [EmailValidationResult(Some(""), false, MSG_NONE_GIVEN)]
    else TokenResults(Split(emails.value, SEPARATORS))
  }

  /** `parseAndValidateEmailAddresses`: one result per token, appended in a loop. */
  method ParseAndValidateEmailAddresses(emails: JString) returns (results: seq<EmailValidationResult>)
    ensures results == Validations(emails)
  {
    results := [];
    if emails.None? || Trim(emails.value) == [] {
      results := results + [EmailValidationResult(Some(""), false, MSG_NONE_GIVEN)];
      return;
    }
    var emailArray := Split(emails.value, SEPARATORS);
    for i := 0 to |emailArray|
      invariant results == TokenResults(emailArray[..i])
    {
      TokenResultsStep(emailArray, i);
      var trimmedEmail := Trim(emailArray[i]);
      if trimmedEmail == [] {
        results := results + [EmailValidationResult(Some(trimmedEmail), false, MSG_EMPTY_TOKEN)];
        continue;
      }
      var result := ValidateEmail(Some(trimmedEmail));
      results := results + [result];
    }
    assert emailArray[..|emailArray|] == emailArray;
  }

  /** One more token of the loop: the results of the longer prefix end with that token's result. */
  lemma TokenResultsStep(tokens: seq<string>, i: nat)
    requires i < |tokens|
    ensures TokenResults(tokens[..i + 1]) == TokenResults(tokens[..i]) + [TokenResult(tokens[i])]
  {
    assert tokens[..i + 1] == tokens[..i] + [tokens[i]];
    TokenResultsSnoc(tokens[..i], tokens[i]);
  }

  /** Null or blank input gives exactly one invalid result with an empty address. */
  lemma BlankListGivesOneResult(emails: JString)
    requires emails.None? || Trim(emails.value) == []
    ensures Validations(emails) == [EmailValidationResult(Some(""), false, MSG_NONE_GIVEN)]
  {
  }

  /**
   * Otherwise: one result per token of the split, in order; each carries the trimmed
   * token, is valid exactly when that text is in the pattern's language, and a token
   * that trims to nothing is reported as an empty address.
   */
  lemma ValidationsPerToken(s: string)
    requires Trim(s) != []
    ensures var tokens, r := Split(s, SEPARATORS), Validations(Some(s));
      |r| == |tokens| &&
      forall i :: 0 <= i < |r| ==>
        && r[i].email == Some(Trim(tokens[i]))
        && (r[i].isValid <==> MatchesEmailPattern(Trim(tokens[i])))
        && (r[i].isValid ==> r[i].message == MSG_VALID)
        && (Trim(tokens[i]) == [] ==> !r[i].isValid && r[i].message == MSG_EMPTY_TOKEN)
  {
    var tokens, r := Split(s, SEPARATORS), Validations(Some(s));
    forall i | 0 <= i < |r|
      ensures r[i].email == Some(Trim(tokens[i]))
      ensures r[i].isValid <==> MatchesEmailPattern(Trim(tokens[i]))
    {
      var t := Trim(tokens[i]);
      TrimIdempotent(tokens[i]);
      ValidIffMatchesPattern(Some(t));
      if t == [] {
        assert !MatchesEmailPattern(t);
      }
    }
  }

  /** `.map(String::trim).filter(e -> !e.isEmpty() && validateEmail(e).isValid())` */
  function KeepValid(tokens: seq<string>): (r: seq<string>)
    ensures |r| <= |tokens|
  {
    if tokens == [] then []
    else
      var t := Trim(tokens[0]);
      (if t != [] && ValidateEmail(Some(t)).isValid then [t] else []) + KeepValid(tokens[1..])
  }

  /** `parseEmailAddresses`: the valid addresses of the list, trimmed. */
  function ParseEmailAddresses(emails: JString): (r: seq<string>)
    ensures r != [] ==> emails.Some? && Trim(emails.value) != []
    ensures emails.Some? ==> |r| <= CountIn(emails.value, SEPARATORS) + 1
  {
    if emails.None? || Trim(emails.value) == [] then [] else KeepValid(Split(emails.value, SEPARATORS))
  }

  /** The addresses of the valid entries of a result list, in order. */
  function ValidEmails(results: seq<EmailValidationResult>): seq<string> {
    if results == [] then []
    else (if results[0].isValid then [Show(results[0].email)] else []) + ValidEmails(results[1..])
  }

  lemma {:induction false} KeepValidIsValidView(tokens: seq<string>)
    ensures KeepValid(tokens) == ValidEmails(TokenResults(tokens))
  {
    if tokens != [] {
      KeepValidIsValidView(tokens[1..]);
      TokenResultsTail(tokens);
      TrimIdempotent(tokens[0]);
    }
  }

  /** `parseEmailAddresses` is the valid view of `parseAndValidateEmailAddresses`. */
  lemma ParsedAreTheValidOnes(emails: JString)
    ensures ParseEmailAddresses(emails) == ValidEmails(Validations(emails))
  {
    if emails.Some? && Trim(emails.value) != [] {
      KeepValidIsValidView(Split(emails.value, SEPARATORS));
    } else {
      assert ValidEmails(Validations(emails)) == ValidEmails([]);
    }
  }

  /** Every address `parseEmailAddresses` keeps is in the pattern's language. */
  lemma {:induction false} KeptAddressesMatch(tokens: seq<string>)
    ensures forall a :: a in KeepValid(tokens) ==> MatchesEmailPattern(a)
    ensures |KeepValid(tokens)| <= |tokens|
  {
    if tokens != [] {
      KeptAddressesMatch(tokens[1..]);
      TrimIdempotent(tokens[0]);
      ValidIffMatchesPattern(Some(Trim(tokens[0])));
    }
  }

  /** The valid view of an all-valid result list is every address, in order. */
  lemma {:induction false} ValidEmailsOfAllValid(results: seq<EmailValidationResult>)
    requires forall i :: 0 <= i < |results| ==> results[i].isValid
    ensures |ValidEmails(results)| == |results|
    ensures forall i :: 0 <= i < |results| ==> ValidEmails(results)[i] == Show(results[i].email)
  {
    if results != [] {
      assert forall i :: 0 <= i < |results[1..]| ==> results[1..][i] == results[i + 1];
      ValidEmailsOfAllValid(results[1..]);
    }
  }

  /** A list all of whose results are valid was neither null nor blank. */
  lemma ValidListIsGiven(emails: JString)
    requires forall i :: 0 <= i < |Validations(emails)| ==> Validations(emails)[i].isValid
    ensures emails.Some? && Trim(emails.value) != []
  {
    var r := Validations(emails);
    assert |r| > 0 ==> r[0].isValid;
  }

  /**
   * When every result of `parseAndValidateEmailAddresses` is valid, `parseEmailAddresses`
   * returns every token, trimmed, in order: no address is dropped.
   */
  lemma AllValidListIsKept(emails: JString)
    requires forall i :: 0 <= i < |Validations(emails)| ==> Validations(emails)[i].isValid
    ensures emails.Some? && Trim(emails.value) != []
      && |ParseEmailAddresses(emails)| == |Split(emails.value, SEPARATORS)|
      && forall i :: 0 <= i < |Split(emails.value, SEPARATORS)| ==>
           ParseEmailAddresses(emails)[i] == Trim(Split(emails.value, SEPARATORS)[i])
  {
    ValidListIsGiven(emails);
    ParsedAreTheValidOnes(emails);
    ValidationsPerToken(emails.value);
    ValidEmailsOfAllValid(Validations(emails));
  }
}
