/**
 * The fault raised when an address list does not validate (EmailValidationException):
 * it keeps the full list of results and derives the invalid ones, their messages and,
 * for the one-argument constructor, a message that lists them.
 */
module ValidationException {
  import opened JavaStrings
  import opened EmailUtils

  /** `RuntimeException.getMessage()` and the stored result list. */
  datatype EmailValidationException = EmailValidationException(message: string, validationResults: seq<EmailValidationResult>)

  const MSG_NO_INVALID := "Error de validación de emails"
  const MSG_ONE_INVALID_PREFIX := "Email inválido '"
  const MSG_MANY_INVALID_PREFIX := "Se encontraron emails inválidos: "
  const ENTRY_SEPARATOR := ", "

  /** The invalid entries of a result list, in order (`filter(result -> !result.isValid())`). */
  function InvalidOf(results: seq<EmailValidationResult>): (r: seq<EmailValidationResult>)
    ensures |r| <= |results|
  {
    if results == [] then []
    else (if results[0].isValid then [] else [results[0]]) + InvalidOf(results[1..])
  }

  /** Filtering a concatenation filters each part. */
  lemma {:induction false} InvalidOfAppend(a: seq<EmailValidationResult>, b: seq<EmailValidationResult>)
    ensures InvalidOf(a + b) == InvalidOf(a) + InvalidOf(b)
  {
    if a == [] {
      assert a + b == b;
    } else {
      assert (a + b)[0] == a[0] && (a + b)[1..] == a[1..] + b;
      InvalidOfAppend(a[1..], b);
    }
  }

  /** The filter keeps exactly the invalid entries: an entry is kept if and only if it is in the list and invalid. */
  lemma {:induction false} InvalidOfMembers(results: seq<EmailValidationResult>)
    ensures forall r :: r in InvalidOf(results) <==> r in results && !r.isValid
  {
    if results != [] {
      InvalidOfMembers(results[1..]);
      assert results == [results[0]] + results[1..];
    }
  }

  /** Nothing is filtered out of an all-invalid list, and everything out of an all-valid one. */
  lemma {:induction false} InvalidOfExtremes(results: seq<EmailValidationResult>)
    ensures (forall i :: 0 <= i < |results| ==> !results[i].isValid) ==> InvalidOf(results) == results
    ensures (forall i :: 0 <= i < |results| ==> results[i].isValid) <==> InvalidOf(results) == []
  {
    if results != [] {
      InvalidOfExtremes(results[1..]);
      assert forall i :: 1 <= i < |results| ==> results[i] == results[1..][i - 1];
      assert results == [results[0]] + results[1..];
    }
  }

  /** The messages of a list of results, in order. */
  function MessagesOf(results: seq<EmailValidationResult>): (r: seq<string>)
    ensures |r| == |results|
    ensures forall i :: 0 <= i < |results| ==> r[i] == results[i].message
  {
    if results == [] then [] else [results[0].message] + MessagesOf(results[1..])
  }

  /** `getInvalidEmails`. */
  function GetInvalidEmails(e: EmailValidationException): (r: seq<EmailValidationResult>)
    ensures |r| <= |e.validationResults|
    ensures forall x :: x in r <==> x in e.validationResults && !x.isValid
  {
    InvalidOfMembers(e.validationResults);
    InvalidOf(e.validationResults)
  }

  /** `getErrorMessages`: the message of each invalid entry, in order. */
  function GetErrorMessages(e: EmailValidationException): (r: seq<string>)
    ensures |r| == |GetInvalidEmails(e)|
    ensures forall i :: 0 <= i < |r| ==> r[i] == GetInvalidEmails(e)[i].message
  {
    MessagesOf(GetInvalidEmails(e))
  }

  // ---------------------------------------------------------------------------
  // buildMessage
  // ---------------------------------------------------------------------------

  /** `String.format("'%s' (%s)", email, message)`. */
  function Entry(r: EmailValidationResult): string {
    "'" + Show(r.email) + "' (" + r.message + ")"
  }

  /** The entries of a list, separated by `", "`. */
  function JoinEntries(results: seq<EmailValidationResult>): string
    decreases |results|
  {
    if results == [] then ""
    else if |results| == 1 then Entry(results[0])
    else JoinEntries(results[..|results| - 1]) + ENTRY_SEPARATOR + Entry(results[|results| - 1])
  }

  /** Joining a non-empty list and one more entry puts the separator between them. */
  lemma JoinEntriesSnoc(results: seq<EmailValidationResult>, r: EmailValidationResult)
    requires results != []
    ensures JoinEntries(results + [r]) == JoinEntries(results) + ENTRY_SEPARATOR + Entry(r)
  {
    assert (results + [r])[..|results|] == results;
  }

  /** Joining puts a separator before every entry but the first. */
  lemma {:induction false} JoinEntriesCons(r: EmailValidationResult, results: seq<EmailValidationResult>)
    requires results != []
    ensures JoinEntries([r] + results) == Entry(r) + ENTRY_SEPARATOR + JoinEntries(results)
    decreases |results|
  {
    if |results| == 1 {
      assert [r] + results == [r, results[0]];
      assert [r, results[0]][..1] == [r];
    } else {
      var init := results[..|results| - 1];
      var last := results[|results| - 1];
      assert results == init + [last];
      assert [r] + results == ([r] + init) + [last];
      JoinEntriesSnoc([r] + init, last);
      JoinEntriesCons(r, init);
      JoinEntriesSnoc(init, last);
    }
  }

  /** The message `buildMessage` composes, by the number of invalid entries. */
  function DetailedMessage(results: seq<EmailValidationResult>): string {
    var invalid := InvalidOf(results);
    if invalid == [] then MSG_NO_INVALID
    else if |invalid| == 1 then MSG_ONE_INVALID_PREFIX + Show(invalid[0].email) + "': " + invalid[0].message
    else MSG_MANY_INVALID_PREFIX + JoinEntries(invalid)
  }

  /**
   * `buildMessage`: filters the invalid entries, handles zero and one of them, and
   * otherwise appends one entry per invalid result to a builder, with `", "` before
   * every entry but the first.
   */
  method BuildMessage(validationResults: seq<EmailValidationResult>) returns (msg: string)
    ensures msg == DetailedMessage(validationResults)
  {
    var invalidEmails := InvalidOf(validationResults);
    if invalidEmails == [] {
      return MSG_NO_INVALID;
    }
    if |invalidEmails| == 1 {
      var result := invalidEmails[0];
      return MSG_ONE_INVALID_PREFIX + Show(result.email) + "': " + result.message;
    }
    msg := AppendEntries(invalidEmails);
  }

  /** The builder loop of `buildMessage`: the prefix, then each entry, `", "` before all but the first. */
  method AppendEntries(invalidEmails: seq<EmailValidationResult>) returns (sb: string)
    ensures sb == MSG_MANY_INVALID_PREFIX + JoinEntries(invalidEmails)
  {
    sb := MSG_MANY_INVALID_PREFIX;
    for i := 0 to |invalidEmails|
      invariant sb == MSG_MANY_INVALID_PREFIX + JoinEntries(invalidEmails[..i])
    {
      var result := invalidEmails[i];
      JoinPrefixStep(invalidEmails, i);
      if i > 0 {
        sb := sb + ENTRY_SEPARATOR;
        Regroup(MSG_MANY_INVALID_PREFIX, JoinEntries(invalidEmails[..i]), ENTRY_SEPARATOR, Entry(result));
      }
      sb := sb + Entry(result);
    }
    assert invalidEmails[..|invalidEmails|] == invalidEmails;
  }

  /** One more entry of the loop: the separator comes before every entry but the first. */
  lemma JoinPrefixStep(entries: seq<EmailValidationResult>, i: nat)
    requires i < |entries|
    ensures JoinEntries(entries[..i + 1]) ==
      if i == 0 then Entry(entries[0]) else JoinEntries(entries[..i]) + ENTRY_SEPARATOR + Entry(entries[i])
  {
    assert entries[..i + 1] == entries[..i] + [entries[i]];
    if i > 0 {
      JoinEntriesSnoc(entries[..i], entries[i]);
    } else {
      assert entries[..i + 1] == [entries[0]];
    }
  }

  /** A list of two or more entries joins as its first entry, `", "` and the join of the rest. */
  lemma JoinFirstEntry(entries: seq<EmailValidationResult>)
    requires |entries| >= 2
    ensures JoinEntries(entries) == Entry(entries[0]) + ENTRY_SEPARATOR + JoinEntries(entries[1..])
  {
    var first, rest := entries[0], entries[1..];
    JoinEntriesCons(first, rest);
    assert [first] + rest == entries;
  }

  lemma Regroup(a: string, b: string, c: string, d: string)
    ensures a + b + c + d == a + (b + c + d)
  {
  }

  /** With two or more invalid entries the message is the prefix, the first entry, then `", "` and the rest. */
  lemma ManyInvalidMessage(results: seq<EmailValidationResult>)
    requires |InvalidOf(results)| >= 2
    ensures var invalid := InvalidOf(results);
      DetailedMessage(results) == MSG_MANY_INVALID_PREFIX + Entry(invalid[0]) + ENTRY_SEPARATOR + JoinEntries(invalid[1..])
  {
    var invalid := InvalidOf(results);
    JoinFirstEntry(invalid);
    Regroup(MSG_MANY_INVALID_PREFIX, Entry(invalid[0]), ENTRY_SEPARATOR, JoinEntries(invalid[1..]));
  }

  /** A list without invalid entries gets the generic message. */
  lemma NoInvalidMessage(results: seq<EmailValidationResult>)
    requires forall i :: 0 <= i < |results| ==> results[i].isValid
    ensures DetailedMessage(results) == MSG_NO_INVALID
  {
    InvalidOfExtremes(results);
  }

  /** A list whose only invalid entry is at `k` filters to that entry alone. */
  lemma {:induction false} InvalidOfSingle(results: seq<EmailValidationResult>, k: nat)
    requires k < |results| && !results[k].isValid
    requires forall i :: 0 <= i < |results| && i != k ==> results[i].isValid
    ensures InvalidOf(results) == [results[k]]
  {
    var rest := results[1..];
    if k == 0 {
      forall i | 0 <= i < |rest| ensures rest[i].isValid {
        assert rest[i] == results[i + 1];
      }
      InvalidOfExtremes(rest);
    } else {
      forall i | 0 <= i < |rest| && i != k - 1 ensures rest[i].isValid {
        assert rest[i] == results[i + 1];
      }
      InvalidOfSingle(rest, k - 1);
    }
  }

  /** A list whose only invalid entry is at `k` names that entry's address and reason. */
  lemma SingleInvalidMessage(results: seq<EmailValidationResult>, k: nat)
    requires k < |results| && !results[k].isValid
    requires forall i :: 0 <= i < |results| && i != k ==> results[i].isValid
    ensures DetailedMessage(results) ==
      MSG_ONE_INVALID_PREFIX + Show(results[k].email) + "': " + results[k].message
  {
    InvalidOfSingle(results, k);
  }

  // ---------------------------------------------------------------------------
  // The two constructors
  // ---------------------------------------------------------------------------

  /** `new EmailValidationException(message, validationResults)`. */
  function WithMessage(message: string, validationResults: seq<EmailValidationResult>): (e: EmailValidationException)
    ensures e.message == message && e.validationResults == validationResults
  {
    EmailValidationException(message, validationResults)
  }

  /** `new EmailValidationException(validationResults)`: the message is built from the list. */
  function FromResults(validationResults: seq<EmailValidationResult>): (e: EmailValidationException)
    ensures e.validationResults == validationResults
  {
    EmailValidationException(DetailedMessage(validationResults), validationResults)
  }

  /** The one-argument constructor, running `buildMessage` for the message. */
  method NewEmailValidationException(validationResults: seq<EmailValidationResult>) returns (e: EmailValidationException)
    ensures e == FromResults(validationResults)
  {
    var message := BuildMessage(validationResults);
    e := EmailValidationException(message, validationResults);
  }
}
