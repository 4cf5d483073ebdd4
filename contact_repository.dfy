/** The contact form checks of src/services/ContactRepository.ts. Submitting the
    form is a network call and is not part of this model. */
module ContactRepository {
  import opened Seqs
  import opened Text
  import opened Types

  const NameRequired := "Nome é obrigatório"
  const NameTooShort := "Nome deve ter pelo menos 2 caracteres"
  const EmailRequired := "Email é obrigatório"
  const EmailInvalid := "Email inválido"
  const MessageRequired := "Mensagem é obrigatória"
  const MessageTooShort := "Mensagem deve ter pelo menos 10 caracteres"

  const MinNameLength: nat := 2
  const MinMessageLength: nat := 10

  /** A run of the regular expression class `[^\s@]`: neither white space nor '@'. */
  predicate Plain(t: string) {
    forall k :: 0 <= k < |t| ==> !IsSpace(t[k]) && t[k] != '@'
  }

  /** `s` is a run `A`, the '@' at position `i`, a run `B`, the '.' at position
      `j` and a run `C`, each run a non-empty stretch of `[^\s@]`. */
  predicate EmailShape(s: string, i: int, j: int) {
    0 < i && i + 1 < j && j + 1 < |s| && s[i] == '@' && s[j] == '.'
    && Plain(s[..i]) && Plain(s[i + 1..j]) && Plain(s[j + 1..])
  }

  /** The language of `^[^\s@]+@[^\s@]+\.[^\s@]+$`. Since `B` may itself contain
      dots, any dot of the domain that is not its first or last character can be
      the one the pattern matches. */
  ghost predicate EmailRegexMatches(s: string) {
    exists i, j :: EmailShape(s, i, j)
  }

  /** Some '.' of the part after position `i` is neither its first nor its last
      character. */
  predicate HasInnerDot(email: string, i: int) {
    0 <= i && exists j :: i + 1 < j < |email| - 1 && email[j] == '.'
  }

  /** Position `i` holds the only '@', it is not the first character, and the
      domain after it has an inner dot. */
  predicate SplitsAt(email: string, i: int) {
    0 < i < |email| && email[i] == '@'
    && (forall k :: 0 <= k < |email| && k != i ==> email[k] != '@')
    && HasInnerDot(email, i)
  }

  /** `validateEmail(email)`, checked character by character: no white space,
      exactly one '@' and not first, and a '.' in the domain that is neither its
      first nor its last character. */
  predicate ValidateEmail(email: string)
    ensures ValidateEmail(email) <==> EmailRegexMatches(email)
  {
    EmailCheckIsRegex(email);
    NoSpace(email) && exists i :: 0 <= i < |email| && SplitsAt(email, i)
  }

  lemma EmailCheckIsRegex(email: string)
    ensures (NoSpace(email) && exists i :: 0 <= i < |email| && SplitsAt(email, i)) <==> EmailRegexMatches(email)
  {
    if EmailRegexMatches(email) {
      var i, j :| EmailShape(email, i, j);
      forall k | 0 <= k < |email| ensures !IsSpace(email[k]) && (k != i ==> email[k] != '@') {
        if k < i {
          assert email[..i][k] == email[k];
        } else if i < k < j {
          assert email[i + 1..j][k - i - 1] == email[k];
        } else if j < k {
          assert email[j + 1..][k - j - 1] == email[k];
        }
      }
      assert SplitsAt(email, i);
    }
    if NoSpace(email) && exists i :: 0 <= i < |email| && SplitsAt(email, i) {
      var i :| 0 <= i < |email| && SplitsAt(email, i);
      assert HasInnerDot(email, i);
      var j :| i + 1 < j < |email| - 1 && email[j] == '.';
      assert Plain(email[..i]);
      assert Plain(email[i + 1..j]);
      assert Plain(email[j + 1..]);
      assert EmailShape(email, i, j);
    }
  }

  /** A valid address is never blank. */
  lemma ValidEmailNotBlank(email: string)
    ensures ValidateEmail(email) ==> Trim(email) != []
  {
    if ValidateEmail(email) {
      var i, j :| EmailShape(email, i, j);
      assert !IsSpace(email[0]) by { assert email[..i][0] == email[0]; }
      TrimEmptyIff(email);
    }
  }

  /** White space anywhere makes an address invalid, even at either end. */
  lemma SpaceInvalidatesEmail(email: string, k: int)
    requires 0 <= k < |email| && IsSpace(email[k])
    ensures !ValidateEmail(email)
  {
  }

  /** The error recorded for the name: required when blank, too short when the
      trimmed name has fewer than two characters. */
  function NameError(name: string): (r: Option<string>)
    ensures r.Some? <==> |Trim(name)| < MinNameLength
    ensures r.Some? ==> r.value == if Trim(name) == [] then NameRequired else NameTooShort
  {
    if Trim(name) == [] then Some(NameRequired)
    else if |Trim(name)| < MinNameLength then Some(NameTooShort)
    else None
  }

  /** The error recorded for the email: required when blank, otherwise invalid
      when the untrimmed address fails the check. Since a valid address is never
      blank, there is an error exactly when the address is invalid. */
  function EmailError(email: string): (r: Option<string>)
    ensures r.Some? <==> !ValidateEmail(email)
    ensures r.Some? ==> r.value == if Trim(email) == [] then EmailRequired else EmailInvalid
  {
    ValidEmailNotBlank(email);
    if Trim(email) == [] then Some(EmailRequired)
    else if !ValidateEmail(email) then Some(EmailInvalid)
    else None
  }

  /** The error recorded for the message: required when blank, too short when the
      trimmed message has fewer than ten characters. */
  function MessageError(message: string): (r: Option<string>)
    ensures r.Some? <==> |Trim(message)| < MinMessageLength
    ensures r.Some? ==> r.value == if Trim(message) == [] then MessageRequired else MessageTooShort
  {
    if Trim(message) == [] then Some(MessageRequired)
    else if |Trim(message)| < MinMessageLength then Some(MessageTooShort)
    else None
  }

  /** `errors[key] = e` when there is an error `e`. */
  function Put(errors: map<string, string>, key: string, e: Option<string>): (r: map<string, string>)
    ensures forall k :: k in r <==> (k == key && e.Some?) || k in errors
    ensures forall k :: k in r ==> r[k] == if k == key && e.Some? then e.value else errors[k]
  {
    if e.Some? then errors[key := e.value] else errors
  }

  /** The errors object built from the three fields' errors, in field order. */
  function ErrorsObject(name: Option<string>, email: Option<string>, message: Option<string>): map<string, string> {
    Put(Put(Put(map[], "name", name), "email", email), "message", message)
  }

  /** Each field name is a key of the errors object exactly when that field has an
      error, and its value is that error; no other key is set. */
  lemma ErrorsObjectFields(name: Option<string>, email: Option<string>, message: Option<string>)
    ensures ErrorsObject(name, email, message).Keys <= {"name", "email", "message"}
    ensures "name" in ErrorsObject(name, email, message) <==> name.Some?
    ensures "name" in ErrorsObject(name, email, message) ==> ErrorsObject(name, email, message)["name"] == name.value
    ensures "email" in ErrorsObject(name, email, message) <==> email.Some?
    ensures "email" in ErrorsObject(name, email, message) ==> ErrorsObject(name, email, message)["email"] == email.value
    ensures "message" in ErrorsObject(name, email, message) <==> message.Some?
    ensures "message" in ErrorsObject(name, email, message) ==> ErrorsObject(name, email, message)["message"] == message.value
  {
    assert "message" != "name" && "message" != "email" && "name" != "email";
  }

  /** `validateContactForm(form)`: one error per failing field, keyed by field
      name; the form is valid when no key was set. Name and message are measured
      after trimming; the email is required after trimming but checked untrimmed. */
  method ValidateContactForm(form: ContactForm) returns (isValid: bool, errors: map<string, string>)
    ensures errors.Keys <= {"name", "email", "message"}
    ensures "name" in errors <==> |Trim(form.name)| < MinNameLength
    ensures "name" in errors ==>
      errors["name"] == if Trim(form.name) == [] then NameRequired else NameTooShort
    ensures "email" in errors <==> Trim(form.email) == [] || !ValidateEmail(form.email)
    ensures "email" in errors ==>
      errors["email"] == if Trim(form.email) == [] then EmailRequired else EmailInvalid
    ensures "message" in errors <==> |Trim(form.message)| < MinMessageLength
    ensures "message" in errors ==>
      errors["message"] == if Trim(form.message) == [] then MessageRequired else MessageTooShort
    ensures isValid <==> |errors| == 0
    ensures isValid <==> |Trim(form.name)| >= MinNameLength && ValidateEmail(form.email)
                         && |Trim(form.message)| >= MinMessageLength
  {
    var nameError, emailError, messageError := NameError(form.name), EmailError(form.email), MessageError(form.message);
    errors := ErrorsObject(nameError, emailError, messageError);
    ErrorsObjectFields(nameError, emailError, messageError);
    NoErrorsIffNoKeys(errors);
    isValid := |errors| == 0;
  }

  /** A map over the three field names is empty exactly when none of them is a
      key. */
  lemma NoErrorsIffNoKeys(errors: map<string, string>)
    requires errors.Keys <= {"name", "email", "message"}
    ensures |errors| == 0 <==> "name" !in errors && "email" !in errors && "message" !in errors
  {
    if "name" !in errors && "email" !in errors && "message" !in errors {
      assert errors.Keys == {};
    }
  }
}
