/** The submit check of the contact form (script.js lines 223-266). The
    form is given as the values of its `[required]` fields, in document
    order, and the values of the `#email` and `#phone` fields, `None` when
    the page has no such field. */
module ContactForm {
  import opened Options
  import opened Text
  import opened Email
  import opened Phone

  const RequiredFieldsMessage: string := "Please fill in all required fields marked with *."
  const EmailMessage: string := "Please enter a valid email address."
  const PhoneMessage: string := "Please enter a valid phone number (10-15 digits)."

  /** `!field.value.trim()`: the value is empty or all whitespace. */
  predicate IsBlank(value: string)
    ensures IsBlank(value) <==> AllSpace(value)
  {
    TrimEmptyIffAllSpace(value);
    Trim(value) == []
  }

  predicate SomeRequiredBlank(required: seq<string>)
  {
    exists i :: 0 <= i < |required| && IsBlank(required[i])
  }

  /** The e-mail check fails: the field exists, is not empty, and does not match. */
  predicate EmailRejected(email: Option<string>)
  {
    email.Some? && email.value != [] && !IsEmail(email.value)
  }

  /** The phone check fails: the field exists, is not empty, and does not match. */
  predicate PhoneRejected(phone: Option<string>)
  {
    phone.Some? && phone.value != [] && !MatchesPhonePattern(phone.value)
  }

  /** The message the form reports: that of the phone check if it fails,
      else that of the e-mail check, else that of the required fields,
      and none for a valid form. */
  function ExpectedMessage(required: seq<string>, email: Option<string>, phone: Option<string>): string
  {
    if PhoneRejected(phone) then PhoneMessage
    else if EmailRejected(email) then EmailMessage
    else if SomeRequiredBlank(required) then RequiredFieldsMessage
    else ""
  }

  /** The submit handler's checks, in the handler's order: every failing
      check clears `isValid` and overwrites `errorMessage`. */
  method Validate(required: seq<string>, email: Option<string>, phone: Option<string>)
    returns (isValid: bool, errorMessage: string)
    ensures isValid <==> !SomeRequiredBlank(required) && !EmailRejected(email) && !PhoneRejected(phone)
    ensures errorMessage == ExpectedMessage(required, email, phone)
    ensures isValid <==> errorMessage == ""
  {
    isValid := true;
    errorMessage := "";
    var i := 0;
    while i < |required|
      invariant 0 <= i <= |required|
      invariant isValid <==> forall k :: 0 <= k < i ==> !IsBlank(required[k])
      invariant errorMessage == if isValid then "" else RequiredFieldsMessage
    {
      if IsBlank(required[i]) {
        isValid := false;
        errorMessage := RequiredFieldsMessage;
      }
      i := i + 1;
    }
    if email.Some? && email.value != [] {
      if !IsEmail(email.value) {
        isValid := false;
        errorMessage := EmailMessage;
      }
    }
    if phone.Some? && phone.value != [] {
      if !MatchesPhonePattern(phone.value) {
        isValid := false;
        errorMessage := PhoneMessage;
      }
    }
  }

  /** The form is rejected exactly when a required field is all whitespace,
      a non-empty e-mail does not match `local@domain.tld`, or a non-empty
      phone is not 10 to 15 allowed characters. */
  lemma RejectedIff(required: seq<string>, email: Option<string>, phone: Option<string>)
    ensures ExpectedMessage(required, email, phone) != "" <==>
      (exists i :: 0 <= i < |required| && AllSpace(required[i])) ||
      (email.Some? && email.value != [] && !MatchesEmailPattern(email.value)) ||
      (phone.Some? && phone.value != [] &&
       !(MinPhoneLength <= |phone.value| <= MaxPhoneLength && AllPhoneChars(phone.value)))
  {
    forall i | 0 <= i < |required|
      ensures IsBlank(required[i]) <==> AllSpace(required[i])
    {
      TrimEmptyIffAllSpace(required[i]);
    }
    if email.Some? {
      IsEmailIffPattern(email.value);
    }
  }

  /** An empty e-mail or phone value is never checked against its pattern. */
  lemma EmptyValuesSkipFormatChecks(required: seq<string>)
    ensures ExpectedMessage(required, Some(""), Some("")) == ExpectedMessage(required, None, None)
    ensures ExpectedMessage(required, None, None) == (if SomeRequiredBlank(required) then RequiredFieldsMessage else "")
  {
  }

  /** A phone value the sanitiser produced fails the submit check exactly
      when it is non-empty and shorter than 10 characters. */
  lemma SanitizedPhoneRejectedIff(raw: string)
    ensures PhoneRejected(Some(Sanitize(raw))) <==> 0 < |Sanitize(raw)| < MinPhoneLength
  {
    SanitizedPhoneAcceptedIff(raw);
  }
}
