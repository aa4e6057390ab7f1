/**
 * The attendee registration form: five text inputs, a dictionary of
 * per-field error messages and a "submitting" flag. Typing into a field
 * replaces that field's value and clears that field's error; submitting
 * validates the form and either stores the errors or starts the (simulated)
 * submission.
 */
module EventRegistration {
  import opened Text
  import opened Wrappers

  datatype Field = FirstName | LastName | Email | Phone | Organization

  const AllFields: set<Field> := {FirstName, LastName, Email, Phone, Organization}

  /** The fields that can carry an error. */
  const Required: set<Field> := {FirstName, LastName, Email, Phone}

  /** The messages `validate` stores; `MessageText` gives each one's wording. */
  datatype ErrorMessage = FirstNameRequired | LastNameRequired | EmailRequired | EmailInvalid | PhoneRequired

  function MessageText(m: ErrorMessage): (r: string)
    ensures r != ""
  {
    match m
    case FirstNameRequired => "First name is required"
    case LastNameRequired => "Last name is required"
    case EmailRequired => "Email is required"
    case EmailInvalid => "Email is invalid"
    case PhoneRequired => "Phone number is required"
  }

  /** The unanchored test `/\S+@\S+\.\S+/.test(s)`: somewhere in `s` an `@`
      follows a non-white-space character, and after it, past at least one
      further non-white-space character and with only non-white-space in
      between, comes a `.` that a non-white-space character follows. */
  predicate EmailPattern(s: string) {
    exists atSign, dot | 1 <= atSign < |s| && 0 <= dot < |s| :: EmailMatchAt(s, atSign, dot)
  }

  predicate EmailMatchAt(s: string, atSign: int, dot: int) {
    && 1 <= atSign && atSign + 2 <= dot && dot + 1 < |s|
    && s[atSign] == '@' && s[dot] == '.'
    && !IsWhiteSpace(s[atSign - 1]) && !IsWhiteSpace(s[dot + 1])
    && NoWhiteSpace(s, atSign + 1, dot)
  }

  predicate NoWhiteSpace(s: string, lo: int, hi: int)
    requires 0 <= lo <= hi <= |s|
  {
    forall k :: lo <= k < hi ==> !IsWhiteSpace(s[k])
  }

  /** The test is not anchored: text around a matching address does not matter. */
  lemma EmailPatternUnanchored(s: string, before: string, after: string)
    requires EmailPattern(s)
    ensures EmailPattern(before + s + after)
  {
    var atSign, dot :| EmailMatchAt(s, atSign, dot);
    assert EmailMatchAt(s, atSign, dot);
    assert 1 <= atSign;
    var t, n := before + s + after, |before|;
    assert |t| == |before| + |s| + |after|;
    forall k | 0 <= k < |s|
      ensures t[n + k] == s[k]
    {
      assert t == before + (s + after);
    }
    assert NoWhiteSpace(t, n + atSign + 1, n + dot) by {
      forall k | n + atSign + 1 <= k < n + dot ensures !IsWhiteSpace(t[k]) {
        assert t[k] == s[k - n];
      }
    }
    assert t[n + atSign] == s[atSign] && t[n + dot] == s[dot];
    assert t[n + atSign - 1] == s[atSign - 1] && t[n + dot + 1] == s[dot + 1];
    assert EmailMatchAt(t, n + atSign, n + dot);
  }

  /** The error, if any, that `validate` records for one field. */
  function FieldError(data: map<Field, string>, f: Field): Option<ErrorMessage>
    requires f in data
  {
    if f == Email then
      if data[f] == "" then Some(EmailRequired)
      else if !EmailPattern(data[f]) then Some(EmailInvalid)
      else None
    else if f == Organization || data[f] != "" then None
    else Some(RequiredMessage(f))
  }

  function RequiredMessage(f: Field): ErrorMessage
    requires f != Organization
  {
    match f
    case FirstName => FirstNameRequired
    case LastName => LastNameRequired
    case Email => EmailRequired
    case Phone => PhoneRequired
  }

  /** The error dictionary `validate` returns for `data`: the result of its
      four conditional assignments, one per field that can have an error. */
  function Errors(data: map<Field, string>): (r: map<Field, ErrorMessage>)
    requires AllFields <= data.Keys
    ensures r.Keys <= Required
  {
    Record(Record(Record(Record(map[], data, FirstName), data, LastName), data, Email), data, Phone)
  }

  /** Each field is in the dictionary exactly when it has an error, and then
      with that error. */
  lemma ErrorsByField(data: map<Field, string>, f: Field)
    requires AllFields <= data.Keys
    ensures f in Errors(data) <==> FieldError(data, f).Some?
    ensures f in Errors(data) ==> Errors(data)[f] == FieldError(data, f).value
  {
    var r1 := Record(map[], data, FirstName);
    var r2 := Record(r1, data, LastName);
    var r3 := Record(r2, data, Email);
    assert f in data;
  }

  /** What the dictionary says: the organisation never has an error; the
      name and phone fields have one exactly when empty, and the email field
      exactly when it does not match the pattern, with "required" for an empty
      email and "invalid" otherwise. */
  lemma ErrorMessages(data: map<Field, string>)
    requires AllFields <= data.Keys
    ensures Organization !in Errors(data)
    ensures forall f :: f in Required - {Email} ==> (f in Errors(data) <==> data[f] == "")
    ensures Email in Errors(data) <==> !EmailPattern(data[Email])
    ensures data[Email] == "" ==> Errors(data)[Email] == EmailRequired
    ensures data[Email] != "" && Email in Errors(data) ==> Errors(data)[Email] == EmailInvalid
  {
    EmptyIsNoEmail(data[Email]);
    ErrorsByField(data, FirstName);
    ErrorsByField(data, LastName);
    ErrorsByField(data, Email);
    ErrorsByField(data, Phone);
    ErrorsByField(data, Organization);
  }

  /** The empty string never matches the pattern. */
  lemma EmptyIsNoEmail(s: string)
    ensures s == "" ==> !EmailPattern(s)
  {
  }

  /** The form passes validation exactly when the first name, last name and
      phone are non-empty and the email matches the pattern. */
  lemma ErrorsEmptyIff(data: map<Field, string>)
    requires AllFields <= data.Keys
    ensures Errors(data) == map[] <==>
      data[FirstName] != "" && data[LastName] != "" && data[Phone] != "" && EmailPattern(data[Email])
  {
    var r := Errors(data);
    ErrorMessages(data);
    if r != map[] {
      var f :| f in r;
    }
  }

  /** One conditional assignment of `validate`: records `f`'s error, if any. */
  function Record(errors: map<Field, ErrorMessage>, data: map<Field, string>, f: Field): (r: map<Field, ErrorMessage>)
    requires f in data
    ensures r.Keys == if FieldError(data, f).Some? then errors.Keys + {f} else errors.Keys
    ensures forall g :: g in errors && g != f ==> r[g] == errors[g]
    ensures FieldError(data, f).Some? ==> r[f] == FieldError(data, f).value
  {
    if FieldError(data, f).Some? then errors[f := FieldError(data, f).value] else errors
  }

  /** `validate`'s assignment for a field that is only required. */
  lemma RequiredStep(errors: map<Field, ErrorMessage>, data: map<Field, string>, f: Field)
    requires f in data && f != Email && f != Organization
    ensures Record(errors, data, f) == if data[f] == "" then errors[f := RequiredMessage(f)] else errors
  {
  }

  /** `validate`'s assignment for the email field. */
  lemma EmailStep(errors: map<Field, ErrorMessage>, data: map<Field, string>)
    requires Email in data
    ensures Record(errors, data, Email) ==
      if data[Email] == "" then errors[Email := EmailRequired]
      else if !EmailPattern(data[Email]) then errors[Email := EmailInvalid]
      else errors
  {
  }

  /** `Object.keys(errors).length > 0` tests for a non-empty dictionary. */
  lemma NonEmptySize(errors: map<Field, ErrorMessage>)
    ensures |errors| > 0 <==> errors != map[]
  {
    if errors != map[] {
      var f :| f in errors;
      assert f in errors.Keys;
    }
  }

  class RegistrationForm {
    var formData: map<Field, string>
    var errors: map<Field, ErrorMessage>
    var isSubmitting: bool

    /** Every input has a value. */
    ghost predicate Valid()
      reads this
    {
      formData.Keys == AllFields
    }

    constructor ()
      ensures Valid()
      ensures formData == map f | f in AllFields :: ""
      ensures errors == map[] && !isSubmitting
    {
      formData := map f | f in AllFields :: "";
      errors := map[];
      isSubmitting := false;
    }

    /** `validate`: builds the error dictionary by conditional assignments. */
    method Validate() returns (newErrors: map<Field, ErrorMessage>)
      requires Valid()
      ensures newErrors == Errors(formData)
    {
      newErrors := map[];
      RequiredStep(newErrors, formData, FirstName);
      if formData[FirstName] == "" { newErrors := newErrors[FirstName := FirstNameRequired]; }
      RequiredStep(newErrors, formData, LastName);
      if formData[LastName] == "" { newErrors := newErrors[LastName := LastNameRequired]; }
      EmailStep(newErrors, formData);
      if formData[Email] == "" {
        newErrors := newErrors[Email := EmailRequired];
      } else if !EmailPattern(formData[Email]) {
        newErrors := newErrors[Email := EmailInvalid];
      }
      RequiredStep(newErrors, formData, Phone);
      if formData[Phone] == "" { newErrors := newErrors[Phone := PhoneRequired]; }
    }

    /** `handleChange`: sets the named field and drops that field's error. */
    method HandleChange(name: Field, value: string)
      requires Valid()
      modifies this
      ensures Valid()
      ensures formData == old(formData)[name := value]
      ensures errors == old(errors) - {name}
      ensures isSubmitting == old(isSubmitting)
    {
      formData := formData[name := value];
      // Every message is non-empty, so the truthiness test on the stored
      // error is a membership test.
      if name in errors && MessageText(errors[name]) != "" {
        errors := errors - {name};
      }
    }

    /** `handleSubmit`: a failed validation stores the errors and stops;
        otherwise the submission starts (earlier errors stay as they were). */
    method HandleSubmit()
      requires Valid()
      modifies this
      ensures Valid()
      ensures formData == old(formData)
      ensures var found := Errors(old(formData));
        if found != map[] then errors == found && isSubmitting == old(isSubmitting)
        else errors == old(errors) && isSubmitting
    {
      var newErrors := Validate();
      NonEmptySize(newErrors);
      if |newErrors| > 0 {
        errors := newErrors;
        return;
      }
      isSubmitting := true;
    }

    /** The end of the simulated request: the flag drops back. */
    method SubmissionFinished()
      requires Valid()
      modifies this
      ensures Valid()
      ensures formData == old(formData) && errors == old(errors) && !isSubmitting
    {
      isSubmitting := false;
    }
  }
}
