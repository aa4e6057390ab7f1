/**
 * The sign-up form's schema: a name of at least two characters, an email
 * address, a password and its confirmation of at least eight characters
 * each, and an object-level refine that reports "Passwords don't match" on the
 * confirmation when the two passwords differ. zod's email check is a library
 * regular expression the model takes as the parameter `isEmail`.
 */
module Register {
  import opened Schema
  import opened Seqs

  datatype RegisterField = Name | Email | Password | ConfirmPassword

  const Fields := [Name, Email, Password, ConfirmPassword]

  datatype RegisterForm = RegisterForm(name: string, email: string, password: string, confirmPassword: string)

  /** The form's defaults. */
  const DefaultForm := RegisterForm("", "", "", "")

  /** The messages the schema reports; `MessageText` gives each one's wording. */
  datatype RegisterMessage = NameTooShort | InvalidEmail | PasswordTooShort | ConfirmRequired | Mismatch

  type RegisterIssue = Issue<RegisterField, RegisterMessage>

  function MessageText(m: RegisterMessage): string {
    match m
    case NameTooShort => "Name must be at least 2 characters"
    case InvalidEmail => "Please enter a valid email address"
    case PasswordTooShort => "Password must be at least 8 characters"
    case ConfirmRequired => "Please confirm your password"
    case Mismatch => "Passwords don't match"
  }

  /** The rule each field must satisfy on its own. */
  predicate Rule(v: RegisterForm, isEmail: string -> bool, f: RegisterField) {
    match f
    case Name => |v.name| >= 2
    case Email => isEmail(v.email)
    case Password => |v.password| >= 8
    case ConfirmPassword => |v.confirmPassword| >= 8
  }

  /** The message of each field's own rule. */
  function Message(f: RegisterField): RegisterMessage {
    match f
    case Name => NameTooShort
    case Email => InvalidEmail
    case Password => PasswordTooShort
    case ConfirmPassword => ConfirmRequired
  }

  function FieldIssues(v: RegisterForm, isEmail: string -> bool, f: RegisterField): (r: seq<RegisterIssue>)
    ensures r == [] <==> Rule(v, isEmail, f)
    ensures r == [] || r == [Issue(f, Message(f))]
    ensures ReportsOn(r, f)
  {
    match f
    case Name => MinLength(f, v.name, 2, Message(f))
    case Email => Check(isEmail(v.email), f, Message(f))
    case Password => MinLength(f, v.password, 8, Message(f))
    case ConfirmPassword => MinLength(f, v.confirmPassword, 8, Message(f))
  }

  function FieldCheck(v: RegisterForm, isEmail: string -> bool): RegisterField -> seq<RegisterIssue> {
    (f: RegisterField) => FieldIssues(v, isEmail, f)
  }

  lemma InFields(f: RegisterField)
    ensures f in Fields
  {
    match f
    case Name => assert Fields[0] == f;
    case Email => assert Fields[1] == f;
    case Password => assert Fields[2] == f;
    case ConfirmPassword => assert Fields[3] == f;
  }

  lemma FieldsReport(v: RegisterForm, isEmail: string -> bool)
    ensures forall f :: f in Paths(IssuesOver(Fields, FieldCheck(v, isEmail))) <==> !Rule(v, isEmail, f)
    ensures IssuesOver(Fields, FieldCheck(v, isEmail)) == [] <==> forall f :: Rule(v, isEmail, f)
  {
    PathsOver(Fields, FieldCheck(v, isEmail));
    forall f
      ensures f in Fields && (FieldCheck(v, isEmail)(f) == [] <==> Rule(v, isEmail, f))
    {
      InFields(f);
    }
  }

  /** No field rule reports the refine's message. */
  lemma FieldsAvoidMismatch(v: RegisterForm, isEmail: string -> bool)
    ensures forall f, i :: f in Fields && i in FieldCheck(v, isEmail)(f) ==> i.message != Mismatch
  {
    forall f, i | i in FieldCheck(v, isEmail)(f)
      ensures i.message != Mismatch
    {
      assert i == Issue(f, Message(f));
    }
  }

  /** `formSchema`'s issues: the field issues in field order, then the
      refine's. A field carries an issue exactly when its rule fails, and the
      confirmation also when the passwords differ; the form is accepted
      exactly when every rule holds and the passwords are equal; the mismatch
      issue is reported exactly when the passwords differ, whatever else fails. */
  function Issues(v: RegisterForm, isEmail: string -> bool): (r: seq<RegisterIssue>)
    ensures forall f :: f in Paths(r) <==>
      !Rule(v, isEmail, f) || (f == ConfirmPassword && v.password != v.confirmPassword)
    ensures r == [] <==> (forall f :: Rule(v, isEmail, f)) && v.password == v.confirmPassword
    ensures Issue(ConfirmPassword, Mismatch) in r <==> v.password != v.confirmPassword
  {
    var fieldIssues := IssuesOver(Fields, FieldCheck(v, isEmail));
    var refine := Check(v.password == v.confirmPassword, ConfirmPassword, Mismatch);
    FieldsReport(v, isEmail);
    FieldsAvoidMismatch(v, isEmail);
    PathsConcat(fieldIssues, refine);
    PathsOfReport(refine, ConfirmPassword);
    RefineReported(Fields, FieldCheck(v, isEmail), v.password == v.confirmPassword, ConfirmPassword, Mismatch);
    fieldIssues + refine
  }

  predicate OffEmail(i: RegisterIssue) { i.path != Email }

  /** The issues that do not concern the email field, written without it. */
  function OtherIssues(v: RegisterForm): seq<RegisterIssue> {
    MinLength(Name, v.name, 2, Message(Name))
      + (MinLength(Password, v.password, 8, Message(Password))
         + MinLength(ConfirmPassword, v.confirmPassword, 8, Message(ConfirmPassword))
         + Check(v.password == v.confirmPassword, ConfirmPassword, Mismatch))
  }

  /** Leaving out the email field's issue, the issues are those of the other
      rules, whatever the email check decides. */
  lemma EmailIndependent(v: RegisterForm, isEmail: string -> bool)
    ensures Filter(Issues(v, isEmail), OffEmail) == OtherIssues(v)
  {
    var c := FieldCheck(v, isEmail);
    var rest := c(Password) + c(ConfirmPassword) + Check(v.password == v.confirmPassword, ConfirmPassword, Mismatch);
    IssuesShape(v, isEmail);
    FilterConcat(c(Name) + c(Email), rest, OffEmail);
    FilterConcat(c(Name), c(Email), OffEmail);
    FilterAll(c(Name), OffEmail);
    FilterAll(rest, OffEmail);
    assert Filter(c(Email), OffEmail) == [];
    assert c(Name) + [] == c(Name);
  }

  /** The issue list split at the email field, with the other parts in the
      form `OtherIssues` writes them. */
  lemma IssuesShape(v: RegisterForm, isEmail: string -> bool)
    ensures var c := FieldCheck(v, isEmail);
      && Issues(v, isEmail) == (c(Name) + c(Email))
           + (c(Password) + c(ConfirmPassword) + Check(v.password == v.confirmPassword, ConfirmPassword, Mismatch))
      && OtherIssues(v) == c(Name)
           + (c(Password) + c(ConfirmPassword) + Check(v.password == v.confirmPassword, ConfirmPassword, Mismatch))
  {
    var c := FieldCheck(v, isEmail);
    var name, email, password, confirm := c(Name), c(Email), c(Password), c(ConfirmPassword);
    var refine := Check(v.password == v.confirmPassword, ConfirmPassword, Mismatch);
    FieldsInOrder(c);
    assert name + (email + (password + confirm)) + refine == (name + email) + (password + confirm + refine);
  }

  lemma FieldsInOrder(c: RegisterField -> seq<RegisterIssue>)
    ensures IssuesOver(Fields, c) == c(Name) + (c(Email) + (c(Password) + c(ConfirmPassword)))
  {
    assert Fields[1..] == [Email, Password, ConfirmPassword];
    assert Fields[1..][1..] == [Password, ConfirmPassword];
    assert Fields[1..][1..][1..] == [ConfirmPassword];
    assert c(ConfirmPassword) + [] == c(ConfirmPassword);
  }

  /** Hence the issues off the email field are the same under any two email checks. */
  lemma EmailCheckSeparate(v: RegisterForm, isEmail: string -> bool, isEmail': string -> bool)
    ensures Filter(Issues(v, isEmail), OffEmail) == Filter(Issues(v, isEmail'), OffEmail)
  {
    EmailIndependent(v, isEmail);
    EmailIndependent(v, isEmail');
  }
}
