/**
 * The sign-in page: its schema, the lookup of the entered email among the
 * stored users, the password comparison, and the current user written to the
 * store without its password. zod's email check is the parameter `isEmail`.
 */
module Login {
  import opened Wrappers
  import opened Schema
  import opened Accounts

  datatype LoginField = Email | Password | RememberMe

  const Fields := [Email, Password, RememberMe]

  /** The form; `rememberMe` is an optional boolean. */
  datatype LoginForm = LoginForm(email: string, password: string, rememberMe: Option<bool>)

  /** The form's defaults. */
  const DefaultForm := LoginForm("", "", Some(false))

  /** The messages the schema reports; `MessageText` gives each one's wording. */
  datatype LoginMessage = InvalidEmail | PasswordTooShort

  function MessageText(m: LoginMessage): string {
    match m
    case InvalidEmail => "Please enter a valid email address"
    case PasswordTooShort => "Password must be at least 8 characters"
  }

  type LoginIssue = Issue<LoginField, LoginMessage>

  predicate Rule(v: LoginForm, isEmail: string -> bool, f: LoginField) {
    match f
    case Email => isEmail(v.email)
    case Password => |v.password| >= 8
    case RememberMe => true
  }

  function FieldIssues(v: LoginForm, isEmail: string -> bool, f: LoginField): (r: seq<LoginIssue>)
    ensures r == [] <==> Rule(v, isEmail, f)
    ensures ReportsOn(r, f)
  {
    match f
    case Email => Check(isEmail(v.email), f, InvalidEmail)
    case Password => MinLength(f, v.password, 8, PasswordTooShort)
    case RememberMe => []
  }

  function FieldCheck(v: LoginForm, isEmail: string -> bool): LoginField -> seq<LoginIssue> {
    (f: LoginField) => FieldIssues(v, isEmail, f)
  }

  lemma InFields(f: LoginField)
    ensures f in Fields
  {
    match f
    case Email => assert Fields[0] == f;
    case Password => assert Fields[1] == f;
    case RememberMe => assert Fields[2] == f;
  }

  /** `formSchema`'s issues: the form is accepted exactly when the email
      passes the email check and the password has at least eight characters;
      `rememberMe` never causes a rejection. */
  function Issues(v: LoginForm, isEmail: string -> bool): (r: seq<LoginIssue>)
    ensures forall f :: f in Paths(r) <==> !Rule(v, isEmail, f)
    ensures r == [] <==> isEmail(v.email) && |v.password| >= 8
    ensures RememberMe !in Paths(r)
  {
    PathsOver(Fields, FieldCheck(v, isEmail));
    forall f
      ensures f in Fields && (FieldCheck(v, isEmail)(f) == [] <==> Rule(v, isEmail, f))
    {
      InFields(f);
    }
    assert Rule(v, isEmail, Email) && Rule(v, isEmail, Password) ==> forall f :: Rule(v, isEmail, f);
    IssuesOver(Fields, FieldCheck(v, isEmail))
  }

  /** `u.email === email`: a record without an email never matches. */
  predicate HasEmail(user: UserRecord, email: string) {
    EmailKey in user && user[EmailKey] == email
  }

  /** `users.find(...)`: the position of the first stored user whose email is
      exactly the entered one. */
  function FindUser(users: seq<UserRecord>, email: string): (r: Option<nat>)
    ensures r.Some? ==> r.value < |users| && HasEmail(users[r.value], email)
    ensures r.Some? ==> forall j :: 0 <= j < r.value ==> !HasEmail(users[j], email)
    ensures r.None? <==> forall j :: 0 <= j < |users| ==> !HasEmail(users[j], email)
  {
    if users == [] then None
    else if HasEmail(users[0], email) then Some(0)
    else match FindUser(users[1..], email)
      case None => None
      case Some(i) => Some(i + 1)
  }

  function FoundUser(users: seq<UserRecord>, email: string): Option<UserRecord> {
    match FindUser(users, email)
    case None => None
    case Some(i) => Some(users[i])
  }

  /** `user && user.password === password`, and then `{ password, ...rest }`:
      the record to store as the current user, or none when the sign-in fails. */
  function Verdict(found: Option<UserRecord>, password: string): (r: Option<UserRecord>)
    ensures r.Some? <==> found.Some? && PasswordKey in found.value && found.value[PasswordKey] == password
    ensures r.Some? ==> PasswordKey !in r.value && r.value.Keys == found.value.Keys - {PasswordKey}
    ensures r.Some? ==> forall k :: k in r.value ==> r.value[k] == found.value[k]
  {
    if found.Some? && PasswordKey in found.value && found.value[PasswordKey] == password
    then Some(found.value - {PasswordKey})
    else None
  }

  /** The outcome of a sign-in attempt against the stored users. */
  function Authenticate(users: seq<UserRecord>, v: LoginForm): Option<UserRecord> {
    Verdict(FoundUser(users, v.email), v.password)
  }

  /** Sign-in succeeds exactly when some stored user has the entered email,
      and the first such user has the entered password; the stored record is
      that user without the password. */
  lemma AuthenticateIff(users: seq<UserRecord>, v: LoginForm)
    ensures Authenticate(users, v).Some? <==>
      exists i :: 0 <= i < |users| && HasEmail(users[i], v.email)
        && (forall j :: 0 <= j < i ==> !HasEmail(users[j], v.email))
        && PasswordKey in users[i] && users[i][PasswordKey] == v.password
    ensures Authenticate(users, v).Some? ==>
      Authenticate(users, v).value == users[FindUser(users, v.email).value] - {PasswordKey}
  {
    match FindUser(users, v.email)
    case None =>
    case Some(k) =>
      forall i | 0 <= i < |users| && HasEmail(users[i], v.email)
          && (forall j :: 0 <= j < i ==> !HasEmail(users[j], v.email))
        ensures i == k
      {
      }
  }

  /** Users stored after the first match play no part: a later record with the
      same email and the right password does not let a wrong password in. */
  lemma {:induction false} LaterDuplicateIgnored(users: seq<UserRecord>, later: seq<UserRecord>, v: LoginForm)
    requires FindUser(users, v.email).Some?
    ensures FindUser(users + later, v.email) == FindUser(users, v.email)
    ensures Authenticate(users + later, v) == Authenticate(users, v)
  {
    if !HasEmail(users[0], v.email) {
      assert (users + later)[1..] == users[1..] + later;
      LaterDuplicateIgnored(users[1..], later, v);
    }
  }

  /** An illustration of `LaterDuplicateIgnored` on two records: the first
      "a@x" record has password "secret12"; a second one with "other123" does
      not admit "other123". */
  lemma FirstMatchDecides()
    ensures var first := map[EmailKey := "a@x", PasswordKey := "secret12"];
            var second := map[EmailKey := "a@x", PasswordKey := "other123"];
            && Authenticate([first, second], LoginForm("a@x", "other123", None)) == None
            && Authenticate([first, second], LoginForm("a@x", "secret12", None)) == Some(map[EmailKey := "a@x"])
  {
    var first := map[EmailKey := "a@x", PasswordKey := "secret12"];
    var second := map[EmailKey := "a@x", PasswordKey := "other123"];
    assert HasEmail(first, "a@x");
    assert FindUser([first, second], "a@x") == Some(0);
    assert first - {PasswordKey} == map[EmailKey := "a@x"];
  }

  /** The sign-in page: the stored current user, whether a sign-in is in
      progress, and the user found and password entered when it began. */
  class LoginPage {
    var storedUser: Option<UserRecord>
    var isLoading: bool
    var found: Option<UserRecord>
    var entered: string

    constructor(stored: Option<UserRecord>)
      ensures storedUser == stored && !isLoading
    {
      storedUser := stored;
      isLoading := false;
      found := None;
      entered := "";
    }

    /** Submitting the form (the button is disabled while loading): values the
        schema rejects leave the page as it was; accepted ones start loading
        and look up the first user with the entered email. */
    method BeginSubmit(users: seq<UserRecord>, values: LoginForm, isEmail: string -> bool)
      returns (issues: seq<LoginIssue>)
      requires !isLoading
      modifies this
      ensures issues == Issues(values, isEmail)
      ensures issues == [] ==> isLoading && found == FoundUser(users, values.email) && entered == values.password
      ensures issues == [] ==> Verdict(found, entered) == Authenticate(users, values)
      ensures issues != [] ==> !isLoading && found == old(found) && entered == old(entered)
      ensures storedUser == old(storedUser)
    {
      issues := Issues(values, isEmail);
      if issues == [] {
        isLoading := true;
        found := FoundUser(users, values.email);
        entered := values.password;
      }
    }

    /** The delayed check: on success the found user, without its password,
        becomes the stored current user; on failure the store is not written.
        Loading ends either way. */
    method CompleteSubmit() returns (signedIn: bool)
      requires isLoading
      modifies this
      ensures signedIn <==> Verdict(old(found), old(entered)).Some?
      ensures storedUser == if signedIn then Verdict(old(found), old(entered)) else old(storedUser)
      ensures !isLoading && found == old(found) && entered == old(entered)
    {
      if found.Some? && PasswordKey in found.value && found.value[PasswordKey] == entered {
        var userData := found.value - {PasswordKey};
        storedUser := Some(userData);
        signedIn := true;
      } else {
        signedIn := false;
      }
      isLoading := false;
    }
  }
}
