/**
 * The account settings page: a profile form whose submission rewrites the
 * stored current user's name and email, and a password form whose successful
 * submission empties it again. zod's email check is the parameter `isEmail`.
 */
module DashboardSettings {
  import opened Wrappers
  import opened Schema
  import opened Accounts

  // ---------------------------------------------------------------- profile

  datatype ProfileField = Name | Email | Company | Website

  const ProfileFields := [Name, Email, Company, Website]

  /** The profile form; `company` and `website` are optional strings. */
  datatype ProfileForm = ProfileForm(name: string, email: string, company: Option<string>, website: Option<string>)

  /** The messages the two schemas report; `MessageText` gives each one's wording. */
  datatype SettingsMessage =
    | NameTooShort | InvalidEmail | CurrentRequired | PasswordTooShort | ConfirmRequired | Mismatch

  function MessageText(m: SettingsMessage): string {
    match m
    case NameTooShort => "Name must be at least 2 characters"
    case InvalidEmail => "Please enter a valid email address"
    case CurrentRequired => "Current password is required"
    case PasswordTooShort => "Password must be at least 8 characters"
    case ConfirmRequired => "Confirm password is required"
    case Mismatch => "Passwords don't match"
  }

  type ProfileIssue = Issue<ProfileField, SettingsMessage>

  predicate ProfileRule(v: ProfileForm, isEmail: string -> bool, f: ProfileField) {
    match f
    case Name => |v.name| >= 2
    case Email => isEmail(v.email)
    case Company => true
    case Website => true
  }

  function ProfileFieldIssues(v: ProfileForm, isEmail: string -> bool, f: ProfileField): (r: seq<ProfileIssue>)
    ensures r == [] <==> ProfileRule(v, isEmail, f)
    ensures ReportsOn(r, f)
  {
    match f
    case Name => MinLength(f, v.name, 2, NameTooShort)
    case Email => Check(isEmail(v.email), f, InvalidEmail)
    case Company => []
    case Website => []
  }

  function ProfileCheck(v: ProfileForm, isEmail: string -> bool): ProfileField -> seq<ProfileIssue> {
    (f: ProfileField) => ProfileFieldIssues(v, isEmail, f)
  }

  lemma InProfileFields(f: ProfileField)
    ensures f in ProfileFields
  {
    match f
    case Name => assert ProfileFields[0] == f;
    case Email => assert ProfileFields[1] == f;
    case Company => assert ProfileFields[2] == f;
    case Website => assert ProfileFields[3] == f;
  }

  /** `profileSchema`'s issues: a field carries an issue exactly when its rule
      fails, so the profile is accepted exactly when the name has at least
      two characters and the email passes the email check; the optional
      company and website never cause a rejection. */
  function ProfileIssues(v: ProfileForm, isEmail: string -> bool): (r: seq<ProfileIssue>)
    ensures forall f :: f in Paths(r) <==> !ProfileRule(v, isEmail, f)
    ensures r == [] <==> |v.name| >= 2 && isEmail(v.email)
    ensures Company !in Paths(r) && Website !in Paths(r)
  {
    PathsOver(ProfileFields, ProfileCheck(v, isEmail));
    forall f
      ensures f in ProfileFields && (ProfileCheck(v, isEmail)(f) == [] <==> ProfileRule(v, isEmail, f))
    {
      InProfileFields(f);
    }
    assert ProfileRule(v, isEmail, Name) && ProfileRule(v, isEmail, Email) ==> forall f :: ProfileRule(v, isEmail, f);
    IssuesOver(ProfileFields, ProfileCheck(v, isEmail))
  }

  /** `currentUser?.x || ''`: the stored field, or the empty string when there
      is no stored user or it lacks the field. */
  function StoredField(user: Option<UserRecord>, key: string): (r: string)
    ensures user.Some? && key in user.value ==> r == user.value[key]
    ensures user.None? || key !in user.value ==> r == ""
  {
    if user.Some? && key in user.value then user.value[key] else ""
  }

  /** The profile form's defaults: the stored name and email, empty company
      and website. For a stored user with a name and an email they are a
      fixed point of the update: saving them, whatever is typed into the
      company and website boxes, stores that user exactly as it was. */
  function ProfileDefaults(user: Option<UserRecord>): (r: ProfileForm)
    ensures r.name == StoredField(user, NameKey) && r.email == StoredField(user, EmailKey)
    ensures r.company == Some("") && r.website == Some("")
    ensures user.Some? && NameKey in user.value && EmailKey in user.value ==>
      forall company, website :: UpdatedUser(user, r.(company := company, website := website)) == user.value
  {
    if user.Some? && NameKey in user.value && EmailKey in user.value then
      StoredNameAndEmailKeepUser(user.value);
      ProfileForm(user.value[NameKey], user.value[EmailKey], Some(""), Some(""))
    else
      ProfileForm(StoredField(user, NameKey), StoredField(user, EmailKey), Some(""), Some(""))
  }

  /** `{ ...currentUser, name, email }`: the stored user (none spreads as the
      empty object) with the name and email replaced. Every other field is
      kept, and the submitted company and website are not written. */
  function UpdatedUser(user: Option<UserRecord>, v: ProfileForm): (r: UserRecord)
    ensures r.Keys == (if user.Some? then user.value.Keys else {}) + {NameKey, EmailKey}
    ensures r[NameKey] == v.name && r[EmailKey] == v.email
    ensures user.Some? ==> forall k :: k in user.value && k != NameKey && k != EmailKey ==> r[k] == user.value[k]
    ensures user.None? ==> r.Keys == {NameKey, EmailKey}
  {
    var base := if user.Some? then user.value else map[];
    base[NameKey := v.name][EmailKey := v.email]
  }

  /** Of two saves, the later one alone decides the stored user: the earlier
      save's name and email are overwritten and it adds no other field. So
      whether the page re-reads the store between saves makes no difference,
      and saving the same profile twice stores what saving it once does. */
  lemma LastSaveDecides(user: Option<UserRecord>, first: ProfileForm, second: ProfileForm)
    ensures UpdatedUser(Some(UpdatedUser(user, first)), second) == UpdatedUser(user, second)
  {
    var twice := UpdatedUser(Some(UpdatedUser(user, first)), second);
    var once := UpdatedUser(user, second);
    assert twice.Keys == once.Keys;
    forall k | k in once
      ensures twice[k] == once[k]
    {
    }
  }

  /** Writing back a user's own name and email leaves it as it was. */
  lemma StoredNameAndEmailKeepUser(user: UserRecord)
    requires NameKey in user && EmailKey in user
    ensures forall company, website ::
      UpdatedUser(Some(user), ProfileForm(user[NameKey], user[EmailKey], company, website)) == user
  {
    forall company, website
      ensures UpdatedUser(Some(user), ProfileForm(user[NameKey], user[EmailKey], company, website)) == user
    {
      var r := UpdatedUser(Some(user), ProfileForm(user[NameKey], user[EmailKey], company, website));
      assert r.Keys == user.Keys;
      forall k | k in user
        ensures r[k] == user[k]
      {
      }
    }
  }

  // --------------------------------------------------------------- password

  datatype PasswordField = CurrentPassword | NewPassword | ConfirmPassword

  const PasswordFields := [CurrentPassword, NewPassword, ConfirmPassword]

  datatype PasswordForm = PasswordForm(currentPassword: string, newPassword: string, confirmPassword: string)

  /** The password form's defaults, to which a successful submission resets it. */
  const EmptyPasswordForm := PasswordForm("", "", "")

  type PasswordIssue = Issue<PasswordField, SettingsMessage>

  predicate PasswordRule(v: PasswordForm, f: PasswordField) {
    match f
    case CurrentPassword => |v.currentPassword| >= 1
    case NewPassword => |v.newPassword| >= 8
    case ConfirmPassword => |v.confirmPassword| >= 8
  }

  /** The message of each field's own rule. */
  function PasswordMessage(f: PasswordField): SettingsMessage {
    match f
    case CurrentPassword => CurrentRequired
    case NewPassword => PasswordTooShort
    case ConfirmPassword => ConfirmRequired
  }

  function PasswordFieldIssues(v: PasswordForm, f: PasswordField): (r: seq<PasswordIssue>)
    ensures r == [] <==> PasswordRule(v, f)
    ensures r == [] || r == [Issue(f, PasswordMessage(f))]
    ensures ReportsOn(r, f)
  {
    match f
    case CurrentPassword => MinLength(f, v.currentPassword, 1, PasswordMessage(f))
    case NewPassword => MinLength(f, v.newPassword, 8, PasswordMessage(f))
    case ConfirmPassword => MinLength(f, v.confirmPassword, 8, PasswordMessage(f))
  }

  function PasswordCheck(v: PasswordForm): PasswordField -> seq<PasswordIssue> {
    (f: PasswordField) => PasswordFieldIssues(v, f)
  }

  lemma InPasswordFields(f: PasswordField)
    ensures f in PasswordFields
  {
    match f
    case CurrentPassword => assert PasswordFields[0] == f;
    case NewPassword => assert PasswordFields[1] == f;
    case ConfirmPassword => assert PasswordFields[2] == f;
  }

  lemma PasswordFieldsReport(v: PasswordForm)
    ensures forall f :: f in Paths(IssuesOver(PasswordFields, PasswordCheck(v))) <==> !PasswordRule(v, f)
    ensures IssuesOver(PasswordFields, PasswordCheck(v)) == [] <==> forall f :: PasswordRule(v, f)
  {
    PathsOver(PasswordFields, PasswordCheck(v));
    forall f
      ensures f in PasswordFields && (PasswordCheck(v)(f) == [] <==> PasswordRule(v, f))
    {
      InPasswordFields(f);
    }
  }

  /** No field rule of the password form reports the refine's message. */
  lemma PasswordFieldsAvoidMismatch(v: PasswordForm)
    ensures forall f, i :: f in PasswordFields && i in PasswordCheck(v)(f) ==> i.message != Mismatch
  {
    forall f, i | i in PasswordCheck(v)(f)
      ensures i.message != Mismatch
    {
      assert i == Issue(f, PasswordMessage(f));
    }
  }

  /** `passwordSchema`'s issues: the field issues in field order, then the
      refine's. The form is accepted exactly when the current password is
      non-empty, the new password and its confirmation have at least eight
      characters and are equal; the mismatch is reported on the confirmation
      exactly when the two differ. */
  function PasswordIssues(v: PasswordForm): (r: seq<PasswordIssue>)
    ensures forall f :: f in Paths(r) <==>
      !PasswordRule(v, f) || (f == ConfirmPassword && v.newPassword != v.confirmPassword)
    ensures r == [] <==> |v.currentPassword| >= 1 && |v.newPassword| >= 8 && |v.confirmPassword| >= 8
                         && v.newPassword == v.confirmPassword
    ensures Issue(ConfirmPassword, Mismatch) in r <==> v.newPassword != v.confirmPassword
  {
    var fieldIssues := IssuesOver(PasswordFields, PasswordCheck(v));
    var refine := Check(v.newPassword == v.confirmPassword, ConfirmPassword, Mismatch);
    PasswordFieldsReport(v);
    PasswordFieldsAvoidMismatch(v);
    PathsConcat(fieldIssues, refine);
    PathsOfReport(refine, ConfirmPassword);
    RefineReported(PasswordFields, PasswordCheck(v), v.newPassword == v.confirmPassword, ConfirmPassword, Mismatch);
    assert PasswordRule(v, CurrentPassword) && PasswordRule(v, NewPassword) && PasswordRule(v, ConfirmPassword)
      ==> forall f :: PasswordRule(v, f);
    fieldIssues + refine
  }

  /** The empty form that a reset restores is itself rejected, on every field. */
  lemma EmptyPasswordFormRejected()
    ensures Paths(PasswordIssues(EmptyPasswordForm)) == {CurrentPassword, NewPassword, ConfirmPassword}
  {
    var r := PasswordIssues(EmptyPasswordForm);
    forall f
      ensures f in Paths(r) <==> f in {CurrentPassword, NewPassword, ConfirmPassword}
    {
      assert !PasswordRule(EmptyPasswordForm, f);
    }
  }

  // ------------------------------------------------------------------- page

  /** The page's state: the stored current user, the user the page read from
      the store when it rendered, and the two forms' values. */
  class SettingsPage {
    var storedUser: Option<UserRecord>
    var currentUser: Option<UserRecord>
    var profileForm: ProfileForm
    var passwordForm: PasswordForm

    /** The page renders from the store: both forms start at their defaults. */
    constructor(stored: Option<UserRecord>)
      ensures storedUser == stored && currentUser == stored
      ensures profileForm == ProfileDefaults(stored)
      ensures passwordForm == EmptyPasswordForm
    {
      storedUser := stored;
      currentUser := stored;
      profileForm := ProfileDefaults(stored);
      passwordForm := EmptyPasswordForm;
    }

    method EnterProfile(values: ProfileForm)
      modifies this
      ensures profileForm == values
      ensures storedUser == old(storedUser) && currentUser == old(currentUser)
      ensures passwordForm == old(passwordForm)
    {
      profileForm := values;
    }

    method EnterPasswords(values: PasswordForm)
      modifies this
      ensures passwordForm == values
      ensures storedUser == old(storedUser) && currentUser == old(currentUser)
      ensures profileForm == old(profileForm)
    {
      passwordForm := values;
    }

    /** Submitting the profile: when the schema accepts the values, the store
        receives the page's current user with the new name and email;
        otherwise the issues are returned and nothing is stored. */
    method SubmitProfile(isEmail: string -> bool) returns (issues: seq<ProfileIssue>)
      modifies this
      ensures issues == ProfileIssues(profileForm, isEmail)
      ensures issues == [] ==> storedUser == Some(UpdatedUser(currentUser, profileForm))
      ensures issues != [] ==> storedUser == old(storedUser)
      ensures currentUser == old(currentUser) && profileForm == old(profileForm)
      ensures passwordForm == old(passwordForm)
    {
      issues := ProfileIssues(profileForm, isEmail);
      if issues == [] {
        storedUser := Some(UpdatedUser(currentUser, profileForm));
      }
    }

    /** Submitting the password form: when the schema accepts it the form is
        reset to its empty defaults; no stored record changes either way. */
    method SubmitPassword() returns (issues: seq<PasswordIssue>)
      modifies this
      ensures issues == PasswordIssues(old(passwordForm))
      ensures passwordForm == if issues == [] then EmptyPasswordForm else old(passwordForm)
      ensures storedUser == old(storedUser) && currentUser == old(currentUser)
      ensures profileForm == old(profileForm)
    {
      issues := PasswordIssues(passwordForm);
      if issues == [] {
        passwordForm := EmptyPasswordForm;
      }
    }
  }
}
