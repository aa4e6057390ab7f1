# Eventia pages: the rules behind the forms and lists

A Dafny model of the logic found in the React pages of the Eventia front end.
The pages keep their data in hard-coded samples and in the browser store, so
the modellable logic is a set of rules embedded in components:

- **Conference programme** (`EventProgram`). The search, category and day
  filters over the sessions; the de-duplicated day and category lists; the
  per-day grouping; each day's sort by start time; and the "Clear filters"
  button. The three filter values are the state of the `ProgramView` class.
- **Attendee registration** (`EventRegistration`). The validator and the
  error dictionary it stores. The `RegistrationForm` class holds the form
  values, the error map and the submitting flag, and its methods update them.
- **Event detail** (`EventDetail`). The attendee status colours, the event
  status badge, the capitalised labels and the "Quick Stats" tallies.
- **Event forms**:
  - the edit form's schema (`EditEvent`);
  - the create form's schema (`CreateEvent`), including the capacity
    conversion `parseInt(val, 10) || 0`. `parseInt` is modelled after
    section 19.2.5 of ECMA-262: skip white space, read an optional sign, then
    the longest run of decimal digits.
- **Account forms**:
  - the sign-up schema with its password-match refine (`Register`);
  - the settings page's profile and password schemas, the stored-user update
    and the password form reset (`DashboardSettings`);
  - the sign-in schema, the first-match lookup of the stored users and the
    password-free record written on success (`Login`).

zod's object schemas are modelled in `Schema`:

- each field rule yields at most one issue, on that field's path;
- issues come in field order, followed by the issue of an object-level
  `refine`;
- a value is accepted when there are no issues.

Each form has its own message datatype, and its `MessageText` function gives
the exact wording of each message. `Seqs` holds `filter`, the
first-occurrence de-duplication of `Array.from(new Set(xs))` and the notions
used to state them. `Text` holds the ASCII case maps, `includes`, the
capitalised-label idiom and the string order used for sorting.

The code does not check the following, and the model does not either:

- Nothing checks that the end time follows the start time (`EditEvent.LooseRules`).
- The created event's capacity has no lower bound (`CreateEvent.CapacityUnbounded`).
- The edit form accepts any of the four statuses whatever the current one is.
  There is no status state machine.
- The programme search covers titles, descriptions and speakers, not locations.
- The registration form requires a phone number.
- Stored users with the same email are not rejected; sign-in uses the first
  one (`Login.LaterDuplicateIgnored`).
- There is no capacity ledger and no register or cancel operation, so none is
  modelled.

## Model

| member | source | states |
|---|---|---|
| Seqs.Filter | src/pages/EventProgram.tsx:139-148 | `filter` keeps only elements that satisfy the predicate and never grows the list |
| Seqs.FilterCount | src/pages/EventProgram.tsx:139-148 | every occurrence of a value is kept by `filter` exactly when it satisfies the predicate |
| Seqs.FilterIsSubsequence | src/pages/EventProgram.tsx:139-148 | the result of `filter` is picked out of its input by strictly increasing positions |
| Seqs.Distinct | src/pages/EventProgram.tsx:133 | `Array.from(new Set(s))` holds no duplicates and exactly the values of `s` |
| Seqs.DistinctFirstOccurrenceOrder | src/pages/EventProgram.tsx:133-136 | the de-duplicated values come in the order of their first occurrence |
| Text.ToLower | src/pages/EventProgram.tsx:140-142 | `toLowerCase` keeps the length and lower-cases each ASCII capital, leaving every other character |
| Text.Capitalize | src/pages/EventDetail.tsx:167 | the label keeps the length, upper-cases only the first character, keeps the rest and maps `''` to `''` |
| Text.LexLeqTotal | src/pages/EventProgram.tsx:253 | any two start times are comparable in the sort's string order |
| Text.LexLeqTransitive | src/pages/EventProgram.tsx:253 | the sort's string order is transitive |
| Text.LexLeqAntisymmetric | src/pages/EventProgram.tsx:253 | two start times each no later than the other are equal |
| EventProgram.FilteredEvents | src/pages/EventProgram.tsx:139-148 | the shown sessions are a subsequence of `events`; a session is kept, as often as it occurs, exactly when it `Matches`: `MatchesSearch` holds, i.e. the lower-cased search term occurs in its title, description or a speaker (not its location), and the category and day filters are `all` or equal |
| EventProgram.UnfilteredShowsEverything | src/pages/EventProgram.tsx:139-148 | an empty search with both filters at `all` returns the sessions unchanged |
| EventProgram.ClearedFiltersKeepOnlyDay | src/pages/EventProgram.tsx:313-318 | after clearing, the list is all sessions, or those of the selected day |
| EventProgram.UniqueDays | src/pages/EventProgram.tsx:133 | every session date exactly once, in first-occurrence order |
| EventProgram.UniqueCategories | src/pages/EventProgram.tsx:136 | every session category exactly once, in first-occurrence order |
| EventProgram.OnDay | src/pages/EventProgram.tsx:152 | a day's group is the subsequence of the filtered sessions held on that day |
| EventProgram.GroupByDay | src/pages/EventProgram.tsx:151-154 | the `reduce` gives every day a key, and that key holds the day's group, possibly empty |
| EventProgram.GroupsPartition | src/pages/EventProgram.tsx:151-154 | with distinct days covering every date, the groups together rearrange the filtered sessions |
| EventProgram.ProgramTabsPartitionFiltered | src/pages/EventProgram.tsx:151-154 | the groups over `uniqueDays` together are a permutation of `filteredEvents` |
| EventProgram.SortByStartTime | src/pages/EventProgram.tsx:253 | the in-place sort leaves the array ascending by start time and a permutation of its old contents |
| EventProgram.ShowDay | src/pages/EventProgram.tsx:251-253 | a day tab shows a sorted permutation of the day's group, and nothing for a day without a group |
| EventProgram.ProgramView.constructor | src/pages/EventProgram.tsx:33-35 | the search starts empty and both filters at `all` |
| EventProgram.ProgramView.SetSearchTerm | src/pages/EventProgram.tsx:195 | typing sets the search term only |
| EventProgram.ProgramView.SetCategoryFilter | src/pages/EventProgram.tsx:202 | choosing a category sets the category filter only |
| EventProgram.ProgramView.SetDayFilter | src/pages/EventProgram.tsx:220 | choosing a day sets the day filter only |
| EventProgram.ProgramView.ClearFilters | src/pages/EventProgram.tsx:313-318 | the search becomes empty and the category `all`; the day is kept, and the visible list is then all sessions or the day's |
| EventRegistration.MessageText | src/pages/EventRegistration.tsx:76-85 | every error message is a non-empty string |
| EventRegistration.EmailPatternUnanchored | src/pages/EventRegistration.tsx:81 | text around a matching address does not stop the email test from matching |
| EventRegistration.Record | src/pages/EventRegistration.tsx:76-85 | one conditional assignment adds the field's error, if any, and keeps the others |
| EventRegistration.Errors | src/pages/EventRegistration.tsx:73-88 | the error keys are among first name, last name, email and phone |
| EventRegistration.ErrorsByField | src/pages/EventRegistration.tsx:73-88 | a field is in the dictionary exactly when `FieldError` gives it an error, and then with that error |
| EventRegistration.ErrorMessages | src/pages/EventRegistration.tsx:76-85 | organisation never has an error; names and phone have one exactly when empty; email has one exactly when it fails the pattern: "required" when empty, otherwise "invalid" |
| EventRegistration.ErrorsEmptyIff | src/pages/EventRegistration.tsx:73-88 | validation passes exactly when first name, last name and phone are non-empty and the email matches `EmailPattern`, the unanchored test `/\S+@\S+\.\S+/` of line 81 |
| EventRegistration.NonEmptySize | src/pages/EventRegistration.tsx:94 | a positive key count means a non-empty dictionary |
| EventRegistration.RegistrationForm.constructor | src/pages/EventRegistration.tsx:35-43 | all five inputs start empty, with no errors and not submitting |
| EventRegistration.RegistrationForm.Validate | src/pages/EventRegistration.tsx:73-88 | the conditional assignments build exactly the error dictionary of the form values |
| EventRegistration.RegistrationForm.HandleChange | src/pages/EventRegistration.tsx:59-71 | only the named field changes; that field's error is dropped and other errors stay |
| EventRegistration.RegistrationForm.HandleSubmit | src/pages/EventRegistration.tsx:90-107 | with errors they are stored and submitting is unchanged; without, earlier errors stay and submitting starts |
| EventRegistration.RegistrationForm.SubmissionFinished | src/pages/EventRegistration.tsx:102-103 | the end of the simulated request clears the submitting flag only |
| EventDetail.StatusColor | src/pages/EventDetail.tsx:117-124 | confirmed is green, pending yellow, cancelled red, and exactly the other strings are gray |
| EventDetail.StatusColorsDistinguishStatuses | src/pages/EventDetail.tsx:117-124 | no attendee status gets gray, and different statuses get different colours |
| EventDetail.EventStatusBadge | src/pages/EventDetail.tsx:161-166 | upcoming is green, ongoing blue, cancelled red, and everything else, past included, gray |
| EventDetail.StatusLabels | src/pages/EventDetail.tsx:280 | the attendee status labels read Confirmed, Pending and Cancelled, and "past" reads Past |
| EventDetail.TallyAppend | src/pages/EventDetail.tsx:422-434 | one more attendee adds one to the tally of its own status only |
| EventDetail.TallyCountsAttendees | src/pages/EventDetail.tsx:422-434 | each badge, `Tally` (the `filter(...).length`), equals the number of attendee positions with exactly that status |
| EventDetail.TalliesCoverAttendees | src/pages/EventDetail.tsx:422-434 | the three badges add up to the number of attendees |
| Schema.MinLength | src/pages/EditEvent.tsx:40-45 | `min(n)` reports its message on its field exactly when the string is shorter than `n` |
| Schema.Check | src/pages/Register.tsx:28-31 | a check reports its message on its path exactly when its condition fails |
| Schema.PathsOver | src/pages/EditEvent.tsx:39-50 | when each field reports only on itself, the fields with issues are exactly those whose rule failed |
| Schema.RefineReported | src/pages/Register.tsx:28-31 | a refine whose message no field uses is reported exactly when its condition fails |
| EditEvent.NumberAtLeast | src/pages/EditEvent.tsx:46-48 | a coerced number passes exactly when it is a number at least the bound; NaN reports "Expected number" |
| EditEvent.OneOf | src/pages/EditEvent.tsx:49 | the status passes exactly when it is one of the four values; otherwise the issue names the received value |
| EditEvent.FieldIssues | src/pages/EditEvent.tsx:39-50 | each field has an issue, on itself, exactly when its rule fails |
| EditEvent.Issues | src/pages/EditEvent.tsx:39-50 | a field carries an issue exactly when its rule fails; the form is accepted exactly when all ten rules hold |
| EditEvent.LooseRules | src/pages/EditEvent.tsx:42-49 | any non-empty times in either order, any non-empty category, a zero price and any listed status are accepted |
| CreateEvent.TrimStart | src/pages/CreateEvent.tsx:28 | parseInt skips exactly the leading white space |
| CreateEvent.DigitPrefix | src/pages/CreateEvent.tsx:28 | parseInt reads the longest run of leading digits |
| CreateEvent.DecimalValue | src/pages/CreateEvent.tsx:28 | a number's decimal spelling reads back as that number |
| CreateEvent.ReadSignedOf | src/pages/CreateEvent.tsx:28 | after the white space, an optional sign and a run of digits give the signed value of the digits |
| CreateEvent.ParseIntReads | src/pages/CreateEvent.tsx:28 | white space, optional sign, digits, then text not starting with a digit: `ParseInt` gives the signed digits' value |
| CreateEvent.NoDigitsGivesZero | src/pages/CreateEvent.tsx:28 | without a digit right after the leading white space and the optional sign (white space after a sign included), `ParseInt` is NaN and `CapacityValue`, the fallback to 0, is 0; with `ParseIntReads` this covers every input |
| CreateEvent.CapacityRoundTrip | src/pages/CreateEvent.tsx:28 | the capacity read from any integer written in decimal is that integer |
| CreateEvent.TrailingTextIgnored | src/pages/CreateEvent.tsx:28 | "12abc" gives 12 |
| CreateEvent.DefaultCapacity | src/pages/CreateEvent.tsx:45 | the default "100" gives 100 |
| CreateEvent.LeadingSpaceAndSign | src/pages/CreateEvent.tsx:28 | "  -5" gives -5 |
| CreateEvent.NoDigitsIsZero | src/pages/CreateEvent.tsx:28 | "abc", "" and "- 5" give 0 |
| CreateEvent.FieldIssues | src/pages/CreateEvent.tsx:23-27 | each field has an issue, on itself, exactly when its rule fails |
| CreateEvent.Issues | src/pages/CreateEvent.tsx:22-29 | a field carries an issue exactly when its rule fails; the capacity never does |
| CreateEvent.Parse | src/pages/CreateEvent.tsx:22-29 | success exactly when title, description and location are long enough and date and time non-empty, with the capacity converted; failures are non-empty and never on the capacity |
| CreateEvent.CapacityUnbounded | src/pages/CreateEvent.tsx:28 | any integer capacity, zero and negatives included, passes and is kept |
| Register.FieldIssues | src/pages/Register.tsx:24-27 | each field has at most its own message, exactly when its rule fails |
| Register.Issues | src/pages/Register.tsx:23-31 | the form is accepted exactly when every rule holds and the passwords are equal; "Passwords don't match" is on the confirmation exactly when they differ |
| Register.EmailIndependent | src/pages/Register.tsx:25 | leaving out the email field's issue, the issues are those of the other rules and the refine |
| Register.EmailCheckSeparate | src/pages/Register.tsx:25 | the issues off the email field do not depend on the email check |
| DashboardSettings.ProfileFieldIssues | src/pages/DashboardSettings.tsx:20-23 | each profile field has an issue, on itself, exactly when its rule fails |
| DashboardSettings.ProfileIssues | src/pages/DashboardSettings.tsx:19-24 | the profile is accepted exactly when the name has two characters and the email passes; company and website never have issues |
| DashboardSettings.ProfileDefaults | src/pages/DashboardSettings.tsx:44-52 | the defaults (the stored name and email through `StoredField`, `''` when missing, empty company and website) are a fixed point of the update: for a user with a name and an email, saving them with any company and website stores that user unchanged |
| DashboardSettings.UpdatedUser | src/pages/DashboardSettings.tsx:83 | the stored user with name and email replaced, every other field kept, and company and website not written |
| DashboardSettings.LastSaveDecides | src/pages/DashboardSettings.tsx:83 | of two saves the later alone decides the stored user, so saving the same profile twice stores what saving it once does |
| DashboardSettings.StoredNameAndEmailKeepUser | src/pages/DashboardSettings.tsx:83 | writing back a user's own name and email, with any company and website, leaves the stored user as it was |
| DashboardSettings.PasswordFieldIssues | src/pages/DashboardSettings.tsx:29-31 | each password field has at most its own message, exactly when its rule fails |
| DashboardSettings.PasswordIssues | src/pages/DashboardSettings.tsx:28-35 | accepted exactly when the current password is non-empty and the new one and its confirmation have eight characters and are equal; the mismatch is on the confirmation exactly when they differ |
| DashboardSettings.EmptyPasswordFormRejected | src/pages/DashboardSettings.tsx:54-61 | the empty defaults are rejected on all three fields |
| DashboardSettings.SettingsPage.constructor | src/pages/DashboardSettings.tsx:41-61 | the page reads the stored user and starts both forms at their defaults |
| DashboardSettings.SettingsPage.EnterProfile | src/pages/DashboardSettings.tsx:44-52 | editing the profile form changes that form only |
| DashboardSettings.SettingsPage.EnterPasswords | src/pages/DashboardSettings.tsx:54-61 | editing the password form changes that form only |
| DashboardSettings.SettingsPage.SubmitProfile | src/pages/DashboardSettings.tsx:63-91 | accepted values store the page's user with the new name and email; rejected ones store nothing |
| DashboardSettings.SettingsPage.SubmitPassword | src/pages/DashboardSettings.tsx:93-122 | an accepted password form is reset to its empty defaults; no stored record changes |
| Login.FieldIssues | src/pages/Login.tsx:25-27 | each field has an issue, on itself, exactly when its rule fails |
| Login.Issues | src/pages/Login.tsx:24-28 | accepted exactly when the email passes and the password has eight characters; `rememberMe` never has issues |
| Login.FindUser | src/pages/Login.tsx:51 | the position of the first stored user whose email equals the entered one, or none when no user has it |
| Login.Verdict | src/pages/Login.tsx:57-60 | success exactly when a user was found with the entered password; the record stored is that user without its password |
| Login.AuthenticateIff | src/pages/Login.tsx:51-60 | `Authenticate` (`Verdict` of `FoundUser`) succeeds exactly when the first user with the email has the entered password, and stores that user without the password |
| Login.LaterDuplicateIgnored | src/pages/Login.tsx:51-57 | users after the first match do not change the lookup or the outcome |
| Login.FirstMatchDecides | src/pages/Login.tsx:51-57 | illustration of `LaterDuplicateIgnored` on two records: a later duplicate with the entered password does not admit it when the first match's differs |
| Login.LoginPage.constructor | src/pages/Login.tsx:33 | the page starts not loading |
| Login.LoginPage.BeginSubmit | src/pages/Login.tsx:45-51 | rejected values change nothing; accepted ones start loading and look up the first user with the email |
| Login.LoginPage.CompleteSubmit | src/pages/Login.tsx:56-69 | on success the password-free user is stored; on failure the store is untouched; loading ends either way |

## Left out

- Event capacity and the attendee ledger. The code has no register or cancel
  operation and no status lifecycle, so there is nothing to model.
- Floating point: registration rates, revenue, fill percentages, progress
  widths and price formatting. A ticket price and an edited capacity are only
  compared against their bounds.
- The grammar `Number()` uses when `z.coerce.number()` reads text. A coerced
  value is taken as given: a real number or NaN. `Infinity` (from text such
  as "1e999") is not a value of the model, although `min(1)` would accept it.
- Date and locale formatting (`toLocaleDateString`, `formatDate`) and the
  category colour switch, which is presentation.
- Unicode case mapping. `toLowerCase` and `toUpperCase` are modelled on ASCII
  letters only.
- String lengths are counted in characters, not UTF-16 code units.
- `localeCompare` is modelled as code-point order.
- zod's `.email()` check is a library regular expression. Each schema takes
  it as the parameter `isEmail`.
- `parseInt` is modelled for decimal integers of any size. It does not model
  the loss of precision past 2^53, nor a run of more than about 308 digits,
  which gives `Infinity` and is kept by `|| 0`; the model gives the exact
  integer. It does not distinguish `-0` from 0.
- The browser store, JSON encoding, timers, toasts, navigation, the API client
  and react-hook-form. A stored user is a `map<string, string>`, and the store
  is a field of the page classes.
- The simulated `onSubmit` handlers of the create, edit and sign-up forms.
  They log and show a toast. The edit and sign-up handlers do so after a
  1.5 s timer. The create and edit handlers then navigate. The create and
  sign-up handlers set a busy flag and clear it again.
- Login's `try`/`catch` path for unreadable JSON in the store.
- The browser's own constraint check on the registration form's
  `type="email"` input, which can block a submission before `handleSubmit`
  runs (text with an inner space, say, that the unanchored pattern accepts).
  The model covers the page's own JavaScript validation only.
- EventProgram.SortByStartTime: does not state that sessions with equal start
  times keep their order, although the insertion sort keeps it, as `sort` does.
- EventProgram.ShowDay: inherits that gap, so the order in which parallel
  sessions of one day appear is not stated.
- DashboardSettings.SettingsPage.SubmitProfile: the page's user is the one
  read when the page rendered. A later change to the store does not reach it,
  and the model keeps that copy as the field `currentUser`. By
  `LastSaveDecides`, re-reading the store after a save of this page would
  store the same user.
- EventRegistration.RegistrationForm.HandleSubmit: the request that the
  `setTimeout` call simulates is the separate `SubmissionFinished` call; its
  toast and navigation are left out.
