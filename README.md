# Course enrollment consent form — Dafny model

The application records a student's acceptance of course enrollment terms and gives an
administrator a small panel to look through the recorded acceptances. This project
models the logic the application runs itself, and proves properties of it:

- the terms form: its fields, validation and submit/reset cycle (`TermsForm`,
  src/components/TermsAcceptance.tsx);
- the admin login form: its credential fields, loading flag and the single outcome it
  reports (`AdminLoginForm`, src/components/AdminLogin.tsx);
- the admin dashboard: the record search and the record counts (`Dashboard`,
  src/components/AdminDashboard.tsx);
- the page that switches between the three views and remembers the admin flag
  (`Router`, src/pages/Index.tsx);
- the two pieces of the backend gateway that are computed locally: the row built for an
  insert and the demo credential check (`Services`, src/utils/supabase.ts).

`Text` holds the JavaScript string built-ins these use (`toLowerCase`, `toUpperCase`,
`includes`, `trim`); `Wrappers` holds an `Option` type.

Components whose state React updates in place are Dafny classes whose methods update
their fields: `TermsAcceptance`, `AdminLogin`, `AdminDashboard` and `Index`. Their
methods are proved against pure functions (`Validate`, `IsAdmin`, `Filter`, `Step`),
and the properties are proved as lemmas about those functions. Each class keeps an
invariant (`Valid`):

- `TermsAcceptance`: "processing" is shown only while a completion is still due.
- `AdminLogin`: loading only while a check is still due.
- `AdminDashboard`: the records shown are a subsequence of the full list.
- `Index`: the dashboard view implies the admin flag.

A `setTimeout` callback is modelled as a separate `Complete` method that runs later.
The login check's callback closes over the credentials of the render in which the form
was submitted. `AdminLogin.pending` therefore keeps those credentials, so later edits
do not affect a check that is already waiting.

The model follows the code as written, which in places does less than the application's
intended design:

- The terms form does not call the record service. It simulates the submission, which
  always succeeds, so there is no failure path that keeps the fields.
- The login form compares against the fixed pair itself. It does not call
  `adminService.authenticate`; `IsAdminAgreesWithService` proves that both accept the
  same pairs.
- The dashboard filters its built-in record list on the client. The list is fixed when
  the dashboard is created (`records`, equal to `MockUsers`). It does not query the
  store.
- The page hands the login form an `onBack` callback (src/pages/Index.tsx:24). The
  login form's props declare only `onLogin`, so nothing on the login page ever calls
  `onBack`. `Index.Back` models the callback as the page defines it.

## Model

| member | source | states |
|---|---|---|
| `Text.Lower` | src/components/AdminDashboard.tsx:50-51 | `toLowerCase`: same length, each character mapped on its own, no upper-case ASCII letter left |
| `Text.Upper` | src/utils/supabase.ts:22 | `toUpperCase`: same length, each character mapped on its own, no lower-case ASCII letter left |
| `Text.LowerIdempotent` | src/utils/supabase.ts:23 | lower-casing twice equals lower-casing once |
| `Text.UpperIdempotent` | src/utils/supabase.ts:22 | upper-casing twice equals upper-casing once |
| `Text.LowerOfUpper` | src/utils/supabase.ts:22 | a case-insensitive comparison cannot tell a string from its upper-cased form |
| `Text.UpperUnique` | src/utils/supabase.ts:22 | the only string that equals `s` case-insensitively and has no lower-case letter is `Upper(s)` |
| `Text.LowerUnique` | src/utils/supabase.ts:23 | the only string that equals `s` case-insensitively and has no upper-case letter is `Lower(s)` |
| `Text.Contains` | src/components/AdminDashboard.tsx:50-52 | `includes`; `Text.ContainsIff` proves it holds exactly when the query occurs at some position of the string |
| `Text.ContainsIff` | src/components/AdminDashboard.tsx:50-52 | `includes` holds exactly when the query occurs at some position of the string (the empty query everywhere) |
| `Text.MissingCharNotContained` | src/components/AdminDashboard.tsx:50-52 | a query with a character the string lacks is not included in it |
| `Text.TrimStart` | src/components/AdminDashboard.tsx:44 | drops exactly the leading ECMAScript white space: a suffix not starting with white space, everything dropped white space |
| `Text.TrimEnd` | src/components/AdminDashboard.tsx:44 | drops exactly the trailing white space: a prefix not ending with white space, everything dropped white space |
| `Text.TrimEmptyIffBlank` | src/components/AdminDashboard.tsx:44 | `!query.trim()` holds exactly when every character of the query is white space |
| `Text.TrimIgnoresLeadingWhiteSpace` | src/components/AdminDashboard.tsx:44 | a leading white-space character does not change the trimmed query |
| `Text.Trim` | src/components/AdminDashboard.tsx:44 | `trim`, as `TrimEnd` after `TrimStart`: their contracts say exactly the leading and trailing white space is dropped, and `Text.TrimEmptyIffBlank` says when nothing is left |
| `Services.NewRow` | src/utils/supabase.ts:21-26 | the inserted row: name has no lower-case letter and equals the input case-insensitively; email has no upper-case letter and equals the input case-insensitively; mobile exactly as given; `accepted_at` is the supplied time |
| `Services.NewRowUnique` | src/utils/supabase.ts:21-26 | any row meeting that contract is the row `create` builds, so the contract pins down upper-casing the name and lower-casing the email |
| `Services.NewRowIdempotent` | src/utils/supabase.ts:22-23 | building a row from an already built row's fields gives that row again |
| `Services.Authenticate` | src/utils/supabase.ts:57-64 | success exactly for ("admin", "admin123"); success returns user "admin", failure a null user; defined for every input, so it never throws |
| `TermsForm.Validate` | src/components/TermsAcceptance.tsx:20-36 | "INCOMPLETE FORM" exactly when name, email or mobile is empty, whatever the checkbox; "TERMS NOT ACCEPTED" exactly when all three are present and consent is missing; no error exactly when all are present and consent is given; presence is a non-empty test, not trimmed |
| `TermsForm.BlankFieldsPass` | src/components/TermsAcceptance.tsx:20 | a form whose fields are single spaces, with consent given, passes validation |
| `TermsForm.TermsAcceptance.constructor` | src/components/TermsAcceptance.tsx:8-14 | starts with empty fields, consent unchecked, not submitting |
| `TermsForm.TermsAcceptance.SetName` | src/components/TermsAcceptance.tsx:131 | changes only `name` |
| `TermsForm.TermsAcceptance.SetEmail` | src/components/TermsAcceptance.tsx:145 | changes only `email` |
| `TermsForm.TermsAcceptance.SetMobile` | src/components/TermsAcceptance.tsx:159 | changes only `mobile` |
| `TermsForm.TermsAcceptance.SetAccepted` | src/components/TermsAcceptance.tsx:171-172 | changes only `accepted` |
| `TermsForm.TermsAcceptance.HandleSubmit` | src/components/TermsAcceptance.tsx:17-49 | returns `Validate`'s error; a rejected submission changes nothing; an accepted one sets `isSubmitting` and schedules one completion; the form data is never changed here |
| `TermsForm.TermsAcceptance.Complete` | src/components/TermsAcceptance.tsx:41-48 | clears `isSubmitting` and resets the form to empty fields with consent unchecked |
| `TermsForm.SubmitThenComplete` | src/components/TermsAcceptance.tsx:38-48 | a valid submission followed by its completion leaves the form as first rendered |
| `AdminLoginForm.IsAdmin` | src/components/AdminLogin.tsx:24 | the deferred check's comparison with the fixed pair; `AdminLoginForm.IsAdminAgreesWithService` proves it accepts exactly the pairs `authenticate` accepts |
| `AdminLoginForm.IsAdminAgreesWithService` | src/components/AdminLogin.tsx:24 | the form's hardcoded check accepts exactly the pairs `authenticate` accepts |
| `AdminLoginForm.AdminLogin.constructor` | src/components/AdminLogin.tsx:11-15 | empty credentials, not loading, no check waiting |
| `AdminLoginForm.AdminLogin.SetUsername` | src/components/AdminLogin.tsx:60 | changes only the username |
| `AdminLoginForm.AdminLogin.SetPassword` | src/components/AdminLogin.tsx:74 | changes only the password |
| `AdminLoginForm.AdminLogin.HandleSubmit` | src/components/AdminLogin.tsx:18-23 | sets `isLoading` and schedules one check of the credentials as they are now |
| `AdminLoginForm.AdminLogin.Complete` | src/components/AdminLogin.tsx:23-39 | returns the single `onLogin` value: true exactly for ("admin", "admin123") at submit time, with the matching toast; `isLoading` is false on both branches |
| `AdminLoginForm.SubmitEditComplete` | src/components/AdminLogin.tsx:18-39 | one submission gives one `onLogin` value, decided by the credentials at submit time even if the password is edited while the check waits |
| `Dashboard.MockUsers` | src/components/AdminDashboard.tsx:11-36 | the built-in record list; `Dashboard.AdminDashboard.constructor` shows it first and `Dashboard.AdminDashboard.TotalAcceptances` counts it |
| `Dashboard.Matches` | src/components/AdminDashboard.tsx:50-52 | the match test on name, email and mobile; `Dashboard.Filter` keeps only records passing it and `Dashboard.FilterComplete` keeps every one that does |
| `Dashboard.Filter` | src/components/AdminDashboard.tsx:49-53 | every result passes the match test and comes from the list; no more results than records |
| `Dashboard.FilterComplete` | src/components/AdminDashboard.tsx:49-53 | every record that passes the match test is among the results |
| `Dashboard.FilterIsSubsequence` | src/components/AdminDashboard.tsx:49-55 | the results are a subsequence of the list, in the list's order |
| `Dashboard.FilterConcat` | src/components/AdminDashboard.tsx:49-53 | filtering distributes over concatenation: records are judged one by one and keep their order |
| `Dashboard.FilterKeepsAllIff` | src/components/AdminDashboard.tsx:49-53 | the search keeps the whole list exactly when every record matches |
| `Dashboard.StoredRowMatchesLikeInput` | src/components/AdminDashboard.tsx:50-52 | a row normalised by `create` matches the same queries as the data typed into the form |
| `Dashboard.TabbedQueryMatchesNothing` | src/components/AdminDashboard.tsx:50-52 | a query starting with a tab matches no record that has no tab |
| `Dashboard.JohnInName` | src/components/AdminDashboard.tsx:50 | "john" matches a record whose name contains "JOHN" (case-insensitive name match) |
| `Dashboard.UntrimmedQueryMatters` | src/components/AdminDashboard.tsx:44-53 | the match uses the untrimmed query: "\tjohn" trims to the same text as "john", but it finds nothing in tab-free records while "john" finds every "JOHN" name |
| `Dashboard.SubsequenceReflexive` | src/components/AdminDashboard.tsx:40 | the full list is a subsequence of itself, so the initial display meets the dashboard invariant |
| `Dashboard.SubsequenceShorter` | src/components/AdminDashboard.tsx:109 | a subsequence is never longer than the list it comes from |
| `Dashboard.AdminDashboard.constructor` | src/components/AdminDashboard.tsx:39-40 | empty query, results equal to the full list |
| `Dashboard.AdminDashboard.SetSearchQuery` | src/components/AdminDashboard.tsx:89 | changes only the query |
| `Dashboard.AdminDashboard.HandleSearch` | src/components/AdminDashboard.tsx:43-61 | a blank query restores the full list and reports no count; otherwise the results are `Filter` of the full list with the untrimmed query and the reported count is their length; results stay a subsequence of the list |
| `Dashboard.AdminDashboard.HeaderCount` | src/components/AdminDashboard.tsx:109 | the header shows the number of results, never more than the full list's length |
| `Dashboard.AdminDashboard.TotalAcceptances` | src/components/AdminDashboard.tsx:162 | the "TOTAL ACCEPTANCES" tile shows the length of the built-in list whatever the search shows, so it is never below the header count |
| `Router.Render` | src/pages/Index.tsx:23-31 | the login form exactly in the login view; the dashboard exactly when the view is the dashboard and the flag is set; the terms form otherwise |
| `Router.Step` | src/pages/Index.tsx:11-38 | the four handlers as one transition function; `Router.StepEffects` gives each handler's whole effect and `Router.AuthenticatedIff` what a sequence of them does to the flag |
| `Router.StepEffects` | src/pages/Index.tsx:11-38 | login success gives (dashboard, true); a failed login changes nothing; logout gives (terms, false); back and the ADMIN button change only the view |
| `Router.StepPreservesInv` | src/pages/Index.tsx:11-38 | every handler keeps "dashboard view implies authenticated" |
| `Router.RunPreservesInv` | src/pages/Index.tsx:11-38 | so does every sequence of handler calls |
| `Router.AuthenticatedIff` | src/pages/Index.tsx:8-21 | from a fresh page, the flag is set exactly when a successful login happened with no logout after it |
| `Router.DashboardNeedsLogin` | src/pages/Index.tsx:18-29 | the dashboard is shown only if a successful login happened after the last logout |
| `Router.ReachableAuthenticatedIffDashboard` | src/pages/Index.tsx:23-38 | when every event is raised from the page on screen, the flag is set exactly while the dashboard view is active |
| `Router.Index.constructor` | src/pages/Index.tsx:8-9 | view "terms", not authenticated |
| `Router.Index.Rendered` | src/pages/Index.tsx:23-31 | the page shown in the current state, which is `Router.Render` of it, whose contract says which view shows which page |
| `Router.Index.HandleAdminLogin` | src/pages/Index.tsx:11-16 | the state after `handleAdminLogin(success)` is `Step` of the login result |
| `Router.Index.HandleAdminLogout` | src/pages/Index.tsx:18-21 | the state after logout is `Step` of the logout |
| `Router.Index.Back` | src/pages/Index.tsx:24 | the state after the back callback is `Step` of back |
| `Router.Index.OpenAdminLogin` | src/pages/Index.tsx:38 | the state after the ADMIN button is `Step` of the button |

## Left out

- Toasts are modelled only as the value a handler returns: the validation error, the
  login toast, or the search count. Their descriptions, variants and display are not
  modelled.
- The `setTimeout` delays are not modelled. Each deferred callback is a separate
  `Complete` step. Completions run oldest first. The model does not say when a
  completion runs relative to other events.
- Case mapping covers the ASCII letters only. Other characters are left unchanged,
  although JavaScript would map some of them.
- `new Date().toISOString()` is the opaque `now` parameter of `Services.NewRow`.
- The Supabase client set-up and the environment-variable check
  (src/utils/supabase.ts:5-12) are configuration and I/O.
- The insert round trip, `getAll` and `search` (src/utils/supabase.ts:19-20, 26-53) are
  not modelled. The hosted store executes them, and its ordering and `ilike` matching
  are not visible here. Only the row that `create` builds is modelled.
- The admin user row shape and the `Update` shapes in src/types/database.ts are not
  used. Only the columns `create` fills are modelled.
- Rendering, styling and the table markup are not modelled. The static "100%" and
  "ACTIVE" tiles are not modelled either.
- The browser's own form checks are not modelled. The inputs are marked `required`
  (src/components/TermsAcceptance.tsx:134,148,162; src/components/AdminLogin.tsx:63,77),
  so the browser withholds the submit event while a field is empty. The email input has
  `type="email"`, so its value reaches the handler with surrounding white space removed.
  `Validate` and `BlankFieldsPass` describe the handler alone: the "INCOMPLETE FORM"
  path cannot be reached from the rendered page, and a blank email cannot reach it.
- `TermsAcceptance.Complete` does not return its "SUBMISSION RECORDED" toast. The toast
  is shown on every completion, so it carries no information beyond the call itself.
- The `disabled` state of the submit buttons is not modelled as a precondition. Neither
  handler checks it itself, so the classes accept repeated submissions.
- React re-rendering and unmounting are not modelled. A callback that is still due when
  its component leaves the screen is not modelled either.
