# School portal front end: enrollment wizard and login form, in Dafny

This project models the two pieces of client logic of the school portal front
end that carry real decisions:

- **The enrollment wizard** (`src/backup/enrollment.ts`). The page holds a
  catalogue of offered sections and the set of section numbers the student
  has ticked. A page load picks the visible step from the `step` query
  parameter and, on step 2, fetches the catalogue. The table shows one row per
  section, with a checkbox that is enabled only for status `OPEN`, or a single
  placeholder row when nothing is offered. Each checkbox change adds or
  deletes the section number and recomputes the unit total over the checked
  boxes. Moving to step 3 is refused while nothing is selected. Step 3 shows
  the catalogue filtered by the selection, numbered from 1, with its unit
  total. Submitting posts the selection. Choosing a term and cancelling step 2
  reload the page, which wipes all state. Cancelling step 3 returns to step 2
  with the selection kept.
- **The login form** (`src/scripts/login.ts`). The primary role is chosen by
  priority. A login succeeds only when the response is 2xx and its payload says
  `success`. A refusal clears the password, shows a message and swaps both
  inputs to the error style; typing into an input swaps it back. The login
  button is disabled while a request is out.

Layout:

- `outcomes.dfy` (module `Outcomes`): `Option`, and `ApiResponse`, the three
  things `apiRequest` in `src/lib/api.ts` can hand back (data, a thrown error
  and its message, `null` after a 401). `apiRequest` itself is not
  part of this model.
- `enrollment_view.dfy` (module `EnrollmentView`): the pure projections of the
  wizard. These are the row descriptors of the step-2 table, the sum over
  checked boxes, the selection as an insertion-ordered set, and the
  confirmation rows. The file also holds the lemmas that tie them together and
  the two loops of the source as methods (`TotalOfChecked`,
  `BuildConfirmation`).
- `enrollment.dfy` (module `Enrollment`): the class `WizardPage`. Its fields
  are the module state and what the page displays. Its methods are the
  handlers (page load, options arrival, checkbox change, the four buttons,
  submit). Alerts, API requests and navigations are recorded in fields.
- `login.dfy` (module `Login`): the role choice, the result of
  `postLoginData`, the refusal message, the class swaps, and the class
  `LoginForm` with the typing, submit and reply handlers.

Modelling choices:

- The selection is a JavaScript `Set`, so it keeps insertion order, and
  `Array.from` sends that order in the submit payload. It is modelled as a
  duplicate-free `seq<int>` (`Added`, `Deleted`), and `Elems` gives its set.
- The total is computed over the checked boxes, as the source does, and not
  over the selection. The model keeps both and proves how they relate. The
  selection always holds only numbers of checked boxes. With unique section
  numbers it holds exactly those, and then the step-2 total equals the step-3
  total.
- Navigation is a recorded target. The reload it causes is a new `WizardPage`
  built by the constructor from the target's query (`QueryOf`).
- The visible panels are the set of panels without the `hidden` class. The
  constructor takes the markup's initial set, because the handlers only add or
  remove the class.
- A 401 during the submit makes `apiRequest` redirect to `/login` and return
  `null`. The handler then reads `response.message` from `null`, and the
  resulting TypeError lands in the failure alert. The model records that
  alert, with the V8 engine's wording (Chromium browsers) held in
  `NullResponseError`.

## Model

| member | source | states |
|---|---|---|
| `Enrollment.Route` | src/backup/enrollment.ts:31-55 | Step 2 is revealed exactly when `step` is the string "2". Any other value, or none, gives step 1, and routing never reveals step 3. |
| `Enrollment.WizardPage.Load` | src/backup/enrollment.ts:29-56 | On step 2: step 1 is hidden and step 2 shown, each header takes its parameter only when present and non-empty, and exactly one options request is made. Otherwise step 1 is shown, step 2 hidden, and no request is made. Catalogue, boxes, selection and totals start empty. |
| `Enrollment.ReloadRoutes` | src/backup/enrollment.ts:159-169 | Choosing a term reloads the page on step 2 with that term in the header. Cancelling step 2 reloads it on step 1. |
| `Enrollment.HeaderText` | src/backup/enrollment.ts:44-47 | A header is overwritten only with a present, non-empty parameter, and then with exactly that text. An absent or empty parameter leaves the markup's text. |
| `Enrollment.WizardPage.OptionsArrived` | src/backup/enrollment.ts:61-80 | A successful fetch replaces the catalogue wholesale and redraws the table with every box unchecked. An error or a 401 leaves catalogue, table and boxes unchanged, and a 401 also records the redirect to the login page. |
| `EnrollmentView.RenderRows` | src/backup/enrollment.ts:94-125 | An empty catalogue gives exactly one placeholder row. Otherwise there is one row per section, in catalogue order, carrying its number and units, with the box enabled iff the status is exactly "OPEN". |
| `EnrollmentView.FreshRowsConsistent` | src/backup/enrollment.ts:92-128 | A freshly drawn table with no box checked, an empty selection and a total of 0 satisfies the listener's invariant. |
| `EnrollmentView.Added` | src/backup/enrollment.ts:144 | Adding keeps the selection duplicate-free, its set gains exactly the id, an id already present changes nothing, and a new id is appended at the end, so insertion order is kept. |
| `EnrollmentView.Deleted` | src/backup/enrollment.ts:145 | Deleting removes exactly the id from the selection's set and never lengthens it. |
| `EnrollmentView.DeletedKeepsNoDup` | src/backup/enrollment.ts:145 | Deleting keeps the selection duplicate-free. |
| `EnrollmentView.CheckThenUncheckRestores` | src/backup/enrollment.ts:142-145 | Checking an unselected box and then unchecking it restores the selection exactly, order included. |
| `EnrollmentView.TotalOfChecked` | src/backup/enrollment.ts:147-154 | The displayed total is the sum of the units of the checked boxes. |
| `EnrollmentView.NothingCheckedTotalsZero` | src/backup/enrollment.ts:148-154 | The total is 0 when no box is checked. |
| `EnrollmentView.ToggleKeepsConsistent` | src/backup/enrollment.ts:139-155 | A change on an enabled box preserves the invariant. Only enabled boxes are checked, the selection is duplicate-free and holds only numbers of checked boxes (all of them when numbers are unique), and the total is the sum over checked boxes. |
| `EnrollmentView.CheckedIffSelected` | src/backup/enrollment.ts:139-153 | With unique numbers, a box is checked exactly when its section number is selected. |
| `EnrollmentView.SelectedAreOpen` | src/backup/enrollment.ts:100-109 | Every selected number belongs to a catalogue section whose status is exactly "OPEN". |
| `Enrollment.WizardPage.Toggle` | src/backup/enrollment.ts:139-155 | The box flips, its number is added when it becomes checked and deleted when it becomes unchecked, and the total is recomputed over the checked boxes. With unique numbers the total equals the units of the selected catalogue sections. |
| `Enrollment.WizardPage.ToConfirmation` | src/backup/enrollment.ts:172-180 | An empty selection only adds the "select at least one" alert: panels and confirmation are untouched. Otherwise step 3 replaces step 2 and the confirmation is the numbered, filtered catalogue with its unit sum. With unique numbers it has one row per selected id and its total equals the step-2 total. |
| `EnrollmentView.Selected` | src/backup/enrollment.ts:194 | The filter keeps only catalogue sections whose number is selected and is never longer than the catalogue. |
| `EnrollmentView.BuildConfirmation` | src/backup/enrollment.ts:183-207 | The rows are the catalogue filtered by the selection and numbered from 1, and the total is the sum of their units. |
| `EnrollmentView.Numbered` | src/backup/enrollment.ts:192-198 | Row k (from 0) carries index k+1 and the k-th kept section's code and units. |
| `EnrollmentView.SelectedAtPositions` | src/backup/enrollment.ts:194 | The filtered sections are the catalogue sections at the selected positions, one per position. |
| `EnrollmentView.SelectedPositionsAscend` | src/backup/enrollment.ts:194 | The selected positions strictly ascend, so catalogue order is kept and no section repeats. |
| `EnrollmentView.SelectedPositionsExact` | src/backup/enrollment.ts:194 | A catalogue position is kept exactly when its section number is selected. |
| `EnrollmentView.SelectedCount` | src/backup/enrollment.ts:194 | With unique numbers, the filtered catalogue has as many sections as there are selected numbers that the catalogue offers. |
| `EnrollmentView.TotalsAgree` | src/backup/enrollment.ts:148-154 | With unique numbers, the step-2 total over checked boxes equals the sum of units of the catalogue sections whose number is selected, which is the step-3 total. |
| `EnrollmentView.ConfirmationSize` | src/backup/enrollment.ts:173-198 | With unique numbers, the confirmation has exactly as many rows as the selection has ids. |
| `EnrollmentView.OpenAndFullScenario` | src/backup/enrollment.ts:99-207 | For one OPEN and one FULL section, only the open one's box is enabled, checking it totals 3 units, and the confirmation is that section alone as row 1. |
| `Enrollment.WizardPage.CancelConfirmation` | src/backup/enrollment.ts:228-231 | Cancelling step 3 hides step 3 and shows step 2 again; selection, boxes and total are kept. |
| `Enrollment.WizardPage.ChooseTerm` | src/backup/enrollment.ts:160-169 | The step-1 button navigates to step 2 of the enrollment page for the chosen year and semester. |
| `Enrollment.WizardPage.CancelSelection` | src/backup/enrollment.ts:225-227 | Cancelling step 2 navigates to the bare enrollment page, that is, step 1 with fresh state. |
| `Enrollment.WizardPage.Submit` | src/backup/enrollment.ts:212-222 | The selection is posted in insertion order. On success the server's message is alerted and the browser goes to the schedule page. An error alerts "Enrollment Failed: " and the message, and the page stays. After a 401 the browser goes to the login page and the failure alert still appears. |
| `Login.PrimaryRole` | src/scripts/login.ts:51-56 | The primary role is a listed role of the highest rank (ADMIN over PROFESSOR over any other). When none ranks it is the first listed role, and for an empty or missing list it is STUDENT. |
| `Login.PrimaryRoleUnique` | src/scripts/login.ts:52-56 | Those four conditions determine the role: any role that meets them is the one chosen. |
| `Login.PostLoginResult` | src/scripts/login.ts:97-109 | Success iff the response is 2xx and `payload.success` is truthy. A success always carries a payload. A request that throws gives an unsuccessful result with message 'Server unreachable' and no payload. |
| `Login.RefusalMessageAsWritten` | src/scripts/login.ts:76 | As written, the refusal text is never empty, and it is 'Invalid credentials' whenever the result carries no payload. |
| `Login.UnreachableShownAsInvalidCredentials` | src/scripts/login.ts:76 | As written, when the server cannot be reached the text shown is 'Invalid credentials', although the result says 'Server unreachable'. |
| `Login.RefusalMessage` | src/scripts/login.ts:76 | Corrected as declared under "## Findings": the refusal text is never empty, and a result whose message is 'Server unreachable' shows that text. |
| `Login.RefusalMessageCorrected` | src/scripts/login.ts:74-78 | The message shown for a refusal is the payload's message when non-empty, else 'Invalid credentials'. An unreachable server is reported as 'Server unreachable'. |
| `Login.ShowError` | src/scripts/login.ts:120-124 | After the error swap an input carries every error class and no default class, and its other classes are untouched. |
| `Login.ClearError` | src/scripts/login.ts:136-140 | After typing an input carries every default class and no error class, and its other classes are untouched. |
| `Login.StyleRoundTrip` | src/scripts/login.ts:120-140 | Typing after an error restores an input's classes exactly. |
| `Login.LoginForm.constructor` | src/scripts/login.ts:20-30 | A fresh form has empty fields, default styles, no error shown, the button enabled, and no request, cookie or navigation. |
| `Login.LoginForm.Input` | src/scripts/login.ts:136-145 | Typing sets that field's value, gives that field (only) its default style back and hides the error message. |
| `Login.LoginForm.Submit` | src/scripts/login.ts:37-45 | With an empty email or password nothing happens: the button stays enabled and no request is made. Otherwise the button is disabled and the credentials are posted once. |
| `Login.LoginForm.Complete` | src/scripts/login.ts:44-87 | On success the token and primary role cookies are set and the browser goes to the dashboard, with email, password and styles kept. A refusal, or a success without `data`, clears the password, keeps the email, shows the refusal message (or 'Cannot connect to server' on the exception path) and puts both inputs in the error style. The refusal message is the corrected `RefusalMessage` declared under "## Findings", so an unreachable server shows 'Server unreachable' where the source shows 'Invalid credentials'. The button is enabled again in every case. |

## Left out

- `Enrollment.WizardPage.Toggle`: the equality between the total and the units of the selected sections is stated only for unique section numbers. With a repeated number, checking two boxes that share it and unchecking one drops the number from the selection while the other box stays checked. The model proves the weaker inclusion that always holds.
- Element lookups that can fail (`?.`, `if (!tbody) return`, the early return of `initLogin`) are taken to succeed, because the page markup is not part of this model.
- HTML and CSS strings are replaced by row descriptors. The dimming of non-open rows is the descriptor's `enabled` flag and its status.
- `console` logging is left out. So is the "already ENROLLED" branch, which only logs: `enrollmentStatus` is carried in `Offering` and ignored.
- `decodeURIComponent` and `encodeURIComponent` are taken as identity. The header shows the raw parameter and the step-2 URL carries the raw year and semester. This hides a double decode: `URLSearchParams.get` already decodes, and src/backup/enrollment.ts:46-47 decodes again. A literal '%' in `year` or `sem` then throws `URIError`, which aborts `initEnrollment` before the options fetch. The model does not capture that abort.
- The registration date stamp (`new Date().toLocaleDateString()`) is left out, because it reads the clock.
- `parseInt` on the checkbox value and `data-units` is not modelled: ids and units are integers already.
- The initial text of the two total displays in the markup is taken to be 0.
- `apiRequest` (src/lib/api.ts) is abstracted to its outcome (`ApiResponse`). Its token handling and message extraction are not part of this model. A successful submit body without `message` (which would alert "undefined") is not modelled.
- `Enrollment.WizardPage.Submit`: the text of the 401 alert depends on the JavaScript engine. The model uses V8's wording of the TypeError (`NullResponseError`); Firefox and Safari word the same error differently, so there the alert reads differently after the same "Enrollment Failed: " prefix.
- Double clicks and interleaved asynchronous handlers are left out. The options arrival is one event after the load, and a login reply is one event after its submit.
- Login cookies: the expiry arithmetic, the `SameSite` attributes and the `user_profile` cookie (`btoa` of `JSON.stringify(profile)`) are left out. Only the `jwt_token` and `user_role` values are recorded.
- On the login exception path only a payload without `data` is modelled. Two other paths are not modelled. A profile with a character above U+00FF makes `btoa` (src/scripts/login.ts:67) throw after the `jwt_token` and `user_role` cookies are already written (:61-62). The catch branch then runs with both cookies set, whereas the modelled exception path leaves the cookies unchanged. A `roles` value that is a string does not throw either, and `includes` (:54-55) then searches for a substring. An empty string is falsy, so `roles || []` (:52) makes it `[]` and the role is STUDENT. A string containing "ADMIN" gives ADMIN. Otherwise a string containing "PROFESSOR" gives PROFESSOR. Any other non-empty string gives its first character as the role. `PrimaryRole` models a list of roles only.
- The payload's `success` is its truthiness, a boolean. A reply whose body is not JSON counts as no reply, as `postLoginData` treats it. A `message` that is not a string is not modelled.
- The shake animation (`setTimeout`, `offsetWidth`) and `style.display` are left out; `style.display` moves together with the `hidden` class, so both are the single flag `errorShown`. Only the swapped classes of the inputs are modelled, and they start as the default set.
- The password-change script is not part of this model.

## Findings

| source | as written | input that shows it | evidently intended | confidence | as-written member | corrected member |
|---|---|---|---|---|---|---|
| src/scripts/login.ts:76 | The refusal text is read from `payload?.message`. When `postLoginData` catches a network failure it returns `payload: null` with `message: 'Server unreachable'`, and that message is never read. | The login request rejects (server down): `NoReply` shows 'Invalid credentials'. | Show the result's own message (`responseWrapper.message`), 'Server unreachable'. For every received response this is the same text as before. | medium, not executed | `Login.RefusalMessageAsWritten`, `Login.UnreachableShownAsInvalidCredentials` | `Login.RefusalMessage`, `Login.RefusalMessageCorrected` (used by `Login.LoginForm.Complete`) |
