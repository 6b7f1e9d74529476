# Volunteer portal core in Dafny

A model of the server core of a volunteer-management portal, a Next.js
application backed by a relational store. Volunteers check in and out of
attendance sessions, work on tasks that administrators create and assign,
and hand in submissions, which administrators review. The model covers:

- the request authenticator and the role gate that wraps every protected
  route (`Rbac`);
- the server-side current-user lookup (`AuthServer`);
- the login and registration routes (`AuthRoutes`);
- the request schemas for tasks, filters, attendance notes and reviews
  (`Validations`);
- the five attendance routes: check-in, check-out, status, statistics and
  history (`Sessions`);
- the task collection route: the paginated, role-scoped listing and the
  admin-only creation (`Tasks`);
- the submission routes: creation behind its guard chain, and the
  role-scoped listing (`Submissions`);
- the pure parts of the task and submission screens: the list filters,
  the status buttons and the two forms (`Clients`).

Each route handler is a pure function. It takes the store (immutable
sequences of users, tasks, attendance records and submissions), the
verified claims of the caller and the request body. It returns the response
together with the new store. A response is either `Json(status, body,
cookie)` or `Fail(status, error)`. The store's query operators are
sequence functions in `Seqs`:

- `findFirst` and `findUnique` are the first match in store order;
- `where` is an order-keeping `Filter`;
- `orderBy ... desc` is a stable `SortDesc`;
- `take` is `Take`;
- the task list's two-key `orderBy` is a `rank` the caller supplies.

Everything the code gets from outside is a parameter:

- The clock arrives as numbers: `now` in milliseconds, `today` and
  `firstOfMonth` as local midnights.
- Password hashing and tokens arrive as a `Crypto` record of functions.
  Stated promises about them (`PasswordsVerify`, `TokensRoundTrip`) are
  assumptions only of the lemmas that name them.
- The file upload service, the request schemas for login and registration,
  and the cuid and date parsers arrive as functions or predicates.
- New identifiers and creation times are also inputs.

`AtMostOneOpenPerDay` is the store invariant of the attendance routes. It
says that no user has two open records dated the same day. Both check-in and
check-out preserve it, and so does any sequence of them (`RunKeepsOneOpen`).

Two behaviours are modelled as the code has them, though a reader might
expect otherwise:

- A user may check in again on the same day after checking out. The
  duplicate check looks only for an open record dated today, so a day can
  hold several sessions, and the statistics count sessions, not days
  (`CheckInAgainAfterCheckOut`, `SessionsNotDaysAreCounted`).
- A session left open past midnight can never be checked out, because
  check-out looks only for records dated today. It also does not block the
  next day's check-in (`OverdueSessionCannotClose`,
  `OverdueSessionDoesNotBlockCheckIn`).

## Model

| member | source | states |
|---|---|---|
| Http.TokenOf | src/lib/rbac.ts:9-13 | A token is read exactly when the `auth_token` cookie is present and non-empty, and it is that cookie's value. |
| Rbac.Authenticate | src/lib/rbac.ts:6-22 | Exactly one of user and error is set. The user is set exactly when the `auth_token` cookie is present, non-empty and verifies, and it is the verified claims. A missing or empty cookie gives "No authentication token found"; a rejected one gives "Invalid or expired token". |
| Rbac.WithAuth | src/lib/rbac.ts:30-47 | An unauthenticated request gets 401 with the authenticator's error and the state back. A present allow-list that lacks the caller's role gives 403 "Forbidden: Insufficient permissions". Otherwise the result is the handler's, called with the verified claims and the context, which defaults to empty params. |
| Rbac.UnauthenticatedIsNever403 | src/lib/rbac.ts:35-43 | Authentication is checked before the role: a request without a usable token is answered 401, never 403, whatever the allow-list. |
| Rbac.RejectionIgnoresHandler | src/lib/rbac.ts:37-45 | A rejected request never reaches the handler. Swapping the handler changes nothing, and the state comes back unchanged. |
| Rbac.EmptyAllowListForbidsAll | src/lib/rbac.ts:41-43 | A present but empty allow-list turns every authenticated caller away with 403. |
| Rbac.NoAllowListAdmitsAll | src/lib/rbac.ts:34-45 | Without an allow-list, every authenticated caller reaches the handler with the verified claims and the default context `{params: {}}`. |
| AuthServer.GetCurrentUser | src/lib/auth-server.ts:6-32 | The result is null without a usable token. Otherwise it is the stored user whose id is the token's `userId`, projected without the password hash, or null when no such user exists. |
| AuthServer.RejectedTokenIgnoresStore | src/lib/auth-server.ts:9-17 | A missing or rejected token gives null whatever the store holds. |
| AuthServer.RequireUser | src/lib/auth-server.ts:34-40 | `requireUser` fails with "Unauthorized" exactly when there is no current user, and otherwise returns it. |
| AuthRoutes.SessionCookieAttributes | src/app/api/auth/login/route.ts:43-49 | The fixed cookie settings, not a general property: the session cookie is `auth_token`: http-only, secure only in production, same-site lax, path `/`, and valid for 604800 seconds (seven days). |
| AuthRoutes.Login | src/app/api/auth/login/route.ts:8-58 | A body the schema rejects gives 400 "Validation failed". An unknown email and a wrong password both give the same 401 "Invalid credentials". Success is 200 with the matching user's public fields and a session cookie carrying a token for that user's id, email and role. The store is never written. |
| AuthRoutes.LoginSucceedsIffCredentialsMatch | src/app/api/auth/login/route.ts:13-25 | When emails are unique, login succeeds exactly when a stored user has the email and the password verifies against that user's hash. |
| AuthRoutes.Register | src/app/api/auth/register/route.ts:8-69 | The results are 400 for a rejected body and 409 for an email already stored, both leaving the store alone. Otherwise the result is 201 with the new user's public fields and a session cookie. The store gains exactly one user, who has the hashed password, the chosen role and no avatar. |
| AuthRoutes.RegisterKeepsEmailsUnique | src/app/api/auth/register/route.ts:13-33 | Registration preserves uniqueness of emails in the store. |
| AuthRoutes.RegisterThenLogin | src/app/api/auth/register/route.ts:24-39 | If the hash verifies its own password, a freshly registered user logs in with the chosen password. They get the new id, name, email and role, and a cookie for the same claims. |
| AuthRoutes.LoginCookieAuthenticates | src/app/api/auth/login/route.ts:27-49 | If tokens decode to what they were issued for, the cookie a successful login sets authenticates later requests as that same user. |
| Validations.ParseStatus | src/lib/validations/task.ts:27 | A task status parses exactly from PENDING, IN_PROGRESS or COMPLETED, and the parsed value's wire name is the input. |
| Validations.ParsePriority | src/lib/validations/task.ts:7 | A priority parses exactly from LOW, MEDIUM or HIGH, and the parsed value's wire name is the input. |
| Validations.ParseReviewStatus | src/lib/validations/submission.ts:4 | A review status parses exactly from PENDING, APPROVED, REJECTED or NEEDS_REVISION, and the parsed value's wire name is the input. |
| Validations.EnumNamesRoundTrip | src/lib/validations/task.ts:47-49 | Every status, priority and review status parses back from its own wire name. |
| Validations.TaskSchemaWithDescription | src/lib/validations/task.ts:3-22 | The creation object schema with the description bounds as parameters: the input is accepted exactly when every field meets its rule, and the parsed values are the given ones, with MEDIUM for an absent priority. |
| Validations.CreateTaskSchema | src/lib/validations/task.ts:3-22 | The input is accepted exactly when it has a title of 3 to 200 characters, a description of 10 to 5000, a cuid assignee, a valid priority or none, and a due date that parses. An absent priority becomes MEDIUM; every other field is kept as given. |
| Validations.UpdateTaskSchema | src/lib/validations/task.ts:24-45 | Every field is optional with the creation bounds. An empty due date is accepted without parsing. An accepted update keeps the given fields and parses the enumerations. |
| Validations.EmptyUpdateAccepted | src/lib/validations/task.ts:24-45 | The update with no fields is accepted as the empty update. |
| Validations.TaskFiltersSchema | src/lib/validations/task.ts:47-51 | Filters are accepted exactly when status and priority are absent or valid and the assignee is absent or a cuid. |
| Validations.CheckInSchema | src/lib/validations/attendance.ts:3-5 | Check-in notes are accepted exactly when absent or at most 500 characters long. |
| Validations.CheckOutSchema | src/lib/validations/attendance.ts:7-9 | The check-out schema accepts exactly what the check-in schema accepts. |
| Validations.ReviewSubmissionSchema | src/lib/validations/submission.ts:3-6 | A review needs one of the four review states, and its notes must be absent or at most 2000 characters. |
| Sessions.FindOpen | src/app/api/attendance/check-in/route.ts:16-22 | The lookup finds a record of the caller dated today with no check-out time, or reports that none exists. |
| Sessions.CheckIn | src/app/api/attendance/check-in/route.ts:8-56 | Notes over 500 characters give 400 "Validation failed". An open record of the caller dated today gives 400 "Already checked in. Please check out first.". Both leave the store alone. Otherwise the result is 200, and the store gains exactly one open record for the caller dated today, checked in now, with the given notes. |
| Sessions.Close | src/app/api/attendance/check-out/route.ts:28-39 | Closing a record keeps its id, owner, date and check-in time. It sets check-out to now and the duration to the whole minutes elapsed: duration times 60000 is at most the elapsed time, which is below one more minute. Given notes, even empty ones, replace the stored notes. |
| Sessions.CheckOut | src/app/api/attendance/check-out/route.ts:8-62 | The result is 400 "No active check-in found" exactly when the caller has no open record dated today. Otherwise that record, and only it, is closed. It gets check-out time now and a duration of the whole minutes elapsed since check-in, so duration times 60000 is at most the elapsed time and the elapsed time is below one more minute. Given notes, even empty ones, replace the stored notes. |
| Sessions.CheckOutDurationNonNegative | src/app/api/attendance/check-out/route.ts:28-31 | When no check-in lies in the future, a recorded duration is never negative. |
| Sessions.WorkdayDuration | src/app/api/attendance/check-out/route.ts:29-31 | A worked example, not a general property: a session from 09:00 to 17:30 records 510 minutes. |
| Sessions.Status | src/app/api/attendance/status/route.ts:6-34 | `isCheckedIn` holds exactly when the caller has an open record dated today. That record is returned with it, and no record is returned otherwise. |
| Sessions.RoundHours | src/app/api/attendance/stats/route.ts:40-41 | `Math.round(m / 60)` is the whole hour count h with 60h - 30 <= m < 60h + 30, so halves round up. |
| Sessions.Stats | src/app/api/attendance/stats/route.ts:6-44 | The total and month hours are the rounded sums of the durations of the caller's checked-out records, all-time and dated from the first of the month. The day count is the number of those records. The sums and the count are the recursive `ClosedMinutes` and `ClosedCount`, whose meaning `StatsSeeOnlyOwnClosed` and `MinutesAppend` pin down. |
| Sessions.StatsSeeOnlyOwnClosed | src/app/api/attendance/stats/route.ts:7-37 | The statistics are the same when computed over only the caller's checked-out records: other users' records and open sessions contribute nothing. |
| Sessions.MinutesAppend | src/app/api/attendance/stats/route.ts:7-15 | Appending a record adds its duration to the sum, and one to the count, exactly when it is counted. |
| Sessions.OpenSessionDoesNotCount | src/app/api/attendance/stats/route.ts:10 | Adding an open session leaves every statistic unchanged. |
| Sessions.SessionsNotDaysAreCounted | src/app/api/attendance/stats/route.ts:32-37 | Two closed sessions on the same day give a `totalDays` of 2: the count is of sessions, not of days. |
| Sessions.MonthMinutesWithinTotal | src/app/api/attendance/stats/route.ts:21-30 | When durations are non-negative, the month's minutes never exceed the all-time minutes. |
| Sessions.MonthHoursWithinTotal | src/app/api/attendance/stats/route.ts:40-41 | When durations are non-negative, the month's rounded hours never exceed the all-time rounded hours. |
| Sessions.History | src/app/api/attendance/history/route.ts:6-23 | The history has exactly ten entries, or one per record when the caller has fewer. The entries are in non-increasing date order, and each comes from one of the caller's own records, shown at most once. A record of the caller left out is no newer than any entry shown. A caller with at most ten records sees every one of them. |
| Sessions.HistoryShowsEachOnce | src/app/api/attendance/history/route.ts:7-11 | The shown entries, counted with multiplicity, are contained in the entries of the caller's records: no record is shown twice. |
| Sessions.HistoryLength | src/app/api/attendance/history/route.ts:7-11 | `take: 10` returns ten entries, or all the caller's records when there are fewer. |
| Sessions.HistoryKeepsNewest | src/app/api/attendance/history/route.ts:7-11 | Each of the caller's records is shown, or else every entry shown is dated no earlier than it. |
| Sessions.CheckInKeepsOneOpen | src/app/api/attendance/check-in/route.ts:16-38 | Check-in preserves the invariant that no user has two open records dated the same day. |
| Sessions.CheckOutKeepsOneOpen | src/app/api/attendance/check-out/route.ts:16-40 | Check-out preserves the invariant that no user has two open records dated the same day. |
| Sessions.RunKeepsOneOpen | src/app/api/attendance/check-in/route.ts:16-29 | Any sequence of check-ins and check-outs, on any days, preserves the invariant that no user has two open records dated the same day. |
| Sessions.SecondCheckInRefused | src/app/api/attendance/check-in/route.ts:24-29 | A second check-in on the same day without a check-out in between is refused with 400 and adds no record. |
| Sessions.CheckInAgainAfterCheckOut | src/app/api/attendance/check-in/route.ts:16-38 | Checking in, out, and in again on the same day succeeds, and the day then holds two records. |
| Sessions.CheckOutOnlyTouchesToday | src/app/api/attendance/check-out/route.ts:16-22 | Check-out never changes a record dated on another day. |
| Sessions.OverdueSessionCannotClose | src/app/api/attendance/check-out/route.ts:16-26 | When the caller's only open records are from earlier days, check-out is refused with 400 "No active check-in found". |
| Sessions.OverdueSessionDoesNotBlockCheckIn | src/app/api/attendance/check-in/route.ts:16-38 | An open record from an earlier day does not block today's check-in. |
| Sessions.SecondCheckOutRefused | src/app/api/attendance/check-out/route.ts:16-26 | Under the invariant, a second check-out right after a successful one on the same day is refused. |
| Tasks.ClampPage | src/app/api/tasks/route.ts:12 | The page defaults to 1 and is raised to at least 1; a page of 1 or more is kept. |
| Tasks.ClampLimit | src/app/api/tasks/route.ts:13 | The limit defaults to 10 and is clamped into 1..50; a limit inside the range is kept. |
| Tasks.CeilDiv | src/app/api/tasks/route.ts:68 | `Math.ceil(total / limit)` is 0 for no rows; otherwise it is the page count p with (p - 1) * limit < total <= p * limit. |
| Tasks.HasMoreIffRowsRemain | src/app/api/tasks/route.ts:68-77 | `hasMore` (page < totalPages) holds exactly when rows remain after the current page: page * limit < total. |
| Tasks.SkipOf | src/app/api/tasks/route.ts:14 | The skipped rows and the current page end exactly at page * limit. |
| Tasks.BuildWhere | src/app/api/tasks/route.ts:22-27 | A volunteer is restricted to their own tasks and an administrator is not. A non-empty `assignedTo` filter replaces that restriction. Status and priority filters pass through. |
| Tasks.Paginate | src/app/api/tasks/route.ts:12-13 | The pagination block echoes total, page and limit after clamping. `totalPages` is the ceiling of total over limit, and `hasMore` means rows remain past this page. |
| Tasks.PageOf | src/app/api/tasks/route.ts:14-34 | The page is the window of `limit` rows starting after `skip`: row k of the page is row skip + k of the input. It is full unless it reaches the end of the rows. |
| Tasks.Matching | src/app/api/tasks/route.ts:22-27 | A task is among the matching rows exactly when it is stored and satisfies the `where` clause. |
| Tasks.Ordered | src/app/api/tasks/route.ts:30-38 | The matching tasks in the store's order: a permutation of the matching tasks with non-increasing rank. |
| Tasks.ListTasks | src/app/api/tasks/route.ts:8-86 | Invalid filters give 400 "Invalid filters", and valid filters always give 200. The pagination covers all matching tasks. The data is the window of the ordered matching tasks that starts at skip = (page - 1) * limit, and it holds exactly min(limit, total - skip) rows, none when skip is past the total. So each row is a stored task that matches the composed `where`, and the rows are in the store's order. |
| Tasks.PageKeepsOrder | src/app/api/tasks/route.ts:30-38 | Cutting a page out of an ordered sequence keeps the page ordered. |
| Tasks.PagesFollowPriority | src/app/api/tasks/route.ts:34-37 | When the store's order puts higher priorities first, every page lists its tasks in non-increasing priority. |
| Tasks.VolunteerSeesOwnTasks | src/app/api/tasks/route.ts:23 | A volunteer without an `assignedTo` filter sees only tasks assigned to them. |
| Tasks.AssigneeFilterOverridesVolunteerScope | src/app/api/tasks/route.ts:23-26 | A volunteer passing a valid `assignedTo` filter for someone else gets that person's tasks counted. The later spread replaces the volunteer restriction. |
| Tasks.CreateTask | src/app/api/tasks/route.ts:94-129 | An invalid body gives 400 "Validation failed" and leaves the store alone. Otherwise the result is 201. The store gains exactly the validated task, which is PENDING and created by the caller. |
| Tasks.CreateTaskRoute | src/app/api/tasks/route.ts:93-136 | Only an administrator creates tasks. A request without a usable session gets 401 with the authentication error, and a volunteer gets 403; both leave the store unchanged. An authenticated administrator gets exactly the creation handler's answer, so a valid body is 201 with the task recorded as created by that administrator. |
| Submissions.CreateSubmission | src/app/api/submissions/route.ts:7-61 | The guards run in order. A missing or empty task id gives 400 "Task ID is required". An unknown task gives 404 "Task not found". A volunteer not assigned to the task gives 403 "Forbidden". Otherwise the result is 201, and the store gains exactly one submission by the caller with review status PENDING, no review notes, submitted now. Its file fields are the upload's answer, or all null without a file. |
| Submissions.AdminMaySubmitForAnyTask | src/app/api/submissions/route.ts:26-28 | An administrator passes the assignee check for every existing task. |
| Submissions.NoFileNoUpload | src/app/api/submissions/route.ts:34-39 | Without a file the upload is never consulted: the result is the same whatever the upload service would return. |
| Submissions.View | src/app/api/submissions/list/route.ts:27-46 | A listed submission carries its own fields unchanged and its author's id, name and email. Its task reference has the task's id and title. The assignee is absent exactly when the task has none, and otherwise is that user's id and name. |
| Submissions.ListSubmissions | src/app/api/submissions/list/route.ts:6-48 | An administrator sees every submission and a volunteer exactly their own. The list holds the view of each visible submission, each exactly as often as it is stored, with no pagination. The list is in non-increasing submission time. |
| Submissions.VisibleSubmissions | src/app/api/submissions/list/route.ts:8 | A submission is selected exactly when it is stored and the caller is an administrator or its author. |
| Submissions.ViewsOfNewestFirst | src/app/api/submissions/list/route.ts:23-48 | Sorting by submission time changes neither which views are listed nor how often each appears. |
| Submissions.VisibleNewestFirstMembers | src/app/api/submissions/list/route.ts:7-24 | Sorting the visible submissions by submission time keeps exactly the visible submissions. |
| Clients.FilteredTasks | src/components/tasks/tasks-client.tsx:72-77 | Every row shown matches the status select, unless ALL, and the priority select, unless ALL. Every matching row is kept as often as it occurs, and no other row appears. |
| Clients.FilteredTasksKeepOrder | src/components/tasks/tasks-client.tsx:73-77 | The rows shown keep their original relative order. |
| Clients.AllFiltersShowEveryTask | src/components/tasks/tasks-client.tsx:72-77 | With both selects on ALL the table shows every task, in order. |
| Clients.NextStatuses | src/components/tasks/tasks-client.tsx:348-352 | An administrator is offered all three statuses. A volunteer is offered exactly the two that differ from the task's current status. The buttons stay in the order PENDING, IN_PROGRESS, COMPLETED. |
| Clients.OthersComplete | src/components/tasks/tasks-client.tsx:352 | Every status other than the current one is offered to a volunteer. |
| Clients.TaskFormSchema | src/components/tasks/tasks-client.tsx:59-61 | The form resolver extends the creation schema and replaces its description rule with the form's own bounds. A description within those bounds leaves acceptance to the other fields. |
| Clients.TaskFormAgreesWithServer | src/components/tasks/tasks-client.tsx:59-61 | The form's description bounds equal the server's, 10 to 5000, so the form accepts exactly what the creation schema accepts, with the same values. |
| Clients.TaskFormDefaults | src/components/tasks/tasks-client.tsx:80-89 | The form starts with an empty title and description and priority MEDIUM. The assignee is the first volunteer's id, or "" when there are none. |
| Clients.DefaultsNeedATitle | src/components/tasks/tasks-client.tsx:80-89 | The untouched form is rejected by its own schema, because the empty title is too short. |
| Clients.FilteredSubmissions | src/components/submissions/submissions-client.tsx:85-87 | A chosen review status shows only submissions with that status. Every matching submission is kept as often as it occurs, and no other appears. |
| Clients.FilteredSubmissionsKeepOrder | src/components/submissions/submissions-client.tsx:86 | The submissions shown keep their original relative order. |
| Clients.AllReviewsShowEverySubmission | src/components/submissions/submissions-client.tsx:85-87 | The ALL filter shows every submission, in order. |
| Clients.FilteredSubmissionsIdempotent | src/components/submissions/submissions-client.tsx:86 | Filtering twice by the same status equals filtering once. |
| Clients.SubmissionFormSchema | src/components/submissions/submissions-client.tsx:27-34 | The form is accepted exactly when the task id is a cuid, the content is absent or at most 2000 characters, and the file is a file or absent. An accepted form carries the task id, the content and the chosen file unchanged. |
| Clients.ToFormData | src/components/submissions/submissions-client.tsx:111-122 | The form data carries the task id and the file, and the content only when it is non-empty. |
| Clients.ValidFormPassesTaskIdGuard | src/components/submissions/submissions-client.tsx:111-127 | Because a cuid is never empty, a form the client accepts never hits the server's 400 guard. The server answers 201, 403 or 404. |
| Seqs.Find | src/lib/auth-server.ts:19-21 | `findUnique` and `findFirst` return an element that is stored and satisfies the condition, and none only when no stored element does. `Store.FindUserById`, `Store.FindUserByEmail` and `Store.FindTask` are this lookup on the id, the email and the task id. |
| Seqs.Filter | src/app/api/tasks/route.ts:22-29 | The store's `where` keeps exactly the elements satisfying the condition, each as often as it occurs. |
| Seqs.FilterIsSubseq | src/components/tasks/tasks-client.tsx:73 | A filter keeps its survivors in their original relative order. |
| Seqs.SortDesc | src/app/api/submissions/list/route.ts:23 | `orderBy ... desc` returns a permutation of its input with non-increasing keys. |
| Seqs.Take | src/app/api/attendance/history/route.ts:10 | `take: n` keeps a prefix of the input: all of it when it is no longer than n, otherwise exactly n elements. |
| Seqs.MapPermutation | src/app/api/submissions/list/route.ts:30-48 | Mapping a function over two permutations of one another gives two permutations of one another. |
| Seqs.TakeOfSortedIsTop | src/app/api/attendance/history/route.ts:9-10 | Taking the first n of a sequence sorted descending keeps the n largest: an element left out has a key no larger than any element kept. |

## Left out

- Password hashing, token signing and token expiry (`iat`/`exp`) belong to
  src/lib/auth.ts, which is not part of this model. They arrive as the
  `Crypto` record. The properties that need them assume them by name:
  `PasswordsVerify` and `TokensRoundTrip`.
- AuthRoutes.Register: says the store holds the hash the hashing function
  returns. It does not say that the plaintext password is never stored,
  because the hash is an opaque function here.
- The login and registration schemas (src/lib/validations/auth.ts) are not
  part of this model. They arrive as predicates over the decoded body.
- The cuid and date checks of the schemas arrive as predicates (`isCuid`,
  `isDate`). The regular expressions and `Date` parsing behind them are not
  modelled.
- The 500 answers are not modelled. They come from a body that is not
  JSON, a store failure, an upload that throws, and the catch-all handlers.
  A body reaches each handler already decoded.
- Tasks.ListTasks: returns bare task records. The joined fields of a task
  row (`assignedToUser`, `createdByUser` and its `submissions`) and the
  date formatting are not modelled.
- Tasks.ListTasks: takes the store's `priority desc, dueDate asc` ordering
  as an input `rank`, so the contract says which rows fall on each page only
  relative to that rank. The `dueDate` tie-break is not stated, and
  `PagesFollowPriority` assumes the priority enum is ordered LOW, MEDIUM,
  HIGH, as the schemas list it.
- Submissions.CreateSubmission: assumes the store defaults for a new
  submission: review status PENDING, no review notes, and the creation time
  as `submittedAt`. The route passes only the task, the author, the content
  and the file fields.
- Schema inputs are optional strings. A JSON `null` or a field that is not a
  string, which the schemas reject with 400, has no counterpart in the
  model.
- AuthRoutes.Login: assumes the login and registration schemas pass the
  fields they accept through unchanged. The routes read the parsed
  `validated` values, and the model reads the raw body.
- Tasks.ClampPage: takes the page and limit as already parsed integers.
  `parseInt` of a non-numeric query value gives NaN, and that case is not
  modelled.
- AuthRoutes.Register: assumes the store defaults for a new user: no
  avatar, and the creation time `now` as `createdAt`. The route passes only
  the name, the email, the hash and the role.
- Tasks.CreateTask: assumes the store default PENDING for a new task's
  status. The schema file does not hold that default.
- String lengths are counted in Dafny characters. The schemas count UTF-16
  code units, so the two can differ for characters outside the Basic
  Multilingual Plane.
- Timestamps are numbers. `toISOString` formatting of dates in responses is
  not modelled, and neither is the local-midnight computation of `today`.
- Clients.TaskFormDefaults: takes the date seven days ahead as an input, so
  the date arithmetic is not modelled.
- The single-task and single-submission routes (update, delete, review), the
  `me` route, the upload helper and the JSX are not part of this model.
  `UpdateTaskSchema` and `ReviewSubmissionSchema` are modelled as schemas
  only.
- Concurrency between requests is not modelled. Each request runs to
  completion against the store the previous one left, so two simultaneous
  check-ins could both pass the duplicate check in the real system.
- Submissions.ListSubmissions: requires the store's foreign keys (the
  `Linked` predicate), which the relational store enforces.
