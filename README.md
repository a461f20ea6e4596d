# Railis task assignment, modelled in Dafny

Railis is a web application in which leaders create tasks and assign them to
workers. Workers upload evidence of completion, and both parties comment on
tasks, message each other and receive notifications. A dashboard, a task board
and a reports page summarise the work. This project models the rules behind
that application:

- **Store methods.** The mutating API routes are methods on a `Db.Store`
  object. Its tables are sequences of rows: users, tasks, evidence, comments,
  messages and notifications. Each route is a guard chain (401, 403, 400, 404)
  followed by a fixed series of inserts and updates. The contracts state:
  - the error each guard yields;
  - that an error leaves the store untouched;
  - the exact rows a success appends or rewrites, including which single
    party receives which typed notification.
- **Read queries.** The role-scoped read queries (task lists, recent tasks,
  activity feed, dashboard counts, task board, notification list and count,
  conversations, user directory) are pure functions over the tables. Their
  contracts give exact membership, order and size bounds.
- **Statistics.** The statistics arithmetic (completion and on-time rates,
  ceiling day counts, rounded means, efficiency) is done in integers. The
  reports page has a six-month chart, which sits on a proleptic Gregorian UTC
  calendar (`Calendar`).
- **Account rules.** These cover self-registration, leader-only user creation,
  profile and password change, and the credential check with its token and
  session callbacks.
- **Client-side rules.** These are the permission predicates and form logic
  of the client components:
  - the register and profile forms;
  - task actions and the evidence panel;
  - notification tabs and links;
  - the worker ranking.

  Component state that the handlers update is a class with those fields.

Timestamps are integer milliseconds since 1970-01-01T00:00Z. An absent request
string is `""`, and an absent JSON value is `None`. The following become
parameters of the methods that use them:

- fresh row ids, which must not already be in use;
- the clock;
- bcrypt results and comparisons;
- zod's e-mail check;
- a thrown database error message.

## Model

| member | source | states |
|---|---|---|
| Basics.Percent | app/api/tasks/stats/route.ts:41 | 0 for an empty denominator; otherwise `100·a/b` rounded to the nearest integer, halves up, so within [0,100] when `a <= b` and exactly 100 when `a == b` |
| Basics.FilterCount | app/api/notifications/count/route.ts:14-19 | the length of a filter equals the number of positions whose element passes, as a database `count` does |
| Basics.Select | app/api/tasks/route.ts:23-39 | the rows of a `findMany` with `where` and `orderBy`: exactly the rows that pass, each as often as in the table, sorted |
| Basics.Take | app/api/tasks/recent/route.ts:35 | the first `n` rows, or all when there are fewer; no row appears more often than in the input |
| Basics.Top | app/api/tasks/recent/route.ts:21-36 | a `findMany` with `take: n`: `n` selected rows, or all of them when there are fewer, sorted. No row appears more often than in the table, and every selected row left out comes after each one kept |
| Domain.Code | app/api/tasks/route.ts:9-11 | every error response the routes produce has an HTTP status in the 4xx/5xx range |
| Domain.ScopeOfParticipants | app/api/tasks/route.ts:17-61 | a task is visible to the leader who created it and to the worker it is assigned to; a non-leader sees no task assigned to someone else, and a leader none created by someone else |
| Domain.TypeNameInjective | components/notification-list.tsx:68-79 | the stored `type` strings of the five notification kinds are pairwise different, so a kind can be recovered from its string |
| Domain.TaskOrdersArePreorders | app/api/tasks/route.ts:37-39 | newest-created-first, latest-updated-first and earliest-deadline-first are total preorders, so sorting by them is well defined |
| Domain.RowOrdersArePreorders | app/api/notifications/route.ts:22-24 | newest-notification-first and oldest-message-first are total preorders |
| Db.DistinctAppend | app/api/tasks/route.ts:90-99 | appending a row whose key is unused keeps the key column unique |
| Db.WithStatus | app/api/evidence/route.ts:50-53 | the task update rewrites exactly the row with the given id, setting its status and its `@updatedAt` to the write time; every other row is unchanged |
| Db.WithRead | app/api/notifications/route.ts:62-65 | the notification update sets `read` on exactly the row with the given id; every other row is unchanged |
| Db.MarkRead | app/api/messages/route.ts:55-64 | `updateMany` sets `read` on exactly the unread messages from the sender to the receiver; every other row is unchanged |
| Db.WithProfile | app/api/users/profile/route.ts:45-52 | the user update rewrites name, e-mail and password of exactly the row with the given id |
| Db.Store.constructor | app/api/tasks/route.ts:90-99 | an empty store satisfies the key and e-mail uniqueness invariant |
| Db.Store.CreateUser | app/api/users/route.ts:69-83 | appends the user row and keeps ids and e-mails unique |
| Db.Store.CreateTask | app/api/tasks/route.ts:90-99 | appends the task row and keeps task ids unique |
| Db.Store.CreateEvidence | app/api/evidence/route.ts:41-47 | appends the evidence row and keeps evidence ids unique |
| Db.Store.CreateComment | app/api/comments/route.ts:34-48 | appends the comment row and keeps comment ids unique |
| Db.Store.CreateMessage | app/api/messages/route.ts:98-119 | appends the message row and keeps message ids unique |
| Db.Store.CreateNotification | app/api/tasks/route.ts:102-109 | appends the notification row and keeps notification ids unique |
| Db.Store.UpdateTaskStatus | app/api/evidence/route.ts:50-53 | the task table becomes `WithStatus` of the old one |
| Db.Store.UpdateNotificationRead | app/api/notifications/route.ts:62-65 | the notification table becomes `WithRead` of the old one |
| Db.Store.MarkMessagesRead | app/api/messages/route.ts:55-64 | the message table becomes `MarkRead` of the old one |
| Db.Store.UpdateUser | app/api/users/profile/route.ts:45-52 | the user table becomes `WithProfile` of the old one, and e-mails stay unique because the new address belongs to no other row |
| TasksRoute.ListTasks | app/api/tasks/route.ts:6-68 | 401 exactly when there is no session. A leader gets the tasks with `leaderId` = caller and any other role those with `workerId` = caller, narrowed to the given status when one is present. Each selected row appears as often as in the table and no other row appears, newest `createdAt` first |
| TasksRoute.CreateTask | app/api/tasks/route.ts:70-116 | 401 without a session, then 403 for a non-leader, then 400 when a field is missing; each error leaves both tables unchanged. An unknown worker makes the insert fail, giving 500. A success appends exactly one `pending` task with `leaderId` = caller, and one `task_assigned` notification to the worker whose `relatedId` is the new task |
| EvidenceRoute.AssignedTask | app/api/evidence/route.ts:24-33 | finds a task with the given id whose worker is the caller, and is empty exactly when no such task exists |
| EvidenceRoute.UploadEvidence | app/api/evidence/route.ts:6-70 | 401, then 400 when the taskId or file is missing, then 404 exactly when the caller is not the task's worker; every error leaves the store unchanged. A success appends one evidence row with the submitted description and forces only that task to `completed`, whatever its status was. It also appends one `evidence_uploaded` notification to the task's leader with `relatedId` = taskId |
| CommentsRoute.PartyTask | app/api/comments/route.ts:22-31 | finds a task with the given id of which the caller is leader or worker, and is empty exactly when the caller is a party to no such task |
| CommentsRoute.Recipient | app/api/comments/route.ts:51 | the notified party is the worker when the caller is the leader, otherwise the leader, so it differs from the caller whenever leader and worker differ |
| CommentsRoute.PostComment | app/api/comments/route.ts:6-68 | 401, then 400, then 404 exactly for a non-party; every error changes nothing. A success appends one comment by the caller and one `comment_added` notification to `Recipient` with `relatedId` = taskId, and leaves the task table untouched |
| MessagesRoute.Conversation | app/api/messages/route.ts:22-37 | the messages between the caller and `userId` in either direction, each as often as in the table and nothing else, oldest first |
| MessagesRoute.OpenConversation | app/api/messages/route.ts:6-71 | 401, then 400 without `userId`. A success returns the conversation as it was before the update, and then marks read exactly the unread messages from `userId` to the caller |
| MessagesRoute.MarkReadIdempotent | app/api/messages/route.ts:55-64 | marking a conversation read twice leaves the same table as marking it once |
| MessagesRoute.MarkReadScope | app/api/messages/route.ts:55-64 | a message becomes read only if it was sent by `userId` to the caller; the caller's own messages and other conversations are unchanged, and no other field changes |
| MessagesRoute.ReturnedBeforeMarking | app/api/messages/route.ts:22-66 | an unread message from `userId` to the caller appears in the returned list still flagged unread |
| MessagesRoute.SendMessage | app/api/messages/route.ts:73-135 | 401, then 400 for a missing receiver or content, then 404 exactly when the receiver is unknown; each error changes nothing. A success appends one unread message from the caller, and one `message_received` notification to the receiver with no `relatedId` |
| NotificationsRoute.ListNotifications | app/api/notifications/route.ts:6-32 | only the caller's notifications: with `read=true` the read ones, with any other present value the unread ones, and without the parameter all of them. Each selected row appears as often as in the table, newest first |
| NotificationsRoute.ReadFilterSplits | app/api/notifications/route.ts:20 | with no parameter every notification passes; any value other than `"true"` passes exactly those `"true"` rejects |
| NotificationsRoute.PatchNotification | app/api/notifications/route.ts:34-72 | 401, then 400 for a missing id or undefined `read` (`false` is accepted), then 404 exactly when the caller does not own the id. Errors change nothing. A success sets only that row's flag and answers the caller's row with the new flag, as `update` returns it |
| NotificationsRoute.WithReadIdempotent | app/api/notifications/route.ts:62-65 | applying the same PATCH twice equals applying it once |
| NotificationsRoute.PatchOnlyTarget | app/api/notifications/route.ts:62-65 | the target row's `read` becomes the given value, and no other field of it changes |
| NotificationCount.UnreadCount | app/api/notifications/count/route.ts:6-26 | 401 exactly when there is no session; otherwise the number of positions holding a notification addressed to the caller and not yet read |
| NotificationCount.CountsUnreadOwned | app/api/notifications/count/route.ts:14-19 | the counted rows are exactly the caller's unread notifications |
| NotificationCount.CountBounded | app/api/notifications/count/route.ts:14-19 | the count never exceeds the number of the caller's notifications |
| NotificationCount.OthersDoNotCount | app/api/notifications/count/route.ts:16 | adding another user's notification, at either end, leaves the caller's count unchanged |
| Calendar.DaysInMonth | app/dashboard/reports/page.tsx:109 | a month has 28 to 31 days, with February 29 in leap years |
| Calendar.Next | app/dashboard/reports/page.tsx:109 | the month after a valid month is a valid month (December rolls over to January) |
| Calendar.Normalize | app/dashboard/reports/page.tsx:102 | `new Date(y, m, 1)` with an out-of-range month lands in a valid month with the same absolute month count |
| Calendar.YearLength | app/api/tasks/stats/route.ts:29 | a Gregorian year has 366 days when leap and 365 otherwise |
| Calendar.MonthLength | app/dashboard/reports/page.tsx:108-109 | the next month starts `DaysInMonth` days after this one |
| Calendar.MonthStartAdvances | app/dashboard/reports/page.tsx:108-109 | month starts strictly increase, by the month's length in milliseconds |
| Calendar.KnownInstants | app/api/tasks/stats/route.ts:29 | the first of January 1970, January 2000 and March 2024 fall at their known epoch milliseconds |
| Calendar.NextOfNormalize | app/dashboard/reports/page.tsx:100-104 | the month after month `m - 1` is month `m`, across year boundaries |
| TaskStats.CompletionDays | app/api/tasks/stats/route.ts:47-50 | whole days from creation to last update, rounded up: never negative, and the least `d` with `|diff| <= d` days |
| TaskStats.TotalDays | app/api/tasks/stats/route.ts:46-52 | the summed completion days are never negative |
| TaskStats.AvgCompletionTime | app/api/tasks/stats/route.ts:44-54 | 0 without completed tasks; otherwise the summed ceiling days divided by the task count, rounded to the nearest integer with halves up |
| TaskStats.TotalDaysBounds | app/api/tasks/stats/route.ts:46-52 | the sum lies between `n*lo` and `n*hi` when every summand does |
| TaskStats.AvgWithin | app/api/tasks/stats/route.ts:53 | the rounded mean lies between the fewest and the most days any completed task took |
| TaskStats.CeilingDays | app/api/tasks/stats/route.ts:49-50 | one millisecond counts as one day, exactly 72 hours as three, and no time as zero |
| TaskStats.Figures | app/api/tasks/stats/route.ts:31-78 | the counts are those of the completed, open (pending or in progress) and created-this-month tasks. The completion rate is the rounded percentage of completed tasks, and on time is the rounded percentage of completed tasks updated by their deadline. Efficiency is the rounded mean of the two. Completed and open together are at most the total, since rejected tasks are in neither, and every rate lies within [0,100] |
| TaskStats.GetStats | app/api/tasks/stats/route.ts:6-85 | 401 exactly without a session. Otherwise the figures are computed over the caller's role-scoped tasks, with the month starting at 00:00 of its first day |
| Reports.WorkerFigures | app/dashboard/reports/page.tsx:29-94 | counts the tasks this leader gave this worker and the completed ones. The completion rate is the rounded percentage of the completed ones, the on-time rate the rounded percentage of completed tasks updated by now with the deadline not yet passed, and the mean is that of the completed ones. Rates lie within [0,100], each 0 when its denominator is 0 |
| Reports.WorkerTable | app/dashboard/reports/page.tsx:17-30 | one row per user with role `worker`, in store order |
| Reports.Months | app/dashboard/reports/page.tsx:100-104 | six valid first-of-month dates |
| Reports.MonthList | app/dashboard/reports/page.tsx:100-104 | the `unshift` loop builds exactly `Months(today)` |
| Reports.MonthsConsecutive | app/dashboard/reports/page.tsx:100-104 | the six months are consecutive, oldest first, and the last is the current month |
| Reports.MonthsRollOver | app/dashboard/reports/page.tsx:102 | in February 2024 the list runs from September 2023 to February 2024 |
| Reports.BucketAsWritten | app/dashboard/reports/page.tsx:106-138 | labelled with its month. The total is the number of owned tasks created from the month's first instant to 00:00 of its last day, inclusive; the completed count is the same over completed tasks by update time |
| Reports.Bucket | app/dashboard/reports/page.tsx:106-138 | the corrected bucket counts the leader's tasks created in `[month start, next month start)`, and the leader's completed tasks updated in the same window |
| Reports.ChartAsWritten | app/dashboard/reports/page.tsx:106-138 | six buckets, the k-th being the as-written bucket of the k-th listed month |
| Reports.Chart | app/dashboard/reports/page.tsx:106-138 | six buckets, the k-th being the whole-month bucket of the k-th listed month |
| Reports.LastDayMissedAsWritten | app/dashboard/reports/page.tsx:109-128 | a task created at noon on 31 January 2024 is counted in no as-written bucket of the chart shown in February 2024 (month index 1, since months count from 0), although January is one of its months |
| Reports.StartsIncrease | app/dashboard/reports/page.tsx:100-109 | each bucket ends no later than any later bucket begins |
| Reports.EachInstantInOneMonth | app/dashboard/reports/page.tsx:108-109 | each instant in the six-month window lies in exactly one corrected bucket |
| Reports.ChartPrefix | app/dashboard/reports/page.tsx:106-138 | the first `n` corrected buckets together count exactly the tasks in the union of their windows |
| Reports.ChartCountsEachTaskOnce | app/dashboard/reports/page.tsx:106-138 | summed over the chart, totals and completions count each task in the six-month window exactly once |
| Reports.ReportsPage | app/dashboard/reports/page.tsx:9-138 | no report without a session or for a non-leader. Otherwise the worker table for the caller and the six corrected buckets, with `now` inside the month `today` |
| RecentTasks.RecentTasks | app/api/tasks/recent/route.ts:6-62 | 401 exactly without a session. Five in-scope tasks, or all of them when there are fewer, newest first. No row appears more often than in the table, and every omitted in-scope task is no newer than each one returned |
| Activities.OwnTaskIds | app/api/activities/recent/route.ts:24-33 | exactly the ids of the caller's own tasks |
| Activities.RecentActivities | app/api/activities/recent/route.ts:6-62 | 401 without a session. A leader sees the notifications addressed to them or related to one of their tasks; others see only their own. Ten of them, or all when there are fewer, newest first. No row appears more often than in the table, and every omitted match is no newer than each one returned |
| Dashboard.RecentActivity | app/dashboard/page.tsx:67-76 | five tasks where the caller is leader or worker, or all of them when there are fewer, latest update first. No task appears more often than in the table, and every omitted one is no more recent |
| Dashboard.DashboardPage | app/dashboard/page.tsx:8-87 | each count covers exactly one status of the role-scoped tasks, and the three counts sum to at most the scoped total. Recent activity is the page's take-five query |
| Dashboard.RejectedNotCounted | app/dashboard/page.tsx:20-63 | adding a rejected task changes none of the three counts |
| TasksPage.Column | app/dashboard/tasks/page.tsx:20-128 | the caller's tasks with one status, each as often as in the table and nothing else. Open columns are sorted by deadline ascending, the completed column by last update descending |
| TasksPage.TasksPage | app/dashboard/tasks/page.tsx:10-128 | no board without a session; otherwise the pending, in-progress and completed columns of the caller |
| TasksPage.BoardPartitionsOpenWork | app/dashboard/tasks/page.tsx:18-128 | each in-scope task appears in the one list of its status, and a rejected task appears in none |
| UsersRoute.Public | app/api/users/route.ts:19-26 | the listed fields are copied, and no password is included |
| UsersRoute.LexTotal | app/api/users/route.ts:27-29 | any two names are comparable in the ascending order |
| UsersRoute.LexTransitive | app/api/users/route.ts:27-29 | the name order is transitive |
| UsersRoute.LexAntisymmetric | app/api/users/route.ts:27-29 | names that order both ways are equal |
| UsersRoute.ByNameIsPreorder | app/api/users/route.ts:27-29 | ordering users by name is a total preorder |
| UsersRoute.Directory | app/api/users/route.ts:19-26 | one public row per user |
| UsersRoute.ListUsers | app/api/users/route.ts:7-37 | 401, then 403 for non-leaders. A leader gets a permutation of all users' public rows, sorted by name |
| UsersRoute.DirectoryListsEveryone | app/api/users/route.ts:19-30 | a public row is listed exactly when some user has it |
| UsersRoute.CreateUser | app/api/users/route.ts:39-90 | 401, then 403, then 400 for a missing field, then 400 for a registered e-mail; each error changes nothing. A success, which happens exactly when every guard passes, adds one user with the submitted role (unvalidated) and the hashed password, and returns no password |
| RegisterRoute.FieldErrors | app/api/register/route.ts:7-11 | the name is in error when absent or empty, the e-mail when absent or rejected by the e-mail check, and the password when absent or shorter than 6 |
| RegisterRoute.MissingCharNotContained | app/api/register/route.ts:69 | a message lacking one character of the needle does not contain it |
| RegisterRoute.MapError | app/api/register/route.ts:64-82 | a unique-constraint message gives 400; otherwise a refused connection gives 503; anything else gives 500 |
| RegisterRoute.Register | app/api/register/route.ts:13-83 | field errors give 400 with exactly those fields, and a registered e-mail gives 400; every failure changes nothing. A success adds one user whose role is always `worker`, and answers id, name, e-mail and role without the password |
| RegisterRoute.UniqueViolationIsBadRequest | app/api/register/route.ts:69-71 | a Prisma unique-constraint error is mapped to 400 |
| RegisterRoute.RefusedConnectionIsUnavailable | app/api/register/route.ts:73-78 | a refused database connection is mapped to 503 |
| RegisterRoute.OtherFailureIsServerError | app/api/register/route.ts:81 | any other failure is mapped to 500 |
| ProfileRoute.FindUser | app/api/users/profile/route.ts:23-29 | finds the caller's row, and is empty exactly when no row has that id |
| ProfileRoute.UpdateProfile | app/api/users/profile/route.ts:7-63 | 401, then 400 for a missing name or e-mail, then 404 for a missing row. Then 400 for a new password without, or with a wrong, current password; an e-mail held by another row fails the unique index (500). Errors change nothing. A success rewrites only the caller's row, keeps the password when no new one is given, and answers without the password |
| ProfileRoute.ProfileKeepsPassword | app/api/users/profile/route.ts:45-51 | without a new password the caller's stored hash is kept, and other rows are untouched |
| Auth.Authorize | lib/auth.ts:24-58 | null when the e-mail or password is missing or the lookup throws. A result is always a stored user whose hash matches, and with unique e-mails a matching user is always found. The result carries id, e-mail, name and role only |
| Auth.Token.constructor | lib/auth.ts:72-79 | a fresh token carries name and e-mail but no id or role |
| Auth.SessionUser.constructor | lib/auth.ts:62-69 | a fresh session user has no fields set |
| Auth.Jwt | lib/auth.ts:72-79 | with a user, id and role are copied onto the token; without one the token is unchanged |
| Auth.SessionFromToken | lib/auth.ts:62-69 | id, name, e-mail and role are copied from the token to the session user |
| Auth.SignIn | lib/auth.ts:24-79 | a session exists exactly when `authorize` succeeds, and it carries that user's id, name, e-mail and role |
| RegisterForm.FormErrors | components/register-form.tsx:26-52 | a name error exactly for a blank name. An e-mail error exactly for a blank or pattern-failing address, "required" when blank and "invalid" otherwise. A password error exactly when shorter than 6, "required" when empty. A confirm error exactly when the two passwords differ |
| RegisterForm.RegisterForm.constructor | components/register-form.tsx:16-22 | all fields start empty, not loading, with no errors |
| RegisterForm.RegisterForm.ValidateForm | components/register-form.tsx:26-52 | stores the error map, clears the general error, and answers true exactly when the map is empty |
| RegisterForm.RegisterForm.HandleSubmit | components/register-form.tsx:54-75 | sends nothing when validation fails; otherwise sends name, e-mail and password and starts loading |
| RegisterForm.RegisterForm.FinishSubmit | components/register-form.tsx:77-101 | loading stops. A success keeps the message. A refused answer shows the body's `error`, or "Error al registrar usuario" when it has none; a thrown error shows its message, or "Ocurrió un error al registrar el usuario" when it has none |
| RegisterForm.ShownError | components/register-form.tsx:77-92 | nothing exactly on an ok answer; otherwise a non-empty message chosen by the two fallbacks |
| RegisterForm.PatternAcceptsAddress | components/register-form.tsx:36 | an ordinary address matches `\S+@\S+\.\S+` |
| RegisterForm.PatternNeedsDot | components/register-form.tsx:36 | an address with no dot never matches |
| RegisterForm.PatternNeedsAt | components/register-form.tsx:36 | an address without `@` never matches, and a match has at least five characters |
| RegisterForm.PaddedAddressPasses | components/register-form.tsx:34-38 | an address with surrounding spaces passes, because the pattern is unanchored |
| RegisterForm.PasswordNotTrimmed | components/register-form.tsx:40-44 | six spaces are an acceptable password, because it is not trimmed |
| RegisterForm.AcceptedFormMeetsServerLengths | components/register-form.tsx:26-52 | an accepted form has a non-empty name, a password of at least 6 characters and a matching confirmation |
| ProfileSettings.OrAbsent | components/profile-settings.tsx:65-66 | an empty string is sent as absent, and anything else as itself |
| ProfileSettings.ProfileSettings.constructor | components/profile-settings.tsx:23-29 | name and e-mail start from the user, or empty without one; the password fields start empty |
| ProfileSettings.ProfileSettings.UpdateProfile | components/profile-settings.tsx:33-68 | refuses a missing name or e-mail, then a non-empty new password that differs from the confirmation. Otherwise it sends name, e-mail and the two passwords with empty ones absent |
| ProfileSettings.ProfileSettings.FinishUpdate | components/profile-settings.tsx:70-92 | after a success the three password fields are cleared and name and e-mail keep their values |
| ProfileSettings.PayloadRoundTrip | components/profile-settings.tsx:62-67 | the endpoint reads back exactly the fields the form sent, with absent passwords read as empty |
| TaskActions.StatusOptions | components/task-actions.tsx:106-118 | pending, in progress and completed come first in that order, rejected is offered exactly to a leader, without repeats |
| TaskActions.WorkerOptionsStrictSubset | components/task-actions.tsx:106-118 | a non-leader's options are the leader's minus `rejected` |
| TaskActions.LeaderPowers | components/task-actions.tsx:100-103 | every leader may change status, but only the task's own leader may delete |
| TaskActions.WorkerPowers | components/task-actions.tsx:100-103 | a worker may change the status exactly of their own task that is not completed, and may never delete; other roles may do neither |
| TaskActions.DeleteImpliesChange | components/task-actions.tsx:100-103 | whoever may delete a task may also change its status |
| TaskActions.TaskActions.constructor | components/task-actions.tsx:27-30 | the selection starts at the task's status |
| TaskActions.TaskActions.SelectStatus | components/task-actions.tsx:129 | records the chosen status |
| TaskActions.TaskActions.UpdateTaskStatus | components/task-actions.tsx:34-46 | sends nothing when the selection equals the current status; otherwise sends it |
| TaskActions.TaskActions.FinishUpdate | components/task-actions.tsx:64-66 | the update indicator is cleared |
| TaskActions.TaskActions.DeleteTask | components/task-actions.tsx:69-75 | the delete indicator is raised |
| TaskActions.TaskActions.FinishDelete | components/task-actions.tsx:93-96 | the delete indicator and dialog are cleared |
| TaskActions.ReselectSendsNothing | components/task-actions.tsx:35 | re-selecting the current status sends no request |
| TaskEvidence.PanelImpliesEndpointAccepts | components/task-evidence.tsx:86-87 | whenever the panel offers the upload, the endpoint finds the task |
| TaskEvidence.UploaderMayChangeStatus | components/task-evidence.tsx:86-87 | no leader is offered the upload, and whoever is offered it may also change the task's status |
| TaskEvidence.EndpointLooserThanPanel | components/task-evidence.tsx:86-87 | a completed or rejected task is hidden by the panel but still accepted by the endpoint |
| TaskEvidence.EvidenceForm.constructor | components/task-evidence.tsx:24-27 | no file, empty description, not uploading |
| TaskEvidence.EvidenceForm.SelectFile | components/task-evidence.tsx:31-35 | the first picked file becomes the selection; picking nothing keeps the previous one |
| TaskEvidence.EvidenceForm.UploadEvidence | components/task-evidence.tsx:37-60 | with no file nothing is sent; otherwise the task id, file and description are sent |
| TaskEvidence.EvidenceForm.FinishUpload | components/task-evidence.tsx:62-82 | after a success the file and description are reset; after a failure they are kept |
| NotificationList.AsItem | components/notification-list.tsx:13-20 | the client row carries the notification's id, flag, type string and related id |
| NotificationList.FilterTab | components/notification-list.tsx:82-87 | `unread` keeps the unread rows and `read` the read ones, each as often as in the page's list and nothing else; every other tab keeps the list unchanged |
| NotificationList.TabFilterFacts | components/notification-list.tsx:82-87 | tab filtering keeps exactly the rows its predicate accepts |
| NotificationList.TabKeepsOrder | components/notification-list.tsx:82-87 | filtering distributes over concatenation, so the order is preserved |
| NotificationList.TabCountsAddUp | components/notification-list.tsx:97-99 | the unread count plus the read count equals the total |
| NotificationList.NotificationLink | components/notification-list.tsx:68-79 | the four task kinds link to the task, or to the list without a related id; messages link to the inbox; any other type links to `#` |
| NotificationList.StoredTypesAlwaysLink | components/notification-list.tsx:68-79 | every kind the store can hold has a real link |
| NotificationList.ToggleRequest | components/notification-list.tsx:123 | the toggle sends the row's id with the negated flag |
| NotificationList.ToggleTwiceRestores | components/notification-list.tsx:123 | toggling a notification twice through PATCH restores the table |
| WorkerPerformance.ByRateDescIsPreorder | components/worker-performance.tsx:23 | the comparator is a total preorder |
| WorkerPerformance.SortedWorkers | components/worker-performance.tsx:23 | a permutation of the workers with non-increasing completion rate, headed by a top rate |
| WorkerPerformance.WorkerPerformance | components/worker-performance.tsx:21-67 | the empty-state message exactly when there are no workers; otherwise the ranked table |
| WorkerPerformance.RankingIsUnique | components/worker-performance.tsx:23 | two rankings of the same rows agree when one has no ties |
| WorkerPerformance.DistinctRatesFixRanking | components/worker-performance.tsx:23 | with pairwise different rates the ranking is determined by the rates |

## Left out

- Prisma, bcrypt, zod and next-auth internals. The store is the `Db.Store` object. Hashing, password comparison and e-mail syntax are parameters.
- Generated values are parameters. These are fresh row ids, the clock, and the simulated file URL built from `Date.now()` and the file name.
- Unexpected exceptions are not modelled. The routes' catch blocks turn a malformed JSON body or a database failure into 500. The modelled failures are these: the task insert with an unknown worker; the profile update with an e-mail held by another row; the registration insert that throws (the `thrown` parameter of `RegisterRoute.Register`); and the user lookup that throws in the credential check (the `dbFails` parameter of `Auth.Authorize`).
- TasksRoute.ListTasks: a `status` parameter that names no status is not modelled; its result depends on the database schema.
- NotificationsRoute.PatchNotification: a non-boolean `read` value is not modelled, because that is a schema error at the database.
- RegisterRoute.FieldErrors: non-string JSON values are not modelled; absent and present strings are.
- RegisterForm.FormErrors: `\S` is modelled for ASCII white space, NBSP and BOM. Other Unicode space characters are not.
- Floating point is not modelled. `Math.round` and `Math.ceil` on quotients are exact integer rounding, rounding halves up; float error at exact .5 quotients is not modelled.
- Time zones are not modelled: the server's local time is taken as UTC. Month labels (`toLocaleString`) are not modelled.
- Reports.ReportsPage: renders the corrected whole-month buckets (`Reports.Chart`), not the as-written buckets the page computes (`Reports.ChartAsWritten`; see Findings). The several `new Date()` readings in one request are one `now`, inside the month `today`.
- String lengths are counted in code points (`|s|`), not in the UTF-16 code units JavaScript counts. A string of characters outside the Basic Multilingual Plane differs: "😀😀😀" has length 6 in JavaScript but 3 here, so it fails the six-character password checks of `RegisterRoute.FieldErrors` and `RegisterForm.FormErrors` in the model but passes them in the application.
- UsersRoute.ListUsers: `orderBy name asc` follows the database's collation; the model sorts by code-point order (`LexLe`), one admissible collation.
- Ties in the database's ordering are unspecified. The model sorts by inserting each row after the rows before it that are not above it, so its tie order is one admissible choice; no contract states how ties are ordered.
- The client's polling timers, toasts, router navigation and icons are not modelled, and neither is concurrency between requests.
- WorkerPerformance.SortedWorkers: the copy-then-sort leaves the caller's array in its order; Dafny sequences are values, so the model states no contract for this.
- The task detail route (`/api/tasks/[id]`) that the task-actions buttons call is not part of this model. The button methods only produce the request.
- TasksPage.TasksPage: without a session the page dereferences a missing user and fails, so the model gives no board.

## Findings

The reports month bucket as written ends at 00:00 of the month's last day. The corrected bucket is half-open, and the chart uses it.

| source | as written | input that shows it | evidently intended | confidence | as-written member | corrected member |
|---|---|---|---|---|---|---|
| app/dashboard/reports/page.tsx:109-128 | a month's bucket is `[first day 00:00, last day 00:00]` (`new Date(y, m + 1, 0)` with `lte`) | a task created on 2024-01-31 at 12:00 UTC, with today in February 2024 (`YearMonth(2024, 1)`, months counting from 0), is counted in none of the six buckets | each instant of a month falls in that month's bucket: `[month start, next month start)` | not executed | Reports.LastDayMissedAsWritten | Reports.ChartCountsEachTaskOnce |
