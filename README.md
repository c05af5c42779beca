# Pura call center — a Dafny model

Pura call center is a small web application for agents who phone patients to
confirm their appointments. An agent logs in by name. The calling panel starts
a call record, and the agent then saves the outcome: `no_answer`, `confirmed`
or `redirected`, plus a comment. Admins can edit and delete records, and
anyone can download every record as CSV. A separate script migrates the
`calls` table.

This project models that core in Dafny:

- **`Db`** (`db.dfy`): the store, an in-memory database object (`Db.Database`).
  - It holds the `calls`, `agent_sessions` and `users` tables, the three
    auto-increment counters and a logical clock.
  - The clock gives database-side `defaultNow` and `onUpdateNow` times; every
    insert or update ticks it once, and a delete does not.
  - Two constant flags reproduce the lazy connection. `configured` means
    `getDb()` returned a database. `reachable` means its queries succeed.
  - Each store function of `server/db.ts` is a method whose `ensures` gives
    the new tables as a specification function of the old ones. Lemmas state
    what those functions keep and change.
  - `upsertUser` builds its `values` and `updateSet` with a loop over the text
    fields, as the source does. It is proved against `Db.ValuesFor` and
    `Db.UpdateSetFor`.
- **`CallsRouter`** (`calls_router.dfy`): the `calls` procedures `list`,
  `create`, `update`, `delete` and `export`, with their input validation and
  error messages.
- **`CsvExport`** (`csv_export.dfy`): the pure CSV pipeline. It covers the
  header, the row fields, the comment quoting of section 2 of RFC 4180
  (rules 5 to 7) and the file name.
- **`AgentsRouter`** (`agents_router.dfy`): `login`, `getSession` and
  `logout` over the session table.
- **`Schema`** (`schema.dfy`): the record shapes, the status and role
  enumerations, defaults, length bounds, `CLINICS` and `ADMIN_NAMES`.
- **`TimePicker`** (`time_picker.dfy`): hour and minute arithmetic, plus
  `HH:MM` formatting and parsing.
- **`CallContext`** (`call_context.dfy`): the list mapping and the shaping of
  create and update payloads. Its class `CallProvider` holds `calls` and
  `isLoading` and brackets each request.
- **`Home`** (`home.dfy`): the calling panel's handlers, as a class over its
  six form fields.
- **`Migrations`** (`migrations.dfy`): `run-migrations.mjs`. It covers the
  URL-to-configuration mapping, the column-existence decision, the two
  `ALTER TABLE` steps over a server object, and the exit code.
- **Helper modules** (`wrappers.dfy`, `seqs.dfy`, `text.dfy`, `ordering.dfy`,
  `rpc.dfy`):
  - `Option` and `Result`;
  - filtering and searching sequences;
  - digits, padding, `split` and `join`;
  - a stable insertion sort by `createdAt`. It is `Array.prototype.sort`, and
    one of the orders SQL `ORDER BY createdAt` permits (see "## Left out");
  - the procedure error shape.

A procedure's error is `Rpc.RpcError`. It is either `Rejected(issues)`, the
input schema's issues, or `Raised(code, message)` for a `TRPCError`.

### Where the source files disagree

The model follows the code as written:

- **`create` skips two columns.** `create` never calls `findDuplicateCall` and
  never fills `appointmentId` or `clinic`. Yet `drizzle/schema.ts:49-50`
  declares both columns not null, and `server/routers/calls.test.ts` expects
  them, an update-on-duplicate path with an `isUpdate` flag, and an
  "Appointment ID" CSV column. In the model those two fields of a stored
  record are optional. `CallsRouter.CreatedRecordOutsideSchema` states that
  no record `create` stores meets the declared schema.
- **`isActive` is not declared.** `server/db.ts:189,199` read and write an
  `isActive` column that `drizzle/schema.ts` does not declare. The model
  stores it as an integer flag, and a new record gets 1.
- **`startNewDay` has no server procedure.** `client/src/contexts/CallContext.tsx:41`
  calls a `calls.startNewDay` procedure that `server/routers/calls.ts` does
  not define. The model answers it with tRPC's "no procedure" error.

## Model

| member | source | states |
|---|---|---|
| Db.Database.constructor | server/db.ts:7-20 | a fresh store has empty tables and the availability flags it is given |
| Db.Database.GetAllCalls | server/db.ts:96-100 | no database gives `[]`; an unreachable one fails; otherwise a permutation of the table, ascending by `createdAt`; nothing changes |
| Db.Database.GetCallById | server/db.ts:105-110 | a record with that id (the model picks the first in table order), or none exactly when no record has it; no database gives none |
| Db.Database.CreateCall | server/db.ts:115-120 | exactly one record is appended under the next id, with both times set to the insert time and `status` defaulting to `no_answer`; other tables unchanged; without a database it fails with the store unchanged |
| Db.Database.UpdateCallRecord | server/db.ts:125-129 | a patch that supplies no column is refused ("No values to set") with nothing changed; otherwise the table becomes `UpdateWhere` of the old one (only the matching record, only the supplied columns); without a database or when unreachable it fails and nothing changes |
| Db.Database.DeleteCallRecord | server/db.ts:134-138 | the table becomes the old one without the records with that id, the rest in order; without a database it fails and nothing changes |
| Db.Database.FindDuplicateCall | server/db.ts:166-180 | a record whose patient name and appointment id both equal the arguments; none exactly when no such record exists |
| Db.Database.DeactivateAllCalls | server/db.ts:186-190 | every record gets `isActive = 0`, with the count unchanged; records that change get a new `updatedAt` |
| Db.Database.GetActiveCalls | server/db.ts:195-200 | exactly the records whose `isActive` is 1, ascending by `createdAt`; `[]` without a database |
| Db.Database.UpsertAgentSession | server/db.ts:143-151 | a new session id inserts one session; an existing one sets only its `lastActiveAt` |
| Db.Database.GetAgentSession | server/db.ts:156-161 | the session with that id, or none; none without a database |
| Db.Database.BuildUpsert | server/db.ts:34-70 | the loop over the text fields builds exactly `ValuesFor` and `UpdateSetFor` |
| Db.Database.WriteUser | server/db.ts:72-74 | the insert-or-merge by openId: a new openId appends one user under the next id, an existing one takes the update set; an unreachable store fails with nothing changed |
| Db.Database.UpsertUser | server/db.ts:22-79 | a missing or empty openId throws "User openId is required for upsert"; no database returns with nothing changed; otherwise the user table becomes the insert-or-merge of the built values |
| Db.NewCallRow | drizzle/schema.ts:46-57 | the stored record has the given id, copies each field of the insert, takes the given `status` or else `no_answer`, has both times equal to the insert time, and is active |
| Db.FirstWhere | server/db.ts:105-110 | a row of the table satisfying the condition, or none exactly when no row does; the model picks the first in table order |
| Db.UpdateOnlyTarget | server/db.ts:125-129 | a record with another id is unchanged, and the record with the id is patched |
| Db.UpdateAbsentId | server/db.ts:125-129 | an update with an id no record has changes nothing |
| Db.PatchRowColumns | drizzle/schema.ts:55-56 | a patch changes only the supplied columns and keeps `id`, `createdAt` and `isActive`; a patch that changes no value leaves the record as it was, and any other gets `updatedAt` set to the update time |
| Db.DeleteKeepsOthers | server/db.ts:134-138 | after a delete, a record is present exactly when it was present and has another id |
| Db.DeleteUnique | server/db.ts:134-138 | with unique ids, deleting the id at position k leaves the records before and after k, in order |
| Db.DeleteAbsentId | server/db.ts:134-138 | deleting an id no record has changes nothing |
| Db.DeleteKeepsUnique | drizzle/schema.ts:47 | deletion preserves the uniqueness of ids |
| Db.DeactivateLeavesNoneActive | server/db.ts:186-200 | after deactivating all, no record is active |
| Db.ActiveRowsExact | server/db.ts:195-200 | a record is among the active rows exactly when it is in the table with `isActive` 1 |
| Db.DeactivateKeepsRecords | server/db.ts:186-190 | deactivation keeps every column but `isActive` and `updatedAt` |
| Db.FindSession | server/db.ts:156-161 | the found session is in the table with that id; none exactly when no session has it |
| Db.UpsertSessionEffect | server/db.ts:143-151 | on a new id one session is appended with `isAdmin` defaulting to 0; on an existing id only that session's `lastActiveAt` changes |
| Db.UpdateSetNonEmpty | server/db.ts:68-70 | the user update set is never empty |
| Db.UpdateSetOnlySupplied | server/db.ts:42-62 | a column is in the update set only if the caller supplied it, the owner rule gave it (`role`), or it is the `lastSignedIn` fallback |
| Db.RoleRule | server/db.ts:56-62 | an explicit role wins; otherwise the owner's openId gets `admin`; otherwise the role is not set |
| Db.UpsertUserKeepsUnique | drizzle/schema.ts:15 | the user upsert preserves the uniqueness of `openId` |
| CallsRouter.ListOrder | server/routers/calls.ts:12-14 | `list` is a permutation of the table, ordered newest first; ties keep the order of the store's answer (and so table order, the store's tie order in the model) |
| CallsRouter.List | server/routers/calls.ts:10-22 | the store's calls newest first; `[]` without a database; a store failure becomes INTERNAL_SERVER_ERROR "Failed to fetch calls" |
| CallsRouter.CreateIssues | server/routers/calls.ts:29-34 | no issue exactly when all three names are non-empty; at most three issues |
| CallsRouter.CreatedRecord | server/routers/calls.ts:33-45 | the stored record copies the three names, has status `no_answer`, and has comment `""` when none was given |
| CallsRouter.CreatedRecordOutsideSchema | drizzle/schema.ts:49-50 | a record stored by `create` never satisfies the declared not-null columns |
| CallsRouter.WhitespaceAccepted | server/routers/calls.ts:30-32 | whitespace-only names pass validation |
| CallsRouter.AllIssuesReported | server/routers/calls.ts:30-32 | all missing names are reported together, in field order |
| CallsRouter.Create | server/routers/calls.ts:27-53 | invalid input is rejected before the store is touched; otherwise exactly one record is appended, or INTERNAL_SERVER_ERROR "Failed to create call" |
| CallsRouter.UpdateIssues | server/routers/calls.ts:65 | no issue exactly when the status is absent or one of the three values |
| CallsRouter.UpdatePatchSupplied | server/routers/calls.ts:71-72 | the patch holds exactly the supplied fields and never the id |
| CallsRouter.UpdateSuppliesNothing | server/routers/calls.ts:71-72 | the patch supplies nothing exactly when the input holds nothing besides the id |
| CallsRouter.Update | server/routers/calls.ts:58-81 | an input holding only the id, or a store failure, answers "Failed to update call" with nothing changed; otherwise the table is updated by id with the supplied fields, and success even when no record has the id |
| CallsRouter.Delete | server/routers/calls.ts:86-99 | the record with the id is removed, leaving the others in order; success whether or not it existed; a store failure becomes "Failed to delete call" |
| CallsRouter.Export | server/routers/calls.ts:104-134 | the CSV of the table in ascending order and the dated file name; the header alone without a database; "Failed to export calls" on failure |
| CsvExport.Quote | server/routers/calls.ts:112-114 | the field is wrapped in double quotes and unchanged inside |
| CsvExport.EscapeQuotes | server/routers/calls.ts:116 | the result is never shorter, and text without `"` is unchanged |
| CsvExport.HeaderText | server/routers/calls.ts:109-120 | the header line is exactly `ID,Patient Name,Appointment Time,Agent Name,Status,Comment,Created At` |
| CsvExport.ExportEmpty | server/routers/calls.ts:120 | an empty table exports the header alone |
| CsvExport.ExportSnoc | server/routers/calls.ts:110-120 | one more record adds exactly one line, after a `\n`, with no trailing newline |
| CsvExport.ExportLines | server/routers/calls.ts:110-120 | the export is the header followed by one line per record, in the order given (the store's ascending answer) |
| CsvExport.UnescapeEscape | server/routers/calls.ts:116 | undoubling the doubled quotes gives back the text |
| CsvExport.CommentRoundTrip | server/routers/calls.ts:116 | a quoted comment field parses back, under rules 5 to 7 of section 2 of RFC 4180, to the comment (`""` for none) |
| CsvExport.CommentExample | server/routers/calls.ts:116 | the comment `a"b` is written as `"a""b"` |
| CsvExport.NullCommentIsEmpty | server/routers/calls.ts:116 | a null comment and an empty one are both written `""` |
| CsvExport.NameNotEscaped | server/routers/calls.ts:112-114 | names are quoted but not escaped: a name without `"` round-trips, and `O"Hara` gives a field that is not valid CSV |
| CsvExport.StatusNeedsNoQuotes | server/routers/calls.ts:115 | the unquoted status text holds no comma, quote or newline |
| CsvExport.FileNameDate | server/routers/calls.ts:125 | the file name is `pura_calls_` + the part of the time before `T` + `.csv` |
| Schema.ParseStatus | drizzle/schema.ts:53 | a text that parses gives the status whose name it is |
| Schema.ParseStatusExact | drizzle/schema.ts:53 | only the three names parse, and each parses back from its text |
| Schema.ClinicsAreDistinct | drizzle/schema.ts:62-78 | `CLINICS` lists 15 distinct names |
| Schema.AdminNamesExact | drizzle/schema.ts:80 | `ADMIN_NAMES` is exactly Chandan and Esmail |
| Ordering.SortBySorted | server/db.ts:99 | the sort is ordered and a permutation of its input |
| Ordering.SortByStable | server/routers/calls.ts:14 | records with the same `createdAt` keep their relative order |
| Ordering.InsertSorted | server/db.ts:99 | inserting into an ordered sequence keeps it ordered |
| Ordering.InsertPermutes | server/db.ts:99 | inserting adds exactly the one record |
| AgentsRouter.LoginIssues | server/routers/agents.ts:14 | no issue exactly when the agent name is non-empty |
| AgentsRouter.SessionReplyFor | server/routers/agents.ts:52-62 | success exactly when a session was found, and then the view of that row: its name, its flag read as `isAdmin === 1`, and its id |
| AgentsRouter.AdminFlagRoundTrip | server/routers/agents.ts:25-59 | the flag stored as 1/0 reads back as the same boolean |
| AgentsRouter.AdminDefaultsFalse | server/routers/agents.ts:15 | without `isAdmin` the stored flag is 0 and the reply says false |
| AgentsRouter.AdminNotRestricted | server/routers/agents.ts:18-33 | any non-empty name outside `ADMIN_NAMES` may log in as admin |
| AgentsRouter.LoginThenSession | server/routers/agents.ts:22-61 | after a login with a fresh session id, looking it up gives the same name and admin flag |
| AgentsRouter.LoginOnTakenSessionId | server/db.ts:146-150 | a login on an existing session id keeps the old name and flag |
| AgentsRouter.Login | server/routers/agents.ts:11-42 | an empty name is rejected; otherwise one session is stored and the reply repeats the name and flag with "Welcome, name!"; a store failure becomes "Failed to login" |
| AgentsRouter.GetSession | server/routers/agents.ts:47-67 | the stored session's view, or success false with no session when it is unknown or the store fails |
| AgentsRouter.Logout | server/routers/agents.ts:72-78 | always success "Logged out successfully", and it takes no store write |
| TimePicker.ParseNumber | client/src/components/TimePicker.tsx:11 | a number exactly for a string of digits |
| TimePicker.NewHour | client/src/components/TimePicker.tsx:14-16 | the new hour lies in 0..23 |
| TimePicker.NewMinute | client/src/components/TimePicker.tsx:21-23 | the new minute lies in 0..59 |
| TimePicker.NewHourCases | client/src/components/TimePicker.tsx:14-16 | inside the range the hour is the sum; below it 23; above it 0 |
| TimePicker.HourStepIsModular | client/src/components/TimePicker.tsx:14-16 | with a step of ±1 the hour wraps modulo 24 |
| TimePicker.HourWrapExamples | client/src/components/TimePicker.tsx:14-16 | 23 + 1 gives 0 and 0 − 1 gives 23 |
| TimePicker.NewMinuteCases | client/src/components/TimePicker.tsx:21-23 | inside the range the minute is the sum; below it 55; above it 0 |
| TimePicker.MinuteWrapExamples | client/src/components/TimePicker.tsx:21-23 | 55 + 5 gives 0 and 0 − 5 gives 55 |
| TimePicker.MinuteWrapNotModular | client/src/components/TimePicker.tsx:21-23 | 57 + 5 gives 0 and 3 − 5 gives 55, unlike arithmetic modulo 60 |
| TimePicker.MinuteStepKeepsFives | client/src/components/TimePicker.tsx:21-23 | a multiple of five stays a multiple of five under the ±5 buttons |
| TimePicker.FormatParses | client/src/components/TimePicker.tsx:11-24 | formatting then parsing gives back hour and minute up to 99 |
| TimePicker.ChangesAreIndependent | client/src/components/TimePicker.tsx:13-25 | the hour buttons keep the minute, and the minute buttons the hour |
| CallContext.ListMapping | client/src/contexts/CallContext.tsx:45-55 | the mapping keeps the length |
| CallContext.ListMappingReversible | client/src/contexts/CallContext.tsx:47-53 | each mapped call gives back its record, in order, with the times only re-wrapped as dates |
| CallContext.AddCallPayloadFields | client/src/contexts/CallContext.tsx:60-67 | five fields are forwarded unchanged; the comment is `""` when null, undefined or empty |
| CallContext.ClientAppointmentFieldsDropped | server/routers/calls.ts:29-34 | the appointment id and clinic the client sends never reach the stored record |
| CallContext.UpdateIgnoresTimestamps | client/src/contexts/CallContext.tsx:78 | the update payload does not depend on `createdAt` or `updatedAt` |
| CallContext.UpdateForwards | client/src/contexts/CallContext.tsx:79-86 | the id and every other supplied field are forwarded; a falsy comment is omitted |
| CallContext.ClientStatusAccepted | server/routers/calls.ts:65 | a status from the client always passes the server's enumeration check |
| CallContext.CommentCannotBeCleared | client/src/contexts/CallContext.tsx:79-82 | an update with an empty or null comment leaves the stored comment as it was |
| CallContext.ExportOutcome | client/src/contexts/CallContext.tsx:105-111 | the fetched data when there is some, otherwise the error "Failed to export calls" |
| CallContext.CallProvider.constructor | client/src/contexts/CallContext.tsx:31-32 | starts with no calls and not loading |
| CallContext.CallProvider.Refetch | client/src/contexts/CallContext.tsx:45-55 | the calls become the mapped `list` result; unchanged when the query fails |
| CallContext.CallProvider.AddCall | client/src/contexts/CallContext.tsx:57-73 | the shaped create request goes to the server and the list is refetched; not loading afterwards, success or failure |
| CallContext.ClientUpdateSuppliesNothing | client/src/contexts/CallContext.tsx:75-92 | the server finds nothing to set exactly when the updates carry none of the five accepted fields, or only an empty comment |
| CallContext.CallProvider.UpdateCall | client/src/contexts/CallContext.tsx:75-92 | the shaped update request goes to the server and the list is refetched; an update that supplies nothing, or a store failure, rethrows "Failed to update call" with the calls unchanged; not loading afterwards |
| CallContext.CallProvider.DeleteCall | client/src/contexts/CallContext.tsx:94-103 | delete then refetch; not loading afterwards |
| CallContext.CallProvider.StartNewDay | client/src/contexts/CallContext.tsx:117-126 | the request fails, with no server procedure; calls unchanged; not loading afterwards |
| Home.Toggled | client/src/pages/Home.tsx:330-352 | the selected status clears when chosen again; otherwise the chosen one is selected |
| Home.ToggleTwice | client/src/pages/Home.tsx:330-352 | choosing the same button twice restores an empty or equal selection |
| Home.CallingPanel.constructor | client/src/pages/Home.tsx:23-28 | empty form, time `12:00`, nothing selected, not in progress, no edit |
| Home.CallingPanel.StartCall | client/src/pages/Home.tsx:45-68 | refuses with the form unchanged on a blank name or time or no agent; otherwise sends the call with comment `""` and the agent's name, and marks it in progress; reached only while no call is in progress and the calls are not loading, the button being disabled otherwise |
| Home.CallingPanel.ChooseStatus | client/src/pages/Home.tsx:330-352 | only the selection changes, by the toggle rule; reached only while a call is in progress, the buttons being rendered only then |
| Home.CallingPanel.SaveCall | client/src/pages/Home.tsx:70-95 | nothing unless in progress with a status; targets `calls[0]` only when it is the agent's; resets the form after a successful update |
| Home.CallingPanel.CancelCall | client/src/pages/Home.tsx:97-103 | resets every form field but the edit id |
| Home.CallingPanel.EditCall | client/src/pages/Home.tsx:138-151 | non-admins and unknown ids change nothing; otherwise the first matching record is copied into the form, with a null comment as `""` |
| Home.CallingPanel.SaveEdit | client/src/pages/Home.tsx:153-171 | nothing when the edit id is null or 0; otherwise sends the form with the status defaulting to `no_answer`, then clears it on success |
| Home.CallingPanel.DeleteCall | client/src/pages/Home.tsx:123-136 | a delete for that id is sent exactly when the agent is an admin and confirmed it |
| Home.SaveDropsEmptyComment | client/src/pages/Home.tsx:79-82 | a save with an empty comment sends no comment |
| Home.StartedCallStored | client/src/pages/Home.tsx:57-62 | a started call is stored with comment `""`, the agent's name and status `no_answer` |
| Migrations.ConfigFields | run-migrations.mjs:15-22 | the database is the path without its leading `/`; the port is the URL's, or 3306 exactly when it names none |
| Migrations.TrialsPresentAfter | run-migrations.mjs:28-51 | `numberOfTrials` exists after the script |
| Migrations.PresentMeansUnchanged | run-migrations.mjs:33-54 | with `numberOfTrials` present, columns and rows are unchanged and `clinic` survives |
| Migrations.AbsentMeansReplaced | run-migrations.mjs:37-50 | with it absent, `clinic` is dropped and every row gets `numberOfTrials` = 1 |
| Migrations.Idempotent | run-migrations.mjs:28-54 | running twice leaves what running once left |
| Migrations.OthersUntouched | run-migrations.mjs:43-50 | columns other than `clinic` and `numberOfTrials` are untouched, in the set and in every row |
| Migrations.KeepsWellFormed | run-migrations.mjs:43-50 | rows keep exactly the table's columns |
| Migrations.Server.ColumnExists | run-migrations.mjs:28-31 | true exactly when the column is present |
| Migrations.Server.DropColumn | run-migrations.mjs:43 | the column leaves the set and every row |
| Migrations.Server.AddIntColumn | run-migrations.mjs:48-50 | the column joins the set, with the default in every row |
| Migrations.RunMigrations | run-migrations.mjs:1-68 | exit 1 with nothing changed on a missing or empty URL, an unparsable one or an unreachable server; otherwise exit 0 with the migrated columns and rows |

## Left out

- I/O is not modelled: console logging, toasts, rendering, and the Blob and anchor-click download in `client/src/pages/Home.tsx`.
- Transport is not modelled: tRPC and react-query, the 2-second polling, and the `useEffect` delay. A refetch sets `calls` at once.
- Clocks, ids and URL parsing are parameters:
  - `new Date()`, `toISOString`, and `nanoid(32)` for session ids;
  - `new URL`.
- Drizzle, mysql2 and the `_db` singleton are reduced to the `configured` and `reachable` flags. Driver errors are not otherwise modelled.
- `getUserByOpenId` and `client/src/contexts/AgentContext.tsx` are not part of this model. The login screen's `handleLogin` is not modelled either.
- Concurrency is not modelled, including a race between `findDuplicateCall` and `createCall`. The code never combines them.
- Behaviour that only the tests expect is not modelled: deduplication on create, `isUpdate`, the "Appointment ID" and "Clinic" CSV columns, and not-found errors.
- JavaScript numbers: ids and times are unbounded integers. `Number` on text that is not plain digits (signs, blanks, `NaN`) is `None` in `TimePicker.ParseNumber`.
- The store does not enforce the declared not-null columns or length bounds. A strict-mode MySQL server would refuse such rows. `Schema.SchemaAdmitsCall`, `Schema.SchemaAdmitsSession` and `Schema.SchemaAdmitsUser` state these rules, and the model does not apply them.
- Row order among ties is taken to be table order. MySQL leaves unspecified the order of rows with equal `createdAt` under `ORDER BY createdAt` and which row `LIMIT 1` returns without `ORDER BY`. `Db.Database.GetAllCalls`, `Db.Database.GetActiveCalls`, `Db.FirstWhere`, `Db.Database.GetCallById`, `Db.Database.FindDuplicateCall`, `CallsRouter.ListOrder` and `CsvExport.ExportLines` therefore state one permitted behaviour. The model's clock ticks on every insert or update (not on a delete), and only inserts create rows, so reachable rows have distinct `createdAt`; the source's one-second `timestamp` columns can tie.
- String columns are compared exactly, as under a binary collation. `drizzle/schema.ts` declares no collation, and MySQL's default one ignores case and accents. So `Db.Database.FindDuplicateCall`, `Db.FindSession` and the duplicate-key matching on `sessionId` and `openId` in `Db.Database.UpsertAgentSession` and `Db.Database.UpsertUser` do not capture case- or accent-insensitive matches.
- `Db.PatchRowColumns`: `updatedAt` is refreshed only when a value changes, after MySQL's `ON UPDATE CURRENT_TIMESTAMP`, not on every update statement.
- `CallContext.CallProvider`: the intermediate `isLoading = true` while a request is pending is not observable in the model. Only the final `false` is stated.
- `CallContext.ExportOutcome`: the stale `exportQuery.data` closure is replaced by the data passed in.
- `Migrations.RunMigrations` simplifies three things:
  - `INFORMATION_SCHEMA` is not filtered by schema name, so the model sees one `calls` table;
  - a failure between the two `ALTER` steps is not modelled;
  - `connection.end()` in the `finally` block never runs, because `process.exit` ends the script first.
