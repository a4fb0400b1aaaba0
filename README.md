# Cricket academy dashboard: cache, filters, handlers and routes

This project models the core of a React/TypeScript admin dashboard for a cricket academy, and proves properties of the model in Dafny.

- **The persistent cache** (`CacheManager`). It is an IndexedDB database, version 1, with seven object stores. It has memoised one-shot initialisation, `get`, `set`, `remove`, `clear` and `clearAll`, and a per-store last-sync marker kept under `__last_sync__`.
- **The backend client.** This covers how `handleResponse` classifies a response, and the request each `api.*` method builds: the POST bodies and the GET query strings.
- **The admin pages' pure rules.** These are:
  - the players, staff, SMS, expenses and investments list filters;
  - the SMS newest-first sort;
  - the distinct dropdown options;
  - the CSV exports;
  - the batch student counts and coach labels;
  - the payloads the forms send;
  - the call-then-reload sequences of the expenses and investments handlers.
- **The attendance page's mark-attendance procedure.** It looks up the record for a player and date, then updates it or creates one, and then reloads.
- **The router.** It covers the `ProtectedRoute` role gate, the root redirect, the two guarded areas and the catch-all.
- **The login page's submit handler.** It sets error and loading state, signs the user in, and dispatches on role.

Modules:

| module | what it holds |
|---|---|
| `Wrappers` | `Option`, `Result` |
| `Json` | JSON values with JavaScript truthiness and `String(v)` |
| `Text` | ASCII lower-casing, `includes`, `join`, `split` |
| `Seqs` | `filter`, `find`, first-occurrence de-duplication |
| `Records` | the record types of `src/types/index.ts` plus the shared filter helpers |

There is one further module per core file: `Cache`, `Api`, `Players`, `Staff`, `Sms`, `Expenses`, `Investments`, `Batches`, `AttendanceMarking`, `Routes` and `LoginFlow`. Two more are shared: `Csv` (cell quoting and line splitting) and `Ledger` (the save and delete steps that the expenses and investments pages share).

What the source does is mutable state; the model expresses it as follows.

**`CacheManager`** is a class:
- its database is a `map<store, map<key, Entry(data, timestamp)>>`;
- `db`, `initStarted` and `initFailed` stand for `this.db` and `this.initPromise`;
- the browser's answer to `indexedDB.open` (the database on disk, and whether the open is allowed) is a constructor parameter;
- the clock is a method parameter.

**The in-place sort** of the copied SMS list is an insertion sort on an `array`. It is proved equal to a stable newest-first sort function. That function is proved sorted, and a permutation of its input.

**`categoryBreakdown`** is a loop that fills a map.

**The attendance page** is a class, with `markAttendance` as a method:
- the page's loaded list is the field `attendance`;
- the backend's records are the field `stored`;
- whether the call succeeds is a parameter.

**The login page** is a class holding the error, the loading flag, the auth store's session, the router location, and a ghost trace of its steps.

Dates are abstract integers (`Stamp.time`), kept next to their text (`Stamp.text`) for the CSV exports.

### Notes on the code

- `get` on a database that never opened rejects; it does not return null, because `await this.initDB()` rethrows the memoised rejection;
- nothing in `src/services/api.ts` uses the cache;
- the expenses, investments and SMS pages call `api.works`, `api.investments` and `api.smsMessages`, which `src/services/api.ts` does not define. Those pages' calls are therefore modelled as steps, with each call's outcome as a parameter.

## Model

| member | source | states |
|---|---|---|
| Cache.Upgraded | src/services/cache.ts:29-47 | The upgrade creates every one of the seven stores that is missing, as an empty store; it keeps every existing store's contents and drops none. |
| Cache.Opened | src/services/cache.ts:20-27 | The open fails exactly when the browser refuses, or when the database on disk is newer than version 1. An older database is upgraded, so afterwards it has all seven stores. |
| Cache.Read | src/services/cache.ts:57-67 | `get` on an open database rejects exactly when the store does not exist. Otherwise it resolves to the entry's data when the key is present, and to null when it is absent. |
| Cache.Write | src/services/cache.ts:74-85 | After `put`, reading the key gives the written data, stamped with the write's clock value. Every other key of every store reads as before, and no store is added or removed. |
| Cache.Delete | src/services/cache.ts:92-99 | After `delete`, the key reads as null, and every other key of every store reads as before. |
| Cache.DeleteMissingKey | src/services/cache.ts:88-100 | Removing a key that is absent leaves the database unchanged. |
| Cache.Cleared | src/services/cache.ts:106-113 | `clear` makes every key of that store read as null, the `__last_sync__` marker included; the other stores read as before. |
| Cache.ClearedAll | src/services/cache.ts:116-131 | The named stores end up empty, and every other store is untouched. |
| Cache.SyncTime | src/services/cache.ts:133-139 | `getLastSyncTime` yields the stored timestamp exactly when it is truthy, and null otherwise. |
| Cache.MarkerReadsBack | src/services/cache.ts:133-143 | A marker written at time `now` reads back as `now`, except that a time of 0 reads back as null (because of `||`). |
| Cache.ReadOutcome | src/services/cache.ts:53-55 | A database that never opened rejects every read. |
| Cache.CacheManager.constructor | src/services/cache.ts:9-11 | A new manager has no database, no pending open, and has opened nothing yet. |
| Cache.UpgradeStores | src/services/cache.ts:42-46 | The upgrade handler's loop over the store names yields exactly `Upgraded`: each missing store is created empty, and no existing store is touched. |
| Cache.CacheManager.InitDB | src/services/cache.ts:13-51 | Opens at most once. Later calls reuse the open database or the memoised outcome; a failed open is never retried; the upgrade loop yields exactly `Upgraded`. |
| Cache.CacheManager.Get | src/services/cache.ts:53-68 | Initialises, then resolves as `Read` on the open database, or rejects when the open failed. |
| Cache.CacheManager.Set | src/services/cache.ts:70-86 | Succeeds exactly when the database is open and has the store. On success the new state is `Write` with the clock value; on failure nothing changes. |
| Cache.CacheManager.Remove | src/services/cache.ts:88-100 | Succeeds exactly when the database is open and has the store. On success the new state is `Delete`; on failure nothing changes. |
| Cache.CacheManager.Clear | src/services/cache.ts:102-114 | Succeeds exactly when the database is open and has the store. On success the new state is `Cleared`. |
| Cache.CacheManager.ClearAll | src/services/cache.ts:116-131 | Attempts to clear each of the seven stores. It resolves only if the open database has them all, and afterwards every one of the seven stores that exists is empty. |
| Cache.CacheManager.ClearStores | src/services/cache.ts:120-130 | On an open database, the clears of the seven stores leave exactly those stores empty and everything else as it was. The result reports a failure exactly when one of the stores is missing. |
| Cache.CacheManager.GetLastSyncTime | src/services/cache.ts:133-139 | Reads `__last_sync__` and yields `SyncTime` of it; a rejection is passed through. |
| Cache.CacheManager.SetLastSyncTime | src/services/cache.ts:141-143 | Writes `{timestamp: now}` under `__last_sync__` in the store, and changes nothing else. |
| Cache.SetThenGet | src/services/cache.ts:53-86 | In a fresh cache, a value set into any of the seven stores reads back unchanged. A store outside the seven rejects. |
| Cache.FailedOpenSticks | src/services/cache.ts:16-23 | Once the open has failed, a `set` and then a `get` both reject: the failure is never retried. |
| Cache.SyncMarkerLifecycle | src/services/cache.ts:116-143 | A marker reads back as the time written (null for 0); after `clearAll` it reads as null. |
| Api.HandleResponse | src/services/api.ts:5-13 | Succeeds with the parsed body unchanged exactly when the status is OK and the body has no truthy `error`. Otherwise it fails: with the `error` text whatever the status, with 'Request failed' for a non-OK status, or with 'Network error' for an unparseable body. A `null` body throws a TypeError. |
| Api.EmptyErrorIsNoError | src/services/api.ts:8-12 | An empty-string `error` is no error: an OK response carrying it succeeds with the whole body. |
| Api.ErrorFieldWins | src/services/api.ts:8-9 | A non-empty text `error` becomes the failure's message, for an OK status and a failed status alike. |
| Api.PostBody | src/services/api.ts:63 | `{action, ...payload}` has the payload's keys plus `action`; every payload value is kept, including a payload `action` key, which overrides the action. |
| Api.BodyFor | src/services/api.ts:81-91 | Every POST body carries `action`. A delete sends exactly `{action, id}`. A create, update or upsert sends `PostBody` of its payload. |
| Api.QueryParams | src/services/api.ts:50-51 | A GET request's first parameter is its action. `getUser` adds the `id` and `getCoachStudents` the `coachId`, as given, and every other read sends only the action. |
| Api.QueryRoundTrip | src/services/api.ts:51 | Take parameters whose names hold no `=` and whose names and values hold none of `&`, `#`, `%` or `+`. Splitting their query string at `&` and each piece at its first `=` gives back exactly those parameters. |
| Api.GetUserQueryRoundTrip | src/services/api.ts:50-51 | An id with none of `&`, `#`, `%` or `+` comes back from the query string as the `id` parameter, next to the `getUser` action. |
| Api.GetUserParamsPlain | src/services/api.ts:50-51 | The `getUser` action and an id with none of `&`, `#`, `%` or `+` need no encoding. |
| Api.UnencodedIdAddsParameter | src/services/api.ts:51 | Because ids are not encoded, an id "a&b" splits the query string into three pieces. The `id` parameter is cut short at `a`, and `b` becomes a parameter of its own. |
| Records.InRange | src/pages/Admin/ExpensesPage.tsx:77-87 | The date check runs the start bound first, and checks the end bound only while the date still passes. This is the same as both bounds inclusive, each skipped when empty. |
| Records.Options | src/pages/Admin/SmsMessagesPage.tsx:32-36 | `[...new Set(xs.filter(Boolean))]` holds each truthy value of the column exactly once, and nothing else. The values come in the order of their first appearance in the column. |
| Records.TruthyTextsInOrder | src/pages/Admin/SmsMessagesPage.tsx:32-36 | `xs.filter(Boolean)` keeps the truthy values in the order in which they first appear in `xs`. |
| Players.Students | src/pages/Admin/PlayersPage.tsx:37 | The players are exactly the users whose role is 'student', in their original order, one for each such position of the list. The attendance page (src/pages/Admin/AttendancePage.tsx:26) lists its students by the same rule. |
| Players.FilterPlayers | src/pages/Admin/PlayersPage.tsx:48-67 | A player is kept exactly when it passes every criterion that is set: the search (skipped for an empty term), the exact batch id and the exact coach id. |
| Players.FilterPlayersIsOneFilter | src/pages/Admin/PlayersPage.tsx:48-67 | The three successive filters are one filter by the conjunction of the criteria. |
| Players.FilterPlayersProperties | src/pages/Admin/PlayersPage.tsx:48-67 | The result is an order-preserving subsequence of the players. With nothing set it is all the players, and filtering it again changes nothing. |
| Players.EmptySearchKeepsEveryone | src/pages/Admin/PlayersPage.tsx:51 | With no criteria set, every player is kept, even one with neither a name nor a phone. |
| Players.PhoneSearchIsCaseSensitive | src/pages/Admin/PlayersPage.tsx:52-56 | The phone test compares case-sensitively: a phone "ABC" does not match the term "abc". |
| Players.BatchCell | src/pages/Admin/PlayersPage.tsx:227 | The cell shows the name of the first batch whose id is the player's `batchId`. It shows '-' when there is no such batch or its name is missing or empty. |
| Players.StatusCell | src/pages/Admin/PlayersPage.tsx:240 | The status cell is never empty. It shows the status when the status is set and non-empty, and 'active' when it is missing or empty. |
| Players.InitialForm | src/pages/Admin/PlayersPage.tsx:325-365 | The form always opens with an empty password and a non-empty status. A new player's form has every field empty and status 'active'. An edited player's name, phone, email, batch and coach are prefilled, missing ones as "", and its status is the one the table shows. |
| Players.FormFields | src/pages/Admin/PlayersPage.tsx:373-383 | The spread form data carries the form's name and password, and it never carries an id or a role. |
| Players.SaveCall | src/pages/Admin/PlayersPage.tsx:372-385 | Editing sends `upsertUser` with the player's id, and adding sends `createUser` with no id. Both send role 'student', the form's status, its password and its name. |
| Players.UneditedSaveSendsEmptyPassword | src/pages/Admin/PlayersPage.tsx:325-385 | Saving an unedited player sends an empty password, and the status that the table shows. |
| Staff.StaffOf | src/pages/Admin/StaffPage.tsx:33 | The staff are exactly the users whose role is 'coach' or 'support', in their original order, one for each such position of the list. |
| Staff.Search | src/pages/Admin/StaffPage.tsx:20-28 | A member is kept exactly when the lower-cased name contains the lower-cased term, or the phone contains the term, or the lower-cased role contains the lower-cased term. The result is an order-preserving subsequence with one entry per matching position. |
| Staff.EmptyTermNeedsSomeField | src/pages/Admin/StaffPage.tsx:21-26 | With no empty-term guard, an empty term keeps a member exactly when the member has a name, a phone or a role. |
| Staff.EmptySearchShowsAllStaff | src/pages/Admin/StaffPage.tsx:20-34 | Every staff member has a role, so an empty search shows all of them. |
| Staff.StudentsShown | src/pages/Admin/StaffPage.tsx:115 | A coach card shows `studentsCount` when it is non-zero, and 0 when it is missing or 0. |
| Staff.InitialForm | src/pages/Admin/StaffPage.tsx:138-144 | The form opens with an empty password. A new member's form is empty with role 'coach'. An edited member's name, phone, email, specialization and experience are prefilled, missing ones as "", and its role is kept when non-empty and is 'coach' otherwise. |
| Staff.SaveCall | src/pages/Admin/StaffPage.tsx:146-153 | Editing sends `upsertUser` with the member's id, and adding sends `createUser`. Both send the form's fields, with its role and password. |
| Staff.UneditedSaveSendsEmptyPassword | src/pages/Admin/StaffPage.tsx:138-153 | Saving an unedited member sends an empty password. |
| Sms.Senders | src/pages/Admin/SmsMessagesPage.tsx:32-33 | The sender options are each truthy sender exactly once, in the order of its first message. |
| Sms.TransactionTypes | src/pages/Admin/SmsMessagesPage.tsx:35-36 | The type options are each truthy transaction type exactly once, in the order of its first message. |
| Sms.FilterMessages | src/pages/Admin/SmsMessagesPage.tsx:44-79 | A message is kept exactly when it passes every filter that is set: the search over message, party, transaction id and UPI id; the exact type; the exact sender; and the inclusive date bounds. |
| Sms.FilterMessagesIsOneFilter | src/pages/Admin/SmsMessagesPage.tsx:44-79 | The five successive filters are one order-preserving filter by their conjunction. |
| Sms.ClearedKeepsAll | src/pages/Admin/SmsMessagesPage.tsx:86-91 | After `clearFilters` every message is shown. |
| Sms.SortNewestFirstCorrect | src/pages/Admin/SmsMessagesPage.tsx:81 | The newest-first sort is ordered by date, newest first, and is a permutation of its input. |
| Sms.InsertAtTime | src/pages/Admin/SmsMessagesPage.tsx:81 | One insertion step puts the message after every message of its own time and moves only older messages past it. |
| Sms.SortNewestFirstStable | src/pages/Admin/SmsMessagesPage.tsx:81 | The sort is stable: for every time, the messages of that time appear in the same order as in the input. |
| Sms.InsertInPlace | src/pages/Admin/SmsMessagesPage.tsx:81 | One pass of the in-place sort moves `a[i]` into the sorted prefix and leaves the rest of the array alone. |
| Sms.SortInPlace | src/pages/Admin/SmsMessagesPage.tsx:81 | The in-place sort leaves the array equal to the stable newest-first sort of its old contents. |
| Sms.ApplyFilters | src/pages/Admin/SmsMessagesPage.tsx:44-84 | The shown list is the filtered copy, sorted newest first; the loaded array is not modified. |
| Sms.ShownMessages | src/pages/Admin/SmsMessagesPage.tsx:44-83 | The shown list is newest first and a permutation of the filtered messages. It holds exactly the loaded messages that pass the filters. |
| Sms.Cells | src/pages/Admin/SmsMessagesPage.tsx:105-114 | A row has the eight header columns: date, sender, type, amount, UPI id, transaction id and party name as `join` writes them, then the message cell. The message cell reads back, under quote-doubling, as the message text. A message without text makes the export throw. |
| Sms.Rows | src/pages/Admin/SmsMessagesPage.tsx:105-116 | With every message having text, there is one comma-joined row per shown message, in order. |
| Sms.Export | src/pages/Admin/SmsMessagesPage.tsx:93-116 | The export exists exactly when every shown message has text. |
| Sms.ExportLines | src/pages/Admin/SmsMessagesPage.tsx:116 | When no cell holds a line break, the export splits into the header line and one line per shown message, in order. |
| Csv.QuoteRoundTrip | src/pages/Admin/SmsMessagesPage.tsx:113 | Quoting with embedded `"` doubled (section 2, item 7 of RFC 4180) reads back as the original text. |
| Csv.UnescapeEscape | src/pages/Admin/SmsMessagesPage.tsx:113 | Undoubling quotes inverts doubling them. |
| Csv.EscapeKeepsOthers | src/pages/Admin/SmsMessagesPage.tsx:113 | Doubling quotes changes no other character's count. |
| Csv.DocumentLines | src/pages/Admin/SmsMessagesPage.tsx:116 | Lines without line breaks, joined with '\n', split back into the same lines. |
| Csv.LineCells | src/pages/Admin/ExpensesPage.tsx:179 | Cells without commas, joined with ',', split back into the same cells. |
| Csv.TableLines | src/pages/Admin/ExpensesPage.tsx:179 | A table without line breaks in its cells splits into one line per row, each the row joined with commas, and comma-free rows split back into their cells. |
| Csv.Sheet | src/pages/Admin/ExpensesPage.tsx:169-179 | An exported sheet is the header row, then one row of cells per shown record, in order. |
| Csv.SheetLines | src/pages/Admin/ExpensesPage.tsx:168-179 | When no cell holds a line break, an unquoted export has the header line and one comma-joined line per shown record, in order. The header and every comma-free line split back into their cells. |
| Expenses.Categories | src/pages/Admin/ExpensesPage.tsx:46-47 | The category options are each truthy category exactly once, in the order of its first work. |
| Expenses.Payers | src/pages/Admin/ExpensesPage.tsx:49-50 | The payer options are each truthy payer exactly once, in the order of its first work. |
| Expenses.Modes | src/pages/Admin/ExpensesPage.tsx:52-53 | The mode options are each truthy mode exactly once, in the order of its first work. |
| Expenses.FilterWorks | src/pages/Admin/ExpensesPage.tsx:66-91 | A work is kept exactly when it passes the unguarded search, the three 'all'-or-equal dropdowns and the date range. The result is an order-preserving subsequence with one entry per passing position. |
| Expenses.EmptySearchNeedsAField | src/pages/Admin/ExpensesPage.tsx:68-71 | An empty term matches exactly the works with details, a category or a payer; a work with none of them is never listed. |
| Expenses.ClearedShowsWorksWithAField | src/pages/Admin/ExpensesPage.tsx:405-414 | With the filters cleared, the page lists, in order, exactly the works that have details, a category or a payer. |
| Expenses.Bucket | src/pages/Admin/ExpensesPage.tsx:104 | A work's bucket is its category, or 'Uncategorized' when it has none. |
| Expenses.BucketOf | src/pages/Admin/ExpensesPage.tsx:103-106 | A bucket holds exactly the works whose bucket it is. |
| Expenses.CategoryBreakdown | src/pages/Admin/ExpensesPage.tsx:101-109 | The loop's map has a key exactly for each bucket some work falls in, and each key maps to exactly that bucket's works, in order. |
| Expenses.BreakdownKeys | src/pages/Admin/ExpensesPage.tsx:101-109 | A breakdown's keys are exactly the buckets of the works. |
| Expenses.EachWorkInOneBucket | src/pages/Admin/ExpensesPage.tsx:103-106 | Every work lies in its own bucket and in no other. |
| Expenses.Table | src/pages/Admin/ExpensesPage.tsx:169-179 | The header Date,Category,Details,Paid By,Amount,Mode, then one six-cell row per shown work, in order. |
| Expenses.ExportLines | src/pages/Admin/ExpensesPage.tsx:168-179 | Without line breaks in the cells, the export is the header line plus one unescaped comma-joined line per shown work. A comma-free line splits back into its cells. |
| Expenses.Submit | src/pages/Admin/ExpensesPage.tsx:142-155 | Editing sends `upsert` of the form with the work's id; adding sends `create` of the form. A forced reload happens exactly when the call succeeds. |
| Expenses.Delete | src/pages/Admin/ExpensesPage.tsx:157-166 | Without confirmation nothing happens. Otherwise the id is deleted, and a forced reload happens exactly when the call succeeds. |
| Ledger.WithId | src/pages/Admin/ExpensesPage.tsx:146 | `{...form, id}` keeps every other form field, and sets `id` last. |
| Ledger.SubmitSteps | src/pages/Admin/ExpensesPage.tsx:142-155 | The call comes first. Only on success does the page reload with a forced sync and close the form. |
| Ledger.DeleteSteps | src/pages/Admin/ExpensesPage.tsx:157-166 | No steps without confirmation. The delete call comes first, and is followed by a forced reload only on success. |
| Ledger.MutationsRefresh | src/pages/Admin/InvestmentsPage.tsx:113-137 | In both handlers, a call is followed at once by a forced reload exactly when it succeeded. |
| Investments.FilterInvestments | src/pages/Admin/InvestmentsPage.tsx:48-67 | An investment is kept exactly when its lower-cased name contains the lower-cased term and its date is in the inclusive range. The result is an order-preserving subsequence with one entry per passing position. |
| Investments.EmptySearchNeedsAName | src/pages/Admin/InvestmentsPage.tsx:50-51 | With no guard, an investment without a name is never listed; one with a name passes an empty search. |
| Investments.ClearedShowsNamed | src/pages/Admin/InvestmentsPage.tsx:335-339 | With the term and both dates cleared, the page lists, in order, exactly the named investments. |
| Investments.Table | src/pages/Admin/InvestmentsPage.tsx:140-147 | The header Date,Name,Amount, then one three-cell row per shown investment, in order. |
| Investments.ExportLines | src/pages/Admin/InvestmentsPage.tsx:139-147 | Without line breaks in the cells, the export is the header line plus one unescaped line per shown investment. A comma-free line splits back into its cells. |
| Investments.Submit | src/pages/Admin/InvestmentsPage.tsx:113-126 | Editing sends `upsert` with the investment's id; adding sends `create`. A forced reload happens exactly when the call succeeds. |
| Investments.Delete | src/pages/Admin/InvestmentsPage.tsx:128-137 | Without confirmation nothing happens. Otherwise the id is deleted, and a forced reload happens exactly when the call succeeds. |
| Batches.StudentCount | src/pages/Admin/BatchesPage.tsx:32 | The count is the number of positions in the user list whose `batchId` is the batch's id. So it is 0 exactly when no user is in the batch. |
| Batches.WithCounts | src/pages/Admin/BatchesPage.tsx:30-33 | The list keeps its length and order, keeps every batch unchanged, and adds that batch's student count. |
| Batches.BatchStudents | src/pages/Admin/BatchesPage.tsx:121 | The modal lists exactly the users whose `batchId` is the viewed batch's id, in order, one for each such position of the list. |
| Batches.StudentsMatchCount | src/pages/Admin/BatchesPage.tsx:30-33 | From the same load, the modal lists as many students as the batch's `studentCount`. |
| Batches.CardShowsStudents | src/pages/Admin/BatchesPage.tsx:94 | Every card shows the number of students its modal lists. |
| Batches.CoachLabel | src/pages/Admin/BatchesPage.tsx:70-101 | The label is never empty. It is the batch's own coach when that is non-empty. Otherwise it is the name of the first coach with the batch's `coachId`, when that name is non-empty. Otherwise it is 'Not Assigned'. |
| Batches.InitialForm | src/pages/Admin/BatchesPage.tsx:130-143 | The form opens with the batch's coach id and coach (or "") and a non-empty status; a new batch starts empty and 'active'. |
| Batches.SubmittedCoach | src/pages/Admin/BatchesPage.tsx:148-151 | The coach sent is the name of the first coach whose id is the form's `coachId`, when that name is non-empty. Otherwise it is the form's coach. |
| Batches.SubmitCall | src/pages/Admin/BatchesPage.tsx:145-159 | An edited batch is sent with `updateBatch` and its id; a new one with `createBatch` and no id. Both carry the chosen coach, the coach id and the name. |
| Batches.UneditedSubmitKeepsCoach | src/pages/Admin/BatchesPage.tsx:130-153 | An unedited batch whose `coachId` matches no listed coach is sent with its own coach. |
| AttendanceMarking.RecordOf | src/pages/Admin/AttendancePage.tsx:36 | Finds the first record of that player on that date. It finds none exactly when there is no such record. |
| AttendanceMarking.StatusOf | src/pages/Admin/AttendancePage.tsx:48-51 | The status is absent exactly when the player has no record on the date. Otherwise it is the status of the first such record. |
| AttendanceMarking.Updated | src/pages/Admin/AttendancePage.tsx:38 | The backend's update replaces the record with the given id by the sent fields, and keeps every other record. |
| AttendanceMarking.AttendancePage.constructor | src/pages/Admin/AttendancePage.tsx:20-26 | The page starts with the backend's records loaded. |
| AttendanceMarking.AttendancePage.MarkAttendance | src/pages/Admin/AttendancePage.tsx:34-46 | Sends `update` with the found record's id, or `create` with batchId '' and markedBy set to the signed-in user's id, or ''. On success the backend applies the call and the list is reloaded; on failure nothing changes. With a mirrored list, at most one record per player and date, and a fresh id on create, the invariants are kept and the lookup returns the new status. |
| AttendanceMarking.UpdateKeepsInvariants | src/pages/Admin/AttendancePage.tsx:36-38 | Updating the found record keeps one record per player and date, and distinct ids; the lookup then finds the new status. |
| AttendanceMarking.CreateKeepsInvariants | src/pages/Admin/AttendancePage.tsx:39-40 | Creating the missing record under a new id keeps both invariants; the lookup then finds it. |
| AttendanceMarking.MarkKeepsInvariants | src/pages/Admin/AttendancePage.tsx:34-44 | Whether the mark updates the first record of the player on the date or creates one under a fresh id, one record per player and date and distinct ids are kept, and the lookup then finds the marked status. |
| AttendanceMarking.MarkTwice | src/pages/Admin/AttendancePage.tsx:34-51 | Marking the same player twice while the list mirrors the records: the second call is an update, no second record appears, and the status shown is the last one marked. |
| AttendanceMarking.StaleListDuplicates | src/pages/Admin/AttendancePage.tsx:36-40 | With a stale list that misses the stored record, a successful mark creates a second record for the same player and date. |
| Routes.Guard | src/App.tsx:18-30 | The children render exactly when the user is authenticated and the role (or '' when missing) is allowed; otherwise the guard redirects to "/". |
| Routes.PageAt | src/App.tsx:49-83 | A path names a page exactly when it is an area's index, or a child of the area's page list. |
| Routes.Resolve | src/App.tsx:37-86 | Only the guard lets a page render. The login page shows exactly at "/" when not authenticated. A signed-in admin at "/" is sent to "/admin" and every other signed-in role to "/coach". Every redirect goes to "/", "/admin" or "/coach". |
| Routes.SignedInReachDashboard | src/App.tsx:38-47 | A signed-in admin at "/" reaches the admin dashboard, and a coach the coach dashboard, after one redirect. |
| Routes.VisitorsLandOnLogin | src/App.tsx:21-23 | A visitor who is not signed in reaches the login page from every path. |
| Routes.AreasAreGuarded | src/App.tsx:49-83 | Each area's index and pages render exactly for a signed-in user with that area's only role, 'admin' or 'coach'; everyone else is sent to "/". |
| Routes.OtherRolesNeverSettle | src/App.tsx:25-72 | A signed-in user whose role is neither 'admin' nor 'coach' bounces between "/" and "/coach", however many redirects are followed. |
| Routes.UnknownPathsGoHome | src/App.tsx:85 | A path that names no page is redirected to "/". |
| LoginFlow.LoginPage.constructor | src/pages/LoginPage.tsx:10-11 | The page starts with no error, not loading, at "/". |
| LoginFlow.LoginPage.HandleSubmit | src/pages/LoginPage.tsx:15-36 | Records the handler's steps in order; the error, spinner, auth session and location end as the outcome dictates. |
| LoginFlow.SpinnerAroundCall | src/pages/LoginPage.tsx:17-35 | Every submission clears the error and starts the spinner before the only login call, and ends with the spinner off. |
| LoginFlow.RoleDispatch | src/pages/LoginPage.tsx:21-32 | Exactly an 'admin' navigates to /admin, and exactly a 'coach' to /coach. Another role gets the access-denied error after the store has recorded the login. A failure shows the thrown message or 'Login failed', and leaves the store alone. |
| LoginFlow.DeniedLoginBounces | src/pages/LoginPage.tsx:22-30 | As written, a denied user is still signed in, so "/" redirects forever. |
| LoginFlow.CheckedSessionAfter | src/pages/LoginPage.tsx:22-30 | With the role checked before `login`, only admins and coaches change the store. |
| LoginFlow.CheckedDeniedStaysOnLogin | src/pages/LoginPage.tsx:22-30 | With the check first, a denied visitor stays on the login page with the error, while admins and coaches still reach their dashboards. |

## Left out

- IndexedDB mechanics are modelled by an explicit database map:
  - transactions, request callbacks and the event objects are left out;
  - a store the database lacks is modelled as a rejection;
  - the unreachable `if (!this.db)` branches of the cache are left out, because the sequential model sets `db` before the open resolves.
- Cache.CacheManager.ClearAll: `Promise.all` runs the clears concurrently; the model runs them one after another, which yields the same final state because each clear touches only its own store.
- Concurrency is left out: concurrent `initDB` callers and `Promise.all` loads. The memoised `initPromise` is a pair of flags.
- Network I/O is left out: `fetch`, the base URL, headers and `redirect`. Requests are described by their body or query string, and responses by their status and parsed body.
- The `api.works`, `api.investments` and `api.smsMessages` clients are not part of this model, because `src/services/api.ts` does not define them. For the pages that use them, a loaded list is a parameter and a call's outcome is a parameter.
- Floating-point totals, averages and amount formatting are left out: `parseFloat`, NaN and `toLocaleString`.
- Expenses.CategoryBreakdown: keeps the works of each bucket instead of summing their amounts, because the sums are floating point.
- Expenses.CategoryBreakdown: the result is a `map`, which has no order. `Object.entries` lists the buckets in the order each was first inserted, and the model does not capture that order.
- Date parsing and locale formatting are left out. Dates are ordered integers; invalid dates, and the NaN comparisons that they cause in the sort and the filters, are not modelled. `monthlyBreakdown` and the "This Month" total of the investments page are left out for the same reason.
- Lower-casing is ASCII only; Unicode case mapping is not modelled.
- JSON numbers are integers. Fractional numbers, NaN and the infinities are not modelled.
- Query strings are read by splitting at `&` and at the first `=`. The browser's URL parsing is not modelled: it drops a `#` fragment, removes tabs and line breaks, and trims leading and trailing spaces and control characters. Neither is a server's percent-decoding and `+` handling. The round-trip lemmas therefore exclude `#`, `%` and `+`.
- Amounts are kept as the text that `join` writes for them.
- Expenses.ExportLines and Investments.ExportLines: these exports do no escaping. Each lemma states only line and cell splitting, for cells without line breaks; a comma inside a field shifts the columns, and the lemmas say nothing about such rows.
- Sms.ExportLines: assumes no cell contains a line break. A quoted message containing a newline spans several lines, and the lemma does not cover it.
- AttendanceMarking.AttendancePage.MarkAttendance:
  - the attendance backend is not part of this model, so its behaviour is assumed: an update changes the record with the sent id, a create appends a record under an id the backend chooses (`newId`), and a failed call changes nothing;
  - the reload after a successful call is assumed to succeed.
- The auth store and the theme store are not part of this model. `login(user)` is taken to set `isAuthenticated` and the user's role.
- Route matching is exact on path segments. React Router's case-insensitive matching and its trailing-slash handling are not modelled.
- The batches page's `handleDelete`, the players and staff delete handlers, and `confirm`/`alert` dialogs are left out, because they are only UI around one API call.
- React state, effects and rendering are left out, apart from the values the modelled rules compute. So are the Blob/URL/anchor download steps of the CSV exports.

## Findings

| source | as written | input that shows it | evidently intended | confidence | as-written member | corrected member |
|---|---|---|---|---|---|---|
| src/pages/LoginPage.tsx:22-30 | `login(user)` runs before the role check, so a denied user is signed in anyway | a backend login that returns a user with role 'student' | only admins and coaches are signed in; a denied user stays on the login page with the access-denied message | medium, not executed (the auth store is not part of this model) | LoginFlow.DeniedLoginBounces | LoginFlow.CheckedDeniedStaysOnLogin |
