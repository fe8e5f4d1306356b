# AGU Schedule bot: a verified model of its notification engine

AGU Schedule is a Telegram bot that sends students of Astrakhan State
University their class schedule. Each student registers with a name, a
course and a study direction. Every morning at 08:00 the bot sends the day's
classes. Five minutes before each class slot it sends a reminder to
students who asked for reminders. An admin web panel manages classes,
directions, broadcasts and the delivery log.

This project models the decision logic of that system in Dafny and proves
properties of it. It covers these parts:

- **Delivery.** Batched sending, and the bounded retry of one message.
- **Jobs.** The morning job and the reminder job, which walk the students
  one at a time and write one row per student to the delivery ledger.
- **Scheduling.** The scheduler's job table, reminder times, and a second
  computation of reminder times from a check script.
- **Ledger.** The append-only delivery log, and the admin log page with its
  filter builder, pages and CSV export.
- **Broadcast.** Choosing recipients, sending, and logging.
- **SQL dialect translator.** Rewriting SQLite queries for PostgreSQL, with a
  small cursor, a script splitter and the `RETURNING id` rewrite.
- **In-memory state.** Admin sessions, the user and class tables and the
  queries over them, the admin class and direction pages, the registration
  dialogue and the settings menu.
- **Text.** The message formatters, the Russian weekday names, the profile
  and day-schedule texts, and the field bounds of the data models.
- **Donations.** The invoice payload, the pre-checkout decision, and the
  payment record.
- **Backups.** Backup naming, retention of the newest backups, and restore.

Code that changes state in place is modelled as classes and methods whose
contracts state the new state:

- the database (`Store.Database`);
- the session store;
- the scheduler's job store;
- the registration dialogue;
- the file system of the backup script.

Each method is tied to a specification function, and lemmas prove what
those functions promise. Pure code is modelled as functions and lemmas.

"Now", today's weekday, message sends, database write failures,
unlink failures and user answers are all parameters. Most are oracles
indexed by the student or the attempt.

## Model

| member | source | states |
|---|---|---|
| Timezone.WeekdayNameRu | app/utils/timezone.py:85-104 | the Russian weekday name for 0..6 (Monday first); -7..-1 index from the end as Python lists do; any other index is an IndexError (None) |
| Timezone.WeekdayNamesDistinct | app/utils/timezone.py:97-104 | Monday is index 0, Sunday index 6, and the seven names are pairwise different |
| Timezone.WeekdayNegativeWraps | app/utils/timezone.py:97-104 | a negative index -7..-1 names the same day as that index plus seven |
| Models.MakePairCreate | app/db/models/pair.py:29-38 | a class is accepted exactly when title and teacher have 1..200 characters, room 1..50 and the day is 0..6; the type defaults to "Лекция" and the link to None |
| Models.PairOf | app/db/models/pair.py:11-23 | a created class stored under an id keeps every field of its `PairCreate` |
| Models.MakeUserCreate | app/db/models/user.py:28-35 | a student is accepted exactly when the name has 1..100 characters and the course is 1..4; reminders default to on |
| Models.UserOf | app/db/models/user.py:11-22 | a stored student keeps every field of its `UserCreate`, has the given id and is not paused |
| Models.MakeDirectionCreate | app/db/models/direction.py:23-27 | a direction is accepted exactly when the name has 1..200 characters and the course is 1..4 |
| Models.DirectionOf | app/db/models/direction.py:11-17 | a direction built from a create model has the given id (None before the row exists) and the create model's name and course; both models' bounds agree |
| Store.FindUser | app/db/queries/users.py:14-39 | the student looked up by Telegram id is found exactly when one is registered under it, and carries that id |
| Store.FindDirection | app/db/queries/pairs.py:14-48 | a direction is found by id exactly when one with that id exists |
| Ledger.Logged | app/scheduler/utils/logging.py:13-40 | one delivery-log row is appended with the next id, the given student, type, status and error, stamped with the database clock; nothing else changes |
| Ledger.LoggedValid | app/scheduler/utils/logging.py:26-33 | appending a delivery-log row keeps the table invariants (ids below the counter, unique Telegram ids) |
| Ledger.LogDelivery | app/scheduler/utils/logging.py:13-40 | the tables become `Logged(...)` when the write succeeds and stay unchanged when it fails; no error reaches the caller |
| UserQueries.ActiveUsers | app/db/queries/users.py:145-162 | exactly the students not paused at that moment; each such row appears as often as the table holds it, and no other row appears |
| UserQueries.UsersByDirection | app/db/queries/users.py:165-189 | exactly the students of that direction, restricted to those not paused when `active_only`; each such row appears as often as the table holds it, and no other row appears |
| UserQueries.FilterCount | app/db/queries/users.py:145-189 | a filtered table holds each kept row as often as the table does, and no other row |
| UserQueries.SettingsUpdate | app/db/queries/users.py:71-112 | the SET list holds the reminder flag when given, the pause when given, then the update time; None when neither is given |
| UserQueries.SettingsUpdateChangesOnlyGiven | app/db/queries/users.py:90-101 | a settings update changes only the fields it was given; a pause of None leaves the stored pause as it was |
| UserQueries.UpdateUserSettings | app/db/queries/users.py:71-112 | false and no write when neither field is given; otherwise every row of that Telegram id gets the given fields and the result is true whether or not such a row exists |
| UserQueries.UpdateUserDirection | app/db/queries/users.py:115-142 | course and direction of that Telegram id's rows are replaced, nothing else changes, and the result is true |
| UserQueries.CreateUser | app/db/queries/users.py:48-68 | a new Telegram id is inserted with the next id, which is returned; an already registered one violates UNIQUE (None) and changes nothing |
| UserQueries.CreateKeepsValid | app/db/queries/users.py:48-68 | registering keeps Telegram ids unique and every id below the counter |
| UserQueries.DeleteUser | app/db/queries/users.py:192-205 | the rows of that Telegram id are removed, the others kept in order; the result is true |
| UserQueries.DeleteRemovesOnlyThat | app/db/queries/users.py:192-205 | after a delete no row of that Telegram id is left and every other student is still there |
| Delivery.SendBatch | app/scheduler/utils/delivery.py:46-62 | one pass of the batch loop: the batch's raised sends are added to the errors and the others to the successes, and the steps gain the batch and, when recipients remain, a pause, as `Schedule` has them |
| Delivery.BatchSend | app/scheduler/utils/delivery.py:16-65 | a batch size of zero is range's ValueError (None) and a negative one sends nothing; otherwise the successes are the sends that did not raise, the errors those that raised, and the sends and pauses follow `Schedule` (default batch size when None) |
| Delivery.ScheduleCoversAll | app/scheduler/utils/delivery.py:46-51 | the batches hand every recipient to the sender exactly once, in list order |
| Delivery.ScheduleShape | app/scheduler/utils/delivery.py:46-62 | every batch holds 1..B recipients and all but the last exactly B; dispatches and pauses alternate, starting and ending with a dispatch |
| Delivery.SchedulePauseCount | app/scheduler/utils/delivery.py:46-62 | there are ceil(N/B) batches and one pause fewer (none for an empty list): no pause after the last batch |
| Delivery.DefaultBatching | app/scheduler/utils/delivery.py:36-62 | with the default batch size, 30 recipients make one batch and no pause, 31 make two batches and one pause |
| Delivery.SendWithRetry | app/scheduler/utils/delivery.py:68-113 | the attempt loop, with the configured default when the budget is None, produces exactly the run `RetryFrom` describes (see the two lemmas below) |
| Delivery.RetryBounds | app/scheduler/utils/delivery.py:91-107 | at most max_retries + 1 attempts, and exactly one one-second wait between consecutive attempts |
| Delivery.RetrySucceedsIff | app/scheduler/utils/delivery.py:91-107 | the result is true exactly when some attempt k <= max_retries succeeds after k provider errors, and then it is the last attempt made |
| Delivery.DefaultRetryBudget | app/scheduler/utils/delivery.py:88-104 | with the default of one retry a message costs at most two attempts and one wait |
| Delivery.OtherErrorStops | app/scheduler/utils/delivery.py:109-111 | after provider errors on the attempts before it, an other error on attempt k within the budget ends the call with false after k + 1 attempts and k waits |
| PairQueries.FindSlot | app/db/queries/pairs.py:34 | a slot is found by id exactly when one with that id exists |
| PairQueries.DayRows | app/db/queries/pairs.py:30-35 | the join yields exactly the classes of that day assigned to the direction whose slot exists, each paired with that slot's times |
| PairQueries.DayRowsCount | app/db/queries/pairs.py:30-35 | each joined class row appears once per copy of the class in the table, and nothing else appears |
| PairQueries.PairsForDay | app/db/queries/pairs.py:14-48 | exactly the classes of that day assigned to the direction (with an existing slot), each with its slot's number, start and end, once per copy of the class in the table, ordered by slot number |
| PairQueries.AllPairs | app/db/queries/pairs.py:51-65 | a permutation of the class table ordered by weekday and then time slot id |
| PairQueries.PairDirections | app/db/queries/pairs.py:188-204 | exactly the directions the class is assigned to |
| PairQueries.AssignAll | app/db/queries/pairs.py:114-118 | one assignment row per given direction, for that class, in list order |
| PairQueries.AssignmentInsertable | app/db/connection_cloud.py:259-265 | an assignment insert passes its constraints exactly when the class and direction exist (foreign keys) and the pair is not assigned yet (UNIQUE) |
| PairQueries.InsertAssignments | app/db/queries/pairs.py:114-118 | the insert loop succeeds exactly when every assignment can be inserted in turn, and then the rows follow the old ones in list order |
| PairQueries.AssignableAllPrefix | app/db/queries/pairs.py:114-118 | a list whose prefix cannot be inserted cannot be inserted as a whole |
| PairQueries.CreatePair | app/db/queries/pairs.py:86-121 | success exactly when the class row and every assignment pass their constraints; the class then takes the next id and its assignments follow, otherwise the tables are unchanged |
| PairQueries.UpdatedPairs | app/db/queries/pairs.py:143-154 | the class with that id gets the new data and keeps its id; every other class is unchanged |
| PairQueries.WithoutPair | app/db/queries/pairs.py:159 | exactly the assignments of other classes remain |
| PairQueries.UpdatePair | app/db/queries/pairs.py:124-169 | the class row is overwritten and, when a list is given, its assignments are replaced by it; a violated constraint fails and changes nothing; an unknown id succeeds with no class row changed |
| PairQueries.WithoutPairRow | app/db/queries/pairs.py:183 | exactly the classes with another id remain |
| PairQueries.DeletePair | app/db/queries/pairs.py:172-185 | the class row and, by ON DELETE CASCADE, its assignments are removed; the result is true |
| PairQueries.ReplacedAssignmentsExact | app/db/queries/pairs.py:157-166 | after an update with a list, the directions the class is assigned to are exactly that list |
| PairQueries.DeleteLeavesNothing | app/db/queries/pairs.py:172-185 | after a delete the class is gone and no assignment refers to it |
| AdminPairs.ParseFilter | app/admin/pairs.py:95-96 | an absent or blank filter means no filter; a non-blank text is int() of it: an optionally signed decimal filters on its value, and any other text is None (the ValueError) |
| AdminPairs.ParseFilterOfId | app/admin/pairs.py:95-96 | the decimal text of an id selects exactly that id |
| AdminPairs.DirectionNames | app/admin/pairs.py:113-118 | the grouped direction names of a class, at most one per assignment, empty exactly when none of its assignments has an existing direction |
| AdminPairs.DirectionsText | app/admin/pairs.py:113-154 | the directions cell shows every name, or "Нет назначений" when there is none |
| AdminPairs.JoinedRows | app/admin/pairs.py:114-117 | exactly the classes whose slot exists, each with its slot's times and its directions |
| AdminPairs.JoinedRowsCount | app/admin/pairs.py:114-117 | each class with a slot is listed once per copy in the table, and nothing else is listed |
| AdminPairs.AllListed | app/admin/pairs.py:101-122 | every class whose slot exists, with its slot's times and directions, once per copy in the table and nothing else, ordered by weekday and then slot number |
| AdminPairs.KeptRows | app/admin/pairs.py:125-155 | exactly the rows that pass the direction filter (the class is assigned to it) and the weekday filter |
| AdminPairs.KeptCount | app/admin/pairs.py:125-155 | the filters keep each kept row as often as the list holds it, and no other row |
| AdminPairs.KeptSorted | app/admin/pairs.py:125-155 | filtering keeps the weekday and slot order |
| AdminPairs.FilterRows | app/admin/pairs.py:125-155 | the filter loop computes exactly `KeptRows` |
| AdminPairs.TotalPages | app/admin/pairs.py:159 | ceil(n / 20): zero for an empty list, otherwise the least page count that covers every row |
| AdminPairs.SliceBound | app/admin/pairs.py:162 | a Python slice bound: negative counts from the end, then clamped to the list |
| AdminPairs.PageWindow | app/admin/pairs.py:158-162 | page p >= 1 shows the rows from (p - 1) * 20 up to p * 20, cut at the end; at most 20 rows |
| AdminPairs.PageNonEmptyIff | app/admin/pairs.py:158-162 | a page from 1 on is non-empty exactly when it is at most the page count |
| AdminPairs.RowOnItsPage | app/admin/pairs.py:158-162 | row i appears on page i / 20 + 1 at position i % 20 |
| AdminPairs.PageZeroEmpty | app/admin/pairs.py:160-162 | page 0 shows nothing |
| AdminPairs.NegativePageFromEnd | app/admin/pairs.py:160-162 | page -1 is not rejected and shows rows counted from the end of the list |
| AdminPairs.PairsList | app/admin/pairs.py:75-191 | None exactly when a filter is not an integer; otherwise the page of the filtered, ordered list with its page count and the parsed filters |
| AdminPairs.NormalizeLink | app/admin/pairs.py:284 | an empty link is stored as NULL and any other link as given |
| AdminPairs.FormData | app/admin/pairs.py:250-256 | the class the form describes, field by field, with the link normalised |
| AdminPairs.AdminCreatePair | app/admin/pairs.py:247-304 | the class and one assignment per direction are committed together exactly when all pass their constraints, as `CreatedPair` states |
| AdminPairs.AdminUpdatePair | app/admin/pairs.py:396-464 | the class is overwritten and its assignments become exactly the submitted directions, as `UpdatedPair` states |
| AdminPairs.AdminDeletePair | app/admin/pairs.py:468-501 | the class and all its assignments are removed and nothing else changes |
| Jobs.EntryFor | app/scheduler/jobs/reminders.py:77-92 | the ledger row for one student carries the Telegram id and the job's type; 'sent' exactly when delivered, otherwise 'error' with "Failed after retries" or the exception's text |
| Jobs.Requested | app/scheduler/jobs/reminders.py:50-92 | a job asks for at most one ledger row per student |
| Jobs.Written | app/scheduler/utils/logging.py:39-40 | the rows actually written are at most those asked for (a failed write is swallowed) |
| Jobs.CountStatus | app/scheduler/jobs/reminders.py:46-92 | each of the job's counters is at most the number of rows asked for |
| Jobs.StatusCountsAddUp | app/scheduler/jobs/morning_message.py:39-72 | successes plus errors equal the number of rows the job asked for |
| Jobs.RunSnoc | app/scheduler/jobs/morning_message.py:43-72 | one more student adds that student's row (when asked for and written) and bumps exactly the counter of its status |
| Jobs.RunAppendsOnly | app/scheduler/utils/logging.py:30-38 | a job's run changes no table but the ledger, keeps every existing ledger row, and appends exactly the rows that were written |
| Jobs.RunRowsInOrder | app/scheduler/jobs/morning_message.py:43-72 | when every write succeeds the new ledger rows are exactly the requested rows, one per student, in student order |
| Jobs.MorningEntry | app/scheduler/jobs/morning_message.py:57-72 | the morning row of a student is of type 'morning' and logs the Telegram id, not the row id |
| Jobs.MorningEntries | app/scheduler/jobs/morning_message.py:43-72 | the morning job asks for exactly one row per active student, in order |
| Jobs.AllRequested | app/scheduler/jobs/morning_message.py:43-72 | when every position asks for a row, the rows asked for are exactly those, in order |
| Jobs.Record | app/scheduler/jobs/morning_message.py:57-72 | one loop step writes that position's row (when asked for and written) and updates the matching counter |
| Jobs.MorningStep | app/scheduler/jobs/morning_message.py:44-72 | handling one student yields exactly `MorningEntry` for that student |
| Jobs.MorningJob | app/scheduler/jobs/morning_message.py:17-83 | when the user fetch works, the ledger gets the rows of the active students in order and the counters count 'sent' and 'error'; a whole-job failure changes nothing and is not raised |
| Jobs.MorningOneRowPerUser | app/scheduler/jobs/morning_message.py:39-72 | with working writes, each active student gets exactly one 'morning' row with their Telegram id, in order, and sent + errors equals the number of active students |
| Jobs.Candidates | app/scheduler/jobs/reminders.py:34-35 | exactly the students not paused at that moment with reminders on, each as often as the table holds the row |
| Jobs.FirstFrom | app/scheduler/jobs/reminders.py:58-62 | the index of the first class whose start text equals the slot's, or None when no class matches |
| Jobs.FindMatching | app/scheduler/jobs/reminders.py:58-62 | the search loop finds exactly the first matching class |
| Jobs.ReminderEntry | app/scheduler/jobs/reminders.py:51-92 | a student gets no row exactly when the query did not raise and no class of the day starts at the slot's start; any row is a 'reminder' row for the Telegram id |
| Jobs.ReminderEntries | app/scheduler/jobs/reminders.py:50-92 | the reminder job decides at most one row per candidate, one position per candidate |
| Jobs.ReminderStep | app/scheduler/jobs/reminders.py:51-92 | handling one candidate yields exactly `ReminderEntry` for that student |
| Jobs.ReminderJob | app/scheduler/jobs/reminders.py:18-103 | when the user fetch works, the ledger gets the rows of the matched candidates in order and the counters count 'sent' and 'error'; a whole-job failure changes nothing |
| Jobs.ReminderRowsOnlyForMatches | app/scheduler/jobs/reminders.py:64-66 | a candidate gets a row exactly when the query raised or some class of the day starts at the slot's start |
| Jobs.NoCandidatesNoRows | app/scheduler/jobs/reminders.py:39-41 | with no candidates the job writes nothing |
| Scheduling.FromMinuteOfDay | app/scheduler/jobs/reminders.py:122-125 | the time of day at a minute 0..1439 is a valid time for that minute |
| Scheduling.ReminderAt | app/scheduler/jobs/reminders.py:121-125 | the reminder time is a valid time of day that, plus the lead, is the start time modulo one day |
| Scheduling.ReminderSameDay | app/scheduler/jobs/reminders.py:121-125 | when the lead does not reach back past midnight the reminder is simply start minus lead |
| Scheduling.ReminderWrapsPastMidnight | app/scheduler/jobs/reminders.py:121-125 | a class at 00:03 is reminded at 23:58 the previous day |
| Scheduling.ParseHourMinute | app/scheduler/jobs/reminders.py:118 | unpacking succeeds exactly when the text splits at ':' into two integers, and yields them |
| Scheduling.ParseClock | app/scheduler/jobs/reminders.py:118-119 | a parsed clock time is always a valid time of day |
| Scheduling.ParseClockSpec | app/scheduler/jobs/reminders.py:118-119 | parsing succeeds exactly when the text unpacks into an hour 0..23 and a minute 0..59, and yields that time |
| Scheduling.CalculateReminderTime | app/scheduler/jobs/reminders.py:106-125 | defined exactly when the start text parses, and then the reminder `ReminderAt` gives |
| Scheduling.ParseClockText | app/scheduler/jobs/reminders.py:118-119 | the "HH:MM" text of any valid time parses back to that time |
| Scheduling.MalformedStartRejected | app/scheduler/jobs/reminders.py:118 | a start text without a colon makes the calculation raise |
| Scheduling.JobStore.AddJob | app/scheduler/scheduler.py:75-86 | adding a job stores it under its id and replaces any job with the same id |
| Scheduling.SetupScheduler | app/scheduler/scheduler.py:30-94 | the new store gets the morning job and then each slot's reminder job in slot-number order; setup fails exactly when some start time does not parse, and otherwise the store holds exactly `JobTable` of the slots |
| Scheduling.TimeSlots | app/scheduler/scheduler.py:18-28 | a permutation of the slot table ordered by slot number |
| Scheduling.SlotNumbers | app/scheduler/scheduler.py:83 | exactly the slot numbers of the slots |
| Scheduling.JobTableDefinedIff | app/scheduler/scheduler.py:68-86 | setup succeeds exactly when every slot's reminder job can be built |
| Scheduling.JobTableKeys | app/scheduler/scheduler.py:47-83 | the table holds the morning job at 08:00 under its id and exactly one reminder id per slot number |
| Scheduling.JobTableLastWins | app/scheduler/scheduler.py:83-85 | the job under a slot number is the one built from the last slot with that number |
| Scheduling.JobCount | app/scheduler/scheduler.py:93 | the number of jobs is 1 plus the number of distinct slot numbers |
| Scheduling.DistinctSlotNumbers | app/scheduler/scheduler.py:93 | slots with pairwise different numbers have as many numbers as slots |
| Scheduling.JobCountDistinct | app/scheduler/scheduler.py:93 | with distinct slot numbers there is one job per slot plus the morning job |
| Scheduling.BorrowAgrees | scripts/check_scheduler.py:64-68 | for a lead of 0..60 minutes that does not reach back past midnight, the borrow step gives the same time as start minus lead |
| Scheduling.BorrowNoWrapAtMidnight | scripts/check_scheduler.py:64-68 | for hour 0 and a minute below the lead, the borrow step gives hour -1, which is no valid time |
| Scheduling.BorrowWrappedAgrees | scripts/check_scheduler.py:64-68 | the corrected borrow step, which wraps hour -1 to 23, always gives a valid time equal to start minus lead modulo one day |
| Scheduling.CheckTime | scripts/check_scheduler.py:61-68 | the check script's trigger time is valid whenever the script does not raise |
| Scheduling.CheckRejectsEarlySlot | scripts/check_scheduler.py:66-75 | a slot starting less than 5 minutes after midnight makes the check script raise |
| Scheduling.AddCheckJobs | scripts/check_scheduler.py:39-79 | the loop adds the morning job and then one reminder job per slot row, keyed by the slot's row id, in order; it fails exactly when some slot's time fails |
| Scheduling.CheckScheduler | scripts/check_scheduler.py:15-98 | the script finishes exactly when every slot's time is valid, registers 1 + slots jobs, and reports success exactly when there are 5 slots |
| LogView.PiecesBuilt | app/admin/logs.py:52-76 | each filter contributes its SQL condition and its parameter exactly when it applies: a whitelisted type, a whitelisted status, a parseable start date, a parseable end date |
| LogView.BuildFilter | app/admin/logs.py:49-76 | the builder loop yields the condition texts and the parameters of the applicable filters, in the same order |
| LogView.ConditionsMeanSelected | app/admin/logs.py:49-80 | a ledger row satisfies every built condition exactly when it has the chosen type and status and lies between the start date and the day after the end date |
| LogView.UnknownTypeIgnored | app/admin/logs.py:52-54 | a type outside 'morning', 'reminder', 'broadcast' filters nothing |
| LogView.UnknownStatusIgnored | app/admin/logs.py:56-58 | a status outside 'sent', 'error' filters nothing |
| LogView.UnparseableDatesIgnored | app/admin/logs.py:60-76 | a start date that does not parse adds no condition, whatever the end date; likewise an end date that does not parse |
| LogView.EndDateTakesWholeDay | app/admin/logs.py:68-74 | the exclusive bound one day after the end date admits exactly the instants up to the end of that day |
| LogView.ConditionSqlPlaceholder | app/admin/logs.py:53-73 | every condition text holds exactly one '?' |
| LogView.AndJoinedPlaceholders | app/admin/logs.py:79-80 | conditions joined with " AND " hold one '?' per condition |
| LogView.WherePlaceholdersMatchParams | app/admin/logs.py:49-87 | the WHERE clause holds exactly as many '?' as there are parameters |
| LogView.TotalPagesBounds | app/admin/logs.py:92 | max(1, ceil(total / per_page)): one page for an empty result, otherwise the least page count that covers every row |
| LogView.OffsetWithinRows | app/admin/logs.py:92-94 | the clamped page lies between 1 and the page count, and its offset is 0 for an empty result and inside the result otherwise |
| LogView.Range | app/admin/logs.py:171 | Python's range(lo, hi): the consecutive integers from lo below hi |
| LogView.PaginationWindow | app/admin/logs.py:164-172 | the page is clamped into 1..total_pages; has_prev exactly when it is not the first, has_next exactly when it is not the last; the window holds 1..5 consecutive pages within two of the current one, and the current one |
| LogView.FindUserById | app/admin/logs.py:110 | the LEFT JOIN finds a student by row id exactly when one has that id |
| LogView.JoinRow | app/admin/logs.py:109-111 | the joined row keeps the ledger row, and a direction is joined only through a student |
| LogView.TextOr | app/admin/logs.py:135-298 | Python's `x or default` on text: the value when non-empty, else the default |
| LogView.IntOr | app/admin/logs.py:137-299 | Python's `x or default` on a number: the value when non-zero, else the default text |
| LogView.Entry | app/admin/logs.py:127-138 | a row whose student is gone shows "Удалён" and no ids; one without a direction shows "N/A" for direction and course; id, type and status are the ledger row's |
| LogView.FormatLogs | app/admin/logs.py:120-138 | one display entry per fetched row, in order |
| LogView.Matching | app/admin/logs.py:83-89 | exactly the ledger rows that satisfy every condition |
| LogView.MatchingCount | app/admin/logs.py:83-89 | each ledger row that satisfies every condition is selected as often as the ledger holds it, and no other row is |
| LogView.PageRows | app/admin/logs.py:113-116 | LIMIT/OFFSET: up to per_page rows from the offset, in order |
| LogView.ListedRows | app/admin/logs.py:97-117 | the listed rows are exactly the selected ones, each as often as the ledger holds it, newest first |
| LogView.LogsPage | app/admin/logs.py:20-194 | the pagination is that of the matching count; the page query's parameters are the filter's then per_page and the offset; the entries are the formatted rows of the clamped page |
| LogView.CsvRow | app/admin/logs.py:289-300 | each CSV line has the header's nine columns, with '' for a missing error and "Удалён" for a missing name |
| LogView.WriteCsv | app/admin/logs.py:283-300 | the header, then one line per row in order, every line nine columns |
| LogView.ExportLogs | app/admin/logs.py:198-315 | the export uses the same filter parameters, and writes the header then one line per selected row, newest first |
| LogView.CountStatus | app/admin/logs.py:141-150 | a status count never exceeds the number of rows |
| LogView.CountType | app/admin/logs.py:141-150 | a type count never exceeds the number of rows |
| LogView.StatsPartition | app/admin/logs.py:141-161 | sent plus errors is the total, and so is morning plus reminder plus broadcast |
| Broadcast.ParseTarget | app/admin/broadcast.py:194-200 | 'course_' wins over 'direction_'; at most one filter is set; a target with neither prefix means everyone; None when the rest is not an integer (int() raises) |
| Broadcast.CourseTargetRoundTrip | app/admin/broadcast.py:197-198 | the target 'course_N' selects course N and no direction |
| Broadcast.DirectionTargetRoundTrip | app/admin/broadcast.py:199-200 | the target 'direction_N' selects direction N and no course |
| Broadcast.Candidates | app/admin/broadcast.py:36-66 | exactly the students with an existing direction who are not paused at that moment and pass the course and direction filters, one recipient per student |
| Broadcast.UsersByFilterSelects | app/admin/broadcast.py:20-68 | the recipients are exactly the eligible students, ordered by name |
| Broadcast.CandidatesDistinct | app/admin/broadcast.py:36-66 | students with distinct Telegram ids yield recipients with distinct Telegram ids |
| Broadcast.EachRecipientOnce | app/admin/broadcast.py:20-68 | in a consistent database (no Telegram id registered twice) every eligible student is a recipient exactly once and no recipient appears twice |
| Broadcast.ZeroFilterIsEveryone | app/admin/broadcast.py:44-50 | a course or direction of 0 is falsy and filters nothing |
| Broadcast.BroadcastRunStep | app/admin/broadcast.py:223-238 | one more recipient appends exactly one 'broadcast' row: 'sent', or 'error' with the exception's text |
| Broadcast.SentCount | app/admin/broadcast.py:218-238 | the success count never exceeds the number of recipients |
| Broadcast.BroadcastRunRows | app/admin/broadcast.py:223-238 | the run appends exactly one ledger row per recipient, in order, under the recipient's row id, keeps the existing rows and changes no other table |
| Broadcast.SentCountIsSentRows | app/admin/broadcast.py:224-230 | the success count is the number of recipients whose send did not raise |
| Broadcast.PauseStep | app/admin/broadcast.py:241-242 | one more message adds a pause exactly when the count reaches a multiple of 30 |
| Broadcast.LogBroadcastDelivery | app/admin/broadcast.py:71-88 | appends one 'broadcast' row with the given student, status and error |
| Broadcast.SendOne | app/admin/broadcast.py:223-239 | one recipient: a send that went through logs 'sent' and counts a success, one that raised logs 'error' with its text and counts an error; the ledger gains exactly that row |
| Broadcast.SendAll | app/admin/broadcast.py:218-242 | successes plus errors equal the recipients, successes are the sends that did not raise, one pause per full 30 messages, and the ledger gets the run's rows |
| Broadcast.SendBroadcast | app/admin/broadcast.py:170-252 | a bad target raises and changes nothing; no recipients redirects with no_users and writes nothing; otherwise the summary counts successes and errors and every recipient gets one row |
| Broadcast.UserCount | app/admin/broadcast.py:256-280 | defined exactly when the target parses, and never more than the number of students |
| Broadcast.NoRecipientsIffNoneEligible | app/admin/broadcast.py:206-210 | the no_users branch is taken exactly when no student is eligible |
| AdminAuth.Lookup | app/admin/auth.py:41-53 | a missing or empty session id finds nothing; otherwise the session is found exactly when the id is in the store |
| AdminAuth.Removed | app/admin/auth.py:56-66 | destroying removes exactly that id (when it is usable) and keeps every other session unchanged |
| AdminAuth.Current | app/admin/auth.py:87-109 | access is granted exactly when a session is found and authenticated, and then with that session |
| AdminAuth.VerifyCredentials | app/admin/auth.py:69-83 | true exactly when both the username and the password equal the configured ones |
| AdminAuth.SessionStore.CreateSession | app/admin/auth.py:22-38 | the store gains the fresh id mapped to an authenticated session for that user; the id is returned |
| AdminAuth.SessionStore.DestroySession | app/admin/auth.py:56-66 | the store becomes `Removed` of the old store |
| AdminAuth.CreatedIsFound | app/admin/auth.py:22-53 | a created session is found under its id and grants access |
| AdminAuth.DestroyRemovesOnlyThat | app/admin/auth.py:56-109 | after a destroy that id is found no more and redirects to login, while every other id finds what it found before |
| AdminAuth.AdmittedIffKnown | app/admin/auth.py:87-109 | when every stored session is authenticated, access is granted exactly for a non-empty id in the store |
| AdminDirections.ParseCourseParam | app/admin/directions.py:24 | an absent or blank course means no filter; otherwise int() of the text, None when it raises |
| AdminDirections.UsersIn | app/admin/directions.py:33-181 | the student count of a direction is zero exactly when no student has it |
| AdminDirections.Rows | app/admin/directions.py:29-54 | exactly the directions of the chosen course (any when the filter is falsy), each with its student count |
| AdminDirections.RowsCount | app/admin/directions.py:29-54 | each kept direction is listed once per copy in the table, with its student count, and nothing else is listed |
| AdminDirections.DirectionsListShows | app/admin/directions.py:17-66 | the list is exactly those rows, each direction once per copy in the table, ordered by course and then name |
| AdminDirections.DirectionCreate | app/admin/directions.py:87-108 | a direction is inserted with the next id exactly when its name and course are not taken (UNIQUE); otherwise the error is swallowed and nothing changes |
| AdminDirections.CreateKeepsNamesUnique | app/admin/directions.py:96-100 | an accepted insert keeps name and course unique |
| AdminDirections.WithoutDirection | app/admin/directions.py:192-195 | exactly the directions with another id remain |
| AdminDirections.WithoutAssignmentsOf | app/admin/directions.py:188-191 | exactly the assignments to other directions remain |
| AdminDirections.DirectionDelete | app/admin/directions.py:168-201 | the direction and its assignments are deleted exactly when no student has it; otherwise nothing changes |
| AdminDirections.DeleteLeavesNoOrphans | app/admin/directions.py:177-196 | after a delete no student and no assignment refers to the direction, and every other direction and assignment is kept |
| Registration.CallbackNumber | app/bot/handlers/registration.py:54 | the number after the first ':' of the callback data, present only when the data has a second piece that parses (otherwise int() raises) |
| Registration.CallbackNumberRoundTrip | app/bot/handlers/registration.py:54 | the callback data "prefix:N" that the keyboards produce reads back as N |
| Registration.Conversation.Clear | app/bot/handlers/registration.py:69 | `state.clear()` leaves no state and no data |
| Registration.Conversation.ProcessName | app/bot/handlers/registration.py:27-48 | only in the name state: a stripped name of 2..100 characters is stored and the dialogue moves to the course question; anything else changes nothing |
| Registration.Conversation.ProcessCourse | app/bot/handlers/registration.py:51-81 | only in the course state and for 'course:N' data that parses: the course is stored and the dialogue moves on when some direction has that course, otherwise it is cleared |
| Registration.Conversation.BackToCourse | app/bot/handlers/registration.py:84-95 | from the direction state, 'back_to_course' returns to the course question; the data is kept |
| Registration.Conversation.ProcessDirection | app/bot/handlers/registration.py:98-153 | only in the direction state and for 'direction:N' data that parses: an existing direction is stored with its name and the dialogue moves to confirmation, an unknown one clears the dialogue |
| Registration.Conversation.ConfirmRegistration | app/bot/handlers/registration.py:156-226 | when changing a direction, the student's course and direction are updated; otherwise a student is registered with reminders on when the name and course pass the bounds and the Telegram id is new, else the handler raises and nothing changes; the dialogue is cleared after a write |
| Registration.Conversation.RestartRegistration | app/bot/handlers/registration.py:229-252 | from confirmation, 'restart_registration' goes back to the course question when changing a direction and to the name question otherwise; the data is kept |
| Registration.Conversation.CmdStart | app/bot/handlers/start.py:22-53 | a registered student is welcomed back with their reminder setting and the dialogue is untouched; anyone else enters the name question |
| BotSettings.PausedAgainstActive | app/bot/handlers/settings.py:29-38 | the menu's pause test and the jobs' active test agree except at the instant a pause ends and for an unreadable pause value, which the menu shows as no pause while the jobs skip the student |
| BotSettings.SettingsKeyboard | app/bot/keyboards/settings.py:10-42 | five buttons: reminders, pause or resume, change direction, share, close |
| BotSettings.SettingsKeyboardOffersOpposite | app/bot/keyboards/settings.py:10-42 | the reminder button offers to switch reminders off exactly when they are on, and the second button offers resume exactly when paused |
| BotSettings.PauseKeyboard | app/bot/keyboards/settings.py:45-59 | one button per pause length with data 'pause:N', then back to settings |
| BotSettings.PauseButtonsReadBack | app/bot/handlers/settings.py:140 | every pause button's data starts with 'pause:' and reads back as its number of days |
| BotSettings.ShowSettings | app/bot/handlers/settings.py:42-91 | the menu is shown exactly for a registered student, with that student's reminder flag and pause state |
| BotSettings.ToggleReminders | app/bot/handlers/settings.py:95-122 | for a registered student the reminder flag is flipped in the table and the new value returned; an unregistered one changes nothing |
| BotSettings.ToggleTwiceRestores | app/bot/handlers/settings.py:107-108 | flipping the reminder flag changes only that flag, and flipping it twice restores the student |
| BotSettings.ProcessPauseDuration | app/bot/handlers/settings.py:138-165 | for a registered student and data that parses, the pause end now + N days is stored and returned; otherwise nothing changes |
| BotSettings.PauseSilencesUntilEnd | app/bot/handlers/settings.py:152-153 | after a pause of N >= 1 days the student shows as paused, keeps the reminder flag, and is active again exactly after the pause end |
| BotSettings.ResumeNotifications | app/bot/handlers/settings.py:169-193 | as written: found exactly for a registered student, and the write it issues is the settings update with no field given |
| BotSettings.ResumeLeavesPause | app/bot/handlers/settings.py:181 | as written, resuming leaves the tables unchanged, so a paused student stays paused and inactive |
| BotSettings.Unpaused | app/bot/handlers/settings.py:181 | clearing the pause sets it to none and changes nothing else |
| BotSettings.ResumeNotificationsCleared | app/bot/handlers/settings.py:169-193 | corrected: for a registered student the pause of that Telegram id's rows is cleared; an unregistered one changes nothing |
| BotSettings.ClearedResumeReactivates | app/bot/handlers/settings.py:181 | after the corrected resume the student is neither paused nor inactive and keeps reminders and direction; other students are unchanged |
| BotSettings.ChangeDirection | app/bot/handlers/settings.py:249-271 | the dialogue moves to the course question; for a registered student the name is stored and the changing flag set, otherwise the data is kept |
| CloudDb.ParamDigits | app/db/connection_cloud.py:41 | the number of a `$k` placeholder is a non-empty run of digits |
| CloudDb.PieceCounts | app/db/connection_cloud.py:38-44 | each character's output piece holds no '?' and one '$' exactly when the character is '?' or '$' |
| CloudDb.NumberedNoQuestionMark | app/db/connection_cloud.py:38-46 | after numbering no '?' is left |
| CloudDb.NumberedDollarCount | app/db/connection_cloud.py:38-46 | numbering yields one '$' per input '?' plus those already there |
| CloudDb.NumberedConcat | app/db/connection_cloud.py:38-46 | numbering a concatenation numbers the second part from where the first one stopped |
| CloudDb.SeenAfterCount | app/db/connection_cloud.py:36-41 | the placeholder counter after a text has grown by that text's number of '?' |
| CloudDb.KthPlaceholder | app/db/connection_cloud.py:38-46 | a '?' preceded by k - 1 others becomes `$k`; the text before it is numbered as on its own |
| CloudDb.NumberedNoPlaceholders | app/db/connection_cloud.py:42-43 | a text without '?' is copied unchanged, character by character |
| CloudDb.ConvertedNoQuestionMark | app/db/connection_cloud.py:27-52 | the converted query holds no '?' |
| CloudDb.ConvertedDollarCount | app/db/connection_cloud.py:27-52 | the converted query holds one '$' per input '?' plus the input's own '$' |
| CloudDb.ConvertedPlain | app/db/connection_cloud.py:27-52 | a query with no '?', no datetime('now') and no AUTOINCREMENT is left as it is |
| CloudDb.ConvertQuery | app/db/connection_cloud.py:27-52 | the method computes exactly the conversion: numbering, then the two replacements |
| CloudDb.NumberPlaceholders | app/db/connection_cloud.py:34-46 | the character loop computes exactly the numbering of the whole query |
| CloudDb.FirstId | app/db/connection_cloud.py:132-134 | present exactly when there is a first row and it has an 'id' column, and then its value |
| CloudDb.Cursor.FetchOne | app/db/connection_cloud.py:141-147 | returns the next row and advances the index, or None without moving once every row is read; the rows never change |
| CloudDb.Cursor.FetchAll | app/db/connection_cloud.py:149-151 | returns every row whatever the index |
| CloudDb.DrainCursor | app/db/connection_cloud.py:141-147 | calling fetchone until None yields exactly the rows not yet read, in order |
| CloudDb.Execute | app/db/connection_cloud.py:75-88 | a query that converts to a SELECT gets a cursor over the fetched rows; any other query gets an empty cursor with the status text |
| CloudDb.NonBlankStripped | app/db/connection_cloud.py:93 | the kept pieces are never more than the pieces |
| CloudDb.NonBlankStrippedParts | app/db/connection_cloud.py:93 | every kept piece is non-blank and holds no character its pieces did not |
| CloudDb.StatementsShape | app/db/connection_cloud.py:90-100 | every statement of a script is non-empty and holds no ';' |
| CloudDb.SingleStatement | app/db/connection_cloud.py:93 | a script without ';' is one stripped statement, or none when blank |
| CloudDb.FailureCount | app/db/connection_cloud.py:96-100 | the failures are never more than the statements, and zero exactly when none fails |
| CloudDb.ExecuteEach | app/db/connection_cloud.py:94-100 | every statement is sent converted, in order, and a failing one does not stop the rest |
| CloudDb.ExecuteScript | app/db/connection_cloud.py:90-100 | the script's statements are sent converted, in order; at most one failure each |
| CloudDb.RStripChar | app/db/connection_cloud.py:200 | rstrip(';'): a prefix of the text that does not end in ';', and only ';' was removed |
| CloudDb.WithReturningAsksForId | app/db/connection_cloud.py:199-200 | an INSERT always ends up asking for RETURNING |
| CloudDb.WithReturningIdempotent | app/db/connection_cloud.py:199-200 | the rewrite applied twice is the rewrite applied once |
| CloudDb.WithReturningOnlyInserts | app/db/connection_cloud.py:199 | a query without INSERT is left as it is |
| CloudDb.ExecuteReturning | app/db/connection_cloud.py:193-202 | the converted and rewritten query is sent; an INSERT asks for RETURNING; the result is the returned row's id, or None when no row comes back |
| CloudDb.PoolUrl | app/db/connection_cloud.py:58-61 | a URL is present after the fix exactly when it was before |
| CloudDb.PoolUrlScheme | app/db/connection_cloud.py:60-61 | the fixed URL never starts with 'postgres://', and a 'postgres://' URL keeps everything after its scheme |
| CloudDb.PoolUrlIdempotent | app/db/connection_cloud.py:60-61 | fixing a URL twice is fixing it once |
| CloudDb.SeedSlots | app/db/connection_cloud.py:308-315 | five slots numbered 1..5 with the seeded start and end times, ids from the counter |
| CloudDb.SeedTimeSlots | app/db/connection_cloud.py:305-316 | an empty slot table gets the five seeded slots; a non-empty one is left alone |
| CloudDb.SeedStart | app/db/connection_cloud.py:310-314 | every seeded start is a valid time of day |
| CloudDb.SeedStartsParse | app/db/connection_cloud.py:310-314 | every seeded start text parses to its time |
| CloudDb.SeedReminder | app/db/connection_cloud.py:310-314 | every seeded slot gets a reminder job |
| CloudDb.SeedNumbersDistinct | app/db/connection_cloud.py:310-314 | the seeded slot numbers are pairwise different |
| CloudDb.SeedRemindersDefined | app/db/connection_cloud.py:310-314 | the reminder job of every seeded slot can be built |
| CloudDb.SeededScheduleHasSixJobs | app/db/connection_cloud.py:305-316 | with the seeded slots the scheduler's setup succeeds with exactly six jobs, the number the check script expects |
| Formatters.LinkLine | app/bot/utils/formatters.py:55-56 | the morning message carries a link line exactly when the class has a non-empty link |
| Formatters.PairBlocks | app/bot/utils/formatters.py:47-58 | one block per class, the i-th block showing the i-th class, in the order the classes were given |
| Formatters.PairBlocksSnoc | app/bot/utils/formatters.py:47-58 | each pass of the loop appends the block of the next class to what was already written |
| Formatters.FormatScheduleMessage | app/bot/utils/formatters.py:12-62 | the weekday name's IndexError is the only failure (None exactly when the day has no Russian name); otherwise the loop builds the greeting, one block per class with its link line only when the link is set, the closing line, and strips the result; with no classes the no-classes text is returned unstripped |
| Formatters.ScheduleBodyFramed | app/bot/utils/formatters.py:28-62 | the text before stripping starts with a visible character after its newline and ends with the closing line, whose last character is not white space |
| Formatters.ScheduleMessageStripped | app/bot/utils/formatters.py:60-62 | with classes, stripping removes exactly the leading newline: the message is the greeting, the blocks and the closing line |
| Formatters.PairBlocksInOrder | app/bot/utils/formatters.py:47-58 | the block of the i-th class sits between the blocks of the classes before it and those after it |
| Formatters.PairBlockShows | app/bot/utils/formatters.py:47-58 | a class's block shows its start and end time, title, teacher, room and type, and shows the link (and its link line) exactly when a link is given |
| Formatters.ReminderLink | app/bot/utils/formatters.py:92-93 | the reminder carries a link tail exactly when the class has a non-empty link |
| Formatters.ReminderShows | app/bot/utils/formatters.py:65-95 | the stripped reminder still shows the start time, end time, title and teacher |
| Formatters.ReminderShowsRoomAndLink | app/bot/utils/formatters.py:81-95 | the room survives the strip when a link follows it or its last character is not white space; a given link is always shown |
| Formatters.ReminderLinkShows | app/bot/utils/formatters.py:92-95 | with a link, both the room and the link are in the stripped reminder |
| Formatters.ConfirmationShows | app/bot/utils/formatters.py:98-127 | the confirmation shows the name, the course as `str()` writes it, the direction, and the reminder state, which reads "enabled" exactly when reminders are on |
| Formatters.ConfirmationVariantsDiffer | app/bot/utils/formatters.py:119-122 | the confirmations with reminders on and off differ |
| CommonHandlers.Tomorrow | app/bot/handlers/common.py:200-201 | tomorrow's weekday is in 0..6: the next day, and Monday after Sunday |
| CommonHandlers.DayName | app/bot/handlers/common.py:129 | the configured name of the day when the index is inside the name list, "день" past its end |
| CommonHandlers.DirectionLabel | app/bot/handlers/common.py:135-140 | the name of the student's direction when the direction row exists; otherwise "None", because the joined user row always has the key and the default is never used |
| CommonHandlers.SlotBlocks | app/bot/handlers/common.py:142-149 | one text block per scheduled class |
| CommonHandlers.GetScheduleForDay | app/bot/handlers/common.py:94-151 | the day's text is built from exactly the rows of the join query for the student's direction and that day, ordered by slot, with the day's name and the direction's label |
| CommonHandlers.ScheduleLines | app/bot/handlers/common.py:139-149 | the two header lines followed by one block per row, in row order |
| CommonHandlers.SlotBlockShows | app/bot/handlers/common.py:144-149 | a block shows the slot number, start and end time, title, teacher, room and type |
| CommonHandlers.NoPairsShowsDay | app/bot/handlers/common.py:131-136 | the free-day text names the day and the direction |
| CommonHandlers.ScheduleShowsDayPairs | app/bot/handlers/common.py:94-151 | every row shown for a day is a class of that day assigned to the student's direction, and its block, title, teacher, room, type and times are in the text |
| CommonHandlers.DayScheduleShowsRow | app/bot/handlers/common.py:139-151 | every row's block and fields appear in the joined text |
| CommonHandlers.ScheduleToday | app/bot/handlers/common.py:155-181 | an unknown student gets no schedule; a known one gets the schedule of today's weekday for the stored direction |
| CommonHandlers.ScheduleTomorrow | app/bot/handlers/common.py:185-211 | an unknown student gets no schedule; a known one gets the schedule of `(weekday + 1) % 7` |
| CommonHandlers.RemindStatus | app/bot/handlers/common.py:233 | the profile says "enabled" exactly when reminders are on |
| CommonHandlers.PauseShownIffPaused | app/bot/handlers/common.py:235-242 | the profile shows a pause exactly when the stored pause parses and lies after now, and then shows its end date |
| CommonHandlers.Profile | app/bot/handlers/common.py:215-261 | a profile exists exactly for a registered student; anyone else gets the not-registered reply |
| CommonHandlers.ProfileShows | app/bot/handlers/common.py:244-253 | the profile shows the student's name, course, direction label, reminder status and pause status |
| Support.DonationPayload | app/bot/handlers/support.py:55 | the payload is the donation prefix, an underscore and the payer's Telegram id, which reads back from the tail |
| Support.SupportInvoice | app/bot/handlers/support.py:51-62 | the invoice goes to the user's chat, in Telegram Stars, for 10, with the payer's payload |
| Support.PayloadNamesPayer | app/bot/handlers/support.py:55 | two users get the same payload exactly when they are the same user |
| Support.PreCheckout | app/bot/handlers/support.py:82-107 | a payload is approved exactly when the handler did not raise and it starts with the donation prefix; other payloads get the payload error, a raise the processing error |
| Support.IssuedInvoicesApproved | app/bot/handlers/support.py:82-99 | every invoice the bot issues passes its own pre-checkout |
| Support.PrefixCheckAdmitsForeignPayload | app/bot/handlers/support.py:87 | the prefix test also approves the bare prefix, which no issued invoice carries |
| Support.RecipientGuardNeverFires | app/bot/handlers/support.py:125-130 | the recipient guard compares the admin id with itself and never rejects |
| Support.ProcessSuccessfulPayment | app/bot/handlers/support.py:119-158 | never a recipient mismatch; a successful INSERT appends exactly one 'completed' payment with the payer, amount, currency, payload and charge id under the next id; a failed one changes nothing |
| Support.ThanksShowsAmount | app/bot/handlers/support.py:161-174 | the thank-you message shows the amount paid |
| Backup.FindFile | scripts/backup_db.py:48 | a file is found exactly when some entry has that path, and the one found has it |
| Backup.RemovePath | scripts/backup_db.py:106-108 | unlinking removes exactly the entries at that path, and keeps paths unique |
| Backup.CopyTo | scripts/backup_db.py:68 | after `copy2` the target path holds the source's contents and modification time, and every other path is as before |
| Backup.CopyToKeeps | scripts/backup_db.py:68 | a copy adds only the target file, keeps every file at another path, and keeps paths unique |
| Backup.FileSystem.Copy | scripts/backup_db.py:68 | `shutil.copy2` on the file system: afterwards its entries are those of the copy to the target path, and paths stay unique |
| Backup.LastIndexOf | scripts/backup_db.py:58 | the last position of a character, None exactly when it does not occur |
| Backup.Stem | scripts/backup_db.py:58 | `Path.stem`: a prefix of the name that drops only a final suffix, a dot that is neither first nor last; a name without a dot is its own stem |
| Backup.BackupNameMatches | scripts/backup_db.py:95-96 | every backup name the script writes matches the pattern its cleanup globs for |
| Backup.BackupNamesDiffer | scripts/backup_db.py:57-59 | backup names of one database differ exactly when their timestamps differ |
| Backup.BackupsIn | scripts/backup_db.py:95-96 | the glob yields exactly the files of the directory matching the database's backup pattern |
| Backup.NewerOrSameOrders | scripts/backup_db.py:99 | newest-first by modification time is a total preorder, so the sort is well defined |
| Backup.SliceFrom | scripts/backup_db.py:103 | `backups[keep:]` as Python slices: the tail from `keep`, empty past the end, counted from the end for a negative `keep` |
| Backup.PrunedExactly | scripts/backup_db.py:106-111 | after the unlink loop a file remains exactly when it was not a victim whose unlink succeeded; paths stay unique |
| Backup.CleanupOldBackups | scripts/backup_db.py:85-111 | the files after the cleanup are those left when the backups beyond the newest `keep` are unlinked, a failing unlink being skipped |
| Backup.FewBackupsKept | scripts/backup_db.py:102 | with at most `keep` backups nothing is removed |
| Backup.OtherFilesKept | scripts/backup_db.py:94-111 | a file that is not a backup of that database survives the cleanup |
| Backup.UniqueCountsOnce | scripts/backup_db.py:96 | files with unique paths occur at most once each |
| Backup.UniqueUnderReorder | scripts/backup_db.py:99 | reordering files with unique paths keeps their paths unique |
| Backup.NewestKept | scripts/backup_db.py:99-111 | each of the `keep` newest backups survives, and no removed backup is newer than it |
| Backup.CreateBackup | scripts/backup_db.py:34-82 | a missing database or a failed copy changes nothing; otherwise the database is copied to its timestamped name in the output directory, the old backups are cleaned when `keep` is positive, and the backup's path is returned |
| Backup.NewBackupNewest | scripts/backup_db.py:99 | with every other backup older than the database file, the new backup comes first in the newest-first sort |
| Backup.NewBackupSurvives | scripts/backup_db.py:67-80 | with every other backup older than the database file, the new backup holds the database's contents and survives its own cleanup |
| Backup.RestoreBackup | scripts/backup_db.py:144-178 | a missing backup or a declined prompt changes nothing; otherwise an existing database is saved to its pre-restore path and then the backup is copied over it, which may fail |
| Backup.SaveAndRestore | scripts/backup_db.py:164-178 | an existing database is copied to its pre-restore path, then the backup is copied over the database when that copy succeeds; the outcome reports whether it did |
| Backup.SavedKeepsBackup | scripts/backup_db.py:165-168 | the pre-restore copy keeps the backup in place |
| Backup.RestoreKeepsPrevious | scripts/backup_db.py:152-178 | nothing changes when the backup is missing or the prompt is declined, and a decline happens exactly for an existing database without force and without 'y'; when the restore went ahead the old database's contents are at the pre-restore path, and after success the database holds the backup's contents |

Helper modules and lemmas have no row:

- `Text` holds Python's `int()`, `str()`, `split`, `strip` (with Python's full white-space set) and `upper` (ASCII letters only) on strings.
- `Sorting` is an insertion sort that stands for `sorted` and `list.sort`. It is proved ordered, a permutation, and stable (Sorting.SortStable: the elements that compare equal keep their input order).
- `Wrappers` holds `Option`.
- The step lemmas that the proofs above use have no row either.

## Left out

- Bot and web plumbing is not modelled: aiogram routers, `answer` and `edit_text` calls, FastAPI routing, Jinja templates, cookies and responses. Only each handler's decision is modelled: its state change, the rows it writes, its redirect target or its reply text.
- The database drivers are not modelled: aiosqlite, the asyncpg pool, `get_connection`, and the schema loop of `init_database`. Tables are sequences of rows in insertion order, and `id`s come from one shared counter. Whether the bot runs on SQLite or PostgreSQL is not modelled either.
- The `asyncio.gather` inside a batch is modelled as a sequential pass over the batch. APScheduler's firing is not modelled. Sleeps are recorded in a trace, not performed.
- Clocks and time zones are not modelled: `datetime.now`, zoneinfo, `strftime` and `fromisoformat`. "Now" and today's weekday are parameters. Stored timestamps are either an instant or unparseable text. In the SQL filters, an unparseable `paused_until` counts as "not before now"; SQLite really compares it as text. The same holds for the ledger's `delivered_at`: the model reads it as an instant, but SQLite compares the stored text. That text has different formats: broadcast rows carry an `isoformat()` stamp with a +03:00 offset, the filter parameters are naive `isoformat()` strings, and `log_delivery` rows take a schema default. LogView.ConditionsMeanSelected, LogView.EndDateTakesWholeDay and the newest-first order of LogView.ListedRows hold for timestamps read as instants, not for SQLite's comparison of those texts.
- Floating point is not modelled: the batch delay, the error-rate percentage and backup sizes in MB.
- `secrets.token_urlsafe` is a parameter: the caller supplies a fresh session id.
- The Russian and emoji texts are string constants. Some of them are mis-encoded in the formatters and are taken in their intended form. The weekday names of `constants.py` are a parameter of `DayName`, because `constants.py` is not part of this model.
- The ops scripts that only do I/O are not modelled, and neither are the keyboards beyond the callback data the handlers parse. `list_backups` is not modelled either, because it only prints.
- `broadcast_page`, the new-direction form, the edit forms and the other template-only handlers are not modelled, because they make no decision beyond rendering.
- AdminDirections: `direction_update` (app/admin/directions.py:144-164) is not modelled. It is an unconditional UPDATE of a direction's name and course by id, followed by a redirect. A UNIQUE or CHECK violation raises out of the handler, because it has only a `finally`.
- `save_subject_and_teacher` is not modelled. It is the autocomplete `INSERT OR IGNORE` in app/admin/pairs.py:35-47 and only feeds suggestions.
- The rendering of `get_time_slots` and of the class edit form is not modelled.
- `int()` parsing accepts surrounding white space, an optional sign and ASCII decimal digits. Underscores between digits and non-ASCII digits, which Python also accepts, are not modelled. A missing `message.text` is not modelled.
- Config values are constants: a batch size of 30, 1 retry, the morning job at 08:00, and reminders 5 minutes before a class.
- Broadcast.SendBroadcast: a failing ledger write inside the broadcast loop is not modelled. The ledger write is taken to succeed there.
- Backup.CreateBackup: glob special characters in the database stem and path normalisation are not modelled. Paths are a directory string and a file name.
- Backup.JoinPath: it builds `dir + "/" + name`, which differs from `str(Path(dir) / name)` when `dir` is empty or already ends in "/".
- Backup.RestoreBackup: the pre-restore copy is taken to succeed, and only the final copy may fail. Only 'y' and 'Y' are read as yes, so non-ASCII characters that `lower()` maps to 'y' are not modelled.
- CloudDb.ExecuteReturning: the reply is required to hold an `id` column, as the INSERT ... RETURNING id it sends guarantees.
- LogView.CsvRow: its contract states the user and error columns and their defaults, not every one of the nine cells.
- LogView.LogsPage: the query bounds page >= 1 and 10 <= per_page <= 100 are preconditions, because FastAPI rejects other requests before the handler runs.
- BotSettings.ToggleReminders: a missing `remind_before` (which the handler reads as True) does not arise, because the model's student row always has the flag.
- The connection closing in `finally` blocks and the logging calls are not modelled.
- Text.Upper: only ASCII letters are upper-cased. Python's `upper()` maps every cased letter, and maps a few non-ASCII ones (such as 'ı' and 'ſ') to ASCII letters.
- CloudDb.IsSelect: a SELECT keyword spelled with non-ASCII letters that `upper()` maps to ASCII is not recognised, because Text.Upper is ASCII-only.
- CloudDb.WithReturning: an INSERT or RETURNING keyword spelled with non-ASCII letters that `upper()` maps to ASCII is not recognised, for the same reason.
- The `updated_at` column is not stored. UserQueries.SettingsUpdate only lists it in the SET clause.

## Findings

| source | as written | input that shows it | evidently intended | confidence | as-written member | corrected member |
|---|---|---|---|---|---|---|
| scripts/check_scheduler.py:64-68 | the reminder time borrows one hour when the minute goes negative, and does not wrap the hour at midnight | a slot starting at "00:03" with a 5-minute lead gives hour -1 and minute 58, which is not a valid cron hour | 23:58, the time `calculate_reminder_time` gives | not executed | Scheduling.BorrowNoWrapAtMidnight | Scheduling.BorrowWrappedAgrees |
| app/bot/handlers/settings.py:181 | resuming calls `update_user_settings(paused_until=None)`, and app/db/queries/users.py:96-101 reads None as "leave unchanged", so no query is issued | a student paused until next week presses "resume": the reply says notifications are back, but the pause is still stored and the daily jobs keep skipping the student | the stored pause is cleared, so the student is active again | not executed | BotSettings.ResumeLeavesPause | BotSettings.ClearedResumeReactivates |
