# Life OS tool engine: a Dafny model

This project models the tool-execution layer of the Life OS MCP server: the
eight operations an agent calls by name, over the relational store of three
tables they share.

- Expenses (`mcp_server/expenses/tools.py`): `log_expense`, `get_expenses`
  (a date range plus an optional case-insensitive category filter),
  `delete_expense` and `get_spending_summary` (totals per category).
- Workouts (`mcp_server/exercises/tools.py`): `log_exercise` (find or create
  the parent session by date and session name, then insert one exercise),
  `get_workouts` (sessions of a date range with their exercises nested),
  `delete_exercise`, and `get_workout_summary` (duration and distance summed
  over a join on the parent session's date).
- Schema (`mcp_server/database.py`): the `expenses`, `workout_sessions` and
  `exercise_logs` rows, their nullable columns, their VARCHAR limits, their
  UUID primary keys and the foreign key from an exercise to its session.

The model is arranged in these modules:

- `Outcomes` holds `Option`, and the `Result` every tool returns. Its errors
  are `InvalidDateFormat`, `InvalidIdentifier`, `NotFound` and
  `StoreFailure(ValueRefused | DuplicateKey)`.
- `Dates` models `date.fromisoformat` on `YYYY-MM-DD` and `date.isoformat()`.
  Dates are real calendar days, ordered year, then month, then day.
- `Ids` models UUIDs as 32 hex digits. It covers `uuid.UUID(text)` and
  `str(uuid)`.
- `Text` models the `ILIKE '%pattern%'` test.
- `Keyed` models primary-key tables as sequences in insertion order. It
  covers `session.get` and delete by key.
- `Schema` holds the three row types and their column limits. It also has
  the table invariants, the foreign key among them.
- `ExpenseTools` holds the class `ExpenseStore`, which owns the `expenses`
  table, and its four tool methods.
- `ExerciseTools` holds the class `WorkoutStore`, which owns the two workout
  tables, and its four tool methods.

Each store class keeps its tables as fields. The tools that change a table
have a `modifies` clause and state the whole new table, in terms of the old
one. The query tools have no `modifies` clause, so they cannot change the
store. Each query is proved equal to a specification function: selection,
listing, grouping or the join. The properties the tools promise are lemmas
about those functions.

`log_exercise` is specified through `LogOutcome`, a function of the tables
before the call. Its lemmas state five things:

- how find-or-create reuses an existing session;
- how it creates exactly one session, which survives a failed exercise
  insert;
- that the table invariants are preserved;
- how the workout summary changes;
- that a session name too long for its column, but padded with spaces, is
  stored cut and never found again.

Fresh UUIDs (`uuid.uuid4()`) are method parameters. A fresh id that collides
with a stored key is the store's `DuplicateKey` failure.

Rows are kept in insertion order, and every query returns them in that
order. The source has no `ORDER BY`, so this is a modelling choice.

Two behaviours of the code that are easy to miss:

- `get_expenses` applies the category filter only when the category is
  non-empty. This is Python's `if category:`. An empty string therefore
  filters nothing (`ExpenseTools.EmptyFilterIsNoFilter`).
- `log_expense` takes the description as a required argument. Every logged
  expense therefore stores `Some(description)`, even though the column itself
  is nullable.

The column limits follow PostgreSQL's rule for VARCHAR(n), not a plain
length check. A string longer than n whose excess characters are all spaces
is stored cut to n characters. Any other string longer than n fails the
insert (`Schema.Stored`). The integer metrics `duration_minutes`, `sets` and
`reps` are `INTEGER` columns: a value outside -2147483648 to 2147483647
fails the insert (`Schema.IntegerFits`). No string sent to the store may
hold U+0000: PostgreSQL text cannot contain it, and the driver refuses such
a parameter. So such a category, description, session name or exercise
field fails its insert, a session name holding one fails the find query of
`log_exercise`, and a category filter holding one fails `get_expenses`
(`Schema.NulFree`). All of these refusals are the store's `ValueRefused`
failure.

## Model

| member | source | states |
|---|---|---|
| Dates.NotAfterIsTotalOrder | mcp_server/expenses/tools.py:51-54 | the date order used by every range filter is reflexive, total, antisymmetric and transitive |
| Dates.FormatDate | mcp_server/expenses/tools.py:67 | a date is always written as ten characters |
| Dates.ParseRangeExactly | mcp_server/expenses/tools.py:47-48 | a range query goes ahead with bounds (lo, hi) exactly when its two texts are the renderings of lo and hi |
| Dates.DecimalOfPadded | mcp_server/expenses/tools.py:67 | reading a zero-padded field gives back the number written |
| Dates.PaddedOfDecimal | mcp_server/expenses/tools.py:47-48 | a digit field of the accepted width is the zero-padded rendering of its value |
| Dates.FormatThenParse | mcp_server/expenses/tools.py:47-67 | every date printed by a listing is accepted by the date parser as the same date |
| Dates.ParseThenFormat | mcp_server/expenses/tools.py:47-67 | any accepted date text is exactly the rendering of the date it denotes |
| Dates.ParseDateExactly | mcp_server/expenses/tools.py:47-67 | text parses to a date if and only if it is that date's rendering |
| Ids.FormatId | mcp_server/expenses/tools.py:66 | a printed UUID has 36 characters |
| Ids.FormatThenParseId | mcp_server/expenses/tools.py:66-87 | the id printed for a row is accepted by the delete tools' id parser as the same id |
| Ids.FormatIdInjective | mcp_server/exercises/tools.py:107 | distinct ids are printed as distinct text |
| Text.EmptyPatternMatches | mcp_server/expenses/tools.py:56-58 | the empty pattern matches every category |
| Text.TextMatchesItself | mcp_server/expenses/tools.py:58 | every category matches itself as a filter |
| Text.CaseIsIgnored | mcp_server/expenses/tools.py:57-58 | texts or patterns that differ only in letter case match alike |
| Keyed.Lookup | mcp_server/expenses/tools.py:90 | the lookup by id finds a row exactly when one with that id exists, and the row found has that id |
| Keyed.WithoutKey | mcp_server/expenses/tools.py:95 | deleting by id keeps exactly the rows with a different id |
| Keyed.AppendKeepsUnique | mcp_server/database.py:21 | inserting a row under an unused id keeps primary keys unique |
| Keyed.WithoutKeyKeepsUnique | mcp_server/database.py:21 | deleting by id keeps primary keys unique |
| Keyed.WithoutKeyRemovesOne | mcp_server/expenses/tools.py:90-96 | with unique keys, deleting a present id removes exactly the one row found and no other, and shortens the table by one |
| Keyed.LookupFindsTheRow | mcp_server/database.py:21 | with unique keys, looking up a row's own id returns that row |
| Schema.Stored | mcp_server/database.py:23-44 | a VARCHAR(n) column refuses a string holding U+0000; otherwise it keeps a string of at most n characters as it is, keeps a longer one cut to n characters exactly when everything past n is spaces, and refuses it otherwise; what it keeps is a NUL-free prefix of the string |
| Schema.StoredExpense | mcp_server/database.py:23 | an expense row is accepted exactly when its category column keeps the category and the description holds no U+0000; the stored row then meets the limits and differs from the given row at most in the category, and a row already within the limits is stored unchanged |
| Schema.StoredSession | mcp_server/database.py:32 | a session row is accepted exactly when its name column keeps the name (so a name holding U+0000 is refused); the stored row then meets the limit and differs at most in the name, and a row already within the limit is stored unchanged |
| Schema.StoredExercise | mcp_server/database.py:43-50 | an exercise row is accepted exactly when both its name and category columns keep their strings (neither holding U+0000) and its duration, sets and reps fit `INTEGER`; the stored row then meets every limit and differs at most in those two strings, and a row already within the limits is stored unchanged |
| ExpenseTools.SelectExpenses | mcp_server/expenses/tools.py:51-58 | the selected rows are exactly the rows dated inside the inclusive range that pass the category filter |
| ExpenseTools.SelectConcat | mcp_server/expenses/tools.py:51-60 | selection keeps table order |
| ExpenseTools.ReversedRangeIsEmpty | mcp_server/expenses/tools.py:51-54 | a range whose start is after its end selects nothing |
| ExpenseTools.EmptyFilterIsNoFilter | mcp_server/expenses/tools.py:56-58 | an empty category filter selects the same rows as no filter |
| ExpenseTools.RecordReadsBack | mcp_server/expenses/tools.py:64-71 | a listed record's id and date parse back to the row's id and date |
| ExpenseTools.ListedIdFindsRow | mcp_server/expenses/tools.py:66-90 | every id shown by `get_expenses` parses, is present, and looks up the very row that record was made from |
| ExpenseTools.Categories | mcp_server/expenses/tools.py:120-126 | the groups are exactly the categories present among the rows, each once |
| ExpenseTools.GroupsTotalIsSumOfCategories | mcp_server/expenses/tools.py:120-128 | groups carrying the sums of a list of categories add up to the sum over those categories |
| ExpenseTools.GroupTotalsAddUp | mcp_server/expenses/tools.py:120-134 | the totals of the `GROUP BY` groups add up to the total of all rows, so grouping loses and counts twice no amount |
| ExpenseTools.AbsentCategorySumsToZero | mcp_server/expenses/tools.py:120-126 | a category with no rows sums to zero |
| ExpenseTools.SumOfCategoriesCons | mcp_server/expenses/tools.py:120-126 | one more row adds its amount to exactly the one group of its category |
| ExpenseTools.CategoryTotalsAddUp | mcp_server/expenses/tools.py:120-134 | the per-category totals add up to the total of all rows |
| ExpenseTools.SumAtAgrees | mcp_server/expenses/tools.py:130-134 | the map built from the groups holds the same totals as the groups |
| ExpenseTools.LoggedExpenseIsListed | mcp_server/expenses/tools.py:19-71 | after logging, a query of the logged day (unfiltered or filtered by the row's own category) lists the new row after the day's earlier rows, with its record |
| ExpenseTools.DeletedExpenseIsNotListed | mcp_server/expenses/tools.py:87-96 | after a delete by id, queries return the old rows minus those with that id, and no listed record shows that id |
| ExpenseTools.ExpenseStore.constructor | mcp_server/database.py:18-25 | an empty `expenses` table satisfies the table constraints |
| ExpenseTools.ExpenseStore.LogExpense | mcp_server/expenses/tools.py:18-33 | a bad date fails and changes nothing; otherwise, when the category column accepts the category, the description holds no U+0000, and the id is free, one row with the given fields and date, its category as the column keeps it, is appended; otherwise the insert fails and changes nothing, reporting a refused value before a taken id; the constraints are kept |
| ExpenseTools.ExpenseStore.GetExpenses | mcp_server/expenses/tools.py:46-76 | a bad bound fails; a category filter holding U+0000 fails the query; otherwise the answer is the records of exactly the selected rows, in table order |
| ExpenseTools.ExpenseStore.DeleteExpense | mcp_server/expenses/tools.py:86-103 | a malformed id and an absent id each fail and change nothing; a present id removes exactly that row and leaves every other row |
| ExpenseTools.ExpenseStore.GetSpendingSummary | mcp_server/expenses/tools.py:114-137 | a bad bound fails; otherwise the keys are exactly the categories with an in-range row, each value is that category's in-range sum, and the values add up to the in-range total |
| ExpenseTools.ExampleDayParses | mcp_server/expenses/tools.py:19 | "2024-05-01" parses to 1 May 2024 and prints back the same |
| ExpenseTools.LogThenListExample | mcp_server/expenses/tools.py:19-71 | logging 20.0 "Transport" "gas" on 2024-05-01 into an empty store and listing that day gives exactly that one record |
| ExerciseTools.FindSession | mcp_server/exercises/tools.py:36-40 | the lookup finds a session with exactly this date and name when one exists, and finds none only when none does |
| ExerciseTools.FindSessionAfterAppend | mcp_server/exercises/tools.py:36-50 | after sessions are added, an older match still wins, and otherwise the added sessions are searched |
| ExerciseTools.FindSessionFindsTheOne | mcp_server/exercises/tools.py:36-40 | with unique (date, name) pairs, the lookup returns the one session holding the pair |
| ExerciseTools.SelectSessions | mcp_server/exercises/tools.py:86-90 | the selected sessions are exactly those dated inside the inclusive range |
| ExerciseTools.ExercisesOf | mcp_server/exercises/tools.py:95-96 | the children selected are exactly the exercises whose session id is this session's |
| ExerciseTools.ExercisesOfConcat | mcp_server/exercises/tools.py:95-96 | the children of a session keep table order |
| ExerciseTools.ReportCoversExactlyTheRange | mcp_server/exercises/tools.py:86-117 | the report has an entry for every in-range session and for nothing else |
| ExerciseTools.NestedExercisesAreTheChildren | mcp_server/exercises/tools.py:93-117 | a session's nested list shows every exercise of that session and no other, and is empty for a session without exercises |
| ExerciseTools.DeletedExerciseIsNotListed | mcp_server/exercises/tools.py:132-142 | after a delete, no nested list shows the deleted id, and every other exercise of the session is still shown |
| ExerciseTools.JoinInRange | mcp_server/exercises/tools.py:166-172 | the joined rows are exactly the exercises whose session exists and is dated inside the inclusive range |
| ExerciseTools.JoinConcat | mcp_server/exercises/tools.py:166-172 | the join keeps table order |
| ExerciseTools.TotalsConcat | mcp_server/exercises/tools.py:166-168 | both sums add up over the parts of the rows |
| ExerciseTools.JoinIgnoresNewSession | mcp_server/exercises/tools.py:166-172 | a new session that no exercise references changes no join result |
| ExerciseTools.NothingMatchedGivesZero | mcp_server/exercises/tools.py:174-179 | when no exercise's session is in range, nothing is joined and both totals are zero |
| ExerciseTools.LoggedExerciseIsCounted | mcp_server/exercises/tools.py:166-179 | one more exercise, under an existing or new session, raises each total by its own metric exactly when its session is in range |
| ExerciseTools.DeletedExerciseIsUncounted | mcp_server/exercises/tools.py:166-179 | deleting a present exercise lowers each total by its metric exactly when its session is in range |
| ExerciseTools.LogOutcome | mcp_server/exercises/tools.py:31-70 | a bad date fails and changes nothing; any failure adds no exercise; a success appends exactly one exercise, the given fields as the columns keep them, under a session that is in the table, carries the parsed date and the name (default "Daily Workout") as its column keeps it; at most one session is added, the new row as the table stores it under the fresh id |
| ExerciseTools.LogSucceedsExactlyWhen | mcp_server/exercises/tools.py:31-70 | a log call succeeds exactly when the date parses, the session name holds no U+0000, a matching session exists or the session table accepts a new one under a free id, both exercise strings are accepted by their columns, duration, sets and reps fit `INTEGER`, and the exercise id is free |
| ExerciseTools.NulSessionNameChangesNothing | mcp_server/exercises/tools.py:36-40 | a session name holding U+0000 makes the call fail with the store's refusal once the date parses, and leaves both tables unchanged, even when a stored session carries that name |
| ExerciseTools.LogKeepsTablesValid | mcp_server/database.py:41 | each log call keeps the keys unique, the string limits met and every exercise's session present, and, for a session name within its column, keeps (date, name) unique among sessions |
| ExerciseTools.LogReusesSession | mcp_server/exercises/tools.py:36-50 | after a successful log with a session name within its column, a later call with the same date and name reuses that session and creates none |
| ExerciseTools.PaddedNameCreatesNewSessions | mcp_server/exercises/tools.py:36-50 | a session name longer than its column, when accepted, is stored cut, so the call adds a session that the same lookup never finds: every repeat of the call adds another |
| ExerciseTools.LogReusesExistingSession | mcp_server/exercises/tools.py:36-54 | the first session with this date and name is reused, even when later sessions share the pair: no session is added, and the new exercise points at it |
| ExerciseTools.LogCreatesOneSession | mcp_server/exercises/tools.py:43-50 | without a matching session, and with a name its column accepts and a free id, exactly one new session is committed, its name as the column keeps it, and it stays even when the exercise insert then fails |
| ExerciseTools.LoggedExerciseReachesSummary | mcp_server/exercises/tools.py:53-65 | after a successful log, every range's summary grows by the new exercise's metrics exactly when the logged date lies in that range |
| ExerciseTools.WorkoutStore.constructor | mcp_server/database.py:27-54 | empty workout tables satisfy the table constraints |
| ExerciseTools.WorkoutStore.FindOrCreateSession | mcp_server/exercises/tools.py:35-50 | the find-or-create step reports exactly the session fault of `LogOutcome` (a session name holding U+0000, a refused name, a taken id); on success it gives the first matching session and adds nothing, or adds exactly the new session as stored; the exercise table is untouched |
| ExerciseTools.WorkoutStore.LogExercise | mcp_server/exercises/tools.py:8-70 | the reply and both new tables are those of `LogOutcome` on the old tables; the constraints are kept, and (date, name) stays unique for a session name within its column |
| ExerciseTools.WorkoutStore.ListExercises | mcp_server/exercises/tools.py:105-115 | the nested list built for a session holds one record per child exercise, in order, every metric field present |
| ExerciseTools.WorkoutStore.GetWorkouts | mcp_server/exercises/tools.py:80-121 | a bad bound fails; otherwise the answer is the report of the in-range sessions, each with its children nested |
| ExerciseTools.WorkoutStore.DeleteExercise | mcp_server/exercises/tools.py:131-149 | a malformed id and an absent id each fail and change nothing; a present id removes exactly that exercise, and the sessions are untouched |
| ExerciseTools.WorkoutStore.GetWorkoutSummary | mcp_server/exercises/tools.py:160-182 | a bad bound fails; otherwise both keys are present, holding the duration and distance sums over the joined rows, absent metrics counted as nothing |
| ExerciseTools.ExampleDayParses | mcp_server/exercises/tools.py:32 | "2024-06-01" parses to 1 June 2024 and prints back the same |
| ExerciseTools.RunLogged | mcp_server/exercises/tools.py:31-65 | logging "Running" into an empty store creates the "Morning Run" session and its first exercise |
| ExerciseTools.StretchLogged | mcp_server/exercises/tools.py:36-65 | logging "Stretching" on the same day and name reuses that session |
| ExerciseTools.MorningRunChildren | mcp_server/exercises/tools.py:95-115 | the two exercises are nested under their session in logging order |
| ExerciseTools.MorningRunListed | mcp_server/exercises/tools.py:86-117 | the day's report is that one session with both exercise records |
| ExerciseTools.MorningRunExample | mcp_server/exercises/tools.py:31-119 | two log calls for one date and session name, then `get_workouts` of that day, give one "Morning Run" session holding both exercises |

## Left out

- Tool registration and transport: the FastMCP and FastAPI setup, SSE and
  uvicorn. The fixed table of eight tool names in `mcp_server/main.py` is
  not part of this model either.
- Environment loading, the connection URL, engine creation and `init_db`
  (`mcp_server/database.py`). All of this is I/O.
- Floating point. Amounts, weights and distances are exact reals. Sums are
  exact and do not depend on the order in which the rows are added.
- The `:.2f` formatting, and all human-readable confirmation and error
  strings. A successful mutation returns the stored row instead.
- The expense-delete message reads the row's fields after the commit. That
  message is not modelled.
- `ILIKE` details. Only ASCII letters are case-folded. `%`, `_` and the
  escape character `\` inside a user's filter are matched literally, not as
  wildcards or escapes: the filter `a\b` matches the text `a\b` here, while
  PostgreSQL reads it as `ab`. Unicode case
  folding is not modelled.
- Dates.ParseDate: accepts only the `YYYY-MM-DD` form with years 1 to 9999.
  The other forms that newer `date.fromisoformat` versions accept (such as
  `YYYYMMDD` and week dates) are not modelled. No date outside
  `YYYY-MM-DD` is accepted.
- Ids.ParseId: accepts only ASCII hex digits and hyphens, hyphens anywhere,
  with exactly 32 digits. Every further form that `uuid.UUID` and the
  `int(..., 16)` inside it accept is not modelled and is rejected here.
- Store failures other than a value its column refuses and a duplicate
  primary key. This covers connectivity errors and failures during queries. After
  its dates parse, a query never fails in the model, except `get_expenses`
  with a category filter holding U+0000.
- Concurrency. The find-or-create race can give two sessions the same date
  and name, and isolation levels and connection lifetimes are not modelled
  either. Calls run one after another. Under that ordering `LogExercise`
  keeps (date, name) unique among sessions when the name fits its column.
- ExerciseTools.LogKeepsTablesValid, ExerciseTools.WorkoutStore.LogExercise
  and ExerciseTools.LogReusesSession: (date, name) uniqueness and session
  reuse are promised only for a session name of at most 100 characters. A
  longer name padded with spaces is stored cut to 100 characters, so the
  lookup by the full name never finds it again, and each repeat of the call
  adds another session (`ExerciseTools.PaddedNameCreatesNewSessions`).
- Ordering. Rows come back in insertion order. The real store returns them
  in an unspecified order.
- Argument coercion by the tool framework. Arguments arrive already typed.
  An omitted `session_name` is modelled as `None`, which resolves to
  "Daily Workout".
- ExerciseTools.JoinInRange: gives one row per exercise. That matches the
  SQL join whenever session ids are unique. `WorkoutStore.Valid` guarantees
  they are, but `GetWorkoutSummary` does not require it.
