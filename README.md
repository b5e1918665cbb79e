# SQL practice problems: a Dafny model

This project models the core of a small Django application. In it, a user
writes a SQL query for a practice problem. The application runs the
problem's schema scripts and then the query, and shows the rows. On
"submit" it compares the rows with those of the problem's reference
solution. The model has four parts:

- **models.dfy** (`Models`): the Problem, Schema and Solution tables.
  - Their constraints: unique titles of at most 200 characters, at most one solution per problem, and unique `(problem, order)` pairs.
  - `Meta.ordering = ['order']`, which lists a problem's schemas.
  - The `__str__` forms of the rows.
- **orm.dfy** (`Orm`): the writes the seed command makes through Django's managers.
  - `update_or_create` keyed on the title, and keyed on the problem.
  - Deleting a problem's schemas, and creating one schema row.
  - Each write is a pure function on the tables, with a lemma saying what it keeps and what it changes.
  - The class `Database` holds the tables and performs the writes in place. It refuses a write that breaks a modelled constraint: a title over 200 characters, a missing problem, or an order already used. The database's other refusals are listed under "## Left out".
- **seeding.dfy** (`Seeding`): the `seed_problems` management command.
  - Pure functions: the title rule (`'_'` → space, then `str.title()`), the skip rules, `sorted(glob('schema*.sql'))`, and the order-assignment rule (index among the sorted files; blank files skipped).
  - A specification `RunSeeds` of what the whole command writes.
  - The imperative `Handle`, with its loops and `continue`s, proved against that specification.
- **views.dfy** (`Views`): the `problem_detail` view.
  - The database is an oracle. It is given the statements already in effect (those committed, then those of the open transaction) and a statement. It answers with an error, or with a column description and the outcome of `fetchall()`.
  - Pure functions say what "run" and "submit" send, show, report and commit.
  - The class `Site` holds the session, the flash messages, the committed statements, the open transaction and a log of every statement sent. Its method `ProblemDetail` is proved against those functions.

### Behaviour of the code worth knowing

The model follows the code in these points.

- **Transactions.** `transaction.atomic` commits when its block ends normally. So a successful "run" or "submit" commits the schema scripts, the user's query and, on "submit", the reference query (practice/views.py:30, 51). An exception that leaves the block rolls back what is still open in it; a statement of the user's own that has already ended the transaction is not modelled (see "## Left out"). In the model the only exception is a database error raised by a statement or a fetch (see "## Left out" for the others). `Site.ProblemDetail` states this.
- **Comparison.** The verdict uses Python's `==` on the two fetched lists (practice/views.py:67): the same number of rows, and row by row tuples of equal length with Python-equal values, so order and multiplicities count. `Views.RowsEqualSpec` states this in general; `Views.OrderMatters` and `Views.DuplicatesMatter` are single examples.
- **No statement check.** Nothing checks that the query starts with `SELECT` or `WITH`.
- **No timeout.** No statement timeout is set.

## Model

| member | source | states |
|---|---|---|
| Models.FindProblem | practice/views.py:9 | `get_object_or_404(Problem, pk=…)`: a found row is a member of the table with that id; "not found" means no row has that id |
| Models.FindProblemUnique | practice/models.py:8-9 | with unique ids, the lookup by a row's id finds that row |
| Models.FindSolution | practice/views.py:58 | `problem.solution`: a found row belongs to the problem; none means the problem has no solution row |
| Models.OfProblem | practice/models.py:17 | the `schemas` relation: exactly the schema rows whose problem is the given one |
| Models.InsertByOrderSorts | practice/models.py:21-22 | inserting into a list sorted by `order` keeps it sorted and adds exactly that row |
| Models.SortByOrder | practice/models.py:21-22 | `ordering = ['order']`: the result is sorted by `order` and is a permutation of the input |
| Models.InsertStrict | practice/models.py:21-24 | inserting a row with a fresh order into a strictly ascending list keeps it strictly ascending |
| Models.SortStrict | practice/models.py:21-24 | rows with pairwise distinct orders sort into strictly ascending order |
| Models.OfProblemDistinct | practice/models.py:24 | `unique_together`: the rows of one problem have pairwise distinct orders |
| Models.SchemasOfOrdered | practice/models.py:17-24 | `problem.schemas.all()` is strictly ascending in `order`, a permutation of the problem's rows, and contains exactly them |
| Models.DecimalString | practice/models.py:27 | `str(order)` is a non-empty string of decimal digits with no leading zero: its first digit is `0` only for the order 0 |
| Models.DecimalUnique | practice/models.py:27 | `str(order)` is the only digit string without a leading zero that reads back as the order |
| Models.DecimalRoundTrip | practice/models.py:27 | reading `str(order)` back gives the order |
| Models.SchemaLabelReadsBack | practice/models.py:26-27 | `str(schema)` is `"Schema for " + title + " (Order: "`, then the order in decimal digits without a leading zero, then `")"`; with `DecimalUnique` those digits are exactly `str(order)` |
| Models.SchemaLabelsDistinguishOrders | practice/models.py:26-27 | two schemas of one problem print the same exactly when their orders are equal |
| Models.ProblemLabelsDistinguishProblems | practice/models.py:9-14 | `str(problem)` is the title, so with unique titles two problems of the table print the same exactly when they are the same row |
| Models.SolutionLabelsDistinguishProblems | practice/models.py:33-34 | with unique titles, two solutions print the same exactly when their problems are the same |
| Orm.IndexOfTitle | practice/management/commands/seed_problems.py:69-70 | the lookup of `update_or_create(title=…)` gives the position of a row with that title, or none when no row has it |
| Orm.IndexOfSolution | practice/management/commands/seed_problems.py:81-82 | the lookup of `update_or_create(problem=…)` gives the position of the problem's solution row, or none when it has none |
| Orm.Without | practice/management/commands/seed_problems.py:90 | after `delete()`, exactly the rows of other problems remain, and `(problem, order)` pairs stay unique |
| Orm.UpsertProblemEffect | practice/management/commands/seed_problems.py:69-75 | the Problem upsert keeps every constraint; exactly one row has the title, the returned one, holding the new texts; a title already present keeps its id; rows with other titles are kept, and no others appear |
| Orm.ReplaceProblemEffect | practice/management/commands/seed_problems.py:69-75 | the update branch: the row keeps its id and takes the texts, and the other rows are unchanged |
| Orm.AppendProblemEffect | practice/management/commands/seed_problems.py:69-75 | the create branch: a new row under a fresh id, and all the old rows kept |
| Orm.ReplaceProblemRow | practice/models.py:9 | replacing a row by one with the same id and title keeps the table constraints |
| Orm.AppendProblemRow | practice/models.py:9 | a new row with a fresh id and an unused title of at most 200 characters keeps the table constraints |
| Orm.UpsertSolutionEffect | practice/management/commands/seed_problems.py:81-86 | the Solution upsert keeps one-to-one; the problem's solution is exactly the new query; other problems' solutions are unchanged |
| Orm.SolutionOfUnique | practice/models.py:30 | with one solution per problem, looking up a row's problem finds that row |
| Orm.SolutionOfElsewhere | practice/management/commands/seed_problems.py:81-86 | overwriting one problem's solution row leaves other problems' lookups unchanged |
| Orm.SolutionOfAppended | practice/management/commands/seed_problems.py:81-86 | appending one problem's solution row leaves other problems' lookups unchanged |
| Orm.DeleteSchemasEffect | practice/management/commands/seed_problems.py:90 | `problem.schemas.all().delete()` keeps the constraints, leaves the problem no schema rows, and keeps every other problem's rows |
| Orm.AddSchemaValid | practice/models.py:24 | creating a schema row of an existing problem at an unused order keeps the constraints |
| Orm.Database.constructor | practice/models.py:8-34 | empty tables are valid |
| Orm.Database.UpdateOrCreateProblem | practice/management/commands/seed_problems.py:69-75 | a title over 200 characters is refused and changes nothing; otherwise the tables become `UpsertProblem`'s, and the row's id is returned |
| Orm.Database.UpdateOrCreateSolution | practice/management/commands/seed_problems.py:81-86 | succeeds exactly for an existing problem, and then the tables become `UpsertSolution`'s |
| Orm.Database.DeleteSchemas | practice/management/commands/seed_problems.py:90 | the tables become `ClearSchemas`' |
| Orm.Database.CreateSchema | practice/management/commands/seed_problems.py:113-117 | succeeds exactly when the problem exists and the order is unused, and then appends the row; otherwise changes nothing |
| Seeding.NameLeTotal | practice/management/commands/seed_problems.py:34 | Python's string order is total |
| Seeding.NameLeTransitive | practice/management/commands/seed_problems.py:34 | Python's string order is transitive |
| Seeding.InsertByNameSorts | practice/management/commands/seed_problems.py:93 | inserting into a list sorted by name keeps it sorted and adds exactly that element |
| Seeding.SortByName | practice/management/commands/seed_problems.py:34 | `sorted(…)` by name: sorted, and a permutation of the input |
| Seeding.TitleFromAt | practice/management/commands/seed_problems.py:36 | the title-casing loop keeps the length; each character is lowered after a cased character and raised otherwise |
| Seeding.TitleCaseAt | practice/management/commands/seed_problems.py:36 | `str.title()`: raised at the start of each word, lowered elsewhere |
| Seeding.TitleCaseIdempotent | practice/management/commands/seed_problems.py:36 | title-casing a title changes nothing |
| Seeding.ProblemTitleSpec | practice/management/commands/seed_problems.py:36 | the title has the folder name's length and no `_`; each `_` became a space; position by position, a character that starts a word (first, after an `_` or after an uncased character) is raised and any other is lowered |
| Seeding.StripLeftEmpty | practice/management/commands/seed_problems.py:109 | stripping the left leaves nothing exactly when all characters are whitespace |
| Seeding.BlankIffAllSpace | practice/management/commands/seed_problems.py:109 | `not content.strip()` holds exactly when every character is Python whitespace |
| Seeding.Lookup | practice/management/commands/seed_problems.py:40-62 | a file is found exactly when the folder holds one of that name, and its content is returned |
| Seeding.GlobSchemas | practice/management/commands/seed_problems.py:93 | `glob('schema*.sql')`: exactly the files whose names start with `schema` and end with `.sql` |
| Seeding.PlanSpec | practice/management/commands/seed_problems.py:98-117 | each stored script gets its file's index among the sorted files; orders strictly increase; no stored script is blank; every non-blank file is stored |
| Seeding.PlanGaps | practice/management/commands/seed_problems.py:98-116 | orders run 0, 1, 2, … with no gap exactly when no schema file is blank |
| Seeding.PlanWithoutBlanks | practice/management/commands/seed_problems.py:98-116 | with no blank file, every file is stored under its index |
| Seeding.PlanSkipsBlank | practice/management/commands/seed_problems.py:109-111 | one blank file means fewer rows than files |
| Seeding.PlanLength | practice/management/commands/seed_problems.py:98-117 | at most one row per file |
| Seeding.FolderSeedSpec | practice/management/commands/seed_problems.py:35-66 | a folder is seeded exactly when it is a directory with both `description.md` and `solution.sql`; the seed carries the derived title, those files' contents, the explanation or `""`, and the plan of its schema files |
| Seeding.SeedsSpec | practice/management/commands/seed_problems.py:34-66 | every seed comes from a qualifying entry and every qualifying entry gives one; each seed's plan has increasing orders and no blank script; at most one seed per entry |
| Seeding.PlanRows | practice/management/commands/seed_problems.py:113-117 | the rows created from a plan: one per planned script, under the problem, with its order and text |
| Seeding.RunSeedsStaysAborted | practice/management/commands/seed_problems.py:69-75 | once a write is refused, later folders change nothing |
| Seeding.AddPlanValid | practice/management/commands/seed_problems.py:113-117 | creating a plan's rows for a problem with no schema rows keeps the constraints |
| Seeding.ReplacedRows | practice/management/commands/seed_problems.py:90-117 | after clear-and-create, the problem's rows are exactly the plan's; other problems' rows are unchanged |
| Seeding.ReplacedSchemas | practice/management/commands/seed_problems.py:90-117 | after clear-and-create, `problem.schemas.all()` is exactly the plan's rows in order; other problems' schemas are unchanged |
| Seeding.SeedSteps | practice/management/commands/seed_problems.py:69-86 | after both upserts, the tables are valid and the seed's problem holds the seed's title, texts and solution; other problems are kept |
| Seeding.SeedEffect | practice/management/commands/seed_problems.py:69-117 | one folder's writes keep every constraint; exactly one problem has the title and holds the texts, the solution and exactly the planned schemas; every other problem keeps its row, solution and schemas |
| Seeding.RunSeedsValid | practice/management/commands/seed_problems.py:34-118 | seeding keeps one problem per title, one solution per problem, and unique `(problem, order)` pairs |
| Seeding.CreateSchemas | practice/management/commands/seed_problems.py:98-117 | the schema loop creates exactly the plan's rows and keeps the constraints |
| Seeding.CreateStep | practice/management/commands/seed_problems.py:98-117 | one turn of the schema loop: a blank file adds nothing; a non-blank one adds its row at an order not yet used |
| Seeding.PlanNextFree | practice/management/commands/seed_problems.py:116 | before file `idx` is handled, the problem uses no order `idx` |
| Seeding.AbortEndsRun | practice/management/commands/seed_problems.py:69-75 | a refused title ends the run: the folders after it change nothing |
| Seeding.WriteSeed | practice/management/commands/seed_problems.py:69-117 | one folder's writes: refused and nothing changed for a title over 200 characters, and otherwise exactly `ApplySeed` |
| Seeding.Handle | practice/management/commands/seed_problems.py:12-120 | a missing directory changes nothing; otherwise the tables end as `RunSeeds` of the seeds in name order, and the command finishes, or aborts at the first refused title with earlier writes kept |
| Views.RunScripts | practice/views.py:32-33 | a stop is at one of the scripts |
| Views.RunScriptsSpec | practice/views.py:32-33 | the scripts complete exactly when each succeeds after those before it; otherwise they stop at the first failing one, with its message |
| Views.RunScriptsStopped | practice/views.py:32-33 | once a prefix of the scripts stops, the whole list stops at the same script |
| Views.QuerySpec | practice/views.py:29-37 | statements go out in order, scripts then the query, and none after the first error; rows are fetched exactly when every statement and the fetch succeed; otherwise the error is that of the last statement sent |
| Views.SeqEqSpec | practice/views.py:67 | Python's `==` on lists and tuples: equal length and equal items position by position |
| Views.RowsEqualSpec | practice/views.py:67 | the verdict's equality: the same number of rows, and row by row tuples of equal length with Python-equal values |
| Views.RowsEqualEquivalence | practice/views.py:67 | the verdict's equality is reflexive, symmetric and transitive |
| Views.OrderMatters | practice/views.py:67-70 | an example: `[(2,), (1,)]` and `[(1,), (2,)]` hold the same rows and are judged unequal (in general the verdict is `RowsEqualSpec`'s; a reordering of Python-equal rows such as `(1,)` and `(True,)` is still judged equal) |
| Views.DuplicatesMatter | practice/views.py:67-70 | an example: `[(1,), (2,)]` and `[(1,), (1,), (2,)]` hold the same set of rows and are judged unequal (in general the verdict is `RowsEqualSpec`'s) |
| Views.BooleanMatchesInteger | practice/views.py:67 | `True` matches `1`, as in Python |
| Views.RunContextSpec | practice/views.py:26-44 | after "run" the page shows the submitted query and either the rows with one header per description entry (its first component) or the error text with no rows and no headers, never both |
| Views.SubmitStopsAtError | practice/views.py:53-73 | when a script or the user's query fails, the reference query is not sent, nothing is committed, and the one message is `"Database Error: "` plus the error |
| Views.SubmitWithoutSolution | practice/views.py:58-61 | without a reference query, or with an empty one, nothing more is sent, the scripts and query are committed, and the message says no solution is configured |
| Views.SubmitVerdict | practice/views.py:63-70 | the reference runs after the user's query in the same transaction; the message is "Correct" exactly when the two lists match, in order and with multiplicities, and "Incorrect" otherwise |
| Views.ProblemScripts | practice/views.py:32-33 | the scripts a request runs for a problem: one per schema row of that problem, each row exactly once, in strictly ascending `order` |
| Views.Site.constructor | practice/views.py:8 | a fresh site with the given session and database, no messages and nothing sent |
| Views.Site.Execute | practice/views.py:33 | `cursor.execute`: the oracle's answer on the statements in effect; the statement is logged and, on success, joins the open transaction |
| Views.Site.Commit | practice/views.py:30 | leaving `atomic` normally commits the open transaction |
| Views.Site.Rollback | practice/views.py:42 | leaving `atomic` by an error discards the open transaction |
| Views.Site.ExecuteQuery | practice/views.py:31-37 | the schema loop and the query send exactly `Query`'s statements and give its outcome; the open transaction then holds every statement sent that executed: all of them on success, and on an error all but the last one, or all of them when only the fetch failed |
| Views.Site.PopUserQuery | practice/views.py:13 | returns the stored query or `""`, and removes the key from the session |
| Views.Site.RunQuery | practice/views.py:29-44 | the "run" context is `RunContext` of `Query`; it commits on success and rolls back on error |
| Views.Site.SubmitQuery | practice/views.py:50-76 | sends, reports and commits exactly as `Submit` says |
| Views.Site.ProblemDetail | practice/views.py:8-82 | a missing problem is "not found" with nothing changed; a GET renders the stored query, clears it, and sends nothing; "run" renders `RunContext`; "submit" stores the query in the session, queues exactly one message, and redirects; any other action redirects with nothing sent |

## Left out

- SQL itself. Executing and fetching are an oracle from the statements in effect and a statement to a result. Whatever a driver does, such as refusing `fetchall()` after a statement without rows, is folded into that result.
- Row values other than NULL, booleans, integers and text: floats, decimals, dates and binary values.
- The `except Exception` branch (practice/views.py:75-76). Nothing in the model raises anything other than a database error. Such an exception would also leave the `atomic` block and roll it back, and would queue the "unexpected application error" message.
- Template rendering, the URL routes, the admin registration and the markdown filter (practice/templatetags/custom_markdown.py). The view returns the context it would render. The messages framework is a list of messages.
- Concurrency between requests, and whether one user's committed statements are visible to another.
- The user's SQL changing the application's own tables. The statements a user runs are kept apart from the Problem, Schema and Solution tables.
- Filesystem access in the seed command: path resolution, `read_text` and decoding. The directory listing is an input, as a sequence of entries. Each entry has a name, whether it is a directory, and its files as (name, content) pairs.
- Sub-directories inside a problem folder. A directory named `description.md`, `solution.sql` or `schema*.sql` is not modelled.
- All `self.stdout.write` output of the seed command.
- The ids of Schema and Solution rows, and `on_delete=CASCADE`. Nothing in the modelled code deletes a problem.
- Seeding.ProblemTitle: only ASCII letters are cased. Python's `str.title()` also cases other Unicode letters.
- Orm.Database.UpdateOrCreateProblem: every title over 200 characters is refused. PostgreSQL's `varchar(200)` refuses such a value unless every character past the 200th is a space; then it cuts the value to 200 characters and stores it. A folder named with 200 letters and a trailing `_` gets such a title, which the model refuses. On a database that does not enforce `max_length`, such as SQLite, every long title would be stored.
- Orm.Database.UpdateOrCreateProblem: a description or explanation holding U+0000 is accepted. PostgreSQL text cannot hold U+0000, so the real write raises.
- Orm.Database.UpdateOrCreateSolution: a query holding U+0000 is accepted, although PostgreSQL would raise (practice/management/commands/seed_problems.py:81).
- Orm.Database.CreateSchema: a script holding U+0000 is accepted, although PostgreSQL would raise (practice/management/commands/seed_problems.py:113). Such a file can come from a schema file in UTF-16 read as UTF-8.
- Seeding.WriteSeed: a folder's writes are either all of `ApplySeed` or, for a title over 200 characters, none. The command can also stop partway through a folder. A solution or schema script that the database refuses (U+0000) would do so. So would a schema file that is not valid UTF-8: `read_text(encoding='utf-8')` raises (practice/management/commands/seed_problems.py:102). Either would stop the command after the problem upsert, the solution upsert and `delete()` had run. That leaves the problem's schemas partly re-created, and the model does not capture this state. A title whose excess is all spaces would be shortened and stored, not refused.
- Seeding.Handle: the run aborts only at a title over 200 characters. It never aborts for a title whose excess is all spaces, and never partway through a folder, neither for a text holding U+0000 nor for a schema file that is not valid UTF-8 (see the lines above). A description, explanation or solution file that is not valid UTF-8 (practice/management/commands/seed_problems.py:43, 53, 62) would stop the command before that folder's writes.
- Seeding.Handle: after a refused title the command stops, and the writes already made are kept, since `handle` runs outside any transaction. The error's propagation beyond the command is not modelled.
- Views.Site.Commit: the commit at the end of an `atomic` block always succeeds. On PostgreSQL a COMMIT can itself raise a database error, for instance when a deferred constraint fails. Then "run" would show both the rows and the error (practice/views.py:37, 43), and "submit" would queue the verdict and a second "Database Error" message (practice/views.py:68-73). `RunContextSpec` ("never both") and `ProblemDetail` ("exactly one message") rely on commits succeeding.
- The default `order` of 0 (practice/models.py:19). The modelled code always gives an order when it creates a schema row.
- Views.Site.Execute: every statement that succeeds joins the open transaction. A statement in the user's text that ends or changes the transaction is not modelled; examples are `COMMIT`, `ROLLBACK` and `ROLLBACK TO SAVEPOINT`. With the query `COMMIT`, PostgreSQL commits the schema scripts already run. Then `fetchall()` raises (practice/views.py:37, 56), and `atomic` rolls back only an empty transaction. So the scripts stay committed, and the next request's `CREATE TABLE` fails because the table already exists. The model instead discards them. `SubmitStopsAtError` ("nothing is committed"), `RunQuery` and `ProblemDetail` (only the committed statements of a successful request) rely on this assumption.
