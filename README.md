# simple-db-connection, modelled in Dafny

This project models the sequential logic of a small family of serverless
services (students, classes, programs) that sit on one relational database.
Three pieces are modelled:

- **The transaction manager** (`src/db_utils.py`). Each process keeps three
  globals: the database user, the password and one connection.
  - The credentials are fetched from the secret store the first time a
    transaction needs them.
  - The connection is reused while it reports itself open.
  - A transaction commits when its body completes. Once the credentials
    are loaded and whenever a connection is held, it rolls back when an
    `Exception` escapes and resets the connection on every way out of its
    `try` statement.
  - The `transaction` decorator runs a handler inside one such transaction,
    with the connection as its first argument.
- **The shared helpers** (`shared/src/AppShared/utils.py`):
  - the key-case conversions `to_camel` and `to_snake`;
  - `camelfy` / `camelfy_object`, which rename the columns of fetched rows to
    camel case and turn dates into strings;
  - the builders of the sample HTTP and SQS events.
- **The deployment script's string helpers** (`app.py`): its hyphen-based
  `to_camel`, the stack name and the AppSync data source name.

Modules:
- `Options`: Option and Result.
- `PyText`: ASCII models of `str.title`, `str.split`, `str.join` and
  `str.lower`.
- `OrderedDict`: a Python dict as its entries in insertion order.
- `PyValues`: the values a row holds.
- `AppSharedUtils`: `to_camel` and `to_snake`.
- `SnakeCamelRoundTrip`: how the two key conversions relate.
- `CamelfyRows`: `camelfy` and `camelfy_object`.
- `TestEvents`: the two event builders.
- `App`: the string helpers of `app.py`.
- `DbUtils`: the transaction manager.

Most of the manager is a pure reference function, `DbUtils.Step`, for one
`with transaction_wrapper()` block. Its behaviour is stated as lemmas.
`DbUtils.Session` holds the three globals as fields, and its methods are
proved to do what `Step` says. The outside world is an input, a `World`:
- what the secret store answers;
- the `closed` flag of the cached connection;
- whether connect, commit, rollback and reset return or raise.

The calls made are recorded as a trace of `Event`s.

Points where the code does something a reader may not expect:
- The comment at `app.py:186` says the first hyphen-separated component is
  not title-cased. The code title-cases every component, and so does
  `App.ToCamel`.
- An exception raised by `reset()` in the `finally` clause, or by
  `rollback()` in the `except` clause, replaces the transaction's outcome:
  it is what the transaction raises (`DbUtils.SuccessCommitsThenResets`,
  `DbUtils.ExceptionRollsBackThenResets`).
- Only `Exception` is rolled back. A bare `BaseException` such as
  `KeyboardInterrupt` is reset but not rolled back
  (`DbUtils.BaseExceptionOnlyResets`).

## Model

| member | source | states |
|---|---|---|
| App.ToCamel | app.py:184-188 | the result has no '-', and it is as long as the name less its hyphens |
| App.ToCamelIsTitleWithoutHyphens | app.py:185-188 | camel-casing a name is title-casing it whole and dropping its hyphens |
| App.ToCamelWithoutHyphens | app.py:185-188 | a name without hyphens is one component and is simply title-cased |
| App.ToCamelCapitalisesFirstPiece | app.py:186-188 | the first component is title-cased too: a leading lower-case letter comes out upper-case |
| App.ToCamelOfJoined | app.py:185-188 | hyphen-free pieces joined by '-' camel-case to the pieces title-cased side by side |
| App.StackName | app.py:21 | the stack name starts with the service name and '-', ends with '-' and the stage, and is two longer than the three parts (`StackNameSplits`) |
| App.StackNameSplits | app.py:21 | the stack name splits on '-' into the pieces of service name, region and stage, so into exactly those three when none has a hyphen |
| App.DataSourceName | app.py:144 | the data source name has no '-', ends in "Lambda", and is six longer than the service name less its hyphens |
| PyText.Title | shared/src/AppShared/utils.py:22 | `str.title`: each letter is upper-cased unless a letter precedes it, then lower-cased; the length is kept |
| PyText.TitleIdempotent | shared/src/AppShared/utils.py:22 | title-casing twice is title-casing once |
| PyText.LowerStr | shared/src/AppShared/utils.py:15 | `str.lower`: the length is kept, no upper-case letter remains, and every other character is kept (`RemoveLower`: underscores are neither made nor lost) |
| PyText.Concat | shared/src/AppShared/utils.py:22 | `''.join`: a character occurs in the result exactly when it occurs in one of the pieces (`ConcatTitleEach`, `TitleOfPieces` relate it to title-casing) |
| PyText.TitleEach | shared/src/AppShared/utils.py:22 | the generator `x.title() for x in ...`: one title-cased piece per piece, in order (`ConcatTitleEach`) |
| PyText.Split | shared/src/AppShared/utils.py:19 | `str.split(sep)`: one more piece than there are separators, none of them holding the separator |
| PyText.JoinWithSplit | shared/src/AppShared/utils.py:19 | joining the pieces back with the separator gives the string |
| PyText.SplitJoinWith | shared/src/AppShared/utils.py:19 | splitting the join of separator-free pieces gives the pieces |
| AppSharedUtils.ToCamel | shared/src/AppShared/utils.py:18-22 | the result has no '_', is as long as the name less its underscores, and a name without '_' comes back unchanged |
| AppSharedUtils.ToCamelShape | shared/src/AppShared/utils.py:19-22 | the text before the first '_' is kept verbatim, and what follows it is title-cased with its underscores dropped |
| AppSharedUtils.ToCamelIdempotent | shared/src/AppShared/utils.py:18-22 | camel-casing a camel-cased name changes nothing |
| AppSharedUtils.LowerRun | shared/src/AppShared/utils.py:14 | the greedy `[a-z]+` run: every character in it is lower-case and the one after it is not |
| AppSharedUtils.SubWordStarts | shared/src/AppShared/utils.py:14 | the first substitution pass never shortens the name and keeps its first character |
| AppSharedUtils.SubWordStartsInsertsUnderscores | shared/src/AppShared/utils.py:14 | the first pass only inserts underscores |
| AppSharedUtils.SubCaseBoundaries | shared/src/AppShared/utils.py:15 | the second pass never shortens its input and keeps its first character |
| AppSharedUtils.SubCaseBoundariesInsertsUnderscores | shared/src/AppShared/utils.py:15 | the second pass only inserts underscores |
| AppSharedUtils.ToSnake | shared/src/AppShared/utils.py:13-15 | the result has no upper-case letter and, with underscores removed, is the name lower-cased with underscores removed |
| SnakeCamelRoundTrip.SubCaseBoundariesAppend | shared/src/AppShared/utils.py:15 | the second pass over a concatenation is the passes over both parts with '_' at the seam exactly when a lower-case letter or digit meets a capital |
| SnakeCamelRoundTrip.BothPasses | shared/src/AppShared/utils.py:14-15 | when every capital follows a lower-case letter or digit, the two passes together put one '_' before each capital after the first character |
| SnakeCamelRoundTrip.ToSnakeUndoesToCamel | shared/src/AppShared/utils.py:13-22 | on snake-case names whose later words are lower-case letters and at least two long (except the last), `to_snake(to_camel(n)) == n` |
| SnakeCamelRoundTrip.StudentIdColumn | shared/src/AppShared/utils.py:18-22 | `student_id` camel-cases to `studentId` |
| SnakeCamelRoundTrip.HoursPerWeekColumn | shared/src/AppShared/utils.py:18-22 | `hours_per_week` camel-cases to `hoursPerWeek` |
| SnakeCamelRoundTrip.HoursPerWeekRoundTrip | shared/src/AppShared/utils.py:13-22 | `to_snake(to_camel("hours_per_week"))` is `hours_per_week` |
| SnakeCamelRoundTrip.OneLetterWordCamel | shared/src/AppShared/utils.py:18-22 | `a_b_c` camel-cases to `aBC` |
| SnakeCamelRoundTrip.OneLetterWordSnake | shared/src/AppShared/utils.py:13-15 | `aBC` snake-cases to `a_bc`, so one-letter middle words do not survive the round trip |
| OrderedDict.Put | shared/src/AppShared/utils.py:44-46 | `d[k] = v`: the keys gain `k`, `k` maps to `v`, other keys keep their values, a present key stays where it is and an absent one is appended |
| OrderedDict.PutDistinct | shared/src/AppShared/utils.py:44-46 | assignment keeps the keys distinct |
| CamelfyRows.StrIfDate | shared/src/AppShared/utils.py:43-46 | dates and datetimes become their string form, anything else is kept, and no date remains |
| CamelfyRows.CamelfyEntries | shared/src/AppShared/utils.py:40-47 | the camel-cased row has distinct keys, no date values, and no more entries than the row |
| CamelfyRows.CamelfyKeys | shared/src/AppShared/utils.py:41-46 | its keys are exactly the camel-cased column names |
| CamelfyRows.LaterColumnWins | shared/src/AppShared/utils.py:42-46 | of columns that camel-case alike, the one iterated last gives the value (its date stringified, otherwise unchanged) |
| CamelfyRows.AbsentKey | shared/src/AppShared/utils.py:41-46 | a name no column camel-cases to is absent |
| CamelfyRows.CamelfyWithoutCollisions | shared/src/AppShared/utils.py:40-47 | with no two columns camel-casing alike, each column is renamed in place: same length, same order |
| CamelfyRows.SampleKeysPresent | shared/src/AppShared/utils.py:40-47 | rows with `student_id` and `hours_per_week` come back with the keys `studentId` and `hoursPerWeek` |
| CamelfyRows.CamelfyObject | shared/src/AppShared/utils.py:40-47 | the loop filling the new dict builds exactly the camel-cased row |
| PyValues.TypeName | shared/src/AppShared/utils.py:37 | the type name `str(type(x))` shows: an object of another type is known by its own type's name, `date` and `datetime` are qualified by their module `datetime.`, and the built-in types carry no module; it appears in the error `CamelfyRows.Camelfy` gives for a value it cannot parse |
| CamelfyRows.Camelfy | shared/src/AppShared/utils.py:25-37 | None gives None; a dict is camel-cased; a list of dicts gives a list of the same length with each camel-cased; a list with a non-dict fails at its first non-dict; any other type raises with the type in the message |
| TestEvents.NormalizePath | shared/src/AppShared/utils.py:62-64 | the path starts with '/', ends with the given path, gains at most one character, and is unchanged when it already starts with '/' |
| TestEvents.NormalizePathIdempotent | shared/src/AppShared/utils.py:62-64 | normalising twice is normalising once |
| TestEvents.NormalizePathCollisions | shared/src/AppShared/utils.py:62-64 | two paths normalise alike exactly when equal or one is the other, lacking its slash, with '/' in front |
| TestEvents.CreateRestEvent | shared/src/AppShared/utils.py:50-92 | `rawPath` is the normalised path; `routeKey` is method, one space, path; the request context carries the same method and path; the fixed fields; a body entry exactly when the body is truthy, holding its JSON |
| TestEvents.RouteKeySplits | shared/src/AppShared/utils.py:67 | the route key splits on its space back into method and normalised path |
| TestEvents.CreateSqsEvent | shared/src/AppShared/utils.py:95-124 | one record, carrying the body, from `aws:sqs` with the sample queue ARN and region |
| TestEvents.SqsEventsDifferOnlyInBody | shared/src/AppShared/utils.py:105-124 | two sample events differ in the body and nothing else |
| TestEvents.SqsArnMatchesRegion | shared/src/AppShared/utils.py:120-121 | the region field of the queue ARN is the record's `awsRegion` |
| DbUtils.BodyAndCommit | src/db_utils.py:39-40 | the body runs first on the given connection; a commit happens exactly when the body returns; a body that raises makes no other call and its exception is pending; a completed block carries the body's value, and a failure after a returning body is the commit's own exception |
| DbUtils.TryBlock | src/db_utils.py:29-40 | the block connects first exactly when there is no connection or it reports closed; afterwards it holds the old connection or the new one; a completed block holds a connection (`ConnectOnlyWhenNeeded`, `NoRollbackInTry`, `NoResetBeforeFinally` and `PendingErrorIsOwn` say the rest) |
| DbUtils.PendingErrorIsOwn | src/db_utils.py:29-40 | an exception pending when the `try` block is left is the failed connect's own (the old connection kept, no other call made), the body's own, or the commit's own after a returning body |
| DbUtils.ExceptClause | src/db_utils.py:41-44 | the clause adds at most one call after those already made, keeps the connection, turns no failure into success, and leaves anything but an `Exception` alone (`ExceptionRollsBackThenResets`, `BaseExceptionOnlyResets`) |
| DbUtils.FinallyClause | src/db_utils.py:45-47 | the clause adds at most one call after those already made and keeps the connection; without a connection it does nothing, and a reset that returns leaves the pending result as it was (`ResetWheneverConnected`) |
| DbUtils.Guarded | src/db_utils.py:29-47 | the `try` statement makes at least one call, leaves the credentials alone, and a transaction that returns holds a connection (`GuardedShape`, `SuccessCommitsThenResets`) |
| DbUtils.StepBasics | src/db_utils.py:20-47 | one `with transaction_wrapper()` block (`Step`) makes at least one call, never changes cached credentials, and when it returns both the credentials and a connection are held; the lemmas below state the rest of its behaviour |
| DbUtils.RunMany | src/db_utils.py:14-47 | a process's transactions one after another, each making at least one call, over the globals they share (`NoFetchOnceCached`, `FetchesStopAfterSuccess`, `ConnectionReused`) |
| DbUtils.GetDbCredentials | src/db_utils.py:60-81 | a string secret yields its username and password; a binary one a single value; a `ClientError` ends the process with its own message, any other failure with the other |
| DbUtils.FetchOnlyWhenUncached | src/db_utils.py:24-26 | the secret store is asked exactly when no user is cached, before anything else; a cached user stays cached |
| DbUtils.CredentialFailureStopsEarly | src/db_utils.py:25-29 | when no credentials can be had, only the fetch happens, nothing is cached, and the transaction fails with the exit or the unpack error |
| DbUtils.ConnectOnlyWhenNeeded | src/db_utils.py:30-37 | a connect happens exactly when there is no connection or it reports closed; otherwise the cached one is used; a failed connect keeps the old one and runs no body |
| DbUtils.UsedConnection | src/db_utils.py:30-39 | the connection the body gets is missing exactly when a connect is needed and raises; without a connect it is the cached one |
| DbUtils.SuccessCommitsThenResets | src/db_utils.py:39-47 | when the body returns on the connection it is given and the commit succeeds, the calls end with body, commit, reset on that connection and nothing is rolled back; the transaction returns the body's value when the reset succeeds and raises the reset's exception when it does not |
| DbUtils.ReturnedMeansCommitted | src/db_utils.py:29-47 | a transaction returns only if the credentials were had, a connection was used, the body returned and both commit and reset succeeded, so `SuccessCommitsThenResets` describes every transaction that returns |
| DbUtils.ExceptionRollsBackThenResets | src/db_utils.py:41-47 | an `Exception` pending from connect, body or commit (`PendingErrorIsOwn`) with a connection held ends with rollback then reset, and the same exception object is raised unless rollback or reset raised their own |
| DbUtils.ColdConnectFailureReraises | src/db_utils.py:30-47 | on a cold start a connect that raises leaves no connection, so both `is not None` guards are false: no body, rollback or reset runs and the connect's exception is raised |
| DbUtils.BaseExceptionOnlyResets | src/db_utils.py:41-47 | a bare `BaseException` is not rolled back; the reset still runs and the exception goes on unless the reset raised |
| DbUtils.ResetWheneverConnected | src/db_utils.py:45-47 | once past the credentials, the last call is a reset of the connection whenever one is held, and no reset happens otherwise |
| DbUtils.StaleConnectionStillReset | src/db_utils.py:30-47 | a closed cached connection that cannot be replaced stays in place and is rolled back and reset; the connect's exception is raised |
| DbUtils.DecoratedResult | src/db_utils.py:52-57 | `Decorate(func, args)` is the body `inner` runs inside `with transaction_wrapper() as conn` (lines 55-56); a decorated call that returns ran that body on the transaction's connection and hands back `func(conn, args)` for it |
| DbUtils.NoFetchOnceCached | src/db_utils.py:24-26 | once credentials are cached, no later transaction fetches them and they never change |
| DbUtils.FetchesStopAfterSuccess | src/db_utils.py:24-26 | after the first transaction that obtains credentials, no transaction fetches again |
| DbUtils.ConnectionReused | src/db_utils.py:30-39 | two transactions in a row with the connection reported open share one connection and the second connects nothing |
| DbUtils.Session.constructor | src/db_utils.py:16-18 | a process starts with no user, no password and no connection |
| DbUtils.Session.TransactionWrapper | src/db_utils.py:20-47 | the globals, the outcome and the calls made are those `Step` gives |
| DbUtils.Session.TryStatement | src/db_utils.py:29-47 | the `try` statement with both clauses leaves the connection, outcome and calls that `Guarded` gives |
| DbUtils.Session.TryPart | src/db_utils.py:29-40 | the `try` block connects when needed, runs the body, commits, and its pending result and calls are those of `TryBlock` |
| DbUtils.Session.BodyPart | src/db_utils.py:39-40 | the body runs at the `yield` and the commit after it; the block completes exactly when the body returns and the commit succeeds, and then carries the body's value; its calls and result are those of `BodyAndCommit` |
| DbUtils.Session.ExceptPart | src/db_utils.py:41-44 | the `except Exception` clause never turns a failure into success or a success into failure, leaves a result, a bare `BaseException` or a failure without connection as it was, and otherwise does what `ExceptClause` gives: rollback on the held connection, then the same or the rollback's exception |
| DbUtils.Session.FinallyPart | src/db_utils.py:45-47 | the `finally` clause leaves the pending result alone without a connection and never invents a result; otherwise it does what `FinallyClause` gives: reset on the held connection, whose exception replaces the pending result |
| DbUtils.Session.Transaction | src/db_utils.py:52-57 | a decorated call is `Step` with the decorated body |

## Left out

- The request router (`Router`, `Invocation`) is not part of this model. Its source is not among the files modelled.
- The CDK stack in `app.py`, the per-service handlers, the SQL statements, the local runners and the tests are not modelled. They are infrastructure, glue or fixtures.
- Logging and printing are not modelled. That includes `log.debug("User: " + db_user)`: a non-string user from the secret's JSON would make that line raise.
- PyText.Title: `str.title` is modelled for ASCII letters only. Every other character counts as uncased and is kept. App.ToCamel, AppSharedUtils.ToCamel and PyText.LowerStr share this limit.
- AppSharedUtils.ToSnake: the two `re.sub` passes are written out as left-to-right scans with ASCII character classes, not through a regular-expression engine.
- DbUtils.GetDbCredentials: JSON parsing and base64 decoding are inputs, so the parsed secret holds strings only. The exit message is reduced to which `except` clause produced it. The printed error is dropped.
- DbUtils.Step: the secret store, `psycopg2.connect`, commit, rollback and reset are foreign calls. Each is an input that returns or raises. The `closed` flag is an input too. The `name` argument of `transaction_wrapper` is unused and not modelled.
- DbUtils.Step: one `with` block runs at a time. A decorated handler that calls another decorated handler (`save_student` calling `get_student`) shares the one connection, and that nesting is not modelled. Neither is concurrency.
- CamelfyRows.StrIfDate: `str()` of a date or datetime is the text the value carries. Its format is not modelled.
- TestEvents.CreateRestEvent: `json.dumps` is a parameter. The events are records, so the key order of the built dicts is not modelled.
