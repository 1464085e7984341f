# query-validator assertion engine

A Dafny model of the part of query-validator that decides whether a SQL test
passes. A test file gives a query and a mapping of assertions. The runner
executes the query and hands the rows and the mapping to `run_assertions`,
which calls one of five validators for each key:

- `count` checks the number of rows;
- `has` checks that every listed value occurs in its column;
- `missing` checks that no listed value occurs in its column;
- `no_nulls` checks that the listed columns are never NULL;
- `only_nulls` checks that the listed columns are always NULL.

The runner then classifies each test as PASS, FAIL or ERROR and counts the
outcomes in a summary.

The model has four modules:

- `Rows` (rows.dfy): column values (`Null`, strings, integers), rows as maps
  from column name to value, and the `getattr(row, column, None)` lookup,
  where an absent column reads as NULL.
- `Validators` (validators.dfy):
  - each validator as a pure function (`RowCount`, `HasVerdict`,
    `MissingVerdict`, `NoNullsVerdict`, `OnlyNullsVerdict`) with lemmas
    stating what passing and failing mean;
  - the same validators as methods that follow the source's loops, each
    proved to give the function's answer;
  - `has` and `missing` overwrite the `values` of the caller's rule dicts
    with sets. These dicts are objects of class `ColumnRule`, and the
    methods state what each one holds afterwards.
- `Dispatch` (dispatch.dfy):
  - `run_assertions` as a specification over the mapping as a value (`RunSpec`);
  - the method `RunAssertions`, which walks the mapping in order, stops at
    the first entry that raises, and is proved to raise what `RunSpec` says;
  - what the run leaves in every rule dict (`Progress`).
- `Runner` (runner.dfy):
  - the test loop of `main`, with a `Summary` class whose counters always
    count its details;
  - `Classify`, which gives each test's status and message.

The model follows the code on these points, where some accounts of the tool
describe otherwise:

- `run_assertions` stops at the first entry that raises. Later entries are
  never run, and at most one message is produced.
- An unknown assertion key raises `ValueError`, which `main` counts as
  ERROR, not FAIL.
- The code has no "erroneous rows". A failure of `missing`, `no_nulls` or
  `only_nulls` carries one message naming the first offending value or
  column; a `count` failure gives both numbers, and a `has` failure lists
  every rule that still has values no row showed.

## Model

validator/test_runner.py is an older copy of validator/main.py: its
`run_assertions` (lines 10-39) and its test loop (lines 63-102) match those
of main.py line for line, so each row below describes both copies. Each row
cites one of the two.

| member | source | states |
|---|---|---|
| Rows.Get | validator/validators.py:34 | the lookup gives NULL exactly when the row has no such column or holds NULL there; any other value is the row's own value for that column |
| Validators.Describe | validator/validators.py:14-103 | each failure's `AssertionError` text starts with its kind's fixed wording, `Expected ` for `count`, `Expected values not found: ` for `has`, `Unexpected value '` or `Unexpected 'null' value` for the column checks, and a column check's text ends by naming the column |
| Validators.RowCount | validator/validators.py:13-14 | passes exactly when the number of rows equals the expected count; a failure carries both numbers |
| Validators.ToSets | validator/validators.py:29-30 | every rule dict's `values` becomes the set of what it held |
| Validators.HasVerdict | validator/validators.py:29-40 | a `has` failure is a `ValuesNotFound` whose list of remaining rules is not empty and holds only rules with values left |
| Validators.HasPasses | validator/validators.py:29-40 | `has` passes exactly when every expected value of every rule is the value of that rule's column in some row, an absent column reading as NULL |
| Validators.HasReports | validator/validators.py:38-40 | a `has` failure lists exactly the rules that still have unseen values, each with exactly those values |
| Validators.DiscardSeen | validator/validators.py:33-36 | one row's pass over the rules removes from each rule's set the value that row shows in the rule's column, and nothing else |
| Validators.Has | validator/validators.py:29-40 | the loop's verdict is `HasVerdict` of the rules as given; afterwards each caller rule holds the set of its values that no row showed |
| Validators.HasEdgeCases | validator/validators.py:29-40 | an empty rule list passes, and a rule with no values, wherever it stands in the list, never changes the verdict |
| Validators.HasNoRows | validator/validators.py:32-40 | over no rows `has` passes exactly when no rule expects a value |
| Validators.FirstBad | validator/validators.py:58-63 | the row-major scan finds nothing exactly when no (row, item) pair is flagged, and otherwise finds the first flagged pair in row-then-item order |
| Validators.FirstBadAt | validator/validators.py:58-63 | a flagged pair with nothing flagged before it is the one the scan returns, so an early exit at it agrees with the scan |
| Validators.MissingVerdict | validator/validators.py:58-63 | a `missing` failure is an `UnexpectedValue` naming a column of one of the rules and a value in that rule's set |
| Validators.MissingMeaning | validator/validators.py:58-63 | `missing` passes exactly when no row's value in a rule's column is one of that rule's values; a failure names the value and column of the first such pair |
| Validators.Missing | validator/validators.py:55-63 | the loop with its early exit gives `MissingVerdict` of the rules as given; afterwards each rule's values are the set of what it held |
| Validators.NoNullsVerdict | validator/validators.py:78-83 | a `no_nulls` failure is an `UnexpectedNull` naming one of the listed columns |
| Validators.NoNullsMeaning | validator/validators.py:78-83 | `no_nulls` passes exactly when every listed column is non-NULL in every row; a failure names the column of the first NULL |
| Validators.NoNulls | validator/validators.py:78-83 | the nested loop with its early exit gives `NoNullsVerdict` |
| Validators.OnlyNullsVerdict | validator/validators.py:98-103 | an `only_nulls` failure is an `UnexpectedNonNull` naming one of the listed columns and a value that is not NULL |
| Validators.OnlyNullsMeaning | validator/validators.py:98-103 | `only_nulls` passes exactly when every listed column is NULL or absent in every row; a failure names the first non-NULL value, which is not NULL, and its column |
| Validators.OnlyNulls | validator/validators.py:98-103 | the nested loop with its early exit gives `OnlyNullsVerdict` |
| Validators.EmptyScansPass | validator/validators.py:58-103 | with no rows, or with no rules or columns, `missing`, `no_nulls` and `only_nulls` pass |
| Validators.NullChecksExclusive | validator/validators.py:78-103 | with at least one row and one column, `no_nulls` and `only_nulls` cannot both pass |
| Dispatch.Validate | validator/main.py:22-33 | the table sends each of the five keys to its own validator: a failure's kind tells which key raised it |
| Dispatch.Evaluate | validator/main.py:30-38 | one entry raises nothing exactly when its key is in the table and the validator passes; what it raises names the entry's key, and is a `ValueError` exactly when the key is not in the table |
| Dispatch.Message | validator/main.py:35-38 | an `AssertionError` reads `Assertion '<key>' failed: ` followed by exactly the validator's message; a `ValueError` reads `Unknown assertion '<key>'` |
| Dispatch.Stop | validator/main.py:30-38 | the index of the first entry that raises: every entry before it passes and it raises, or it is the length when none raises |
| Dispatch.RunSpec | validator/main.py:22-38 | `run_assertions` returns normally exactly when every key is one of the five validators and each passes; otherwise it raises what some entry raises, every earlier entry having passed |
| Dispatch.StopAppend | validator/test_runner.py:31-39 | over two mappings in sequence, the walk stops in the first when something there raises, and otherwise at the first's length plus where it stops in the second |
| Dispatch.RunInOrder | validator/main.py:30-38 | a mapping `a` followed by `b` raises what `a` raises, and only when `a` raises nothing does `b` decide |
| Dispatch.UnknownKeyRaises | validator/main.py:37-38 | an unknown key raises `ValueError` naming it whenever every entry before it passed, whatever follows |
| Dispatch.RaisedMessage | validator/main.py:31-38 | the message raised is `Assertion '<key>' failed: ` followed by the validator's message for a known key, and `Unknown assertion '<key>'` for an unknown one, the key being the first failing entry's |
| Dispatch.Apply | validator/main.py:31-38 | one entry raises what `Evaluate` says of its rule as loaded, and its rule dicts end as `has` or `missing` leave them |
| Dispatch.RunEntry | validator/main.py:30-36 | running entry `i` raises what its rule as loaded gives, changes only its own rule dicts, and carries `Progress` from `i` to `i + 1` |
| Dispatch.RunAssertions | validator/main.py:9-38 | the loop raises exactly `RunSpec` of the mapping as loaded; every entry up to the one that raised has changed its dicts as its validator does, and every later entry's dicts are untouched |
| Runner.ClassifyMeaning | validator/main.py:63-78 | PASS exactly when the query runs and every assertion passes, with an empty message; FAIL exactly when the query runs and the first raising entry is a validator failure, with the prefixed message; ERROR exactly when the query fails (its error text is the message) or the first raising entry has an unknown key |
| Runner.Classify | validator/main.py:63-78 | a failed query gives ERROR with the query's error text; otherwise the test is PASS exactly when `run_assertions` raises nothing, a PASS has an empty message, and any other status carries the text of what was raised |
| Runner.NoAssertionsPassesIffQueryRuns | validator/main.py:62-70 | a test without an `assertions` key runs `{}` and passes exactly when its query runs |
| Runner.CountsPartition | validator/main.py:83-89 | the PASS, FAIL and ERROR counts of a list of details add up to its length |
| Runner.Summary.constructor | validator/main.py:50-56 | the summary starts with all counters zero and no details |
| Runner.Summary.Record | validator/main.py:83-97 | `total` and exactly the counter of the test's status go up by one, the detail is appended, and the counters keep counting the details |
| Runner.Balanced | validator/test_runner.py:88-94 | whenever the counters count the details, `total == passed + failed + errors` |
| Runner.Report | validator/main.py:91-97 | a detail carries the test's name and its own mapping; a PASS has an empty message, and a failed query is an ERROR with the query's error text |
| Runner.RunTest | validator/main.py:60-78 | one test's detail is its `Report`: name, status and message from `Classify`, and its own mapping; a failed query leaves the rule dicts alone |
| Runner.RunOne | validator/main.py:58-97 | one turn records test `i`'s report and leaves every other test's mapping as it was |
| Runner.ReportsAt | validator/test_runner.py:96-102 | the `t`-th recorded detail is test `t`'s report, in input order |
| Runner.RunAll | validator/main.py:58-97 | after the loop the details are the reports of the tests, in input order, and the counters count them |
| Runner.RunTests | validator/main.py:50-97 | a fresh summary with one detail per test in input order, each that test's report, and `total == passed + failed + errors == number of tests` |

## Left out

- The database is a per-test input (`QueryResult`): either the rows or the text of the exception. Engine creation, disposal and SQLAlchemy row objects are not modelled; a row is a map from column name to value.
- Loading and schema-validating test files, configuration (including the `exit(1)` on a configuration error in validator/test_runner.py) and logging are not modelled. validator/config.py, validator/loader.py, validator/test_loader.py, validator/logger.py and validator/database.py are not part of this model.
- The `duration` of a test and the clock are left out of `Detail`.
- Validators.Describe: the `has` message keeps only its fixed prefix `Expected values not found: `. The Python `repr` of the remaining rule dicts is kept as data (`ValuesNotFound.remaining`), not as text.
- Column values are NULL, strings and integers compared exactly. Python's equality across types (`1 == 1.0 == True`) and other value types (dates, decimals, floats) are not modelled.
- Dispatch.RunAssertions: requires each known key's rule to have the shape the test-file schema gives it (an integer for `count`, a list of `column`/`values` dicts for `has` and `missing`, a list of column names for `no_nulls` and `only_nulls`). The loader skips every file that fails the schema (validator/loader.py:19-23), so a malformed rule never reaches `run_assertions`. What the validators would do with one (a string count failing, a string of column names iterated character by character) is not modelled.
- Dispatch.RunAssertions and Runner.RunTests: require that no rule dict is shared between two entries of one test's mapping, which YAML anchors and aliases within one test file could cause; with sharing, an earlier `has` would change what a later `missing` sees. Runner.RunTests also requires that no rule dict is shared between tests, which cannot happen in the code, since each test is its own `yaml.safe_load` of its own file (validator/loader.py:16-25).
- The `conditions` key that the schema accepts has no validator. It reaches `run_assertions` as a key without a validator (`Unparsed`) and raises `ValueError`, as in the code. The optional `regex` field the schema allows inside a `missing` rule is ignored by `missing`, which reads only `column` and `values`; `ColumnRule` does not model it.
- Rows.Get: a row is a plain map. On a SQLAlchemy `Row`, `getattr` of a column named like one of the tuple's own methods (`count`, `index`) gives that bound method, not the column's value and not `None`, so `no_nulls: [count]` passes in the code where the model reports a NULL. This collision is not modelled.
- Runner.RunTests: states each test's detail and the counters, but not what the rule dicts hold afterwards. Runner.RunTest and Dispatch.RunAssertions state that for one test.
- Tests run one after another as in the code; there is no concurrency.
