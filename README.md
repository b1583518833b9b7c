# Oplog-to-SQL translator, modelled in Dafny

This project models the translation engine of `mongo-oplog-to-sql`. The
engine turns MongoDB oplog entries into SQL text. It takes a payload that
holds one entry or an array of entries. Each entry has an operation code
`op`, a namespace `ns` (`schema.table`), a document `o` and, for updates, a
prior-key document `o2`. The engine returns the SQL statements in order, or
an error.

- An insert (`"i"`) emits `CREATE SCHEMA` if the schema name is not yet in
  the cache, then `CREATE TABLE` if the namespace is not yet in the cache,
  then the `INSERT`. Schema names and namespaces share one cache. A
  namespace without a dot is its own schema name, so it is already cached
  when the table check runs and never gets a `CREATE TABLE`. The same
  happens to a namespace that an earlier insert cached as its schema name.
- An update (`"u"`) emits one `UPDATE`. It fails with "invalid oplog" when
  the document has no usable `diff`.
- A delete (`"d"`) emits one `DELETE`.
- Any other code emits nothing and is not an error.

One emission cache holds both schema names and full namespaces, and it
lives for one batch. Column lists are sorted with Go's string order. Values
are rendered as bare numbers, `true`/`false`, or single-quoted text with
nothing escaped.

The modules follow the program's structure:

- `Strings` (strings.dfy) holds the library behaviour the code relies on:
  - `sort.Strings`, as an insertion sort proved to give a sorted
    permutation that does not depend on the input order;
  - `strings.Join`;
  - the first segment of `strings.Split`;
  - decimal integer text, with a parse-back round trip.
- `Documents` (documents.dfy) holds the data model:
  - `Value`, the dynamically typed field value;
  - `Document`, a map given as a sequence of pairs in iteration order;
  - `Get`, which returns `Null` for a missing key as Go's map read does;
  - `OplogEntry`, `Payload`, `Error` and `Result`.
- `Render` (render.dfy) holds `getColumnValue` and
  `getColumnSQLDataType`, plus the `%v` text of values.
- `Statements` (statements.dfy) holds the statement builders. Each is a
  specification function with lemmas about it. Each Go loop is a method
  proved equal to its function.
- `Translator` (translator.dfy) holds the driver:
  - `CacheAfter` and `EntrySQL`, the dispatch and cache of `generateSQL`;
  - `Translate`, the batch loop of `GenerateSQL`;
  - `Decode`, the array-then-single decode fallback;
  - the cache-gating lemmas;
  - the methods `GenerateEntrySQL` and `GenerateSQL`.
- `Scenarios` (scenarios.dfy) states the expected outputs of the
  repository's test table for the model.

The Go map that serves as the cache is passed by reference. In the model
it is a `set<string>` value: `GenerateEntrySQL` returns the updated set,
and `GenerateSQL` threads it through its loop.

Behaviours of the code worth knowing, all modelled as written:

- Unknown operation codes are not rejected. The `switch` in `generateSQL`
  (main.go:50-83) has no default case, so an unknown code gives no
  statements and no error. `EntrySQL` models this.
- JSON numbers are typed `FLOAT`, never `INTEGER`. `encoding/json` decodes
  every JSON number into `float64`, so a field such as `roll_no: 5` gets
  the type `FLOAT`. The test scenarios here write JSON numbers as `Float`.
- Some inserts get no `CREATE TABLE`. The schema-name check and the
  namespace check at main.go:55-63 read the same cache. A namespace
  without a dot, or one equal to an earlier insert's schema name, is
  already cached when its table check runs.
  `Translator.NoDotNamespaceNeverCreatesTable` states the first case.

## Model

| member | source | states |
|---|---|---|
| Strings.Sort | main.go:196-203 | `sort.Strings`: the result is sorted in Go's string order and has the same elements as the input, with the same multiplicities |
| Strings.SortedUnique | main.go:196-203 | two sorted sequences with the same elements are equal, so the sort's result is fully determined |
| Strings.SortOrderIndependent | main.go:196-203 | sorting gives the same sequence for any order of the same names, so Go's random map order cannot change a sorted column list |
| Strings.FirstSegment | main.go:53-54 | `strings.Split(ns, ".")[0]`: a prefix of `ns` that contains no dot and, if shorter than `ns`, is followed by a dot |
| Strings.FirstSegmentWhole | main.go:53-54 | the schema name is the whole namespace exactly when the namespace has no dot |
| Strings.IntTextRoundTrip | main.go:224-228 | the decimal text printed for an integer parses back to that integer |
| Strings.IntTextCanonical | main.go:224-228 | the text printed for an integer is canonical decimal: digits only, a `-` only for negative values, no leading zero |
| Strings.CanonicalDecimalUnique | main.go:224-228 | canonical decimal text is exactly the text printed for the integer it parses to, so the printed text is the only canonical spelling of a value |
| Documents.Get | main.go:99 | a map read returns nil (`Null`) for a missing key and the stored value for a present one; the reads at main.go:124, 140, 145 and 153 are the same operation |
| Documents.GetPermutation | main.go:99 | a map read does not depend on the map's iteration order |
| Render.ColumnValue | main.go:224-233 | integers render as non-empty text that does not start with a quote and parses back to the value (`Render.ColumnValueInt` pins the text down exactly); floats render as their `%v` text; booleans as `true`/`false`; every other value as its `%v` text between single quotes, with nothing escaped |
| Render.ColumnValueInt | main.go:224-228 | an integer renders as canonical decimal text (digits only, a `-` only for negatives, no leading zero) that parses back to the integer; by `Strings.CanonicalDecimalUnique` that is exactly Go's `%d` text |
| Render.ColumnSQLDataType | main.go:205-222 | the type is the base type of the value's kind, optionally followed by ` PRIMARY KEY`; it ends in ` PRIMARY KEY` exactly when the column is named `_id` |
| Render.Format | main.go:227-231 | the `%v` text of a value: nil prints as `<nil>`; a nested map prints as `map[` ... `]`; an array prints as `[` ... `]` |
| Render.MapEntriesMeans | main.go:231 | a nested map prints one entry per key: entry j is the j-th key in sorted order, a `:`, and the `%v` text of the value stored under that key |
| Render.FormatOrderIndependent | main.go:231 | a nested map's `%v` text is the same for any iteration order of the same pairs |
| Statements.CreateSchemaSQL | main.go:88-90 | the statement is `CREATE SCHEMA `, then the schema name, then `;`; the schema name can be read back from it |
| Statements.CreateSchemaInjective | main.go:88-90 | different schema names give different `CREATE SCHEMA` statements |
| Statements.ColumnNames | main.go:196-203 | the column list is sorted and holds exactly the document's field names |
| Statements.SharedColumnOrder | main.go:92-108 | CREATE TABLE and INSERT use the same column order: definition i starts with column i, and the definitions, columns and values have equal length |
| Statements.InsertPairsColumnsWithValues | main.go:110-133 | in the INSERT, every column is paired with the rendering of the value stored under it, and every field of the document appears as such a pair |
| Statements.PrimaryKeyOnlyOnId | main.go:92-108 | in CREATE TABLE, exactly the `_id` column definition carries ` PRIMARY KEY` |
| Statements.CreateTableAndInsertOrderIndependent | main.go:92-133 | CREATE TABLE and INSERT are the same text for any iteration order of the document |
| Statements.SetFragments | main.go:140-163 | the SET clause fails with "invalid oplog" exactly when `diff` is not a map or neither `diff.u` nor `diff.d` is; it is always sorted; when `diff.u` is a map it holds exactly one `col = <literal>` per pair of `diff.u`, even if `diff.d` is also present; otherwise it holds exactly one `col = NULL` per name in `diff.d`, and the values of `diff.d` are ignored |
| Statements.SetFragmentsOrderIndependent | main.go:146-152 | the SET fragments of `diff.u` are the same for any iteration order |
| Statements.UnsetFragmentsOrderIndependent | main.go:153-158 | the `col = NULL` fragments of `diff.d` are the same for any iteration order |
| Statements.WhereFragmentsPermutation | main.go:165-170 | the WHERE fragments follow the iteration order; for any two orders of the same map they are the same fragments |
| Statements.GetColumnNames | main.go:196-203 | the collect-and-sort loop returns exactly `ColumnNames` |
| Statements.GenerateCreateTableSQL | main.go:92-108 | the builder loop with its `sep` variable returns `CREATE TABLE ns (` with the definitions of the sorted columns joined by `, ` and then `);` |
| Statements.GenerateInsertSQL | main.go:110-133 | the two append loops return the INSERT over the sorted columns, with their values in the same order |
| Statements.CollectAssignments | main.go:165-168 | the `range` loop returns one `col = <literal>` per pair, in iteration order |
| Statements.GenerateUpdateSQL | main.go:135-176 | returns the "invalid oplog" error in the cases `SetFragments` names; otherwise `UPDATE ns SET <sorted fragments> WHERE <o2 fragments joined by AND>;` |
| Statements.GenerateDeleteSQL | main.go:178-194 | returns `DELETE FROM ns WHERE <o fragments joined by AND>;` |
| Translator.EntrySQL | main.go:47-86 | an insert gives `[CREATE SCHEMA]?`, then `[CREATE TABLE]?`, then `[INSERT]`, in that order; an update gives one statement, or the "invalid oplog" error when its SET clause fails; a delete gives one statement; any other code gives nothing; only updates can fail |
| Translator.TranslateSingle | main.go:34-41 | a batch of one entry is that entry's output |
| Translator.TranslateConcat | main.go:34-41 | the output of a batch split in two is the first part's output, then the second part's output, where the second part starts from the cache the first part leaves; the first error wins |
| Translator.EntryInBatch | main.go:34-41 | entry i of a batch is translated with the cache left by the entries before it, and its output sits between theirs and the rest |
| Translator.Translate | main.go:35-44 | the batch loop: an error can only be the "invalid oplog" error of an update; `TranslateSingle`, `TranslateConcat` and `EntryInBatch` say how its output is made of the entries' outputs |
| Translator.Decode | main.go:24-33 | the array decode is tried first and wins when it succeeds; otherwise a single decoded entry becomes a batch of one; the decode error comes exactly when neither decode succeeds |
| Translator.CacheBeforeMeans | main.go:35-63 | a name is in the cache before entry j exactly when it was in the initial cache or an earlier insert marked it as its schema or its namespace |
| Translator.CreateSchemaWhen | main.go:53-58 | an insert emits CREATE SCHEMA exactly when its schema name is not in the initial cache and no earlier insert has that name as its schema or its namespace |
| Translator.CreateTableWhen | main.go:60-64 | an insert emits CREATE TABLE exactly when its namespace is not in the initial cache, differs from its own schema name, and no earlier insert has it as its namespace or schema |
| Translator.CreateTableAtMostOnce | main.go:60-64 | two entries with the same namespace never both emit CREATE TABLE |
| Translator.LaterInsertOnlyInserts | main.go:51-70 | after an insert into a namespace, a later insert into it emits only its INSERT |
| Translator.NoDotNamespaceNeverCreatesTable | main.go:53-64 | a namespace without a dot is its own schema name, so the shared cache suppresses its CREATE TABLE |
| Translator.OnlyInsertsUseCache | main.go:71-82 | updates, deletes and unknown codes neither read nor change the cache |
| Translator.EntryCreateSchemaCount | main.go:53-58 | one entry emits `CREATE SCHEMA s;` once if it creates schema s, and otherwise not at all |
| Translator.CreateSchemaAtMostOnce | main.go:34-41 | within a batch, `CREATE SCHEMA s;` occurs at most once, and not at all when `s` is already cached |
| Translator.GenerateEntrySQL | main.go:47-86 | `generateSQL`: its statements are those of `EntrySQL`, its new cache is the old one plus what an insert marks, and on an error there are no statements |
| Translator.GenerateSQL | main.go:21-45 | decodes the array first, then the single entry, otherwise returns the decode error; it translates entry by entry with one fresh cache; on any error there are no statements, only the error |
| Scenarios.EmptyPayloadFails | main_test.go:13-16 | a payload that decodes neither way gives the decode error |
| Scenarios.StudentColumns | main_test.go:19-31 | the test student's columns come out as `_id, date_of_birth, is_graduated, name, roll_no` |
| Scenarios.StudentValues | main_test.go:19-31 | the test student's values render, in column order, as `'635b79e231d82a8ab1de863b', '2000-01-30', false, 'Selena Miller', 51` |
| Scenarios.StudentInsert | main_test.go:31 | the test student's whole INSERT is `INSERT INTO test.student (` + the sorted columns + `) VALUES (` + their values in the same order + `);` |
| Scenarios.NestedMapText | main.go:231 | the nested map `{b: "x", a: 1}` prints as `map[a:1 b:x]`, so `ColumnValue` quotes `'map[a:1 b:x]'` |
| Scenarios.StudentKeyWhere | main_test.go:96-104 | the prior-key document of the tests gives the WHERE fragment `_id = '635b79e231d82a8ab1de863b'` |
| Scenarios.SetTwoColumnsScenario | main_test.go:55-72 | the two-column update gives the SET fragments `is_graduated = true, roll_no = 21` |
| Scenarios.UnsetOneColumnScenario | main_test.go:76-92 | the unset update gives the SET fragment `roll_no = NULL` |
| Scenarios.FirstStudentInsert | main.go:51-70 | the first insert into `test.student` emits `CREATE SCHEMA test;`, the CREATE TABLE and the INSERT, and caches `test` and `test.student` |
| Scenarios.TwoInsertsScenario | main.go:34-70 | two inserts into `test.student` emit the schema and the table once, before the first INSERT |

## Left out

- JSON decoding (`encoding/json`) is a library outside the model. The
  payload is given as the outcomes of the two decode calls: as an array of
  entries and as a single entry. A field missing from the JSON text is its
  Go zero value, the empty string or the empty map.
- `Render.ColumnValue`: does not model the `%v` text of floating-point
  numbers, because Go's float formatting is outside the model. A `Float`
  value carries the text Go prints for it.
- The finer points of `fmt`, such as pointer and struct printing, are
  outside the model; JSON decoding produces neither.
- Integer kinds: `Int` stands for Go's signed integer kinds. The unsigned
  kinds fall to the `VARCHAR(255)` and quoted branches in Go and are not
  modelled, because JSON decoding never produces them. JSON decoding never
  produces signed integers either, so the `INTEGER` branch is reachable
  only for documents built in code.
- Go's map iteration order is random at run time. The model takes it as
  the given order of the document's pairs. The lemmas show which outputs
  are independent of that order (columns, SET clauses) and which are only
  the same up to permutation (WHERE clauses).
- The `switch oplogObj.Op` re-check inside each Go builder (main.go:111, 132, 136, 175, 180, 193) is not
  modelled. `generateSQL` only calls each builder with its own code, so
  those branches never run. For the same reason, the insert and delete
  builders return a plain string.
- `main()` only prints a greeting and is not modelled.
- The cache is a value threaded through the calls, not the Go map shared
  by reference. Each call to `GenerateSQL` makes a fresh map, so nothing
  is shared across calls.
- The expected strings of main_test.go are used as per-statement text. The
  test table compares a list with a string, and its insert case expects
  only the INSERT, while the code also emits the CREATE statements.
