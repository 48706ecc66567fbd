# php-db query builder: a Dafny model of the statement model

php-db (`Vega\Database`) is a fluent SQL query builder for PHP. A
`QueryBuilderHandler` gathers the parts of a query in `$statements`, a PHP
array from a clause name (`tables`, `selects`, `wheres`, `joins`, `havings`,
`groupBys`, `orderBys`, `limit`, `offset`, `distinct`, `onduplicate`) to the
entries of that clause. Dialect compilers turn the statements into SQL, and
PDO runs the SQL. This project models the half of the builder that does not
touch the database:

- **PHP values** (`php_values.dfy`). PHP arrays are ordered sequences of
  key/value entries. The module covers `$a[] = v`, `$a[k] = v`,
  `array_merge` with renumbering of integer keys, truthiness and the
  `(int)` cast of decimal text.
- **The container** (`containers.dfy`). `Container::build` is a memo keyed
  on the class name alone. The first build of a key creates and stores an
  object; every later build of that key returns the stored object and
  ignores its parameters. Object creation by reflection is kept abstract:
  the model records only a fresh object with its class and arguments.
- **`addTablePrefix`** (`table_prefix.dfy`), as a function. Raw
  expressions and closures pass through. An alias (a string key) has its
  key prefixed and its value kept. Any other name is prefixed when
  table/field mixing is off or when the name contains a dot.
- **Execution with the driver abstracted** (`execution.dfy`). The driver's
  answers are inputs: fetched rows or a failure for a select, and a row
  count and last insert id, or a failure, for each insert statement. The
  module holds the binding plan of `statement`, the results of `get`,
  `first` and `aggregate`, and the per-row loop of a batch insert. Plugin
  hook calls become returned `Event`s.
- **The builder** (`query_builder.dfy`). The builder is a class whose
  `statements` and `isRaw` fields its methods update in place. It covers
  `addStatement`, `_where`, every where/having/orderBy/limit/offset/select/
  groupBy/from/join wrapper, `table`, `raw`, `_whereNull`, `first`,
  `find`/`findAll`, `count`/`aggregate` and the insert family.
  `NestedCriteria` is the same class with the `nestedCriteria` flag set;
  its `_where` writes to `criteria` instead of `wheres`.

The key-only cache is kept exactly as written. It shows through `raw()`:
only the first Raw a connection's container builds carries its own text,
and every later `raw(...)` returns that first object. So every
`whereNull`-family criterion, and the select of every `count()`/aggregate
after the first Raw, holds the first Raw expression. Every join of a
connection shares the first join builder in the same way. `Raw`,
`WhereNullBase`, `Aggregate` and `Join` state this in their contracts, and
`WhereNullTwice` shows two `whereNull` calls on different columns storing
the same key.

`from()` and `selectDistinct()` add to `tables` and `distinct` through
`addStatement`, which appends, so a second call adds entries to the clause
rather than replacing it.

## Model

| member | source | states |
|---|---|---|
| Containers.Container.Build | src/Container.php:39-50 | A cached key returns the stored instance and leaves the cache as it was. An uncached key stores and returns a fresh object of that class built from the given parameters. Afterwards `has(key)` holds, and every other key keeps its presence and its value. The cache invariant (each value is an object of the class its key names) is kept. |
| Containers.Container.Has | src/Container.php:19-22 | `has(key)` holds iff the key is in `$singletons`; under the cache invariant a held key holds an object of the class it names. |
| Containers.Container.Instanciate | src/Container.php:61-70 | Returns a fresh object of class `key` whose constructor arguments are `parameters`. |
| Containers.BuildTwice | src/Container.php:42-47 | Two builds of one key return the identical instance. When the key was not cached, that instance carries the first call's parameters. |
| TablePrefix.Prefixed | src/QueryBuilder/QueryBuilderHandler.php:941-943 | The dot rule: the name gets the prefix iff mixing is off or the name contains `.`; otherwise it is unchanged. |
| TablePrefix.PrefixEntry | src/QueryBuilder/QueryBuilderHandler.php:927-945 | A Raw or Closure entry is kept as is. A string key has its key prefixed by the dot rule and its value kept. An integer key keeps its key and has its value prefixed by the dot rule. |
| TablePrefix.Rebuild | src/QueryBuilder/QueryBuilderHandler.php:925-946 | The rebuilt `$return` has no more entries than the input, and is non-empty when the input is. |
| TablePrefix.AddTablePrefix | src/QueryBuilder/QueryBuilderHandler.php:909-950 | With no prefix the input is returned unchanged. A Raw or Closure input is returned unchanged. Otherwise an array input gives an array and a scalar input a scalar, and a string input gives the string with the dot rule applied. |
| TablePrefix.Mapped | src/QueryBuilder/QueryBuilderHandler.php:927-945 | The entry-by-entry reading: same length, and entry i is the per-entry rule applied to input entry i. |
| TablePrefix.RebuildWithoutCollisions | src/QueryBuilder/QueryBuilderHandler.php:925-946 | When the transformed keys are distinct, the loop's `$return` is exactly the entry-by-entry transform, in input order. |
| TablePrefix.PrefixedInjective | src/QueryBuilder/QueryBuilderHandler.php:941-943 | The dot rule is one-to-one for a fixed prefix and mixing flag. |
| TablePrefix.MappedKeysDistinct | src/QueryBuilder/QueryBuilderHandler.php:934-945 | Distinct input keys stay distinct after prefixing when no string key holds a Raw or Closure. |
| TablePrefix.AddTablePrefixArray | src/QueryBuilder/QueryBuilderHandler.php:909-950 | Shape preservation for arrays: with distinct keys and no Raw/Closure under a string key, the result has the same number of entries, in the same order, each transformed by the per-entry rule. |
| TablePrefix.AliasCollisionShortens | src/QueryBuilder/QueryBuilderHandler.php:929-945 | Without that side condition shape is not preserved. `["p_a.b" => raw, "a.b" => "x"]` under prefix `p_` comes back with one entry, because the prefixed alias overwrites the raw entry. |
| PhpValues.Set | src/QueryBuilder/QueryBuilderHandler.php:945 | `$a[k] = v`: looking up `k` gives `v` and every other key is unchanged. The length grows by one iff `k` was absent. |
| PhpValues.Push | src/QueryBuilder/QueryBuilderHandler.php:897 | `$a[] = v`: the values are the old values followed by `v`. |
| PhpValues.PushOnList | src/QueryBuilder/QueryBuilderHandler.php:897 | On a list, `$a[] = v` uses index `|a|` and keeps it a list. |
| PhpValues.PushAll | src/QueryBuilder/QueryBuilderHandler.php:541 | Repeated `$a[] = v`: the values are the old values followed by the pushed ones, in order. |
| PhpValues.ArrayMergeIntVals | src/QueryBuilder/QueryBuilderHandler.php:965 | `array_merge` keeps the integer-keyed values of both arrays, first array first, each in order. |
| PhpValues.ArrayMergeLists | src/QueryBuilder/QueryBuilderHandler.php:965 | `array_merge` of two integer-keyed arrays is the list of the first's values followed by the second's. |
| PhpValues.ArrayMergeStringKey | src/QueryBuilder/QueryBuilderHandler.php:965 | After `array_merge`, a string key holds its last value in the second array, otherwise its value in the first. |
| PhpValues.Saturate | src/QueryBuilder/QueryBuilderHandler.php:281-282 | The `(int)` cast of text clamps to PHP's 64-bit range: values inside it are kept, values above give `PHP_INT_MAX`, values below give `PHP_INT_MIN`. |
| PhpValues.DecimalRoundTrip | src/QueryBuilder/QueryBuilderHandler.php:281-282 | `(int)` of a natural number's decimal text is that number when it is at most `PHP_INT_MAX`, and `PHP_INT_MAX` when it is larger. |
| Execution.BindingPlan | src/QueryBuilder/QueryBuilderHandler.php:164-172 | Null bindings bind nothing. Otherwise there is one binding per entry, in order, with the entry's value. An integer key k binds placeholder k + 1 and a string key binds the placeholder it names. The binding is integer-typed iff the value is an int or a bool. |
| Execution.BindingPlanPlaceholders | src/QueryBuilder/QueryBuilderHandler.php:165-168 | A list binds placeholders 1, 2, … in order. Distinct keys never bind the same placeholder twice. |
| Execution.GetResult | src/QueryBuilder/QueryBuilderHandler.php:184-203 | `get()` is null iff execution failed; otherwise it is the list of fetched rows in order. |
| Execution.FirstRow | src/QueryBuilder/QueryBuilderHandler.php:210-215 | `first()` is null iff execution failed or no row came back; otherwise it is the first row. |
| Execution.AggregateResult | src/QueryBuilder/QueryBuilderHandler.php:281-287 | For rows read as associative arrays: 0 when the first row's `field` is missing or not truthy, and 0 on failure or no rows; an integer `field` is returned as is. It is what the code as written returns for such rows. |
| Execution.AggregateOfDecimal | src/QueryBuilder/QueryBuilderHandler.php:266-288 | A count reported as decimal text, up to `PHP_INT_MAX`, is returned exactly. |
| Execution.AssocRows | src/QueryBuilder/QueryBuilderHandler.php:184-203 | The rows `get()` answered, each as an associative array, in order; none when execution failed. |
| Execution.AggregateAsWritten | src/QueryBuilder/QueryBuilderHandler.php:281-287 | The tail of `aggregate` as written throws iff the first row is an object, because `$row[0]['field']` is evaluated before `->field`. |
| Execution.AggregateIntended | src/QueryBuilder/QueryBuilderHandler.php:281-287 | The intended reading: 0 when there is no row or the first row's `field` is not truthy, whether the row is an array or an object. An integer `field` is returned as is. |
| Execution.AggregateIntendedOfDecimal | src/QueryBuilder/QueryBuilderHandler.php:281-285 | Under the intended reading, a count reported as decimal text, up to `PHP_INT_MAX`, is returned exactly, from array and object rows alike. |
| Execution.AsWrittenAgreesOnArrays | src/QueryBuilder/QueryBuilderHandler.php:281-287 | When there is no row or the first row is an array, the code as written returns exactly the intended value. |
| Execution.InsertRows | src/QueryBuilder/QueryBuilderHandler.php:322-339 | The batch loop makes exactly one execution per row. It collects `CollectedIds` (at most one id per row). Each row yields its `RowEvents` entry: `afterInsert` with the row count and the id (null unless one row was affected), or `onException` with the operation tag exactly when that row failed. |
| Execution.SingleInsertResult | src/QueryBuilder/QueryBuilderHandler.php:312-321 | The single-statement branch returns the last insert id iff exactly one row was affected, and null otherwise or on failure. It yields the matching hook event. |
| Execution.CollectedIdsBound | src/QueryBuilder/QueryBuilderHandler.php:322-339 | A batch returns no more ids than rows. |
| Execution.CollectedIdsAppend | src/QueryBuilder/QueryBuilderHandler.php:325-337 | The ids of a batch are the ids of its first part followed by those of the rest. |
| Execution.FailedRowSkipped | src/QueryBuilder/QueryBuilderHandler.php:334-336 | A failing row adds no id, and the rows after it still add theirs. |
| Execution.SingleRowIndices | src/QueryBuilder/QueryBuilderHandler.php:325-337 | The positions of exactly the rows whose row count is 1, strictly increasing. |
| Execution.CollectedIdsExact | src/QueryBuilder/QueryBuilderHandler.php:325-337 | The returned ids are exactly the last insert ids of the rows whose row count is 1, in row order, one for each such row. |
| QueryBuilder.Appended | src/QueryBuilder/QueryBuilderHandler.php:897 | `$statements[name][] = e` touches only that clause, which becomes an array whose values are the old ones followed by `e`. |
| QueryBuilder.AppendedAll | src/QueryBuilder/QueryBuilderHandler.php:531-542 | A run of `$statements[name][] = e` touches only that clause. The clause exists as an array once something was appended, and holds its old values followed by the new ones in order; an empty run changes nothing. |
| QueryBuilder.AppendedAllSnoc | src/QueryBuilder/QueryBuilderHandler.php:531-542 | Appending a run of entries is appending them one at a time, each to the result of the ones before. |
| QueryBuilder.StatementAdded | src/QueryBuilder/QueryBuilderHandler.php:956-967 | `addStatement` touches only its clause. An absent clause becomes the value wrapped in an array. An existing clause keeps its integer-keyed values, followed by the new ones. |
| QueryBuilder.StatementAddedAppends | src/QueryBuilder/QueryBuilderHandler.php:958-966 | On an integer-keyed clause, `addStatement` gives the list of the old values followed by the new ones, in call order. |
| QueryBuilder.WhereOperands | src/QueryBuilder/QueryBuilderHandler.php:603-611 | With exactly two arguments the operator is `=` and the value is the second argument. Otherwise missing arguments are null. |
| QueryBuilder.OrderEntry | src/QueryBuilder/QueryBuilderHandler.php:531-542 | An integer key gives `field = value` (prefixed unless Raw) and `type = defaultDirection`. A string key gives `field = key` (prefixed) and `type = value`. |
| QueryBuilder.OrderSpecs | src/QueryBuilder/QueryBuilderHandler.php:527-542 | One spec per element of the fields (a scalar counts as a one-element list), each given by the per-entry rule, in order. |
| QueryBuilder.OrderLoop | src/QueryBuilder/QueryBuilderHandler.php:531-542 | The `orderBy` foreach computes exactly `OrderSpecs` of the fields, in element order. |
| QueryBuilder.QueryBuilderHandler.constructor | src/QueryBuilder/QueryBuilderHandler.php:65-89 | Empty statements, raw mode on, the connection's prefix and container. The dialect compiler comes from the container under `Adapters\` + `ucfirst(adapter)`. It is the cached one when that key was already built; otherwise it is a fresh object of that class built with the PDO handle, and it is the only entry added. The builder's invariant keeps the adapter cached under its key. |
| QueryBuilder.QueryBuilderHandler.WithCriterion | src/QueryBuilder/QueryBuilderHandler.php:894-899 | One `{key: prefixed key, operator, value, joiner}` criterion appended to `wheres`, or to `criteria` for a NestedCriteria. No other clause changes. |
| QueryBuilder.QueryBuilderHandler.AddWhere | src/QueryBuilder/NestedCriteria.php:14-19 | `_where` and its NestedCriteria override: the statements become `WithCriterion`. The joiner defaults to `AND`, and the same builder is returned. |
| QueryBuilder.QueryBuilderHandler.AddStatement | src/QueryBuilder/QueryBuilderHandler.php:956-967 | The statements become `StatementAdded`. |
| QueryBuilder.QueryBuilderHandler.SetIsRaw | src/QueryBuilder/QueryBuilderHandler.php:448-451 | `isRaw` is the given value. |
| QueryBuilder.QueryBuilderHandler.Where | src/QueryBuilder/QueryBuilderHandler.php:603-611 | One `AND` criterion, with operator `=` when given two arguments. |
| QueryBuilder.QueryBuilderHandler.OrWhere | src/QueryBuilder/QueryBuilderHandler.php:620-629 | One `OR` criterion, with operator `=` when given two arguments. |
| QueryBuilder.QueryBuilderHandler.WhereNot | src/QueryBuilder/QueryBuilderHandler.php:638-646 | One `AND NOT` criterion, with operator `=` when given two arguments. |
| QueryBuilder.QueryBuilderHandler.OrWhereNot | src/QueryBuilder/QueryBuilderHandler.php:655-663 | One `OR NOT` criterion, with operator `=` when given two arguments. |
| QueryBuilder.QueryBuilderHandler.WhereIn | src/QueryBuilder/QueryBuilderHandler.php:671-674 | One `AND` criterion with operator `IN` and the value list unchanged. |
| QueryBuilder.QueryBuilderHandler.WhereNotIn | src/QueryBuilder/QueryBuilderHandler.php:682-685 | One `AND` criterion with operator `NOT IN` and the value list unchanged. |
| QueryBuilder.QueryBuilderHandler.OrWhereIn | src/QueryBuilder/QueryBuilderHandler.php:693-696 | One `OR` criterion with operator `IN` and the value list unchanged. |
| QueryBuilder.QueryBuilderHandler.OrWhereNotIn | src/QueryBuilder/QueryBuilderHandler.php:704-707 | One `OR` criterion with operator `NOT IN` and the value list unchanged. |
| QueryBuilder.QueryBuilderHandler.WhereBetween | src/QueryBuilder/QueryBuilderHandler.php:716-719 | One `AND` criterion with operator `BETWEEN` and value `[from, to]`. |
| QueryBuilder.QueryBuilderHandler.OrWhereBetween | src/QueryBuilder/QueryBuilderHandler.php:728-731 | One `OR` criterion with operator `BETWEEN` and value `[from, to]`. |
| QueryBuilder.QueryBuilderHandler.Raw | src/QueryBuilder/QueryBuilderHandler.php:852-855 | Returns the container's cached Raw. Only when none was cached is it a fresh object holding this call's text and bindings; otherwise the cache is unchanged. |
| QueryBuilder.QueryBuilderHandler.WhereNullBase | src/QueryBuilder/QueryBuilderHandler.php:769-773 | One criterion keyed by the cached Raw, with null operator and value, joined by `AND` or `OR`. On a cold cache the Raw is a fresh object holding `<quoted key> IS [NOT] NULL` and no bindings, and it is the only new cache entry; on a warm cache the container is unchanged. |
| QueryBuilder.QueryBuilderHandler.WhereNull | src/QueryBuilder/QueryBuilderHandler.php:737-740 | One `AND` criterion keyed by the cached Raw. On a cold cache the Raw is a fresh object holding `<quoted key> IS  NULL` and no bindings, and it is the only new cache entry; on a warm cache the container is unchanged. |
| QueryBuilder.QueryBuilderHandler.WhereNotNull | src/QueryBuilder/QueryBuilderHandler.php:746-749 | One `AND` criterion keyed by the cached Raw. On a cold cache the Raw is a fresh object holding `<quoted key> IS NOT NULL` and no bindings, and it is the only new cache entry; on a warm cache the container is unchanged. |
| QueryBuilder.QueryBuilderHandler.OrWhereNull | src/QueryBuilder/QueryBuilderHandler.php:755-758 | One `OR` criterion keyed by the cached Raw. On a cold cache the Raw is a fresh object holding `<quoted key> IS  NULL` and no bindings, and it is the only new cache entry; on a warm cache the container is unchanged. |
| QueryBuilder.QueryBuilderHandler.OrWhereNotNull | src/QueryBuilder/QueryBuilderHandler.php:764-767 | One `OR` criterion keyed by the cached Raw. On a cold cache the Raw is a fresh object holding `<quoted key> IS NOT NULL` and no bindings, and it is the only new cache entry; on a warm cache the container is unchanged. |
| QueryBuilder.WhereNullTwice | src/QueryBuilder/QueryBuilderHandler.php:769-773 | Two `whereNull` calls on different columns leave the last two criteria equal: both are keyed by the same Raw. |
| QueryBuilder.QueryBuilderHandler.Having | src/QueryBuilder/QueryBuilderHandler.php:577-582 | One `{prefixed key, operator, value, joiner}` criterion appended to `havings`; nothing else changes. |
| QueryBuilder.QueryBuilderHandler.OrHaving | src/QueryBuilder/QueryBuilderHandler.php:591-594 | One `OR` criterion appended to `havings`. |
| QueryBuilder.QueryBuilderHandler.OrderBy | src/QueryBuilder/QueryBuilderHandler.php:525-545 | The statements become `AppendedAll` of the specs: one `{field, type}` per element of the fields appended to `orderBys`, in order, and no other clause changes. A scalar counts as a one-element list. |
| QueryBuilder.QueryBuilderHandler.Limit | src/QueryBuilder/QueryBuilderHandler.php:552-556 | `limit` is assigned, replacing any earlier value; nothing else changes. |
| QueryBuilder.QueryBuilderHandler.Offset | src/QueryBuilder/QueryBuilderHandler.php:563-567 | `offset` is assigned, replacing any earlier value; nothing else changes. |
| QueryBuilder.QueryBuilderHandler.Select | src/QueryBuilder/QueryBuilderHandler.php:484-493 | The prefixed fields, or all arguments when the first is not an array, are added to `selects` by `addStatement`. |
| QueryBuilder.QueryBuilderHandler.SelectDistinct | src/QueryBuilder/QueryBuilderHandler.php:500-505 | A select, then `true` appended to `distinct` (not assigned). |
| QueryBuilder.QueryBuilderHandler.GroupBy | src/QueryBuilder/QueryBuilderHandler.php:512-517 | The prefixed field is added to `groupBys`. |
| QueryBuilder.QueryBuilderHandler.From | src/QueryBuilder/QueryBuilderHandler.php:472-477 | The tables, prefixed with mixing off, are appended to `tables`. |
| QueryBuilder.QueryBuilderHandler.OnDuplicateKeyUpdate | src/QueryBuilder/QueryBuilderHandler.php:418-422 | The data is added to `onduplicate`. |
| QueryBuilder.QueryBuilderHandler.Table | src/QueryBuilder/QueryBuilderHandler.php:458-465 | A fresh builder of the same kind on the same connection, with raw mode off. Its only clause is `tables`, holding the tables prefixed with mixing off. The caller's statements and raw flag are unchanged. The container is unchanged, because the adapter is already cached, and the child shares the caller's adapter. |
| QueryBuilder.QueryBuilderHandler.Join | src/QueryBuilder/QueryBuilderHandler.php:784-803 | One `{type, table prefixed with mixing off, joinBuilder}` entry is appended to `joins`, and no other clause changes. The join builder is the container's cached one. On a cold cache the join builder is a fresh object built with the connection and is the only new cache entry; on a warm cache the container is unchanged. |
| QueryBuilder.QueryBuilderHandler.LeftJoin | src/QueryBuilder/QueryBuilderHandler.php:813-816 | A join of type `left`, with the same cached join builder and container effect as `Join`. On a cold cache the join builder is a fresh object built with the connection and is the only new cache entry; on a warm cache the container is unchanged. |
| QueryBuilder.QueryBuilderHandler.RightJoin | src/QueryBuilder/QueryBuilderHandler.php:826-829 | A join of type `right`, with the same cached join builder and container effect as `Join`. On a cold cache the join builder is a fresh object built with the connection and is the only new cache entry; on a warm cache the container is unchanged. |
| QueryBuilder.QueryBuilderHandler.InnerJoin | src/QueryBuilder/QueryBuilderHandler.php:839-842 | A join of type `inner`, with the same cached join builder and container effect as `Join`. On a cold cache the join builder is a fresh object built with the connection and is the only new cache entry; on a warm cache the container is unchanged. |
| QueryBuilder.QueryBuilderHandler.First | src/QueryBuilder/QueryBuilderHandler.php:210-215 | `limit` is left at 1 in the statements, and the first row (or null) is returned. |
| QueryBuilder.QueryBuilderHandler.FindAll | src/QueryBuilder/QueryBuilderHandler.php:223-227 | An `=` criterion on the field, then all rows. |
| QueryBuilder.QueryBuilderHandler.Find | src/QueryBuilder/QueryBuilderHandler.php:235-239 | An `=` criterion on the field, `limit` 1, then the first row. |
| QueryBuilder.QueryBuilderHandler.Aggregate | src/QueryBuilder/QueryBuilderHandler.php:266-288 | The query sees `selects` replaced by the single cached Raw. Afterwards `selects` is restored when it was a non-empty array and removed otherwise, and the first row's `field` is returned as an integer (0 when not truthy). On a cold cache the Raw is a fresh object holding `<type>(*) as field` and no bindings, and it is the only new cache entry; on a warm cache the container is unchanged. |
| QueryBuilder.QueryBuilderHandler.Count | src/QueryBuilder/QueryBuilderHandler.php:246-259 | The query runs without `orderBys`/`limit`/`offset` and with the count select. Afterwards the statements are exactly what they were before. On a cold cache the Raw is a fresh object holding `count(*) as field` and no bindings, and it is the only new cache entry; on a warm cache the container is unchanged. |
| QueryBuilder.QueryBuilderHandler.DoInsert | src/QueryBuilder/QueryBuilderHandler.php:295-344 | Raw mode, or data whose first element is not an array, runs one statement and returns the single-row result with its one event. Otherwise it runs one statement per row and returns the list of collected ids, at most one per row, with each row's event in order (`onException` exactly for the failed rows). |
| QueryBuilder.QueryBuilderHandler.Insert | src/QueryBuilder/QueryBuilderHandler.php:351-354 | `doInsert` tagged `insert`: the single-statement id (only when one row was affected) and its event, or the batch's collected ids and per-row events. |
| QueryBuilder.QueryBuilderHandler.InsertIgnore | src/QueryBuilder/QueryBuilderHandler.php:361-364 | `doInsert` tagged `insertignore`: the single-statement id (only when one row was affected) and its event, or the batch's collected ids and per-row events. |
| QueryBuilder.QueryBuilderHandler.Replace | src/QueryBuilder/QueryBuilderHandler.php:371-374 | `doInsert` tagged `replace`: the single-statement id (only when one row was affected) and its event, or the batch's collected ids and per-row events. |

## Left out

- Running SQL. PDO `prepare`/`bindValue`/`execute`/`fetchAll`/`rowCount`/`lastInsertId` are replaced by the driver answers given as inputs (`Fetch`, `ExecOutcome`). Execution time (`microtime`) is not modelled.
- Plugin hooks (`PluginProxy`, `afterSelect`, `afterInsert`, `onException`) are returned as `Event`s for inserts only. Their SQL text and timing arguments are dropped, and the select hooks are not modelled.
- The dialect compilers (`adapterInstance->select/insert/...`) are not part of this model. Their input, the statements, is modelled; the SQL they produce is not. `wrapSanitizer` is an abstract function of the connection.
- JoinBuilder internals: the join callback (or the `on` call built from key, operator and value) runs against the shared join builder. Its effect on that builder is not modelled, so `Join` takes those arguments without using them.
- `getRawSql` debug interpolation, and the `echo` of raw-mode inserts.
- `update`, `updateOrInsert` and `delete` are not modelled: they are compile-and-execute passes with no statement logic of their own.
- Transactions, fetch modes (`setFetchMode`, `asObject`), `pdo()`, `setConnection`, `getConnection`, `newQueryBuilder`, `getStatements`.
- Rows fetched as objects. The builder's default fetch mode is `FETCH_OBJ` (QueryBuilderHandler.php:58). As written, `aggregate` (and so `count()`) throws on an object row before it reaches `->field` (see Findings). The builder methods model rows as associative arrays (`FETCH_ASSOC`); object rows appear only in the `aggregate` finding.
- `src/Connection.php` and the connection adapters: the default-connection registry and PDO construction are not part of this model. A builder is always given its connection.
- Closures or explicit registrations mentioned in `build`'s comment (src/Container.php:26-29): the container shown builds by class name only, and that is what is modelled.
- `TablePrefix.AddTablePrefix`: requires every name it prefixes to be a string, so PHP's implicit conversion of other values (numbers, null) in `.` concatenation and `strpos` is not modelled.
- `PhpValues.ToInt`: covers integers, booleans, null and decimal-integer text, with text out of range clamped to the 64-bit bounds; the `(int)` cast of exponent or float text is not modelled. `Int` values are unbounded integers; the model does not limit them to 64 bits.
- `PhpValues.Push`: the next index is one past the largest integer key, at least 0; PHP 8.3's rule for arrays whose keys are all negative is not modelled. Numeric string keys are not normalised to integers.
- `QueryBuilder.QueryBuilderHandler.OrderBy`: the foreach's appends are applied together once the loop has computed every spec; `AppendedAllSnoc` shows this is the same as appending them one at a time, but the intermediate states are not modelled.
- `QueryBuilder.QueryBuilderHandler.Select`: requires at least one argument, as PHP does for the declared `$fields` parameter.
- `QueryBuilder.QueryBuilderHandler.DoInsert`: requires an array outside raw mode. Objects are not modelled. Neither are scalars, which are a TypeError in PHP 8 and only a warning in PHP 7.
- Method chaining: the builder methods that return `$this` (`where`, `orderBy`, `limit`, `select`, `from` and the rest) are modelled as methods that update the builder and return nothing, except `AddWhere`, which returns the builder. A chain `$q->a()->b()` is the calls `q.A(); q.B();` in sequence.

## Findings

| source | as written | input that shows it | evidently intended | confidence | as-written member | corrected member |
|---|---|---|---|---|---|---|
| src/QueryBuilder/QueryBuilderHandler.php:281-285 | `$row[0]['field']` is read before `$row[0]->field`. Under the default `FETCH_OBJ` mode (line 58) the row is a `stdClass`, and indexing it throws. | `count()` on a query that returns one row `{field: "3"}` with the default fetch mode | read `['field']` from an array row and `->field` from an object row, and return the count | not executed | Execution.AggregateAsWritten, Execution.ObjectRowCountThrows | Execution.AggregateIntended, Execution.AggregateIntendedOfDecimal |
