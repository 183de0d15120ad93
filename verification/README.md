# sinner, modelled in Dafny

sinner is a small Rust toolkit for Cassandra/Scylla-style stores:

- a dynamic value type, `CqlType`, with conversions from Rust scalars and from
  the Stargate and Scylla drivers' values;
- the `#[nosql]` attribute and the `ToCqlData`/`FromCqlData` derives, which
  turn a record struct into a row map, generate its cached `INSERT` text and
  generate `filter_by_*` functions;
- a typed client (`select`, `select_all`, `update`, `create`) whose builders
  move from `Init` to `Ready`;
- a fragment-appending select builder (`CassandraQuery`, the condition
  macro, `SelectBuilder`/`SelectClause`);
- `sin_migrate`, which reads migration directories named
  `<version>_<name>`, splits their `up.cql` into statements and decides which
  versions still have to run.

This project models that logic as pure Dafny functions over immutable
datatypes, and proves what the code promises about it. Examples:

- round trips for every scalar conversion;
- the exact shape of each generated statement;
- the order and names of the generated filters;
- the `split_inclusive` statement split;
- the `BTreeMap` the migration directories are kept in;
- the "yet to run" selection.

Modules, one concept each:

| file | module | models |
|---|---|---|
| wrappers.dfy | Wrappers | `Option`/`Result` |
| text.dfy | Text | string joining, splitting, counting, decimal digits |
| lex_order.dfy | LexOrder | Rust's `String` ordering and a sort by it |
| map_build.dfy | MapBuild | a `HashMap` built by repeated `insert` |
| cql_types.dfy | CqlTypes | `CqlType` and the scalar `ToCqlData`/`FromCqlData` impls |
| store_types.dfy | StoreTypes | Stargate `Value`/rows and Scylla column kinds |
| records.dfy | Records | the `ToCqlData`/`FromCqlData` derives |
| cassandra_query.dfy | CassandraQuery | `CassandraQuery` and the condition macro |
| select_builder.dfy | SelectBuilding | `SelectBuilder`, `SelectClause`, `SelectQuery` |
| nosql_args.dfy | NosqlArgs | the attribute parser |
| insert_statement.dfy | InsertStatement | `generate_insert` |
| nosql_macro.dfy | NosqlMacro | `#[nosql]`: key resolution, filter generation |
| query_objects.dfy | QueryObjects | `FindOne`, `FindAll`, `Update`, `Create` |
| client.dfy | Client | the typed client builders |
| migration_text.dfy | MigrationText | `parse_cql_statements`, `extract_version` |
| migration_tree.dfy | MigrationTree | `get_migration_tree` |
| migration_run.dfy | MigrationRun | `run_cql_queries`, `yet_to_run`, `run` |

Representation choices:

- **Scalars.** Integers are `i64`, a newtype bounded to the 64-bit range. `f64` and `f32` payloads are opaque bit patterns: they are copied and never computed on.
- **`BTreeMap`.** Modelled as an association list whose keys are strictly ascending under Rust's byte-wise string order.
- **`HashMap`.** Modelled as a Dafny `map`.
- **Compile-time type parameters.** The phantom model type of `FilterBy<T>` and of the builders is carried as a value, `ModelInfo`. Every operation that Rust types restrict to one model type has a `requires` demanding equal tags.
- **Panics.** `expect`, `unwrap` and `unimplemented!` are modelled as an `Err` with the message the code gives.
- **Outside world.** Effects outside the code become parameters:
  - the database accepting a statement: `accepts`;
  - the metadata insert succeeding, per version: `metadataOk`;
  - the tracking-table read of `yet_to_run`, as a `Result` over the raw rows: `rows`;
  - whether the store is fresh: `isFresh`;
  - the file system: `files`, and the directory listing as a sequence of read results;
  - the `f32`→`f64` widening: `widen`;
  - the Scylla driver's typed decoders: a `Cell` of their results.

## Model

| member | source | states |
|---|---|---|
| CqlTypes.StringFromCql | crates/traits/src/data_types/types.rs:71-79 | decoding a `String` succeeds exactly on a `Str` value, and what it returns encodes back to that value |
| CqlTypes.StringRoundTrip | crates/traits/src/data_types/types.rs:30-34 | every string survives `to_cql` followed by `from_cql` |
| CqlTypes.I64FromCql | crates/traits/src/data_types/types.rs:81-89 | decoding an `i64` succeeds exactly on `NumInt`, and the result encodes back to the input |
| CqlTypes.I64RoundTrip | crates/traits/src/data_types/types.rs:36-40 | every `i64` survives `to_cql` followed by `from_cql` |
| CqlTypes.F64FromCql | crates/traits/src/data_types/types.rs:91-99 | decoding an `f64` succeeds exactly on `NumFloat`, and the result encodes back to the input |
| CqlTypes.StatusFromCql | crates/traits/src/data_types/types.rs:125-137 | `Status` decodes exactly `Str("Ok")` and `Str("NotOk")`; every other string or variant is an error; a decoded status encodes back to its input |
| CqlTypes.StatusRoundTrip | crates/traits/src/data_types/types.rs:111-124 | both statuses encode through their display text and decode back to themselves |
| CqlTypes.UuidFromCql | crates/traits/src/data_types/types.rs:147-152 | a `Uuid` decodes exactly from `NumInt`, and it encodes back to its input |
| CqlTypes.UuidRoundTrip | crates/traits/src/data_types/types.rs:139-145 | every `Uuid` survives encoding as its integer payload and decoding |
| CqlTypes.DateTimeToCql | crates/traits/src/data_types/types.rs:48-52 | a timestamp encodes as `Timestamp` holding its whole unix seconds |
| CqlTypes.DateTimeFromCql | crates/traits/src/data_types/types.rs:54-64 | decoding succeeds exactly on a `Timestamp` whose seconds lie in the time library's range; it yields a whole-second value that encodes back to its input |
| CqlTypes.DateTimeRoundTrip | crates/traits/src/data_types/types.rs:48-64 | a timestamp round-trips if and only if it has no sub-second part |
| StoreTypes.ValueToCql | crates/traits/src/data_types/types.rs:222-239 | a Stargate value converts exactly when its kind is one of the handled ones; otherwise the `unimplemented!` panic is the error |
| StoreTypes.ValueToCqlVariants | crates/traits/src/data_types/types.rs:224-235 | an absent value and `Null` both give `Null` and nothing else does; `Int` gives `NumInt`; `Float`/`Double` give `NumFloat`, the `Float` case widened; boolean, string and bytes keep their payloads; no value becomes a `Row` or `Timestamp` |
| StoreTypes.ZipToMapContents | crates/traits/src/data_types/types.rs:201-208 | a row's map holds exactly the names of the columns zipped with a value, up to the shorter of the two lists; each name maps to the value at its last zipped position; the row panics exactly when a zipped value is unhandled |
| StoreTypes.Next | crates/traits/src/data_types/types.rs:195-213 | `next` on `Empty` or on an exhausted row list yields nothing and changes nothing; otherwise it pops the last row, yields its map, and leaves the shorter row list |
| StoreTypes.Drain | crates/traits/src/data_types/types.rs:195-220 | iterating a result set to the end succeeds exactly when every row converts; the i-th map yielded is the map of the i-th row from the end; `Empty` yields nothing |
| StoreTypes.DrainFollowsNext | crates/traits/src/data_types/types.rs:198-212 | draining agrees with calling `next` repeatedly: the first item comes first, the rest come from the remaining iterator, and a panic in `next` is the drain's panic |
| StoreTypes.DrainStep | crates/traits/src/data_types/types.rs:200-208 | a successful drain begins with the last row's map, followed by the drain of the other rows |
| StoreTypes.EmptyYieldsNothing | crates/traits/src/data_types/types.rs:210 | the `Empty` iterator yields no maps |
| StoreTypes.TypeCheck | crates/traits/src/data_types/types.rs:279-292 | `type_check` accepts exactly Boolean, Decimal, Double, Float, Int, BigInt and Text, and fails with the unknown-type error on all others |
| StoreTypes.DeserializeAgreesWithTypeCheck | crates/traits/src/data_types/types.rs:262-292 | `deserialize` fails on every kind `type_check` rejects; on an accepted kind it succeeds exactly when the matching typed decoder does, giving `Bool`, `NumFloat`, `NumInt` or `Str` as the kind dictates |
| MapBuild.Insertions | crates/traits/src/data_types/types.rs:204-207 | inserting name/value pairs in order gives a map whose keys are exactly the names inserted, and each value is the one paired with the last occurrence of its name |
| MapBuild.DistinctAllSurvive | crates/traits/src/data_types/types.rs:204-207 | with distinct names every pair survives the insertions |
| Records.DecodeField | crates/traits/src/data_types/types.rs:54-99 | a field decodes only into a value of its declared kind, and a decoded value encodes back to the input |
| Records.FieldRoundTrip | crates/traits/src/data_types/types.rs:30-152 | a field value round-trips exactly when its kind's conversion pair does, i.e. unless it is a timestamp with a sub-second part |
| Records.EncodeRecord | crates/sin/src/lib.rs:112-130 | a derived `to_cql` gives a `Row` whose keys are exactly the declared field names, each mapped to that field's own encoding |
| Records.TryFromMap | crates/sin/src/lib.rs:192-206 | the derived `try_from` succeeds exactly when every declared field is present in the map and decodes as its kind; then it yields one value per field, each the decoding of its own key |
| Records.DecodeRecord | crates/sin/src/lib.rs:208-217 | the derived `from_cql` rejects every non-`Row` value with "only expecting row variant"; on a `Row` it succeeds exactly when `try_from` does, and otherwise reports "type mismatch" |
| Records.DecodeIgnoresExtraKeys | crates/sin/src/lib.rs:197-200 | decoding looks only at the declared keys, so maps agreeing on them decode alike |
| Records.RecordRoundTrip | crates/sin/src/lib.rs:112-217 | a record survives the derived `to_cql` then `from_cql` if and only if each of its fields survives its own conversion pair |
| Records.DeriveToCql | crates/sin/src/lib.rs:112-137 | the `ToCqlData` derive accepts exactly structs with named fields; tuple and unit structs give "unnamed structs not supported" and enums/unions "only structs supported" |
| Records.DeriveFromCql | crates/sin/src/lib.rs:140-165 | the `FromCqlData` derive accepts exactly structs with named fields, and otherwise reports "expected struct with named fields" |
| CassandraQuery.New | crates/traits/src/query_builder/query.rs:6-9 | a new query has no text |
| CassandraQuery.PushCqlThenRead | crates/traits/src/query_builder/query.rs:11-24 | after `push_cql(s)` the old text is a prefix, `s` follows it, `query()` reads exactly that, and equality with a string compares that text |
| CassandraQuery.WalkTwice | crates/traits/src/lib.rs:18-21 | walking one condition twice appends its fragment twice |
| CassandraQuery.WalkAllAppends | crates/traits/src/lib.rs:18-37 | walking conditions in order appends their fragments in order, with nothing in between |
| CassandraQuery.FragmentWords | crates/traits/src/query_builder/conds.rs:3-24 | every condition fragment ends in a space and splits at spaces into its words: `AND`, `OR`, `WHERE`; a comparison into column, operator (`=`, `>`, `>=`, `<`, `<=`) and `?`; a limit into `LIMIT` and the decimal of its number |
| CassandraQuery.ComparisonWords | crates/traits/src/lib.rs:34-37 | the sourced arm's fragment is the stored column, the operator and `?`, each followed by one space |
| CassandraQuery.LimitWords | crates/traits/src/query_builder/conds.rs:20-24 | the limit fragment is `LIMIT`, the digits, and a trailing space |
| SelectBuilding.NewSelect | crates/traits/src/query_builder/select.rs:17-25 | a select builder keeps the model's table and keyspace and the bind map it was given |
| SelectBuilding.Wh | crates/traits/src/query_builder/select.rs:27-32 | `wh()` yields a clause whose text is the builder's prefix followed by `WHERE `, with the binds unchanged |
| SelectBuilding.NewClause | crates/traits/src/query_builder/select.rs:62-71 | a clause appends `WHERE ` to the query it is given and keeps the binds |
| SelectBuilding.BuildAll | crates/traits/src/query_builder/select.rs:34-43 | `build()` on the builder yields the prefix alone, with no `WHERE`, and the original binds |
| SelectBuilding.ApplyAppends | crates/traits/src/query_builder/select.rs:73-106 | each of `eq`, `gt`, `gte`, `lt`, `lte`, `and`, `or` appends exactly its condition's fragment and leaves the binds alone |
| SelectBuilding.ChainAppends | crates/traits/src/query_builder/select.rs:73-106 | a chain of calls appends the fragments of its conditions in call order, with no reordering or validation, and keeps the binds |
| SelectBuilding.LimitClause | crates/traits/src/query_builder/select.rs:108-116 | `limit(n)` ends the clause with `LIMIT n ` and keeps the binds |
| SelectBuilding.BuildClause | crates/traits/src/query_builder/select.rs:118-124 | `build()` on a clause ends it with its text and binds as they are |
| SelectBuilding.WhereLimitText | crates/traits/src/query_builder/select.rs:27-116 | a whole `wh()…limit(n)` statement is the prefix, `WHERE `, the fragments in order, and the limit fragment |
| SelectBuilding.TextIndependentOfBinds | crates/traits/src/query_builder/select.rs:134-142 | the statement text does not depend on the bind map, and `binds()` returns the map given to `new` untouched |
| SelectBuilding.PaymentsHead | crates/traits/src/query_builder/select.rs:46-53 | the prefix for table `Payments` is `SELECT * FROM ks.Payments ` |
| SelectBuilding.SelectWithClause | crates/traits/src/query_builder/mod.rs:14-23 | `.wh().eq("payment_id").limit(2)` reads `… WHERE payment_id = ? LIMIT 2 ` |
| SelectBuilding.SelectAndOrClause | crates/traits/src/query_builder/mod.rs:25-39 | a mixed `and`/`or` chain gives the flat text `WHERE a = ? AND b = ? OR c = ? LIMIT 2 ` with no grouping |
| SelectBuilding.SelectWithoutClause | crates/traits/src/query_builder/mod.rs:41-47 | `build()` with no clause is the prefix alone |
| NosqlArgs.Assign | crates/sin/src/lib.rs:325-355 | a known key takes an expression (`table`, `keyspace`, stored as its text) or an array (`partition_key`, `clustering_key`, stored as its element texts); the wrong kind of value is a parse error; only the named slot changes |
| NosqlArgs.EntryThenRest | crates/sin/src/lib.rs:321-360 | after a known `key = value,` the parser continues with the rest of the input from the updated arguments |
| NosqlArgs.LastEntry | crates/sin/src/lib.rs:357-359 | a final entry needs no trailing comma |
| NosqlArgs.RepeatedKeyLastWins | crates/sin/src/lib.rs:325-355 | a key given twice keeps the later value |
| NosqlArgs.UnknownKeyNeedsComma | crates/sin/src/lib.rs:354-358 | an unknown key's value is not consumed, so parsing fails on the expected comma |
| NosqlArgs.PaymentArgs | crates/try_sin/src/main.rs:55 | `Payment`'s attribute parses to partition key `id`, clustering key `status`, keyspace `test`, table `payments` |
| InsertStatement.InsertColumnsSplitBack | crates/sin/src/lib.rs:449-455 | the column list is the field names in declaration order: split at commas it gives them back |
| InsertStatement.InsertBindsMatchColumns | crates/sin/src/lib.rs:449-464 | the insert statement holds exactly one `?` per field |
| InsertStatement.PaymentInsert | crates/sin/src/lib.rs:460-463 | `Payment`'s statement is `INSERT INTO test.payments (id,status,amount) VALUES(?,?,?)` |
| NosqlMacro.FindRef | crates/sin/src/lib.rs:66-69 | `find` picks the first key reference with the field's name, if any |
| NosqlMacro.ResolvePreservesNames | crates/sin/src/lib.rs:56-79 | visiting the fields keeps the key list's length, order and names |
| NosqlMacro.ResolveSpec | crates/sin/src/lib.rs:56-79 | with distinct field names, a key reference resolves to the field of its name exactly when it is the first reference with that name and such a field exists; a repeated key stays unresolved |
| NosqlMacro.ResolveKeys | crates/sin/src/lib.rs:44-90 | in an attribute's key list, the j-th key resolves exactly when no earlier key repeats it and a field has its name, and then to that field |
| NosqlMacro.FilterName | crates/sin/src/lib.rs:475-488 | every generated function name begins with `filter_by` |
| NosqlMacro.EmitFilter | crates/sin/src/lib.rs:491-522 | a filter function is emitted exactly when every key added so far resolved; its name is `filter_by` followed by `_k` per key and its parameters are the keys' fields in key order; otherwise `unwrap` panics |
| NosqlMacro.GenerateFiltersOk | crates/sin/src/lib.rs:553-579 | filter generation succeeds exactly when every partition and clustering key resolved |
| NosqlMacro.GenerateFiltersSpec | crates/sin/src/lib.rs:553-579 | a successful generation gives 1 + (number of clustering keys) functions; the j-th covers the partition keys and the first j clustering keys, in attribute order |
| NosqlMacro.PartitionKeyOnly | crates/sin/src/lib.rs:566-569 | a single resolved partition key and no clustering key give the one function `filter_by_k` |
| NosqlMacro.AndEqEachText | crates/sin/src/lib.rs:539-549 | the multi-key body as written appends `AND k = ? ` for every key, the first included |
| NosqlMacro.FilterOpsText | crates/sin/src/lib.rs:530-549 | the corrected chain appends the key conditions joined by `AND ` |
| NosqlMacro.InvokeFilterText | crates/sin/src/lib.rs:525-551 | a generated filter, corrected, reads `SELECT * FROM ks.table WHERE k1 = ? AND k2 = ? …` |
| NosqlMacro.InvokeFilterBinds | crates/sin/src/lib.rs:502-509 | a generated filter's binds map exactly its key parameters' names, each to the encoding of its argument |
| NosqlMacro.SingleKeyAgrees | crates/sin/src/lib.rs:530-536 | with one key, the chain as written and the corrected one give the same clause |
| NosqlMacro.AsWrittenMultiKey | crates/sin/src/lib.rs:539-549 | with two or more keys, the chain as written reads `WHERE AND k1 = ? AND k2 = ? …` |
| NosqlMacro.Nosql | crates/sin/src/lib.rs:371-447 | the macro checks in the code's order, each failure with the code's error: the attribute's parse error, then the item's parse error (syn's message, carried as given), then the table, then the keyspace, then the partition key (`primary keys not found`), then the struct shape (`expected struct with named fields`), then the keys (an unresolved key panics in `unwrap`); on success it emits the parsed table and keyspace, the struct's fields, the insert statement for them and the filter functions for the resolved keys |
| NosqlMacro.NosqlUnknownKeyPanics | crates/sin/src/lib.rs:44-90 | on a struct with distinct field names, a partition key that names no field makes the macro panic |
| NosqlMacro.NosqlSucceeds | crates/sin/src/lib.rs:371-447 | parsed arguments with a table, a keyspace and a partition key, on a named-field struct whose keys all resolve, make the macro emit exactly those strings, fields and filter functions |
| NosqlMacro.PaymentKeys | crates/sin/src/lib.rs:66-76 | `Payment`'s keys `id` and `status` resolve to its `id` and `status` fields |
| NosqlMacro.PaymentFilters | crates/sin/src/lib.rs:553-579 | `Payment` gets `filter_by_id(id)` and `filter_by_id_status(id, status)` |
| NosqlMacro.PaymentExpansion | crates/try_sin/src/main.rs:54-60 | the whole expansion for `Payment`: its table, keyspace, insert text and two filter functions |
| NosqlMacro.SchemaArgsParse | crates/sin_migrate/src/setup/schema.rs:11 | the tracking record's attribute parses to partition key `version`, table `migration_metadata`, keyspace `metadata` |
| NosqlMacro.SchemaFilters | crates/sin_migrate/src/setup/schema.rs:11-16 | the tracking record gets the one function `filter_by_version(version)` |
| NosqlMacro.SchemaExpansion | crates/sin_migrate/src/setup/schema.rs:10-16 | the whole expansion for the tracking record |
| QueryObjects.FindOneQuery | crates/traits/src/query/query.rs:37-45 | `FindOne::create_query` stores the binds and the text verbatim |
| QueryObjects.FindAllQuery | crates/traits/src/query/query.rs:61-69 | `FindAll::create_query` stores the binds and the text verbatim |
| QueryObjects.UpdateQuery | crates/traits/src/query/query.rs:96-105 | `Update::create_query` keeps the where-binds and set-binds apart, in argument order |
| QueryObjects.CreateQuery | crates/traits/src/query/query.rs:114-118 | `Create::create_query` holds the model unchanged |
| QueryObjects.OutputShapes | crates/traits/src/query/query.rs:47-131 | every output has exactly one shape: a record (find-one, select query), a list (find-all), a count (update) or a flag (create, delete) |
| Client.NewFilterBy | crates/traits/src/query/client.rs:14-22 | a filter stores its map and text verbatim, tagged with one model type |
| Client.SelectFilterTextRoundTrip | crates/traits/src/query/client.rs:90-95 | the filter text can be read back off a select statement, so the statement keeps it whole |
| Client.SelectStatementInjective | crates/traits/src/query/client.rs:90-95 | different filter texts give different select statements |
| Client.StatementsEndWithFilter | crates/traits/src/query/client.rs:90-95 | both the select and the update text end in ` WHERE ` followed by the whole filter text |
| Client.Select | crates/traits/src/query/client.rs:55-77 | `select()` starts in `Init` with no filter |
| Client.SelectFilterBy | crates/traits/src/query/client.rs:79-85 | `filter_by` is offered only in `Init`, only for a filter of the same model type, and moves to `Ready` holding that filter |
| Client.SelectBuild | crates/traits/src/query/client.rs:87-97 | `build` is offered only in `Ready`; a consistent builder always builds; the `FindOne` carries the model, the filter's binds and a select statement whose filter text is the filter's |
| Client.SelectAll | crates/traits/src/query/client.rs:59-61 | `select_all()` starts in `Init` with no filter |
| Client.SelectAllFilterBy | crates/traits/src/query/client.rs:115-121 | as for select: `Init` to `Ready`, same model type only |
| Client.SelectAllBuild | crates/traits/src/query/client.rs:123-133 | as for select, yielding `FindAll` |
| Client.SelectAndSelectAllAgree | crates/traits/src/query/client.rs:87-133 | given the same filter, `select` and `select_all` build the same text and binds |
| Client.Updateable | crates/traits/src/query/client.rs:137-145 | `update()` takes the first row the update struct converts to as its SET clause, and panics when there is none |
| Client.NewUpdate | crates/traits/src/query/client.rs:155-163 | a new update builder holds its SET clause, in `Init`, with no filter |
| Client.UpdateFilterBy | crates/traits/src/query/client.rs:165-172 | update's `filter_by` moves to `Ready` and leaves the SET clause unchanged |
| Client.UpdateBuild | crates/traits/src/query/client.rs:174-186 | building fails exactly when no filter was given; otherwise the update statement is `UPDATE ks.table SET {set} WHERE {filter}` with the model's keyspace and table, the builder's SET text and the filter's text, the where-binds come from the filter and the set-binds from the SET clause |
| Client.Insert | crates/traits/src/query/client.rs:33-40 | `create()` keeps the record and prepares the model type's insert statement |
| Client.InsertBuild | crates/traits/src/query/client.rs:48-52 | `build` wraps the record unchanged into `Create` |
| Client.SelectChain | crates/traits/src/query/client.rs:56-97 | `select().filter_by(f).build()` never reaches its `expect` |
| Client.UpdateChain | crates/traits/src/query/client.rs:137-186 | `update().filter_by(f).build()` fails only when the update struct gives no row |
| Client.InsertChain | crates/traits/src/query/client.rs:33-52 | `create().build()` holds the record itself |
| MigrationText.RemoveAll | crates/sin_migrate/src/utils.rs:12-13 | `replace(pat, "")` never lengthens the text |
| MigrationText.RemoveAllAbsent | crates/sin_migrate/src/utils.rs:12-13 | text without the pattern comes back unchanged |
| MigrationText.RemoveAllOfPattern | crates/sin_migrate/src/utils.rs:12 | the pattern alone is removed entirely |
| MigrationText.RemoveCharSpec | crates/sin_migrate/src/utils.rs:13 | removing `\n` leaves no newline, shortens the text by the number of newlines, and keeps every other character's count |
| MigrationText.SplitInclusiveShape | crates/sin_migrate/src/utils.rs:14 | `split_inclusive(";")` gives non-empty pieces that glue back into the text; each holds at most one `;`, and only as its last character; every piece but the last ends in `;` |
| MigrationText.SplitInclusiveUnique | crates/sin_migrate/src/utils.rs:14 | pieces of that shape are exactly what splitting their concatenation gives, so the shape determines the split |
| MigrationText.ParseCqlStatements | crates/sin_migrate/src/utils.rs:10-17 | the statements glue back into the file text with the placeholder and every newline removed, and are split after each `;` |
| MigrationText.StatementsHaveNoNewline | crates/sin_migrate/src/utils.rs:10-17 | no statement is empty and none holds a newline |
| MigrationText.GeneratedFileHasNoStatements | crates/sin_migrate/src/migrations/generate.rs:23-24 | a freshly generated file, which holds only the placeholder, yields no statements |
| MigrationText.FileName | crates/sin_migrate/src/utils.rs:56 | a path's file name is its last component when that component is a normal name |
| MigrationText.ExtractVersion | crates/sin_migrate/src/utils.rs:55-63 | the version is the file name's text before its first `_`; no file name or no `_` is a `MigrationPathError` |
| MigrationText.VersionOfGeneratedDirectory | crates/sin_migrate/src/migrations/generate.rs:14-15 | a directory named `{version}_{name}` gives back its version when the version has no `_` |
| MigrationTree.Lookup | crates/sin_migrate/src/utils.rs:28-38 | `get` finds exactly the keys of the map |
| MigrationTree.Insert | crates/sin_migrate/src/utils.rs:34 | `insert` keeps keys strictly ascending, gives the key its new path, replacing any earlier one, and changes no other key |
| MigrationTree.GetMigrationTree | crates/sin_migrate/src/utils.rs:28-38 | the built map is a well-formed `BTreeMap` |
| MigrationTree.TreeFailsWithFirstError | crates/sin_migrate/src/utils.rs:31-35 | the call fails exactly when some listed entry fails to read or to give a version, and with the first such error |
| MigrationTree.TreeHoldsLastPath | crates/sin_migrate/src/utils.rs:31-35 | on success every listed version is a key holding the path of the last directory listed with it, and there are no other keys |
| MigrationTree.LaterDuplicateWins | crates/sin_migrate/src/utils.rs:34 | of two directories with one version, the later listed wins |
| LexOrder.LessTransitive | crates/sin_migrate/src/migrations/run/run_impl.rs:84 | the byte-wise string order is transitive |
| LexOrder.LessTotal | crates/sin_migrate/src/migrations/run/run_impl.rs:84 | the order is total: distinct strings are comparable |
| LexOrder.Sort | crates/sin_migrate/src/migrations/run/run_impl.rs:84 | the sort yields an ascending permutation of its input |
| LexOrder.SortedUnique | crates/sin_migrate/src/migrations/run/run_impl.rs:84 | two ascending permutations of the same strings are equal, so the unstable sort's result is determined |
| MigrationRun.Decoded | crates/sin_migrate/src/migrations/run/run_impl.rs:62-71 | the tracking rows kept are exactly those that decoded |
| MigrationRun.NotRun | crates/sin_migrate/src/migrations/run/run_impl.rs:73 | the unrun versions are exactly those with a row marked not run |
| MigrationRun.Fresh | crates/sin_migrate/src/migrations/run/run_impl.rs:75-77 | the fresh versions are exactly the on-disk versions with no tracking row |
| MigrationRun.YetToRun | crates/sin_migrate/src/migrations/run/run_impl.rs:51-86 | `yet_to_run` is sorted ascending and holds exactly the fresh versions and the unrun rows' versions, with repeats |
| MigrationRun.YetToRunMembers | crates/sin_migrate/src/migrations/run/run_impl.rs:73-84 | a version is yet to run exactly when it is on disk without any decoded row, or some decoded row marks it not run, even when it is not on disk |
| MigrationRun.NotRunCounts | crates/sin_migrate/src/migrations/run/run_impl.rs:73 | an unrun version is listed once per unrun row, with no deduplication |
| MigrationRun.RepeatedUnrunRowsRepeat | crates/sin_migrate/src/migrations/run/run_impl.rs:73-84 | two unrun rows for one version list it at least twice |
| MigrationRun.RunPlan | crates/sin_migrate/src/migrations/run/run_impl.rs:38-41 | the directories visited are in ascending key order, each with `up.cql` pushed onto its path; all of them run on a fresh setup, otherwise exactly those whose version is yet to run |
| MigrationRun.FirstRejected | crates/sin_migrate/src/utils.rs:48-50 | finds the first statement the store rejects, and is absent exactly when all are accepted |
| MigrationRun.ExecuteAll | crates/sin_migrate/src/utils.rs:48-50 | statements run in file order; the run succeeds exactly when every statement is accepted, and otherwise stops just after the first rejected one with a query error |
| MigrationRun.RunCqlQueries | crates/sin_migrate/src/utils.rs:40-53 | a file that cannot be read runs nothing; a statement the store rejects ends the call with a query error, after exactly the statements up to it and without recording; when every statement goes through, the version is recorded once, after them, and the call fails with a query error exactly when that insert does |
| MigrationRun.GeneratedFileOnlyRecords | crates/sin_migrate/src/utils.rs:40-53 | a freshly generated file runs no statement, yet its version is recorded |
| MigrationRun.RunAll | crates/sin_migrate/src/migrations/run/run_impl.rs:38-47 | the loop over the planned directories succeeds exactly when every directory's `run_cql_queries` does |
| MigrationRun.RunAllStopsAt | crates/sin_migrate/src/migrations/run/run_impl.rs:38-47 | when the directories before the k-th succeed and the k-th fails, the loop ends with the k-th's error, after the earlier directories' actions and the k-th's own, and no later directory runs |
| MigrationRun.RunAllRecordsPlan | crates/sin_migrate/src/migrations/run/run_impl.rs:38-47 | when every file reads and every statement goes through, the run succeeds and records exactly the planned versions, in ascending order |
| MigrationRun.FreshPlanIgnoresList | crates/sin_migrate/src/migrations/run/run_impl.rs:38-39 | on a fresh setup the directories visited do not depend on what `yet_to_run` returned |
| MigrationRun.Run | crates/sin_migrate/src/migrations/run/run_impl.rs:29-60 | on a fresh setup the setup statements run first and a setup failure ends the run; the tracking rows are read next, and a failed read ends the run before any directory runs; then a fresh setup runs every directory in key order, and otherwise the directories yet to run |

## Left out

- I/O, `async`, the console output of `run`, and the clock are left out. File contents, the directory listing and the database's answers are parameters.
- The transport clients (Astra/Stargate and Scylla sessions) are not part of this model. They are foreign network calls.
- `is_fresh_migration` (crates/sin_migrate/src/utils.rs:19-26) is a database probe, and appears as the parameter `isFresh`. It also calls a `limit` that `SelectAllBuilder` lacks, so the model does not add one.
- `setup_migration` is modelled only as running the statements of a setup text, which is a parameter. The text itself is not part of this model.
- The time field written by `insert_metadata` is dropped, because it comes from the clock. The tracking row keeps only the version and `is_run`.
- `run` always passes `is_run = true`; `RunAll` fixes it to `true` the same way.
- The `unwrap` of `rows_stream` in `yet_to_run` (crates/sin_migrate/src/migrations/run/run_impl.rs:59-60) panics on a row-type mismatch. The model folds that panic into the `Err` of `rows`, since either way `run` ends before any directory runs.
- Undo, redo, `generate`'s file writing and the CLI are left out. They are file-system work.
- `Into<Value> for CqlType` (crates/traits/src/data_types/types.rs:242-250) and `SerializeValue for CqlType` (crates/traits/src/data_types/types.rs:295-306) are left out. The first handles only `Str`; the second is `todo!()`.
- Floating point is left out. `f64` values are opaque, and the `f32`→`f64` widening is a parameter.
- The `time` crate's range is taken as its default years -9999..9999, written as unix seconds.
- `OsStr::to_string_lossy` is assumed lossless: file names are strings.
- `QueryError` payloads and `io::Error` details are dropped. An error is only its kind.
- The Scylla typed decoders' byte-level work is an input (`Cell`).
- Attribute tokens are modelled at the level of identifiers, arrays and single-token expressions. `to_token_stream().to_string()` of a longer expression is not modelled, and keywords are not rejected as identifiers.
- syn's parsing of the annotated item into a `DeriveInput` (crates/sin/src/lib.rs:377) is a foreign call. `Nosql` takes its outcome as a parameter, either the parsed item or syn's error message.
- The `Gen` derive and `gen_trait_bounds` (crates/sin/src/lib.rs:219-269) only call a foreign binder, and are left out.
- The generated filter code calls a two-argument `SelectBuilder::new` that select.rs does not define, and binds `#typ.to_cql()` where the argument was evidently meant. The model uses the one-argument `new` and the argument's value.
- The tests in crates/traits/src/query_builder/mod.rs call a two-argument `new` and expect no keyspace prefix. The examples here keep their fragment sequence and use the current prefix `SELECT * FROM ks.Payments `.
- The record model includes a `bool` field kind, used by the tracking record, and assumes it converts `Bool`↔`bool`. No `ToCqlData` impl for `bool` is visible.
- NosqlArgs.Assign: a value's text is the token's own text. `to_token_stream().to_string()` spacing for compound expressions is not modelled.
- MigrationText.RemoveAll: its contract states only that the text does not grow. What it removes is stated by RemoveAllAbsent, RemoveAllOfPattern and RemoveCharSpec for the two patterns the code uses.
- MigrationTree.GetMigrationTree: its contract states only well-formedness. Its contents and failures are stated by TreeHoldsLastPath and TreeFailsWithFirstError.

## Findings

| source | as written | input that shows it | evidently intended | confidence | as-written member | corrected member |
|---|---|---|---|---|---|---|
| crates/sin/src/lib.rs:539-549 | for two or more keys, every key, the first included, is emitted as `.and().eq(k)` after `wh()` | `Payment`'s `filter_by_id_status(1, "x")`: `… WHERE AND id = ? AND status = ? ` | `WHERE id = ? AND status = ? `, the first key without `AND`, as in the single-key branch | not executed | NosqlMacro.AsWrittenMultiKey | NosqlMacro.InvokeFilterText |
