# Dandy SQL text, modelled in Dafny

Dandy is a fork of Dapper.Contrib. Its CRUD extension methods on `IDbConnection` write SQL text from an entity type's metadata. This project models the pure part of `Dandy/SqlMapperExtensions.Async.cs`: the text each statement is built from, the parameters bound with it, and the errors raised before anything is executed.

- **ExpressionBuilder** turns a filter lambda `x => ...` into a SQL condition plus named parameters `@<column>_<k>`. The module `ExpressionBuilder` mirrors the class method by method. The lambda body is an explicit tree (`Expr`). A member of a captured object arrives already evaluated (`Captured(value)`). The builder's mutable counter and parameter bag are threaded as a `Builder` value.
- **GetAllAsync / BuildSqlGetAll**: `select <columns> from <table>`, an optional ` WHERE <condition>`, and with a page size the `top`/`skip` parameters. A DB2 connection also gets the ` LIMIT @top OFFSET @skip` suffix (modules `Statements` and `Pagination`).
- **InsertAsync**: the column list and the parameter list. They go into the list-insert statement and into the PostgreSQL adapter's `INSERT ... RETURNING`.
- **UpdateAsync, DeleteAsync, DeleteAllAsync**: the `update ... set ... where ...`, `DELETE FROM ... WHERE ...` and `DELETE FROM ...` texts, with their refusals.
- **Key lists**: module `KeyCache` models the key list DeleteAsync borrows from the key-property cache (see Findings).
- **Test filters**: module `Scenarios` works through concrete filters and queries from the repository's test suite, with the exact text and parameters they produce.

An entity type is an `Entity`: a table name, the alias-mapped table name and its `Property` list. Each property carries its mapped column and its `[Key]`, `[ExplicitKey]` and `[Computed]` flags. A dialect adapter is an `Adapter`. Its two formatting functions, AppendColumnName and AppendColumnNameEqualsValue, are parameters: the model holds for every adapter. Errors the source throws are `Err` values of `Results.Error`.

Where the intended behaviour and the code differ, the model follows the code:
- AND/OR operands are written side by side without parentheses, so the grouping of a mixed AND/OR filter is lost (`ConnectivesAreNotGrouped`).
- With the value on the left (`5 < x.Age`), the operator is not mirrored: the text is `Age < @Age_0` (`ValueFirstIsNotMirrored`).
- A `null` constant is bound as the string `"NULL"`, not as a database null (`NullIsBoundAsText`).
- An operator or node kind without a SQL counterpart gives empty text rather than an error.
- GetAllAsync checks the page size with `Contract.Requires`. That call is compiled only in builds that define CONTRACTS_FULL, so the refusal of a negative page size depends on a `contractsFull` parameter.

The small helpers of the builder transcribe their lines and are stated through the lemmas that use them: ParseValue (lines 858-867) and ParseMember (843-855) by `ColumnOperatorValue` and `StringMethodBindsArgument`; IsValue (799-801) by `ColumnOperatorValue`, `JoinsOperands` and `BindsExactlyBindings`; BinaryOperator and UnaryOperator (803-822) by `ColumnOperatorValue`, `NotWraps` and `OtherUnaryParenthesises`.

## Model

| member | source | states |
|---|---|---|
| ExpressionBuilder.AddParameter | Dandy/SqlMapperExtensions.Async.cs:792-797 | appends exactly one parameter, named `@<left>_<counter>` and bound to the operand's value; the counter and the bag advance together |
| ExpressionBuilder.ProcessOperands | Dandy/SqlMapperExtensions.Async.cs:779-790 | binds a parameter (advancing the counter by one) exactly when either operand is a value; otherwise binds nothing |
| ExpressionBuilder.ParseMethodCall | Dandy/SqlMapperExtensions.Async.cs:824-846 | succeeds exactly for Contains/StartsWith/EndsWith on a member with a receiver; then binds the raw argument as the one new parameter, named after the target's column text |
| ExpressionBuilder.PerformBuild | Dandy/SqlMapperExtensions.Async.cs:752-777 | a translation only appends to the bag, one counter step per parameter; it fails only with "not supported" or a null dereference |
| ExpressionBuilder.NamesFollowCounter | Dandy/SqlMapperExtensions.Async.cs:738-741 | every parameter a translation appends is named with the counter value current when it was bound |
| ExpressionBuilder.Build | Dandy/SqlMapperExtensions.Async.cs:749-750 | keeps the parameters already held; from a fresh builder the k-th parameter's name ends in `_k`, so no two names clash |
| ExpressionProperties.TranslatesIffTranslatable | Dandy/SqlMapperExtensions.Async.cs:752-846 | the translation succeeds exactly on filters whose method calls are the three supported ones on a member and whose members all have receivers |
| ExpressionProperties.BindsExactlyBindings | Dandy/SqlMapperExtensions.Async.cs:779-797 | a translation binds one parameter per string-method call and per binary node with a value operand, and no others |
| ExpressionProperties.BagIsWriteOnly | Dandy/SqlMapperExtensions.Async.cs:739 | parameters already in the bag never influence a translation; its result is the empty-bag result appended to them |
| ExpressionProperties.ValuesNeverReachText | Dandy/SqlMapperExtensions.Async.cs:799-801 | on the filters the builder is meant for, values reach only the parameter bag: filters of the same shape give the same SQL text |
| ExpressionProperties.ColumnOperatorValue | Dandy/SqlMapperExtensions.Async.cs:784-797 | a column compared with a value gives `<column> <op> @<column>_<k>` and binds the value, with null bound as the text "NULL" |
| ExpressionProperties.ValueFirstIsNotMirrored | Dandy/SqlMapperExtensions.Async.cs:784-785 | `v op x.C` translates exactly as `x.C op v`: the operator is not mirrored |
| ExpressionProperties.StringMethodBindsArgument | Dandy/SqlMapperExtensions.Async.cs:826-839 | Contains, StartsWith and EndsWith give the case-insensitive LIKE with `%` on the open side(s) and bind the argument unchanged |
| ExpressionProperties.UnsupportedMethodIsRefused | Dandy/SqlMapperExtensions.Async.cs:840 | any other method on a member is refused with "<name> is not supported" |
| ExpressionProperties.NotWraps | Dandy/SqlMapperExtensions.Async.cs:763-771 | `!e` gives `NOT(<e>)` and binds what `e` binds, failing exactly when `e` does, a negated binary node included |
| ExpressionProperties.OtherUnaryParenthesises | Dandy/SqlMapperExtensions.Async.cs:771 | any other unary node only parenthesises its operand, the operator being empty |
| ExpressionProperties.UnrecognisedIsEmpty | Dandy/SqlMapperExtensions.Async.cs:775 | an unrecognised node gives empty text and binds nothing |
| ExpressionProperties.JoinsOperands | Dandy/SqlMapperExtensions.Async.cs:789 | two non-value operands are written around the operator, with no binding of their own |
| ExpressionProperties.ConnectivesAreNotGrouped | Dandy/SqlMapperExtensions.Async.cs:789 | `a AND (b OR c)` and `(a AND b) OR c` give the same text and parameters |
| Strings.SeparatedFromIsJoin | Dandy/SqlMapperExtensions.Async.cs:255-261 | the loop that appends each element and the separator after all but the last builds the join of the elements it has yet to visit |
| Strings.Separated | Dandy/SqlMapperExtensions.Async.cs:441-447 | the whole append-then-separator loop, as the INSERT, UPDATE and DELETE lists run it, builds the elements joined by the separator |
| Strings.PrefixedIsJoin | Dandy/SqlMapperExtensions.Async.cs:636-643 | the loop with a `first` flag that writes the separator before every element but the first builds the join |
| Strings.TerminatedIsJoinedPlusSeparator | Dandy/SqlMapperExtensions.Async.cs:148-154 | a list with a separator after every element, minus its last character, is the list joined by that separator |
| Strings.ContainsText | Dandy/SqlMapperExtensions.Async.cs:173 | a name contains a text exactly when the text occurs in it at some position |
| Strings.IndexOfNameIsUnique | Dandy/SqlMapperExtensions.Async.cs:794 | a parameter name's index suffix is unique, so different counter values give different names |
| Parameters.ParamName | Dandy/SqlMapperExtensions.Async.cs:794 | `@<column>_<k>` starts with '@' and ends in the suffix of index k |
| Statements.Filter | Dandy/SqlMapperExtensions.Async.cs:148 | keeps exactly the elements that pass the test, and never more than the list held |
| Statements.AllKeys | Dandy/SqlMapperExtensions.Async.cs:428-434 | the key list after `AddRange` holds exactly the [Key] and [ExplicitKey] properties |
| Statements.Selected | Dandy/SqlMapperExtensions.Async.cs:145-148 | SELECT lists exactly the properties that are not [Computed] |
| Statements.Inserted | Dandy/SqlMapperExtensions.Async.cs:250-253 | INSERT writes exactly the properties that are neither [Key] nor [Computed]; explicit keys are written |
| Statements.NonIdProperties | Dandy/SqlMapperExtensions.Async.cs:350-353 | UPDATE sets exactly the properties that are neither a key of either kind nor [Computed] |
| Statements.UpdateSplitsColumns | Dandy/SqlMapperExtensions.Async.cs:340-371 | every selected column is either set or matched by the UPDATE, never both |
| Statements.SelectColumnList | Dandy/SqlMapperExtensions.Async.cs:143-154 | the list exists exactly when some property is not [Computed]; it is the selected columns joined by ","; otherwise the trailing-comma removal fails |
| Statements.BuildWhere | Dandy/SqlMapperExtensions.Async.cs:168-171 | succeeds exactly on translatable filters; binds as many parameters as the filter has bindings, with pairwise distinct names |
| Statements.BuildSqlGetAll | Dandy/SqlMapperExtensions.Async.cs:133-166 | `select <columns> from <table>`, plus ` WHERE <condition>` and its parameters for a filter, else no parameters; fails exactly when the list or the filter does |
| Statements.InsertAsyncParts | Dandy/SqlMapperExtensions.Async.cs:248-270 | the two loops build the inserted properties' columns and their `@` parameters, in the same order, each joined by ", "; the keys handed on are the [Key] properties |
| Statements.InsertListSql | Dandy/SqlMapperExtensions.Async.cs:290 | the list INSERT names the inserted columns and their parameters in the same order; with nothing to insert both lists are empty |
| Statements.ListInsertMatchesPostgres | Dandy/SqlMapperExtensions.Async.cs:290 | the list INSERT and the PostgreSQL INSERT of a type share table, columns and parameters, differing only in the case of VALUES and the RETURNING clause |
| Statements.PostgresInsertSql | Dandy/SqlMapperExtensions.Async.cs:622-644 | the INSERT unchanged, then ` RETURNING *` with no key, else ` RETURNING ` and what the `first`-flag loop writes: the key names joined by ", " |
| Statements.UpdateSql | Dandy/SqlMapperExtensions.Async.cs:313-371 | a clean tracked proxy is not updated; otherwise a type with no key is refused; otherwise `update` sets the non-key columns `where` all keys match, joined by " and " |
| Statements.DeleteSql | Dandy/SqlMapperExtensions.Async.cs:403-447 | a null entity is refused first, then a type with no key; otherwise `DELETE FROM <alias table> WHERE` all keys match, joined by " AND " |
| Statements.DeleteStatement | Dandy/SqlMapperExtensions.Async.cs:436-447 | the WHERE loop over the keys builds their assignments joined by " AND " |
| Statements.DeleteAllSql | Dandy/SqlMapperExtensions.Async.cs:480-483 | DeleteAllAsync's statement is what DeleteAsync's text for any key list, the empty one of a keyless type included, starts with before ` WHERE `; when DeleteAsync succeeds its statement extends this one |
| Statements.DeleteAllDependsOnTableOnly | Dandy/SqlMapperExtensions.Async.cs:482-483 | DeleteAllAsync reads nothing but the table: any property list, keyless included, gives the same statement |
| Pagination.Wrap32 | Dandy/SqlMapperExtensions.Async.cs:181 | unchecked int arithmetic: the result is congruent modulo 2^32 and equal when in range |
| Pagination.Skip | Dandy/SqlMapperExtensions.Async.cs:181 | no page means offset 0; without overflow the offset is `(page - 1) * pageSize` |
| Pagination.NextPageFollows | Dandy/SqlMapperExtensions.Async.cs:181 | without overflow, page p+1 starts exactly pageSize rows after page p |
| Pagination.LaterPageSkipsMore | Dandy/SqlMapperExtensions.Async.cs:181 | without overflow, a later page starts at least a page further on, so pages do not overlap |
| Pagination.PaginationParameters | Dandy/SqlMapperExtensions.Async.cs:177-183 | exactly `top` = page size and `skip` = the page's offset, in that order |
| Pagination.AppendSqlWithPagination | Dandy/SqlMapperExtensions.Async.cs:172-175 | the LIMIT/OFFSET clause is appended exactly when the connection type's name contains "DB2"; otherwise the text is unchanged |
| Pagination.CleanName | Dandy/SqlMapperExtensions.Async.cs:124 | a parameter name loses one leading '@', ':' or '?' when it is added to the bag, and is otherwise unchanged; it keeps its ending |
| Pagination.PaginationDoesNotClash | Dandy/SqlMapperExtensions.Async.cs:123-124 | the filter's parameters and `top`/`skip` have distinct names, also once '@' is stripped |
| Pagination.GetAllQuery | Dandy/SqlMapperExtensions.Async.cs:117-126 | a negative page size is refused only with contract checking on; with a page size the pagination parameters follow the filter's (or form a new bag) and DB2 text gets the suffix; otherwise the query is BuildSqlGetAll's |
| KeyCache.DeleteSharingCache | Dandy/SqlMapperExtensions.Async.cs:428-434 | as written: the explicit keys are appended to the borrowed key list, and the extended list is what the cache holds afterwards |
| KeyCache.SecondDeleteRepeatsExplicitKeys | Dandy/SqlMapperExtensions.Async.cs:428-447 | as written: a second delete's WHERE repeats the explicit-key conditions |
| KeyCache.InsertAfterDeleteDropsExplicitKey | Dandy/SqlMapperExtensions.Async.cs:250-253 | as written: after a delete, an explicit key is no longer inserted |
| KeyCache.DeleteCopyingCache | Dandy/SqlMapperExtensions.Async.cs:340 | corrected: with the key list copied as UpdateAsync does, the cache is unchanged and the statement is DeleteSql's |
| KeyCache.CopyingDeleteIsRepeatable | Dandy/SqlMapperExtensions.Async.cs:340-351 | corrected: repeated deletes build the same statement |
| KeyCache.InsertedWithCache | Dandy/SqlMapperExtensions.Async.cs:251-253 | INSERT writes the properties that are neither in the borrowed key list nor [Computed] |
| KeyCache.FreshCacheInsertsAsModelled | Dandy/SqlMapperExtensions.Async.cs:251-253 | with an untouched cache, the inserted properties are exactly Statements.Inserted |
| Scenarios.ValueOnTheLeft | Dandy/SqlMapperExtensions.Async.cs:784-785 | `5 < x.Age` gives `Age < @Age_0` with @Age_0 = 5 |
| Scenarios.NullIsBoundAsText | Dandy/SqlMapperExtensions.Async.cs:860-863 | `x.Name == null` gives `Name = @Name_0` with @Name_0 = "NULL" |
| Scenarios.EqualsIsRefused | Dandy/SqlMapperExtensions.Async.cs:840 | `x.Name.Equals("Foo")` is refused with "Equals is not supported" |
| Scenarios.NotAgeAboveFive | Dandy/SqlMapperExtensions.Async.cs:765-770 | `!(x.Age > 5)` gives `NOT(Age > @Age_0)` with @Age_0 = 5 |
| Scenarios.NameEqualsConstant | Dandy.Tests/TestSuite.Async.cs:746 | `x.Name == "Foo"` gives `Name = @Name_0` with @Name_0 = "Foo" |
| Scenarios.NameEndsWith | Dandy.Tests/TestSuite.Async.cs:658 | `x.Name.EndsWith("1")` gives the EndsWith LIKE on column Name, with `%` before the argument, and binds @Name_0 = "1" |
| Scenarios.AlwaysTrue | Dandy.Tests/TestSuite.Async.cs:682 | `x => true` gives the condition `True` and no parameters |
| Scenarios.AliasedDisjunction | Dandy.Tests/TestSuite.Async.cs:769-770 | the aliased OR filter gives `Field = @Field_0 OR UCASE(Field) LIKE ...@Field_1...` with parameters "John" and "ar" |
| Scenarios.AgeAboveFive | Dandy.Tests/TestSuite.Async.cs:511 | `u.Age > 5` gives `Age > @Age_0` with @Age_0 = 5 |
| Scenarios.PageOffsets | Dandy.Tests/TestSuite.Async.cs:608 | page 1 of size 2 starts at row 0; page 3 of size 10 at row 20; no page at row 0 |
| Scenarios.Db2IsPaginated | Dandy/SqlMapperExtensions.Async.cs:172-175 | a DB2 connection's query gets the LIMIT/OFFSET suffix |
| Scenarios.SqlServerIsNotPaginated | Dandy/SqlMapperExtensions.Async.cs:172-175 | an SqlConnection's query is unchanged |
| Scenarios.UserSelect | Dandy/SqlMapperExtensions.Async.cs:133-155 | GetAllAsync of the test User gives `select Id,Name,Age from Users` |
| Scenarios.UserDelete | Dandy/SqlMapperExtensions.Async.cs:403-447 | deleting a User gives `DELETE FROM Users WHERE Id = @Id`; a null User is refused |
| Scenarios.PagedFilterOnDb2 | Dandy/SqlMapperExtensions.Async.cs:117-126 | a filtered third page of ten on DB2 gives the WHERE, the LIMIT/OFFSET clause and the parameters @Age_0, top, skip |

## Left out

- Execution: Dapper's QueryAsync/ExecuteAsync, async tasks, materialising rows, GetAllAsyncImpl's interface proxies and setting generated ids on the entity after an insert. The model stops at the text and the bound values.
- GetAsync, IsASystemType and the other dialect adapters' InsertAsync: they execute statements or depend on the database. Only the PostgreSQL adapter's RETURNING text is modelled.
- Reflection and metadata caches: TypePropertiesCache, the key/explicit-key/computed caches, GetTableName and the alias maps are given as an `Entity`. The GetQueries cache of SELECT texts is not modelled; it returns the text already built for the type.
- InsertAsync's detection of arrays and `IEnumerable<T>`, and the choice between the adapter's single-entity insert and the list statement: both statements are modelled, but the type test is not.
- RemapObject and the per-row parameter objects of UPDATE and DELETE over a list of entities.
- Expression compilation: a captured member arrives as its evaluated `Value`; only null, booleans, integers and strings are represented. A member reached through another member of the row (`x.A.B`) is not represented.
- ExpressionBuilder.ParseMethodCall: a call with no argument, where the source throws on an empty argument list, is not representable. A call carries exactly one argument, and only the first is ever read.
- ExpressionBuilder.PerformBuild: an exception in the middle of a translation leaves the source's builder with a counter already advanced. The model's failed translation returns no builder at all. Since the builder is discarded, nothing observable is lost.
- Parameters: DynamicParameters is an ordered list of adds. Its name lookup is represented only by `Pagination.CleanName` and `DistinctNames`.
- Pagination.Skip: the offset computation is modelled with 32-bit wrap-around; pageSize and page are taken as 32-bit ints.
- Pagination.GetAllQuery: whether Contract.Requires is compiled is a build setting, so it is the parameter `contractsFull`, not a fixed behaviour.
- Connection type names are plain strings; `connection.GetType().Name` is the caller's.

## Findings

| source | as written | input that shows it | evidently intended | confidence | as-written member | corrected member |
|---|---|---|---|---|---|---|
| Dandy/SqlMapperExtensions.Async.cs:428-434 | DeleteAsync appends the explicit keys with `AddRange` to the list KeyPropertiesCache returns, without the `ToList()` copy UpdateAsync (line 340) and InsertAsync (line 251) make | an entity type with a [Key] Id and an [ExplicitKey] Code whose key list is not cached yet, so the first DeleteAsync is the call that fills the cache and receives the stored list, then deleted again: the second WHERE reads `Id = @Id AND Code = @Code AND Code = @Code`, and a later insert leaves Code out | the cached key list is left unchanged, so every delete builds the same statement | low: depends on KeyPropertiesCache returning its stored list on the call that fills it (later calls would hand out copies), and that code is not part of this model; not executed | KeyCache.DeleteSharingCache, KeyCache.SecondDeleteRepeatsExplicitKeys | KeyCache.DeleteCopyingCache, KeyCache.CopyingDeleteIsRepeatable |
