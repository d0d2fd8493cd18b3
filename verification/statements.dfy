/** The SQL text of the CRUD extension methods (SqlMapperExtensions): the
    SELECT of GetAllAsync with its optional filter, the INSERT column and
    parameter lists, UPDATE, DELETE and DELETE-ALL. Execution is left out:
    each builder stops at the text and what is bound with it. */
module Statements {
  import opened Results
  import opened Strings
  import opened Parameters
  import opened ExpressionBuilder
  import ExpressionProperties

  /** One mapped property of an entity type, with its column (after any alias
      mapping) and the attribute flags the metadata caches report. */
  datatype Property = Property(name: string, column: string, isKey: bool, isExplicitKey: bool, isComputed: bool)

  /** An entity type as the metadata caches describe it. GetTableName and the
      table alias map are separate lookups in the source, so both are kept:
      SELECT, INSERT and UPDATE use `tableName`, DELETE uses `aliasTableName`. */
  datatype Entity = Entity(tableName: string, aliasTableName: string, properties: seq<Property>)

  /** The dialect adapter's text formatting, whose bodies are not part of this
      model: AppendColumnName and AppendColumnNameEqualsValue. */
  datatype Adapter = Adapter(columnName: string -> string, columnEqualsValue: (string, string) -> string)

  /** The properties satisfying `keep`, in their declared order. */
  function Filter(ps: seq<Property>, keep: Property -> bool): (r: seq<Property>)
    ensures forall p :: p in r <==> p in ps && keep(p)
    ensures |r| <= |ps|
    decreases |ps|
  {
    if |ps| == 0 then []
    else
      var init := Filter(ps[..|ps| - 1], keep);
      assert forall p :: p in ps <==> p in ps[..|ps| - 1] || p == ps[|ps| - 1];
      if keep(ps[|ps| - 1]) then init + [ps[|ps| - 1]] else init
  }

  /** Filtering distributes over concatenation. */
  lemma {:induction false} FilterAppend(xs: seq<Property>, ys: seq<Property>, keep: Property -> bool)
    ensures Filter(xs + ys, keep) == Filter(xs, keep) + Filter(ys, keep)
    decreases |ys|
  {
    if |ys| > 0 {
      var init := ys[..|ys| - 1];
      assert (xs + ys)[..|xs + ys| - 1] == xs + init;
      FilterAppend(xs, init, keep);
    } else {
      assert xs + ys == xs;
    }
  }

  /** KeyPropertiesCache. */
  function Keys(e: Entity): seq<Property> {
    Filter(e.properties, (p: Property) => p.isKey)
  }

  /** ExplicitKeyPropertiesCache. */
  function ExplicitKeys(e: Entity): seq<Property> {
    Filter(e.properties, (p: Property) => p.isExplicitKey)
  }

  /** The keys, then the explicit keys (`keyProperties.AddRange(explicitKeyProperties)`). */
  function AllKeys(e: Entity): (r: seq<Property>)
    ensures forall p :: p in r <==> p in e.properties && (p.isKey || p.isExplicitKey)
  {
    Keys(e) + ExplicitKeys(e)
  }

  /** `allProperties.Except(computed)`: what SELECT lists. */
  function Selected(e: Entity): (r: seq<Property>)
    ensures forall p :: p in r <==> p in e.properties && !p.isComputed
  {
    Filter(e.properties, (p: Property) => !p.isComputed)
  }

  /** `allProperties.Except(keyProperties.Union(computed))` with the keys
      only: what INSERT writes. Explicit keys are written. */
  function Inserted(e: Entity): (r: seq<Property>)
    ensures forall p :: p in r <==> p in e.properties && p !in Keys(e) && !p.isComputed
  {
    Filter(e.properties, (p: Property) => !p.isKey && !p.isComputed)
  }

  /** `allProperties.Except(keyProperties.Union(computed))` after the explicit
      keys were added: what UPDATE sets. */
  function NonIdProperties(e: Entity): (r: seq<Property>)
    ensures forall p :: p in r <==> p in e.properties && p !in AllKeys(e) && !p.isComputed
  {
    Filter(e.properties, (p: Property) => !p.isKey && !p.isExplicitKey && !p.isComputed)
  }

  /** AppendColumnName of each property's column. */
  function ColumnNames(a: Adapter, ps: seq<Property>): (r: seq<string>)
    ensures |r| == |ps|
    ensures forall i :: 0 <= i < |ps| ==> r[i] == a.columnName(ps[i].column)
  {
    seq(|ps|, i requires 0 <= i < |ps| => a.columnName(ps[i].column))
  }

  /** `@<property name>` of each property. */
  function ParameterNames(ps: seq<Property>): (r: seq<string>)
    ensures |r| == |ps|
    ensures forall i :: 0 <= i < |ps| ==> r[i] == "@" + ps[i].name
  {
    seq(|ps|, i requires 0 <= i < |ps| => "@" + ps[i].name)
  }

  /** AppendColumnNameEqualsValue(column, property name) of each property. */
  function Assignments(a: Adapter, ps: seq<Property>): (r: seq<string>)
    ensures |r| == |ps|
    ensures forall i :: 0 <= i < |ps| ==> r[i] == a.columnEqualsValue(ps[i].column, ps[i].name)
  {
    seq(|ps|, i requires 0 <= i < |ps| => a.columnEqualsValue(ps[i].column, ps[i].name))
  }

  /** No property carries a [Key] or an [ExplicitKey]. */
  predicate Keyless(e: Entity) {
    forall p :: p in e.properties ==> !p.isKey && !p.isExplicitKey
  }

  // ---------------------------------------------------------------- SELECT

  /** The SELECT column list: every selected column followed by "," and the
      last character then removed, which throws on an empty list. It is the
      selected columns joined by ",". */
  function SelectColumnList(e: Entity, a: Adapter): (r: Result<string>)
    ensures r.Ok? <==> exists p :: p in e.properties && !p.isComputed
    ensures r.Ok? ==> r.value == Join(",", ColumnNames(a, Selected(e)))
    ensures r.Err? ==> r.error == EmptyColumnList
  {
    var columns := ColumnNames(a, Selected(e));
    var s := Terminated(",", columns);
    TerminatedEmpty(",", columns);
    if |s| == 0 then
      assert |Selected(e)| == 0;
      assert forall p :: p in e.properties ==> p.isComputed;
      Err(EmptyColumnList)
    else
      TerminatedIsJoinedPlusSeparator(",", columns);
      assert Selected(e)[0] in e.properties;
      assert s[..|s| - 1] == Join(",", columns);
      Ok(s[..|s| - 1])
  }

  /** BuildWhere: translate a filter with a fresh ExpressionBuilder. */
  function BuildWhere(filter: Expr, column: string -> string): (r: Result<BuildExpressionResult>)
    ensures r.Ok? <==> ExpressionProperties.Translatable(filter)
    ensures r.Ok? ==> |r.value.params| == ExpressionProperties.Bindings(filter)
    ensures r.Ok? ==> DistinctNames(r.value.params)
    ensures r.Err? ==> r.error.NotSupported? || r.error == NullReference
    ensures r.Ok? ==> forall j :: 0 <= j < |r.value.params| ==> HasIndex(r.value.params[j].name, j)
  {
    ExpressionProperties.TranslatesIffTranslatable(filter, column, Fresh);
    var r := Build(filter, column, Fresh);
    if r.Ok? then
      ExpressionProperties.BindsExactlyBindings(filter, column, Fresh);
      r
    else r
  }

  /** BuildSqlGetAll: `select <columns> from <table>`, plus ` WHERE <condition>`
      and the condition's parameters when there is a filter; without a filter
      the parameters are null. `column` resolves a property name through the
      alias map. */
  function BuildSqlGetAll(e: Entity, a: Adapter, column: string -> string, filter: Option<Expr>)
    : (r: Result<(string, Option<seq<Param>>)>)
    ensures r.Ok? <==> SelectColumnList(e, a).Ok? && (filter.Some? ==> ExpressionProperties.Translatable(filter.value))
    ensures r.Err? ==> r.error == EmptyColumnList || r.error.NotSupported? || r.error == NullReference
    ensures r.Ok? ==>
      var select := "select " + SelectColumnList(e, a).value + " from " + e.tableName;
      match filter
      case None => r.value == (select, None)
      case Some(f) =>
        var w := BuildWhere(f, column).value;
        r.value == (select + " WHERE " + w.sql, Some(w.params)) && DistinctNames(w.params)
  {
    var columns :- SelectColumnList(e, a);
    var sql := "select " + columns + " from " + e.tableName;
    match filter
    case None => Ok((sql, None))
    case Some(f) =>
      var where :- BuildWhere(f, column);
      Ok((sql + " WHERE " + where.sql, Some(where.params)))
  }

  // ---------------------------------------------------------------- INSERT

  /** What InsertAsync hands to the dialect adapter. */
  datatype InsertParts = InsertParts(tableName: string, columnList: string, parameterList: string, keyProperties: seq<Property>)

  /** The INSERT column list and parameter list: both enumerate the inserted
      properties in the same order, joined by ", ". */
  function InsertAsyncParts(e: Entity, a: Adapter): (r: InsertParts)
    ensures r.columnList == Join(", ", ColumnNames(a, Inserted(e)))
    ensures r.parameterList == Join(", ", ParameterNames(Inserted(e)))
    ensures r.keyProperties == Keys(e)
  {
    var props := Inserted(e);
    InsertParts(e.tableName, Separated(", ", ColumnNames(a, props)), Separated(", ", ParameterNames(props)), Keys(e))
  }

  /** The statement a list of entities is inserted with: the inserted
      columns and their parameters in the same order; with nothing to insert
      both lists are empty. */
  function InsertListSql(e: Entity, a: Adapter): (r: string)
    ensures r == "INSERT INTO " + e.tableName + " (" + Join(", ", ColumnNames(a, Inserted(e)))
                 + ") values (" + Join(", ", ParameterNames(Inserted(e))) + ")"
    ensures |Inserted(e)| == 0 ==> r == "INSERT INTO " + e.tableName + " () values ()"
  {
    var parts := InsertAsyncParts(e, a);
    "INSERT INTO " + parts.tableName + " (" + parts.columnList + ") values (" + parts.parameterList + ")"
  }

  /** The names of `ps`, in order. */
  function PropertyNames(ps: seq<Property>): (r: seq<string>)
    ensures |r| == |ps|
    ensures forall i :: 0 <= i < |ps| ==> r[i] == ps[i].name
  {
    seq(|ps|, i requires 0 <= i < |ps| => ps[i].name)
  }

  /** PostgresAdapter's statement: the INSERT, unchanged, followed by a
      RETURNING clause naming every column when there is no key and the key
      properties, in order, joined by ", " otherwise. */
  function PostgresInsertSql(parts: InsertParts): (r: string)
    ensures var insert := "INSERT INTO " + parts.tableName + " (" + parts.columnList + ") VALUES (" + parts.parameterList + ")";
      && (|parts.keyProperties| == 0 ==> r == insert + " RETURNING *")
      && (|parts.keyProperties| > 0 ==> r == insert + " RETURNING " + Join(", ", PropertyNames(parts.keyProperties)))
  {
    var insert := "INSERT INTO " + parts.tableName + " (" + parts.columnList + ") VALUES (" + parts.parameterList + ")";
    if |parts.keyProperties| == 0 then insert + " RETURNING *"
    else
      PrefixedIsJoin(", ", PropertyNames(parts.keyProperties), true);
      insert + " RETURNING " + Prefixed(", ", PropertyNames(parts.keyProperties), true)
  }

  /** The list INSERT and the PostgreSQL single-entity INSERT of the same
      type share the table, the column list and the parameter list; they
      differ only in the case of VALUES and in the RETURNING clause. */
  lemma ListInsertMatchesPostgres(e: Entity, a: Adapter)
    ensures var head := "INSERT INTO " + e.tableName + " (" + Join(", ", ColumnNames(a, Inserted(e))) + ") ";
      var tail := "(" + Join(", ", ParameterNames(Inserted(e))) + ")";
      var returning := if |Keys(e)| == 0 then " RETURNING *" else " RETURNING " + Join(", ", PropertyNames(Keys(e)));
      && InsertListSql(e, a) == head + "values " + tail
      && PostgresInsertSql(InsertAsyncParts(e, a)) == head + "VALUES " + tail + returning
  {
    var t, c, p := e.tableName, Join(", ", ColumnNames(a, Inserted(e))), Join(", ", ParameterNames(Inserted(e)));
    InsertRegroups(t, c, p, ") values (", "values ");
    InsertRegroups(t, c, p, ") VALUES (", "VALUES ");
  }

  lemma InsertRegroups(t: string, c: string, p: string, middle: string, keyword: string)
    requires middle == ") " + keyword + "("
    ensures "INSERT INTO " + t + " (" + c + middle + p + ")"
         == ("INSERT INTO " + t + " (" + c + ") ") + keyword + ("(" + p + ")")
  {
  }

  // ---------------------------------------------------------------- UPDATE

  /** Change tracking of the entity handed to UpdateAsync. */
  datatype Tracking = Untracked | Proxy(isDirty: bool)

  /** The outcome of UpdateAsync before execution: nothing to do, or the
      statement with the properties that identify the row and those it sets. */
  datatype UpdatePlan =
    | NotModified
    | Update(sql: string, keyProperties: seq<Property>, nonIdProperties: seq<Property>)

  /** UpdateAsync's SQL: a clean tracked proxy returns false before anything
      else; otherwise a type without keys is refused; otherwise
      `update <table> set <non-key assignments> where <key assignments>`. */
  function UpdateSql(e: Entity, a: Adapter, tracking: Tracking): (r: Result<UpdatePlan>)
    ensures r.Ok? && r.value.NotModified? <==> tracking == Proxy(false)
    ensures r.Err? <==> tracking != Proxy(false) && Keyless(e)
    ensures r.Err? ==> r.error == NoKey
    ensures r.Ok? && r.value.Update? ==>
      && r.value.keyProperties == AllKeys(e)
      && r.value.nonIdProperties == NonIdProperties(e)
      && r.value.sql == "update " + e.tableName + " set " + Join(", ", Assignments(a, NonIdProperties(e)))
                        + " where " + Join(" and ", Assignments(a, AllKeys(e)))
  {
    if tracking == Proxy(false) then Ok(NotModified)
    else if |Keys(e)| == 0 && |ExplicitKeys(e)| == 0 then
      assert Keyless(e) by {
        forall p | p in e.properties ensures !p.isKey && !p.isExplicitKey {
          assert p !in Keys(e) && p !in ExplicitKeys(e);
        }
      }
      Err(NoKey)
    else
      assert !Keyless(e) by {
        if |Keys(e)| > 0 {
          assert Keys(e)[0] in e.properties && Keys(e)[0].isKey;
        } else {
          assert ExplicitKeys(e)[0] in e.properties && ExplicitKeys(e)[0].isExplicitKey;
        }
      }
      var keys := Keys(e) + ExplicitKeys(e);
      var nonId := NonIdProperties(e);
      var sql := "update " + e.tableName + " set " + Separated(", ", Assignments(a, nonId))
                 + " where " + Separated(" and ", Assignments(a, keys));
      Ok(Update(sql, keys, nonId))
  }

  // ---------------------------------------------------------------- DELETE

  /** DeleteAsync's text for the key list `keys`: the WHERE loop appends
      each key's assignment and " AND " after all but the last. */
  function DeleteStatement(e: Entity, a: Adapter, keys: seq<Property>): (r: string)
    ensures r == "DELETE FROM " + e.aliasTableName + " WHERE " + Join(" AND ", Assignments(a, keys))
  {
    "DELETE FROM " + e.aliasTableName + " WHERE " + Separated(" AND ", Assignments(a, keys))
  }

  /** The statement DeleteAsync executes and the properties whose values it binds. */
  datatype DeletePlan = Delete(sql: string, keyProperties: seq<Property>)

  /** DeleteAsync's SQL: a null entity is refused, then a type without keys;
      otherwise `DELETE FROM <table> WHERE <key assignments joined by AND>`. */
  function DeleteSql(e: Entity, a: Adapter, entityIsNull: bool): (r: Result<DeletePlan>)
    ensures r.Ok? <==> !entityIsNull && !Keyless(e)
    ensures r.Err? ==> r.error == (if entityIsNull then NullEntity else NoKey)
    ensures r.Ok? ==>
      && r.value.keyProperties == AllKeys(e)
      && r.value.sql == "DELETE FROM " + e.aliasTableName + " WHERE " + Join(" AND ", Assignments(a, AllKeys(e)))
  {
    if entityIsNull then Err(NullEntity)
    else if |Keys(e)| == 0 && |ExplicitKeys(e)| == 0 then
      assert Keyless(e) by {
        forall p | p in e.properties ensures !p.isKey && !p.isExplicitKey {
          assert p !in Keys(e) && p !in ExplicitKeys(e);
        }
      }
      Err(NoKey)
    else
      assert !Keyless(e) by {
        if |Keys(e)| > 0 {
          assert Keys(e)[0] in e.properties && Keys(e)[0].isKey;
        } else {
          assert ExplicitKeys(e)[0] in e.properties && ExplicitKeys(e)[0].isExplicitKey;
        }
      }
      var keys := Keys(e) + ExplicitKeys(e);
      Ok(Delete(DeleteStatement(e, a, keys), keys))
  }

  /** DeleteAllAsync's statement: DeleteAsync's statement for the same type
      with its WHERE clause cut off. It needs no key: for a keyless type it
      is still the statement DeleteAsync would start with. */
  function DeleteAllSql(e: Entity): (r: string)
    ensures forall a, keys :: DeleteStatement(e, a, keys) == r + " WHERE " + Join(" AND ", Assignments(a, keys))
    ensures forall a :: DeleteSql(e, a, false).Ok? ==>
      && |r| + 7 <= |DeleteSql(e, a, false).value.sql|
      && DeleteSql(e, a, false).value.sql[..|r|] == r
      && DeleteSql(e, a, false).value.sql[|r|..|r| + 7] == " WHERE "
  {
    var r := "DELETE FROM " + e.aliasTableName;
    forall a | DeleteSql(e, a, false).Ok?
      ensures DeleteSql(e, a, false).value.sql[..|r|] == r
      ensures DeleteSql(e, a, false).value.sql[|r|..|r| + 7] == " WHERE "
    {
      var where := Join(" AND ", Assignments(a, AllKeys(e)));
      assert DeleteSql(e, a, false).value.sql == r + (" WHERE " + where);
    }
    r
  }

  /** DeleteAllAsync reads nothing of the type but its table: the
      properties, keys or none, do not change the statement. */
  lemma DeleteAllDependsOnTableOnly(e: Entity, ps: seq<Property>)
    ensures DeleteAllSql(Entity(e.tableName, e.aliasTableName, ps)) == DeleteAllSql(e)
  {
  }

  /** UPDATE splits the selected columns: each is either set or matched in
      the WHERE, never both, and no computed column appears in either. */
  lemma UpdateSplitsColumns(e: Entity)
    ensures forall p :: p in Selected(e) ==> (p in NonIdProperties(e) <==> p !in AllKeys(e))
    ensures forall p :: p in NonIdProperties(e) ==> p in Selected(e)
  {
  }
}
