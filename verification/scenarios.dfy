/** Concrete filters and queries the repository's tests use, with the exact
    SQL and parameters the model gives for them. Expected texts are written
    in the pieces the builders assemble them from. */
module Scenarios {
  import opened Results
  import opened Strings
  import opened Parameters
  import opened ExpressionBuilder
  import opened ExpressionProperties
  import opened Statements
  import opened Pagination

  /** The default column map: a property's column is its name. */
  function SameName(name: string): string { name }

  /** AliasedField's map: property AField is stored in column Field. */
  function AliasedColumn(name: string): string {
    if name == "AField" then "Field" else name
  }

  lemma SmallNumbers()
    ensures NatToString(0) == "0"
    ensures NatToString(1) == "1"
  {
  }

  /** A fresh translation of a column compared with a value. */
  lemma BuildComparison(op: BinOp, name: string, v: Expr, column: string -> string)
    requires ValueOperand(v)
    ensures var par := ParamName(column(name), 0);
      Build(Binary(op, Member(Row, name), v), column, Fresh)
      == Ok(BuildExpressionResult(column(name) + " " + BinaryOperator(op) + " " + par, [Param(par, BoundValue(v))]))
  {
    ColumnOperatorValue(op, name, v, column, Fresh);
    var par := ParamName(column(name), 0);
    var p := PerformBuild(Binary(op, Member(Row, name), v), column, Fresh);
    assert p.value.1.params == [Param(par, BoundValue(v))];
    assert Text(p.value.0) == column(name) + " " + BinaryOperator(op) + " " + par;
  }

  /** `x => 5 < x.Age` reads as `Age < @Age_0`: the operator is not mirrored. */
  lemma ValueOnTheLeft()
    ensures Build(Binary(LessThan, Constant(Int(5)), Member(Row, "Age")), SameName, Fresh)
         == Ok(BuildExpressionResult("Age < @Age_0", [Param("@Age_0", Int(5))]))
  {
    ValueFirstIsNotMirrored(LessThan, "Age", Constant(Int(5)), SameName, Fresh);
    BuildComparison(LessThan, "Age", Constant(Int(5)), SameName);
    SmallNumbers();
    assert ParamName("Age", 0) == "@Age_0";
    assert "Age" + " " + BinaryOperator(LessThan) + " " + "@Age_0" == "Age < @Age_0";
  }

  /** `x => x.Name == "Foo"`. */
  lemma NameEqualsConstant()
    ensures Build(Binary(Equal, Member(Row, "Name"), Constant(Str("Foo"))), SameName, Fresh)
         == Ok(BuildExpressionResult("Name = @Name_0", [Param("@Name_0", Str("Foo"))]))
  {
    BuildComparison(Equal, "Name", Constant(Str("Foo")), SameName);
    SmallNumbers();
    assert ParamName("Name", 0) == "@Name_0";
    assert "Name" + " " + BinaryOperator(Equal) + " " + "@Name_0" == "Name = @Name_0";
  }

  /** `x => x.Name == null` binds the string "NULL", not a null. */
  lemma NullIsBoundAsText()
    ensures Build(Binary(Equal, Member(Row, "Name"), Constant(Null)), SameName, Fresh)
         == Ok(BuildExpressionResult("Name = @Name_0", [Param("@Name_0", Str("NULL"))]))
  {
    BuildComparison(Equal, "Name", Constant(Null), SameName);
    SmallNumbers();
    assert ParamName("Name", 0) == "@Name_0";
    assert "Name" + " " + BinaryOperator(Equal) + " " + "@Name_0" == "Name = @Name_0";
  }

  /** A string method on a row column, translated by a fresh builder. */
  lemma BuildMethodCall(m: string, name: string, argument: Value, column: string -> string)
    requires SupportedMethod(m)
    ensures var par := ParamName(column(name), 0);
      Build(Call(m, Member(Row, name), argument), column, Fresh)
      == Ok(BuildExpressionResult(LikeText(m, column(name), par), [Param(par, argument)]))
  {
    StringMethodBindsArgument(m, name, argument, column, Fresh);
    var par := ParamName(column(name), 0);
    var p := PerformBuild(Call(m, Member(Row, name), argument), column, Fresh);
    assert p.value.1.params == [Param(par, argument)];
    assert Text(p.value.0) == LikeText(m, column(name), par);
  }

  lemma EndsWithNameText()
    ensures LikeText("EndsWith", "Name", "@Name_0") == "UCASE(Name) LIKE '%'||UCASE(@Name_0)"
  {
  }

  /** `x => x.Name.EndsWith("1")`. */
  lemma NameEndsWith()
    ensures Build(Call("EndsWith", Member(Row, "Name"), Str("1")), SameName, Fresh)
         == Ok(BuildExpressionResult("UCASE(Name) LIKE '%'||UCASE(@Name_0)", [Param("@Name_0", Str("1"))]))
  {
    BuildMethodCall("EndsWith", "Name", Str("1"), SameName);
    SmallNumbers();
    assert ParamName("Name", 0) == "@Name_0";
    EndsWithNameText();
  }

  lemma ContainsFieldText()
    ensures LikeText("Contains", "Field", "@Field_1") == "UCASE(Field) LIKE '%'||UCASE(@Field_1)||'%'"
  {
  }

  /** The left disjunct of the aliased filter: `x.AField == myUser.AField`. */
  lemma AliasedEquality()
    ensures PerformBuild(Binary(Equal, Member(Row, "AField"), Member(Captured(Str("John")), "AField")), AliasedColumn, Fresh)
         == Ok((Txt("Field = @Field_0"), Builder(1, [Param("@Field_0", Str("John"))])))
  {
    SmallNumbers();
    var v := Member(Captured(Str("John")), "AField");
    ColumnOperatorValue(Equal, "AField", v, AliasedColumn, Fresh);
    var column: string -> string := AliasedColumn;
    assert column("AField") == "Field";
    assert ParamName("Field", 0) == "@Field_0";
    assert BoundValue(v) == Str("John");
    assert Fresh.params + [Param("@Field_0", Str("John"))] == [Param("@Field_0", Str("John"))];
    assert "Field" + " " + BinaryOperator(Equal) + " " + "@Field_0" == "Field = @Field_0";
  }

  /** The right disjunct of the aliased filter: `x.AField.Contains("ar")`,
      after the left one bound its parameter. */
  lemma AliasedContains()
    ensures PerformBuild(Call("Contains", Member(Row, "AField"), Str("ar")), AliasedColumn, Builder(1, [Param("@Field_0", Str("John"))]))
         == Ok((Txt("UCASE(Field) LIKE '%'||UCASE(@Field_1)||'%'"),
                Builder(2, [Param("@Field_0", Str("John")), Param("@Field_1", Str("ar"))])))
  {
    SmallNumbers();
    var b := Builder(1, [Param("@Field_0", Str("John"))]);
    StringMethodBindsArgument("Contains", "AField", Str("ar"), AliasedColumn, b);
    var column: string -> string := AliasedColumn;
    assert column("AField") == "Field";
    assert b.params + [Param("@Field_1", Str("ar"))] == [Param("@Field_0", Str("John")), Param("@Field_1", Str("ar"))];
    assert ParamName("Field", 1) == "@Field_1";
    ContainsFieldText();
  }

  /** `x => x.AField == myUser.AField || x.AField.Contains("ar")` with
      myUser.AField == "John" and AField mapped to column Field. */
  lemma AliasedDisjunction()
    ensures Build(Binary(OrElse,
                         Binary(Equal, Member(Row, "AField"), Member(Captured(Str("John")), "AField")),
                         Call("Contains", Member(Row, "AField"), Str("ar"))),
                  AliasedColumn, Fresh)
         == Ok(BuildExpressionResult(
                 "Field = @Field_0" + " OR " + "UCASE(Field) LIKE '%'||UCASE(@Field_1)||'%'",
                 [Param("@Field_0", Str("John")), Param("@Field_1", Str("ar"))]))
  {
    var left := Binary(Equal, Member(Row, "AField"), Member(Captured(Str("John")), "AField"));
    var right := Call("Contains", Member(Row, "AField"), Str("ar"));
    AliasedEquality();
    AliasedContains();
    JoinsOperands(OrElse, left, right, AliasedColumn, Fresh);
    var l, r := "Field = @Field_0", "UCASE(Field) LIKE '%'||UCASE(@Field_1)||'%'";
    assert " " + BinaryOperator(OrElse) + " " == " OR ";
    assert l + " " + BinaryOperator(OrElse) + " " + r == l + " OR " + r;
  }

  /** `x => true` becomes the condition `True`, with nothing bound. */
  lemma AlwaysTrue()
    ensures Build(Constant(Bool(true)), SameName, Fresh) == Ok(BuildExpressionResult("True", []))
  {
  }

  /** `x => x.Name.Equals("Foo")` is refused: Equals is not one of the
      string methods the translator lowers to LIKE. */
  lemma EqualsIsRefused()
    ensures Build(Call("Equals", Member(Row, "Name"), Str("Foo")), SameName, Fresh) == Err(NotSupported("Equals"))
    ensures NotSupported("Equals").Message() == "Equals is not supported"
  {
  }

  /** The first page of two rows starts at row 0; page 3 of ten starts at 20. */
  lemma PageOffsets()
    ensures Skip(2, Some(1)) == 0
    ensures Skip(10, Some(3)) == 20
    ensures Skip(10, None) == 0
  {
  }

  /** A DB2 connection's queries get the LIMIT/OFFSET clause. */
  lemma Db2IsPaginated(sql: string)
    ensures AppendSqlWithPagination("DB2Connection", sql) == sql + " LIMIT @top OFFSET @skip"
  {
    assert OccursAt("DB2Connection", "DB2", 0);
  }

  /** Other connections' queries are left unchanged. */
  lemma SqlServerIsNotPaginated(sql: string)
    ensures AppendSqlWithPagination("SqlConnection", sql) == sql
  {
    var name := "SqlConnection";
    forall i | 0 <= i && i + 3 <= |name|
      ensures !OccursAt(name, "DB2", i)
    {
      assert name[i] != 'D';
      assert name[i..i + 3][0] == name[i];
    }
    assert !ContainsText(name, "DB2");
  }

  /** The test suite's User: key Id, then Name and Age. */
  const UserEntity := Entity("Users", "Users", [
    Property("Id", "Id", true, false, false),
    Property("Name", "Name", false, false, false),
    Property("Age", "Age", false, false, false)])

  /** An adapter writing `column = @name`. */
  function PlainColumn(c: string): string { c }
  function PlainEquals(c: string, n: string): string { c + " = @" + n }
  const Plain := Adapter(PlainColumn, PlainEquals)

  /** Filtering a three-element list one element at a time. */
  lemma FilterOfThree(a: Property, b: Property, c: Property, keep: Property -> bool)
    ensures Filter([a, b, c], keep) == Filter([a], keep) + Filter([b], keep) + Filter([c], keep)
  {
    FilterAppend([a], [b], keep);
    FilterAppend([a, b], [c], keep);
    assert [a] + [b] == [a, b];
    assert [a, b] + [c] == [a, b, c];
  }

  lemma UserProperties()
    ensures Selected(UserEntity) == UserEntity.properties
    ensures Keys(UserEntity) == [UserEntity.properties[0]]
    ensures ExplicitKeys(UserEntity) == []
  {
    var ps := UserEntity.properties;
    assert ps == [ps[0], ps[1], ps[2]];
    FilterOfThree(ps[0], ps[1], ps[2], (p: Property) => !p.isComputed);
    FilterOfThree(ps[0], ps[1], ps[2], (p: Property) => p.isKey);
    FilterOfThree(ps[0], ps[1], ps[2], (p: Property) => p.isExplicitKey);
  }

  lemma UserColumns()
    ensures SelectColumnList(UserEntity, Plain) == Ok("Id,Name,Age")
  {
    UserProperties();
    var names := ColumnNames(Plain, UserEntity.properties);
    assert names == ["Id", "Name", "Age"];
    assert names[..2] == ["Id", "Name"];
    assert Join(",", ["Id"]) == "Id";
    assert ["Id", "Name"][..1] == ["Id"];
    assert Join(",", ["Id", "Name"]) == "Id" + "," + "Name";
    assert Join(",", names) == "Id" + "," + "Name" + "," + "Age";
    assert "Id" + "," + "Name" + "," + "Age" == "Id,Name,Age";
  }

  /** GetAllAsync<User>() without a filter. */
  lemma UserSelect()
    ensures BuildSqlGetAll(UserEntity, Plain, SameName, None) == Ok(("select Id,Name,Age from Users", None))
  {
    UserColumns();
    assert "select " + "Id,Name,Age" + " from " + "Users" == "select Id,Name,Age from Users";
  }

  /** DeleteAsync of a User, and of a null one. */
  lemma UserDelete()
    ensures DeleteSql(UserEntity, Plain, false) == Ok(Delete("DELETE FROM Users WHERE Id = @Id", [UserEntity.properties[0]]))
    ensures DeleteSql(UserEntity, Plain, true) == Err(NullEntity)
  {
    UserProperties();
    var keys := AllKeys(UserEntity);
    assert keys == [UserEntity.properties[0]];
    var equals: (string, string) -> string := PlainEquals;
    assert equals("Id", "Id") == "Id = @Id";
    assert Assignments(Plain, keys) == ["Id = @Id"];
    assert Join(" AND ", ["Id = @Id"]) == "Id = @Id";
    assert "DELETE FROM " + "Users" + " WHERE " + "Id = @Id" == "DELETE FROM Users WHERE Id = @Id";
  }

  /** `x => x.Age > 5`. */
  lemma AgeAboveFive()
    ensures Build(Binary(GreaterThan, Member(Row, "Age"), Constant(Int(5))), SameName, Fresh)
         == Ok(BuildExpressionResult("Age > @Age_0", [Param("@Age_0", Int(5))]))
  {
    BuildComparison(GreaterThan, "Age", Constant(Int(5)), SameName);
    SmallNumbers();
    assert ParamName("Age", 0) == "@Age_0";
    assert "Age" + " " + BinaryOperator(GreaterThan) + " " + "@Age_0" == "Age > @Age_0";
  }

  /** `x => !(x.Age > 5)`: the negated comparison in parentheses after NOT. */
  lemma NotAgeAboveFive()
    ensures Build(Unary(Not, Binary(GreaterThan, Member(Row, "Age"), Constant(Int(5)))), SameName, Fresh)
         == Ok(BuildExpressionResult("NOT(" + "Age > @Age_0" + ")", [Param("@Age_0", Int(5))]))
  {
    var inner := Binary(GreaterThan, Member(Row, "Age"), Constant(Int(5)));
    AgeAboveFive();
    NotWraps(inner, SameName, Fresh);
  }

  /** `GetAllAsync<User>(filter: x => x.Age > 5)`. */
  lemma UserAgeFilter()
    ensures BuildSqlGetAll(UserEntity, Plain, SameName, Some(Binary(GreaterThan, Member(Row, "Age"), Constant(Int(5)))))
         == Ok(("select Id,Name,Age from Users" + " WHERE " + "Age > @Age_0", Some([Param("@Age_0", Int(5))])))
  {
    var filter := Binary(GreaterThan, Member(Row, "Age"), Constant(Int(5)));
    UserSelect();
    AgeAboveFive();
    assert BuildWhere(filter, SameName) == Ok(BuildExpressionResult("Age > @Age_0", [Param("@Age_0", Int(5))]));
  }

  /** `GetAllAsync<User>(filter: x => x.Age > 5, page: 3, pageSize: 10)` on
      DB2: the condition, the LIMIT/OFFSET clause, and the pagination
      parameters after the filter's. */
  lemma PagedFilterOnDb2()
    ensures GetAllQuery(UserEntity, Plain, SameName, Some(Binary(GreaterThan, Member(Row, "Age"), Constant(Int(5)))),
                        "DB2Connection", Some(3), Some(10), true)
         == Ok(("select Id,Name,Age from Users" + " WHERE " + "Age > @Age_0" + " LIMIT @top OFFSET @skip",
                Some([Param("@Age_0", Int(5)), Param("top", Int(10)), Param("skip", Int(20))])))
  {
    UserAgeFilter();
    Db2IsPaginated("select Id,Name,Age from Users" + " WHERE " + "Age > @Age_0");
    assert Skip(10, Some(3)) == 20;
    assert [Param("@Age_0", Int(5))] + PaginationParameters(10, Some(3))
        == [Param("@Age_0", Int(5)), Param("top", Int(10)), Param("skip", Int(20))];
  }
}
