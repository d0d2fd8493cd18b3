/** What the filter translator guarantees, stated against reference
    definitions independent of its code: when it fails, how many parameters
    it binds, that the parameter bag is write-only, and that on the filters it
    is meant for (a row column compared with a value, connectives, negation,
    string methods) the SQL text depends on the tree's shape only. */
module ExpressionProperties {
  import opened Results
  import opened Strings
  import opened Parameters
  import opened ExpressionBuilder

  /** The filters the translator accepts: every string-method call is one of
      the three supported methods on a member, and no member lacks a receiver. */
  predicate Translatable(e: Expr) {
    match e
    case Constant(_) => true
    case Member(receiver, _) => !receiver.Static?
    case Binary(_, left, right) => Translatable(left) && Translatable(right)
    case Unary(_, operand) => Translatable(operand)
    case Call(m, target, _) => target.Member? && !target.receiver.Static? && SupportedMethod(m)
    case Unrecognised => true
  }

  /** The number of parameters a translation binds: one per string-method
      call and one per binary node with a value operand. */
  function Bindings(e: Expr): nat {
    match e
    case Binary(_, left, right) =>
      Bindings(left) + Bindings(right) + (if IsValue(left) || IsValue(right) then 1 else 0)
    case Unary(_, operand) => Bindings(operand)
    case Call(_, _, _) => 1
    case _ => 0
  }

  /** The translation succeeds exactly on translatable filters. */
  lemma {:induction false} TranslatesIffTranslatable(e: Expr, column: string -> string, b: Builder)
    ensures PerformBuild(e, column, b).Ok? <==> Translatable(e)
    decreases e
  {
    match e
    case Binary(_, left, right) =>
      TranslatesIffTranslatable(left, column, b);
      var x := PerformBuild(left, column, b);
      if x.Ok? {
        TranslatesIffTranslatable(right, column, x.value.1);
      }
    case Unary(_, operand) =>
      TranslatesIffTranslatable(operand, column, b);
    case _ =>
  }

  /** A successful translation advances the counter, and grows the bag, by
      exactly the number of bindings of the filter. */
  lemma {:induction false} BindsExactlyBindings(e: Expr, column: string -> string, b: Builder)
    requires PerformBuild(e, column, b).Ok?
    ensures PerformBuild(e, column, b).value.1.index == b.index + Bindings(e)
    ensures |PerformBuild(e, column, b).value.1.params| == |b.params| + Bindings(e)
    decreases e
  {
    match e
    case Binary(_, left, right) =>
      BindsExactlyBindings(left, column, b);
      var x := PerformBuild(left, column, b);
      BindsExactlyBindings(right, column, x.value.1);
    case Unary(_, operand) =>
      BindsExactlyBindings(operand, column, b);
    case _ =>
  }

  /** `r` is `r0` with `older` in front of the parameters it holds. */
  predicate AppendedTo(r: Result<(Out, Builder)>, r0: Result<(Out, Builder)>, older: seq<Param>) {
    && r.Ok? == r0.Ok?
    && (r.Ok? ==> r.value.0 == r0.value.0 && r.value.1 == Builder(r0.value.1.index, older + r0.value.1.params))
  }

  /** The parameters already in the bag never influence a translation: from
      any bag the result is the one from an empty bag with the same counter,
      its parameters appended to the old ones. */
  lemma {:induction false} BagIsWriteOnly(e: Expr, column: string -> string, b: Builder)
    ensures AppendedTo(PerformBuild(e, column, b), PerformBuild(e, column, Builder(b.index, [])), b.params)
    decreases e, 1
  {
    match e
    case Binary(_, _, _) =>
      BinaryKeepsBag(e, column, b);
    case Unary(_, operand) =>
      BagIsWriteOnly(operand, column, b);
    case Call(m, target, argument) =>
      MethodCallKeepsBag(m, target, argument, column, b);
    case _ =>
  }

  lemma {:induction false} BinaryKeepsBag(e: Expr, column: string -> string, b: Builder)
    requires e.Binary?
    ensures AppendedTo(PerformBuild(e, column, b), PerformBuild(e, column, Builder(b.index, [])), b.params)
    decreases e, 0
  {
    var Binary(op, left, right) := e;
    BagIsWriteOnly(left, column, b);
    var x, x0 := PerformBuild(left, column, b), PerformBuild(left, column, Builder(b.index, []));
    if x.Ok? {
      BagIsWriteOnly(right, column, x.value.1);
      BagIsWriteOnly(right, column, x0.value.1);
      var y, y0 := PerformBuild(right, column, x.value.1), PerformBuild(right, column, x0.value.1);
      if y.Ok? {
        var yf := PerformBuild(right, column, Builder(x.value.1.index, []));
        assert y.value.1 == Builder(yf.value.1.index, b.params + x0.value.1.params + yf.value.1.params);
        assert y0.value.1 == Builder(yf.value.1.index, x0.value.1.params + yf.value.1.params);
        assert b.params + x0.value.1.params + yf.value.1.params == b.params + (x0.value.1.params + yf.value.1.params);
        assert y.value.1 == Builder(y0.value.1.index, b.params + y0.value.1.params);
        assert PerformBuild(e, column, b) == Ok(ProcessOperands(op, left, right, x.value.0, y.value.0, y.value.1));
        assert PerformBuild(e, column, Builder(b.index, []))
            == Ok(ProcessOperands(op, left, right, x0.value.0, y0.value.0, y0.value.1));
        ProcessOperandsKeepsBag(op, left, right, x.value.0, y.value.0, b.params, y0.value.1);
      }
    }
  }

  lemma MethodCallKeepsBag(m: string, target: Expr, argument: Value, column: string -> string, b: Builder)
    ensures var r, r0 := ParseMethodCall(m, target, argument, column, b),
                        ParseMethodCall(m, target, argument, column, Builder(b.index, []));
      && r.Ok? == r0.Ok?
      && (r.Ok? ==> r.value.0 == r0.value.0 && r.value.1 == Builder(r0.value.1.index, b.params + r0.value.1.params))
  {
  }

  lemma ProcessOperandsKeepsBag(op: BinOp, left: Expr, right: Expr, x: Out, y: Out, older: seq<Param>, b: Builder)
    ensures var r, r0 := ProcessOperands(op, left, right, x, y, Builder(b.index, older + b.params)),
                        ProcessOperands(op, left, right, x, y, b);
      r.0 == r0.0 && r.1 == Builder(r0.1.index, older + r0.1.params)
  {
  }

  /** A member of the lambda's parameter. */
  predicate RowMember(e: Expr) {
    e.Member? && e.receiver.Row?
  }

  /** A value operand that translates: a constant or a captured member. */
  predicate ValueOperand(e: Expr) {
    IsValue(e) && !(e.Member? && e.receiver.Static?)
  }

  predicate Comparison(op: BinOp) {
    op.Equal? || op.NotEqual? || op.GreaterThan? || op.GreaterThanOrEqual? || op.LessThan? || op.LessThanOrEqual?
  }

  predicate Connective(op: BinOp) {
    op.And? || op.AndAlso? || op.Or? || op.OrElse?
  }

  /** The filters the translator is meant for: boolean columns, a column
      compared with a value (either way round), AND/OR of such filters, NOT
      of one, and a supported string method on a column. */
  predicate Canonical(e: Expr) {
    match e
    case Member(receiver, _) => receiver.Row?
    case Binary(op, left, right) =>
      if Connective(op) then Canonical(left) && Canonical(right)
      else Comparison(op) && ((RowMember(left) && ValueOperand(right)) || (ValueOperand(left) && RowMember(right)))
    case Unary(op, operand) => op.Not? && Canonical(operand)
    case Call(m, target, _) => SupportedMethod(m) && RowMember(target)
    case _ => false
  }

  /** Two filters that differ at most in the values of constants, captured
      members and method arguments. */
  predicate SameShape(e1: Expr, e2: Expr) {
    match (e1, e2)
    case (Constant(_), Constant(_)) => true
    case (Member(r1, n1), Member(r2, n2)) => n1 == n2 && r1.Row? == r2.Row? && r1.Static? == r2.Static?
    case (Binary(o1, l1, r1), Binary(o2, l2, r2)) => o1 == o2 && SameShape(l1, l2) && SameShape(r1, r2)
    case (Unary(o1, x1), Unary(o2, x2)) => o1 == o2 && SameShape(x1, x2)
    case (Call(m1, t1, _), Call(m2, t2, _)) => m1 == m2 && SameShape(t1, t2)
    case (Unrecognised, Unrecognised) => true
    case _ => false
  }

  /** No value ever reaches the SQL text of a canonical filter: two filters of
      the same shape translate to the same text and advance the counter
      alike; the values travel only in the parameter bag. */
  lemma {:induction false} ValuesNeverReachText(e1: Expr, e2: Expr, column: string -> string, b1: Builder, b2: Builder)
    requires Canonical(e1) && SameShape(e1, e2) && b1.index == b2.index
    ensures var r1, r2 := PerformBuild(e1, column, b1), PerformBuild(e2, column, b2);
      && r1.Ok? && r2.Ok?
      && Text(r1.value.0) == Text(r2.value.0)
      && r1.value.1.index == r2.value.1.index
    decreases e1
  {
    match e1
    case Binary(op, l1, r1) =>
      var Binary(_, l2, r2) := e2;
      if Connective(op) {
        ValuesNeverReachText(l1, l2, column, b1, b2);
        var x1, x2 := PerformBuild(l1, column, b1), PerformBuild(l2, column, b2);
        ValuesNeverReachText(r1, r2, column, x1.value.1, x2.value.1);
      }
    case Unary(_, x1) =>
      var Unary(_, x2) := e2;
      ValuesNeverReachText(x1, x2, column, b1, b2);
    case _ =>
  }

  /** The value a value operand is bound as: the string "NULL" for null, a
      captured member's value rendered as text, a constant's value itself. */
  function BoundValue(e: Expr): Value
    requires ValueOperand(e)
  {
    match e
    case Constant(Null) => Str("NULL")
    case Constant(v) => v
    case Member(Captured(Null), _) => Str("NULL")
    case Member(Captured(v), _) => Str(ValueText(v))
  }

  /** A column compared with a value emits `<column> <op> @<column>_<k>` and
      binds the value under that name, whatever the operator. */
  lemma ColumnOperatorValue(op: BinOp, name: string, v: Expr, column: string -> string, b: Builder)
    requires ValueOperand(v)
    ensures var par := ParamName(column(name), b.index);
      PerformBuild(Binary(op, Member(Row, name), v), column, b)
      == Ok((Txt(column(name) + " " + BinaryOperator(op) + " " + par),
             Builder(b.index + 1, b.params + [Param(par, BoundValue(v))])))
  {
    var c := column(name);
    assert PerformBuild(Member(Row, name), column, b) == Ok((Txt(c), b));
    var y := PerformBuild(v, column, b);
    assert y.Ok? && y.value.1 == b && Bound(y.value.0) == BoundValue(v) by {
      match v
      case Constant(_) =>
      case Member(_, _) =>
    }
    assert ProcessOperands(op, Member(Row, name), v, Txt(c), y.value.0, b)
        == AddParameter(c, y.value.0, BinaryOperator(op), b);
  }

  /** With the value on the left the column text still comes first and the
      operator is kept as it is, not mirrored: `v < x.Age` translates exactly
      like `x.Age < v`. */
  lemma ValueFirstIsNotMirrored(op: BinOp, name: string, v: Expr, column: string -> string, b: Builder)
    requires ValueOperand(v)
    ensures PerformBuild(Binary(op, v, Member(Row, name)), column, b)
         == PerformBuild(Binary(op, Member(Row, name), v), column, b)
  {
    ColumnOperatorValue(op, name, v, column, b);
  }

  /** The condition each supported string method stands for, on column text
      `c` with the argument bound as `par`: a case-insensitive LIKE with the
      wildcard on the side(s) the method leaves open. */
  function LikeText(m: string, c: string, par: string): string {
    if m == "Contains" then "UCASE(" + c + ") LIKE '%'" + ConcatOperator + "UCASE(" + par + ")" + ConcatOperator + "'%'"
    else if m == "StartsWith" then "UCASE(" + c + ") LIKE UCASE(" + par + ")" + ConcatOperator + "'%'"
    else "UCASE(" + c + ") LIKE '%'" + ConcatOperator + "UCASE(" + par + ")"
  }

  /** A supported string method on a column emits its LIKE condition and
      binds its argument, unchanged, as the one new parameter `@<column>_<k>`. */
  lemma StringMethodBindsArgument(m: string, name: string, argument: Value, column: string -> string, b: Builder)
    requires SupportedMethod(m)
    ensures var par := ParamName(column(name), b.index);
      PerformBuild(Call(m, Member(Row, name), argument), column, b)
      == Ok((Txt(LikeText(m, column(name), par)), Builder(b.index + 1, b.params + [Param(par, argument)])))
  {
    assert ParseMember(Row, name, column) == Ok(Txt(column(name)));
  }

  /** Any other method name is refused, naming the method. */
  lemma UnsupportedMethodIsRefused(m: string, target: Expr, argument: Value, column: string -> string, b: Builder)
    requires !SupportedMethod(m) && target.Member? && !target.receiver.Static?
    ensures PerformBuild(Call(m, target, argument), column, b) == Err(NotSupported(m))
    ensures NotSupported(m).Message() == m + " is not supported"
  {
  }

  /** `!e` is written `NOT(<e>)`, binding exactly what `e` binds; it fails
      exactly when `e` does. A negated binary node goes through the same
      translation as any other operand. */
  lemma NotWraps(e: Expr, column: string -> string, b: Builder)
    ensures PerformBuild(Unary(Not, e), column, b).Ok? <==> PerformBuild(e, column, b).Ok?
    ensures PerformBuild(e, column, b).Ok? ==>
      var x := PerformBuild(e, column, b).value;
      PerformBuild(Unary(Not, e), column, b) == Ok((Txt("NOT(" + Text(x.0) + ")"), x.1))
  {
    if PerformBuild(e, column, b).Ok? {
      var x := PerformBuild(e, column, b).value;
      assert UnaryOperator(Not) + "(" + Text(x.0) + ")" == "NOT(" + Text(x.0) + ")";
    }
  }

  /** Any other unary node (a conversion, say) only puts its operand in
      parentheses. */
  lemma OtherUnaryParenthesises(e: Expr, column: string -> string, b: Builder)
    requires PerformBuild(e, column, b).Ok?
    ensures var x := PerformBuild(e, column, b).value;
      PerformBuild(Unary(Convert, e), column, b) == Ok((Txt("(" + Text(x.0) + ")"), x.1))
  {
    var x := PerformBuild(e, column, b).value;
    assert UnaryOperator(Convert) + "(" + Text(x.0) + ")" == "(" + Text(x.0) + ")";
  }

  /** A node kind the translator does not know becomes empty text and binds
      nothing. */
  lemma UnrecognisedIsEmpty(column: string -> string, b: Builder)
    ensures PerformBuild(Unrecognised, column, b) == Ok((Txt(""), b))
    ensures Build(Unrecognised, column, b) == Ok(BuildExpressionResult("", b.params))
  {
  }

  /** A binary node over two non-value operands writes their texts around the
      operator and binds nothing of its own. */
  lemma JoinsOperands(op: BinOp, left: Expr, right: Expr, column: string -> string, b: Builder)
    requires !IsValue(left) && !IsValue(right)
    requires PerformBuild(left, column, b).Ok?
    requires PerformBuild(right, column, PerformBuild(left, column, b).value.1).Ok?
    ensures var x := PerformBuild(left, column, b).value;
      var y := PerformBuild(right, column, x.1).value;
      PerformBuild(Binary(op, left, right), column, b) == Ok((Txt(Text(x.0) + " " + BinaryOperator(op) + " " + Text(y.0)), y.1))
  {
  }

  /** Operands joined without a bound value are written side by side with no
      parentheses, so a connective's grouping is not kept: `a AND (b OR c)`
      and `(a AND b) OR c` give the same text and the same parameters. */
  lemma {:induction false} ConnectivesAreNotGrouped(e1: Expr, e2: Expr, e3: Expr, column: string -> string, b: Builder)
    requires !IsValue(e1) && !IsValue(e2) && !IsValue(e3)
    ensures PerformBuild(Binary(AndAlso, e1, Binary(OrElse, e2, e3)), column, b)
         == PerformBuild(Binary(OrElse, Binary(AndAlso, e1, e2), e3), column, b)
  {
    var r1 := PerformBuild(e1, column, b);
    if r1.Ok? {
      var r2 := PerformBuild(e2, column, r1.value.1);
      if r2.Ok? {
        var r3 := PerformBuild(e3, column, r2.value.1);
        if r3.Ok? {
          GroupingIsDropped(e1, e2, e3, column, b);
        }
      }
    }
  }

  /** The successful case of ConnectivesAreNotGrouped. */
  lemma GroupingIsDropped(e1: Expr, e2: Expr, e3: Expr, column: string -> string, b: Builder)
    requires !IsValue(e1) && !IsValue(e2) && !IsValue(e3)
    requires PerformBuild(e1, column, b).Ok?
    requires PerformBuild(e2, column, PerformBuild(e1, column, b).value.1).Ok?
    requires PerformBuild(e3, column, PerformBuild(e2, column, PerformBuild(e1, column, b).value.1).value.1).Ok?
    ensures PerformBuild(Binary(AndAlso, e1, Binary(OrElse, e2, e3)), column, b)
         == PerformBuild(Binary(OrElse, Binary(AndAlso, e1, e2), e3), column, b)
  {
    var x1 := PerformBuild(e1, column, b).value;
    var x2 := PerformBuild(e2, column, x1.1).value;
    var x3 := PerformBuild(e3, column, x2.1).value;
    var t1, t2, t3 := Text(x1.0), Text(x2.0), Text(x3.0);
    var and, or := BinaryOperator(AndAlso), BinaryOperator(OrElse);
    JoinsOperands(OrElse, e2, e3, column, x1.1);
    JoinsOperands(AndAlso, e1, Binary(OrElse, e2, e3), column, b);
    JoinsOperands(AndAlso, e1, e2, column, b);
    JoinsOperands(OrElse, Binary(AndAlso, e1, e2), e3, column, b);
    SpacedJoinIsAssociative(t1, and, t2, or, t3);
  }

  lemma SpacedJoinIsAssociative(t1: string, op1: string, t2: string, op2: string, t3: string)
    ensures t1 + " " + op1 + " " + (t2 + " " + op2 + " " + t3) == (t1 + " " + op1 + " " + t2) + " " + op2 + " " + t3
  {
  }
}
