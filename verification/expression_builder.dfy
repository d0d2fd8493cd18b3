/** The translator from a boolean filter lambda to a SQL condition plus named
    parameters (class ExpressionBuilder). The lambda's body is given as an
    explicit tree; members of captured objects arrive already evaluated. */
module ExpressionBuilder {
  import opened Results
  import opened Strings
  import opened Parameters

  /** What a member access is applied to. */
  datatype Receiver =
    | Row                     // the lambda's parameter: the member names a column
    | Captured(value: Value)  // a closed-over object: the member's evaluated value
    | Static                  // no receiver object at all (a static member)

  /** Binary node types. `Arithmetic` stands for every binary node type the
      translator has no SQL operator for (Add, Subtract, Coalesce, ...). */
  datatype BinOp =
    | Equal | NotEqual | And | AndAlso | Or | OrElse
    | GreaterThan | GreaterThanOrEqual | LessThan | LessThanOrEqual
    | Arithmetic

  /** Unary node types. `Convert` stands for every unary node type other than
      `Not` (Convert, Negate, Quote, ...). */
  datatype UnOp = Not | Convert

  /** The body of a filter lambda. */
  datatype Expr =
    | Constant(value: Value)
    | Member(receiver: Receiver, name: string)
    | Binary(op: BinOp, left: Expr, right: Expr)
    | Unary(unOp: UnOp, operand: Expr)
    | Call(methodName: string, target: Expr, argument: Value)  // target.Method(argument)
    | Unrecognised  // parameter, conditional, lambda and every other node kind

  /** What translating a node yields: SQL text, or a constant's raw value. */
  datatype Out = Txt(s: string) | Raw(v: Value)

  /** `o.ToString()`. */
  function Text(o: Out): string {
    match o
    case Txt(s) => s
    case Raw(v) => ValueText(v)
  }

  /** The object a translated operand is bound as when it becomes a parameter. */
  function Bound(o: Out): Value {
    match o
    case Txt(s) => Str(s)
    case Raw(v) => v
  }

  /** The builder's mutable state: the next parameter index and the
      parameters added so far. */
  datatype Builder = Builder(index: nat, params: seq<Param>)

  /** A newly constructed ExpressionBuilder. */
  const Fresh := Builder(0, [])

  const ConcatOperator := "||"

  /** GetOperator on a binary node; an unmapped node type gives "". */
  function BinaryOperator(op: BinOp): string {
    match op
    case Equal => "="
    case NotEqual => "<>"
    case And => "AND"
    case AndAlso => "AND"
    case Or => "OR"
    case OrElse => "OR"
    case GreaterThan => ">"
    case GreaterThanOrEqual => ">="
    case LessThan => "<"
    case LessThanOrEqual => "<="
    case Arithmetic => ""
  }

  /** GetOperator on a unary node; an unmapped node type gives "". */
  function UnaryOperator(op: UnOp): string {
    match op
    case Not => "NOT"
    case Convert => ""
  }

  /** An operand is a value (to be bound as a parameter) exactly when it is a
      constant or a member whose receiver is not the lambda's parameter. */
  predicate IsValue(e: Expr) {
    e.Constant? || (e.Member? && !e.receiver.Row?)
  }

  /** null becomes the text "NULL", a string stays a string, anything else
      keeps its raw value. */
  function ParseValue(v: Value): Out {
    match v
    case Null => Txt("NULL")
    case Str(s) => Txt(s)
    case _ => Raw(v)
  }

  /** A member on the row is its column name; a member on a captured object
      is its evaluated value; a member without receiver dereferences null. */
  function ParseMember(receiver: Receiver, name: string, column: string -> string): Result<Out> {
    match receiver
    case Row => Ok(Txt(column(name)))
    case Captured(v) => Ok(ParseValue(v))
    case Static => Err(NullReference)
  }

  /** `b'` is `b` after some parameters were appended, the counter advancing
      once per appended parameter. */
  predicate Grows(b: Builder, b': Builder) {
    && b.params <= b'.params
    && b'.index - b.index == |b'.params| - |b.params|
  }

  /** `b'` grows `b` and each appended parameter's name ends in `_<its index>`. */
  ghost predicate Extends(b: Builder, b': Builder) {
    && Grows(b, b')
    && forall j :: |b.params| <= j < |b'.params| ==> HasIndex(b'.params[j].name, b.index + (j - |b.params|))
  }

  /** A builder whose every parameter was named from its own position by the
      counter: the state of every builder that started fresh. */
  ghost predicate Numbered(b: Builder) {
    && b.index == |b.params|
    && forall j :: 0 <= j < |b.params| ==> HasIndex(b.params[j].name, j)
  }

  lemma ExtendsTransitive(b0: Builder, b1: Builder, b2: Builder)
    requires Extends(b0, b1) && Extends(b1, b2)
    ensures Extends(b0, b2)
  {
    forall j | |b0.params| <= j < |b2.params|
      ensures HasIndex(b2.params[j].name, b0.index + (j - |b0.params|))
    {
      if j < |b1.params| {
        assert b2.params[j] == b1.params[j];
      }
    }
  }

  /** Names from a numbered builder never clash. */
  lemma NumberedNamesDistinct(b: Builder)
    requires Numbered(b)
    ensures DistinctNames(b.params)
  {
    forall i, j | 0 <= i < j < |b.params|
      ensures b.params[i].name != b.params[j].name
    {
      if b.params[i].name == b.params[j].name {
        IndexOfNameIsUnique(b.params[i].name, i, j);
      }
    }
  }

  /** Appending to a numbered builder keeps it numbered, so its names stay distinct. */
  lemma ExtendsKeepsNamesDistinct(b: Builder, b': Builder)
    requires Extends(b, b')
    ensures Numbered(b) ==> Numbered(b') && DistinctNames(b'.params)
  {
    if Numbered(b) {
      forall j | 0 <= j < |b'.params|
        ensures HasIndex(b'.params[j].name, j)
      {
        if j < |b.params| {
          assert b'.params[j] == b.params[j];
        }
      }
      NumberedNamesDistinct(b');
    }
  }

  /** AddParameter: bind `right` under `@<left>_<index>` and emit
      `<left> <operator> @<left>_<index>`. */
  function AddParameter(left: string, right: Out, operator: string, b: Builder): (r: (Out, Builder))
    ensures Extends(b, r.1)
    ensures r.1.params == b.params + [Param(ParamName(left, b.index), Bound(right))]
  {
    var name := ParamName(left, b.index);
    (Txt(left + " " + operator + " " + name), Builder(b.index + 1, b.params + [Param(name, Bound(right))]))
  }

  /** The rest of ProcessTreeNode once both operands are translated to `x`
      and `y`: a value operand (the left one first) is bound under the other
      side's text and the operator is kept as written; with no value operand
      the texts are joined around the operator, without parentheses. */
  function ProcessOperands(op: BinOp, left: Expr, right: Expr, x: Out, y: Out, b: Builder): (r: (Out, Builder))
    ensures Extends(b, r.1)
    ensures r.1.index == b.index + (if IsValue(left) || IsValue(right) then 1 else 0)
  {
    if IsValue(left) then AddParameter(Text(y), x, BinaryOperator(op), b)
    else if IsValue(right) then AddParameter(Text(x), y, BinaryOperator(op), b)
    else (Txt(Text(x) + " " + BinaryOperator(op) + " " + Text(y)), b)
  }

  /** The names of the string methods the translator lowers to LIKE. */
  predicate SupportedMethod(name: string) {
    name == "Contains" || name == "StartsWith" || name == "EndsWith"
  }

  /** ParseMethodCallExpr: `target.Method(argument)` where the target is a
      member; the argument is bound raw under `@<column>_<index>`. */
  function ParseMethodCall(methodName: string, target: Expr, argument: Value, column: string -> string, b: Builder)
    : (r: Result<(Out, Builder)>)
    ensures r.Ok? <==> target.Member? && !target.receiver.Static? && SupportedMethod(methodName)
    ensures r.Ok? ==> Extends(b, r.value.1) && r.value.1.index == b.index + 1
    ensures r.Ok? ==> r.value.1.params == b.params + [Param(ParamName(Text(ParseMember(target.receiver, target.name, column).value), b.index), argument)]
  {
    if !target.Member? then Err(NullReference)
    else
      var c :- ParseMember(target.receiver, target.name, column);
      var columnName := Text(c);
      var par := ParamName(columnName, b.index);
      var b' := Builder(b.index + 1, b.params + [Param(par, argument)]);
      if methodName == "Contains" then
        Ok((Txt("UCASE(" + columnName + ") LIKE '%'" + ConcatOperator + "UCASE(" + par + ")" + ConcatOperator + "'%'"), b'))
      else if methodName == "StartsWith" then
        Ok((Txt("UCASE(" + columnName + ") LIKE UCASE(" + par + ")" + ConcatOperator + "'%'"), b'))
      else if methodName == "EndsWith" then
        Ok((Txt("UCASE(" + columnName + ") LIKE '%'" + ConcatOperator + "UCASE(" + par + ")"), b'))
      else Err(NotSupported(methodName))
  }

  /** PerformBuild, with ProcessTreeNode's recursive calls inlined for binary
      nodes. A successful translation only appends to the parameter bag, one
      counter step per appended parameter. */
  function PerformBuild(e: Expr, column: string -> string, b: Builder): (r: Result<(Out, Builder)>)
    ensures r.Ok? ==> Grows(b, r.value.1)
    ensures r.Err? ==> r.error.NotSupported? || r.error == NullReference
    decreases e
  {
    match e
    case Call(m, target, argument) => ParseMethodCall(m, target, argument, column, b)
    case Member(receiver, name) =>
      var o :- ParseMember(receiver, name, column);
      Ok((Txt(Text(o)), b))
    case Constant(v) => Ok((ParseValue(v), b))
    case Unary(op, operand) =>
      var p :- PerformBuild(operand, column, b);
      Ok((Txt(UnaryOperator(op) + "(" + Text(p.0) + ")"), p.1))
    case Binary(op, left, right) =>
      var x :- PerformBuild(left, column, b);
      var y :- PerformBuild(right, column, x.1);
      Ok(ProcessOperands(op, left, right, x.0, y.0, y.1))
    case Unrecognised => Ok((Txt(""), b))
  }

  /** Every parameter a translation appends is named after the counter value
      it was bound at. */
  lemma {:induction false} NamesFollowCounter(e: Expr, column: string -> string, b: Builder)
    requires PerformBuild(e, column, b).Ok?
    ensures Extends(b, PerformBuild(e, column, b).value.1)
    decreases e
  {
    match e
    case Unary(_, operand) =>
      NamesFollowCounter(operand, column, b);
    case Binary(op, left, right) =>
      NamesFollowCounter(left, column, b);
      var x := PerformBuild(left, column, b).value;
      NamesFollowCounter(right, column, x.1);
      var y := PerformBuild(right, column, x.1).value;
      ExtendsTransitive(b, x.1, y.1);
      ExtendsTransitive(b, y.1, ProcessOperands(op, left, right, x.0, y.0, y.1).1);
    case _ =>
  }

  /** The translation's output: SQL text and the parameters. */
  datatype BuildExpressionResult = BuildExpressionResult(sql: string, params: seq<Param>)

  /** Build: translate and render the result as text, together with every
      parameter the builder holds. */
  function Build(e: Expr, column: string -> string, b: Builder): (r: Result<BuildExpressionResult>)
    ensures r.Ok? ==> b.params <= r.value.params
    ensures r.Ok? && Numbered(b) ==> DistinctNames(r.value.params)
    ensures r.Err? ==> r.error.NotSupported? || r.error == NullReference
    ensures r.Ok? && Numbered(b) ==> forall j :: 0 <= j < |r.value.params| ==> HasIndex(r.value.params[j].name, j)
  {
    var p :- PerformBuild(e, column, b);
    NamesFollowCounter(e, column, b);
    ExtendsKeepsNamesDistinct(b, p.1);
    Ok(BuildExpressionResult(Text(p.0), p.1.params))
  }
}
