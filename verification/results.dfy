/** Optional values, the exceptions the modelled code raises before any SQL
    reaches the database, and a failure-compatible Result over them. */
module Results {

  /** A nullable value (`int?`, an optional filter, a null parameter bag). */
  datatype Option<+T> = None | Some(value: T) {

    /** The C# `??` operator. */
    function GetOr(default: T): T {
      match this
      case Some(v) => v
      case None => default
    }
  }

  /** Every exception the SQL-text synthesis can raise. */
  datatype Error =
    | NotSupported(methodName: string)  // a string method other than Contains, StartsWith, EndsWith
    | NullReference                 // a member or method-call target whose receiver is null
    | NoKey                         // UPDATE or DELETE of a type with no [Key] and no [ExplicitKey]
    | NullEntity                    // DELETE of a null entity
    | EmptyColumnList               // StringBuilder.Remove(-1, 1) on an empty SELECT list
    | NegativePageSize              // the page-size contract of GetAllAsync
  {
    /** The exception message (the .NET exception type for those the runtime raises). */
    function Message(): string {
      match this
      case NotSupported(m) => m + " is not supported"
      case NullReference => "NullReferenceException"
      case NoKey => "Entity must have at least one [Key] or [ExplicitKey] property"
      case NullEntity => "Cannot Delete null Object"
      case EmptyColumnList => "ArgumentOutOfRangeException"
      case NegativePageSize => "pageSize must be a number >= 0"
    }
  }

  /** Either a value or the exception that was thrown instead. */
  datatype Result<+T> = Ok(value: T) | Err(error: Error) {

    predicate IsFailure() {
      Err?
    }

    function PropagateFailure<U>(): Result<U>
      requires Err?
    {
      Err(error)
    }

    function Extract(): T
      requires Ok?
    {
      value
    }
  }
}
