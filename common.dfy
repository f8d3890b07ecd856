/** Values shared by the compiler and the filter accumulator: outcomes, the
    exceptions the source throws, the database kind, the runtime objects a
    predicate can carry and the parameters bound to a command. */
module Common {
  import opened Strings

  datatype Option<+T> = None | Some(value: T)

  function OrEmpty(s: Option<string>): string
  {
    if s.Some? then s.value else ""
  }

  /** The exceptions the source raises, by .NET exception type. */
  datatype Error =
    | NotSupported(message: string)      // System.NotSupportedException
    | NullReference                      // System.NullReferenceException
    | InvalidOperation(message: string)  // System.InvalidOperationException
    | ArgumentNull(paramName: string)    // System.ArgumentNullException
    | Argument(message: string)          // System.ArgumentException
    | FormatError(message: string)       // System.FormatException

  datatype Result<+T> = Ok(value: T) | Err(error: Error) {
    predicate IsFailure() { Err? }
    function PropagateFailure<U>(): Result<U>
      requires Err?
    {
      Err(error)
    }
    function Extract(): T
      requires Ok?
    {
      value
    }
  }

  /** A call that returns nothing of interest (the fluent `This`) or throws. */
  datatype Outcome = Pass | Fail(error: Error)

  /** Candy.Model.DataBaseType. */
  datatype DataBaseType = SqlServer | Access | MySql | Oracle | PostgreSql | Sqlite

  /** The runtime objects a predicate constant or a filter value can hold, by the
      .NET type the coercion rules test for. Culture-dependent renderings (of
      floating point numbers, decimals, dates and other structs) are kept as the
      text `ToString()` produced. */
  datatype Obj =
    | Null
    | Integer(i: int)                  // int, long, short, byte, sbyte
    | Boolean(b: bool)
    | Real(text: string)               // float, double, decimal
    | OtherValueType(text: string)     // any other struct: enum, Guid, TimeSpan, ...
    | DateTime(text: string)
    | Str(s: string)
    | Char(c: char)
    | DbNull                           // DBNull.Value
    | Reference(text: string)          // any other class

  /** `o.ToString()`, and the empty text `string.Format` writes for a null argument. */
  function ObjText(o: Obj): string
  {
    match o
    case Null => ""
    case Integer(i) => IntStr(i)
    case Boolean(b) => if b then "True" else "False"
    case Real(t) => t
    case OtherValueType(t) => t
    case DateTime(t) => t
    case Str(s) => s
    case Char(c) => [c]
    case DbNull => ""
    case Reference(t) => t
  }

  /** The value a bound parameter carries: one object, or a whole collection
      bound as an array parameter. */
  datatype ParamValue = Scalar(obj: Obj) | List(items: seq<Obj>)

  /** A DbParameter, as the connection's parameter factory builds it from a name and a value. */
  datatype DbParam = DbParam(name: string, value: ParamValue)
}
