/** The dialect and operator tables of the predicate compiler
    (src/Candy/SqlBuilder/ExpressionAnalysis/SqlExpressionExtensions.cs):
    which dialects quote identifiers, the `LIKE` concatenation token, the SQL
    text of each expression-node kind, which nodes are bracketed, and how a
    member path becomes a column reference. */
module SqlExpressionExtensions {
  import opened Strings
  import opened Common

  /** The System.Linq.Expressions.ExpressionType kinds a binary or unary node
      of a lambda predicate can have. */
  datatype ExpressionType =
    | Add | AddChecked | And | AndAlso | ArrayIndex | Coalesce | Divide | Equal
    | ExclusiveOr | GreaterThan | GreaterThanOrEqual | LeftShift | LessThan
    | LessThanOrEqual | Modulo | Multiply | MultiplyChecked | NotEqual | Or
    | OrElse | Power | RightShift | Subtract | SubtractChecked
    | ArrayLength | Convert | ConvertChecked | Negate | NegateChecked | Not
    | OnesComplement | Quote | TypeAs | UnaryPlus | IsTrue | IsFalse

  /** `ExpressionType.ToString()`. */
  function NodeName(t: ExpressionType): string
  {
    match t
    case Add => "Add" case AddChecked => "AddChecked" case And => "And"
    case AndAlso => "AndAlso" case ArrayIndex => "ArrayIndex" case Coalesce => "Coalesce"
    case Divide => "Divide" case Equal => "Equal" case ExclusiveOr => "ExclusiveOr"
    case GreaterThan => "GreaterThan" case GreaterThanOrEqual => "GreaterThanOrEqual"
    case LeftShift => "LeftShift" case LessThan => "LessThan"
    case LessThanOrEqual => "LessThanOrEqual" case Modulo => "Modulo"
    case Multiply => "Multiply" case MultiplyChecked => "MultiplyChecked"
    case NotEqual => "NotEqual" case Or => "Or" case OrElse => "OrElse"
    case Power => "Power" case RightShift => "RightShift" case Subtract => "Subtract"
    case SubtractChecked => "SubtractChecked" case ArrayLength => "ArrayLength"
    case Convert => "Convert" case ConvertChecked => "ConvertChecked"
    case Negate => "Negate" case NegateChecked => "NegateChecked" case Not => "Not"
    case OnesComplement => "OnesComplement" case Quote => "Quote" case TypeAs => "TypeAs"
    case UnaryPlus => "UnaryPlus" case IsTrue => "IsTrue" case IsFalse => "IsFalse"
  }

  predicate IsComparison(t: ExpressionType)
  {
    t == Equal || t == NotEqual || t == GreaterThan || t == GreaterThanOrEqual
    || t == LessThan || t == LessThanOrEqual
  }

  predicate IsLogical(t: ExpressionType)
  {
    t == And || t == AndAlso || t == Or || t == OrElse
  }

  predicate IsArithmetic(t: ExpressionType)
  {
    t == Add || t == AddChecked || t == Subtract || t == SubtractChecked
    || t == Divide || t == Multiply || t == MultiplyChecked
  }

  /** The read-only operator dictionary. */
  const ExpressionOperator: map<ExpressionType, string> := map[
    And := "AND", AndAlso := "AND", Equal := "=", GreaterThan := ">",
    GreaterThanOrEqual := ">=", LessThan := "<", LessThanOrEqual := "<=",
    NotEqual := "<>", Or := "OR", OrElse := "OR", Add := "+", AddChecked := "+",
    Subtract := "-", SubtractChecked := "-", Divide := "/", Multiply := "*",
    MultiplyChecked := "*"]

  /** The SQL operator of a node kind. Defined on the six comparisons, the four
      logical kinds and the seven arithmetic kinds (Modulo is not among them);
      every other kind is refused with NotSupported. */
  function ExpressionTypeCast(t: ExpressionType): (r: Result<string>)
    ensures r.Ok? <==> IsComparison(t) || IsLogical(t) || IsArithmetic(t)
    ensures r.Err? ==> r.error == NotSupported(NodeName(t) + "is not supported.")
    ensures t == And || t == AndAlso ==> r == Ok("AND")
    ensures t == Or || t == OrElse ==> r == Ok("OR")
    ensures r.Ok? ==> 1 <= |r.value| <= 3 && NoBraces(r.value)
  {
    if t in ExpressionOperator then Ok(ExpressionOperator[t])
    else Err(NotSupported(NodeName(t) + "is not supported."))
  }

  /** Checked arithmetic renders like unchecked arithmetic. */
  lemma CheckedAsUnchecked()
    ensures ExpressionTypeCast(AddChecked) == ExpressionTypeCast(Add) == Ok("+")
    ensures ExpressionTypeCast(SubtractChecked) == ExpressionTypeCast(Subtract) == Ok("-")
    ensures ExpressionTypeCast(MultiplyChecked) == ExpressionTypeCast(Multiply) == Ok("*")
  {
  }

  /** Equal and NotEqual become the null tests; every other kind renders as
      `ExpressionTypeCast` does, failure included. */
  function NullableOperatorCast(t: ExpressionType): (r: Result<string>)
    ensures t == Equal ==> r == Ok("IS NULL")
    ensures t == NotEqual ==> r == Ok("IS NOT NULL")
    ensures t != Equal && t != NotEqual ==> r == ExpressionTypeCast(t)
    ensures r.Ok? <==> ExpressionTypeCast(t).Ok?
    ensures r.Ok? ==> NoBraces(r.value)
  {
    match t
    case Equal => Ok("IS NULL")
    case NotEqual => Ok("IS NOT NULL")
    case _ => ExpressionTypeCast(t)
  }

  /** Only the short-circuit logical nodes are bracketed; the bitwise And and
      Or render the same keyword without brackets. */
  function IsBracketsExpressionType(t: ExpressionType): (r: bool)
    ensures r <==> t == AndAlso || t == OrElse
    ensures r ==> IsLogical(t) && NullableOperatorCast(t).Ok?
    ensures !r && IsLogical(t) ==> NullableOperatorCast(t) == NullableOperatorCast(if t == And then AndAlso else OrElse)
  {
    t == AndAlso || t == OrElse
  }

  /** PostgreSql and Oracle quote identifiers; the other four dialects do not. */
  function GetWithQuotationMarks(db: DataBaseType): (r: bool)
    ensures r <==> db in {PostgreSql, Oracle}
    ensures !r <==> db in {SqlServer, Access, MySql, Sqlite}
  {
    match db
    case PostgreSql => true
    case Oracle => true
    case _ => false
  }

  /** The string concatenation token used to build LIKE patterns. */
  function GetLikeConnectorWords(db: DataBaseType): (r: string)
    ensures r == "||" <==> db in {PostgreSql, Oracle, MySql, Sqlite}
    ensures r == "+" <==> db in {SqlServer, Access}
    ensures GetWithQuotationMarks(db) ==> r == "||"
    ensures NoBraces(r)
  {
    match db
    case PostgreSql => "||"
    case Oracle => "||"
    case MySql => "||"
    case Sqlite => "||"
    case _ => "+"
  }

  /** A chain of member accesses rooted at a lambda parameter: `a`, `a.Age`, `a.Age.Value`. */
  datatype Path = Param(name: string) | MemberAccess(target: Path, member: string)

  /** A MemberExpression: a path with at least one member access. */
  type MemberExpression = p: Path | p.MemberAccess? witness MemberAccess(Param("a"), "Id")

  /** `ToString()` of the path: the parameter and the member names joined by `.`. */
  function PathText(p: Path): string
  {
    match p
    case Param(n) => n
    case MemberAccess(t, m) => PathText(t) + "." + m
  }

  /** The parameter a path is rooted at. */
  function Root(p: Path): (r: Path)
    ensures r.Param?
  {
    match p
    case Param(_) => p
    case MemberAccess(t, _) => Root(t)
  }

  /** `q` is `p` or one of the accesses `p` is built on. */
  predicate IsPrefixPath(q: Path, p: Path)
  {
    q == p || (p.MemberAccess? && IsPrefixPath(q, p.target))
  }

  /** Peels member accesses while the target is itself a member access, so an
      optional's `.Value` is dropped: the result is the access made directly on
      the lambda parameter, which `node` is built on. Every deeper member is
      dropped too, not only `.Value`. */
  function GetOriginalExpression(node: MemberExpression): (r: MemberExpression)
    ensures r.target.Param? && r.target == Root(node)
    ensures IsPrefixPath(r, node)
  {
    if node.target.MemberAccess? then GetOriginalExpression(node.target) else node
  }

  /** Unwrapping twice is unwrapping once. */
  lemma GetOriginalExpressionIdempotent(node: MemberExpression)
    ensures GetOriginalExpression(GetOriginalExpression(node)) == GetOriginalExpression(node)
  {
  }

  /** `a.Age.Value` unwraps to `a.Age`; `a.Address.City` also unwraps to `a.Address`. */
  lemma GetOriginalExpressionExamples()
    ensures GetOriginalExpression(MemberAccess(MemberAccess(Param("a"), "Age"), "Value")) == MemberAccess(Param("a"), "Age")
    ensures GetOriginalExpression(MemberAccess(MemberAccess(Param("a"), "Address"), "City")) == MemberAccess(Param("a"), "Address")
  {
  }

  /** The quoted column reference: the whole path lower-cased, a `"` inserted
      after every `.`, and one `"` appended. The result holds one more `"` than
      the path holds `.` and `"` together, and exactly as many `.`. */
  function ToDatebaseField(mb: MemberExpression): (r: string)
    ensures |r| > 0 && r[|r| - 1] == '"'
    ensures CountChar(r, '"') == CountChar(PathText(mb), '.') + CountChar(PathText(mb), '"') + 1
    ensures CountChar(r, '.') == CountChar(PathText(mb), '.')
  {
    var lowered := Lower(PathText(mb));
    var replaced := Replace(lowered, ".", ".\"");
    CountLower(PathText(mb), '.');
    CountLower(PathText(mb), '"');
    ReplaceDotCounts(lowered);
    CountCharAppend(replaced, "\"", '"');
    CountCharAppend(replaced, "\"", '.');
    replaced + "\""
  }

  /** A member read directly on the parameter, `p.m` with no `.` in either
      name, becomes `p."m"` in lower case: the quote opens after the one dot
      and closes at the end. */
  lemma ToDatebaseFieldOneLevel(p: string, m: string)
    requires '.' !in p && '.' !in m
    ensures ToDatebaseField(MemberAccess(Param(p), m)) == Lower(p) + ".\"" + Lower(m) + "\""
  {
    OneLevelLower(p, m);
    LowerKeepsDot(p);
    LowerKeepsDot(m);
    OneLevelReplace(Lower(p), Lower(m));
  }

  lemma OneLevelLower(p: string, m: string)
    ensures Lower(PathText(MemberAccess(Param(p), m))) == Lower(p) + ("." + Lower(m))
  {
    assert PathText(MemberAccess(Param(p), m)) == p + ("." + m);
    LowerAppend(p, "." + m);
    LowerAppend(".", m);
    LowerDot();
  }

  lemma OneLevelReplace(lp: string, lm: string)
    requires '.' !in lp && '.' !in lm
    ensures Replace(lp + ("." + lm), ".", ".\"") + "\"" == lp + ".\"" + lm + "\""
  {
    ReplaceAfterAbsent(lp, "." + lm, ".", ".\"");
    ReplaceAt(lm, ".", ".\"");
    ReplaceAbsent(lm, ".", ".\"");
    Assoc(lp, ".\"", lm);
  }

  lemma LowerDot()
    ensures Lower(".") == "."
  {
  }

  /** `a.Name` becomes `a."name"`. */
  lemma ToDatebaseFieldExample()
    ensures ToDatebaseField(MemberAccess(Param("a"), "Name")) == "a.\"name\""
  {
    ToDatebaseFieldOneLevel("a", "Name");
    LowerWords();
  }

  lemma LowerWords()
    ensures Lower("a") == "a" && Lower("Name") == "name" && Lower("Id") == "id"
  {
  }
}
