/** `SqlGenerator`: what is done with a compiled predicate. Inline mode
    coerces every argument to SQL literal text in place and formats it into
    the condition; bound mode binds every argument as a parameter under a
    fresh name and writes the names into the condition; the selector form
    keeps the condition as it is. */
module SqlGenerator {
  import opened Strings
  import opened Common
  import opened Templates
  import opened SqlExpressionExtensions
  import opened ConditionBuilding
  import opened EntityHelper

  /** The keyword prefixes the inline coercion tests for, in its order, on the
      lower-cased and trimmed text of a string or character argument. */
  predicate IsKeywordText(t: string)
  {
    "in(" <= t || "not in(" <= t || " like '" <= t || "not like" <= t
  }

  /** The keyword prefixes that can match: trimmed text never starts with a space. */
  predicate IsLiveKeywordText(t: string)
  {
    "in(" <= t || "not in(" <= t || "not like" <= t
  }

  /** The `" like '"` test comes after `Trim` and so never matches. */
  lemma LikeTestIsDead(s: string)
    ensures !(" like '" <= Trim(Lower(s)))
    ensures IsKeywordText(Trim(Lower(s))) <==> IsLiveKeywordText(Trim(Lower(s)))
  {
  }

  /** The .NET value types the coercion writes bare: the integral kinds, bool,
      the floating and decimal kinds and any other struct. `DateTime` is a
      struct too, but its case comes first. */
  predicate IsBareValue(o: Obj)
  {
    o.Integer? || o.Boolean? || o.Real? || o.OtherValueType?
  }

  /** Single quotes around the text, with embedded quotes left as they are. */
  function Quote(text: string): string
  {
    "'" + text + "'"
  }

  /** A string or character argument: padded with spaces when it starts with
      a keyword, quoted otherwise. */
  function KeywordOrQuoted(text: string): Obj
  {
    if IsKeywordText(Trim(Lower(text))) then Str(" " + text + " ") else Str(Quote(text))
  }

  /** The switch in `GetWhereByLambda` for one argument. */
  function CoerceInline(o: Obj): (r: Obj)
    ensures r.DbNull? <==> o.Null?
    ensures !o.Null? ==> r.Str?
  {
    match o
    case Null => DbNull
    case Str(_) => KeywordOrQuoted(ObjText(o))
    case Char(_) => KeywordOrQuoted(ObjText(o))
    case DateTime(_) => Str(Quote(ObjText(o)))
    case Integer(_) => Str(ObjText(o))
    case Boolean(_) => Str(ObjText(o))
    case Real(_) => Str(ObjText(o))
    case OtherValueType(_) => Str(ObjText(o))
    case DbNull => Str(Quote(ObjText(o)))
    case Reference(_) => Str(Quote(ObjText(o)))
  }

  /** The coercion by kind: null becomes DBNull; value types become their bare
      text; strings and characters whose lower-cased, trimmed text starts with
      `in(`, `not in(` or `not like` are padded with one space on each side;
      every other string or character, dates, DBNull and other objects are put
      between single quotes. */
  lemma {:induction false} CoercionRules(o: Obj)
    ensures o.Null? ==> CoerceInline(o) == DbNull
    ensures IsBareValue(o) ==> CoerceInline(o) == Str(ObjText(o))
    ensures (o.Str? || o.Char?) ==> CoerceInline(o) == (if IsLiveKeywordText(Trim(Lower(ObjText(o)))) then Str(" " + ObjText(o) + " ") else Str(Quote(ObjText(o))))
    ensures (o.DateTime? || o.DbNull? || o.Reference?) ==> CoerceInline(o) == Str(Quote(ObjText(o)))
  {
    match o
    case Str(s) => TextCoercion(o, s);
    case Char(c) => TextCoercion(o, [c]);
    case _ =>
  }

  /** The string and character case of the coercion, on the argument's text. */
  lemma {:induction false} TextCoercion(o: Obj, text: string)
    requires (o.Str? || o.Char?) && text == ObjText(o)
    ensures CoerceInline(o) == if IsLiveKeywordText(Trim(Lower(text))) then Str(" " + text + " ") else Str(Quote(text))
  {
    assert CoerceInline(o) == KeywordOrQuoted(text);
    LikeTestIsDead(text);
  }

  /** Text that does not start with white space keeps its first character when trimmed. */
  lemma TrimKeepsFirst(t: string)
    requires |t| > 0 && !IsWhiteSpace(t[0])
    ensures |Trim(t)| > 0 && Trim(t)[0] == t[0]
  {
    assert TrimStart(t) == t;
  }

  /** A string argument that starts with a quote is copied between quotes as it
      is: its own quote closes the SQL literal, and the rest of it is read as SQL. */
  lemma {:induction false} QuoteNotEscaped(s: string)
    requires |s| > 0 && s[0] == '\''
    ensures CoerceInline(Str(s)) == Str("'" + s + "'")
  {
    var t := Lower(s);
    assert t[0] == '\'';
    TrimKeepsFirst(t);
    assert !IsKeywordText(Trim(t));
  }

  /** Every argument after the coercion loop. */
  function Coerced(args: seq<Obj>): seq<Obj>
  {
    seq(|args|, i requires 0 <= i < |args| => CoerceInline(args[i]))
  }

  /** What `string.Format` writes for each argument: its `ToString()`. */
  function Texts(args: seq<Obj>): seq<string>
  {
    seq(|args|, i requires 0 <= i < |args| => ObjText(args[i]))
  }

  /** The coercion loop of `GetWhereByLambda`: every slot is overwritten with
      its coerced value, and the length stays as it was. */
  method CoerceArguments(arguments: array<Obj>)
    modifies arguments
    ensures arguments[..] == Coerced(old(arguments[..]))
  {
    for i := 0 to arguments.Length
      invariant forall k :: 0 <= k < i ==> arguments[k] == CoerceInline(old(arguments[k]))
      invariant forall k :: i <= k < arguments.Length ==> arguments[k] == old(arguments[k])
    {
      arguments[i] := CoerceInline(arguments[i]);
    }
  }

  /** `GetWhereByLambda`: compile, coerce the arguments, and format them into
      the condition; a null condition is refused by `string.Format`. */
  function WhereByLambda(db: DataBaseType, e: Expr): (r: Result<string>)
    ensures Built(db, e).Err? ==> r == Err(Built(db, e).error)
    ensures Built(db, e).Ok? && Built(db, e).value.condition.None? ==> r == Err(ArgumentNull("format"))
    ensures r.Ok? ==>
      && Built(db, e).Ok? && Built(db, e).value.condition.Some?
      && HolesBelow(Built(db, e).value.condition.value, |Built(db, e).value.arguments|)
    ensures r.Err? && Built(db, e).Ok? && Built(db, e).value.condition.Some? ==> r.error.FormatError?
  {
    var c :- Built(db, e);
    if c.condition.None? then Err(ArgumentNull("format"))
    else Format(c.condition.value, Texts(Coerced(c.arguments)))
  }

  method GetWhereByLambda(db: DataBaseType, e: Expr) returns (r: Result<string>)
    ensures r == WhereByLambda(db, e)
  {
    var conditionBuilder := new ConditionBuilder(db);
    var outcome := conditionBuilder.Build(e);
    if outcome.Fail? {
      return Err(outcome.error);
    }
    CoerceArguments(conditionBuilder.Arguments);
    if conditionBuilder.Condition.None? {
      return Err(ArgumentNull("format"));
    }
    r := Format(conditionBuilder.Condition.value, Texts(conditionBuilder.Arguments[..]));
  }

  /** A null constant is a supported tree. */
  lemma {:induction false} NullLiteralSupported(e: Expr)
    requires IsNullLiteral(e)
    ensures Supported(e)
  {
    if e.Unary? {
      NullLiteralSupported(e.operand);
    }
  }

  /** Inline mode never fails on a supported tree that is not a null
      constant: the condition has one placeholder per argument, so the
      formatted text is the condition with each placeholder replaced by the
      text of its coerced argument. On a null constant it raises
      ArgumentNullException. */
  lemma {:induction false} InlineParity(db: DataBaseType, e: Expr)
    requires Supported(e)
    ensures Built(db, e).Ok? && Built(db, e).value.arguments == Args(e)
    ensures IsNullLiteral(e) ==> WhereByLambda(db, e) == Err(ArgumentNull("format"))
    ensures !IsNullLiteral(e) ==> Built(db, e).value.condition.Some?
    ensures !IsNullLiteral(e) ==>
      var cond := Built(db, e).value.condition.value;
      HolesBelow(cond, |Args(e)|) && WhereByLambda(db, e) == Ok(Substitute(cond, Texts(Coerced(Args(e)))))
  {
    BuildParity(db, e);
    var c := Built(db, e).value;
    if !IsNullLiteral(e) {
      FormatParity(c.condition.value, Texts(Coerced(c.arguments)));
    }
  }

  /** The result of `GetWhere`: the command text and the parameters. */
  datatype ExpressionModel = ExpressionModel(CmdText: string, Parameters: seq<DbParam>)

  /** The names drawn for n arguments when the generator has handed out `first` names. */
  function Names(prefix: string, first: nat, n: nat): seq<string>
  {
    seq(n, i requires 0 <= i < n => ParamName(prefix, first + i))
  }

  /** One parameter per argument, built by the parameter factory from its name and value. */
  function Bind(names: seq<string>, args: seq<Obj>): seq<DbParam>
    requires |names| == |args|
  {
    seq(|args|, i requires 0 <= i < |args| => DbParam(names[i], Scalar(args[i])))
  }

  /** `GetWhere`: compile, draw one name per argument, bind each argument under
      its name, and format the names into the condition. */
  function WhereBound(db: DataBaseType, e: Expr, prefix: string, first: nat): Result<ExpressionModel>
  {
    var c :- Built(db, e);
    BoundFrom(c, Names(prefix, first, |c.arguments|))
  }

  /** The bound-mode result for a compiled predicate and the names drawn for its arguments. */
  function BoundFrom(c: Compiled, names: seq<string>): Result<ExpressionModel>
    requires |names| == |c.arguments|
  {
    if c.condition.None? then Err(ArgumentNull("format"))
    else
      var cmdText :- Format(c.condition.value, names);
      Ok(ExpressionModel(cmdText, Bind(names, c.arguments)))
  }

  /** The loop of `GetWhere`: draws one name per argument and builds parameter
      i from name i and argument i. */
  method BindArguments(arguments: array<Obj>, index: ParamsIndex) returns (ps: array<DbParam>, indexs: array<string>)
    modifies index`issued
    ensures fresh(ps) && fresh(indexs)
    ensures index.issued == old(index.issued) + arguments.Length
    ensures indexs[..] == Names(index.prefix, old(index.issued), arguments.Length)
    ensures ps[..] == Bind(indexs[..], arguments[..])
  {
    var argumentsLength := arguments.Length;
    ps := new DbParam[argumentsLength];
    indexs := new string[argumentsLength];
    for i := 0 to argumentsLength
      invariant index.issued == old(index.issued) + i
      invariant forall k :: 0 <= k < i ==> indexs[k] == ParamName(index.prefix, old(index.issued) + k)
      invariant forall k :: 0 <= k < i ==> ps[k] == DbParam(indexs[k], Scalar(arguments[k]))
    {
      var name := index.Next();
      ps[i] := DbParam(name, Scalar(arguments[i]));
      indexs[i] := name;
    }
  }

  method GetWhere(db: DataBaseType, e: Expr, index: ParamsIndex) returns (r: Result<ExpressionModel>)
    modifies index`issued
    ensures r == WhereBound(db, e, index.prefix, old(index.issued))
    ensures index.issued == old(index.issued) + (if Built(db, e).Ok? then |Built(db, e).value.arguments| else 0)
  {
    var conditionBuilder := new ConditionBuilder(db);
    var outcome := conditionBuilder.Build(e);
    if outcome.Fail? {
      return Err(outcome.error);
    }
    ghost var c := Compiled(conditionBuilder.Condition, conditionBuilder.Arguments[..]);
    assert Built(db, e) == Ok(c);
    var ps, indexs := BindArguments(conditionBuilder.Arguments, index);
    if conditionBuilder.Condition.None? {
      return Err(ArgumentNull("format"));
    }
    var cmdText :- Format(conditionBuilder.Condition.value, indexs[..]);
    r := Ok(ExpressionModel(cmdText, ps[..]));
  }

  /** Substituting brace-free text into brace-free literals leaves no brace. */
  lemma {:induction false} SubstituteBraceFree(t: Template, args: seq<string>)
    requires HolesBelow(t, |args|) && LitsBraceFree(t)
    requires forall i :: 0 <= i < |args| ==> NoBraces(args[i])
    ensures NoBraces(Substitute(t, args))
  {
    if |t| > 0 {
      assert HolesBelow(t[1..], |args|) && LitsBraceFree(t[1..]) by {
        forall i | 0 <= i < |t[1..]| ensures t[1..][i] == t[i + 1] { }
      }
      SubstituteBraceFree(t[1..], args);
    }
  }

  /** Bound mode never fails on a supported tree that is not a null constant:
      it creates exactly one parameter per argument, parameter i carries
      argument i under the i-th name drawn, and the command text is the
      condition with placeholder i replaced by name i. */
  lemma {:induction false} BoundParity(db: DataBaseType, e: Expr, prefix: string, first: nat)
    requires Supported(e) && !IsNullLiteral(e)
    ensures Built(db, e).Ok? && Built(db, e).value.arguments == Args(e) && Built(db, e).value.condition.Some?
    ensures var cond := Built(db, e).value.condition.value;
      var names := Names(prefix, first, |Args(e)|);
      && HolesBelow(cond, |names|) && LitsBraceFree(cond)
      && WhereBound(db, e, prefix, first) == Ok(ExpressionModel(Substitute(cond, names), Bind(names, Args(e))))
  {
    BuildParity(db, e);
    var c := Built(db, e).value;
    FormatParity(c.condition.value, Names(prefix, first, |Args(e)|));
  }

  /** The names drawn one after another are pairwise distinct. */
  lemma {:induction false} NamesDistinct(prefix: string, first: nat, n: nat)
    ensures forall i, j :: 0 <= i < j < n ==> Names(prefix, first, n)[i] != Names(prefix, first, n)[j]
  {
    var names := Names(prefix, first, n);
    forall i, j | 0 <= i < j < n ensures names[i] != names[j] {
      if names[i] == names[j] {
        ParamNameInjective(prefix, first + i, first + j);
      }
    }
  }

  /** With a brace-free prefix, no placeholder is left in the bound command text. */
  lemma {:induction false} BoundLeavesNoPlaceholder(db: DataBaseType, e: Expr, prefix: string, first: nat)
    requires Supported(e) && !IsNullLiteral(e) && NoBraces(prefix)
    ensures WhereBound(db, e, prefix, first).Ok? && NoBraces(WhereBound(db, e, prefix, first).value.CmdText)
  {
    BoundParity(db, e, prefix, first);
    var names := Names(prefix, first, |Args(e)|);
    forall i | 0 <= i < |names| ensures NoBraces(names[i]) {
      ParamNameBraceFree(prefix, first + i);
    }
    SubstituteBraceFree(Built(db, e).value.condition.value, names);
  }

  /** `GetSelector`: the condition of the compiled selector, as rendered text;
      its arguments are dropped. */
  function GetSelector(db: DataBaseType, e: Expr): (r: Result<Option<string>>)
    ensures r.Ok? <==> Built(db, e).Ok?
    ensures r.Err? ==> r.error == Built(db, e).error
    ensures r.Ok? ==> (r.value.None? <==> Built(db, e).value.condition.None?)
  {
    var c :- Built(db, e);
    Ok(if c.condition.Some? then Some(Render(c.condition.value)) else None)
  }

  /** The selector of a property is its column: the unwrapped path, quoted and
      lower-cased when the dialect quotes identifiers. */
  lemma {:induction false} SelectorOfProperty(db: DataBaseType, m: MemberExpression)
    ensures GetSelector(db, Member(m, true)) == Ok(Some(
      if GetWithQuotationMarks(db) then ToDatebaseField(GetOriginalExpression(m)) else PathText(GetOriginalExpression(m))))
  {
    MemberVisit(db, m, VisitState([], []));
    TopOfPush([], Some(MemberFragment(db, m)));
  }

  /** A selector made of a field alone pushes nothing, so its condition is null. */
  lemma {:induction false} SelectorOfField(db: DataBaseType, m: MemberExpression)
    ensures GetSelector(db, Member(m, false)) == Ok(None)
  {
  }
}
