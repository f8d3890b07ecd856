/** The predicate compiler (src/Candy/SqlBuilder/ExpressionAnalysis/ConditionBuilder.cs):
    a post-order walk over an expression tree that keeps a stack of SQL
    fragments (a null entry stands for a null constant) and a growing list of
    constant arguments, and emits a fragment with a `{N}` placeholder per
    argument.

    `Compile` is the walk as a function on the builder's state; the class
    `ConditionBuilder` is the walk as the source runs it, pushing and popping
    its own fields, and each of its methods is proved to reach the state
    `Compile` describes. */
module ConditionBuilding {
  import opened Strings
  import opened Common
  import opened Templates
  import opened SqlExpressionExtensions

  /** The expression nodes the compiler meets in a lambda body once captured
      values have been folded into constants. */
  datatype Expr =
    | Binary(op: ExpressionType, left: Expr, right: Expr)
    | Constant(value: Obj)
    | Member(member: MemberExpression, isProperty: bool)   // isProperty: the member is a PropertyInfo
    | Call(methodName: string, obj: Option<Expr>, arg: Expr)  // obj is None for a static method
    | Unary(op: ExpressionType, operand: Expr)
    | Parameter(name: string)

  /** The fragment stack (its top is the last element) and the argument list. */
  datatype VisitState = VisitState(stack: seq<Option<Template>>, args: seq<Obj>)

  function Push(s: VisitState, f: Option<Template>): VisitState
  {
    VisitState(s.stack + [f], s.args)
  }

  /** `Stack<string>.Pop()`: the top entry and the rest, or InvalidOperation on an empty stack. */
  function Pop(s: VisitState): (r: Result<(Option<Template>, VisitState)>)
    ensures r.Ok? <==> |s.stack| > 0
    ensures r.Ok? ==> r.value.1.stack + [r.value.0] == s.stack && r.value.1.args == s.args
    ensures r.Err? ==> r.error == InvalidOperation("Stack empty.")
  {
    if |s.stack| == 0 then Err(InvalidOperation("Stack empty."))
    else Ok((s.stack[|s.stack| - 1], VisitState(s.stack[..|s.stack| - 1], s.args)))
  }

  /** The fragment a property member pushes: the unwrapped path, quoted when the dialect quotes. */
  function MemberFragment(db: DataBaseType, m: MemberExpression): (r: Template)
    ensures Holes(r) == []
    ensures NoBraces(PathText(m)) ==> LitsBraceFree(r)
    ensures Render(r) == if GetWithQuotationMarks(db) then ToDatebaseField(GetOriginalExpression(m))
                         else PathText(GetOriginalExpression(m))
  {
    var original := GetOriginalExpression(m);
    var text := if GetWithQuotationMarks(db) then ToDatebaseField(original) else PathText(original);
    assert NoBraces(PathText(m)) ==> NoBraces(text) by {
      if NoBraces(PathText(m)) {
        PathTextOfPrefix(original, m);
        if GetWithQuotationMarks(db) {
          assert NoBraces(Lower(PathText(original)));
        }
      }
    }
    assert Render([Lit(text)]) == text by { assert [Lit(text)][1..] == []; }
    assert Holes([Lit(text)]) == [] by { assert [Lit(text)][1..] == []; }
    [Lit(text)]
  }

  /** The text of a path is a prefix of the text of every path built on it. */
  lemma {:induction false} PathTextOfPrefix(q: Path, p: Path)
    requires IsPrefixPath(q, p)
    ensures PathText(q) <= PathText(p)
  {
    if q != p {
      PathTextOfPrefix(q, p.target);
    }
  }

  /** The fragment a binary node pushes, built from the popped left and right
      entries: the trimmed non-null side and the operator when one side is
      null, the trimmed sides around the operator otherwise, in brackets for
      AndAlso/OrElse. Both sides null dereferences null. */
  function CombineBinary(op: ExpressionType, left: Option<Template>, right: Option<Template>): (r: Result<Template>)
    ensures r.Ok? <==> NullableOperatorCast(op).Ok? && (left.Some? || right.Some?)
    ensures NullableOperatorCast(op).Err? ==> r == Err(NullableOperatorCast(op).error)
    ensures NullableOperatorCast(op).Ok? && left.None? && right.None? ==> r == Err(NullReference)
    ensures r.Ok? ==> Holes(r.value) == HolesOf(left) + HolesOf(right)
    ensures r.Ok? && BraceFreeOf(left) && BraceFreeOf(right) ==> LitsBraceFree(r.value)
  {
    CombineWith(NullableOperatorCast(op), IsBracketsExpressionType(op), left, right)
  }

  /** `CombineBinary` once the operator text (or the exception looking it up
      raised) and whether the node is bracketed are known. */
  function CombineWith(opr: Result<string>, brackets: bool, left: Option<Template>, right: Option<Template>)
    : (r: Result<Template>)
    ensures r.Ok? <==> opr.Ok? && (left.Some? || right.Some?)
    ensures opr.Err? ==> r == Err(opr.error)
    ensures opr.Ok? && left.None? && right.None? ==> r == Err(NullReference)
    ensures r.Ok? ==> Holes(r.value) == HolesOf(left) + HolesOf(right)
    ensures r.Ok? && BraceFreeOf(left) && BraceFreeOf(right) && NoBraces(opr.value) ==> LitsBraceFree(r.value)
  {
    if opr.Err? then Err(opr.error)
    else if left.None? then
      if right.None? then Err(NullReference) else Ok(Postfix(right.value, opr.value))
    else if right.None? then Ok(Postfix(left.value, opr.value))
    else if brackets then Ok(Bracketed(Infix(left.value, opr.value, right.value)))
    else Ok(Infix(left.value, opr.value, right.value))
  }

  /** The text a binary node pushes: `"<other side trimmed> <opr>"` when one side
      is null, `"<left trimmed> <opr> <right trimmed>"` when neither is, wrapped
      in brackets exactly for AndAlso/OrElse, where opr is the null-test
      operator table's entry even when both sides are present. */
  lemma {:induction false} CombineBinaryRender(op: ExpressionType, left: Option<Template>, right: Option<Template>)
    requires NullableOperatorCast(op).Ok? && (left.Some? || right.Some?)
    ensures var opr := NullableOperatorCast(op).value;
      var r := CombineBinary(op, left, right).value;
      && (left.None? ==> Render(r) == Trim(Render(right.value)) + " " + opr)
      && (left.Some? && right.None? ==> Render(r) == Trim(Render(left.value)) + " " + opr)
      && (left.Some? && right.Some? ==>
            var cond := Trim(Render(left.value)) + " " + opr + " " + Trim(Render(right.value));
            Render(r) == if IsBracketsExpressionType(op) then "(" + cond + ")" else cond)
  {
    var opr := NullableOperatorCast(op).value;
    if left.None? {
      assert CombineBinary(op, left, right) == Ok(Postfix(right.value, opr));
      PostfixText(right.value, opr);
    } else if right.None? {
      assert CombineBinary(op, left, right) == Ok(Postfix(left.value, opr));
      PostfixText(left.value, opr);
    } else if IsBracketsExpressionType(op) {
      assert CombineBinary(op, left, right) == Ok(Bracketed(Infix(left.value, opr, right.value)));
      InfixText(left.value, opr, right.value);
      BracketedText(Infix(left.value, opr, right.value));
    } else {
      assert CombineBinary(op, left, right) == Ok(Infix(left.value, opr, right.value));
      InfixText(left.value, opr, right.value);
    }
  }

  /** `string.Format("{0} {1}", side.Trim(), opr)`. */
  function Postfix(side: Template, opr: string): (r: Template)
    ensures Holes(r) == Holes(side)
    ensures LitsBraceFree(side) && NoBraces(opr) ==> LitsBraceFree(r)
  {
    PostfixFacts(side, opr);
    TrimT(side) + [Lit(" " + opr)]
  }

  lemma {:induction false} PostfixText(side: Template, opr: string)
    ensures Render(Postfix(side, opr)) == Trim(Render(side)) + " " + opr
  {
    PostfixFacts(side, opr);
  }

  lemma {:induction false} PostfixFacts(side: Template, opr: string)
    ensures var r := TrimT(side) + [Lit(" " + opr)];
      && Render(r) == Trim(Render(side)) + " " + opr
      && Holes(r) == Holes(side)
      && (LitsBraceFree(side) && NoBraces(opr) ==> LitsBraceFree(r))
  {
    RenderTrim(side);
    TrimKeeps(side);
    Tail(TrimT(side), " " + opr);
    Assoc(Trim(Render(side)), " ", opr);
  }

  /** `string.Format("{0} {1} {2}", left.Trim(), opr, right.Trim())`. */
  function Infix(left: Template, opr: string, right: Template): (r: Template)
    ensures Holes(r) == Holes(left) + Holes(right)
    ensures LitsBraceFree(left) && LitsBraceFree(right) && NoBraces(opr) ==> LitsBraceFree(r)
  {
    InfixFacts(left, opr, right);
    TrimT(left) + [Lit(" " + opr + " ")] + TrimT(right)
  }

  lemma {:induction false} InfixText(left: Template, opr: string, right: Template)
    ensures Render(Infix(left, opr, right)) == Trim(Render(left)) + " " + opr + " " + Trim(Render(right))
  {
    InfixRender(left, opr, right);
  }

  lemma {:induction false} InfixFacts(left: Template, opr: string, right: Template)
    ensures var r := TrimT(left) + [Lit(" " + opr + " ")] + TrimT(right);
      && Render(r) == Trim(Render(left)) + " " + opr + " " + Trim(Render(right))
      && Holes(r) == Holes(left) + Holes(right)
      && (LitsBraceFree(left) && LitsBraceFree(right) && NoBraces(opr) ==> LitsBraceFree(r))
  {
    InfixRender(left, opr, right);
    InfixHoles(left, opr, right);
    InfixBraces(left, opr, right);
  }

  lemma {:induction false} InfixRender(left: Template, opr: string, right: Template)
    ensures Render(TrimT(left) + [Lit(" " + opr + " ")] + TrimT(right))
      == Trim(Render(left)) + " " + opr + " " + Trim(Render(right))
  {
    var l, rt := TrimT(left), TrimT(right);
    RenderTrim(left);
    RenderTrim(right);
    var front := l + [Lit(" " + opr + " ")];
    Tail(l, " " + opr + " ");
    RenderAppend(front, rt);
    Spaced(Trim(Render(left)), opr, Trim(Render(right)));
  }

  lemma {:induction false} InfixHoles(left: Template, opr: string, right: Template)
    ensures Holes(TrimT(left) + [Lit(" " + opr + " ")] + TrimT(right)) == Holes(left) + Holes(right)
  {
    var l, rt := TrimT(left), TrimT(right);
    TrimKeeps(left);
    TrimKeeps(right);
    var front := l + [Lit(" " + opr + " ")];
    Tail(l, " " + opr + " ");
    HolesAppend(front, rt);
  }

  lemma {:induction false} InfixBraces(left: Template, opr: string, right: Template)
    ensures LitsBraceFree(left) && LitsBraceFree(right) && NoBraces(opr)
      ==> LitsBraceFree(TrimT(left) + [Lit(" " + opr + " ")] + TrimT(right))
  {
    var l, rt := TrimT(left), TrimT(right);
    TrimKeeps(left);
    TrimKeeps(right);
    var front := l + [Lit(" " + opr + " ")];
    Tail(l, " " + opr + " ");
    BraceFreeAppend(front, rt);
  }

  lemma {:induction false} Spaced(a: string, opr: string, b: string)
    ensures a + (" " + opr + " ") + b == a + " " + opr + " " + b
  {
  }


  /** `string.Concat('(', cond, ')')`. */
  function Bracketed(cond: Template): (r: Template)
    ensures Holes(r) == Holes(cond)
    ensures LitsBraceFree(cond) ==> LitsBraceFree(r)
  {
    Head("(", cond);
    Tail([Lit("(")] + cond, ")");
    BraceFreeAppend([Lit("(")], cond);
    [Lit("(")] + cond + [Lit(")")]
  }

  lemma {:induction false} BracketedText(cond: Template)
    ensures Render(Bracketed(cond)) == "(" + Render(cond) + ")"
  {
    Head("(", cond);
    Tail([Lit("(")] + cond, ")");
  }

  function HolesOf(f: Option<Template>): seq<nat>
  {
    if f.Some? then Holes(f.value) else []
  }

  predicate BraceFreeOf(f: Option<Template>)
  {
    f.Some? ==> LitsBraceFree(f.value)
  }

  /** Appending one literal token appends its text and no placeholder. */
  lemma {:induction false} Tail(t: Template, s: string)
    ensures Render(t + [Lit(s)]) == Render(t) + s
    ensures Holes(t + [Lit(s)]) == Holes(t)
    ensures NoBraces(s) && LitsBraceFree(t) ==> LitsBraceFree(t + [Lit(s)])
  {
    Append1(t, Lit(s));
    assert Holes(t) + [] == Holes(t);
  }

  /** Prepending one literal token prepends its text and no placeholder. */
  lemma {:induction false} Head(s: string, t: Template)
    ensures Render([Lit(s)] + t) == s + Render(t)
    ensures Holes([Lit(s)] + t) == Holes(t)
  {
    Prepend(Lit(s), t);
    assert [] + Holes(t) == Holes(t);
  }

  /** The format a supported method call is rendered with: LIKE patterns glued
      with the dialect's concatenation token on both sides of `{1}`, or the
      bracketed pair for Equals. Any other method is refused before its
      operands are visited. */
  function MethodFormat(db: DataBaseType, methodName: string): (r: Result<Template>)
    ensures r.Ok? <==> methodName in {"StartsWith", "Contains", "EndsWith", "Equals"}
    ensures r.Err? ==> r.error == NotSupported("Call is not supported!")
    ensures r.Ok? ==> Holes(r.value) == [0, 1] && HolesBelow(r.value, 2) && LitsBraceFree(r.value)
  {
    var cw := GetLikeConnectorWords(db);
    if methodName == "StartsWith" then Ok(LikeFormat(" LIKE ''", cw, "'%'"))
    else if methodName == "Contains" then Ok(LikeFormat(" LIKE '%'", cw, "'%'"))
    else if methodName == "EndsWith" then Ok(LikeFormat(" LIKE '%'", cw, "''"))
    else if methodName == "Equals" then Ok(PairFormat("(", " ", ")"))
    else Err(NotSupported("Call is not supported!"))
  }

  /** The text of each method's format: the LIKE patterns concatenate the
      argument with the dialect's connector, `Equals` is a bracketed pair. */
  lemma {:induction false} MethodFormatText(db: DataBaseType, methodName: string)
    requires MethodFormat(db, methodName).Ok?
    ensures var r := MethodFormat(db, methodName).value; var cw := GetLikeConnectorWords(db);
      && (methodName == "StartsWith" ==> Render(r) == "{0}" + " LIKE ''" + cw + "{1}" + cw + "'%'")
      && (methodName == "Contains" ==> Render(r) == "{0}" + " LIKE '%'" + cw + "{1}" + cw + "'%'")
      && (methodName == "EndsWith" ==> Render(r) == "{0}" + " LIKE '%'" + cw + "{1}" + cw + "''")
      && (methodName == "Equals" ==> Render(r) == "(" + "{0}" + " " + "{1}" + ")")
  {
    var cw := GetLikeConnectorWords(db);
    if methodName == "StartsWith" {
      LikeFormatText(" LIKE ''", cw, "'%'");
    } else if methodName == "Contains" {
      LikeFormatText(" LIKE '%'", cw, "'%'");
    } else if methodName == "EndsWith" {
      LikeFormatText(" LIKE '%'", cw, "''");
    } else {
      PairFormatText("(", " ", ")");
    }
  }

  /** `string.Concat("{0}" + like, cw, "{1}", cw, tail)`. */
  function LikeFormat(like: string, cw: string, tail: string): (r: Template)
    requires NoBraces(like) && NoBraces(cw) && NoBraces(tail)
    ensures Holes(r) == [0, 1] && HolesBelow(r, 2) && LitsBraceFree(r)
  {
    PairFormat("", like + cw, cw + tail)
  }

  lemma {:induction false} LikeFormatText(like: string, cw: string, tail: string)
    requires NoBraces(like) && NoBraces(cw) && NoBraces(tail)
    ensures Render(LikeFormat(like, cw, tail)) == "{0}" + like + cw + "{1}" + cw + tail
  {
    PairFormatText("", like + cw, cw + tail);
    LikeShape("{0}", like, cw, "{1}", tail);
  }

  lemma {:induction false} LikeShape(h0: string, like: string, cw: string, h1: string, tail: string)
    ensures "" + h0 + (like + cw) + h1 + (cw + tail) == h0 + like + cw + h1 + cw + tail
  {
    assert "" + h0 == h0;
    Assoc(h0, like, cw);
    Assoc(h0 + like + cw + h1, cw, tail);
  }

  /** head + `{0}` + middle + `{1}` + tail, as tokens. */
  function PairFormat(head: string, middle: string, tail: string): (r: Template)
    requires NoBraces(head) && NoBraces(middle) && NoBraces(tail)
    ensures Holes(r) == [0, 1] && HolesBelow(r, 2) && LitsBraceFree(r)
  {
    PairHoles(head, middle, tail);
    [Lit(head)] + ([Hole(0)] + ([Lit(middle)] + ([Hole(1)] + [Lit(tail)])))
  }

  lemma {:induction false} PairFormatText(head: string, middle: string, tail: string)
    requires NoBraces(head) && NoBraces(middle) && NoBraces(tail)
    ensures Render(PairFormat(head, middle, tail)) == head + "{0}" + middle + "{1}" + tail
  {
    PairRender(head, middle, tail);
  }

  lemma {:induction false} PairRender(head: string, middle: string, tail: string)
    ensures Render([Lit(head)] + ([Hole(0)] + ([Lit(middle)] + ([Hole(1)] + [Lit(tail)]))))
      == head + "{0}" + middle + "{1}" + tail
  {
    var t3 := [Hole(1)] + [Lit(tail)];
    var t2 := [Lit(middle)] + t3;
    var t1 := [Hole(0)] + t2;
    Single(Lit(tail));
    Prepend(Hole(1), [Lit(tail)]);
    Prepend(Lit(middle), t3);
    Prepend(Hole(0), t2);
    Prepend(Lit(head), t1);
    HoleTextSmall();
    Assoc5(head, "{0}", middle, "{1}", tail);
  }

  lemma {:induction false} PairHoles(head: string, middle: string, tail: string)
    requires NoBraces(head) && NoBraces(middle) && NoBraces(tail)
    ensures var r := [Lit(head)] + ([Hole(0)] + ([Lit(middle)] + ([Hole(1)] + [Lit(tail)])));
      Holes(r) == [0, 1] && HolesBelow(r, 2) && LitsBraceFree(r)
  {
    var t3 := [Hole(1)] + [Lit(tail)];
    var t2 := [Lit(middle)] + t3;
    var t1 := [Hole(0)] + t2;
    Single(Lit(tail));
    Prepend(Hole(1), [Lit(tail)]);
    Prepend(Lit(middle), t3);
    Prepend(Hole(0), t2);
    Prepend(Lit(head), t1);
    assert [] + ([0] + ([] + ([1] + []))) == Range(0, 2);
    HolesBelowOfRange([Lit(head)] + t1, 2);
  }

  lemma {:induction false} Assoc5(a: string, b: string, c: string, d: string, e: string)
    ensures a + (b + (c + (d + e))) == a + b + c + d + e
  {
    Assoc(d, e, []);
    Assoc(c, d, e);
    Assoc(b, c + d, e);
    Assoc(b, c, d);
    Assoc(a, b + c + d, e);
    Assoc(a, b + c, d);
    Assoc(a, b, c);
  }

  /** `string.Format` writes nothing for a null argument. */
  function OrEmptyT(f: Option<Template>): Template
  {
    if f.Some? then f.value else []
  }

  /** The walk: what visiting `e` does to the stack and the argument list, or
      the exception it raises. The argument list only grows, and only by
      non-null constants. */
  function Compile(db: DataBaseType, e: Expr, s: VisitState): (r: Result<VisitState>)
    ensures r.Ok? ==> s.args <= r.value.args
    ensures r.Ok? ==> forall k :: |s.args| <= k < |r.value.args| ==> !r.value.args[k].Null?
    decreases e
  {
    match e
    case Constant(v) =>
      if v.Null? then Ok(Push(s, None))
      else Ok(VisitState(s.stack + [Some([Hole(|s.args|)])], s.args + [v]))
    case Member(m, isProperty) =>
      if isProperty then Ok(Push(s, Some(MemberFragment(db, m)))) else Ok(s)
    case Parameter(_) => Ok(s)
    case Unary(_, x) => Compile(db, x, s)
    case Binary(op, l, rt) =>
      var s1 :- Compile(db, l, s);
      var s2 :- Compile(db, rt, s1);
      CombineTop(op, s2)
    case Call(name, obj, arg) =>
      var format :- MethodFormat(db, name);
      var s1 :- if obj.Some? then Compile(db, obj.value, s) else Ok(s);
      var s2 :- Compile(db, arg, s1);
      SpliceTop(format, s2)
  }

  /** The end of a binary step: pop the right then the left fragment and push
      their combination. */
  function CombineTop(op: ExpressionType, s: VisitState): Result<VisitState>
  {
    var popped :- PopTwo(s);
    var fragment :- CombineBinary(op, popped.0, popped.1);
    Ok(Push(popped.2, Some(fragment)))
  }

  /** Pops the right then the left entry: the left, the right and what is left
      of the state. */
  function PopTwo(s: VisitState): (r: Result<(Option<Template>, Option<Template>, VisitState)>)
    ensures r.Ok? <==> |s.stack| >= 2
    ensures r.Ok? ==> r.value.2.stack + [r.value.0] + [r.value.1] == s.stack && r.value.2.args == s.args
    ensures r.Err? ==> r.error == InvalidOperation("Stack empty.")
  {
    var right :- Pop(s);
    var left :- Pop(right.1);
    Ok((left.0, right.0, left.1))
  }

  lemma {:induction false} CombineTopIs(op: ExpressionType, s: VisitState, left: Option<Template>, right: Option<Template>,
                     rest: VisitState, opr: Result<string>, brackets: bool)
    requires PopTwo(s) == Ok((left, right, rest))
    requires opr == NullableOperatorCast(op) && brackets == IsBracketsExpressionType(op)
    ensures var f := CombineWith(opr, brackets, left, right);
      CombineTop(op, s) == if f.Err? then Err(f.error) else Ok(Push(rest, Some(f.value)))
  {
  }

  /** The end of a call step: pop the argument then the receiver fragment and
      push them spliced into the method's format. */
  function SpliceTop(format: Template, s: VisitState): Result<VisitState>
    requires HolesBelow(format, 2)
  {
    var popped :- PopTwo(s);
    Ok(Push(popped.2, Some(Splice(format, [OrEmptyT(popped.0), OrEmptyT(popped.1)]))))
  }

  /** A null constant, possibly under conversions. */
  predicate IsNullLiteral(e: Expr)
  {
    (e.Constant? && e.value.Null?) || (e.Unary? && IsNullLiteral(e.operand))
  }

  /** The trees made of binary nodes with a known operator and at most one
      null side, constants, property members with ordinary names and
      supported instance calls, under any conversions. */
  predicate Supported(e: Expr)
  {
    match e
    case Constant(_) => true
    case Member(m, isProperty) => isProperty && NoBraces(PathText(m))
    case Parameter(_) => false
    case Unary(_, x) => Supported(x)
    case Binary(op, l, rt) =>
      Supported(l) && Supported(rt) && NullableOperatorCast(op).Ok?
      && !(IsNullLiteral(l) && IsNullLiteral(rt))
    case Call(name, obj, arg) =>
      name in {"StartsWith", "Contains", "EndsWith", "Equals"}
      && obj.Some? && Supported(obj.value) && Supported(arg)
  }

  /** The non-null constants of a tree, left to right. */
  function Args(e: Expr): seq<Obj>
  {
    match e
    case Constant(v) => if v.Null? then [] else [v]
    case Member(_, _) => []
    case Parameter(_) => []
    case Unary(_, x) => Args(x)
    case Binary(_, l, rt) => Args(l) + Args(rt)
    case Call(_, obj, arg) => (if obj.Some? then Args(obj.value) else []) + Args(arg)
  }

  /** Visiting `e` took the walk from `s` to `r` by pushing exactly one entry
      (the null sentinel only for a null constant) and appending the tree's
      non-null constants; the pushed fragment holds the placeholders for
      exactly those arguments, each once and in increasing order, over
      brace-free text. */
  predicate PushesOne(e: Expr, s: VisitState, r: VisitState)
  {
    Pushed(s, r, Args(e), IsNullLiteral(e))
  }

  /** `PushesOne` for a visit that appended `added` and pushed the null
      sentinel exactly when `isNull`. */
  predicate Pushed(s: VisitState, r: VisitState, added: seq<Obj>, isNull: bool)
  {
    && |r.stack| == |s.stack| + 1 && r.stack[..|s.stack|] == s.stack
    && r.args == s.args + added
    && (r.stack[|s.stack|].None? <==> isNull)
    && HolesOf(r.stack[|s.stack|]) == Range(|s.args|, |s.args| + |added|)
    && BraceFreeOf(r.stack[|s.stack|])
  }

  /** On a supported tree the walk succeeds and pushes one entry as `PushesOne` says. */
  lemma {:induction false} CompileShape(db: DataBaseType, e: Expr, s: VisitState)
    requires Supported(e)
    ensures Compile(db, e, s).Ok? && PushesOne(e, s, Compile(db, e, s).value)
    decreases e, 1
  {
    match e
    case Constant(v) =>
      if v.Null? {
        assert (s.stack + [None])[..|s.stack|] == s.stack;
        assert s.args + Args(e) == s.args;
      } else {
        assert (s.stack + [Some([Hole(|s.args|)])])[..|s.stack|] == s.stack;
        assert Holes([Hole(|s.args|)]) == [|s.args|];
        assert Range(|s.args|, |s.args| + 1) == [|s.args|];
        assert LitsBraceFree([Hole(|s.args|)]);
      }
    case Member(m, _) =>
      assert (s.stack + [Some(MemberFragment(db, m))])[..|s.stack|] == s.stack;
      assert s.args + Args(e) == s.args;
    case Unary(_, x) =>
      CompileShape(db, x, s);
    case Binary(_, _, _) =>
      CompileShapeBinary(db, e, s);
    case Call(_, _, _) =>
      CompileShapeCall(db, e, s);
  }

  lemma {:induction false} PushedOne(e: Expr, s: VisitState, r: VisitState)
    requires PushesOne(e, s, r)
    ensures r.stack == s.stack + [r.stack[|s.stack|]]
  {
    assert r.stack == r.stack[..|s.stack|] + [r.stack[|s.stack|]];
  }

  /** Two pops after two pushes give back the pushed entries, top first. */
  lemma {:induction false} PopPushed(base: seq<Option<Template>>, left: Option<Template>, right: Option<Template>, args: seq<Obj>)
    ensures Pop(VisitState(base + [left] + [right], args)) == Ok((right, VisitState(base + [left], args)))
    ensures Pop(VisitState(base + [left], args)) == Ok((left, VisitState(base, args)))
    ensures PopTwo(VisitState(base + [left] + [right], args)) == Ok((left, right, VisitState(base, args)))
  {
    assert (base + [left] + [right])[..|base| + 1] == base + [left];
    assert (base + [left])[..|base|] == base;
  }

  lemma {:induction false} CompileShapeBinary(db: DataBaseType, e: Expr, s: VisitState)
    requires e.Binary? && Supported(e)
    ensures Compile(db, e, s).Ok? && PushesOne(e, s, Compile(db, e, s).value)
    decreases e, 0
  {
    CompileShape(db, e.left, s);
    var s1 := Compile(db, e.left, s).value;
    CompileShape(db, e.right, s1);
    var s2 := Compile(db, e.right, s1).value;
    PushedOne(e.left, s, s1);
    PushedOne(e.right, s1, s2);
    var left, right := s1.stack[|s.stack|], s2.stack[|s1.stack|];
    BinaryStep(db, e, s, s1, s2, left, right);
    BinaryShape(e, s, s1, s2);
  }

  /** The shape of a binary step, from the shapes of its operands. */
  lemma {:induction false} BinaryShape(e: Expr, s: VisitState, s1: VisitState, s2: VisitState)
    requires e.Binary? && Supported(e)
    requires PushesOne(e.left, s, s1) && PushesOne(e.right, s1, s2)
    ensures CombineBinary(e.op, s1.stack[|s.stack|], s2.stack[|s1.stack|]).Ok?
    ensures PushesOne(e, s, VisitState(s.stack + [Some(CombineBinary(e.op, s1.stack[|s.stack|], s2.stack[|s1.stack|]).value)], s2.args))
  {
    var left, right := s1.stack[|s.stack|], s2.stack[|s1.stack|];
    if left.None? {
      NullArgs(e.left);
    }
    if right.None? {
      NullArgs(e.right);
    }
    CombinedPushes(e, e.left, e.right, s, s1, s2, CombineBinary(e.op, left, right).value);
  }

  /** Pushing a fragment that holds the operands' placeholders, in order. */
  lemma {:induction false} CombinedPushes(e: Expr, l: Expr, rt: Expr, s: VisitState, s1: VisitState, s2: VisitState, fragment: Template)
    requires Args(e) == Args(l) + Args(rt) && !IsNullLiteral(e)
    requires PushesOne(l, s, s1) && PushesOne(rt, s1, s2)
    requires Holes(fragment) == HolesOf(s1.stack[|s.stack|]) + HolesOf(s2.stack[|s1.stack|])
    requires LitsBraceFree(fragment)
    ensures PushesOne(e, s, VisitState(s.stack + [Some(fragment)], s2.args))
  {
    PushedTwice(s, s1, s2, Args(l), Args(rt), IsNullLiteral(l), IsNullLiteral(rt), fragment);
  }

  lemma {:induction false} PushedTwice(s: VisitState, s1: VisitState, s2: VisitState, al: seq<Obj>, ar: seq<Obj>,
                    nl: bool, nr: bool, fragment: Template)
    requires Pushed(s, s1, al, nl) && Pushed(s1, s2, ar, nr)
    requires Holes(fragment) == HolesOf(s1.stack[|s.stack|]) + HolesOf(s2.stack[|s1.stack|])
    requires LitsBraceFree(fragment)
    ensures Pushed(s, VisitState(s.stack + [Some(fragment)], s2.args), al + ar, false)
  {
    var a := |s.args|;
    RangeAppend(a, a + |al|, a + |al| + |ar|);
    assert s2.args == s.args + (al + ar);
    assert (s.stack + [Some(fragment)])[..|s.stack|] == s.stack;
  }

  /** One binary step of the walk, once both operands have been visited. */
  lemma {:induction false} BinaryStep(db: DataBaseType, e: Expr, s: VisitState, s1: VisitState, s2: VisitState,
                   left: Option<Template>, right: Option<Template>)
    requires e.Binary? && Compile(db, e.left, s) == Ok(s1) && Compile(db, e.right, s1) == Ok(s2)
    requires s2.stack == s.stack + [left] + [right] && CombineBinary(e.op, left, right).Ok?
    ensures Compile(db, e, s) == Ok(VisitState(s.stack + [Some(CombineBinary(e.op, left, right).value)], s2.args))
  {
    PopPushed(s.stack, left, right, s2.args);
  }

  lemma {:induction false} CompileShapeCall(db: DataBaseType, e: Expr, s: VisitState)
    requires e.Call? && Supported(e)
    ensures Compile(db, e, s).Ok? && PushesOne(e, s, Compile(db, e, s).value)
    decreases e, 0
  {
    var obj := e.obj.value;
    CompileShape(db, obj, s);
    var s1 := Compile(db, obj, s).value;
    CompileShape(db, e.arg, s1);
    var s2 := Compile(db, e.arg, s1).value;
    PushedOne(obj, s, s1);
    PushedOne(e.arg, s1, s2);
    var left, right := s1.stack[|s.stack|], s2.stack[|s1.stack|];
    var format := MethodFormat(db, e.methodName).value;
    CallStep(db, e, s, s1, s2, left, right);
    SplicePair(format, left, right);
    CombinedPushes(e, obj, e.arg, s, s1, s2, Splice(format, [OrEmptyT(left), OrEmptyT(right)]));
  }

  /** One call step of the walk, once the receiver and the argument have been visited. */
  lemma {:induction false} CallStep(db: DataBaseType, e: Expr, s: VisitState, s1: VisitState, s2: VisitState,
                 left: Option<Template>, right: Option<Template>)
    requires e.Call? && e.obj.Some? && MethodFormat(db, e.methodName).Ok?
    requires Compile(db, e.obj.value, s) == Ok(s1) && Compile(db, e.arg, s1) == Ok(s2)
    requires s2.stack == s.stack + [left] + [right]
    ensures Compile(db, e, s)
      == Ok(VisitState(s.stack + [Some(Splice(MethodFormat(db, e.methodName).value, [OrEmptyT(left), OrEmptyT(right)]))], s2.args))
  {
    PopPushed(s.stack, left, right, s2.args);
  }

  /** Splicing two fragments into a two-placeholder format keeps their
      placeholders, the receiver's first. */
  lemma {:induction false} SplicePair(format: Template, left: Option<Template>, right: Option<Template>)
    requires Holes(format) == [0, 1] && HolesBelow(format, 2) && LitsBraceFree(format)
    requires BraceFreeOf(left) && BraceFreeOf(right)
    ensures Holes(Splice(format, [OrEmptyT(left), OrEmptyT(right)])) == HolesOf(left) + HolesOf(right)
    ensures LitsBraceFree(Splice(format, [OrEmptyT(left), OrEmptyT(right)]))
  {
    var parts := [OrEmptyT(left), OrEmptyT(right)];
    HolesSplice(format, parts);
    assert Gather([0, 1], parts) == Holes(parts[0]) + Holes(parts[1]) by {
      assert [0, 1][1..] == [1];
      assert [1][1..] == [];
      assert Gather([1], parts) == Holes(parts[1]) + Gather([], parts);
    }
    assert LitsBraceFree(parts[0]) && LitsBraceFree(parts[1]);
    SpliceBraceFree(format, parts);
  }

  /** A null literal contributes no argument. */
  lemma {:induction false} NullArgs(e: Expr)
    requires IsNullLiteral(e)
    ensures Args(e) == []
  {
    if e.Unary? {
      NullArgs(e.operand);
    }
  }

  /** The top of the stack, or null when it is empty. */
  function Top(stack: seq<Option<Template>>): Option<Template>
  {
    if |stack| > 0 then stack[|stack| - 1] else None
  }

  function DropTop(stack: seq<Option<Template>>): seq<Option<Template>>
  {
    if |stack| > 0 then stack[..|stack| - 1] else stack
  }

  /** What `Build` leaves in `Condition` and `Arguments` for a fresh builder. */
  datatype Compiled = Compiled(condition: Option<Template>, arguments: seq<Obj>)

  /** `Arguments` never holds a null: a null constant pushes the null entry instead. */
  function Built(db: DataBaseType, e: Expr): (r: Result<Compiled>)
    ensures r.Err? ==> Compile(db, e, VisitState([], [])).Err?
    ensures r.Ok? ==> forall k :: 0 <= k < |r.value.arguments| ==> !r.value.arguments[k].Null?
  {
    var s :- Compile(db, e, VisitState([], []));
    Ok(Compiled(Top(s.stack), s.args))
  }

  /** For a supported tree that is not a null constant, `Condition` is a
      fragment whose placeholders are exactly {0} .. {n-1}, each once and in
      increasing order, over brace-free text, where n is the number of
      `Arguments`: so `string.Format(Condition, a)` succeeds for every `a` of
      length n. A null constant leaves `Condition` null. */
  lemma {:induction false} BuildParity(db: DataBaseType, e: Expr)
    requires Supported(e)
    ensures Built(db, e).Ok?
    ensures var c := Built(db, e).value;
      && c.arguments == Args(e)
      && (c.condition.None? <==> IsNullLiteral(e))
      && (c.condition.Some? ==>
            Holes(c.condition.value) == Range(0, |c.arguments|) && LitsBraceFree(c.condition.value)
            && forall a: seq<string> | |a| == |c.arguments| :: Format(c.condition.value, a).Ok?)
  {
    CompileShape(db, e, VisitState([], []));
    var c := Built(db, e).value;
    if c.condition.Some? {
      forall a: seq<string> | |a| == |c.arguments| ensures Format(c.condition.value, a).Ok? {
        FormatParity(c.condition.value, a);
      }
    }
  }

  /** A non-property member (a field) pushes nothing, so the binary node above
      it pops the entry below, or fails on an empty stack. */
  lemma {:induction false} FieldPushesNothing(db: DataBaseType, m: MemberExpression, op: ExpressionType, v: Obj)
    requires !v.Null?
    ensures Compile(db, Member(m, false), VisitState([], [])) == Ok(VisitState([], []))
    ensures Compile(db, Binary(op, Member(m, false), Constant(v)), VisitState([], []))
      == Err(InvalidOperation("Stack empty."))
  {
    var s1 := VisitState([Some([Hole(0)])], [v]);
    assert [] + [Some([Hole(0)])] == [Some([Hole(0)])];
    assert [] + [v] == [v];
    assert Compile(db, Constant(v), VisitState([], [])) == Ok(s1);
    assert [Some([Hole(0)])][..0] == [];
    assert Pop(s1) == Ok((Some([Hole(0)]), VisitState([], [v])));
  }

  /** Two null sides fail with a null dereference once the operator is known. */
  lemma {:induction false} BothNullFails(db: DataBaseType, op: ExpressionType, s: VisitState)
    requires NullableOperatorCast(op).Ok?
    ensures Compile(db, Binary(op, Constant(Null), Constant(Null)), s) == Err(NullReference)
  {
    PopPushed(s.stack, None, None, s.args);
  }

  /** An unsupported method name fails before either operand is visited. */
  lemma {:induction false} UnsupportedCallVisitsNothing(db: DataBaseType, name: string, obj: Option<Expr>, arg: Expr, s: VisitState)
    requires name !in {"StartsWith", "Contains", "EndsWith", "Equals"}
    ensures Compile(db, Call(name, obj, arg), s) == Err(NotSupported("Call is not supported!"))
  {
  }

  /** A conversion or negation node is walked through: `!x.Flag` compiles as `x.Flag`. */
  lemma {:induction false} UnaryIsTransparent(db: DataBaseType, op: ExpressionType, x: Expr, s: VisitState)
    ensures Compile(db, Unary(op, x), s) == Compile(db, x, s)
  {
  }

  /** The entry a constant pushes when the argument list holds `n` entries. */
  function ConstantFragment(v: Obj, n: nat): Option<Template>
  {
    if v.Null? then None else Some([Hole(n)])
  }

  /** `m <op> v` for a property member and a constant: the member's column and
      the constant's placeholder (or nothing, for null) combined by the operator. */
  lemma {:induction false} MemberComparison(db: DataBaseType, op: ExpressionType, m: MemberExpression, v: Obj, s: VisitState)
    requires CombineBinary(op, Some(MemberFragment(db, m)), ConstantFragment(v, |s.args|)).Ok?
    ensures Compile(db, Binary(op, Member(m, true), Constant(v)), s)
      == Ok(Push(VisitState(s.stack, s.args + Args(Constant(v))),
                 Some(CombineBinary(op, Some(MemberFragment(db, m)), ConstantFragment(v, |s.args|)).value)))
  {
    if v.Null? {
      MemberNullComparison(db, op, m, s);
      EmptyAppend(s.args);
    } else {
      MemberValueComparison(db, op, m, v, s);
    }
  }

  lemma {:induction false} MemberNullComparison(db: DataBaseType, op: ExpressionType, m: MemberExpression, s: VisitState)
    requires CombineBinary(op, Some(MemberFragment(db, m)), None).Ok?
    ensures Compile(db, Binary(op, Member(m, true), Constant(Null)), s)
      == Ok(Push(s, Some(CombineBinary(op, Some(MemberFragment(db, m)), None).value)))
  {
    var mf := Some(MemberFragment(db, m));
    var s1 := Push(s, mf);
    var s2 := Push(s1, None);
    MemberVisit(db, m, s);
    ConstantVisit(db, Null, s1);
    BinaryStep(db, Binary(op, Member(m, true), Constant(Null)), s, s1, s2, mf, None);
  }

  lemma {:induction false} MemberValueComparison(db: DataBaseType, op: ExpressionType, m: MemberExpression, v: Obj, s: VisitState)
    requires !v.Null? && CombineBinary(op, Some(MemberFragment(db, m)), Some([Hole(|s.args|)])).Ok?
    ensures Compile(db, Binary(op, Member(m, true), Constant(v)), s)
      == Ok(VisitState(s.stack + [Some(CombineBinary(op, Some(MemberFragment(db, m)), Some([Hole(|s.args|)])).value)],
                       s.args + [v]))
  {
    var mf := Some(MemberFragment(db, m));
    var s1 := Push(s, mf);
    var s2 := VisitState(s1.stack + [Some([Hole(|s.args|)])], s.args + [v]);
    MemberVisit(db, m, s);
    ConstantVisit(db, v, s1);
    BinaryStep(db, Binary(op, Member(m, true), Constant(v)), s, s1, s2, mf, Some([Hole(|s.args|)]));
  }

  lemma {:induction false} MemberVisit(db: DataBaseType, m: MemberExpression, s: VisitState)
    ensures Compile(db, Member(m, true), s) == Ok(Push(s, Some(MemberFragment(db, m))))
  {
  }

  lemma {:induction false} ConstantVisit(db: DataBaseType, v: Obj, s: VisitState)
    ensures Compile(db, Constant(v), s)
      == Ok(if v.Null? then Push(s, None) else VisitState(s.stack + [Some([Hole(|s.args|)])], s.args + [v]))
  {
  }

  /** `Build` on `m <op> v` alone: the combined fragment and the constant's argument. */
  lemma {:induction false} MemberComparisonBuilt(db: DataBaseType, op: ExpressionType, m: MemberExpression, v: Obj)
    requires CombineBinary(op, Some(MemberFragment(db, m)), ConstantFragment(v, 0)).Ok?
    ensures Built(db, Binary(op, Member(m, true), Constant(v)))
      == Ok(Compiled(Some(CombineBinary(op, Some(MemberFragment(db, m)), ConstantFragment(v, 0)).value), Args(Constant(v))))
  {
    var f := CombineBinary(op, Some(MemberFragment(db, m)), ConstantFragment(v, 0)).value;
    var s := Push(VisitState([], [] + Args(Constant(v))), Some(f));
    MemberComparison(db, op, m, v, VisitState([], []));
    BuiltOf(db, Binary(op, Member(m, true), Constant(v)), s);
    EmptyAppend(Args(Constant(v)));
    TopOfPush([], Some(f));
  }

  lemma {:induction false} BuiltOf(db: DataBaseType, e: Expr, s: VisitState)
    requires Compile(db, e, VisitState([], [])) == Ok(s)
    ensures Built(db, e) == Ok(Compiled(Top(s.stack), s.args))
  {
  }

  lemma {:induction false} TopOfPush(stack: seq<Option<Template>>, f: Option<Template>)
    ensures Top(stack + [f]) == f
  {
  }

  /** The placeholder `{0}` is its own trim. */
  lemma {:induction false} HoleZero()
    ensures Trim(Render([Hole(0)])) == "{0}"
  {
    Single(Hole(0));
    HoleTrimmed(0);
    HoleTextSmall();
  }

  /** `x.Id == 3` compiles to `x."id" IS NULL {0}` under PostgreSql: an
      equality between a property and a non-null constant still takes its
      operator from the null-test table. */
  lemma {:induction false} EqualRendersIsNull(db: DataBaseType, m: MemberExpression, v: Obj)
    requires !v.Null?
    ensures var c := Built(db, Binary(Equal, Member(m, true), Constant(v)));
      && c.Ok? && c.value.condition.Some? && c.value.arguments == [v]
      && Render(c.value.condition.value) == Trim(Render(MemberFragment(db, m))) + " " + "IS NULL" + " " + "{0}"
  {
    ValueComparisonBuilt(db, Equal, m, v);
    ComparisonText(Equal, MemberFragment(db, m));
  }

  lemma {:induction false} ValueComparisonBuilt(db: DataBaseType, op: ExpressionType, m: MemberExpression, v: Obj)
    requires !v.Null? && NullableOperatorCast(op).Ok?
    ensures Built(db, Binary(op, Member(m, true), Constant(v)))
      == Ok(Compiled(Some(CombineBinary(op, Some(MemberFragment(db, m)), Some([Hole(0)])).value), [v]))
  {
    var f := CombineBinary(op, Some(MemberFragment(db, m)), Some([Hole(0)])).value;
    MemberValueComparison(db, op, m, v, VisitState([], []));
    EmptyAppend([Some(f)]);
    EmptyAppend([v]);
    BuiltOf(db, Binary(op, Member(m, true), Constant(v)), VisitState([Some(f)], [v]));
    TopOfPush([], Some(f));
  }

  lemma {:induction false} NotNullBuilt(db: DataBaseType, m: MemberExpression)
    ensures Built(db, Binary(NotEqual, Member(m, true), Constant(Null)))
      == Ok(Compiled(Some(CombineBinary(NotEqual, Some(MemberFragment(db, m)), None).value), []))
  {
    var f := CombineBinary(NotEqual, Some(MemberFragment(db, m)), None).value;
    NotNullCompiles(db, m);
    BuiltOf(db, Binary(NotEqual, Member(m, true), Constant(Null)), VisitState([Some(f)], []));
    EmptyAppend([Some(f)]);
    TopOfPush([], Some(f));
  }

  /** A property compared with the first argument: the trimmed column, the
      operator and the placeholder `{0}`, space-separated. */
  lemma {:induction false} ComparisonText(op: ExpressionType, field: Template)
    requires NullableOperatorCast(op).Ok? && !IsBracketsExpressionType(op)
    ensures Render(CombineBinary(op, Some(field), Some([Hole(0)])).value)
      == Trim(Render(field)) + " " + NullableOperatorCast(op).value + " " + "{0}"
  {
    HoleZero();
    CombineBinaryRender(op, Some(field), Some([Hole(0)]));
  }

  /** `a.Name != null` compiles to `a."name" IS NOT NULL` under PostgreSql,
      with no argument and no placeholder. */
  lemma {:induction false} NotEqualNullRendersIsNotNull(db: DataBaseType, m: MemberExpression)
    ensures var c := Built(db, Binary(NotEqual, Member(m, true), Constant(Null)));
      && c.Ok? && c.value.condition.Some? && c.value.arguments == []
      && Render(c.value.condition.value) == Trim(Render(MemberFragment(db, m))) + " " + "IS NOT NULL"
      && Holes(c.value.condition.value) == []
  {
    var field := MemberFragment(db, m);
    NotNullBuilt(db, m);
    NotNullText(field, Trim(Render(field)) + " " + "IS NOT NULL");
  }

  /** Under PostgreSql, `a => a.Name != null && a.Id > 2` compiles to
      `(a."name" IS NOT NULL AND a."id" > {0})` with the one argument 2. */
  lemma {:induction false} NameNotNullAndIdExample()
    ensures var c := Built(PostgreSql,
        Binary(AndAlso,
          Binary(NotEqual, Member(NameMember, true), Constant(Null)),
          Binary(GreaterThan, Member(AgeIdMember, true), Constant(Integer(2)))));
      && c.Ok? && c.value.condition.Some? && c.value.arguments == [Integer(2)]
      && Render(c.value.condition.value)
        == "(" + "a.\"name\"" + " " + "IS NOT NULL" + " " + "AND" + " " + "a.\"id\"" + " " + ">" + " " + "{0}" + ")"
  {
    var c1, c2 := "a.\"name\"", "a.\"id\"";
    GreaterThanOperator();
    NotNullAndCompare(PostgreSql, NameMember, GreaterThan, AgeIdMember, Integer(2));
    NameColumn();
    AgeIdColumn();
    ColumnsTrimmed(c1, c2);
    FlatJoin("(", c1, " ", "IS NOT NULL", "AND", c2, ">", "{0}", ")");
  }

  const NameMember: MemberExpression := MemberAccess(Param("a"), "Name")
  const AgeIdMember: MemberExpression := MemberAccess(Param("a"), "Id")

  lemma {:induction false} GreaterThanOperator()
    ensures NullableOperatorCast(GreaterThan) == Ok(">")
  {
  }

  lemma {:induction false} NameColumn()
    ensures Render(MemberFragment(PostgreSql, NameMember)) == "a.\"name\""
  {
    assert GetOriginalExpression(NameMember) == NameMember;
    ToDatebaseFieldExample();
  }

  lemma {:induction false} AgeIdColumn()
    ensures Render(MemberFragment(PostgreSql, AgeIdMember)) == "a.\"id\""
  {
    assert GetOriginalExpression(AgeIdMember) == AgeIdMember;
    ToDatebaseFieldOneLevel("a", "Id");
    LowerWords();
  }

  /** Re-associates the rendered conjunction into one flat concatenation. */
  lemma {:induction false} FlatJoin(p: string, c1: string, sp: string, n: string, a: string,
                                    c2: string, g: string, z: string, q: string)
    ensures p + ((c1 + sp + n) + sp + a + sp + (c2 + sp + g + sp + z)) + q
      == p + c1 + sp + n + sp + a + sp + c2 + sp + g + sp + z + q
  {
    var x := c1 + sp + n;
    var w := x + sp + a + sp;
    var v := p + c1 + sp + n + sp + a + sp;
    Assoc(p, c1 + sp, n);
    Assoc(p, c1, sp);
    Assoc(p, x, sp);
    Assoc(p, x + sp, a);
    Assoc(p, x + sp + a, sp);
    assert p + w == v;
    Assoc(p, w, c2 + sp + g + sp + z);
    Assoc(v, c2 + sp + g + sp, z);
    Assoc(v, c2 + sp + g, sp);
    Assoc(v, c2 + sp, g);
    Assoc(v, c2, sp);
  }

  lemma {:induction false} ColumnsTrimmed(c1: string, c2: string)
    requires c1 == "a.\"name\"" && c2 == "a.\"id\""
    ensures Trim(c1) == c1 && Trim(c2) == c2
    ensures Trim(c1 + " " + "IS NOT NULL") == c1 + " " + "IS NOT NULL"
    ensures Trim(c2 + " " + ">" + " " + "{0}") == c2 + " " + ">" + " " + "{0}"
  {
    TrimmedWith(c1, " " + "IS NOT NULL");
    TrimmedWith(c2, " " + ">" + " " + "{0}");
    Assoc(c1, " ", "IS NOT NULL");
    Assoc(c2, " " + ">" + " ", "{0}");
    Assoc(c2, " " + ">", " ");
    Assoc(c2, " ", ">");
  }

  /** A word without surrounding white space, followed by a suffix that does
      not end in white space, is already trimmed. */
  lemma {:induction false} TrimmedWith(c: string, w: string)
    requires |c| > 0 && !IsWhiteSpace(c[0]) && !IsWhiteSpace(c[|c| - 1])
    requires |w| > 0 && !IsWhiteSpace(w[|w| - 1])
    ensures Trim(c) == c && Trim(c + w) == c + w
  {
    TrimmedAlready(c);
    TrimmedAlready(c + w);
  }

  /** `m1 != null && m2 <op> v` for property members, a comparison or
      arithmetic `op` and a non-null constant `v`: both sides trimmed, joined
      by AND inside brackets, with `v` the one argument and `{0}` its
      placeholder. */
  lemma {:induction false} NotNullAndCompare(db: DataBaseType, m1: MemberExpression, op: ExpressionType, m2: MemberExpression, v: Obj)
    requires !v.Null? && NullableOperatorCast(op).Ok? && !IsBracketsExpressionType(op)
    ensures var c := Built(db,
        Binary(AndAlso,
          Binary(NotEqual, Member(m1, true), Constant(Null)),
          Binary(op, Member(m2, true), Constant(v))));
      && c.Ok? && c.value.condition.Some? && c.value.arguments == [v]
      && Render(c.value.condition.value)
        == "(" + (Trim(Trim(Render(MemberFragment(db, m1))) + " " + "IS NOT NULL") + " " + "AND" + " "
                  + Trim(Trim(Render(MemberFragment(db, m2))) + " " + NullableOperatorCast(op).value + " " + "{0}")) + ")"
  {
    NotNullAndCompareBuilt(db, m1, op, m2, v);
    NotNullAndCompareRender(MemberFragment(db, m1), op, MemberFragment(db, m2));
  }

  /** The conjunction's fragment over two columns. */
  function NotNullAndCompareFragment(f1: Template, op: ExpressionType, f2: Template): Template
    requires NullableOperatorCast(op).Ok?
  {
    CombineBinary(AndAlso,
      Some(CombineBinary(NotEqual, Some(f1), None).value),
      Some(CombineBinary(op, Some(f2), Some([Hole(0)])).value)).value
  }

  lemma {:induction false} NotNullAndCompareBuilt(db: DataBaseType, m1: MemberExpression, op: ExpressionType, m2: MemberExpression, v: Obj)
    requires !v.Null? && NullableOperatorCast(op).Ok?
    ensures Built(db,
        Binary(AndAlso,
          Binary(NotEqual, Member(m1, true), Constant(Null)),
          Binary(op, Member(m2, true), Constant(v))))
      == Ok(Compiled(Some(NotNullAndCompareFragment(MemberFragment(db, m1), op, MemberFragment(db, m2))), [v]))
  {
    var lf := CombineBinary(NotEqual, Some(MemberFragment(db, m1)), None).value;
    NotNullCompiles(db, m1);
    CompareCompiles(db, op, m2, v, lf);
    ConjunctionBuilt(db, Binary(NotEqual, Member(m1, true), Constant(Null)), Binary(op, Member(m2, true), Constant(v)),
      lf, CombineBinary(op, Some(MemberFragment(db, m2)), Some([Hole(0)])).value, [v]);
  }

  /** `Build` of `l && r` when `l` alone pushes `lf` and `r` then pushes `rf`. */
  lemma {:induction false} ConjunctionBuilt(db: DataBaseType, l: Expr, r: Expr, lf: Template, rf: Template, args: seq<Obj>)
    requires Compile(db, l, VisitState([], [])) == Ok(VisitState([Some(lf)], []))
    requires Compile(db, r, VisitState([Some(lf)], [])) == Ok(VisitState([Some(lf), Some(rf)], args))
    ensures Built(db, Binary(AndAlso, l, r)) == Ok(Compiled(Some(CombineBinary(AndAlso, Some(lf), Some(rf)).value), args))
  {
    var e := Binary(AndAlso, l, r);
    var c := CombineBinary(AndAlso, Some(lf), Some(rf));
    AndAlsoCombines(Some(lf), Some(rf));
    PairDisplay(Some(lf), Some(rf));
    BinaryStep(db, e, VisitState([], []), VisitState([Some(lf)], []), VisitState([Some(lf), Some(rf)], args), Some(lf), Some(rf));
    EmptyAppend([Some(c.value)]);
    BuiltOf(db, e, VisitState([Some(c.value)], args));
    TopOfPush([], Some(c.value));
  }

  lemma {:induction false} AndAlsoCombines(left: Option<Template>, right: Option<Template>)
    requires left.Some?
    ensures CombineBinary(AndAlso, left, right).Ok?
  {
    assert NullableOperatorCast(AndAlso) == Ok("AND");
  }

  lemma {:induction false} NotNullCompiles(db: DataBaseType, m: MemberExpression)
    ensures Compile(db, Binary(NotEqual, Member(m, true), Constant(Null)), VisitState([], []))
      == Ok(VisitState([Some(CombineBinary(NotEqual, Some(MemberFragment(db, m)), None).value)], []))
  {
    var lf := CombineBinary(NotEqual, Some(MemberFragment(db, m)), None).value;
    MemberNullComparison(db, NotEqual, m, VisitState([], []));
    EmptyAppend([Some(lf)]);
  }

  lemma {:induction false} CompareCompiles(db: DataBaseType, op: ExpressionType, m: MemberExpression, v: Obj, lf: Template)
    requires !v.Null? && NullableOperatorCast(op).Ok?
    ensures Compile(db, Binary(op, Member(m, true), Constant(v)), VisitState([Some(lf)], []))
      == Ok(VisitState([Some(lf), Some(CombineBinary(op, Some(MemberFragment(db, m)), Some([Hole(0)])).value)], [v]))
  {
    var rf := CombineBinary(op, Some(MemberFragment(db, m)), Some([Hole(0)])).value;
    MemberValueComparison(db, op, m, v, VisitState([Some(lf)], []));
    PairDisplay(Some(lf), Some(rf));
    EmptyAppend([v]);
  }

  lemma {:induction false} NotNullAndCompareRender(f1: Template, op: ExpressionType, f2: Template)
    requires NullableOperatorCast(op).Ok? && !IsBracketsExpressionType(op)
    ensures Render(NotNullAndCompareFragment(f1, op, f2))
      == "(" + (Trim(Trim(Render(f1)) + " " + "IS NOT NULL") + " " + "AND" + " "
                + Trim(Trim(Render(f2)) + " " + NullableOperatorCast(op).value + " " + "{0}")) + ")"
  {
    var lt := Trim(Render(f1)) + " " + "IS NOT NULL";
    var rt := Trim(Render(f2)) + " " + NullableOperatorCast(op).value + " " + "{0}";
    NotNullText(f1, lt);
    ComparisonText(op, f2);
    AndText(CombineBinary(NotEqual, Some(f1), None).value,
            CombineBinary(op, Some(f2), Some([Hole(0)])).value, lt, rt);
  }

  lemma {:induction false} NotNullText(f1: Template, lt: string)
    requires lt == Trim(Render(f1)) + " " + "IS NOT NULL"
    ensures Render(CombineBinary(NotEqual, Some(f1), None).value) == lt
  {
    CombineBinaryRender(NotEqual, Some(f1), None);
  }

  lemma {:induction false} AndText(lf: Template, rf: Template, lt: string, rt: string)
    requires Render(lf) == lt && Render(rf) == rt
    ensures Render(CombineBinary(AndAlso, Some(lf), Some(rf)).value) == "(" + (Trim(lt) + " " + "AND" + " " + Trim(rt)) + ")"
  {
    AndRender(lf, rf);
  }

  lemma {:induction false} AndRender(left: Template, right: Template)
    ensures Render(CombineBinary(AndAlso, Some(left), Some(right)).value)
      == "(" + (Trim(Render(left)) + " " + "AND" + " " + Trim(Render(right))) + ")"
  {
    CombineBinaryRender(AndAlso, Some(left), Some(right));
  }

  /** `AddQuotationMarks`: the empty text for a null or empty input, otherwise
      the trimmed input between double quotes (so white space alone gives `""`). */
  function AddQuotationMarks(str: Option<string>): (r: string)
    ensures r == "" <==> str.None? || str.value == ""
    ensures r != "" ==> |r| >= 2 && r[0] == '"' && r[|r| - 1] == '"' && r[1..|r| - 1] == Trim(str.value)
  {
    if str.None? || str.value == "" then "" else "\"" + Trim(str.value) + "\""
  }

  /** The compiler object: the dialect it was built for, its fragment stack and
      argument list, and the `Condition` and `Arguments` that `Build` publishes. */
  class ConditionBuilder {
    const dataBaseType: DataBaseType
    const ifWithQuotationMarks: bool
    var arguments: seq<Obj>
    var conditionParts: seq<Option<Template>>
    var Condition: Option<Template>
    var Arguments: array?<Obj>

    predicate Valid()
    {
      ifWithQuotationMarks == GetWithQuotationMarks(dataBaseType)
    }

    function State(): VisitState
      reads this
    {
      VisitState(conditionParts, arguments)
    }

    /** The method finished as `r` says: with the state it gives, or raising its exception. */
    predicate Reached(outcome: Outcome, r: Result<VisitState>)
      reads this
    {
      if r.Ok? then outcome == Pass && State() == r.value else outcome == Fail(r.error)
    }

    constructor (db: DataBaseType)
      ensures Valid() && dataBaseType == db
      ensures arguments == [] && conditionParts == [] && Condition.None? && Arguments == null
    {
      dataBaseType := db;
      ifWithQuotationMarks := GetWithQuotationMarks(db);
      arguments := [];
      conditionParts := [];
      Condition := None;
      Arguments := null;
    }

    method PopPart() returns (outcome: Outcome, top: Option<Template>)
      modifies this`conditionParts
      ensures var r := Pop(old(State()));
        if r.Ok? then outcome == Pass && top == r.value.0 && State() == r.value.1
        else outcome == Fail(r.error) && State() == old(State())
    {
      if |conditionParts| == 0 {
        outcome, top := Fail(InvalidOperation("Stack empty.")), None;
      } else {
        top := conditionParts[|conditionParts| - 1];
        conditionParts := conditionParts[..|conditionParts| - 1];
        outcome := Pass;
      }
    }

    /** Pops the right entry, then the left one. */
    method PopPair() returns (outcome: Outcome, left: Option<Template>, right: Option<Template>)
      modifies this`conditionParts
      ensures var r := PopTwo(old(State()));
        if r.Ok? then outcome == Pass && left == r.value.0 && right == r.value.1 && State() == r.value.2
        else outcome == Fail(r.error)
    {
      outcome, right := PopPart();
      if outcome.Fail? {
        left := None;
        return;
      }
      outcome, left := PopPart();
    }

    method Visit(e: Expr) returns (outcome: Outcome)
      requires Valid()
      modifies this`conditionParts, this`arguments
      ensures Reached(outcome, Compile(dataBaseType, e, old(State())))
      decreases e, 1
    {
      match e
      case Binary(_, _, _) => outcome := VisitBinary(e);
      case Constant(_) => outcome := VisitConstant(e);
      case Member(_, _) => outcome := VisitMember(e);
      case Call(_, _, _) => outcome := VisitMethodCall(e);
      case Unary(_, x) => outcome := Visit(x);
      case Parameter(_) => outcome := Pass;
    }

    /** A null constant pushes the null sentinel; any other appends itself to
        the arguments and pushes the placeholder `{N}`, N the count before. */
    method VisitConstant(e: Expr) returns (outcome: Outcome)
      requires e.Constant?
      modifies this`conditionParts, this`arguments
      ensures outcome == Pass
      ensures e.value.Null? ==> conditionParts == old(conditionParts) + [None] && arguments == old(arguments)
      ensures !e.value.Null? ==> (arguments == old(arguments) + [e.value]
        && conditionParts == old(conditionParts) + [Some([Hole(|old(arguments)|)])])
      ensures Reached(outcome, Compile(dataBaseType, e, old(State())))
    {
      if e.value.Null? {
        conditionParts := conditionParts + [None];
      } else {
        arguments := arguments + [e.value];
        conditionParts := conditionParts + [Some([Hole(|arguments| - 1)])];
      }
      outcome := Pass;
    }

    /** A property pushes its column reference; a field pushes nothing. */
    method VisitMember(e: Expr) returns (outcome: Outcome)
      requires e.Member? && Valid()
      modifies this`conditionParts
      ensures outcome == Pass
      ensures conditionParts == if e.isProperty then old(conditionParts) + [Some(MemberFragment(dataBaseType, e.member))]
                                else old(conditionParts)
      ensures Reached(outcome, Compile(dataBaseType, e, old(State())))
    {
      if !e.isProperty {
        outcome := Pass;
        return;
      }
      var original := GetOriginalExpression(e.member);
      var text := if ifWithQuotationMarks then ToDatebaseField(original) else PathText(original);
      conditionParts := conditionParts + [Some([Lit(text)])];
      outcome := Pass;
    }

    /** Visits the left then the right operand, pops right then left, and
        pushes the combined fragment. */
    method VisitBinary(e: Expr) returns (outcome: Outcome)
      requires e.Binary? && Valid()
      modifies this`conditionParts, this`arguments
      ensures Reached(outcome, Compile(dataBaseType, e, old(State())))
      decreases e, 0
    {
      outcome := Visit(e.left);
      if outcome.Fail? { return; }
      outcome := Visit(e.right);
      if outcome.Fail? { return; }
      outcome := PushCombined(e.op);
    }

    /** Pops right then left and pushes their combination under `op`. */
    method PushCombined(op: ExpressionType) returns (outcome: Outcome)
      modifies this`conditionParts
      ensures Reached(outcome, CombineTop(op, old(State())))
    {
      ghost var s0 := State();
      var left, right;
      outcome, left, right := PopPair();
      if outcome.Fail? { return; }
      var opr := NullableOperatorCast(op);
      var brackets := IsBracketsExpressionType(op);
      CombineTopIs(op, s0, left, right, State(), opr, brackets);
      outcome := PushCombination(opr, brackets, left, right);
    }

    /** Pushes the combination of the popped sides under the operator text
        `opr`, bracketed when `brackets`; a missing operator and two null sides
        raise. */
    method PushCombination(opr: Result<string>, brackets: bool, left: Option<Template>, right: Option<Template>)
      returns (outcome: Outcome)
      modifies this`conditionParts
      ensures var f := CombineWith(opr, brackets, left, right);
        if f.Ok? then outcome == Pass && conditionParts == old(conditionParts) + [Some(f.value)]
        else outcome == Fail(f.error) && conditionParts == old(conditionParts)
    {
      outcome := Pass;
      if opr.Err? {
        outcome := Fail(opr.error);
        return;
      }
      if left.None? {
        if right.None? {
          outcome := Fail(NullReference);
          return;
        }
        conditionParts := conditionParts + [Some(Postfix(right.value, opr.value))];
      } else if right.None? {
        conditionParts := conditionParts + [Some(Postfix(left.value, opr.value))];
      } else {
        var cond := Infix(left.value, opr.value, right.value);
        if brackets {
          cond := Bracketed(cond);
        }
        conditionParts := conditionParts + [Some(cond)];
      }
    }

    /** Picks the format by method name (refusing any other name before
        visiting anything), visits the object then the first argument, pops
        right then left and pushes the formatted fragment. */
    method VisitMethodCall(e: Expr) returns (outcome: Outcome)
      requires e.Call? && Valid()
      modifies this`conditionParts, this`arguments
      ensures Reached(outcome, Compile(dataBaseType, e, old(State())))
      decreases e, 0
    {
      var format := MethodFormat(dataBaseType, e.methodName);
      if format.Err? {
        outcome := Fail(format.error);
        return;
      }
      if e.obj.Some? {
        outcome := Visit(e.obj.value);
        if outcome.Fail? { return; }
      }
      outcome := Visit(e.arg);
      if outcome.Fail? { return; }
      outcome := PushSpliced(format.value);
    }

    /** Pops right then left and pushes them spliced into `format`. */
    method PushSpliced(format: Template) returns (outcome: Outcome)
      requires HolesBelow(format, 2)
      modifies this`conditionParts
      ensures Reached(outcome, SpliceTop(format, old(State())))
    {
      var left, right;
      outcome, left, right := PopPair();
      if outcome.Fail? { return; }
      conditionParts := conditionParts + [Some(Splice(format, [OrEmptyT(left), OrEmptyT(right)]))];
    }

    /** Walks the expression, then publishes the argument list as a new array
        and pops the top of the stack into `Condition` (null when empty). */
    method Build(e: Expr) returns (outcome: Outcome)
      requires Valid()
      modifies this`conditionParts, this`arguments, this`Condition, this`Arguments
      ensures var r := Compile(dataBaseType, e, old(State()));
        && (r.Err? ==> outcome == Fail(r.error))
        && (r.Ok? ==> (outcome == Pass && Arguments != null && fresh(Arguments)
              && Arguments[..] == r.value.args && arguments == r.value.args
              && Condition == Top(r.value.stack) && conditionParts == DropTop(r.value.stack)))
    {
      outcome := Visit(e);
      if outcome.Fail? { return; }
      var args := arguments;
      Arguments := new Obj[|args|](i requires 0 <= i < |args| => args[i]);
      if |conditionParts| > 0 {
        Condition := conditionParts[|conditionParts| - 1];
        conditionParts := conditionParts[..|conditionParts| - 1];
      } else {
        Condition := None;
      }
    }
  }
}
