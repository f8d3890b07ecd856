# Candy: the predicate compiler and the WHERE-clause accumulator

A Dafny model of the part of the Candy query builder that turns a C#
predicate `Expression<Func<T, bool>>` into SQL text and collects WHERE
filters for a query.

- **Dialect and operator tables** (`SqlExpressionExtensions`,
  `sql_expression_extensions.dfy`). These say:
  - which database kinds quote identifiers;
  - the `LIKE` concatenation token;
  - the SQL text of each expression-node kind and its null-test variant;
  - which nodes are bracketed;
  - how a member path becomes a column reference. `GetOriginalExpression`
    unwraps the path and `ToDatebaseField` lower-cases and quotes it.
- **The predicate compiler** (`ConditionBuilding`, `condition_builder.dfy`).
  `ConditionBuilder` is a post-order visitor over an expression tree
  (`Expr`: constants, members, parameters, unary, binary and method-call
  nodes). It keeps a stack of SQL fragments, where an empty entry stands for
  a null constant, and a growing list of constant arguments. A fragment is a
  token sequence (`Templates.Template`: literal text and `{N}`
  placeholders); `Render` gives the exact string the source builds.
  - `Compile` is the walk as a function of the builder's state.
  - The class `ConditionBuilder` is the walk as the source runs it, pushing
    and popping its own fields. Every `Visit*` method is proved to reach the
    state `Compile` gives.
  - `Build` publishes the argument list and the top of the stack.
- **What is done with a compiled predicate** (`SqlGenerator`,
  `sql_generator.dfy`).
  - Inline mode (`GetWhereByLambda`) overwrites each argument in place with
    its SQL literal text, then formats the condition.
  - Bound mode (`GetWhere`) draws a fresh parameter name per argument, binds
    each argument under its name and formats the names into the condition.
  - `GetSelector` keeps the condition as it is.
- **Parameter names** (`EntityHelper`, `params_index.dfy`). `ParamsIndex`
  hands out names as a fixed prefix followed by a counter, so no name is
  handed out twice.
- **The filter accumulator** (`WhereBuilding`, `where_builder.dfy`).
  `WhereBuilder` holds:
  - the AND list `WhereList`;
  - the OR buffer and the OR flag;
  - the bound parameters;
  - the sticky `IsReturnDefault` flag.

  Each filter form is a method on that state:
  - the plain, ANY/ALL, IN, EXISTS and `isAdd` forms;
  - the raw `{i}` filter with values;
  - the multi-key forms.

  Each method is specified by functions on the lists (`AddFilter`, `EndOr`,
  `FormatFilter`, `RewriteRows`), and properties of those functions are
  proved as lemmas.

`Strings` (`strings.dfy`) and `Templates` (`templates.dfy`) hold the
string operations the source relies on:
- `Trim`, `ToLower` and `Replace`;
- the decimal rendering of counters;
- `string.Format` on a token fragment (`Templates.Format`).

`Common` (`common.dfy`) holds the shared values:
- `Result`, and `Outcome` (a fluent call that returns or throws);
- the .NET exceptions, as the datatype `Error`;
- `DataBaseType`;
- the runtime objects a predicate carries;
- `DbParam`.

Notes on the source's behaviour, which the model keeps:
- a LIKE call's fragment is not bracketed;
- a member path keeps its parameter name and is lower-cased as a whole;
- `==` between a property and a non-null constant renders `IS NULL`;
- a raw filter with more `{k}` placeholders than values is not rejected;
- a `Not` node is walked through as if it were absent.

## Model

| member | source | states |
|---|---|---|
| SqlExpressionExtensions.ExpressionTypeCast | src/Candy/SqlBuilder/ExpressionAnalysis/SqlExpressionExtensions.cs:9-29 | defined exactly on the comparison, logical and arithmetic kinds of the table, NotSupported with the kind's name otherwise; And/AndAlso give `AND`, Or/OrElse give `OR`; every operator text is 1 to 3 brace-free characters |
| SqlExpressionExtensions.CheckedAsUnchecked | src/Candy/SqlBuilder/ExpressionAnalysis/SqlExpressionExtensions.cs:21-27 | checked addition, subtraction and multiplication render as the unchecked operators `+`, `-`, `*` |
| SqlExpressionExtensions.NullableOperatorCast | src/Candy/SqlBuilder/ExpressionAnalysis/SqlExpressionExtensions.cs:79-82 | Equal gives `IS NULL`, NotEqual gives `IS NOT NULL`, every other kind equals `ExpressionTypeCast`, its failure included; it succeeds exactly when `ExpressionTypeCast` does |
| SqlExpressionExtensions.IsBracketsExpressionType | src/Candy/SqlBuilder/ExpressionAnalysis/SqlExpressionExtensions.cs:89-90 | true exactly for AndAlso and OrElse; bitwise And and Or render the same keyword without brackets |
| SqlExpressionExtensions.GetWithQuotationMarks | src/Candy/SqlBuilder/ExpressionAnalysis/SqlExpressionExtensions.cs:58-62 | true exactly for PostgreSql and Oracle, false exactly for the other four kinds |
| SqlExpressionExtensions.GetLikeConnectorWords | src/Candy/SqlBuilder/ExpressionAnalysis/SqlExpressionExtensions.cs:97-102 | `\|\|` exactly for PostgreSql, Oracle, MySql and Sqlite, `+` exactly for SqlServer and Access; every quoting dialect uses `\|\|` |
| SqlExpressionExtensions.Root | src/Candy/SqlBuilder/ExpressionAnalysis/SqlExpressionExtensions.cs:46-51 | the root of a member path is the lambda parameter |
| SqlExpressionExtensions.GetOriginalExpression | src/Candy/SqlBuilder/ExpressionAnalysis/SqlExpressionExtensions.cs:46-51 | the result is an access made directly on the path's root parameter, and a prefix of the input path |
| SqlExpressionExtensions.GetOriginalExpressionIdempotent | src/Candy/SqlBuilder/ExpressionAnalysis/SqlExpressionExtensions.cs:46-51 | unwrapping twice is unwrapping once |
| SqlExpressionExtensions.GetOriginalExpressionExamples | src/Candy/SqlBuilder/ExpressionAnalysis/SqlExpressionExtensions.cs:42-51 | `a.Age.Value` unwraps to `a.Age`, and `a.Address.City` also unwraps to `a.Address` |
| SqlExpressionExtensions.ToDatebaseField | src/Candy/SqlBuilder/ExpressionAnalysis/SqlExpressionExtensions.cs:36-39 | ends with `"`; holds one more `"` than the path holds `.` and `"` together, and exactly the path's `.` |
| SqlExpressionExtensions.ToDatebaseFieldOneLevel | src/Candy/SqlBuilder/ExpressionAnalysis/SqlExpressionExtensions.cs:36-39 | a one-level path `p.m` becomes `p."m"` with both names lower-cased |
| SqlExpressionExtensions.ToDatebaseFieldExample | src/Candy/SqlBuilder/ExpressionAnalysis/SqlExpressionExtensions.cs:32-39 | `a.Name` becomes `a."name"` |
| ConditionBuilding.Pop | src/Candy/SqlBuilder/ExpressionAnalysis/ConditionBuilder.cs:67-68 | popping succeeds exactly on a non-empty stack, returns the top and the rest and leaves the arguments alone; an empty stack raises InvalidOperation |
| ConditionBuilding.PopTwo | src/Candy/SqlBuilder/ExpressionAnalysis/ConditionBuilder.cs:67-68 | popping right then left succeeds exactly when two entries are there; the rest followed by left and right is the old stack |
| ConditionBuilding.MemberFragment | src/Candy/SqlBuilder/ExpressionAnalysis/ConditionBuilder.cs:114-121 | a property pushes the unwrapped path, through `ToDatebaseField` exactly when the dialect quotes; the fragment has no placeholder |
| ConditionBuilding.CombineBinary | src/Candy/SqlBuilder/ExpressionAnalysis/ConditionBuilder.cs:70-85 | succeeds exactly when the operator is known and a side is non-null; an unknown operator raises its NotSupported, two null sides a null dereference; the fragment holds the left side's placeholders followed by the right side's |
| ConditionBuilding.CombineBinaryRender | src/Candy/SqlBuilder/ExpressionAnalysis/ConditionBuilder.cs:72-85 | one null side gives `<other side trimmed> <opr>`; two sides give `<left trimmed> <opr> <right trimmed>`, bracketed exactly for AndAlso/OrElse; opr always comes from the null-test table |
| ConditionBuilding.MethodFormat | src/Candy/SqlBuilder/ExpressionAnalysis/ConditionBuilder.cs:216-223 | defined exactly for StartsWith, Contains, EndsWith and Equals, NotSupported `Call is not supported!` otherwise; each format holds placeholders 0 then 1 and brace-free text |
| ConditionBuilding.MethodFormatText | src/Candy/SqlBuilder/ExpressionAnalysis/ConditionBuilder.cs:212-221 | the LIKE formats put the dialect's connector on both sides of `{1}`; Equals is `({0} {1})` |
| ConditionBuilding.Compile | src/Candy/SqlBuilder/ExpressionAnalysis/ConditionBuilder.cs:60-124 | the walk of a tree over a state: on success the argument list only grows, and only by non-null constants; its exceptions and per-node results are stated by the lemmas and `Visit` rows |
| ConditionBuilding.Built | src/Candy/SqlBuilder/ExpressionAnalysis/ConditionBuilder.cs:49-58 | `Build` from the empty state fails exactly with the walk's failure; `Arguments` never holds a null, since a null constant pushes the null entry instead |
| ConditionBuilding.CompileShape | src/Candy/SqlBuilder/ExpressionAnalysis/ConditionBuilder.cs:64-101 | on a supported tree the walk succeeds and pushes exactly one entry: null for a null constant, else a fragment whose placeholders are the new argument numbers in order |
| ConditionBuilding.BuildParity | src/Candy/SqlBuilder/ExpressionAnalysis/ConditionBuilder.cs:56-57 | for a supported tree, `Arguments` are its non-null constants in visit order; `Condition` is null exactly for a null constant; otherwise its placeholders are exactly 0..n-1, once each and in order, over brace-free text, so formatting it with any n arguments succeeds |
| ConditionBuilding.FieldPushesNothing | src/Candy/SqlBuilder/ExpressionAnalysis/ConditionBuilder.cs:110-111 | a non-property member pushes nothing, so `field <op> v` pops the empty stack and raises InvalidOperation |
| ConditionBuilding.BothNullFails | src/Candy/SqlBuilder/ExpressionAnalysis/ConditionBuilder.cs:72-73 | two null constants under a known operator raise a null dereference |
| ConditionBuilding.UnsupportedCallVisitsNothing | src/Candy/SqlBuilder/ExpressionAnalysis/ConditionBuilder.cs:216-226 | any other method name raises NotSupported before either operand is visited |
| ConditionBuilding.UnaryIsTransparent | src/Candy/SqlBuilder/ExpressionAnalysis/ConditionBuilder.cs:60-124 | a conversion or negation node has no handler of its own and is walked through |
| ConditionBuilding.MemberComparison | src/Candy/SqlBuilder/ExpressionAnalysis/ConditionBuilder.cs:64-101 | `m <op> v` pushes the combination of the member's column and the constant's entry, appending the constant exactly when it is non-null |
| ConditionBuilding.MemberComparisonBuilt | src/Candy/SqlBuilder/ExpressionAnalysis/ConditionBuilder.cs:49-58 | `Build` of `m <op> v` alone publishes that combination and the constant's argument |
| ConditionBuilding.EqualRendersIsNull | src/Candy/SqlBuilder/ExpressionAnalysis/ConditionBuilder.cs:70-80 | `m == v` with a non-null `v` compiles to `<column> IS NULL {0}` with the one argument `v` |
| ConditionBuilding.NotEqualNullRendersIsNotNull | src/Candy/SqlBuilder/ExpressionAnalysis/ConditionBuilder.cs:72-76 | `m != null` compiles to `<column> IS NOT NULL` with no argument and no placeholder |
| ConditionBuilding.NotNullAndCompare | src/Candy/SqlBuilder/ExpressionAnalysis/ConditionBuilder.cs:72-85 | `m1 != null && m2 <op> v` compiles to `(<m1> IS NOT NULL AND <m2> <op> {0})` with the one argument `v` |
| ConditionBuilding.NameNotNullAndIdExample | test/Candy.SqlExpression.XUnitTest/UnitTest1.cs:17 | under PostgreSql, `a.Name != null && a.Id > 2` compiles to `(a."name" IS NOT NULL AND a."id" > {0})` with arguments `[2]` |
| ConditionBuilding.AddQuotationMarks | src/Candy/SqlBuilder/ExpressionAnalysis/ConditionBuilder.cs:43-44 | empty exactly for a null or empty input; otherwise the trimmed input between double quotes |
| ConditionBuilding.ConditionBuilder.constructor | src/Candy/SqlBuilder/ExpressionAnalysis/ConditionBuilder.cs:26-30 | records the dialect and whether it quotes; the stack and argument list start empty |
| ConditionBuilding.ConditionBuilder.PopPart | src/Candy/SqlBuilder/ExpressionAnalysis/ConditionBuilder.cs:67-68 | pops the stack field as `Pop` says, or raises InvalidOperation |
| ConditionBuilding.ConditionBuilder.PopPair | src/Candy/SqlBuilder/ExpressionAnalysis/ConditionBuilder.cs:67-68 | pops right then left as `PopTwo` says |
| ConditionBuilding.ConditionBuilder.Visit | src/Candy/SqlBuilder/ExpressionAnalysis/ConditionBuilder.cs:54 | dispatches on the node and reaches the state (or raises the exception) `Compile` gives |
| ConditionBuilding.ConditionBuilder.VisitConstant | src/Candy/SqlBuilder/ExpressionAnalysis/ConditionBuilder.cs:90-104 | a null constant pushes the null entry and appends nothing; any other appends itself and pushes `{N}`, N the argument count before the append |
| ConditionBuilding.ConditionBuilder.VisitMember | src/Candy/SqlBuilder/ExpressionAnalysis/ConditionBuilder.cs:106-124 | a property pushes its column as `MemberFragment` says; a field leaves the stack as it was |
| ConditionBuilding.ConditionBuilder.VisitBinary | src/Candy/SqlBuilder/ExpressionAnalysis/ConditionBuilder.cs:60-88 | visits left then right, pops right then left and pushes their combination: the state `Compile` gives |
| ConditionBuilding.ConditionBuilder.PushCombined | src/Candy/SqlBuilder/ExpressionAnalysis/ConditionBuilder.cs:67-85 | pops right then left and pushes `CombineBinary` of them, or raises its exception |
| ConditionBuilding.ConditionBuilder.PushCombination | src/Candy/SqlBuilder/ExpressionAnalysis/ConditionBuilder.cs:70-85 | pushes `CombineWith` of the popped sides under the operator text, or raises its exception |
| ConditionBuilding.ConditionBuilder.VisitMethodCall | src/Candy/SqlBuilder/ExpressionAnalysis/ConditionBuilder.cs:210-233 | picks the format first, visits the receiver then the argument, pops both and pushes them spliced into the format: the state `Compile` gives |
| ConditionBuilding.ConditionBuilder.PushSpliced | src/Candy/SqlBuilder/ExpressionAnalysis/ConditionBuilder.cs:228-231 | pops right then left and pushes them spliced into a two-placeholder format |
| ConditionBuilding.ConditionBuilder.Build | src/Candy/SqlBuilder/ExpressionAnalysis/ConditionBuilder.cs:49-58 | on success `Arguments` is a fresh array holding the argument list and `Condition` is the top of the stack (null when empty), popped; a failing walk raises its exception |
| Templates.Format | src/Candy/SqlBuilder/ExpressionAnalysis/SqlGenerator.cs:68 | `string.Format` succeeds exactly when the text is brace-free and every placeholder has an argument, giving the substitution; otherwise FormatException |
| Templates.RenderTrim | src/Candy/SqlBuilder/ExpressionAnalysis/ConditionBuilder.cs:73-80 | trimming the tokens renders as `Trim` of the rendered text |
| Templates.SpliceFormat | src/Candy/SqlBuilder/ExpressionAnalysis/ConditionBuilder.cs:231 | formatting the format with the rendered fragments equals rendering the fragments spliced into it |
| EntityHelper.ParamName | src/Candy/SqlBuilder/ExpressionAnalysis/SqlGenerator.cs:92 | a name is the prefix followed by digits only |
| EntityHelper.ParamNameInjective | src/Candy/SqlBuilder/ExpressionAnalysis/SqlGenerator.cs:92 | names drawn at different counter values differ |
| EntityHelper.ParamsIndex.Next | src/Candy/SqlBuilder/ExpressionAnalysis/SqlGenerator.cs:92 | each read hands out the name for the current counter, advances it by one, and never repeats an earlier name |
| SqlGenerator.LikeTestIsDead | src/Candy/SqlBuilder/ExpressionAnalysis/SqlGenerator.cs:31-34 | the `" like '"` test comes after `Trim` and never matches, so only `in(`, `not in(` and `not like` count |
| SqlGenerator.CoerceInline | src/Candy/SqlBuilder/ExpressionAnalysis/SqlGenerator.cs:24-65 | the result is DBNull exactly for null, and text for every other object |
| SqlGenerator.CoercionRules | src/Candy/SqlBuilder/ExpressionAnalysis/SqlGenerator.cs:24-65 | null becomes DBNull; numbers, bools and other value types their bare text; strings and characters starting with `in(`, `not in(` or `not like` (lower-cased, trimmed) are padded with one space each side, others quoted; dates, DBNull and other objects quoted |
| SqlGenerator.QuoteNotEscaped | src/Candy/SqlBuilder/ExpressionAnalysis/SqlGenerator.cs:62-63 | a string that starts with a quote is copied between quotes unescaped |
| SqlGenerator.CoerceArguments | src/Candy/SqlBuilder/ExpressionAnalysis/SqlGenerator.cs:21-67 | every slot of the argument array is overwritten with its coerced value; the length stays |
| SqlGenerator.WhereByLambda | src/Candy/SqlBuilder/ExpressionAnalysis/SqlGenerator.cs:16-70 | a failing walk raises its exception; a null condition raises ArgumentNullException; on success the walk succeeded with a condition whose placeholders are all below the argument count; any other failure is a FormatException from formatting |
| SqlGenerator.GetWhereByLambda | src/Candy/SqlBuilder/ExpressionAnalysis/SqlGenerator.cs:16-70 | compiles, coerces the arguments in place and formats them into the condition, as `WhereByLambda` |
| SqlGenerator.InlineParity | src/Candy/SqlBuilder/ExpressionAnalysis/SqlGenerator.cs:68 | on a supported tree, inline mode raises ArgumentNullException exactly for a null constant, and otherwise never fails: each placeholder is replaced by its coerced argument's text |
| SqlGenerator.BindArguments | src/Candy/SqlBuilder/ExpressionAnalysis/SqlGenerator.cs:84-95 | draws one name per argument in order, and parameter i carries argument i under name i |
| SqlGenerator.GetWhere | src/Candy/SqlBuilder/ExpressionAnalysis/SqlGenerator.cs:79-98 | the result is `WhereBound` of the expression and the counter; the counter advances by the argument count exactly when the walk succeeds |
| SqlGenerator.BoundParity | src/Candy/SqlBuilder/ExpressionAnalysis/SqlGenerator.cs:84-97 | on a supported, non-null tree: one parameter per argument, parameter i carries argument i under the i-th name drawn, and the command text is the condition with `{i}` replaced by name i |
| SqlGenerator.NamesDistinct | src/Candy/SqlBuilder/ExpressionAnalysis/SqlGenerator.cs:90-95 | the names drawn for one predicate are pairwise distinct |
| SqlGenerator.BoundLeavesNoPlaceholder | src/Candy/SqlBuilder/ExpressionAnalysis/SqlGenerator.cs:96 | with a brace-free prefix, the bound command text holds no brace |
| SqlGenerator.GetSelector | src/Candy/SqlBuilder/ExpressionAnalysis/SqlGenerator.cs:100-112 | succeeds exactly when the walk does and raises the walk's exception otherwise; the selector is null exactly when the condition is; `SelectorOfProperty` and `SelectorOfField` give its value per member kind |
| SqlGenerator.SelectorOfProperty | src/Candy/SqlBuilder/ExpressionAnalysis/SqlGenerator.cs:100-112 | the selector of a property is its unwrapped column, quoted exactly when the dialect quotes |
| SqlGenerator.SelectorOfField | src/Candy/SqlBuilder/ExpressionAnalysis/SqlGenerator.cs:100-105 | a field selector pushes nothing, so the condition is null |
| WhereBuilding.AndAppends | src/Candy/SqlBuilder/WhereBuilder.cs:100-107 | outside an OR group, filters go to the AND list bracketed and in order; the buffer is untouched |
| WhereBuilding.OrBuffers | src/Candy/SqlBuilder/WhereBuilder.cs:100-107 | inside an OR group, filters go to the buffer bracketed and in order; the AND list is untouched |
| WhereBuilding.OrGroup | src/Candy/SqlBuilder/WhereBuilder.cs:74-107 | opening a group, adding n filters and closing it adds one AND entry `((w1) OR ... OR (wn))`, or nothing when n is 0 |
| WhereBuilding.Placeholder | src/Candy/SqlBuilder/WhereBuilder.cs:455 | placeholder i starts with `{` and holds no `@` |
| WhereBuilding.NullPatternIs | src/Candy/SqlBuilder/WhereBuilder.cs:459 | the pattern for a null value is `\{i\}`: only the two braces are escaped |
| WhereBuilding.FormatFilter | src/Candy/SqlBuilder/WhereBuilder.cs:446-467 | an empty filter raises ArgumentNullException, and only it; any other failure is an ArgumentException; at most one parameter per value is added, each binding a single non-null value |
| WhereBuilding.RewriteShape | src/Candy/SqlBuilder/WhereBuilder.cs:453-465 | the value loop from value i on (`RewriteFrom`) fails only with ArgumentException, adds at most one parameter per remaining value, and each added parameter binds a single non-null value |
| WhereBuilding.RewriteStep | src/Candy/SqlBuilder/WhereBuilder.cs:455-464 | one loop step past a present `{i}`: a null value rewrites the filter through `GetNullSql`; any other value adds one parameter under the next name and replaces `{i}` with `@name` |
| WhereBuilding.BindNonNullCount | src/Candy/SqlBuilder/WhereBuilder.cs:458-463 | the parameters for the values number the non-null values |
| WhereBuilding.RewriteBinds | src/Candy/SqlBuilder/WhereBuilder.cs:453-465 | the parameters added are a prefix of one per non-null value, in order, under consecutive names, and all of them on success; null values bind nothing |
| WhereBuilding.RewriteReplacesAll | src/Candy/SqlBuilder/WhereBuilder.cs:460-464 | with non-null values, success leaves none of `{0}`..`{n-1}` in the filter |
| WhereBuilding.MissingPlaceholderFails | src/Candy/SqlBuilder/WhereBuilder.cs:455-457 | with non-null values, a filter lacking any `{k}` for k below the value count raises ArgumentException |
| WhereBuilding.PresentPasses | src/Candy/SqlBuilder/WhereBuilder.cs:453-465 | the converse of `MissingPlaceholderFails`: with non-null values and every `{k}` from `{i}` on present, the rewrite succeeds, since replacing one placeholder keeps the others |
| WhereBuilding.PlaceholderNotPrefix | src/Candy/SqlBuilder/WhereBuilder.cs:455 | placeholders of different values are not prefixes of one another, so two never overlap |
| WhereBuilding.KeysTemplate2 | src/Candy/SqlBuilder/WhereBuilder.cs:384 | the two-key row filter is `t1={0} and t2={1}` |
| WhereBuilding.KeysTemplate3 | src/Candy/SqlBuilder/WhereBuilder.cs:409 | the three-key row filter is `t1={0} and t2={1} and t3={2}` |
| WhereBuilding.KeysTemplate4 | src/Candy/SqlBuilder/WhereBuilder.cs:436 | the four-key row filter is `t1={0} and ... and t4={3}` |
| WhereBuilding.RowsFragments | src/Candy/SqlBuilder/WhereBuilder.cs:383-384 | a successful batch adds one buffer entry per row |
| WhereBuilding.KeysGroup | src/Candy/SqlBuilder/WhereBuilder.cs:381-385 | a multi-key group that succeeds leaves the buffer empty and adds exactly one AND entry, or none for no rows |
| WhereBuilding.KeysHoldPlaceholder | src/Candy/SqlBuilder/WhereBuilder.cs:381-383 | the multi-key filter holds `{k}` for each of its key columns |
| WhereBuilding.RowsPass | src/Candy/SqlBuilder/WhereBuilder.cs:383-384 | rows whose values are non-null and whose placeholders the template holds never fail the batch |
| WhereBuilding.KeysGroupPasses | src/Candy/SqlBuilder/WhereBuilder.cs:376-438 | for rows of non-null values, one per key column, the batch succeeds, and the group closes with the buffer empty and exactly one new AND entry, or none for no rows |
| WhereBuilding.WhereBuilder.constructor | src/Candy/SqlBuilder/WhereBuilder.cs:21-31 | the lists start empty, the OR flag and `IsReturnDefault` clear |
| WhereBuilding.WhereBuilder.AddParameter | src/Candy/SqlBuilder/WhereBuilder.cs:462 | appends one parameter under the next name and advances the counter by one |
| WhereBuilding.WhereBuilder.AddParameters | src/Candy/SqlBuilder/WhereBuilder.cs:57 | appends the given parameters in order |
| WhereBuilding.WhereBuilder.Where | src/Candy/SqlBuilder/WhereBuilder.cs:100-107 | the bracketed filter goes to the buffer while the OR flag is set, to the AND list otherwise; the other list is unchanged |
| WhereBuilding.WhereBuilder.WhereStartOr | src/Candy/SqlBuilder/WhereBuilder.cs:74-78 | sets the OR flag |
| WhereBuilding.WhereBuilder.WhereEndOr | src/Candy/SqlBuilder/WhereBuilder.cs:84-93 | clears the OR flag and flushes a non-empty buffer as one AND entry `(b1 OR ... OR bn)`, emptying it; an empty buffer changes nothing else |
| WhereBuilding.WhereBuilder.WherePredicate | src/Candy/SqlBuilder/WhereBuilder.cs:52-59 | with `isAdd` false nothing changes; otherwise the predicate's parameters are forwarded, the names counter advances by their number, and its command text is added; a failing walk raises its exception with the lists, parameters and counter unchanged |
| WhereBuilding.WhereBuilder.WhereAny | src/Candy/SqlBuilder/WhereBuilder.cs:128-139 | no values raise ArgumentNullException with no change; one value gives `key = @p`, several `key = any(@p)` with the collection as one parameter; exactly one parameter is added |
| WhereBuilding.WhereBuilder.WhereNotAny | src/Candy/SqlBuilder/WhereBuilder.cs:206-217 | as `WhereAny` with `key <> @p` and `key <> all(@p)` |
| WhereBuilding.WhereBuilder.WhereAnyOf | src/Candy/SqlBuilder/WhereBuilder.cs:118-119 | the selector is compiled first and its failure raised with no change; then as `WhereAny` on its column |
| WhereBuilding.WhereBuilder.WhereNotAnyOf | src/Candy/SqlBuilder/WhereBuilder.cs:184-185 | the selector is compiled first and its failure raised with no change; then as `WhereNotAny` on its column |
| WhereBuilding.WhereBuilder.WhereAnyOrDefault | src/Candy/SqlBuilder/WhereBuilder.cs:317-322 | no values set `IsReturnDefault` and add no filter and no parameter; otherwise it is `WhereAnyOf`, leaving the flag as it was |
| WhereBuilding.WhereBuilder.WhereIn | src/Candy/SqlBuilder/WhereBuilder.cs:226-247 | a null nested query raises ArgumentNullException with no change; otherwise its parameters are forwarded, then `column IN (command)` or `column NOT IN (command)` is added, or the selector's exception raised |
| WhereBuilding.WhereBuilder.WhereExists | src/Candy/SqlBuilder/WhereBuilder.cs:275-307 | a null nested query raises ArgumentNullException with no change; otherwise its parameters are forwarded, its fields set to `1`, and `EXISTS (command)` or `NOT EXISTS (command)` added with the command rendered after that |
| WhereBuilding.WhereBuilder.WhereFormat | src/Candy/SqlBuilder/WhereBuilder.cs:446-467 | an empty filter raises ArgumentNullException; no values add `GetNullSql(filter, \{\d\})`; otherwise the loop's rewrite is added on success, and the parameters bound before a failure stay |
| WhereBuilding.WhereBuilder.RewriteAndAdd | src/Candy/SqlBuilder/WhereBuilder.cs:453-466 | runs the value loop and adds the rewritten filter exactly when it succeeds |
| WhereBuilding.WhereBuilder.BindPlaceholders | src/Candy/SqlBuilder/WhereBuilder.cs:453-465 | the loop reaches the outcome, filter and parameters `RewriteFrom` gives |
| WhereBuilding.WhereBuilder.WhereFormatIf | src/Candy/SqlBuilder/WhereBuilder.cs:341-342 | with `isAdd` false nothing changes; otherwise it is `WhereFormat` |
| WhereBuilding.WhereBuilder.WhereIf | src/Candy/SqlBuilder/WhereBuilder.cs:350-351 | with `isAdd` false nothing changes; otherwise the produced filter is added |
| WhereBuilding.WhereBuilder.WhereFormatOf | src/Candy/SqlBuilder/WhereBuilder.cs:359-364 | with `isAdd` false nothing changes; otherwise it is `WhereFormat` on the produced filter and values |
| WhereBuilding.WhereBuilder.WhereKeys | src/Candy/SqlBuilder/WhereBuilder.cs:376-438 | the key columns are compiled first and their failure raised with no change; every row then adds its `t1={0} and ...` filter to an open OR group; on success the flag is clear, the buffer empty and the AND list grew by at most one entry; a failing row leaves the group open; once the columns compile, rows of non-null values always succeed |
| WhereBuilding.WhereBuilder.AddRow | src/Candy/SqlBuilder/WhereBuilder.cs:384 | one row's raw filter goes to the open group's buffer on success |
| WhereBuilding.WhereBuilder.AddRows | src/Candy/SqlBuilder/WhereBuilder.cs:383-384 | the row loop reaches the buffer and parameters `RewriteRows` gives, stopping at the first failing row |

## Left out

- Captured values: the evaluator that folds them into constants before the walk (ConditionBuilder.cs:51-52) is not part of this model. The input tree is assumed to hold constants already.
- Dispatch: the `ExpressionVisitor` base-class dispatch and the `PropertyInfo` test are not modelled. A member node carries a flag saying whether it is a property.
- The private `BinarExpressionProvider` and `ExpressionRouter` (ConditionBuilder.cs:126-199) are never called and are not modelled.
- The non-generic `WhereNotIn` (WhereBuilder.cs:256-257) calls itself without end and is not modelled. The private `WhereExists` stub (289-292) is not modelled either.
- The constructors and the connection-option wrappers (WhereBuilder.cs:34-42, 470-480) read configuration. The dialect and `ParamsIndex` are constructor arguments, and `GetSelector`/`GetWhere` are called directly.
- The base `SqlBuilder` is not part of this model. `WhereList`, `Params`, `IsReturnDefault`, `AddParameter` and `AddParameters` are modelled as fields and methods of `WhereBuilder`.
- `SqlHelper.GetNullSql` is not part of this model. It is an arbitrary function fixed per builder.
- `DbParameter` creation by the connection's factory is modelled as a name and value record.
- `EntityHelper.ParamsIndex`'s exact name format is not part of this model. Names are a prefix followed by a decimal counter.
- Culture-dependent `ToString()` of floating point numbers, decimals, dates and other structs is kept as opaque text.
- `ToLower` is modelled on ASCII letters only.
- Templates.Format: the escapes `{{` and `}}`, and alignment or format specifiers in placeholders, are not modelled. Any brace in literal text is a FormatException.
- WhereBuilding.WhereBuilder.WhereFormat: a null `values` array is treated like an empty one, which the source also does. A null element is the `Null` object.
- Null strings (a null filter, key or selector result) are modelled only where the source tests for them: `Option` for `Condition`, `SubQuery?` for nested queries.
- The stack and argument list left behind after an exception inside `Build` are not stated. Only the exception is.
- WhereBuilding.WhereBuilder.AddParameter: it draws names from the same `ParamsIndex` counter that `GetWhere` reads (SqlGenerator.cs:92). The base `SqlBuilder` that defines `AddParameter` is not part of this model, so this sharing is assumed. The parameter names stated for `WhereAny`, `Where(filter, values)` and `WhereKeys` depend on it.
- SqlGenerator.IsKeywordText: it tests an ordinal prefix. SqlGenerator.cs:31-34 calls the culture-sensitive `IndexOf(string)` without a `StringComparison`, which can also match after ignorable leading characters; that case is not modelled.
- WhereBuilding.KeysGroupPasses: rows holding a null value are not covered. A null value hands the filter to `GetNullSql`, which is not part of this model and may drop the later placeholders, so success is stated for non-null rows only; `PresentPasses` likewise.
- WhereBuilding.WhereBuilder.WhereKeys: the three overloads for two, three and four keys are one method taking 2 to 4 selectors. Each row has one value per key, as the tuple types guarantee.
- WhereBuilding.WhereBuilder.WhereIn: it models `WhereIn` and `WhereNotIn` through a `negated` flag. WhereBuilding.WhereBuilder.WhereExists does the same for `WhereExists` and `WhereNotExists`.
- WhereBuilding.WhereBuilder.WhereAnyOf: it models the four selector overloads of `WhereAny` (118-119, 150-151, 161-162, 172-173). WhereNotAnyOf models the two of `WhereNotAny`. The `TModel` overloads only forward.
- The `isAdd` overload of `Where(predicate)` for `TModel` (67-68) only forwards to `WherePredicate`.
