/** `WhereBuilder`: the accumulator behind a query's WHERE clause. Each
    filter is added as one bracketed entry, either to the AND list or, while
    an OR group is open, to the OR buffer that closing the group turns into
    one AND entry. Values are bound as parameters named by the shared
    `ParamsIndex`; raw filters use `{i}` placeholders. */
module WhereBuilding {
  import opened Strings
  import opened Common
  import opened Templates
  import opened ConditionBuilding
  import opened EntityHelper
  import opened SqlGenerator

  /** `string.Join(separator, parts)`. */
  function Join(sep: string, parts: seq<string>): string
    decreases |parts|
  {
    if |parts| == 0 then ""
    else if |parts| == 1 then parts[0]
    else parts[0] + sep + Join(sep, parts[1..])
  }

  /** `$"({where})"`: every entry is bracketed. */
  function Paren(w: string): string
  {
    "(" + w + ")"
  }

  function Parens(ws: seq<string>): seq<string>
  {
    seq(|ws|, i requires 0 <= i < |ws| => Paren(ws[i]))
  }

  /** The two lists a filter can land in: the AND list (`WhereList`) and the OR buffer. */
  datatype Filters = Filters(whereList: seq<string>, orExpression: seq<string>)

  /** `Where(string)`: the bracketed filter goes to the OR buffer while a
      group is open, to the AND list otherwise. */
  function AddFilter(f: Filters, isOr: bool, w: string): Filters
  {
    if isOr then Filters(f.whereList, f.orExpression + [Paren(w)])
    else Filters(f.whereList + [Paren(w)], f.orExpression)
  }

  /** The buffer flushed by `WhereEndOr`: a non-empty buffer becomes one AND
      entry, its entries joined by OR and bracketed; an empty one adds nothing. */
  function EndOr(f: Filters): Filters
  {
    if |f.orExpression| > 0 then Filters(f.whereList + [Paren(Join(" OR ", f.orExpression))], [])
    else f
  }

  /** Several `Where(string)` calls in a row. */
  function AddAll(f: Filters, isOr: bool, ws: seq<string>): Filters
    decreases |ws|
  {
    if |ws| == 0 then f else AddAll(AddFilter(f, isOr, ws[0]), isOr, ws[1..])
  }

  lemma ParensCons(w: string, ws: seq<string>)
    ensures Parens([w] + ws) == [Paren(w)] + Parens(ws)
  {
  }

  /** Outside an OR group, filters go to the AND list, in order, and the buffer is untouched. */
  lemma {:induction false} AndAppends(f: Filters, ws: seq<string>)
    ensures AddAll(f, false, ws) == Filters(f.whereList + Parens(ws), f.orExpression)
    decreases |ws|
  {
    if |ws| > 0 {
      AndAppends(AddFilter(f, false, ws[0]), ws[1..]);
      ParensCons(ws[0], ws[1..]);
      assert [ws[0]] + ws[1..] == ws;
    }
  }

  /** Inside an OR group, filters go to the buffer, in order, and the AND list is untouched. */
  lemma {:induction false} OrBuffers(f: Filters, ws: seq<string>)
    ensures AddAll(f, true, ws) == Filters(f.whereList, f.orExpression + Parens(ws))
    decreases |ws|
  {
    if |ws| > 0 {
      OrBuffers(AddFilter(f, true, ws[0]), ws[1..]);
      ParensCons(ws[0], ws[1..]);
      assert [ws[0]] + ws[1..] == ws;
    }
  }

  /** An OR group opened on an empty buffer: n filters added and the group
      closed give one AND entry `((w1) OR ... OR (wn))`, or nothing when n is 0. */
  lemma {:induction false} OrGroup(whereList: seq<string>, ws: seq<string>)
    ensures EndOr(AddAll(Filters(whereList, []), true, ws))
      == if |ws| == 0 then Filters(whereList, []) else Filters(whereList + [Paren(Join(" OR ", Parens(ws)))], [])
  {
    OrBuffers(Filters(whereList, []), ws);
    assert [] + Parens(ws) == Parens(ws);
  }

  /** `string.Concat("{", i, "}")`: the placeholder of value i in a raw filter. */
  function Placeholder(i: nat): (r: string)
    ensures |r| > 0 && r[0] == '{' && '@' !in r
  {
    "{" + NatStr(i) + "}"
  }

  /** The regular expression handed to `GetNullSql` for a null value i: the
      placeholder with `{` and `}` escaped by `Replace`. */
  function NullPattern(i: nat): string
  {
    Replace(Replace(Placeholder(i), "{", "\\{"), "}", "\\}")
  }

  /** The escaping replaces exactly the two braces around the digits. */
  lemma {:induction false} NullPatternIs(i: nat)
    ensures NullPattern(i) == "\\{" + NatStr(i) + "\\}"
  {
    var d := NatStr(i);
    assert '{' !in d && '}' !in d by {
      assert forall k :: 0 <= k < |d| ==> IsDigit(d[k]);
    }
    assert Placeholder(i) == "{" + (d + "}");
    ReplaceAt(d + "}", "{", "\\{");
    ReplaceAfterAbsent(d, "}", "{", "\\{");
    ReplaceAbsent("}", "{", "\\{");
    assert Replace(Placeholder(i), "{", "\\{") == ("\\{" + d) + "}";
    ReplaceAfterAbsent("\\{" + d, "}", "}", "\\}");
    ReplaceAt("", "}", "\\}");
    assert "}" + "" == "}";
  }

  /** The pattern `\{\d\}` handed to `GetNullSql` when no values are given. */
  const AnyDigitPattern := "\\{\\d\\}"

  /** Where a raw filter ends up: the outcome, the rewritten filter, and the
      parameters added on the way (also those added before a failure). */
  datatype Rewrite = Rewrite(outcome: Outcome, filter: string, added: seq<DbParam>)

  /** The loop of `Where(filter, values)` from value i on: a missing `{i}`
      raises ArgumentException; a null value hands the filter to `GetNullSql`
      with the escaped placeholder; any other value is bound under the next
      name and every `{i}` becomes `@name`. */
  function RewriteFrom(getNullSql: (string, string) -> string, filter: string, values: seq<Obj>, i: nat,
                       prefix: string, next: nat): Rewrite
    decreases |values| - i
  {
    if i >= |values| then Rewrite(Pass, filter, [])
    else if !Occurs(filter, Placeholder(i)) then Rewrite(Fail(Argument("filter")), filter, [])
    else if values[i].Null? then RewriteFrom(getNullSql, getNullSql(filter, NullPattern(i)), values, i + 1, prefix, next)
    else
      var name := ParamName(prefix, next);
      var rest := RewriteFrom(getNullSql, Replace(filter, Placeholder(i), "@" + name), values, i + 1, prefix, next + 1);
      Rewrite(rest.outcome, rest.filter, [DbParam(name, Scalar(values[i]))] + rest.added)
  }

  /** `Where(filter, values)`: an empty filter raises ArgumentNullException; no
      values hand the whole filter to `GetNullSql`; otherwise the loop runs. */
  function FormatFilter(getNullSql: (string, string) -> string, filter: string, values: seq<Obj>,
                        prefix: string, next: nat): (r: Rewrite)
    ensures r.outcome == Fail(ArgumentNull("filter")) <==> filter == ""
    ensures r.outcome.Fail? ==> r.outcome in {Fail(ArgumentNull("filter")), Fail(Argument("filter"))}
    ensures |r.added| <= |values|
    ensures BindsNonNull(r.added)
  {
    if filter == "" then Rewrite(Fail(ArgumentNull("filter")), filter, [])
    else if |values| == 0 then Rewrite(Pass, getNullSql(filter, AnyDigitPattern), [])
    else RewriteShape(getNullSql, filter, values, 0, prefix, next); RewriteFrom(getNullSql, filter, values, 0, prefix, next)
  }

  /** Each parameter binds one non-null value. */
  predicate BindsNonNull(added: seq<DbParam>)
  {
    forall k :: 0 <= k < |added| ==> added[k].value.Scalar? && !added[k].value.obj.Null?
  }

  /** The loop from value i on fails only with ArgumentException, adds at most
      one parameter per remaining value, and every parameter it adds binds a
      single non-null value: null values go to `GetNullSql` instead. */
  lemma {:induction false} RewriteShape(getNullSql: (string, string) -> string, filter: string, values: seq<Obj>, i: nat,
                                         prefix: string, next: nat)
    ensures var r := RewriteFrom(getNullSql, filter, values, i, prefix, next);
      && (r.outcome.Fail? ==> r.outcome == Fail(Argument("filter")))
      && |r.added| <= (if i <= |values| then |values| - i else 0)
      && BindsNonNull(r.added)
    decreases |values| - i
  {
    if i < |values| && Occurs(filter, Placeholder(i)) {
      if values[i].Null? {
        RewriteShape(getNullSql, getNullSql(filter, NullPattern(i)), values, i + 1, prefix, next);
      } else {
        var name := ParamName(prefix, next);
        RewriteShape(getNullSql, Replace(filter, Placeholder(i), "@" + name), values, i + 1, prefix, next + 1);
        var rest := RewriteFrom(getNullSql, Replace(filter, Placeholder(i), "@" + name), values, i + 1, prefix, next + 1);
        assert RewriteFrom(getNullSql, filter, values, i, prefix, next).added == [DbParam(name, Scalar(values[i]))] + rest.added;
      }
    }
  }

  /** Parameters added earlier, in front of a rewrite's own. */
  function Then(added: seq<DbParam>, r: Rewrite): Rewrite
  {
    Rewrite(r.outcome, r.filter, added + r.added)
  }

  /** The loop of `Where(filter, values)` advanced past value i, whose
      placeholder is present: a null value rewrites the filter through
      `GetNullSql`, any other adds one parameter and rewrites the placeholder. */
  lemma RewriteStep(getNullSql: (string, string) -> string, f: string, values: seq<Obj>, i: nat,
                    prefix: string, next: nat, added: seq<DbParam>)
    requires i < |values| && Occurs(f, Placeholder(i))
    ensures values[i].Null? ==>
      Then(added, RewriteFrom(getNullSql, f, values, i, prefix, next))
        == Then(added, RewriteFrom(getNullSql, getNullSql(f, NullPattern(i)), values, i + 1, prefix, next))
    ensures !values[i].Null? ==>
      var name := ParamName(prefix, next);
      Then(added, RewriteFrom(getNullSql, f, values, i, prefix, next))
        == Then(added + [DbParam(name, Scalar(values[i]))],
                RewriteFrom(getNullSql, Replace(f, Placeholder(i), "@" + name), values, i + 1, prefix, next + 1))
  {
    if !values[i].Null? {
      var name := ParamName(prefix, next);
      var rest := RewriteFrom(getNullSql, Replace(f, Placeholder(i), "@" + name), values, i + 1, prefix, next + 1);
      Assoc(added, [DbParam(name, Scalar(values[i]))], rest.added);
    }
  }

  /** The parameters the non-null values get, one each, in order, under
      consecutive names; null values get none. */
  function BindNonNull(values: seq<Obj>, prefix: string, next: nat): seq<DbParam>
    decreases |values|
  {
    if |values| == 0 then []
    else if values[0].Null? then BindNonNull(values[1..], prefix, next)
    else [DbParam(ParamName(prefix, next), Scalar(values[0]))] + BindNonNull(values[1..], prefix, next + 1)
  }

  /** The number of non-null values. */
  function CountNonNull(values: seq<Obj>): nat
    decreases |values|
  {
    if |values| == 0 then 0 else (if values[0].Null? then 0 else 1) + CountNonNull(values[1..])
  }

  lemma {:induction false} BindNonNullCount(values: seq<Obj>, prefix: string, next: nat)
    ensures |BindNonNull(values, prefix, next)| == CountNonNull(values)
    decreases |values|
  {
    if |values| > 0 {
      BindNonNullCount(values[1..], prefix, next);
      BindNonNullCount(values[1..], prefix, next + 1);
    }
  }

  lemma TailFrom<T>(values: seq<T>, i: nat)
    requires i < |values|
    ensures values[i..][0] == values[i] && values[i..][1..] == values[i + 1..]
  {
  }

  /** The parameters of a raw filter do not depend on the filter: whatever
      happens, they are the leading part of `BindNonNull` of the values, and
      all of it when the rewrite succeeds. So each non-null value adds exactly
      one parameter and a null one none. */
  lemma {:induction false} RewriteBinds(getNullSql: (string, string) -> string, filter: string, values: seq<Obj>,
                                        i: nat, prefix: string, next: nat)
    requires i <= |values|
    ensures var r := RewriteFrom(getNullSql, filter, values, i, prefix, next);
      && r.added <= BindNonNull(values[i..], prefix, next)
      && (r.outcome.Pass? ==> r.added == BindNonNull(values[i..], prefix, next))
    decreases |values| - i
  {
    if i < |values| && Occurs(filter, Placeholder(i)) {
      TailFrom(values, i);
      if values[i].Null? {
        RewriteBinds(getNullSql, getNullSql(filter, NullPattern(i)), values, i + 1, prefix, next);
      } else {
        var name := ParamName(prefix, next);
        RewriteBinds(getNullSql, Replace(filter, Placeholder(i), "@" + name), values, i + 1, prefix, next + 1);
      }
    }
  }

  /** A placeholder of one value never starts inside the name that replaces another. */
  lemma PlaceholderApart(i: nat, j: nat, prefix: string, next: nat)
    requires NoBraces(prefix)
    ensures var rep := "@" + ParamName(prefix, next);
      |rep| > 0 && Placeholder(i)[0] !in rep && rep[0] !in Placeholder(j)
  {
    ParamNameBraceFree(prefix, next);
  }

  /** With only non-null values and a brace-free name prefix, a successful
      rewrite leaves none of the placeholders `{0}` .. `{n-1}` in the filter:
      every one was replaced by its parameter's name. */
  lemma {:induction false} RewriteReplacesAll(getNullSql: (string, string) -> string, filter: string, values: seq<Obj>,
                                              i: nat, prefix: string, next: nat)
    requires i <= |values| && NoBraces(prefix)
    requires forall k :: i <= k < |values| ==> !values[k].Null?
    requires forall k: nat :: k < i ==> !Occurs(filter, Placeholder(k))
    ensures var r := RewriteFrom(getNullSql, filter, values, i, prefix, next);
      r.outcome.Pass? ==> forall k: nat :: k < |values| ==> !Occurs(r.filter, Placeholder(k))
    decreases |values| - i
  {
    if i < |values| && Occurs(filter, Placeholder(i)) {
      var rep := "@" + ParamName(prefix, next);
      var f := Replace(filter, Placeholder(i), rep);
      forall k: nat | k <= i ensures !Occurs(f, Placeholder(k)) {
        PlaceholderApart(k, i, prefix, next);
        if k == i {
          ReplaceRemoves(filter, Placeholder(i), rep);
        } else {
          ReplaceKeepsAbsent(filter, Placeholder(i), rep, Placeholder(k));
        }
      }
      RewriteReplacesAll(getNullSql, f, values, i + 1, prefix, next + 1);
    }
  }

  /** With only non-null values, a filter that lacks one of `{0}` .. `{n-1}`
      makes the rewrite raise ArgumentException: replacing the other
      placeholders never creates the missing one. */
  lemma {:induction false} MissingPlaceholderFails(getNullSql: (string, string) -> string, filter: string, values: seq<Obj>,
                                                   i: nat, prefix: string, next: nat, k: nat)
    requires i <= k < |values| && NoBraces(prefix)
    requires forall j :: i <= j < |values| ==> !values[j].Null?
    requires !Occurs(filter, Placeholder(k))
    ensures RewriteFrom(getNullSql, filter, values, i, prefix, next).outcome == Fail(Argument("filter"))
    decreases |values| - i
  {
    if k != i && Occurs(filter, Placeholder(i)) {
      var rep := "@" + ParamName(prefix, next);
      PlaceholderApart(k, i, prefix, next);
      var f := Replace(filter, Placeholder(i), rep);
      ReplaceKeepsAbsent(filter, Placeholder(i), rep, Placeholder(k));
      MissingPlaceholderFails(getNullSql, f, values, i + 1, prefix, next + 1, k);
      assert RewriteFrom(getNullSql, filter, values, i, prefix, next).outcome
          == RewriteFrom(getNullSql, f, values, i + 1, prefix, next + 1).outcome;
    }
  }

  /** Past its opening brace, a placeholder holds no `{`. */
  lemma PlaceholderOneBrace(i: nat)
    ensures '{' !in Placeholder(i)[1..]
  {
    var d := NatStr(i);
    assert Placeholder(i)[1..] == d + "}";
    assert forall k :: 0 <= k < |d| ==> IsDigit(d[k]);
  }

  /** Placeholders of different values are not prefixes of one another. */
  lemma PlaceholderNotPrefix(i: nat, j: nat)
    requires i != j
    ensures !(Placeholder(i) <= Placeholder(j))
  {
    var a, b := NatStr(i), NatStr(j);
    if Placeholder(i) <= Placeholder(j) {
      // the `}` closing the shorter one would otherwise face a digit of the longer
      assert Placeholder(i)[|a| + 1] == '}';
      assert forall k :: 0 <= k < |b| ==> Placeholder(j)[k + 1] == b[k];
      assert a == Placeholder(i)[1..|a| + 1] == Placeholder(j)[1..|b| + 1] == b;
      NatStrInjective(i, j);
    }
  }

  /** The converse of `MissingPlaceholderFails`: with only non-null values and
      every placeholder from `{i}` on present in the filter, the rewrite
      succeeds. Replacing one placeholder keeps the others, since two
      placeholders never overlap. */
  lemma {:induction false} PresentPasses(getNullSql: (string, string) -> string, filter: string, values: seq<Obj>,
                                         i: nat, prefix: string, next: nat)
    requires i <= |values|
    requires forall k :: i <= k < |values| ==> !values[k].Null?
    requires forall k :: i <= k < |values| ==> Occurs(filter, Placeholder(k))
    ensures RewriteFrom(getNullSql, filter, values, i, prefix, next).outcome == Pass
    decreases |values| - i
  {
    if i < |values| {
      var rep := "@" + ParamName(prefix, next);
      var f := Replace(filter, Placeholder(i), rep);
      forall k | i + 1 <= k < |values| ensures Occurs(f, Placeholder(k)) {
        PlaceholderOneBrace(i);
        PlaceholderOneBrace(k);
        PlaceholderNotPrefix(i, k);
        PlaceholderNotPrefix(k, i);
        ReplaceKeepsPresent(filter, Placeholder(i), rep, Placeholder(k));
      }
      PresentPasses(getNullSql, f, values, i + 1, prefix, next + 1);
    }
  }

  /** One key of a multi-key filter: `column={j}`. */
  function KeyTerm(column: string, j: nat): string
  {
    column + "=" + Placeholder(j)
  }

  /** The multi-key filter `t1={j} and t2={j+1} ...` over the key columns,
      numbering the placeholders from j. */
  function KeysFrom(columns: seq<string>, j: nat): string
    decreases |columns|
  {
    if |columns| == 0 then ""
    else if |columns| == 1 then KeyTerm(columns[0], j)
    else KeyTerm(columns[0], j) + " and " + KeysFrom(columns[1..], j + 1)
  }

  /** The template of a multi-key filter, placeholders numbered from 0. */
  function KeysTemplate(columns: seq<string>): string
  {
    KeysFrom(columns, 0)
  }

  /** The first four placeholders spelt out. */
  lemma KeyTerms(t: string)
    ensures KeyTerm(t, 0) == t + "={0}" && KeyTerm(t, 1) == t + "={1}"
    ensures KeyTerm(t, 2) == t + "={2}" && KeyTerm(t, 3) == t + "={3}"
  {
    assert NatStr(0) == "0" && NatStr(1) == "1" && NatStr(2) == "2" && NatStr(3) == "3";
  }

  /** The template of the two-key overload. */
  lemma {:induction false} KeysTemplate2(t1: string, t2: string)
    ensures KeysTemplate([t1, t2]) == t1 + "={0} and " + t2 + "={1}"
  {
    KeyTerms(t1); KeyTerms(t2);
    assert [t1, t2][1..] == [t2];
    assert KeysFrom([t2], 1) == t2 + "={1}";
    assert KeysTemplate([t1, t2]) == t1 + "={0}" + " and " + (t2 + "={1}");
  }

  /** The template of the three-key overload. */
  lemma {:induction false} KeysTemplate3(t1: string, t2: string, t3: string)
    ensures KeysTemplate([t1, t2, t3]) == t1 + "={0} and " + t2 + "={1} and " + t3 + "={2}"
  {
    KeyTerms(t1); KeyTerms(t2); KeyTerms(t3);
    assert [t1, t2, t3][1..] == [t2, t3] && [t2, t3][1..] == [t3];
    var rest := t2 + "={1} and " + t3 + "={2}";
    assert KeysFrom([t2, t3], 1) == rest;
    assert KeysTemplate([t1, t2, t3]) == t1 + "={0}" + " and " + rest;
  }

  /** The template of the four-key overload. */
  lemma {:induction false} KeysTemplate4(t1: string, t2: string, t3: string, t4: string)
    ensures KeysTemplate([t1, t2, t3, t4]) == t1 + "={0} and " + t2 + "={1} and " + t3 + "={2} and " + t4 + "={3}"
  {
    KeyTerms(t1); KeyTerms(t2); KeyTerms(t3); KeyTerms(t4);
    assert [t1, t2, t3, t4][1..] == [t2, t3, t4] && [t2, t3, t4][1..] == [t3, t4] && [t3, t4][1..] == [t4];
    var last := t3 + "={2} and " + t4 + "={3}";
    assert KeysFrom([t3, t4], 2) == last;
    var rest := t2 + "={1} and " + last;
    assert KeysFrom([t2, t3, t4], 1) == rest;
    assert KeysTemplate([t1, t2, t3, t4]) == t1 + "={0}" + " and " + rest;
  }

  /** The key columns, read one selector after another; the first failure is raised. */
  function Columns(db: DataBaseType, selectors: seq<Expr>): (r: Result<seq<string>>)
    ensures r.Ok? ==> |r.value| == |selectors|
    decreases |selectors|
  {
    if |selectors| == 0 then Ok([])
    else
      var head :- GetSelector(db, selectors[0]);
      var rest :- Columns(db, selectors[1..]);
      Ok([OrEmpty(head)] + rest)
  }

  /** The rows of a multi-key filter: each row's raw filter added to the OR
      buffer, stopping at the first failure. */
  datatype Batch = Batch(outcome: Outcome, fragments: seq<string>, added: seq<DbParam>)

  /** Rows k onwards of a multi-key filter, after the batch `done` of the
      rows before them: each row's raw filter is rewritten with the next free
      parameter number; a failing row ends the batch with what it added. */
  function RowsFrom(getNullSql: (string, string) -> string, template: string, rows: seq<seq<Obj>>, k: nat,
                    prefix: string, next: nat, done: Batch): Batch
    decreases |rows| - k
  {
    if k >= |rows| then done
    else
      var r := FormatFilter(getNullSql, template, rows[k], prefix, next);
      if r.outcome.Fail? then Batch(r.outcome, done.fragments, done.added + r.added)
      else RowsFrom(getNullSql, template, rows, k + 1, prefix, next + |r.added|,
                    Batch(Pass, done.fragments + [Paren(r.filter)], done.added + r.added))
  }

  /** All the rows of a multi-key filter. */
  function RewriteRows(getNullSql: (string, string) -> string, template: string, rows: seq<seq<Obj>>,
                       prefix: string, next: nat): Batch
  {
    RowsFrom(getNullSql, template, rows, 0, prefix, next, Batch(Pass, [], []))
  }

  /** A successful batch adds one buffer entry per row. */
  lemma {:induction false} RowsFragments(getNullSql: (string, string) -> string, template: string, rows: seq<seq<Obj>>,
                                         k: nat, prefix: string, next: nat, done: Batch)
    requires k <= |rows|
    ensures var b := RowsFrom(getNullSql, template, rows, k, prefix, next, done);
      b.outcome.Pass? && done.outcome.Pass? ==> |b.fragments| == |done.fragments| + |rows| - k
    decreases |rows| - k
  {
    if k < |rows| {
      var r := FormatFilter(getNullSql, template, rows[k], prefix, next);
      RowsFragments(getNullSql, template, rows, k + 1, prefix, next + |r.added|,
                    Batch(Pass, done.fragments + [Paren(r.filter)], done.added + r.added));
    }
  }

  /** A multi-key group opened on an empty buffer and closed after a
      successful batch: the buffer is left empty and the AND list grows by
      exactly one entry, or by none when there are no rows. */
  lemma {:induction false} KeysGroup(getNullSql: (string, string) -> string, template: string, rows: seq<seq<Obj>>,
                                     prefix: string, next: nat, whereList: seq<string>)
    ensures var b := RewriteRows(getNullSql, template, rows, prefix, next);
      var f := EndOr(Filters(whereList, [] + b.fragments));
      b.outcome.Pass? ==>
        && f.orExpression == []
        && |f.whereList| == |whereList| + (if |rows| == 0 then 0 else 1)
        && (|rows| == 0 ==> f.whereList == whereList)
  {
    RowsFragments(getNullSql, template, rows, 0, prefix, next, Batch(Pass, [], []));
    var b := RewriteRows(getNullSql, template, rows, prefix, next);
    assert [] + b.fragments == b.fragments;
  }

  /** The multi-key filter from j on holds the placeholder `{k}` of each of
      its columns, j <= k < j + n. */
  lemma {:induction false} KeysHoldPlaceholder(columns: seq<string>, j: nat, k: nat)
    requires j <= k < j + |columns|
    ensures Occurs(KeysFrom(columns, j), Placeholder(k))
    decreases |columns|
  {
    var term := KeyTerm(columns[0], j);
    var tail := if |columns| == 1 then "" else " and " + KeysFrom(columns[1..], j + 1);
    assert KeysFrom(columns, j) == term + tail;
    if k == j {
      var head := columns[0] + "=";
      assert term + tail == head + (Placeholder(j) + tail);
      assert Occurs(Placeholder(j) + tail, Placeholder(j));
      OccursInSuffix(term + tail, Placeholder(j), |head|);
    } else {
      var rest := KeysFrom(columns[1..], j + 1);
      KeysHoldPlaceholder(columns[1..], j + 1, k);
      assert (term + tail)[|term| + 5..] == rest;
      OccursInSuffix(term + tail, Placeholder(k), |term| + 5);
    }
  }

  /** A row of values none of which is null. */
  predicate NonNullRow(row: seq<Obj>)
  {
    forall v :: 0 <= v < |row| ==> !row[v].Null?
  }

  /** A row the template can take: no null value, and the placeholder of each value present. */
  predicate FitsTemplate(template: string, row: seq<Obj>)
  {
    NonNullRow(row) && forall v :: 0 <= v < |row| ==> Occurs(template, Placeholder(v))
  }

  /** Rows from k on that all fit the template never fail the batch. */
  lemma {:induction false} RowsPass(getNullSql: (string, string) -> string, template: string, rows: seq<seq<Obj>>, k: nat,
                                    prefix: string, next: nat, done: Batch)
    requires k <= |rows| && template != "" && done.outcome == Pass
    requires forall r :: k <= r < |rows| ==> FitsTemplate(template, rows[r])
    ensures RowsFrom(getNullSql, template, rows, k, prefix, next, done).outcome == Pass
    decreases |rows| - k
  {
    if k < |rows| {
      var r := FormatFilter(getNullSql, template, rows[k], prefix, next);
      if |rows[k]| > 0 {
        PresentPasses(getNullSql, template, rows[k], 0, prefix, next);
      }
      RowsPass(getNullSql, template, rows, k + 1, prefix, next + |r.added|,
               Batch(Pass, done.fragments + [Paren(r.filter)], done.added + r.added));
    }
  }

  /** The multi-key `Where` over rows of non-null values, one per key column:
      every row passes, so the group closes with the buffer empty and exactly
      one new AND entry, or none when there are no rows. */
  lemma KeysGroupPasses(getNullSql: (string, string) -> string, columns: seq<string>, rows: seq<seq<Obj>>,
                        prefix: string, next: nat, whereList: seq<string>)
    requires |columns| > 0
    requires forall r :: 0 <= r < |rows| ==> |rows[r]| == |columns| && NonNullRow(rows[r])
    ensures var b := RewriteRows(getNullSql, KeysTemplate(columns), rows, prefix, next);
      var f := EndOr(Filters(whereList, [] + b.fragments));
      && b.outcome == Pass
      && f.orExpression == []
      && |f.whereList| == |whereList| + (if |rows| == 0 then 0 else 1)
      && (|rows| == 0 ==> f.whereList == whereList)
  {
    var template := KeysTemplate(columns);
    forall r | 0 <= r < |rows| ensures FitsTemplate(template, rows[r]) {
      forall v | 0 <= v < |rows[r]| ensures Occurs(template, Placeholder(v)) {
        KeysHoldPlaceholder(columns, 0, v);
      }
    }
    KeysHoldPlaceholder(columns, 0, 0);
    RowsPass(getNullSql, template, rows, 0, prefix, next, Batch(Pass, [], []));
    KeysGroup(getNullSql, template, rows, prefix, next, whereList);
  }

  /** `ISqlBuilder` as the EXISTS and IN forms use it: a nested query with its
      projected fields, its parameters, and a command text that depends on
      the fields. */
  class SubQuery {
    var Fields: string
    var Params: seq<DbParam>
    const render: string -> string

    constructor (fields: string, params: seq<DbParam>, render: string -> string)
      ensures Fields == fields && Params == params && this.render == render
    {
      Fields := fields;
      Params := params;
      this.render := render;
    }

    function CommandText(): string
      reads this
    {
      render(Fields)
    }
  }

  /** The builder: its dialect, the shared name source, the `GetNullSql`
      rewrite, the AND list, the parameters, the return-default flag, and the
      OR flag with its buffer. */
  class WhereBuilder {
    const dataBaseType: DataBaseType
    const paramsIndex: ParamsIndex
    const getNullSql: (string, string) -> string
    var WhereList: seq<string>
    var Params: seq<DbParam>
    var IsReturnDefault: bool
    var isOrState: bool
    var orExpression: seq<string>

    /** Outside an OR group the buffer is empty. */
    predicate Valid()
      reads this
    {
      !isOrState ==> orExpression == []
    }

    function Lists(): Filters
      reads this
    {
      Filters(WhereList, orExpression)
    }

    function Prefix(): string
    {
      paramsIndex.prefix
    }

    constructor (db: DataBaseType, paramsIndex: ParamsIndex, getNullSql: (string, string) -> string)
      ensures Valid() && dataBaseType == db && this.paramsIndex == paramsIndex && this.getNullSql == getNullSql
      ensures WhereList == [] && Params == [] && !IsReturnDefault && !isOrState && orExpression == []
    {
      dataBaseType := db;
      this.paramsIndex := paramsIndex;
      this.getNullSql := getNullSql;
      WhereList := [];
      Params := [];
      IsReturnDefault := false;
      isOrState := false;
      orExpression := [];
    }

    /** `AddParameter(out index, value)`: binds the value under the next name. */
    method AddParameter(value: ParamValue) returns (name: string)
      modifies this`Params, paramsIndex`issued
      ensures name == ParamName(Prefix(), old(paramsIndex.issued)) && paramsIndex.issued == old(paramsIndex.issued) + 1
      ensures Params == old(Params) + [DbParam(name, value)]
    {
      name := paramsIndex.Next();
      Params := Params + [DbParam(name, value)];
    }

    /** `AddParameters(ps)`: forwards parameters bound elsewhere. */
    method AddParameters(ps: seq<DbParam>)
      modifies this`Params
      ensures Params == old(Params) + ps
    {
      Params := Params + ps;
    }

    /** `Where(string)`: the bracketed filter goes to the OR buffer while a
        group is open and to the AND list otherwise; the other list is unchanged. */
    method Where(w: string)
      modifies this`WhereList, this`orExpression
      ensures Lists() == AddFilter(old(Lists()), isOrState, w)
    {
      if isOrState {
        orExpression := orExpression + [Paren(w)];
      } else {
        WhereList := WhereList + [Paren(w)];
      }
    }

    method WhereStartOr()
      requires Valid()
      modifies this`isOrState
      ensures isOrState && Valid()
    {
      isOrState := true;
    }

    /** Closes the OR group and flushes the buffer into the AND list. */
    method WhereEndOr()
      modifies this`isOrState, this`WhereList, this`orExpression
      ensures !isOrState && Valid()
      ensures Lists() == EndOr(old(Lists()))
    {
      isOrState := false;
      if |orExpression| > 0 {
        Where(Join(" OR ", orExpression));
        orExpression := [];
      }
    }

    /** `Where(predicate, isAdd)`: compiles the predicate in bound mode,
        forwards its parameters and adds its command text. */
    method WherePredicate(e: Expr, isAdd: bool) returns (outcome: Outcome)
      requires Valid()
      modifies this`Params, this`WhereList, this`orExpression, paramsIndex`issued
      ensures Valid()
      ensures !isAdd ==> outcome == Pass && unchanged(this, paramsIndex)
      ensures var r := WhereBound(dataBaseType, e, Prefix(), old(paramsIndex.issued));
        && (isAdd && r.Err? ==> outcome == Fail(r.error) && Params == old(Params) && Lists() == old(Lists()))
        && (isAdd && r.Ok? ==>
              outcome == Pass && Params == old(Params) + r.value.Parameters
              && paramsIndex.issued == old(paramsIndex.issued) + |r.value.Parameters|
              && Lists() == AddFilter(old(Lists()), isOrState, r.value.CmdText))
      ensures isAdd ==> var c := Built(dataBaseType, e);
        paramsIndex.issued == old(paramsIndex.issued) + (if c.Ok? then |c.value.arguments| else 0)
    {
      if !isAdd {
        return Pass;
      }
      var info := GetWhere(dataBaseType, e, paramsIndex);
      if info.Err? {
        return Fail(info.error);
      }
      AddParameters(info.value.Parameters);
      Where(info.value.CmdText);
      outcome := Pass;
    }

    /** `WhereAny(key, values)`: one value gives `key = @p`, several give
        `key = any(@p)` with the collection bound as one parameter; no values
        raise ArgumentNullException and change nothing. */
    method WhereAny(key: string, values: seq<Obj>) returns (outcome: Outcome)
      requires Valid()
      modifies this`Params, this`WhereList, this`orExpression, paramsIndex`issued
      ensures Valid()
      ensures |values| == 0 ==> outcome == Fail(ArgumentNull("values")) && unchanged(this, paramsIndex)
      ensures |values| > 0 ==> var name := ParamName(Prefix(), old(paramsIndex.issued));
        && outcome == Pass && paramsIndex.issued == old(paramsIndex.issued) + 1
        && Params == old(Params) + [DbParam(name, if |values| == 1 then Scalar(values[0]) else List(values))]
        && Lists() == AddFilter(old(Lists()), isOrState,
             if |values| == 1 then key + " = @" + name else key + " = any(@" + name + ")")
    {
      if |values| == 0 {
        return Fail(ArgumentNull("values"));
      }
      if |values| == 1 {
        var index1 := AddParameter(Scalar(values[0]));
        Where(key + " = @" + index1);
        return Pass;
      }
      var index := AddParameter(List(values));
      Where(key + " = any(@" + index + ")");
      outcome := Pass;
    }

    /** `WhereNotAny(key, values)`: `key <> @p` for one value, `key <> all(@p)`
        for several; no values raise ArgumentNullException and change nothing. */
    method WhereNotAny(key: string, values: seq<Obj>) returns (outcome: Outcome)
      requires Valid()
      modifies this`Params, this`WhereList, this`orExpression, paramsIndex`issued
      ensures Valid()
      ensures |values| == 0 ==> outcome == Fail(ArgumentNull("values")) && unchanged(this, paramsIndex)
      ensures |values| > 0 ==> var name := ParamName(Prefix(), old(paramsIndex.issued));
        && outcome == Pass && paramsIndex.issued == old(paramsIndex.issued) + 1
        && Params == old(Params) + [DbParam(name, if |values| == 1 then Scalar(values[0]) else List(values))]
        && Lists() == AddFilter(old(Lists()), isOrState,
             if |values| == 1 then key + " <> @" + name else key + " <> all(@" + name + ")")
    {
      if |values| == 0 {
        return Fail(ArgumentNull("values"));
      }
      if |values| == 1 {
        var index1 := AddParameter(Scalar(values[0]));
        Where(key + " <> @" + index1);
        return Pass;
      }
      var index := AddParameter(List(values));
      Where(key + " <> all(@" + index + ")");
      outcome := Pass;
    }

    /** The selector overloads of `WhereAny`: the selector is compiled first
        (its failure raised before the values are looked at), and a null
        column reads as empty text. */
    method WhereAnyOf(selector: Expr, values: seq<Obj>) returns (outcome: Outcome)
      requires Valid()
      modifies this`Params, this`WhereList, this`orExpression, paramsIndex`issued
      ensures Valid()
      ensures var key := GetSelector(dataBaseType, selector);
        && (key.Err? ==> outcome == Fail(key.error) && unchanged(this, paramsIndex))
        && (key.Ok? && |values| == 0 ==> outcome == Fail(ArgumentNull("values")) && unchanged(this, paramsIndex))
        && (key.Ok? && |values| > 0 ==> var name := ParamName(Prefix(), old(paramsIndex.issued));
              && outcome == Pass && paramsIndex.issued == old(paramsIndex.issued) + 1
              && Params == old(Params) + [DbParam(name, if |values| == 1 then Scalar(values[0]) else List(values))]
              && Lists() == AddFilter(old(Lists()), isOrState, if |values| == 1 then OrEmpty(key.value) + " = @" + name
                                                               else OrEmpty(key.value) + " = any(@" + name + ")"))
    {
      var key := GetSelector(dataBaseType, selector);
      if key.Err? {
        return Fail(key.error);
      }
      outcome := WhereAny(OrEmpty(key.value), values);
    }

    /** The selector overloads of `WhereNotAny`. */
    method WhereNotAnyOf(selector: Expr, values: seq<Obj>) returns (outcome: Outcome)
      requires Valid()
      modifies this`Params, this`WhereList, this`orExpression, paramsIndex`issued
      ensures Valid()
      ensures var key := GetSelector(dataBaseType, selector);
        && (key.Err? ==> outcome == Fail(key.error) && unchanged(this, paramsIndex))
        && (key.Ok? && |values| == 0 ==> outcome == Fail(ArgumentNull("values")) && unchanged(this, paramsIndex))
        && (key.Ok? && |values| > 0 ==> var name := ParamName(Prefix(), old(paramsIndex.issued));
              && outcome == Pass && paramsIndex.issued == old(paramsIndex.issued) + 1
              && Params == old(Params) + [DbParam(name, if |values| == 1 then Scalar(values[0]) else List(values))]
              && Lists() == AddFilter(old(Lists()), isOrState, if |values| == 1 then OrEmpty(key.value) + " <> @" + name
                                                               else OrEmpty(key.value) + " <> all(@" + name + ")"))
    {
      var key := GetSelector(dataBaseType, selector);
      if key.Err? {
        return Fail(key.error);
      }
      outcome := WhereNotAny(OrEmpty(key.value), values);
    }

    /** `WhereAnyOrDefault`: no values set `IsReturnDefault` and add nothing
        (the selector is not even compiled); otherwise it is `WhereAny`. */
    method WhereAnyOrDefault(selector: Expr, values: seq<Obj>) returns (outcome: Outcome)
      requires Valid()
      modifies this`Params, this`WhereList, this`orExpression, this`IsReturnDefault, paramsIndex`issued
      ensures Valid()
      ensures |values| == 0 ==>
        outcome == Pass && IsReturnDefault && Params == old(Params) && Lists() == old(Lists()) && unchanged(paramsIndex)
      ensures |values| > 0 ==> IsReturnDefault == old(IsReturnDefault)
      ensures var key := GetSelector(dataBaseType, selector); |values| > 0 ==>
        && (key.Err? ==> outcome == Fail(key.error) && Params == old(Params) && Lists() == old(Lists()) && unchanged(paramsIndex))
        && (key.Ok? ==> var name := ParamName(Prefix(), old(paramsIndex.issued));
              && outcome == Pass && paramsIndex.issued == old(paramsIndex.issued) + 1
              && Params == old(Params) + [DbParam(name, if |values| == 1 then Scalar(values[0]) else List(values))]
              && Lists() == AddFilter(old(Lists()), isOrState, if |values| == 1 then OrEmpty(key.value) + " = @" + name
                                                               else OrEmpty(key.value) + " = any(@" + name + ")"))
    {
      if |values| == 0 {
        IsReturnDefault := true;
        return Pass;
      }
      outcome := WhereAnyOf(selector, values);
    }

    /** `WhereIn` (`negated` false) and `WhereNotIn` (true) over a nested
        query: a null query raises ArgumentNullException; otherwise its
        parameters are forwarded first, then the selector is compiled and
        `column IN (command)` or `column NOT IN (command)` is added. */
    method WhereIn(selector: Expr, sqlBuilder: SubQuery?, negated: bool) returns (outcome: Outcome)
      requires Valid()
      modifies this`Params, this`WhereList, this`orExpression
      ensures Valid()
      ensures sqlBuilder == null ==> outcome == Fail(ArgumentNull("sqlBuilder")) && unchanged(this)
      ensures sqlBuilder != null ==> Params == old(Params) + sqlBuilder.Params && var key := GetSelector(dataBaseType, selector);
        && (key.Err? ==> outcome == Fail(key.error) && Lists() == old(Lists()))
        && (key.Ok? ==> outcome == Pass && Lists() == AddFilter(old(Lists()), isOrState,
              OrEmpty(key.value) + (if negated then " NOT IN (" else " IN (") + sqlBuilder.CommandText() + ")"))
    {
      if sqlBuilder == null {
        return Fail(ArgumentNull("sqlBuilder"));
      }
      AddParameters(sqlBuilder.Params);
      var key := GetSelector(dataBaseType, selector);
      if key.Err? {
        return Fail(key.error);
      }
      Where(OrEmpty(key.value) + (if negated then " NOT IN (" else " IN (") + sqlBuilder.CommandText() + ")");
      outcome := Pass;
    }

    /** `WhereExists` (`negated` false) and `WhereNotExists` (true): a null
        query raises ArgumentNullException; otherwise its parameters are
        forwarded, its projection is set to `1` and `EXISTS (command)` or
        `NOT EXISTS (command)` is added with the command read after that. */
    method WhereExists(sqlBuilder: SubQuery?, negated: bool) returns (outcome: Outcome)
      requires Valid()
      modifies this`Params, this`WhereList, this`orExpression, sqlBuilder
      ensures Valid()
      ensures sqlBuilder == null ==> outcome == Fail(ArgumentNull("sqlBuilder")) && unchanged(this)
      ensures sqlBuilder != null ==>
        && outcome == Pass && sqlBuilder.Fields == "1" && sqlBuilder.Params == old(sqlBuilder.Params)
        && Params == old(Params) + sqlBuilder.Params
        && Lists() == AddFilter(old(Lists()), isOrState,
             (if negated then "NOT EXISTS (" else "EXISTS (") + sqlBuilder.render("1") + ")")
    {
      if sqlBuilder == null {
        return Fail(ArgumentNull("sqlBuilder"));
      }
      AddParameters(sqlBuilder.Params);
      sqlBuilder.Fields := "1";
      Where((if negated then "NOT EXISTS (" else "EXISTS (") + sqlBuilder.CommandText() + ")");
      outcome := Pass;
    }

    /** `Where(filter, values)`: the raw filter with its `{i}` placeholders
        rewritten as `FormatFilter` says, added only when the rewrite
        succeeds; parameters bound before a failure stay bound. */
    method WhereFormat(filter: string, values: seq<Obj>) returns (outcome: Outcome)
      requires Valid()
      modifies this`Params, this`WhereList, this`orExpression, paramsIndex`issued
      ensures Valid()
      ensures var r := FormatFilter(getNullSql, filter, values, Prefix(), old(paramsIndex.issued));
        && outcome == r.outcome
        && Params == old(Params) + r.added && paramsIndex.issued == old(paramsIndex.issued) + |r.added|
        && Lists() == if r.outcome.Pass? then AddFilter(old(Lists()), isOrState, r.filter) else old(Lists())
    {
      if filter == "" {
        return Fail(ArgumentNull("filter"));
      }
      if |values| == 0 {
        Where(getNullSql(filter, AnyDigitPattern));
        return Pass;
      }
      outcome := RewriteAndAdd(filter, values);
    }

    /** The loop of `Where(filter, values)` and the final `Where(filter)`. */
    method RewriteAndAdd(filter: string, values: seq<Obj>) returns (outcome: Outcome)
      requires Valid()
      modifies this`Params, this`WhereList, this`orExpression, paramsIndex`issued
      ensures Valid()
      ensures var r := RewriteFrom(getNullSql, filter, values, 0, Prefix(), old(paramsIndex.issued));
        && outcome == r.outcome
        && Params == old(Params) + r.added && paramsIndex.issued == old(paramsIndex.issued) + |r.added|
        && Lists() == if r.outcome.Pass? then AddFilter(old(Lists()), isOrState, r.filter) else old(Lists())
    {
      var f;
      outcome, f := BindPlaceholders(filter, values);
      if outcome.Pass? {
        Where(f);
      }
    }

    /** The loop over the values of `Where(filter, values)`: each `{i}` is
        checked, then rewritten through `GetNullSql` for a null value or
        replaced by a freshly bound parameter. */
    method BindPlaceholders(filter: string, values: seq<Obj>) returns (outcome: Outcome, f: string)
      modifies this`Params, paramsIndex`issued
      ensures var r := RewriteFrom(getNullSql, filter, values, 0, Prefix(), old(paramsIndex.issued));
        && outcome == r.outcome && f == r.filter
        && Params == old(Params) + r.added && paramsIndex.issued == old(paramsIndex.issued) + |r.added|
    {
      f := filter;
      ghost var added: seq<DbParam> := [];
      ghost var whole := RewriteFrom(getNullSql, filter, values, 0, Prefix(), paramsIndex.issued);
      assert whole == Then([], whole);
      for i := 0 to |values|
        invariant Params == old(Params) + added && paramsIndex.issued == old(paramsIndex.issued) + |added|
        invariant whole == Then(added, RewriteFrom(getNullSql, f, values, i, Prefix(), paramsIndex.issued))
      {
        var index := Placeholder(i);
        if !Occurs(f, index) {
          EmptyAppend(added);
          return Fail(Argument("filter")), f;
        }
        RewriteStep(getNullSql, f, values, i, Prefix(), paramsIndex.issued, added);
        if values[i].Null? {
          f := getNullSql(f, NullPattern(i));
        } else {
          var pIndex := AddParameter(Scalar(values[i]));
          f := Replace(f, index, "@" + pIndex);
          Assoc(old(Params), added, [DbParam(pIndex, Scalar(values[i]))]);
          added := added + [DbParam(pIndex, Scalar(values[i]))];
        }
      }
      EmptyAppend(added);
      outcome := Pass;
    }

    /** The `isAdd` overload of `Where(filter, values)`. */
    method WhereFormatIf(isAdd: bool, filter: string, values: seq<Obj>) returns (outcome: Outcome)
      requires Valid()
      modifies this`Params, this`WhereList, this`orExpression, paramsIndex`issued
      ensures Valid()
      ensures !isAdd ==> outcome == Pass && unchanged(this, paramsIndex)
      ensures isAdd ==> var r := FormatFilter(getNullSql, filter, values, Prefix(), old(paramsIndex.issued));
        && outcome == r.outcome
        && Params == old(Params) + r.added && paramsIndex.issued == old(paramsIndex.issued) + |r.added|
        && Lists() == if r.outcome.Pass? then AddFilter(old(Lists()), isOrState, r.filter) else old(Lists())
    {
      if !isAdd {
        return Pass;
      }
      outcome := WhereFormat(filter, values);
    }

    /** The `isAdd` overload taking a filter-producing function, called only when adding. */
    method WhereIf(isAdd: bool, filter: () -> string)
      requires Valid()
      modifies this`WhereList, this`orExpression
      ensures Valid()
      ensures !isAdd ==> unchanged(this)
      ensures isAdd ==> Lists() == AddFilter(old(Lists()), isOrState, filter())
    {
      if isAdd {
        Where(filter());
      }
    }

    /** The `isAdd` overload taking a function that produces a raw filter and its values. */
    method WhereFormatOf(isAdd: bool, filter: () -> (string, seq<Obj>)) returns (outcome: Outcome)
      requires Valid()
      modifies this`Params, this`WhereList, this`orExpression, paramsIndex`issued
      ensures Valid()
      ensures !isAdd ==> outcome == Pass && unchanged(this, paramsIndex)
      ensures isAdd ==> var r := FormatFilter(getNullSql, filter().0, filter().1, Prefix(), old(paramsIndex.issued));
        && outcome == r.outcome
        && Params == old(Params) + r.added && paramsIndex.issued == old(paramsIndex.issued) + |r.added|
        && Lists() == if r.outcome.Pass? then AddFilter(old(Lists()), isOrState, r.filter) else old(Lists())
    {
      if !isAdd {
        return Pass;
      }
      var (sql, ps) := filter();
      outcome := WhereFormat(sql, ps);
    }

    /** The multi-key `Where<T1, ..., T4>`: the key columns are compiled in
        order, an OR group is opened, every row adds `t1={0} and t2={1} ...`
        with its values, and the group is closed. On success the group is
        closed with an empty buffer and the AND list got at most one entry;
        a failing row leaves the group open. */
    method WhereKeys(selectors: seq<Expr>, rows: seq<seq<Obj>>) returns (outcome: Outcome)
      requires Valid()
      requires 2 <= |selectors| <= 4 && forall k :: 0 <= k < |rows| ==> |rows[k]| == |selectors|
      modifies this`Params, this`WhereList, this`orExpression, this`isOrState, paramsIndex`issued
      ensures Valid()
      ensures var columns := Columns(dataBaseType, selectors);
        && (columns.Err? ==> outcome == Fail(columns.error) && unchanged(this, paramsIndex))
        && (columns.Ok? ==>
              var b := RewriteRows(getNullSql, KeysTemplate(columns.value), rows, Prefix(), old(paramsIndex.issued));
              && outcome == b.outcome
              && Params == old(Params) + b.added && paramsIndex.issued == old(paramsIndex.issued) + |b.added|
              && (b.outcome.Pass? ==>
                    && !isOrState && orExpression == []
                    && Lists() == EndOr(Filters(old(WhereList), old(orExpression) + b.fragments))
                    && |old(WhereList)| <= |WhereList| <= |old(WhereList)| + 1)
              && (b.outcome.Fail? ==> isOrState && Lists() == Filters(old(WhereList), old(orExpression) + b.fragments)))
      ensures Columns(dataBaseType, selectors).Ok? && (forall k :: 0 <= k < |rows| ==> NonNullRow(rows[k])) ==> outcome == Pass
    {
      var columns := Columns(dataBaseType, selectors);
      if columns.Err? {
        return Fail(columns.error);
      }
      if forall k :: 0 <= k < |rows| ==> NonNullRow(rows[k]) {
        KeysGroupPasses(getNullSql, columns.value, rows, Prefix(), paramsIndex.issued, WhereList);
      }
      WhereStartOr();
      outcome := AddRows(KeysTemplate(columns.value), rows);
      if outcome.Pass? {
        WhereEndOr();
      }
    }

    /** One row of the multi-key `Where`: its raw filter goes to the open OR group. */
    method AddRow(template: string, row: seq<Obj>) returns (outcome: Outcome)
      requires Valid() && isOrState
      modifies this`Params, this`WhereList, this`orExpression, paramsIndex`issued
      ensures var r := FormatFilter(getNullSql, template, row, Prefix(), old(paramsIndex.issued));
        && outcome == r.outcome
        && Params == old(Params) + r.added && paramsIndex.issued == old(paramsIndex.issued) + |r.added|
        && WhereList == old(WhereList)
        && orExpression == old(orExpression) + (if r.outcome.Pass? then [Paren(r.filter)] else [])
    {
      outcome := WhereFormat(template, row);
    }

    /** The row loop of the multi-key `Where`: each row's raw filter goes to
        the open OR group; the first failing row stops the loop. */
    method AddRows(template: string, rows: seq<seq<Obj>>) returns (outcome: Outcome)
      requires Valid() && isOrState
      modifies this`Params, this`WhereList, this`orExpression, paramsIndex`issued
      ensures Valid()
      ensures var b := RewriteRows(getNullSql, template, rows, Prefix(), old(paramsIndex.issued));
        && outcome == b.outcome
        && Params == old(Params) + b.added && paramsIndex.issued == old(paramsIndex.issued) + |b.added|
        && Lists() == Filters(old(WhereList), old(orExpression) + b.fragments)
    {
      ghost var fragments: seq<string> := [];
      ghost var added: seq<DbParam> := [];
      ghost var whole := RewriteRows(getNullSql, template, rows, Prefix(), paramsIndex.issued);
      outcome := Pass;
      for k := 0 to |rows|
        invariant outcome == Pass
        invariant Params == old(Params) + added && paramsIndex.issued == old(paramsIndex.issued) + |added|
        invariant WhereList == old(WhereList) && orExpression == old(orExpression) + fragments
        invariant whole == RowsFrom(getNullSql, template, rows, k, Prefix(), paramsIndex.issued, Batch(Pass, fragments, added))
      {
        ghost var r := FormatFilter(getNullSql, template, rows[k], Prefix(), paramsIndex.issued);
        outcome := AddRow(template, rows[k]);
        Assoc(old(Params), added, r.added);
        if outcome.Fail? {
          return;
        }
        Assoc(old(orExpression), fragments, [Paren(r.filter)]);
        fragments := fragments + [Paren(r.filter)];
        added := added + r.added;
      }
    }
  }
}
