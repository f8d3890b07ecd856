/** SQL fragments as sequences of tokens: literal text and `{N}` placeholders.
    `Render` gives the exact string the source builds; `Holes` lists the
    placeholder indices in order; `Format` is `string.Format` on a rendered
    fragment. */
module Templates {
  import opened Strings
  import opened Common

  datatype Token = Lit(text: string) | Hole(index: nat)

  type Template = seq<Token>

  /** The text of a placeholder: `{` N `}`. */
  function HoleText(n: nat): (r: string)
    ensures |r| >= 3 && r[0] == '{' && r[|r| - 1] == '}'
  {
    "{" + NatStr(n) + "}"
  }

  function TokenText(k: Token): string
  {
    match k
    case Lit(s) => s
    case Hole(n) => HoleText(n)
  }

  function Render(t: Template): string
  {
    if |t| == 0 then "" else TokenText(t[0]) + Render(t[1..])
  }

  lemma {:induction false} RenderAppend(a: Template, b: Template)
    ensures Render(a + b) == Render(a) + Render(b)
  {
    if |a| == 0 {
      assert a + b == b;
    } else {
      AppendTail(a, b);
      RenderAppend(a[1..], b);
      Regroup(Render(a + b), TokenText(a[0]), Render(a[1..] + b), Render(a[1..]), Render(b), Render(a));
    }
  }

  /** Placeholders 0 and 1 render as `{0}` and `{1}`. */
  lemma HoleTextSmall()
    ensures HoleText(0) == "{0}" && HoleText(1) == "{1}"
  {
  }

  /** The placeholder indices of a fragment, left to right. */
  function Holes(t: Template): seq<nat>
  {
    if |t| == 0 then [] else (if t[0].Hole? then [t[0].index] else []) + Holes(t[1..])
  }

  lemma {:induction false} HolesAppend(a: Template, b: Template)
    ensures Holes(a + b) == Holes(a) + Holes(b)
  {
    if |a| == 0 {
      assert a + b == b;
    } else {
      var h: seq<nat> := if a[0].Hole? then [a[0].index] else [];
      AppendTail(a, b);
      HolesAppend(a[1..], b);
      Regroup(Holes(a + b), h, Holes(a[1..] + b), Holes(a[1..]), Holes(b), Holes(a));
    }
  }

  /** A fragment of one token. */
  lemma Single(k: Token)
    ensures Render([k]) == TokenText(k)
    ensures Holes([k]) == if k.Hole? then [k.index] else []
    ensures LitsBraceFree([k]) <==> (k.Lit? ==> NoBraces(k.text))
  {
    assert [k][1..] == [];
  }

  /** One token after a fragment. */
  lemma Append1(t: Template, k: Token)
    ensures Render(t + [k]) == Render(t) + TokenText(k)
    ensures Holes(t + [k]) == Holes(t) + (if k.Hole? then [k.index] else [])
    ensures LitsBraceFree(t + [k]) <==> LitsBraceFree(t) && (k.Lit? ==> NoBraces(k.text))
  {
    Single(k);
    RenderAppend(t, [k]);
    HolesAppend(t, [k]);
    BraceFreeAppend(t, [k]);
  }

  /** The indices lo, lo + 1, ..., hi - 1. */
  function Range(lo: nat, hi: nat): seq<nat>
    requires lo <= hi
    decreases hi - lo
  {
    if lo == hi then [] else [lo] + Range(lo + 1, hi)
  }

  lemma {:induction false} RangeAppend(a: nat, b: nat, c: nat)
    requires a <= b <= c
    ensures Range(a, b) + Range(b, c) == Range(a, c)
    decreases b - a
  {
    if a < b {
      RangeAppend(a + 1, b, c);
    }
  }

  lemma {:induction false} RangeBounds(lo: nat, hi: nat, k: nat)
    requires lo <= hi && k < |Range(lo, hi)|
    ensures Range(lo, hi)[k] == lo + k && k < hi - lo
    decreases hi - lo
  {
    if k > 0 {
      RangeBounds(lo + 1, hi, k - 1);
    }
  }

  /** Every placeholder of `t` names one of the first `n` arguments. */
  predicate HolesBelow(t: Template, n: nat)
  {
    forall i :: 0 <= i < |t| && t[i].Hole? ==> t[i].index < n
  }

  lemma {:induction false} HoleListed(t: Template, i: nat)
    requires i < |t| && t[i].Hole?
    ensures t[i].index in Holes(t)
  {
    if i > 0 {
      HoleListed(t[1..], i - 1);
    }
  }

  /** When the placeholders are exactly 0, 1, ..., n - 1, each names one of the n arguments. */
  lemma HolesBelowOfRange(t: Template, n: nat)
    requires Holes(t) == Range(0, n)
    ensures HolesBelow(t, n)
  {
    forall i | 0 <= i < |t| && t[i].Hole?
      ensures t[i].index < n
    {
      HoleListed(t, i);
      var k :| 0 <= k < |Holes(t)| && Holes(t)[k] == t[i].index;
      RangeBounds(0, n, k);
    }
  }

  /** No literal text of `t` holds a brace, so `string.Format` reads only its placeholders. */
  predicate LitsBraceFree(t: Template)
  {
    forall i :: 0 <= i < |t| && t[i].Lit? ==> NoBraces(t[i].text)
  }

  /** `Trim()` of a rendered fragment, done on its tokens: leading white space of
      the first literals and trailing white space of the last ones is dropped. */
  function TrimStartT(t: Template): Template
  {
    if |t| == 0 then []
    else match t[0]
      case Hole(_) => t
      case Lit(a) => if |TrimStart(a)| == 0 then TrimStartT(t[1..]) else [Lit(TrimStart(a))] + t[1..]
  }

  function TrimEndT(t: Template): Template
    decreases |t|
  {
    if |t| == 0 then []
    else match t[|t| - 1]
      case Hole(_) => t
      case Lit(a) => if |TrimEnd(a)| == 0 then TrimEndT(t[..|t| - 1]) else t[..|t| - 1] + [Lit(TrimEnd(a))]
  }

  function TrimT(t: Template): Template
  {
    TrimEndT(TrimStartT(t))
  }

  /** A placeholder starts with `{` and ends with `}`, so trimming leaves it alone. */
  lemma HoleTrimmed(n: nat)
    ensures TrimStart(HoleText(n)) == HoleText(n) && TrimEnd(HoleText(n)) == HoleText(n)
  {
    TrimmedEnds(HoleText(n));
  }

  lemma {:induction false} RenderTrimStart(t: Template)
    ensures Render(TrimStartT(t)) == TrimStart(Render(t))
  {
    if |t| > 0 {
      var k, rest := t[0], t[1..];
      assert Render(t) == TokenText(k) + Render(rest);
      TrimStartAppend(TokenText(k), Render(rest));
      if k.Hole? {
        HoleTrimmed(k.index);
      } else if |TrimStart(k.text)| == 0 {
        assert TrimStartT(t) == TrimStartT(rest);
        RenderTrimStart(rest);
      } else {
        var first := Lit(TrimStart(k.text));
        assert TrimStartT(t) == [first] + rest;
        ConsTail(first, rest);
        assert Render([first] + rest) == TokenText(first) + Render(rest);
      }
    }
  }

  lemma {:induction false} RenderTrimEnd(t: Template)
    ensures Render(TrimEndT(t)) == TrimEnd(Render(t))
    decreases |t|
  {
    if |t| > 0 {
      var init, k := t[..|t| - 1], t[|t| - 1];
      SplitLast(t);
      Append1(init, k);
      TrimEndAppend(Render(init), TokenText(k));
      if k.Hole? {
        HoleTrimmed(k.index);
      } else if |TrimEnd(k.text)| == 0 {
        assert TrimEndT(t) == TrimEndT(init);
        RenderTrimEnd(init);
      } else {
        assert TrimEndT(t) == init + [Lit(TrimEnd(k.text))];
        Append1(init, Lit(TrimEnd(k.text)));
      }
    }
  }

  /** Trimming the tokens renders to the trimmed text. */
  lemma RenderTrim(t: Template)
    ensures Render(TrimT(t)) == Trim(Render(t))
  {
    RenderTrimStart(t);
    RenderTrimEnd(TrimStartT(t));
  }

  lemma {:induction false} TrimStartKeeps(t: Template)
    ensures Holes(TrimStartT(t)) == Holes(t)
    ensures LitsBraceFree(t) ==> LitsBraceFree(TrimStartT(t))
  {
    if |t| > 0 && t[0].Lit? {
      var a := t[0].text;
      if |TrimStart(a)| == 0 {
        TrimStartKeeps(t[1..]);
        assert LitsBraceFree(t) ==> LitsBraceFree(t[1..]) by {
          if LitsBraceFree(t) {
            forall i | 0 <= i < |t[1..]| && t[1..][i].Lit? ensures NoBraces(t[1..][i].text) {
              assert t[1..][i] == t[i + 1];
            }
          }
        }
      } else {
        var r := [Lit(TrimStart(a))] + t[1..];
        assert r[1..] == t[1..];
        assert LitsBraceFree(t) ==> LitsBraceFree(r) by {
          if LitsBraceFree(t) {
            forall i | 0 <= i < |r| && r[i].Lit? ensures NoBraces(r[i].text) {
              if i == 0 {
                assert NoBraces(a);
              } else {
                assert r[i] == t[i];
              }
            }
          }
        }
      }
    }
  }

  lemma {:induction false} TrimEndKeeps(t: Template)
    ensures Holes(TrimEndT(t)) == Holes(t)
    ensures LitsBraceFree(t) ==> LitsBraceFree(TrimEndT(t))
    decreases |t|
  {
    if |t| > 0 && t[|t| - 1].Lit? {
      var init := t[..|t| - 1];
      var a := t[|t| - 1].text;
      assert t == init + [Lit(a)];
      HolesAppend(init, [Lit(a)]);
      assert Holes([Lit(a)]) == [];
      assert LitsBraceFree(t) ==> LitsBraceFree(init) by {
        if LitsBraceFree(t) {
          forall i | 0 <= i < |init| && init[i].Lit? ensures NoBraces(init[i].text) {
            assert init[i] == t[i];
          }
        }
      }
      if |TrimEnd(a)| == 0 {
        TrimEndKeeps(init);
      } else {
        var r := init + [Lit(TrimEnd(a))];
        HolesAppend(init, [Lit(TrimEnd(a))]);
        assert Holes([Lit(TrimEnd(a))]) == [];
        assert LitsBraceFree(t) ==> LitsBraceFree(r) by {
          if LitsBraceFree(t) {
            forall i | 0 <= i < |r| && r[i].Lit? ensures NoBraces(r[i].text) {
              if i == |init| {
                assert NoBraces(a);
              } else {
                assert r[i] == t[i];
              }
            }
          }
        }
      }
    }
  }

  /** Trimming keeps every placeholder, in order, and adds no brace. */
  lemma TrimKeeps(t: Template)
    ensures Holes(TrimT(t)) == Holes(t)
    ensures LitsBraceFree(t) ==> LitsBraceFree(TrimT(t))
  {
    TrimStartKeeps(t);
    TrimEndKeeps(TrimStartT(t));
  }

  /** The rendered fragment with placeholder N replaced by `args[N]`. */
  function Substitute(t: Template, args: seq<string>): string
    requires HolesBelow(t, |args|)
  {
    if |t| == 0 then ""
    else (match t[0] case Lit(s) => s case Hole(n) => args[n]) + Substitute(t[1..], args)
  }

  const BadFormat := "Input string was not in a correct format."
  const BadIndex := "Index (zero based) must be greater than or equal to zero and less than the size of the argument list."

  /** One token in front of a fragment: its text in front of the rendering,
      its placeholder (if any) in front of the placeholders, and brace-free
      exactly when both are. */
  lemma Prepend(k: Token, t: Template)
    ensures Render([k] + t) == TokenText(k) + Render(t)
    ensures Holes([k] + t) == (if k.Hole? then [k.index] else []) + Holes(t)
    ensures LitsBraceFree([k] + t) <==> (k.Lit? ==> NoBraces(k.text)) && LitsBraceFree(t)
  {
    ConsTail(k, t);
    BraceFreeAppend([k], t);
  }

  /** `string.Format(Render(t), args)`: the scan fails on a stray brace in the
      literal text or on a placeholder with no argument, and otherwise replaces
      every placeholder by its argument. */
  function Format(t: Template, args: seq<string>): (r: Result<string>)
    ensures r.Ok? <==> LitsBraceFree(t) && HolesBelow(t, |args|)
    ensures r.Ok? ==> r.value == Substitute(t, args)
    ensures r.Err? ==> r.error.FormatError?
  {
    if |t| == 0 then Ok("")
    else
      var head :- match t[0]
        case Lit(s) => if NoBraces(s) then Ok(s) else Err(FormatError(BadFormat))
        case Hole(n) => if n < |args| then Ok(args[n]) else Err(FormatError(BadIndex));
      var rest :- Format(t[1..], args);
      assert LitsBraceFree(t) <==> (t[0].Lit? ==> NoBraces(t[0].text)) && LitsBraceFree(t[1..]) by {
        forall i | 0 < i < |t| ensures t[i] == t[1..][i - 1] { }
      }
      assert HolesBelow(t, |args|) <==> (t[0].Hole? ==> t[0].index < |args|) && HolesBelow(t[1..], |args|) by {
        forall i | 0 < i < |t| ensures t[i] == t[1..][i - 1] { }
      }
      Ok(head + rest)
  }

  /** Placeholders 0, 1, ..., n - 1, each once and in order, over brace-free
      literals: `string.Format` with exactly n arguments succeeds. */
  lemma FormatParity(t: Template, args: seq<string>)
    requires LitsBraceFree(t) && Holes(t) == Range(0, |args|)
    ensures HolesBelow(t, |args|) && Format(t, args) == Ok(Substitute(t, args))
  {
    HolesBelowOfRange(t, |args|);
  }

  /** `string.Format(format, parts...)` where the parts are fragments themselves:
      every placeholder of `format` is replaced by the fragment it names. */
  function Splice(format: Template, parts: seq<Template>): Template
    requires HolesBelow(format, |parts|)
  {
    if |format| == 0 then []
    else (match format[0] case Lit(s) => [Lit(s)] case Hole(n) => parts[n]) + Splice(format[1..], parts)
  }

  function RenderAll(parts: seq<Template>): (r: seq<string>)
    ensures |r| == |parts|
    ensures forall i :: 0 <= i < |parts| ==> r[i] == Render(parts[i])
  {
    if |parts| == 0 then [] else [Render(parts[0])] + RenderAll(parts[1..])
  }

  /** Splicing fragments and then rendering gives what `string.Format` writes
      when handed the rendered fragments. */
  lemma {:induction false} SubstituteSplice(format: Template, parts: seq<Template>)
    requires HolesBelow(format, |parts|)
    ensures Substitute(format, RenderAll(parts)) == Render(Splice(format, parts))
  {
    if |format| > 0 {
      assert HolesBelow(format[1..], |parts|) by {
        forall i | 0 <= i < |format[1..]| && format[1..][i].Hole? ensures format[1..][i].index < |parts| {
          assert format[1..][i] == format[i + 1];
        }
      }
      SubstituteSplice(format[1..], parts);
      var piece: Template := match format[0] case Lit(s) => [Lit(s)] case Hole(n) => parts[n];
      RenderAppend(piece, Splice(format[1..], parts));
      if format[0].Lit? {
        assert Render([Lit(format[0].text)]) == format[0].text by {
          assert [Lit(format[0].text)][1..] == [];
        }
      }
    }
  }

  /** `string.Format` over brace-free literal text never fails for spliced parts,
      and yields the rendering of the splice. */
  lemma SpliceFormat(format: Template, parts: seq<Template>)
    requires LitsBraceFree(format) && HolesBelow(format, |parts|)
    ensures Format(format, RenderAll(parts)) == Ok(Render(Splice(format, parts)))
  {
    SubstituteSplice(format, parts);
  }

  /** The placeholders of the parts named by `idx`, in that order. */
  function Gather(idx: seq<nat>, parts: seq<Template>): seq<nat>
  {
    if |idx| == 0 then [] else (if idx[0] < |parts| then Holes(parts[idx[0]]) else []) + Gather(idx[1..], parts)
  }

  /** A splice holds the placeholders of the parts its format names, in the format's order. */
  lemma {:induction false} HolesSplice(format: Template, parts: seq<Template>)
    requires HolesBelow(format, |parts|)
    ensures Holes(Splice(format, parts)) == Gather(Holes(format), parts)
  {
    if |format| > 0 {
      assert HolesBelow(format[1..], |parts|) by {
        forall i | 0 <= i < |format[1..]| && format[1..][i].Hole? ensures format[1..][i].index < |parts| {
          assert format[1..][i] == format[i + 1];
        }
      }
      HolesSplice(format[1..], parts);
      var piece: Template := match format[0] case Lit(s) => [Lit(s)] case Hole(n) => parts[n];
      HolesAppend(piece, Splice(format[1..], parts));
      if format[0].Lit? {
        assert Holes([Lit(format[0].text)]) == [] by {
          assert [Lit(format[0].text)][1..] == [];
        }
        assert Holes(format) == Holes(format[1..]);
      } else {
        assert Holes(format) == [format[0].index] + Holes(format[1..]);
        assert ([format[0].index] + Holes(format[1..]))[1..] == Holes(format[1..]);
      }
    }
  }

  /** A splice of brace-free pieces into a brace-free format is brace-free. */
  lemma {:induction false} SpliceBraceFree(format: Template, parts: seq<Template>)
    requires HolesBelow(format, |parts|) && LitsBraceFree(format)
    requires forall i :: 0 <= i < |parts| ==> LitsBraceFree(parts[i])
    ensures LitsBraceFree(Splice(format, parts))
  {
    if |format| > 0 {
      assert HolesBelow(format[1..], |parts|) && LitsBraceFree(format[1..]) by {
        forall i | 0 <= i < |format[1..]| ensures format[1..][i] == format[i + 1] { }
      }
      SpliceBraceFree(format[1..], parts);
      var piece: Template := match format[0] case Lit(s) => [Lit(s)] case Hole(n) => parts[n];
      var rest := Splice(format[1..], parts);
      assert LitsBraceFree(piece);
      BraceFreeAppend(piece, rest);
    }
  }

  lemma {:induction false} BraceFreeAppend(a: Template, b: Template)
    ensures LitsBraceFree(a + b) <==> LitsBraceFree(a) && LitsBraceFree(b)
  {
    forall i | 0 <= i < |b| ensures (a + b)[|a| + i] == b[i] { }
    forall i | 0 <= i < |a| ensures (a + b)[i] == a[i] { }
    if LitsBraceFree(a) && LitsBraceFree(b) {
      forall i | 0 <= i < |a + b| && (a + b)[i].Lit? ensures NoBraces((a + b)[i].text) {
        if i >= |a| { assert (a + b)[i] == b[i - |a|]; }
      }
    }
  }
}
