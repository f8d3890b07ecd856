/** The .NET string operations the SQL builder relies on, written out over
    `seq<char>`: whitespace trimming, ASCII lower-casing, ordinal search and
    replace, and the decimal rendering of non-negative integers. */
module Strings {

  /** The head and the tail of a concatenation with a non-empty left part. */
  lemma AppendTail<T>(a: seq<T>, b: seq<T>)
    requires |a| > 0
    ensures (a + b)[0] == a[0] && (a + b)[1..] == a[1..] + b
  {
  }

  /** The head and the tail of a sequence built by prepending one element. */
  lemma ConsTail<T>(x: T, s: seq<T>)
    ensures ([x] + s)[0] == x && ([x] + s)[1..] == s
  {
  }

  /** A non-empty sequence is its prefix followed by its last element. */
  lemma SplitLast<T>(s: seq<T>)
    requires |s| > 0
    ensures s == s[..|s| - 1] + [s[|s| - 1]]
  {
  }

  lemma Assoc<T>(a: seq<T>, b: seq<T>, c: seq<T>)
    ensures a + (b + c) == a + b + c
  {
  }

  lemma EmptyAppend<T>(x: seq<T>)
    ensures [] + x == x && x + [] == x
  {
  }

  lemma PairDisplay<T>(a: T, b: T)
    ensures [a] + [b] == [a, b] && [] + [a] + [b] == [a, b]
  {
  }

  /** `h + (x + y)` regrouped, stated over names so that no other fact is consulted. */
  lemma Regroup<T>(whole: seq<T>, h: seq<T>, tail: seq<T>, x: seq<T>, y: seq<T>, first: seq<T>)
    requires whole == h + tail && tail == x + y && first == h + x
    ensures whole == first + y
  {
  }

  /** `char.IsWhiteSpace`: the separator and control characters .NET treats as white space. */
  predicate IsWhiteSpace(c: char) {
    c == ' ' || ('\t' <= c <= '\r') || c == '\U{0085}' || c == '\U{00A0}' || c == '\U{1680}'
    || ('\U{2000}' <= c <= '\U{200A}') || c == '\U{2028}' || c == '\U{2029}'
    || c == '\U{202F}' || c == '\U{205F}' || c == '\U{3000}'
  }

  /** `TrimStart()`: drops the leading white space and nothing else. */
  function TrimStart(s: string): (r: string)
    ensures |r| <= |s| && r == s[|s| - |r|..]
    ensures forall j :: 0 <= j < |s| - |r| ==> IsWhiteSpace(s[j])
    ensures |r| == 0 || !IsWhiteSpace(r[0])
  {
    if |s| > 0 && IsWhiteSpace(s[0]) then TrimStart(s[1..]) else s
  }

  /** `TrimEnd()`: drops the trailing white space and nothing else. */
  function TrimEnd(s: string): (r: string)
    ensures |r| <= |s| && r == s[..|r|]
    ensures forall j :: |r| <= j < |s| ==> IsWhiteSpace(s[j])
    ensures |r| == 0 || !IsWhiteSpace(r[|r| - 1])
  {
    if |s| > 0 && IsWhiteSpace(s[|s| - 1]) then TrimEnd(s[..|s| - 1]) else s
  }

  /** `Trim()`: the result neither starts nor ends with white space. */
  function Trim(s: string): (r: string)
    ensures |r| <= |s|
    ensures |r| == 0 || (!IsWhiteSpace(r[0]) && !IsWhiteSpace(r[|r| - 1]))
  {
    var t := TrimStart(s);
    var r := TrimEnd(t);
    assert |r| == 0 || r[0] == t[0];
    r
  }

  /** Text that neither starts nor ends with white space is its own trim. */
  lemma TrimmedAlready(s: string)
    requires |s| == 0 || (!IsWhiteSpace(s[0]) && !IsWhiteSpace(s[|s| - 1]))
    ensures Trim(s) == s
  {
  }

  /** Text whose first and last characters are not white space is left alone by both trims. */
  lemma TrimmedEnds(s: string)
    requires |s| > 0 && !IsWhiteSpace(s[0]) && !IsWhiteSpace(s[|s| - 1])
    ensures TrimStart(s) == s && TrimEnd(s) == s
  {
  }

  lemma {:induction false} TrimStartAppend(a: string, b: string)
    ensures TrimStart(a + b) == if |TrimStart(a)| == 0 then TrimStart(b) else TrimStart(a) + b
  {
    if |a| == 0 {
      assert a + b == b;
    } else if IsWhiteSpace(a[0]) {
      assert (a + b)[1..] == a[1..] + b;
      TrimStartAppend(a[1..], b);
    }
  }

  lemma {:induction false} TrimEndAppend(a: string, b: string)
    ensures TrimEnd(a + b) == if |TrimEnd(b)| == 0 then TrimEnd(a) else a + TrimEnd(b)
  {
    if |b| == 0 {
      assert a + b == a;
    } else if IsWhiteSpace(b[|b| - 1]) {
      assert (a + b)[..|a + b| - 1] == a + b[..|b| - 1];
      TrimEndAppend(a, b[..|b| - 1]);
    }
  }

  /** `ToLower()` restricted to ASCII letters; every other character is kept. */
  function LowerChar(c: char): (r: char)
    ensures ('A' <= c <= 'Z') ==> r as int == c as int + 32
    ensures !('A' <= c <= 'Z') ==> r == c
  {
    if 'A' <= c <= 'Z' then (c as int + 32) as char else c
  }

  function Lower(s: string): (r: string)
    ensures |r| == |s|
    ensures forall i :: 0 <= i < |s| ==> r[i] == LowerChar(s[i])
  {
    if |s| == 0 then [] else [LowerChar(s[0])] + Lower(s[1..])
  }

  /** Lower-casing works character by character, so it distributes over concatenation. */
  lemma {:induction false} LowerAppend(a: string, b: string)
    ensures Lower(a + b) == Lower(a) + Lower(b)
  {
    if |a| == 0 {
      assert a + b == b;
    } else {
      AppendTail(a, b);
      LowerAppend(a[1..], b);
      Regroup(Lower(a + b), [LowerChar(a[0])], Lower(a[1..] + b), Lower(a[1..]), Lower(b), Lower(a));
    }
  }

  /** Lower-casing neither adds nor removes a `.`. */
  lemma LowerKeepsDot(s: string)
    ensures '.' in Lower(s) <==> '.' in s
  {
    if '.' in s {
      var i :| 0 <= i < |s| && s[i] == '.';
      assert Lower(s)[i] == '.';
    }
    if '.' in Lower(s) {
      var i :| 0 <= i < |Lower(s)| && Lower(s)[i] == '.';
      assert s[i] == '.';
    }
  }

  /** `s.IndexOf(w, StringComparison.Ordinal) != -1`. */
  predicate Occurs(s: string, w: string)
    decreases |s|
  {
    w <= s || (|s| > 0 && Occurs(s[1..], w))
  }

  /** `s.Replace(pat, rep)`: every non-overlapping occurrence, scanning left to right. */
  function Replace(s: string, pat: string, rep: string): (r: string)
    requires |pat| > 0
    ensures forall c :: c in r ==> c in s || c in rep
    decreases |s|
  {
    if |s| == 0 then []
    else if pat <= s then rep + Replace(s[|pat|..], pat, rep)
    else [s[0]] + Replace(s[1..], pat, rep)
  }

  /** Text that never holds the pattern's first character is left unchanged. */
  lemma {:induction false} ReplaceAbsent(s: string, pat: string, rep: string)
    requires |pat| > 0 && pat[0] !in s
    ensures Replace(s, pat, rep) == s
    decreases |s|
  {
    if |s| > 0 {
      assert !(pat <= s);
      ReplaceAbsent(s[1..], pat, rep);
      ConsTail(s[0], s[1..]);
      assert [s[0]] + s[1..] == s;
    }
  }

  /** A prefix without the pattern's first character is copied. */
  lemma {:induction false} ReplaceAfterAbsent(x: string, y: string, pat: string, rep: string)
    requires |pat| > 0 && pat[0] !in x
    ensures Replace(x + y, pat, rep) == x + Replace(y, pat, rep)
    decreases |x|
  {
    if |x| > 0 {
      ReplaceAfterAbsent(x[1..], y, pat, rep);
      AppendTail(x, y);
      ReplaceKeeps(x[0], x[1..] + y, pat, rep);
      ConsTail(x[0], x[1..]);
      Regroup(Replace(x + y, pat, rep), [x[0]], Replace(x[1..] + y, pat, rep), x[1..], Replace(y, pat, rep), x);
    } else {
      assert x + y == y;
    }
  }

  /** A first character that does not start the pattern is copied. */
  lemma ReplaceKeeps(c: char, t: string, pat: string, rep: string)
    requires |pat| > 0 && c != pat[0]
    ensures Replace([c] + t, pat, rep) == [c] + Replace(t, pat, rep)
  {
    ConsTail(c, t);
  }

  /** A leading occurrence of the pattern is replaced. */
  lemma ReplaceAt(t: string, pat: string, rep: string)
    requires |pat| > 0
    ensures Replace(pat + t, pat, rep) == rep + Replace(t, pat, rep)
  {
    assert (pat + t)[|pat|..] == t;
  }

  /** The number of times `c` appears in `s`. */
  function CountChar(s: string, c: char): nat
  {
    if |s| == 0 then 0 else (if s[0] == c then 1 else 0) + CountChar(s[1..], c)
  }

  lemma {:induction false} CountCharAppend(a: string, b: string, c: char)
    ensures CountChar(a + b, c) == CountChar(a, c) + CountChar(b, c)
  {
    if |a| == 0 {
      assert a + b == b;
    } else {
      assert (a + b)[1..] == a[1..] + b;
      CountCharAppend(a[1..], b, c);
    }
  }

  /** Lower-casing keeps the count of every character that is not a letter. */
  lemma {:induction false} CountLower(s: string, c: char)
    requires !('A' <= c <= 'Z') && !('a' <= c <= 'z')
    ensures CountChar(Lower(s), c) == CountChar(s, c)
  {
    if |s| > 0 {
      assert Lower(s)[1..] == Lower(s[1..]);
      CountLower(s[1..], c);
    }
  }

  /** Replacing every `.` by `."` adds one `"` per `.` and keeps the dots. */
  lemma {:induction false} ReplaceDotCounts(s: string)
    ensures CountChar(Replace(s, ".", ".\""), '"') == CountChar(s, '"') + CountChar(s, '.')
    ensures CountChar(Replace(s, ".", ".\""), '.') == CountChar(s, '.')
  {
    if |s| > 0 {
      ReplaceDotCounts(s[1..]);
      var rest := Replace(s[1..], ".", ".\"");
      if s[0] == '.' {
        assert "." <= s;
        CountCharAppend(".\"", rest, '"');
        CountCharAppend(".\"", rest, '.');
      } else {
        assert !("." <= s);
        CountCharAppend([s[0]], rest, '"');
        CountCharAppend([s[0]], rest, '.');
      }
    }
  }

  lemma {:induction false} OccursInSuffix(s: string, w: string, k: nat)
    requires k <= |s| && Occurs(s[k..], w)
    ensures Occurs(s, w)
    decreases k
  {
    if k > 0 {
      assert s[1..][k - 1..] == s[k..];
      OccursInSuffix(s[1..], w, k - 1);
    }
  }

  /** An occurrence of `w` in `a + b` lies in `b` when `a` never holds `w`'s first character. */
  lemma {:induction false} OccursAfterPrefix(a: string, b: string, w: string)
    requires |w| > 0 && w[0] !in a && Occurs(a + b, w)
    ensures Occurs(b, w)
    decreases |a|
  {
    if |a| > 0 {
      assert (a + b)[0] == a[0];
      assert !(w <= a + b);
      assert (a + b)[1..] == a[1..] + b;
      OccursAfterPrefix(a[1..], b, w);
    } else {
      assert a + b == b;
    }
  }

  lemma EmptyPrefix(w: string, x: string)
    requires w <= x && |x| > 0 && x[0] !in w
    ensures |w| == 0
  {
  }

  /** A prefix of the replaced text that avoids the replacement's first character was already a prefix of the input. */
  lemma {:induction false} PrefixKept(t: string, pat: string, rep: string, w: string)
    requires |pat| > 0 && |rep| > 0 && rep[0] !in w
    requires w <= Replace(t, pat, rep)
    ensures w <= t
    decreases |t|
  {
    if |t| > 0 && pat <= t {
      // the replaced text starts with rep[0], which w does not contain: w is empty
      assert Replace(t, pat, rep) == rep + Replace(t[|pat|..], pat, rep);
      EmptyPrefix(w, Replace(t, pat, rep));
    } else if |w| > 0 && |t| > 0 {
      assert Replace(t, pat, rep) == [t[0]] + Replace(t[1..], pat, rep);
      assert w[1..] <= Replace(t[1..], pat, rep);
      PrefixKept(t[1..], pat, rep, w[1..]);
    }
  }

  /** After `Replace`, no occurrence of the pattern remains, provided the pattern's
      first character is not in the replacement and the replacement's first
      character is not in the pattern. */
  lemma {:induction false} ReplaceRemoves(s: string, pat: string, rep: string)
    requires |pat| > 0 && |rep| > 0 && pat[0] !in rep && rep[0] !in pat
    ensures !Occurs(Replace(s, pat, rep), pat)
    decreases |s|
  {
    if |s| > 0 {
      if pat <= s {
        ReplaceRemoves(s[|pat|..], pat, rep);
        if Occurs(Replace(s, pat, rep), pat) {
          OccursAfterPrefix(rep, Replace(s[|pat|..], pat, rep), pat);
        }
      } else {
        var r := Replace(s, pat, rep);
        var rest := Replace(s[1..], pat, rep);
        assert r == [s[0]] + rest && r[1..] == rest;
        ReplaceRemoves(s[1..], pat, rep);
        if pat <= r {
          PrefixKept(s[1..], pat, rep, pat[1..]);
        }
      }
    }
  }

  /** `Replace` never creates an occurrence of a word that starts with a character
      outside the replacement and holds none of the replacement's first character. */
  lemma {:induction false} ReplaceKeepsAbsent(s: string, pat: string, rep: string, q: string)
    requires |pat| > 0 && |rep| > 0 && |q| > 0 && q[0] !in rep && rep[0] !in q
    requires !Occurs(s, q)
    ensures !Occurs(Replace(s, pat, rep), q)
    decreases |s|
  {
    if |s| > 0 {
      if pat <= s {
        if Occurs(s[|pat|..], q) { OccursInSuffix(s, q, |pat|); }
        ReplaceKeepsAbsent(s[|pat|..], pat, rep, q);
        if Occurs(Replace(s, pat, rep), q) {
          OccursAfterPrefix(rep, Replace(s[|pat|..], pat, rep), q);
        }
      } else {
        var r := Replace(s, pat, rep);
        var rest := Replace(s[1..], pat, rep);
        assert r == [s[0]] + rest && r[1..] == rest;
        ReplaceKeepsAbsent(s[1..], pat, rep, q);
        if q <= r {
          PrefixKept(s[1..], pat, rep, q[1..]);
        }
      }
    }
  }

  /** An occurrence of `w` lies past the first m characters when none of them is `w`'s first character. */
  lemma {:induction false} OccursPast(t: string, w: string, m: nat)
    requires |w| > 0 && m <= |t| && w[0] !in t[..m] && Occurs(t, w)
    ensures Occurs(t[m..], w)
    decreases m
  {
    if m > 0 {
      assert t[0] in t[..m];
      assert !(w <= t);
      assert t[1..][..m - 1] == t[1..m];
      assert forall c :: c in t[1..m] ==> c in t[..m];
      OccursPast(t[1..], w, m - 1);
      assert t[1..][m - 1..] == t[m..];
    }
  }

  /** `Replace` keeps every occurrence of a word that cannot overlap an
      occurrence of the pattern: neither starts inside the other, and
      neither is a prefix of the other. */
  lemma {:induction false} ReplaceKeepsPresent(s: string, pat: string, rep: string, w: string)
    requires |pat| > 0 && |w| > 0 && w[0] !in pat[1..] && pat[0] !in w[1..]
    requires !(pat <= w) && !(w <= pat)
    requires Occurs(s, w)
    ensures Occurs(Replace(s, pat, rep), w)
    decreases |s|
  {
    if pat <= s {
      assert s[1..][..|pat| - 1] == pat[1..];
      OccursPast(s[1..], w, |pat| - 1);
      assert s[1..][|pat| - 1..] == s[|pat|..];
      ReplaceKeepsPresent(s[|pat|..], pat, rep, w);
      var r := Replace(s, pat, rep);
      assert r[|rep|..] == Replace(s[|pat|..], pat, rep);
      OccursInSuffix(r, w, |rep|);
    } else if w <= s {
      assert s[1..] == w[1..] + s[|w|..];
      ReplaceAfterAbsent(w[1..], s[|w|..], pat, rep);
      assert Replace(s, pat, rep) == w + Replace(s[|w|..], pat, rep);
    } else {
      ReplaceKeepsPresent(s[1..], pat, rep, w);
      assert Replace(s, pat, rep)[1..] == Replace(s[1..], pat, rep);
    }
  }

  predicate IsDigit(c: char) { '0' <= c <= '9' }

  function DigitChar(d: nat): (c: char)
    requires d < 10
    ensures IsDigit(c) && c as int - '0' as int == d
  {
    ('0' as int + d) as char
  }

  /** `int.ToString()` for a non-negative value: its decimal digits, without leading zeros. */
  function NatStr(n: nat): (r: string)
    ensures |r| > 0 && forall i :: 0 <= i < |r| ==> IsDigit(r[i])
    ensures n < 10 <==> |r| == 1
    ensures r[|r| - 1] == DigitChar(n % 10)
  {
    if n < 10 then [DigitChar(n)] else NatStr(n / 10) + [DigitChar(n % 10)]
  }

  /** Distinct numbers have distinct decimal renderings. */
  lemma {:induction false} NatStrInjective(a: nat, b: nat)
    requires NatStr(a) == NatStr(b)
    ensures a == b
  {
    if a >= 10 && b >= 10 {
      var sa, sb := NatStr(a), NatStr(b);
      assert sa[..|sa| - 1] == NatStr(a / 10);
      assert sb[..|sb| - 1] == NatStr(b / 10);
      NatStrInjective(a / 10, b / 10);
    }
  }

  /** `int.ToString()`: a minus sign before the digits of a negative value. */
  function IntStr(i: int): string
  {
    if i < 0 then "-" + NatStr(-i) else NatStr(i)
  }

  /** The text holds neither `{` nor `}`. */
  predicate NoBraces(s: string) {
    '{' !in s && '}' !in s
  }
}
