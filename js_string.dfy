/** The string operations of ECMAScript that the site's code relies on:
    `trim`, the `\s` character class, single-character `replace(/c/g, …)`,
    `split`, `join`, ASCII `toLowerCase`, number-to-string and the relational
    comparison of strings. */
module JsString {

  /** The WhiteSpace and LineTerminator code points of ECMAScript: exactly the
      characters `String.prototype.trim` removes and the regular-expression
      class `\s` matches. */
  predicate IsWhitespace(c: char)
  {
    || c == '\t' || c == '\n' || c == '\U{000B}' || c == '\U{000C}' || c == '\r' || c == ' '
    || c == '\U{00A0}' || c == '\U{1680}' || ('\U{2000}' <= c <= '\U{200A}')
    || c == '\U{2028}' || c == '\U{2029}' || c == '\U{202F}' || c == '\U{205F}'
    || c == '\U{3000}' || c == '\U{FEFF}'
  }

  predicate NoWhitespace(s: string)
  {
    forall i :: 0 <= i < |s| ==> !IsWhitespace(s[i])
  }

  predicate AllWhitespace(s: string)
  {
    forall i :: 0 <= i < |s| ==> IsWhitespace(s[i])
  }

  /** Neither end of `s` is a whitespace character. */
  predicate Trimmed(s: string)
  {
    s == [] || (!IsWhitespace(s[0]) && !IsWhitespace(s[|s| - 1]))
  }

  /** `s` with its leading whitespace removed: a suffix of `s`. */
  function TrimStart(s: string): (r: string)
    ensures |r| <= |s| && r == s[|s| - |r|..]
    ensures r == [] || !IsWhitespace(r[0])
    ensures AllWhitespace(s[..|s| - |r|])
  {
    if s != [] && IsWhitespace(s[0]) then TrimStart(s[1..]) else s
  }

  /** `s` with its trailing whitespace removed: a prefix of `s`. */
  function TrimEnd(s: string): (r: string)
    ensures |r| <= |s| && r == s[..|r|]
    ensures r == [] || !IsWhitespace(r[|r| - 1])
    ensures AllWhitespace(s[|r|..])
  {
    if s != [] && IsWhitespace(s[|s| - 1]) then TrimEnd(s[..|s| - 1]) else s
  }

  /** `String.prototype.trim`. The result has no whitespace at either end, is
      empty exactly when `s` is all whitespace, and is `s` itself when `s`
      already has no whitespace at either end. */
  function Trim(s: string): (r: string)
    ensures Trimmed(r)
    ensures |r| <= |s|
    ensures r == [] <==> AllWhitespace(s)
    ensures Trimmed(s) ==> r == s
  {
    TrimStartEmpty(s);
    TrimEndEmpty(TrimStart(s));
    TrimEnd(TrimStart(s))
  }

  /** What `trim` removes is whitespace and nothing else: the result is a
      slice of `s` with only whitespace before and after it. With `Trimmed`
      this pins the slice down: it starts at the first character that is no
      whitespace and ends after the last. */
  lemma {:induction false} TrimIsInnerSlice(s: string)
    ensures exists i, j :: 0 <= i <= j <= |s| && Trim(s) == s[i..j] && AllWhitespace(s[..i]) && AllWhitespace(s[j..])
  {
    PrefixOfSuffix(s, TrimStart(s), TrimEnd(TrimStart(s)));
  }

  /** A prefix `r` of a suffix `t` of `s` is a slice of `s`; whitespace
      before `t` in `s` and after `r` in `t` surrounds `r` in `s`. */
  lemma {:induction false} PrefixOfSuffix(s: string, t: string, r: string)
    requires |t| <= |s| && t == s[|s| - |t|..] && AllWhitespace(s[..|s| - |t|])
    requires |r| <= |t| && r == t[..|r|] && AllWhitespace(t[|r|..])
    ensures var i := |s| - |t|;
            var j := i + |r|;
            0 <= i <= j <= |s| && r == s[i..j] &&
            AllWhitespace(s[..i]) && AllWhitespace(s[j..])
  {
    var i := |s| - |t|;
    assert t[|r|..] == s[i + |r|..];
  }

  lemma TrimStartEmpty(s: string)
    ensures TrimStart(s) == [] <==> AllWhitespace(s)
  {
    var t := TrimStart(s);
    if t == [] {
      assert s[..|s|] == s;
    } else {
      assert s[|s| - |t|] == t[0];
    }
  }

  lemma TrimEndEmpty(t: string)
    ensures TrimEnd(t) == [] <==> AllWhitespace(t)
  {
    var r := TrimEnd(t);
    if r == [] {
      assert t[|r|..] == t;
    } else {
      assert t[|r| - 1] == r[|r| - 1];
    }
  }

  /** Trimming twice is trimming once. */
  lemma TrimIdempotent(s: string)
    ensures Trim(Trim(s)) == Trim(s)
  {
  }

  function Count(s: string, c: char): (n: nat)
    ensures n <= |s|
    ensures n == 0 <==> c !in s
  {
    if s == [] then 0 else (if s[0] == c then 1 else 0) + Count(s[1..], c)
  }

  /** `s.replace(/c/g, rep)` for a one-character pattern and a replacement
      string without `$` patterns: every `c` becomes `rep`, left to right. */
  function ReplaceChar(s: string, c: char, rep: string): (r: string)
    ensures c !in s ==> r == s
    ensures c !in rep ==> c !in r
  {
    if s == [] then [] else (if s[0] == c then rep else [s[0]]) + ReplaceChar(s[1..], c, rep)
  }

  /** Every occurrence of `c` grows the string by `|rep| - 1`. */
  lemma {:induction false} ReplaceCharLength(s: string, c: char, rep: string)
    ensures |ReplaceChar(s, c, rep)| == |s| + Count(s, c) * (|rep| - 1)
  {
    if s != [] {
      var t := ReplaceChar(s[1..], c, rep);
      var k, m := Count(s[1..], c), |rep| - 1;
      ReplaceCharLength(s[1..], c, rep);
      assert |t| == |s| - 1 + k * m;
      assert ReplaceChar(s, c, rep) == (if s[0] == c then rep else [s[0]]) + t;
      if s[0] == c {
        MulSucc(k, m);
      }
    }
  }

  lemma MulSucc(k: int, m: int)
    ensures (k + 1) * m == k * m + m
  {
  }

  lemma {:induction false} ReplaceCharAppend(a: string, b: string, c: char, rep: string)
    ensures ReplaceChar(a + b, c, rep) == ReplaceChar(a, c, rep) + ReplaceChar(b, c, rep)
  {
    if a != [] {
      var head := if a[0] == c then rep else [a[0]];
      assert (a + b)[0] == a[0];
      assert (a + b)[1..] == a[1..] + b;
      ReplaceCharAppend(a[1..], b, c, rep);
      assert ReplaceChar(a + b, c, rep) == head + ReplaceChar(a[1..] + b, c, rep);
      assert ReplaceChar(a, c, rep) == head + ReplaceChar(a[1..], c, rep);
      ConcatAssoc(head, ReplaceChar(a[1..], c, rep), ReplaceChar(b, c, rep));
    } else {
      assert a + b == b;
    }
  }

  /** Replacing in a one-character string. */
  lemma ReplaceSingle(x: char, c: char, rep: string)
    ensures ReplaceChar([x], c, rep) == if x == c then rep else [x]
  {
    assert [x][1..] == [];
  }

  /** A character in neither `s` nor the replacement is not in the result. */
  lemma {:induction false} ReplaceCharKeepsAbsent(s: string, c: char, rep: string, x: char)
    requires x !in s && x !in rep
    ensures x !in ReplaceChar(s, c, rep)
  {
    if s != [] {
      assert x !in s[1..] by { assert forall i :: 0 <= i < |s| - 1 ==> s[1..][i] == s[i + 1]; }
      ReplaceCharKeepsAbsent(s[1..], c, rep, x);
    }
  }

  /** `s.replace(/\s+/g, rep)`: every maximal run of whitespace becomes one
      copy of `rep`. */
  function ReplaceWhitespaceRuns(s: string, rep: string): (r: string)
    ensures NoWhitespace(rep) ==> NoWhitespace(r)
    ensures NoWhitespace(s) ==> r == s
    ensures |rep| <= 1 ==> |r| <= |s|
    ensures rep != [] ==> (r == [] <==> s == [])
    decreases |s|
  {
    if s == [] then []
    else if IsWhitespace(s[0]) then rep + ReplaceWhitespaceRuns(TrimStart(s), rep)
    else [s[0]] + ReplaceWhitespaceRuns(s[1..], rep)
  }

  /** Replacing the whitespace runs a second time changes nothing, whenever the
      replacement itself holds no whitespace. */
  lemma ReplaceWhitespaceRunsIdempotent(s: string, rep: string)
    requires NoWhitespace(rep)
    ensures ReplaceWhitespaceRuns(ReplaceWhitespaceRuns(s, rep), rep) == ReplaceWhitespaceRuns(s, rep)
  {
  }

  /** Whitespace in front of a string that does not itself start with
      whitespace is exactly what `TrimStart` removes. */
  lemma {:induction false} TrimStartOfRun(w: string, b: string)
    requires AllWhitespace(w)
    requires b == [] || !IsWhitespace(b[0])
    ensures TrimStart(w + b) == b
    decreases |w|
  {
    if w == [] {
      assert w + b == b;
    } else {
      assert (w + b)[1..] == w[1..] + b;
      TrimStartOfRun(w[1..], b);
    }
  }

  /** `TrimStart` stops inside a string that holds a non-whitespace
      character, so what follows that string is kept whole. */
  lemma {:induction false} TrimStartAppend(a: string, b: string)
    requires !AllWhitespace(a)
    ensures TrimStart(a + b) == TrimStart(a) + b
    decreases |a|
  {
    var k :| 0 <= k < |a| && !IsWhitespace(a[k]);
    assert (a + b)[0] == a[0];
    if IsWhitespace(a[0]) {
      assert a[1..][k - 1] == a[k];
      assert (a + b)[1..] == a[1..] + b;
      TrimStartAppend(a[1..], b);
    }
  }

  /** The replacement in front of a leading run is one `rep`. */
  lemma {:induction false} ReplaceLeadingRun(s: string, rep: string)
    requires s != [] && IsWhitespace(s[0])
    ensures ReplaceWhitespaceRuns(s, rep) == rep + ReplaceWhitespaceRuns(TrimStart(s), rep)
  {
  }

  /** A leading non-whitespace character is kept. */
  lemma {:induction false} ReplaceLeadingChar(c: char, t: string, rep: string)
    requires !IsWhitespace(c)
    ensures ReplaceWhitespaceRuns([c] + t, rep) == [c] + ReplaceWhitespaceRuns(t, rep)
  {
    assert ([c] + t)[0] == c && ([c] + t)[1..] == t;
  }

  /** The step of `ReplaceWhitespaceRunsAppend` for a piece that starts
      with a run: the run is removed from both sides alike. */
  lemma {:induction false} AppendAfterRun(a: string, b: string, rep: string)
    requires a != [] && IsWhitespace(a[0]) && !IsWhitespace(a[|a| - 1])
    requires ReplaceWhitespaceRuns(TrimStart(a) + b, rep) == ReplaceWhitespaceRuns(TrimStart(a), rep) + ReplaceWhitespaceRuns(b, rep)
    ensures ReplaceWhitespaceRuns(a + b, rep) == ReplaceWhitespaceRuns(a, rep) + ReplaceWhitespaceRuns(b, rep)
  {
    assert (a + b)[0] == a[0];
    TrimStartAppend(a, b);
    ReplaceLeadingRun(a + b, rep);
    ReplaceLeadingRun(a, rep);
    ConcatAssoc(rep, ReplaceWhitespaceRuns(TrimStart(a), rep), ReplaceWhitespaceRuns(b, rep));
  }

  /** The step of `ReplaceWhitespaceRunsAppend` for a piece that starts
      with a character kept as it is. */
  lemma {:induction false} AppendAfterChar(c: char, a: string, b: string, rep: string)
    requires !IsWhitespace(c)
    requires ReplaceWhitespaceRuns(a + b, rep) == ReplaceWhitespaceRuns(a, rep) + ReplaceWhitespaceRuns(b, rep)
    ensures ReplaceWhitespaceRuns([c] + a + b, rep) == ReplaceWhitespaceRuns([c] + a, rep) + ReplaceWhitespaceRuns(b, rep)
  {
    ConcatAssoc([c], a, b);
    ReplaceLeadingChar(c, a + b, rep);
    ReplaceLeadingChar(c, a, rep);
    ConcatAssoc([c], ReplaceWhitespaceRuns(a, rep), ReplaceWhitespaceRuns(b, rep));
  }

  lemma {:induction false} ConcatAssoc(x: string, y: string, z: string)
    ensures x + (y + z) == x + y + z
  {
  }

  /** Removing a leading run from a string that ends in a non-whitespace
      character shortens it and keeps that last character. */
  lemma {:induction false} TrimStartKeepsLast(a: string)
    requires a != [] && IsWhitespace(a[0]) && !IsWhitespace(a[|a| - 1])
    ensures |TrimStart(a)| < |a|
    ensures TrimStart(a) != [] && TrimStart(a)[|TrimStart(a)| - 1] == a[|a| - 1]
  {
    var t := TrimStart(a);
    assert t == TrimStart(a[1..]);
    TrimStartEmpty(a);
  }

  /** A piece that ends in a non-whitespace character shares no run with
      what follows it, so the replacement of the whole is the replacements
      of the two pieces, one after the other. */
  lemma {:induction false} ReplaceWhitespaceRunsAppend(a: string, b: string, rep: string)
    requires a == [] || !IsWhitespace(a[|a| - 1])
    ensures ReplaceWhitespaceRuns(a + b, rep) == ReplaceWhitespaceRuns(a, rep) + ReplaceWhitespaceRuns(b, rep)
    decreases |a|
  {
    if a == [] {
      assert a + b == b;
    } else if IsWhitespace(a[0]) {
      TrimStartKeepsLast(a);
      ReplaceWhitespaceRunsAppend(TrimStart(a), b, rep);
      AppendAfterRun(a, b, rep);
    } else {
      ReplaceWhitespaceRunsAppend(a[1..], b, rep);
      AppendAfterChar(a[0], a[1..], b, rep);
      assert [a[0]] + a[1..] == a;
    }
  }

  /** A whole run of whitespace, however long, becomes one copy of `rep`:
      the run between two pieces that do not continue it is replaced once,
      and the pieces on either side are replaced on their own. */
  lemma {:induction false} ReplaceWhitespaceRunsOfRun(a: string, w: string, b: string, rep: string)
    requires w != [] && AllWhitespace(w)
    requires a == [] || !IsWhitespace(a[|a| - 1])
    requires b == [] || !IsWhitespace(b[0])
    ensures ReplaceWhitespaceRuns(a + w + b, rep) == ReplaceWhitespaceRuns(a, rep) + rep + ReplaceWhitespaceRuns(b, rep)
  {
    ConcatAssoc(a, w, b);
    ReplaceWhitespaceRunsAppend(a, w + b, rep);
    assert (w + b)[0] == w[0];
    TrimStartOfRun(w, b);
    ReplaceLeadingRun(w + b, rep);
    ConcatAssoc(ReplaceWhitespaceRuns(a, rep), rep, ReplaceWhitespaceRuns(b, rep));
  }

  /** `parts.join(sep)`. */
  function Join(parts: seq<string>, sep: string): string
  {
    if |parts| == 0 then "" else if |parts| == 1 then parts[0] else parts[0] + sep + Join(parts[1..], sep)
  }

  lemma JoinCons(p: string, rest: seq<string>, sep: string)
    requires |rest| >= 1
    ensures Join([p] + rest, sep) == p + sep + Join(rest, sep)
  {
    assert ([p] + rest)[1..] == rest;
  }

  /** Putting a character in front of the first part puts it in front of the join. */
  lemma JoinPrepend(x: char, rest: seq<string>, sep: string)
    requires |rest| >= 1
    ensures Join([[x] + rest[0]] + rest[1..], sep) == [x] + Join(rest, sep)
  {
    if |rest| > 1 {
      JoinCons([x] + rest[0], rest[1..], sep);
      JoinCons(rest[0], rest[1..], sep);
      assert rest == [rest[0]] + rest[1..];
    }
  }

  /** `s.split(c)` for a one-character separator: the pieces between the
      separators, so one more piece than there are separators, none of them
      holding the separator, and joining them back with the separator gives `s`. */
  function Split(s: string, c: char): (parts: seq<string>)
    ensures |parts| == Count(s, c) + 1
    ensures forall i :: 0 <= i < |parts| ==> c !in parts[i]
    ensures Join(parts, [c]) == s
  {
    if s == [] then [""]
    else
      var rest := Split(s[1..], c);
      if s[0] == c then
        JoinCons("", rest, [c]);
        assert s == [c] + s[1..];
        [""] + rest
      else
        var parts := [[s[0]] + rest[0]] + rest[1..];
        JoinPrepend(s[0], rest, [c]);
        assert s == [s[0]] + s[1..];
        assert forall i :: 1 <= i < |parts| ==> parts[i] == rest[i];
        parts
  }

  /** One character of `toLowerCase`, on the ASCII letters: an upper-case
      letter becomes its lower-case form, 32 code points higher, and every
      other character is kept. */
  function ToLowerChar(c: char): (d: char)
    ensures IsWhitespace(d) == IsWhitespace(c)
    ensures !('A' <= d <= 'Z')
    ensures 'A' <= c <= 'Z' ==> d as int == c as int + 32
    ensures !('A' <= c <= 'Z') ==> d == c
  {
    if 'A' <= c <= 'Z' then (c as int + 32) as char else c
  }

  /** `toLowerCase` on the ASCII letters; every other character is kept. */
  function ToLowerAscii(s: string): (r: string)
    ensures |r| == |s|
    ensures forall i :: 0 <= i < |s| ==> r[i] == ToLowerChar(s[i])
    ensures NoWhitespace(s) == NoWhitespace(r)
  {
    seq(|s|, i requires 0 <= i < |s| => ToLowerChar(s[i]))
  }

  /** Lower-casing works character by character, so it distributes over
      concatenation. */
  lemma {:induction false} ToLowerAsciiAppend(a: string, b: string)
    ensures ToLowerAscii(a + b) == ToLowerAscii(a) + ToLowerAscii(b)
  {
    var l, r := ToLowerAscii(a + b), ToLowerAscii(a) + ToLowerAscii(b);
    forall i | 0 <= i < |l| ensures l[i] == r[i] {
      if i < |a| {
        assert (a + b)[i] == a[i];
      } else {
        assert (a + b)[i] == b[i - |a|];
      }
    }
  }

  function Digit(d: nat): (c: char)
    requires d < 10
    ensures '0' <= c <= '9'
  {
    ('0' as int + d) as char
  }

  predicate AllDigits(s: string)
  {
    forall i :: 0 <= i < |s| ==> '0' <= s[i] <= '9'
  }

  /** The decimal form of a natural number, as `String(n)` writes it. */
  function NatToString(n: nat): (r: string)
    ensures |r| >= 1 && AllDigits(r)
  {
    if n < 10 then [Digit(n)] else NatToString(n / 10) + [Digit(n % 10)]
  }

  /** `String(n)` for an integer. */
  function IntToString(n: int): (r: string)
    ensures |r| >= 1
    ensures n >= 0 <==> AllDigits(r)
  {
    if n < 0 then
      var r := "-" + NatToString(-n);
      assert r[0] == '-';
      r
    else NatToString(n)
  }

  /** `a < b` on two strings in ECMAScript: the first differing character
      decides, and a proper prefix is smaller. */
  predicate StringLess(a: string, b: string)
  {
    if a == [] then b != []
    else if b == [] then false
    else if a[0] != b[0] then a[0] < b[0]
    else StringLess(a[1..], b[1..])
  }

  /** `a >= b` on two strings is `!(a < b)`. */
  predicate StringGe(a: string, b: string)
  {
    !StringLess(a, b)
  }
}
