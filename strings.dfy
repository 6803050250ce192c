/**
 * The JavaScript string built-ins the extension relies on, over `string`
 * (a sequence of Unicode scalar values): `trim`, the `\s` class of regular
 * expressions, `indexOf`, `replace` with a string pattern, `replace` with a
 * global literal pattern, and `join`.
 */
module Strings {

  /** The LineTerminator production of ECMAScript: LF, CR, LS and PS. */
  predicate IsLineTerminator(c: char) {
    c == '\n' || c == '\r' || c == '\U{2028}' || c == '\U{2029}'
  }

  /**
   * What `trim()` strips and what `\s` matches: the WhiteSpace production
   * (tab, vertical tab, form feed, space, no-break space, zero-width no-break
   * space and the other space separators of category Zs) plus the line
   * terminators.
   */
  predicate IsWhiteSpace(c: char) {
    || c == '\t' || c == '\U{000B}' || c == '\U{000C}' || c == ' '
    || c == '\U{00A0}' || c == '\U{FEFF}' || c == '\U{1680}'
    || ('\U{2000}' <= c <= '\U{200A}')
    || c == '\U{202F}' || c == '\U{205F}' || c == '\U{3000}'
    || IsLineTerminator(c)
  }

  /** `s.trimStart()`: the suffix left after the longest all-white-space prefix. */
  function TrimStart(s: string): (r: string)
    ensures |r| <= |s|
    ensures forall i :: 0 <= i < |s| - |r| ==> IsWhiteSpace(s[i])
    ensures r != [] ==> !IsWhiteSpace(r[0])
  {
    if s != [] && IsWhiteSpace(s[0]) then TrimStart(s[1..]) else s
  }

  /** What `trimStart` leaves is a suffix of its input. */
  lemma {:induction false} TrimStartIsSuffix(s: string)
    ensures TrimStart(s) == s[|s| - |TrimStart(s)|..]
  {
    if s != [] && IsWhiteSpace(s[0]) {
      TrimStartIsSuffix(s[1..]);
      assert s[1..][|s| - 1 - |TrimStart(s)|..] == s[|s| - |TrimStart(s)|..];
    }
  }

  /** `s.trimEnd()`: the prefix left after the longest all-white-space suffix. */
  function TrimEnd(s: string): (r: string)
    ensures |r| <= |s|
    ensures forall i :: |r| <= i < |s| ==> IsWhiteSpace(s[i])
    ensures r != [] ==> !IsWhiteSpace(r[|r| - 1])
  {
    if s != [] && IsWhiteSpace(s[|s| - 1]) then TrimEnd(s[..|s| - 1]) else s
  }

  /** What `trimEnd` leaves is a prefix of its input. */
  lemma {:induction false} TrimEndIsPrefix(s: string)
    ensures TrimEnd(s) == s[..|TrimEnd(s)|]
  {
    if s != [] && IsWhiteSpace(s[|s| - 1]) {
      TrimEndIsPrefix(s[..|s| - 1]);
      assert s[..|s| - 1][..|TrimEnd(s)|] == s[..|TrimEnd(s)|];
    }
  }

  /** `s.trim()`. */
  function Trim(s: string): string {
    TrimEnd(TrimStart(s))
  }

  /** A string that starts and ends with a non-white-space character is its own trim. */
  lemma TrimOfTrimmed(s: string)
    requires s != [] && !IsWhiteSpace(s[0]) && !IsWhiteSpace(s[|s| - 1])
    ensures Trim(s) == s
  {
  }

  /** Three adjacent slices that spell `a`, `b` and `c` spell `a + b + c` together. */
  lemma SlicesJoin(s: string, i: nat, j: nat, k: nat, l: nat, a: string, b: string, c: string)
    requires i <= j <= k <= l <= |s|
    requires s[i..j] == a && s[j..k] == b && s[k..l] == c
    ensures s[i..l] == a + b + c
  {
    assert s[i..l] == s[i..j] + s[j..k] + s[k..l];
  }

  /** A slice that spells `a + b + c` is three adjacent slices spelling `a`, `b` and `c`. */
  lemma SlicesSplit(s: string, i: nat, a: string, b: string, c: string)
    requires i + |a| + |b| + |c| <= |s| && s[i..i + |a| + |b| + |c|] == a + b + c
    ensures s[i..i + |a|] == a
    ensures s[i + |a|..i + |a| + |b|] == b
    ensures s[i + |a| + |b|..i + |a| + |b| + |c|] == c
  {
    var w := s[i..i + |a| + |b| + |c|];
    forall t | 0 <= t < |a| ensures s[i + t] == a[t] {
      assert s[i + t] == w[t] == (a + b + c)[t];
    }
    forall t | 0 <= t < |b| ensures s[i + |a| + t] == b[t] {
      assert s[i + |a| + t] == w[|a| + t] == (a + b + c)[|a| + t];
    }
    forall t | 0 <= t < |c| ensures s[i + |a| + |b| + t] == c[t] {
      assert s[i + |a| + |b| + t] == w[|a| + |b| + t] == (a + b + c)[|a| + |b| + t];
    }
  }

  /** A string made of white space only trims to the empty string. */
  lemma {:induction false} TrimAllWhiteSpace(s: string)
    requires forall i :: 0 <= i < |s| ==> IsWhiteSpace(s[i])
    ensures Trim(s) == ""
  {
    if s != [] {
      TrimAllWhiteSpace(s[1..]);
    }
  }

  /** `pat` occurs in `s` at index `i`. */
  predicate OccursAt(s: string, pat: string, i: nat) {
    i + |pat| <= |s| && s[i..i + |pat|] == pat
  }

  /** `s.indexOf(pat, from)`: the first index at or after `from` where `pat` occurs, or -1. */
  function IndexOf(s: string, pat: string, from: nat): (r: int)
    ensures r == -1 || (from <= r && OccursAt(s, pat, r))
    ensures forall i :: from <= i && (r == -1 || i < r) ==> !OccursAt(s, pat, i)
    decreases |s| - from
  {
    if from + |pat| > |s| then -1
    else if OccursAt(s, pat, from) then from
    else IndexOf(s, pat, from + 1)
  }

  /**
   * `s.replace(/pat/g, rep)` for a literal pattern: every occurrence found by a
   * left-to-right scan that resumes after each replaced occurrence.
   */
  function ReplaceAll(s: string, pat: string, rep: string): string
    requires pat != []
  {
    if |s| < |pat| then s
    else if s[..|pat|] == pat then rep + ReplaceAll(s[|pat|..], pat, rep)
    else [s[0]] + ReplaceAll(s[1..], pat, rep)
  }

  /** `s.replace(pat, rep)` with a string pattern: only the first occurrence is replaced. */
  function ReplaceFirst(s: string, pat: string, rep: string): string {
    var i := IndexOf(s, pat, 0);
    if i < 0 then s else s[..i] + rep + s[i + |pat|..]
  }

  /** `parts.join(sep)`. */
  function Join(sep: string, parts: seq<string>): string {
    if parts == [] then ""
    else if |parts| == 1 then parts[0]
    else parts[0] + sep + Join(sep, parts[1..])
  }

  /** Joining without a separator distributes over concatenation of the parts. */
  lemma {:induction false} JoinEmptyAppend(a: seq<string>, b: seq<string>)
    ensures Join("", a + b) == Join("", a) + Join("", b)
  {
    if a != [] && b != [] {
      assert (a + b)[1..] == a[1..] + b;
      JoinEmptyAppend(a[1..], b);
      assert Join("", a + b) == a[0] + "" + Join("", a[1..] + b);
      if |a| > 1 {
        assert Join("", a) == a[0] + "" + Join("", a[1..]);
      }
    } else if b == [] {
      assert a + b == a;
      assert Join("", a) + "" == Join("", a);
    } else {
      assert a + b == b;
    }
  }

  /** A string in which character `c` does not appear. */
  predicate Free(s: string, c: char) {
    forall i :: 0 <= i < |s| ==> s[i] != c
  }

  /** Parts and a separator free of `c` join into a string free of `c`. */
  lemma {:induction false} JoinFree(sep: string, parts: seq<string>, c: char)
    requires Free(sep, c) && forall k :: 0 <= k < |parts| ==> Free(parts[k], c)
    ensures Free(Join(sep, parts), c)
  {
    if |parts| > 1 {
      JoinFree(sep, parts[1..], c);
      var rest := Join(sep, parts[1..]);
      forall i | 0 <= i < |parts[0] + sep + rest| ensures (parts[0] + sep + rest)[i] != c {
        if i >= |parts[0]| + |sep| {
          assert (parts[0] + sep + rest)[i] == rest[i - |parts[0]| - |sep|];
        }
      }
    }
  }

  /** Replacing with a string free of `c` keeps a string free of `c`. */
  lemma {:induction false} ReplaceAllKeepsFree(s: string, pat: string, rep: string, c: char)
    requires pat != [] && Free(s, c) && Free(rep, c)
    ensures Free(ReplaceAll(s, pat, rep), c)
    decreases |s|
  {
    if |s| >= |pat| {
      if s[..|pat|] == pat {
        ReplaceAllKeepsFree(s[|pat|..], pat, rep, c);
      } else {
        ReplaceAllKeepsFree(s[1..], pat, rep, c);
      }
    }
  }

  /** Text that lacks the pattern's first character is copied through, so replacing in `a + b` only touches `b`. */
  lemma {:induction false} ReplaceAllSkipsFree(a: string, b: string, pat: string, rep: string)
    requires pat != [] && Free(a, pat[0])
    ensures ReplaceAll(a + b, pat, rep) == a + ReplaceAll(b, pat, rep)
    decreases |a|
  {
    if a == [] {
      assert a + b == b;
    } else if |a + b| < |pat| {
      assert ReplaceAll(b, pat, rep) == b;
    } else {
      var ab := a + b;
      assert ab[..|pat|][0] == a[0];
      assert ab[1..] == a[1..] + b;
      ReplaceAllSkipsFree(a[1..], b, pat, rep);
      assert ReplaceAll(ab, pat, rep) == [a[0]] + ReplaceAll(ab[1..], pat, rep);
      assert [a[0]] + (a[1..] + ReplaceAll(b, pat, rep)) == a + ReplaceAll(b, pat, rep);
    }
  }

  /** A pattern holding a character that `s` lacks never occurs, so replacing it changes nothing. */
  lemma {:induction false} ReplaceAllAbsent(s: string, pat: string, rep: string, c: char)
    requires pat != [] && Free(s, c) && !Free(pat, c)
    ensures ReplaceAll(s, pat, rep) == s
    decreases |s|
  {
    if |s| >= |pat| {
      var k :| 0 <= k < |pat| && pat[k] == c;
      assert s[..|pat|][k] != c;
      ReplaceAllAbsent(s[1..], pat, rep, c);
    }
  }

  /** An occurrence after text free of the pattern's first character is the first one replaced. */
  lemma ReplaceAllAfterFree(a: string, pat: string, rep: string, rest: string)
    requires pat != [] && Free(a, pat[0])
    ensures ReplaceAll(a + pat + rest, pat, rep) == a + rep + ReplaceAll(rest, pat, rep)
  {
    assert a + pat + rest == a + (pat + rest);
    ReplaceAllSkipsFree(a, pat + rest, pat, rep);
    assert (pat + rest)[..|pat|] == pat && (pat + rest)[|pat|..] == rest;
  }

  /**
   * Another escape of the same length, whose only `\` is its first
   * character, followed by text without `\`, is copied through.
   */
  lemma ReplaceAllOtherEscape(e: string, rest: string, pat: string, rep: string)
    requires |e| == |pat| && e != pat && pat != [] && e[0] == '\\'
    requires Free(e[1..], '\\') && Free(rest, '\\') && !Free(pat, '\\')
    ensures ReplaceAll(e + rest, pat, rep) == e + rest
  {
    var w := e + rest;
    assert w[..|pat|] == e;
    assert w[1..] == e[1..] + rest;
    assert Free(w[1..], '\\') by {
      forall i | 0 <= i < |w[1..]| ensures w[1..][i] != '\\' {
        if i < |e[1..]| {
          assert w[1..][i] == e[1..][i];
        } else {
          assert w[1..][i] == rest[i - |e[1..]|];
        }
      }
    }
    ReplaceAllAbsent(w[1..], pat, rep, '\\');
    assert [w[0]] + w[1..] == w;
  }
}
