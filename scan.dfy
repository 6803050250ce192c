/**
 * Global regular-expression matching over a string, as `matchAll` and a
 * `while (re.exec(s))` loop perform it: the leftmost match at or after
 * `lastIndex`, then the search resumes at the end of that match. The pattern
 * itself is a `Matcher`, which says whether and how it matches at one given
 * position; the field patterns the extractors use are defined here too.
 */
module Scan {
  import opened Wrappers
  import opened Strings

  /** A match that starts at `start`, ends before `end`, and yields `value` from its captures. */
  datatype Found<T> = Found(start: nat, value: T, end: nat)

  /** The pattern tried at one position. */
  type Matcher<T> = (string, nat) -> Option<Found<T>>

  /** A match found at `i` starts at `i` and consumes at least one character of `s`. */
  predicate Sound<T>(m: Matcher<T>, s: string) {
    forall i :: 0 <= i <= |s| && m(s, i).Some? ==> m(s, i).value.start == i && i < m(s, i).value.end <= |s|
  }

  /** `re.exec(s)` with `re.lastIndex == from`: the leftmost match at or after `from`. */
  function FirstFrom<T>(m: Matcher<T>, s: string, from: nat): (r: Option<Found<T>>)
    requires Sound(m, s) && from <= |s|
    ensures r.Some? ==> from <= r.value.start <= |s| && m(s, r.value.start) == r
    ensures forall i :: from <= i <= |s| && (r.None? || i < r.value.start) ==> m(s, i).None?
    decreases |s| - from
  {
    if m(s, from).Some? then m(s, from)
    else if from == |s| then None
    else FirstFrom(m, s, from + 1)
  }

  /** Every match, left to right, each search resuming where the previous match ended. */
  function AllFrom<T>(m: Matcher<T>, s: string, from: nat): seq<Found<T>>
    requires Sound(m, s) && from <= |s|
    decreases |s| - from
  {
    match FirstFrom(m, s, from)
    case None => []
    case Some(f) => [f] + AllFrom(m, s, f.end)
  }

  /** What the loop body pushes for each match, in order. */
  function Pushed<T, R>(record: T -> R, fs: seq<Found<T>>): (r: seq<R>)
    ensures |r| == |fs| && forall k :: 0 <= k < |fs| ==> r[k] == record(fs[k].value)
  {
    if fs == [] then [] else [record(fs[0].value)] + Pushed(record, fs[1..])
  }

  /** One turn of the matching loop: what is pushed from `from` on is the next match's record and those after it. */
  lemma AllFromStep<T, R>(m: Matcher<T>, s: string, from: nat, record: T -> R)
    requires Sound(m, s) && from <= |s|
    ensures FirstFrom(m, s, from).None? ==> Pushed(record, AllFrom(m, s, from)) == []
    ensures FirstFrom(m, s, from).Some? ==>
      var f := FirstFrom(m, s, from).value;
      from <= f.start < f.end <= |s| &&
      Pushed(record, AllFrom(m, s, from)) == [record(f.value)] + Pushed(record, AllFrom(m, s, f.end))
  {
    if FirstFrom(m, s, from).Some? {
      var f := FirstFrom(m, s, from).value;
      assert ([f] + AllFrom(m, s, f.end))[1..] == AllFrom(m, s, f.end);
    }
  }

  /**
   * `while ((match = re.exec(s)) !== null) out.push(record(match))`, and
   * likewise `for (const match of s.matchAll(re))`: `lastIndex` moves to the
   * end of each match.
   */
  method ExecAll<T, R>(m: Matcher<T>, s: string, record: T -> R) returns (out: seq<R>)
    requires Sound(m, s)
    ensures out == Pushed(record, AllFrom(m, s, 0))
  {
    out := [];
    var lastIndex := 0;
    while true
      invariant lastIndex <= |s|
      invariant Pushed(record, AllFrom(m, s, 0)) == out + Pushed(record, AllFrom(m, s, lastIndex))
      decreases |s| - lastIndex
    {
      AllFromStep(m, s, lastIndex, record);
      var hit := FirstFrom(m, s, lastIndex);
      if hit.None? {
        break;
      }
      out := out + [record(hit.value.value)];
      lastIndex := hit.value.end;
    }
  }

  /** No match starts at any position of `[lo, hi)`. */
  predicate NoMatchIn<T>(m: Matcher<T>, s: string, lo: int, hi: int) {
    forall i :: 0 <= lo <= i < hi && i <= |s| ==> m(s, i).None?
  }

  /**
   * The matches are leftmost and non-overlapping: each is a match of the
   * pattern at its start, they follow one another in the string, and no
   * match starts before the first, between two consecutive ones, or after
   * the last.
   */
  lemma AllFromLeftmost<T>(m: Matcher<T>, s: string, from: nat)
    requires Sound(m, s) && from <= |s|
    ensures var r := AllFrom(m, s, from);
      && (forall k :: 0 <= k < |r| ==> from <= r[k].start < r[k].end <= |s| && m(s, r[k].start) == Some(r[k]))
      && (forall k :: 0 <= k < |r| - 1 ==> r[k].end <= r[k + 1].start)
      && (r == [] ==> NoMatchIn(m, s, from, |s| + 1))
      && (r != [] ==> NoMatchIn(m, s, from, r[0].start) && NoMatchIn(m, s, r[|r| - 1].end, |s| + 1))
      && (forall k :: 0 <= k < |r| - 1 ==> NoMatchIn(m, s, r[k].end, r[k + 1].start))
  {
    AllFromMatches(m, s, from);
    AllFromNoneSkipped(m, s, from);
  }

  /** Each match found is a match of the pattern at its start, and each ends before the next starts. */
  lemma {:induction false} AllFromMatches<T>(m: Matcher<T>, s: string, from: nat)
    requires Sound(m, s) && from <= |s|
    ensures forall k :: 0 <= k < |AllFrom(m, s, from)| ==>
      var f := AllFrom(m, s, from)[k];
      from <= f.start < f.end <= |s| && m(s, f.start) == Some(f)
    ensures forall k :: 0 <= k < |AllFrom(m, s, from)| - 1 ==> AllFrom(m, s, from)[k].end <= AllFrom(m, s, from)[k + 1].start
    decreases |s| - from
  {
    var first := FirstFrom(m, s, from);
    if first.Some? {
      var f := first.value;
      assert from <= f.start && m(s, f.start) == Some(f);
      assert f.start < f.end <= |s|;
      AllFromMatches(m, s, f.end);
      var rest := AllFrom(m, s, f.end);
      var r := AllFrom(m, s, from);
      assert r == [f] + rest;
      forall k | 0 <= k < |r| ensures from <= r[k].start < r[k].end <= |s| && m(s, r[k].start) == Some(r[k]) {
        if k == 0 {
          assert r[k] == f;
        } else {
          assert r[k] == rest[k - 1];
        }
      }
      forall k | 0 <= k < |r| - 1 ensures r[k].end <= r[k + 1].start {
        assert r[k + 1] == rest[k];
        if k > 0 {
          assert r[k] == rest[k - 1];
        }
      }
    }
  }

  /** No match starts before the first match, between two consecutive ones, or after the last. */
  lemma {:induction false} AllFromNoneSkipped<T>(m: Matcher<T>, s: string, from: nat)
    requires Sound(m, s) && from <= |s|
    ensures var r := AllFrom(m, s, from);
      && (r == [] ==> NoMatchIn(m, s, from, |s| + 1))
      && (r != [] ==> NoMatchIn(m, s, from, r[0].start) && NoMatchIn(m, s, r[|r| - 1].end, |s| + 1))
      && (forall k :: 0 <= k < |r| - 1 ==> NoMatchIn(m, s, r[k].end, r[k + 1].start))
    decreases |s| - from
  {
    var first := FirstFrom(m, s, from);
    if first.Some? {
      var f := first.value;
      AllFromNoneSkipped(m, s, f.end);
      var rest := AllFrom(m, s, f.end);
      var r := AllFrom(m, s, from);
      assert r == [f] + rest;
      forall k | 0 <= k < |r| - 1 ensures NoMatchIn(m, s, r[k].end, r[k + 1].start) {
        if k > 0 {
          assert r[k] == rest[k - 1] && r[k + 1] == rest[k];
        }
      }
      if rest != [] {
        assert r[|r| - 1] == rest[|rest| - 1];
      }
    }
  }

  /** What every match of the pattern yields, every match the loop finds yields. */
  lemma {:induction false} AllFromSatisfy<T>(m: Matcher<T>, s: string, from: nat, P: T -> bool)
    requires Sound(m, s) && from <= |s|
    requires forall i :: from <= i <= |s| && m(s, i).Some? ==> P(m(s, i).value.value)
    ensures forall f :: f in AllFrom(m, s, from) ==> P(f.value)
    decreases |s| - from
  {
    var first := FirstFrom(m, s, from);
    if first.Some? {
      var f := first.value;
      assert m(s, f.start) == first;
      AllFromSatisfy(m, s, f.end, P);
      assert AllFrom(m, s, from) == [f] + AllFrom(m, s, f.end);
    }
  }

  // ---------------------------------------------------------------------
  // The field patterns

  /** The first `"` at or after `j`, or `|s|` when there is none. */
  function QuoteFrom(s: string, j: nat): (k: nat)
    requires j <= |s|
    ensures j <= k <= |s| && (k < |s| ==> s[k] == '"')
    ensures forall x :: j <= x < k ==> s[x] != '"'
    decreases |s| - j
  {
    if j == |s| || s[j] == '"' then j else QuoteFrom(s, j + 1)
  }

  predicate IsRunChar(c: char, decimal: bool) {
    ('0' <= c <= '9') || (decimal && c == '.')
  }

  /** The end of the longest run of `[0-9]` (or `[0-9.]` when `decimal`) starting at `j`. */
  function RunFrom(s: string, j: nat, decimal: bool): (k: nat)
    requires j <= |s|
    ensures j <= k <= |s| && (k < |s| ==> !IsRunChar(s[k], decimal))
    ensures forall x :: j <= x < k ==> IsRunChar(s[x], decimal)
    decreases |s| - j
  {
    if j == |s| || !IsRunChar(s[j], decimal) then j else RunFrom(s, j + 1, decimal)
  }

  /**
   * A field of a pattern: `key([^"]+)"` (`key([^"]*)"` when `allowEmpty`),
   * or `key([0-9]+)` / `key([0-9.]+)`.
   */
  datatype Field =
    | Quoted(key: string, allowEmpty: bool)
    | Digits(key: string, decimal: bool)

  /** A captured text and the index just after the field. */
  datatype Capture = Capture(text: string, end: nat)

  /**
   * The field matched exactly at `i`. A greedy class run followed by a fixed
   * delimiter has only one way to match, and a greedy digit run is taken
   * whole: the shorter runs backtracking could try lead to no other match.
   */
  function FieldAt(s: string, f: Field, i: nat): (r: Option<Capture>)
    ensures r.Some? ==>
      && i + |f.key| <= r.value.end <= |s|
      && OccursAt(s, f.key, i)
      && (f.Quoted? ==>
            && r.value.end - 1 >= i + |f.key| && s[r.value.end - 1] == '"'
            && r.value.text == s[i + |f.key|..r.value.end - 1]
            && s[i..r.value.end] == f.key + r.value.text + "\""
            && Free(r.value.text, '"') && (f.allowEmpty || r.value.text != ""))
      && (f.Digits? ==>
            && r.value.text == s[i + |f.key|..r.value.end] && r.value.text != ""
            && forall x :: 0 <= x < |r.value.text| ==> IsRunChar(r.value.text[x], f.decimal))
    ensures f.Digits? && r.Some? ==> r.value.end == |s| || !IsRunChar(s[r.value.end], f.decimal)
    ensures f.Digits? && OccursAt(s, f.key, i) && i + |f.key| < |s| && IsRunChar(s[i + |f.key|], f.decimal) ==> r.Some?
  {
    if !OccursAt(s, f.key, i) then None
    else
      var j := i + |f.key|;
      match f
      case Quoted(_, allowEmpty) =>
        var k := QuoteFrom(s, j);
        if k < |s| && (allowEmpty || k > j) then
          assert s[i..k + 1] == s[i..j] + s[j..k] + [s[k]];
          Some(Capture(s[j..k], k + 1))
        else None
      case Digits(_, decimal) =>
        var k := RunFrom(s, j, decimal);
        if k > j then Some(Capture(s[j..k], k)) else None
  }

  /**
   * The converse for a quoted field: wherever the key, a run without a quote
   * (non-empty unless `allowEmpty`) and a quote follow at `i`, the field
   * matches there and captures exactly that run.
   */
  lemma FieldAtQuotedMatches(s: string, key: string, allowEmpty: bool, i: nat, text: string)
    requires i + |key| + |text| + 1 <= |s|
    requires s[i..i + |key| + |text| + 1] == key + text + "\""
    requires Free(text, '"') && (allowEmpty || text != "")
    ensures FieldAt(s, Quoted(key, allowEmpty), i) == Some(Capture(text, i + |key| + |text| + 1))
  {
    var j, k := i + |key|, i + |key| + |text|;
    var w := s[i..k + 1];
    assert s[i..j] == w[..|key|] == key;
    assert OccursAt(s, key, i);
    assert s[k] == w[|key| + |text|] == '"';
    assert s[j..k] == w[|key|..|key| + |text|] == text;
    forall x | j <= x < k ensures s[x] != '"' {
      assert s[x] == text[x - j];
    }
    assert QuoteFrom(s, j) == k;
  }

  /**
   * `.*?` followed by the field: the first position at or after `from` where
   * the field matches, with its capture.
   */
  function FieldFrom(s: string, f: Field, from: nat): (r: Option<(nat, Capture)>)
    requires from <= |s|
    ensures r.Some? ==> from <= r.value.0 <= |s| && FieldAt(s, f, r.value.0) == Some(r.value.1)
    ensures forall p :: from <= p <= |s| && (r.None? || p < r.value.0) ==> FieldAt(s, f, p).None?
    decreases |s| - from
  {
    if FieldAt(s, f, from).Some? then Some((from, FieldAt(s, f, from).value))
    else if from == |s| then None
    else FieldFrom(s, f, from + 1)
  }

  /**
   * The lazy gap before a field takes the nearest match of the field: a
   * match further on would end no earlier, so it could only leave the rest
   * of the pattern less room.
   */
  lemma FieldFromNearest(s: string, f: Field, from: nat, p: nat)
    requires from <= p <= |s| && FieldAt(s, f, p).Some?
    ensures FieldFrom(s, f, from).Some? && FieldFrom(s, f, from).value.1.end <= FieldAt(s, f, p).value.end
  {
    FieldAtEndMonotone(s, f, FieldFrom(s, f, from).value.0, p);
  }

  /** Of two matches of a field, the one that starts later ends no earlier. */
  lemma FieldAtEndMonotone(s: string, f: Field, p: nat, q: nat)
    requires p <= q && FieldAt(s, f, p).Some? && FieldAt(s, f, q).Some?
    ensures FieldAt(s, f, p).value.end <= FieldAt(s, f, q).value.end
  {
  }
}
