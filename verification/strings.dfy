/**
 * The Python `str` operations the guided-thinking loop is built from:
 * substring containment (`t in s`), `find`, `replace`, `count`, `lower`,
 * `strip`/`lstrip`/`rstrip`, `join`, and `str(int)`.
 *
 * Strings are sequences of Unicode scalar values. Only ASCII letters have a
 * case mapping here; the whitespace set is the one Python's `str.isspace`
 * accepts.
 */
module Strings {
  import opened Basics

  /* ---------------------------------------------------------------------- */
  /* Occurrence                                                              */
  /* ---------------------------------------------------------------------- */

  /** `t` occurs in `s` starting at index `i`. */
  predicate OccursAt(s: string, t: string, i: int) {
    0 <= i && i + |t| <= |s| && s[i..i + |t|] == t
  }

  /** Python's `t in s`. */
  ghost predicate Occurs(s: string, t: string) {
    exists i :: OccursAt(s, t, i)
  }

  predicate StartsWith(s: string, p: string) {
    |p| <= |s| && s[..|p|] == p
  }

  predicate EndsWith(s: string, p: string) {
    |p| <= |s| && s[|s| - |p|..] == p
  }

  /**
   * The least index `j` with `from <= j < bound` that satisfies `p`, if any.
   * Every left-to-right scan of the loop (`find`, `re.search`, the first
   * matching trigger) is an instance of this search.
   */
  function FirstFrom(bound: nat, from: nat, p: nat -> bool): (r: Option<nat>)
    ensures r.Some? ==> from <= r.value < bound && p(r.value)
    ensures r.Some? ==> forall j :: from <= j < r.value ==> !p(j)
    ensures r.None? ==> forall j :: from <= j < bound ==> !p(j)
    decreases bound - from
  {
    if from >= bound then None
    else if p(from) then Some(from)
    else FirstFrom(bound, from + 1, p)
  }

  /** Python's `t in s`, computed. */
  function Contains(s: string, t: string): (r: bool)
    ensures r <==> Occurs(s, t)
  {
    Find(s, t, 0) != -1
  }

  /** Python's `s.find(t, start)`: the least index `>= start` of an occurrence, or -1. */
  function Find(s: string, t: string, start: nat): (r: int)
    ensures r == -1 || (start <= r && OccursAt(s, t, r))
    ensures r == -1 <==> forall j :: start <= j ==> !OccursAt(s, t, j)
    ensures r != -1 ==> forall j :: start <= j < r ==> !OccursAt(s, t, j)
  {
    var p: nat -> bool := i => OccursAt(s, t, i);
    match FirstFrom(|s| + 1, start, p)
    case Some(j) =>
      assert forall i :: start <= i < j ==> !OccursAt(s, t, i) by {
        forall i: nat | start <= i < j ensures !OccursAt(s, t, i) {
          assert !p(i);
          assert p(i) == OccursAt(s, t, i);
        }
      }
      j
    case None =>
      assert forall i :: start <= i ==> !OccursAt(s, t, i) by {
        forall i: nat | start <= i <= |s| ensures !OccursAt(s, t, i) {
          assert !p(i);
          assert p(i) == OccursAt(s, t, i);
        }
      }
      -1
  }

  /** An occurrence with none before it, from `start` on, is the one `find` reports. */
  lemma FindIsFirst(s: string, t: string, start: nat, r: nat)
    requires start <= r && OccursAt(s, t, r)
    requires forall j :: start <= j < r ==> !OccursAt(s, t, j)
    ensures Find(s, t, start) == r
  {
  }

  /** A prefix of `a` is a prefix of `a + b`. */
  lemma StartsWithAppend(a: string, b: string, p: string)
    requires StartsWith(a, p)
    ensures StartsWith(a + b, p)
  {
    assert (a + b)[..|p|] == a[..|p|];
  }

  /** `b` ends `a + b`. */
  lemma EndsWithAppend(a: string, b: string)
    ensures EndsWith(a + b, b)
  {
    assert (a + b)[|a|..] == b;
  }

  /** A pattern holding a character that is absent from `s` does not occur in it. */
  lemma AbsentChar(s: string, t: string, j: nat)
    requires j < |t| && forall i :: 0 <= i < |s| ==> s[i] != t[j]
    ensures !Occurs(s, t)
  {
    forall i ensures !OccursAt(s, t, i) {
      if 0 <= i && i + |t| <= |s| {
        assert s[i..i + |t|][j] == s[i + j];
      }
    }
  }

  /** A pattern longer than `s` does not occur in it. */
  lemma TooLong(s: string, t: string)
    requires |s| < |t|
    ensures !Occurs(s, t)
  {
  }

  /** Without a match at the front, `replace` copies the first character. */
  lemma ReplaceAllCopiesHead(s: string, t: string, u: string)
    requires t != [] && s != [] && !StartsWith(s, t)
    ensures ReplaceAll(s, t, u) == [s[0]] + ReplaceAll(s[1..], t, u)
  {
  }

  lemma PrependHead(s: string, n: nat, rest: string)
    requires 0 < n <= |s|
    ensures [s[0]] + (s[1..][..n - 1] + rest) == s[..n] + rest
  {
    assert s[..n] == [s[0]] + s[1..][..n - 1];
  }

  /** Text before the first possible match is copied unchanged by `replace`. */
  lemma {:induction false} ReplaceAllSkipsPrefix(s: string, n: nat, t: string, u: string)
    requires t != [] && n <= |s|
    requires forall i :: 0 <= i < n ==> !OccursAt(s, t, i)
    ensures ReplaceAll(s, t, u) == s[..n] + ReplaceAll(s[n..], t, u)
    decreases n
  {
    if n > 0 {
      assert !StartsWith(s, t) by {
        assert !OccursAt(s, t, 0);
      }
      ReplaceAllCopiesHead(s, t, u);
      forall i | 0 <= i < n - 1 ensures !OccursAt(s[1..], t, i) {
        OccursAtShift(s, t, i);
      }
      ReplaceAllSkipsPrefix(s[1..], n - 1, t, u);
      assert s[1..][n - 1..] == s[n..];
      PrependHead(s, n, ReplaceAll(s[n..], t, u));
    }
  }

  /** A match at the front is replaced and the search resumes after it. */
  lemma ReplaceAllAtMatch(t: string, b: string, u: string)
    requires t != []
    ensures ReplaceAll(t + b, t, u) == u + ReplaceAll(b, t, u)
  {
    assert (t + b)[..|t|] == t;
    assert (t + b)[|t|..] == b;
  }

  /**
   * When the first character of `t` does not occur in `a`, replacing in
   * `a + t + b` leaves `a` alone, replaces the `t` and carries on in `b`.
   */
  lemma ReplaceAllFirstMatch(a: string, t: string, b: string, u: string)
    requires t != []
    requires forall i :: 0 <= i < |a| ==> a[i] != t[0]
    ensures ReplaceAll(a + t + b, t, u) == a + u + ReplaceAll(b, t, u)
  {
    var s := a + t + b;
    forall i | 0 <= i < |a| ensures !OccursAt(s, t, i) {
      if i + |t| <= |s| {
        assert s[i..i + |t|][0] == s[i] == a[i];
      }
    }
    ReplaceAllSkipsPrefix(s, |a|, t, u);
    assert s[..|a|] == a;
    assert s[|a|..] == t + b;
    ReplaceAllAtMatch(t, b, u);
  }

  lemma OccursAtShift(s: string, t: string, i: nat)
    requires s != []
    ensures OccursAt(s, t, i + 1) <==> OccursAt(s[1..], t, i)
  {
    if i + 1 + |t| <= |s| {
      assert s[1..][i..i + |t|] == s[i + 1..i + 1 + |t|];
    }
  }

  lemma OccursAtSkip(s: string, t: string, n: nat, i: nat)
    requires n <= |s|
    ensures OccursAt(s, t, i + n) <==> OccursAt(s[n..], t, i)
  {
    if i + n + |t| <= |s| {
      assert s[n..][i..i + |t|] == s[i + n..i + n + |t|];
    }
  }

  /** The longest prefix of `s` whose characters all satisfy `p` (the `+` of a regular expression). */
  function PrefixWhile(s: string, p: char -> bool): (r: string)
    ensures StartsWith(s, r)
    ensures forall i :: 0 <= i < |r| ==> p(r[i])
    ensures |r| == |s| || !p(s[|r|])
  {
    if s != [] && p(s[0]) then [s[0]] + PrefixWhile(s[1..], p) else []
  }

  /* ---------------------------------------------------------------------- */
  /* replace and count                                                       */
  /* ---------------------------------------------------------------------- */

  /**
   * Python's `s.replace(t, u)`: occurrences of a non-empty `t` are found left
   * to right, do not overlap, and the replaced text is not searched again; an
   * empty `t` puts `u` before every character and at the end.
   */
  function ReplaceAll(s: string, t: string, u: string): (r: string)
    ensures u == [] ==> |r| <= |s|
    decreases |s|
  {
    if t == [] then
      if s == [] then u else u + [s[0]] + ReplaceAll(s[1..], t, u)
    else if StartsWith(s, t) then
      u + ReplaceAll(s[|t|..], t, u)
    else if s == [] then
      []
    else
      [s[0]] + ReplaceAll(s[1..], t, u)
  }

  /** Removing a non-empty pattern changes the text exactly when the pattern occurs in it. */
  lemma {:induction false} ReplaceAllUnchanged(s: string, t: string, u: string)
    requires t != []
    ensures !Occurs(s, t) ==> ReplaceAll(s, t, u) == s
    ensures u == [] ==> (ReplaceAll(s, t, u) == s <==> !Occurs(s, t))
    decreases |s|
  {
    if StartsWith(s, t) {
      assert OccursAt(s, t, 0);
      if u == [] {
        assert |ReplaceAll(s, t, u)| <= |s| - |t|;
      }
    } else if s != [] {
      ReplaceAllUnchanged(s[1..], t, u);
      assert Occurs(s, t) <==> Occurs(s[1..], t) by {
        if Occurs(s, t) {
          var i :| OccursAt(s, t, i);
          assert i != 0;
          OccursAtShift(s, t, i - 1);
        }
        if Occurs(s[1..], t) {
          var i: nat :| OccursAt(s[1..], t, i);
          OccursAtShift(s, t, i);
        }
      }
      assert s == [s[0]] + s[1..];
    }
  }

  /** Python's `s.count(t)` for a non-empty `t`: non-overlapping occurrences, left to right. */
  function Count(s: string, t: string): (r: nat)
    requires |t| > 0
    ensures r > 0 <==> Occurs(s, t)
    decreases |s|
  {
    if StartsWith(s, t) then
      assert OccursAt(s, t, 0);
      1 + Count(s[|t|..], t)
    else if s == [] then
      0
    else
      var rest := Count(s[1..], t);
      assert Occurs(s, t) <==> Occurs(s[1..], t) by {
        if Occurs(s, t) {
          var i :| OccursAt(s, t, i);
          assert i != 0;
          OccursAtShift(s, t, i - 1);
        }
        if Occurs(s[1..], t) {
          var i: nat :| OccursAt(s[1..], t, i);
          OccursAtShift(s, t, i);
        }
      }
      rest
  }

  /* ---------------------------------------------------------------------- */
  /* Case                                                                    */
  /* ---------------------------------------------------------------------- */

  predicate IsUpper(c: char) {
    'A' <= c <= 'Z'
  }

  function LowerChar(c: char): char {
    if IsUpper(c) then (c as int + 32) as char else c
  }

  function UpperChar(c: char): char {
    if 'a' <= c <= 'z' then (c as int - 32) as char else c
  }

  /** Python's `s.lower()`, restricted to the ASCII case mapping. */
  function Lower(s: string): (r: string)
    ensures |r| == |s|
    ensures forall i :: 0 <= i < |s| ==> r[i] == LowerChar(s[i])
  {
    seq(|s|, i requires 0 <= i < |s| => LowerChar(s[i]))
  }

  /** Python's `s.upper()`, restricted to the ASCII case mapping. */
  function Upper(s: string): (r: string)
    ensures |r| == |s|
  {
    seq(|s|, i requires 0 <= i < |s| => UpperChar(s[i]))
  }

  predicate HasUpper(t: string) {
    exists i :: 0 <= i < |t| && IsUpper(t[i])
  }

  /** A pattern with an upper-case letter never occurs in lower-cased text. */
  lemma UpperNeverOccursInLower(s: string, t: string)
    requires HasUpper(t)
    ensures !Occurs(Lower(s), t)
  {
    var k :| 0 <= k < |t| && IsUpper(t[k]);
    var l := Lower(s);
    forall i | 0 <= i && i + |t| <= |l| ensures !OccursAt(l, t, i) {
      assert l[i..i + |t|][k] == LowerChar(s[i + k]);
    }
  }

  /* ---------------------------------------------------------------------- */
  /* Whitespace                                                              */
  /* ---------------------------------------------------------------------- */

  /** Python's `str.isspace` on one character. */
  predicate IsSpace(c: char) {
    var n := c as int;
    (9 <= n <= 13) || (28 <= n <= 32) || n == 0x85 || n == 0xA0 || n == 0x1680
    || (0x2000 <= n <= 0x200A) || n == 0x2028 || n == 0x2029 || n == 0x202F
    || n == 0x205F || n == 0x3000
  }

  predicate AllSpace(s: string) {
    forall i :: 0 <= i < |s| ==> IsSpace(s[i])
  }

  /** Python's `s.lstrip()`. */
  function LStrip(s: string): (r: string)
    ensures EndsWith(s, r)
    ensures AllSpace(s[..|s| - |r|])
    ensures r == [] || !IsSpace(r[0])
  {
    if s != [] && IsSpace(s[0]) then
      var r := LStrip(s[1..]);
      assert s[..|s| - |r|] == [s[0]] + s[1..][..|s[1..]| - |r|];
      r
    else s
  }

  /** Python's `s.rstrip(c)` for a single character `c`. */
  function RStripChar(s: string, c: char): (r: string)
    ensures StartsWith(s, r)
    ensures forall i :: |r| <= i < |s| ==> s[i] == c
    ensures r == [] || r[|r| - 1] != c
  {
    if s != [] && s[|s| - 1] == c then RStripChar(s[..|s| - 1], c) else s
  }

  /** Python's `s.rstrip()`. */
  function RStrip(s: string): (r: string)
    ensures StartsWith(s, r)
    ensures AllSpace(s[|r|..])
    ensures r == [] || !IsSpace(r[|r| - 1])
  {
    if s != [] && IsSpace(s[|s| - 1]) then
      var r := RStrip(s[..|s| - 1]);
      assert s[|r|..] == s[..|s| - 1][|r|..] + [s[|s| - 1]];
      r
    else s
  }

  /** Python's `s.strip()`. */
  function Strip(s: string): (r: string)
    ensures r == [] <==> AllSpace(s)
  {
    var l := LStrip(s);
    var r := RStrip(l);
    assert r == [] <==> AllSpace(s) by {
      if r == [] {
        assert l == [];
        assert s[..|s| - |l|] == s;
      }
    }
    r
  }

  lemma {:induction false} LStripKeepsOccurrence(s: string, t: string, i: nat)
    requires t != [] && !IsSpace(t[0]) && OccursAt(s, t, i)
    ensures i >= |s| - |LStrip(s)| && OccursAt(LStrip(s), t, i - (|s| - |LStrip(s)|))
    decreases |s|
  {
    if s != [] && IsSpace(s[0]) {
      assert s[i] == t[0];
      assert i > 0;
      OccursAtShift(s, t, i - 1);
      LStripKeepsOccurrence(s[1..], t, i - 1);
    }
  }

  lemma {:induction false} RStripKeepsOccurrence(s: string, t: string, i: nat)
    requires t != [] && !IsSpace(t[|t| - 1]) && OccursAt(s, t, i)
    ensures OccursAt(RStrip(s), t, i)
    decreases |s|
  {
    if s != [] && IsSpace(s[|s| - 1]) {
      assert s[i + |t| - 1] == t[|t| - 1];
      assert i + |t| < |s|;
      assert s[..|s| - 1][i..i + |t|] == s[i..i + |t|];
      RStripKeepsOccurrence(s[..|s| - 1], t, i);
    }
  }

  /** Stripping never removes an occurrence of a pattern that begins and ends with a non-space. */
  lemma StripKeepsOccurrence(s: string, t: string)
    requires t != [] && !IsSpace(t[0]) && !IsSpace(t[|t| - 1])
    requires Occurs(s, t)
    ensures Occurs(Strip(s), t)
  {
    var i :| OccursAt(s, t, i);
    LStripKeepsOccurrence(s, t, i);
    var j := i - (|s| - |LStrip(s)|);
    RStripKeepsOccurrence(LStrip(s), t, j);
    assert OccursAt(Strip(s), t, j);
  }

  /** A text with non-space ends is its own strip. */
  lemma StripTrimmed(s: string)
    requires s != [] && !IsSpace(s[0]) && !IsSpace(s[|s| - 1])
    ensures Strip(s) == s
  {
    assert LStrip(s) == s;
  }

  /** Stripping a text with non-space ends and one trailing space gives the text back. */
  lemma StripTrailingSpace(s: string)
    requires s != [] && !IsSpace(s[0]) && !IsSpace(s[|s| - 1])
    ensures Strip(s + " ") == s
  {
    var t := s + " ";
    assert LStrip(t) == t;
    assert t[..|t| - 1] == s;
    assert RStrip(s) == s;
  }

  /* ---------------------------------------------------------------------- */
  /* join and number formatting                                              */
  /* ---------------------------------------------------------------------- */

  /** Python's `sep.join(xs)`. */
  function Join(sep: string, xs: seq<string>): (r: string)
    ensures xs == [] ==> r == []
    ensures |xs| == 1 ==> r == xs[0]
  {
    if xs == [] then []
    else if |xs| == 1 then xs[0]
    else xs[0] + sep + Join(sep, xs[1..])
  }

  /** Joining a non-empty list puts its first element, then `sep`, at the front. */
  lemma JoinStartsWith(sep: string, xs: seq<string>)
    requires |xs| >= 2
    ensures StartsWith(Join(sep, xs), xs[0] + sep)
  {
  }

  /** Joining with a trailing empty element ends in the last real element followed by `sep`. */
  lemma {:induction false} JoinEndsWith(sep: string, xs: seq<string>, last: string)
    ensures EndsWith(Join(sep, xs + [last, []]), last + sep)
    decreases |xs|
  {
    if xs == [] {
      assert xs + [last, []] == [last, []];
      assert Join(sep, [last, []]) == last + sep + Join(sep, [[]]);
    } else {
      assert (xs + [last, []])[1..] == xs[1..] + [last, []];
      JoinEndsWith(sep, xs[1..], last);
    }
  }

  function DigitChar(d: nat): char
    requires d < 10
  {
    ('0' as int + d) as char
  }

  function NatToString(n: nat): (r: string)
    ensures |r| > 0
    decreases n
  {
    if n < 10 then [DigitChar(n)] else NatToString(n / 10) + [DigitChar(n % 10)]
  }

  /** Python's `str(n)` for an integer. */
  function IntToString(n: int): (r: string)
    ensures |r| > 0
  {
    if n < 0 then "-" + NatToString(-n) else NatToString(n)
  }
}
