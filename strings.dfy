/** The small part of Python's `str` that the pipeline relies on: `strip`, `lower`,
    `in` on substrings, `startswith`/`endswith`, `replace` and the ordering that
    `sorted` uses. Each is defined once here, with the facts the other modules need. */
module Strings {

  // ---------------------------------------------------------------------------
  // Whitespace and strip()
  // ---------------------------------------------------------------------------

  /** The characters for which Python's `str.isspace()` holds. */
  predicate IsSpace(c: char) {
    var n := c as int;
    n == 0x20 || 0x09 <= n <= 0x0D || 0x1C <= n <= 0x1F || n == 0x85 || n == 0xA0
    || n == 0x1680 || 0x2000 <= n <= 0x200A || n == 0x2028 || n == 0x2029
    || n == 0x202F || n == 0x205F || n == 0x3000
  }

  /** `s.lstrip()`: drops the longest whitespace prefix. */
  function TrimLeft(s: string): (r: string)
    ensures |r| <= |s| && r == s[|s| - |r|..]
    ensures r == [] || !IsSpace(r[0])
    ensures forall i :: 0 <= i < |s| - |r| ==> IsSpace(s[i])
  {
    if s != [] && IsSpace(s[0]) then TrimLeft(s[1..]) else s
  }

  /** `s.rstrip()`: drops the longest whitespace suffix. */
  function TrimRight(s: string): (r: string)
    ensures |r| <= |s| && r == s[..|r|]
    ensures r == [] || !IsSpace(r[|r| - 1])
    ensures forall i :: |r| <= i < |s| ==> IsSpace(s[i])
  {
    if s != [] && IsSpace(s[|s| - 1]) then TrimRight(s[..|s| - 1]) else s
  }

  /** `s.strip()`: the text between the whitespace prefix and suffix. */
  function Strip(s: string): (r: string)
    ensures |r| <= |s|
    ensures r == [] || (!IsSpace(r[0]) && !IsSpace(r[|r| - 1]))
    ensures exists a, b :: Surrounds(s, a, r, b)
  {
    TrimBoth(s);
    TrimRight(TrimLeft(s))
  }

  /** `w` is all whitespace. */
  predicate AllSpace(w: string) {
    forall k :: 0 <= k < |w| ==> IsSpace(w[k])
  }

  /** `s` is `r` with the whitespace `a` before it and `b` after it. */
  predicate Surrounds(s: string, a: string, r: string, b: string) {
    s == a + r + b && AllSpace(a) && AllSpace(b)
  }

  /** Stripping both sides removes a whitespace prefix and a whitespace suffix. */
  lemma TrimBoth(s: string)
    ensures var l := TrimLeft(s);
      Surrounds(s, s[..|s| - |l|], TrimRight(l), l[|TrimRight(l)|..])
  {
    var l := TrimLeft(s);
    var r := TrimRight(l);
    var a, b := s[..|s| - |l|], l[|r|..];
    LeftSpaces(s);
    RightSpaces(l);
    SplitAt(s, |s| - |l|);
    SplitAt(l, |r|);
    ConcatAssoc(a, r, b);
  }

  /** What `lstrip()` removes is whitespace. */
  lemma LeftSpaces(s: string)
    ensures AllSpace(s[..|s| - |TrimLeft(s)|])
  {
    var a := s[..|s| - |TrimLeft(s)|];
    forall k | 0 <= k < |a| ensures IsSpace(a[k]) {
      assert a[k] == s[k];
    }
  }

  /** What `rstrip()` removes is whitespace. */
  lemma RightSpaces(s: string)
    ensures AllSpace(s[|TrimRight(s)|..])
  {
    var n := |TrimRight(s)|;
    var b := s[n..];
    forall k | 0 <= k < |b| ensures IsSpace(b[k]) {
      assert b[k] == s[n + k];
    }
  }

  lemma SplitAt<T>(s: seq<T>, n: nat)
    requires n <= |s|
    ensures s == s[..n] + s[n..]
  {
  }

  lemma ConcatAssoc<T>(a: seq<T>, b: seq<T>, c: seq<T>)
    ensures a + b + c == a + (b + c)
  {
  }

  /** A string with no whitespace at either end is its own strip. */
  lemma StripOfTrimmed(s: string)
    requires s == [] || (!IsSpace(s[0]) && !IsSpace(s[|s| - 1]))
    ensures Strip(s) == s
  {
  }

  /** Trailing whitespace after a trimmed text is all that `strip()` removes. */
  lemma StripTrailingSpace(s: string, t: string)
    requires s != [] && !IsSpace(s[0]) && !IsSpace(s[|s| - 1])
    requires forall i :: 0 <= i < |t| ==> IsSpace(t[i])
    ensures Strip(s + t) == s
  {
    var u := s + t;
    assert u[0] == s[0];
    assert TrimLeft(u) == u;
    var r := TrimRight(u);
    assert u[|s| - 1] == s[|s| - 1];
    assert |r| == |s|;
    assert r == u[..|s|] == s;
  }

  // ---------------------------------------------------------------------------
  // lower()
  // ---------------------------------------------------------------------------

  /** Lower-casing of one character; only ASCII letters are mapped. */
  function LowerChar(c: char): (r: char)
    ensures 'A' <= c <= 'Z' ==> r as int == c as int + 32
    ensures !('A' <= c <= 'Z') ==> r == c
  {
    if 'A' <= c <= 'Z' then (c as int + 32) as char else c
  }

  /** `s.lower()` on ASCII letters, character by character. */
  function Lower(s: string): (r: string)
    ensures |r| == |s|
    ensures forall i :: 0 <= i < |s| ==> r[i] == LowerChar(s[i])
  {
    if s == [] then [] else [LowerChar(s[0])] + Lower(s[1..])
  }

  lemma LowerConcat(a: string, b: string)
    ensures Lower(a + b) == Lower(a) + Lower(b)
  {
    assert Lower(a + b) == Lower(a) + Lower(b) by {
      var l, r := Lower(a + b), Lower(a) + Lower(b);
      assert |l| == |r|;
      forall i | 0 <= i < |l| ensures l[i] == r[i] {
        if i < |a| { assert (a + b)[i] == a[i]; } else { assert (a + b)[i] == b[i - |a|]; }
      }
    }
  }

  lemma LowerIdempotent(s: string)
    ensures Lower(Lower(s)) == Lower(s)
  {
    var l := Lower(s);
    assert |Lower(l)| == |l|;
    forall i | 0 <= i < |l| ensures Lower(l)[i] == l[i] {
    }
  }

  /** No space in `s` is followed by a character that lower-cases to `c`. */
  predicate NoSpaceThen(s: string, c: char)
    decreases |s|
  {
    |s| < 2 || (!(s[0] == ' ' && LowerChar(s[1]) == c) && NoSpaceThen(s[1..], c))
  }

  lemma {:induction false} NoSpaceThenConcat(a: string, b: string, c: char)
    requires NoSpaceThen(a, c) && NoSpaceThen(b, c)
    requires a == [] || b == [] || !(a[|a| - 1] == ' ' && LowerChar(b[0]) == c)
    ensures NoSpaceThen(a + b, c)
    decreases |a|
  {
    if a == [] {
      assert a + b == b;
    } else if b == [] {
      assert a + b == a;
    } else {
      var s := a + b;
      assert s[1..] == a[1..] + b;
      assert s[0] == a[0];
      if |a| == 1 {
        assert s[1] == b[0];
        assert a[1..] + b == b;
      } else {
        assert s[1] == a[1];
        assert a[1..][|a| - 2] == a[|a| - 1];
        NoSpaceThenConcat(a[1..], b, c);
      }
    }
  }

  /** A text without spaces has no space before any character. */
  lemma {:induction false} NoSpaceThenWord(w: string, c: char)
    requires ' ' !in w
    ensures NoSpaceThen(w, c)
    decreases |w|
  {
    if |w| >= 2 {
      assert w[0] in w;
      assert forall i :: 0 <= i < |w[1..]| ==> w[1..][i] == w[i + 1];
      NoSpaceThenWord(w[1..], c);
    }
  }

  /** Joining two such texts with a space, when the second does not start
      with `c`, keeps the whole free of a space before `c`. */
  lemma SpaceJoin(a: string, b: string, c: char)
    requires NoSpaceThen(a, c) && a != [] && a[|a| - 1] != ' '
    requires NoSpaceThen(b, c) && b != [] && b[0] != ' ' && LowerChar(b[0]) != c && b[|b| - 1] != ' '
    ensures NoSpaceThen(a + " " + b, c)
  {
    var tail := " " + b;
    assert tail[1..] == b;
    NoSpaceThenConcat(a, tail, c);
    assert a + " " + b == a + tail;
  }

  /** Appending a space and a word that has no space and does not start with
      `c` in either case keeps a text free of a space before `c`. */
  lemma SpaceWord(a: string, w: string, c: char)
    requires NoSpaceThen(a, c) && a != [] && a[|a| - 1] != ' '
    requires w != [] && ' ' !in w && LowerChar(w[0]) != c
    ensures NoSpaceThen(a + " " + w, c)
    ensures var s := a + " " + w; s[0] == a[0] && s[|s| - 1] != ' '
  {
    NoSpaceThenWord(w, c);
    var tail := " " + w;
    assert tail[1..] == w;
    NoSpaceThenConcat(a, tail, c);
    assert a + " " + w == a + tail;
    assert w[|w| - 1] in w;
  }

  lemma {:induction false} NoSpaceThenAt(s: string, c: char, k: int)
    requires NoSpaceThen(s, c) && 0 <= k && k + 1 < |s|
    ensures !(s[k] == ' ' && LowerChar(s[k + 1]) == c)
    decreases k
  {
    if k > 0 {
      NoSpaceThenAt(s[1..], c, k - 1);
    }
  }

  /** Then the lower-cased text contains no word that starts with a space and `c`. */
  lemma NoSpaceThenLower(s: string, w: string)
    requires |w| >= 2 && w[0] == ' ' && NoSpaceThen(s, w[1])
    ensures !Contains(Lower(s), w)
  {
    var l := Lower(s);
    ContainsAt(l, w);
    if Contains(l, w) {
      var k :| OccursAt(l, w, k);
      assert l[k] == w[0] && l[k + 1] == w[1] by {
        assert l[k..k + |w|][0] == l[k] && l[k..k + |w|][1] == l[k + 1];
      }
      NoSpaceThenAt(s, w[1], k);
      assert false;
    }
  }

  // ---------------------------------------------------------------------------
  // Prefixes, suffixes and the substring test `w in s`
  // ---------------------------------------------------------------------------

  predicate StartsWith(s: string, p: string) {
    |p| <= |s| && s[..|p|] == p
  }

  predicate EndsWith(s: string, p: string) {
    |p| <= |s| && s[|s| - |p|..] == p
  }

  /** Python's `w in s` for strings. */
  predicate Contains(s: string, w: string)
    decreases |s|
  {
    StartsWith(s, w) || (|s| > 0 && Contains(s[1..], w))
  }

  /** `w` occurs in `s` at offset `k`. */
  predicate OccursAt(s: string, w: string, k: int) {
    0 <= k && k + |w| <= |s| && s[k..k + |w|] == w
  }

  /** `w in s` holds exactly when `w` occurs at some offset of `s`. */
  lemma {:induction false} ContainsAt(s: string, w: string)
    ensures Contains(s, w) <==> exists k :: OccursAt(s, w, k)
    decreases |s|
  {
    if StartsWith(s, w) {
      assert OccursAt(s, w, 0);
    }
    if |s| > 0 {
      ContainsAt(s[1..], w);
      if Contains(s[1..], w) {
        var k :| OccursAt(s[1..], w, k);
        assert s[k + 1..k + 1 + |w|] == s[1..][k..k + |w|];
        assert OccursAt(s, w, k + 1);
      }
      if exists k :: OccursAt(s, w, k) {
        var k :| OccursAt(s, w, k);
        if k > 0 {
          assert s[1..][k - 1..k - 1 + |w|] == s[k..k + |w|];
          assert OccursAt(s[1..], w, k - 1);
        }
      }
    }
  }

  lemma ContainsLength(s: string, w: string)
    requires Contains(s, w)
    ensures |w| <= |s|
  {
    ContainsAt(s, w);
  }

  /** An occurrence in a suffix is an occurrence in the whole string. */
  lemma ContainsInSuffix(s: string, n: nat, w: string)
    requires n <= |s| && Contains(s[n..], w)
    ensures Contains(s, w)
  {
    ContainsAt(s[n..], w);
    var k :| OccursAt(s[n..], w, k);
    assert s[n + k..n + k + |w|] == s[n..][k..k + |w|];
    assert OccursAt(s, w, n + k);
    ContainsAt(s, w);
  }

  /** An occurrence in `a + b` of a word whose first character is not in `a` lies in `b`. */
  lemma {:induction false} ContainsSkipPrefix(a: string, b: string, w: string)
    requires |w| > 0 && w[0] !in a && Contains(a + b, w)
    ensures Contains(b, w)
    decreases |a|
  {
    if a == [] {
      assert a + b == b;
    } else {
      assert (a + b)[1..] == a[1..] + b;
      assert a[0] in a;
      ContainsSkipPrefix(a[1..], b, w);
    }
  }

  /** An occurrence at any offset makes `w in s` hold. */
  lemma {:induction false} OccursContains(s: string, w: string, k: int)
    requires OccursAt(s, w, k)
    ensures Contains(s, w)
    decreases k
  {
    if k > 0 {
      assert s[1..][k - 1..k - 1 + |w|] == s[k..k + |w|];
      OccursContains(s[1..], w, k - 1);
    }
  }

  /** `w` occurs in `x + w + y` right after `x`. */
  lemma OccursInMiddle(x: string, w: string, y: string)
    ensures OccursAt(x + w + y, w, |x|)
  {
    assert (x + w + y)[|x|..|x| + |w|] == w;
  }

  /** An occurrence inside the window `s[lo..hi]` is an occurrence of that window. */
  lemma ContainsWindow(s: string, w: string, k: int, lo: int, hi: int)
    requires OccursAt(s, w, k) && 0 <= lo <= k && k + |w| <= hi <= |s|
    ensures Contains(s[lo..hi], w)
  {
    var t := s[lo..hi];
    var x, y := t[k - lo..k - lo + |w|], s[k..k + |w|];
    forall i | 0 <= i < |w| ensures x[i] == y[i] {
      assert x[i] == t[k - lo + i] == s[k + i];
    }
    assert x == y;
    OccursContains(t, w, k - lo);
  }

  /** An occurrence in `a + b` lies in `a`, in `b`, or in the seam: the last
      |w|-1 characters of `a` followed by the first |w|-1 characters of `b`. */
  lemma ContainsConcat(a: string, b: string, w: string)
    requires |w| > 0 && Contains(a + b, w)
    ensures Contains(a, w) || Contains(b, w) || Contains(Seam(a, b, |w|), w)
  {
    ContainsAt(a + b, w);
    var k :| OccursAt(a + b, w, k);
    if k + |w| <= |a| {
      ContainsLeft(a, b, w, k);
    } else if k >= |a| {
      ContainsRight(a, b, w, k);
    } else {
      var lo := if |a| < |w| - 1 then 0 else |a| - (|w| - 1);
      var hi := if |b| < |w| - 1 then |b| else |w| - 1;
      ContainsSeam(a, b, w, k, lo, hi);
    }
  }

  lemma ContainsLeft(a: string, b: string, w: string, k: int)
    requires OccursAt(a + b, w, k) && k + |w| <= |a|
    ensures Contains(a, w)
  {
    assert (a + b)[0..|a|] == a;
    ContainsWindow(a + b, w, k, 0, |a|);
  }

  lemma ContainsRight(a: string, b: string, w: string, k: int)
    requires OccursAt(a + b, w, k) && k >= |a|
    ensures Contains(b, w)
  {
    assert (a + b)[|a|..|a + b|] == b;
    ContainsWindow(a + b, w, k, |a|, |a + b|);
  }

  lemma ContainsSeam(a: string, b: string, w: string, k: int, lo: int, hi: int)
    requires OccursAt(a + b, w, k) && 0 <= lo <= k && |a| + hi >= k + |w| && 0 <= hi <= |b| && lo <= |a|
    ensures Contains(a[lo..] + b[..hi], w)
  {
    var c, t := a[lo..] + b[..hi], (a + b)[lo..|a| + hi];
    SliceOfConcat(a, b, lo, hi);
    forall i | 0 <= i < |w| ensures c[k - lo + i] == w[i] {
      assert c[k - lo + i] == t[k - lo + i] == (a + b)[k + i];
    }
    assert c[k - lo..k - lo + |w|] == w;
    OccursContains(c, w, k - lo);
  }

  lemma SliceOfConcat(a: string, b: string, lo: int, hi: int)
    requires 0 <= lo <= |a| && 0 <= hi <= |b|
    ensures (a + b)[lo..|a| + hi] == a[lo..] + b[..hi]
  {
    var x, y := (a + b)[lo..|a| + hi], a[lo..] + b[..hi];
    forall i | 0 <= i < |x| ensures x[i] == y[i] {
      if lo + i < |a| { assert x[i] == a[lo + i]; } else { assert x[i] == b[lo + i - |a|]; }
    }
  }

  /** The last n-1 characters of `a` (or all of it) followed by the first n-1 of `b`. */
  function Seam(a: string, b: string, n: nat): (r: string)
    requires n > 0
    ensures |r| <= 2 * (n - 1)
  {
    a[if |a| < n - 1 then 0 else |a| - (n - 1)..] + b[..if |b| < n - 1 then |b| else n - 1]
  }

  // ---------------------------------------------------------------------------
  // replace()
  // ---------------------------------------------------------------------------

  /** `s.replace(pat, rep)`: every non-overlapping occurrence of `pat`, scanning
      from the left, is replaced by `rep`. */
  function ReplaceAll(s: string, pat: string, rep: string): (r: string)
    requires |pat| > 0
    ensures |pat| == |rep| ==> |r| == |s|
    decreases |s|
  {
    if |s| < |pat| then s
    else if s[..|pat|] == pat then rep + ReplaceAll(s[|pat|..], pat, rep)
    else [s[0]] + ReplaceAll(s[1..], pat, rep)
  }

  /** Replacing a pattern that does not occur changes nothing. */
  lemma {:induction false} ReplaceAbsent(s: string, pat: string, rep: string)
    requires |pat| > 0 && !Contains(s, pat)
    ensures ReplaceAll(s, pat, rep) == s
    decreases |s|
  {
    if |s| >= |pat| {
      assert !StartsWith(s, pat);
      ReplaceAbsent(s[1..], pat, rep);
    }
  }

  /** `a` and `b` agree on their common length. */
  predicate Overlaps(a: string, b: string) {
    StartsWith(a, b) || StartsWith(b, a)
  }

  /** Strings that differ at a position both have do not overlap. */
  lemma DifferAt(a: string, b: string, i: int)
    requires 0 <= i < |a| && i < |b| && a[i] != b[i]
    ensures !Overlaps(a, b)
  {
    if |b| <= |a| { assert a[..|b|][i] != b[i]; }
    if |a| <= |b| { assert b[..|a|][i] != a[i]; }
  }

  /** A prefix of `x + y` overlaps `x`. */
  lemma PrefixOfConcat(x: string, y: string, v: string)
    requires StartsWith(x + y, v)
    ensures Overlaps(v, x)
  {
    if |v| >= |x| {
      assert v[..|x|] == (x + y)[..|x|];
    } else {
      assert x[..|v|] == (x + y)[..|v|];
    }
  }

  /** If no suffix of `v` can be overlaid by `rep`, a prefix `v` of the replaced
      text was already a prefix of the original text. */
  lemma {:induction false} ReplacedPrefix(t: string, pat: string, rep: string, v: string)
    requires |pat| > 0
    requires forall j :: 0 <= j < |v| ==> !Overlaps(v[j..], rep)
    requires StartsWith(ReplaceAll(t, pat, rep), v)
    ensures StartsWith(t, v)
    decreases |t|
  {
    if v != [] {
      assert v[0..] == v;
    }
    if v != [] && |t| >= |pat| {
      var rest := ReplaceAll(t[|pat|..], pat, rep);
      if t[..|pat|] == pat {
        PrefixOfConcat(rep, rest, v);
        assert false;
      } else {
        var out := [t[0]] + ReplaceAll(t[1..], pat, rep);
        assert out[1..] == ReplaceAll(t[1..], pat, rep);
        assert v[0] == t[0];
        assert StartsWith(out[1..], v[1..]);
        forall j | 0 <= j < |v[1..]| ensures !Overlaps(v[1..][j..], rep) {
          assert v[1..][j..] == v[j + 1..];
        }
        ReplacedPrefix(t[1..], pat, rep, v[1..]);
      }
    }
  }

  /** Text before which no occurrence can start is copied as it is. */
  lemma {:induction false} ReplacePlainPrefix(x: string, y: string, pat: string, rep: string)
    requires |pat| > 0 && pat[0] !in x
    ensures ReplaceAll(x + y, pat, rep) == x + ReplaceAll(y, pat, rep)
    decreases |x|
  {
    if x != [] {
      var s := x + y;
      assert s[0] == x[0];
      assert s[1..] == x[1..] + y;
      if |s| >= |pat| {
        assert s[..|pat|][0] == x[0];
      }
      ReplacePlainPrefix(x[1..], y, pat, rep);
      assert x == [x[0]] + x[1..];
    } else {
      assert x + y == y;
    }
  }

  /** An occurrence at the front is replaced and the scan resumes after it. */
  lemma ReplaceAtHead(y: string, pat: string, rep: string)
    requires |pat| > 0
    ensures ReplaceAll(pat + y, pat, rep) == rep + ReplaceAll(y, pat, rep)
  {
    assert (pat + y)[..|pat|] == pat;
    assert (pat + y)[|pat|..] == y;
  }

  /** A pattern appended to a text that does not contain it is replaced once,
      at the end, when the pattern's first character does not recur in it (so
      no occurrence can straddle the seam). */
  lemma {:induction false} ReplaceAtEnd(x: string, pat: string, rep: string)
    requires |pat| > 0 && !Contains(x, pat) && pat[0] !in pat[1..]
    ensures ReplaceAll(x + pat, pat, rep) == x + rep
    decreases |x|
  {
    if x == [] {
      assert x + pat == pat + x;
      ReplaceAtHead(x, pat, rep);
    } else {
      var s := x + pat;
      NoSeamMatch(x, pat);
      assert ReplaceAll(s, pat, rep) == [s[0]] + ReplaceAll(s[1..], pat, rep);
      ReplaceAtEnd(x[1..], pat, rep);
      assert s[1..] == x[1..] + pat;
      assert x == [x[0]] + x[1..];
    }
  }

  lemma NoSeamMatch(x: string, pat: string)
    requires |x| > 0 && |pat| > 0 && !StartsWith(x, pat) && pat[0] !in pat[1..]
    ensures (x + pat)[..|pat|] != pat
  {
    var s := x + pat;
    if |x| >= |pat| {
      assert s[..|pat|] == x[..|pat|];
    } else {
      assert s[|x|] == pat[0];
      assert pat[1..][|x| - 1] == pat[|x|];
      assert s[..|pat|][|x|] == s[|x|];
    }
  }

  /** A text shorter than the pattern is left as it is. */
  lemma ReplaceShort(s: string, pat: string, rep: string)
    requires 0 < |pat| && |s| < |pat|
    ensures ReplaceAll(s, pat, rep) == s
  {
  }

  /** A word whose first character does not occur is not contained. */
  lemma {:induction false} NotContainsFirst(s: string, w: string)
    requires |w| > 0 && w[0] !in s
    ensures !Contains(s, w)
    decreases |s|
  {
    if s != [] {
      assert s[0] in s;
      if |w| <= |s| { assert s[..|w|][0] == s[0]; }
      NotContainsFirst(s[1..], w);
    }
  }

  /** `rep` cannot start inside an occurrence of `w`: no character of `rep` is
      `w[0]`, and no proper suffix of `w` overlaps `rep`. */
  predicate CannotForm(w: string, rep: string) {
    |w| > 0 && w[0] !in rep && forall j :: 1 <= j < |w| ==> !Overlaps(w[j..], rep)
  }

  /** Replacement never creates an occurrence of a word it cannot form, and it
      removes every occurrence of the pattern itself when the pattern cannot be
      re-formed from `rep`. */
  lemma {:induction false} ReplaceLeavesNo(s: string, pat: string, rep: string, w: string)
    requires |pat| > 0 && CannotForm(w, rep)
    requires w == pat || !Contains(s, w)
    ensures !Contains(ReplaceAll(s, pat, rep), w)
    decreases |s|
  {
    var out := ReplaceAll(s, pat, rep);
    if |s| < |pat| {
      if Contains(s, w) { ContainsLength(s, w); }
    } else if s[..|pat|] == pat {
      if w != pat && Contains(s[|pat|..], w) { ContainsInSuffix(s, |pat|, w); }
      ReplaceLeavesNo(s[|pat|..], pat, rep, w);
      if Contains(out, w) { ContainsSkipPrefix(rep, ReplaceAll(s[|pat|..], pat, rep), w); }
    } else {
      var rest := ReplaceAll(s[1..], pat, rep);
      ReplaceLeavesNo(s[1..], pat, rep, w);
      assert out == [s[0]] + rest && out[1..] == rest;
      if StartsWith(out, w) {
        assert StartsWith(rest, w[1..]);
        forall j | 0 <= j < |w[1..]| ensures !Overlaps(w[1..][j..], rep) {
          assert w[1..][j..] == w[j + 1..];
        }
        ReplacedPrefix(s[1..], pat, rep, w[1..]);
        assert false;
      }
    }
  }

  /** `w` holds no whitespace character. */
  predicate Solid(w: string) {
    forall i :: 0 <= i < |w| ==> !IsSpace(w[i])
  }

  /** A length-preserving replacement between whitespace-free strings keeps
      every position's whitespace status. */
  lemma {:induction false} ReplaceKeepsSpaces(s: string, pat: string, rep: string)
    requires |pat| > 0 && |pat| == |rep| && Solid(pat) && Solid(rep)
    ensures forall k :: 0 <= k < |s| ==> (IsSpace(ReplaceAll(s, pat, rep)[k]) <==> IsSpace(s[k]))
    decreases |s|
  {
    var out := ReplaceAll(s, pat, rep);
    if |s| >= |pat| {
      if s[..|pat|] == pat {
        ReplaceKeepsSpaces(s[|pat|..], pat, rep);
        forall k | 0 <= k < |s| ensures IsSpace(out[k]) <==> IsSpace(s[k]) {
          if k < |pat| {
            assert out[k] == rep[k] && s[k] == pat[k];
          } else {
            assert out[k] == ReplaceAll(s[|pat|..], pat, rep)[k - |pat|];
          }
        }
      } else {
        ReplaceKeepsSpaces(s[1..], pat, rep);
        forall k | 0 <= k < |s| ensures IsSpace(out[k]) <==> IsSpace(s[k]) {
          if k > 0 { assert out[k] == ReplaceAll(s[1..], pat, rep)[k - 1]; }
        }
      }
    }
  }

  // ---------------------------------------------------------------------------
  // Ordering and sorting, as Python compares and sorts `str` values
  // ---------------------------------------------------------------------------

  /** Python's `a < b` on strings: lexicographic by code point, a proper prefix first. */
  predicate Below(a: string, b: string)
    decreases |a|
  {
    if a == [] then b != []
    else b != [] && (a[0] < b[0] || (a[0] == b[0] && Below(a[1..], b[1..])))
  }

  predicate AtMost(a: string, b: string) {
    a == b || Below(a, b)
  }

  lemma {:induction false} BelowIrreflexive(a: string)
    ensures !Below(a, a)
    decreases |a|
  {
    if a != [] { BelowIrreflexive(a[1..]); }
  }

  lemma {:induction false} BelowAsymmetric(a: string, b: string)
    requires Below(a, b)
    ensures !Below(b, a)
    decreases |a|
  {
    if a != [] && b != [] && a[0] == b[0] { BelowAsymmetric(a[1..], b[1..]); }
  }

  lemma {:induction false} BelowTransitive(a: string, b: string, c: string)
    requires Below(a, b) && Below(b, c)
    ensures Below(a, c)
    decreases |a|
  {
    if a != [] && b != [] && c != [] && a[0] == b[0] && b[0] == c[0] {
      BelowTransitive(a[1..], b[1..], c[1..]);
    }
  }

  lemma {:induction false} BelowTotal(a: string, b: string)
    requires a != b
    ensures Below(a, b) || Below(b, a)
    decreases |a|
  {
    if a != [] && b != [] && a[0] == b[0] {
      assert a == [a[0]] + a[1..] && b == [b[0]] + b[1..];
      BelowTotal(a[1..], b[1..]);
    }
  }

  lemma AtMostTransitive(a: string, b: string, c: string)
    requires AtMost(a, b) && AtMost(b, c)
    ensures AtMost(a, c)
  {
    if a != b && b != c { BelowTransitive(a, b, c); }
  }

  /** Sorted in Python's order (duplicates allowed). */
  predicate Sorted(s: seq<string>) {
    forall i, j :: 0 <= i < j < |s| ==> AtMost(s[i], s[j])
  }

  /** Sorted with no duplicates. */
  predicate StrictlySorted(s: seq<string>) {
    forall i, j :: 0 <= i < j < |s| ==> Below(s[i], s[j])
  }

  function Insert(x: string, s: seq<string>): (r: seq<string>)
    requires Sorted(s)
    ensures Sorted(r) && multiset(r) == multiset(s) + multiset{x}
  {
    if s == [] then [x]
    else if AtMost(x, s[0]) then
      assert forall j :: 0 <= j < |s| ==> AtMost(x, s[j]) by {
        forall j | 0 <= j < |s| ensures AtMost(x, s[j]) { AtMostTransitive(x, s[0], s[j]); }
      }
      [x] + s
    else
      var tail := Insert(x, s[1..]);
      assert s == [s[0]] + s[1..];
      InsertBound(x, s, tail);
      [s[0]] + tail
  }

  /** Every element of a reordering of `s[1..] + [x]` is at least `s[0]` when
      `x` is. */
  lemma InsertBound(x: string, s: seq<string>, tail: seq<string>)
    requires Sorted(s) && s != [] && !AtMost(x, s[0])
    requires multiset(tail) == multiset(s[1..]) + multiset{x}
    ensures forall j :: 0 <= j < |tail| ==> AtMost(s[0], tail[j])
  {
    assert AtMost(s[0], x) by { BelowTotal(x, s[0]); }
    forall j | 0 <= j < |tail| ensures AtMost(s[0], tail[j]) {
      var y := tail[j];
      assert y in multiset(tail);
      if y != x {
        assert y in multiset(s[1..]);
        var i :| 0 <= i < |s[1..]| && s[1..][i] == y;
        assert s[i + 1] == y;
      }
    }
  }

  /** Python's `sorted(xs)` / `xs.sort()` for strings. */
  function Sort(s: seq<string>): (r: seq<string>)
    ensures Sorted(r) && multiset(r) == multiset(s)
  {
    if s == [] then []
    else
      assert s == [s[0]] + s[1..];
      Insert(s[0], Sort(s[1..]))
  }

  /** A sorted sequence without duplicates is strictly sorted. */
  lemma SortedDistinct(s: seq<string>)
    requires Sorted(s)
    requires forall i, j :: 0 <= i < j < |s| ==> s[i] != s[j]
    ensures StrictlySorted(s)
  {
  }

  /** The strictly sorted sequence of a set of strings is unique: `sorted(keys)`
      does not depend on the order in which the keys were enumerated. */
  lemma {:induction false} StrictlySortedUnique(a: seq<string>, b: seq<string>)
    requires StrictlySorted(a) && StrictlySorted(b)
    requires forall x :: x in a <==> x in b
    ensures a == b
    decreases |a|
  {
    if a != [] { assert a[0] in b; }
    if b != [] { assert b[0] in a; }
    if a != [] && b != [] {
      if a[0] != b[0] {
        var j :| 0 <= j < |b| && b[j] == a[0];
        var i :| 0 <= i < |a| && a[i] == b[0];
        assert j > 0 && i > 0;
        assert Below(b[0], a[0]) && Below(a[0], b[0]);
        BelowAsymmetric(a[0], b[0]);
      }
      forall x ensures x in a[1..] <==> x in b[1..] {
        if x in a[1..] {
          var i :| 0 <= i < |a[1..]| && a[1..][i] == x;
          assert Below(a[0], x);
          BelowIrreflexive(x);
          assert x in b;
        }
        if x in b[1..] {
          var i :| 0 <= i < |b[1..]| && b[1..][i] == x;
          assert Below(b[0], x);
          BelowIrreflexive(x);
          assert x in a;
        }
      }
      StrictlySortedUnique(a[1..], b[1..]);
      assert a == [a[0]] + a[1..] && b == [b[0]] + b[1..];
    }
  }
}
