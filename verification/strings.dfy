/** The three `str` operations the program relies on: `trim`, `split` on a
    character, and `trim_end_matches` with a string pattern. */
module Strings {

  /* ---------------------------------------------------------------------- */
  /* Whitespace and trim                                                     */
  /* ---------------------------------------------------------------------- */

  /** Rust's `char::is_whitespace`: the Unicode White_Space property. */
  predicate IsWhitespace(c: char) {
    var n := c as int;
    || 0x09 <= n <= 0x0D
    || n == 0x20
    || n == 0x85
    || n == 0xA0
    || n == 0x1680
    || 0x2000 <= n <= 0x200A
    || n == 0x2028
    || n == 0x2029
    || n == 0x202F
    || n == 0x205F
    || n == 0x3000
  }

  predicate AllWhitespace(s: string) {
    forall i :: 0 <= i < |s| ==> IsWhitespace(s[i])
  }

  /** Neither end of `s` is whitespace. */
  predicate Trimmed(s: string) {
    s == [] || (!IsWhitespace(s[0]) && !IsWhitespace(s[|s| - 1]))
  }

  /** The first index at or after `k` that does not hold whitespace. */
  function SkipForward(s: string, k: nat): (n: nat)
    requires k <= |s|
    ensures k <= n <= |s|
    ensures forall i :: k <= i < n ==> IsWhitespace(s[i])
    ensures n == |s| || !IsWhitespace(s[n])
    decreases |s| - k
  {
    if k < |s| && IsWhitespace(s[k]) then SkipForward(s, k + 1) else k
  }

  /** Moving down from `k`, the first end index above `lo` whose preceding
      character is not whitespace, or `lo` itself. */
  function SkipBackward(s: string, lo: nat, k: nat): (n: nat)
    requires lo <= k <= |s|
    ensures lo <= n <= k
    ensures forall i :: n <= i < k ==> IsWhitespace(s[i])
    ensures n == lo || !IsWhitespace(s[n - 1])
    decreases k
  {
    if k > lo && IsWhitespace(s[k - 1]) then SkipBackward(s, lo, k - 1) else k
  }

  /** `str::trim`: the part of `s` between its leading and its trailing
      whitespace. It starts and ends with a non-whitespace character. */
  function Trim(s: string): (r: string)
    ensures |r| <= |s|
    ensures Trimmed(r)
  {
    var i := SkipForward(s, 0);
    var j := SkipBackward(s, i, |s|);
    assert j == i || (!IsWhitespace(s[i]) && !IsWhitespace(s[j - 1]));
    s[i..j]
  }

  /** `s` is some whitespace, then `Trim(s)`, then some whitespace. */
  lemma TrimDecomposes(s: string) returns (lead: string, trail: string)
    ensures s == lead + Trim(s) + trail
    ensures AllWhitespace(lead) && AllWhitespace(trail)
  {
    var i := SkipForward(s, 0);
    var j := SkipBackward(s, i, |s|);
    lead, trail := s[..i], s[j..];
    SliceInThree(s, i, j);
    assert forall k :: 0 <= k < |lead| ==> lead[k] == s[k];
    assert forall k :: 0 <= k < |trail| ==> trail[k] == s[j + k];
  }

  lemma SliceInThree(s: string, i: nat, j: nat)
    requires i <= j <= |s|
    ensures s == s[..i] + s[i..j] + s[j..]
  {
  }

  /** `SkipForward` stops at the first non-whitespace index and nowhere else. */
  lemma {:induction false} SkipForwardStopsAt(s: string, k: nat, m: nat)
    requires k <= m <= |s|
    requires forall i :: k <= i < m ==> IsWhitespace(s[i])
    requires m == |s| || !IsWhitespace(s[m])
    ensures SkipForward(s, k) == m
    decreases m - k
  {
    if k < m {
      SkipForwardStopsAt(s, k + 1, m);
    }
  }

  lemma {:induction false} SkipBackwardStopsAt(s: string, lo: nat, k: nat, m: nat)
    requires lo <= m <= k <= |s|
    requires forall i :: m <= i < k ==> IsWhitespace(s[i])
    requires m == lo || !IsWhitespace(s[m - 1])
    ensures SkipBackward(s, lo, k) == m
    decreases k - m
  {
    if m < k {
      SkipBackwardStopsAt(s, lo, k - 1, m);
    }
  }

  /** The decomposition of `TrimDecomposes` is unique: whatever whitespace
      surrounds a trimmed string, trimming gives that string back. */
  lemma TrimUnique(w1: string, t: string, w2: string)
    requires AllWhitespace(w1) && AllWhitespace(w2) && Trimmed(t)
    ensures Trim(w1 + t + w2) == t
  {
    var s := w1 + t + w2;
    var a, b := |w1|, |w1| + |t|;
    assert forall i :: 0 <= i < a ==> s[i] == w1[i];
    assert forall i :: b <= i < |s| ==> s[i] == w2[i - b];
    if t == [] {
      SkipForwardStopsAt(s, 0, |s|);
      SkipBackwardStopsAt(s, |s|, |s|, |s|);
    } else {
      assert s[a] == t[0] && s[b - 1] == t[|t| - 1];
      SkipForwardStopsAt(s, 0, a);
      SkipBackwardStopsAt(s, a, |s|, b);
      assert s[a..b] == t;
    }
  }

  /** Whitespace around a string never changes what `trim` yields. */
  lemma TrimIgnoresSurroundingWhitespace(w1: string, s: string, w2: string)
    requires AllWhitespace(w1) && AllWhitespace(w2)
    ensures Trim(w1 + s + w2) == Trim(s)
  {
    var r := Trim(s);
    var a, b := TrimDecomposes(s);
    Regroup(w1, a, r, b, w2);
    AllWhitespaceAppend(w1, a);
    AllWhitespaceAppend(b, w2);
    TrimUnique(w1 + a, r, b + w2);
  }

  lemma Regroup(w1: string, a: string, r: string, b: string, w2: string)
    ensures w1 + (a + r + b) + w2 == (w1 + a) + r + (b + w2)
  {
  }

  lemma AllWhitespaceAppend(a: string, b: string)
    requires AllWhitespace(a) && AllWhitespace(b)
    ensures AllWhitespace(a + b)
  {
  }

  /** A string without whitespace at either end is left as it is. */
  lemma TrimFixesTrimmed(s: string)
    requires Trimmed(s)
    ensures Trim(s) == s
  {
    TrimUnique([], s, []);
    assert [] + s + [] == s;
  }

  lemma TrimIdempotent(s: string)
    ensures Trim(Trim(s)) == Trim(s)
  {
    TrimFixesTrimmed(Trim(s));
  }

  /* ---------------------------------------------------------------------- */
  /* split on a character                                                    */
  /* ---------------------------------------------------------------------- */

  /** Number of occurrences of `c` in `s`. */
  function Count(s: string, c: char): nat {
    if s == [] then 0 else (if s[0] == c then 1 else 0) + Count(s[1..], c)
  }

  /** The segments glued back together with `sep` between neighbours. */
  function Join(parts: seq<string>, sep: char): string {
    if |parts| == 0 then []
    else if |parts| == 1 then parts[0]
    else parts[0] + [sep] + Join(parts[1..], sep)
  }

  /** `str::split(sep)`: the maximal `sep`-free pieces between separators.
      There is always one more piece than there are separators, so the empty
      string splits into one empty piece and a trailing separator yields a
      trailing empty piece; joining the pieces gives `s` back. */
  function Split(s: string, sep: char): (parts: seq<string>)
    ensures |parts| == Count(s, sep) + 1
    ensures forall i :: 0 <= i < |parts| ==> sep !in parts[i]
    ensures Join(parts, sep) == s
    decreases |s|
  {
    if s == [] then [[]]
    else
      var rest := Split(s[1..], sep);
      if s[0] == sep then
        assert ([[]] + rest)[1..] == rest;
        [[]] + rest
      else
        var first := [s[0]] + rest[0];
        assert |rest| > 1 ==> Join(rest, sep) == rest[0] + [sep] + Join(rest[1..], sep);
        assert ([first] + rest[1..])[1..] == rest[1..];
        [first] + rest[1..]
  }

  lemma {:induction false} SplitSepFreePrefix(a: string, t: string, sep: char)
    requires sep !in a
    ensures Split(a + t, sep) == [a + Split(t, sep)[0]] + Split(t, sep)[1..]
    decreases |a|
  {
    if a != [] {
      assert (a + t)[1..] == a[1..] + t;
      assert (a + t)[0] == a[0];
      SplitSepFreePrefix(a[1..], t, sep);
      assert [a[0]] + (a[1..] + Split(t, sep)[0]) == a + Split(t, sep)[0];
    } else {
      var p := Split(t, sep);
      assert a + t == t;
      assert a + p[0] == p[0];
      assert p == [p[0]] + p[1..];
    }
  }

  lemma JoinStep(p: seq<string>, sep: char)
    requires |p| >= 2
    ensures Join(p, sep) == p[0] + [sep] + Join(p[1..], sep)
  {
  }

  /** Joining two non-empty lists of pieces is joining each and putting one
      separator between them. */
  lemma {:induction false} JoinAppend(a: seq<string>, b: seq<string>, sep: char)
    requires |a| >= 1 && |b| >= 1
    ensures Join(a + b, sep) == Join(a, sep) + [sep] + Join(b, sep)
    decreases |a|
  {
    if |a| == 1 {
      assert (a + b)[0] == a[0] && (a + b)[1..] == b;
    } else {
      JoinAppend(a[1..], b, sep);
      assert (a + b)[0] == a[0] && (a + b)[1..] == a[1..] + b;
    }
  }

  lemma NotInAppend(c: char, a: string, b: string)
    requires c !in a && c !in b
    ensures c !in a + b
  {
  }

  /** `Split` inverts `Join` on separator-free pieces, so a string has exactly
      one decomposition into `sep`-free pieces. */
  lemma {:induction false} SplitJoin(parts: seq<string>, sep: char)
    requires |parts| >= 1
    requires forall i :: 0 <= i < |parts| ==> sep !in parts[i]
    ensures Split(Join(parts, sep), sep) == parts
    decreases |parts|
  {
    if |parts| == 1 {
      SplitSepFreePrefix(parts[0], [], sep);
      assert parts[0] + [] == parts[0];
    } else {
      var u := Join(parts[1..], sep);
      SplitJoin(parts[1..], sep);
      assert ([sep] + u)[1..] == u;
      assert Split([sep] + u, sep) == [[]] + parts[1..];
      assert parts[0] + [sep] + u == parts[0] + ([sep] + u);
      SplitSepFreePrefix(parts[0], [sep] + u, sep);
      assert parts[0] + [] == parts[0];
      assert parts == [parts[0]] + parts[1..];
    }
  }

  /* ---------------------------------------------------------------------- */
  /* trim_end_matches with a string pattern                                  */
  /* ---------------------------------------------------------------------- */

  predicate EndsWith(s: string, suffix: string) {
    |suffix| <= |s| && s[|s| - |suffix|..] == suffix
  }

  /** The first `k` characters of `s` end with `pat`. */
  predicate EndsWithAt(s: string, pat: string, k: nat)
    requires k <= |s|
  {
    |pat| <= k && s[k - |pat|..k] == pat
  }

  /** `s[a..b]` is zero or more copies of `pat` back to back. */
  predicate CopiesIn(s: string, pat: string, a: nat, b: nat)
    requires pat != [] && a <= b <= |s|
    decreases b - a
  {
    a == b || (a + |pat| <= b && EndsWithAt(s, pat, b) && CopiesIn(s, pat, a, b - |pat|))
  }

  /** Where stripping copies of `pat` off the end of `s[..k]` stops. */
  function CutPoint(s: string, pat: string, k: nat): (n: nat)
    requires pat != [] && k <= |s|
    ensures n <= k
    ensures !EndsWithAt(s, pat, n)
    ensures CopiesIn(s, pat, n, k)
    decreases k
  {
    if EndsWithAt(s, pat, k) then CutPoint(s, pat, k - |pat|) else k
  }

  /** `str::trim_end_matches(pat)` for a non-empty pattern: strips the suffix
      `pat` as often as it occurs. The result is a prefix of `s` that no
      longer ends with `pat`, and what was cut off is copies of `pat`. */
  function TrimEndMatches(s: string, pat: string): (r: string)
    requires pat != []
    ensures |r| <= |s| && r == s[..|r|]
    ensures !EndsWith(r, pat)
    ensures CopiesIn(s, pat, |r|, |s|)
  {
    var n := CutPoint(s, pat, |s|);
    assert |pat| <= n ==> s[..n][n - |pat|..] == s[n - |pat|..n];
    s[..n]
  }

  /** `CutPoint` stops at the only place it can: the end of a prefix that does
      not end with `pat` and is followed by copies of `pat` up to `k`. */
  lemma {:induction false} CutPointStopsAt(s: string, pat: string, k: nat, m: nat)
    requires pat != [] && m <= k <= |s|
    requires !EndsWithAt(s, pat, m) && CopiesIn(s, pat, m, k)
    ensures CutPoint(s, pat, k) == m
    decreases k - m
  {
    if m < k {
      CutPointStopsAt(s, pat, k - |pat|, m);
    }
  }

  /** The decomposition `TrimEndMatches` promises is unique: a string that
      does not end with `pat`, followed by any number of copies of `pat`,
      strips back to exactly that string. */
  lemma TrimEndMatchesUnique(s: string, pat: string, m: nat)
    requires pat != [] && m <= |s|
    requires !EndsWith(s[..m], pat) && CopiesIn(s, pat, m, |s|)
    ensures TrimEndMatches(s, pat) == s[..m]
  {
    assert |pat| <= m ==> s[..m][m - |pat|..] == s[m - |pat|..m];
    CutPointStopsAt(s, pat, |s|, m);
  }

  /** Removing one copy of `pat` from the end does not change the outcome. */
  lemma TrimEndMatchesStripsOnce(shorter: string, pat: string)
    requires pat != []
    ensures TrimEndMatches(shorter + pat, pat) == TrimEndMatches(shorter, pat)
  {
    var s := shorter + pat;
    var n := |shorter|;
    assert s[..n] == shorter == shorter[..n];
    assert EndsWithAt(s, pat, |s|);
    CutPointAgrees(s, shorter, pat, n);
  }

  /** Cutting from `k` only looks at the first `k` characters. */
  lemma {:induction false} CutPointAgrees(s: string, t: string, pat: string, k: nat)
    requires pat != [] && k <= |s| && k <= |t| && s[..k] == t[..k]
    ensures CutPoint(s, pat, k) == CutPoint(t, pat, k)
    decreases k
  {
    if |pat| <= k {
      var j := k - |pat|;
      assert s[j..k] == s[..k][j..];
      assert t[j..k] == t[..k][j..];
      if EndsWithAt(s, pat, k) {
        assert s[..j] == s[..k][..j];
        assert t[..j] == t[..k][..j];
        CutPointAgrees(s, t, pat, j);
      }
    }
  }

  lemma TrimEndMatchesIdempotent(s: string, pat: string)
    requires pat != []
    ensures TrimEndMatches(TrimEndMatches(s, pat), pat) == TrimEndMatches(s, pat)
  {
    var r := TrimEndMatches(s, pat);
    assert r[..|r|] == r;
    TrimEndMatchesUnique(r, pat, |r|);
  }
}
