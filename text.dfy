/** Character classes and tokenisers used by the speech metrics:
    lower-casing, the regular-expression word class `\w`, the whitespace
    class of `str.split()`, and maximal runs of a character class, which
    give both the `\b\w+\b` tokens and the whitespace-separated words. */
module Text {

  // ---------------------------------------------------------------------
  // Character classes
  // ---------------------------------------------------------------------

  predicate IsUpper(c: char) {
    'A' <= c <= 'Z'
  }

  /** Lower-casing of one character (ASCII letters only). */
  function LowerChar(c: char): (d: char)
    ensures !IsUpper(d)
    ensures !IsUpper(c) ==> d == c
    ensures IsUpper(c) ==> d as int == c as int + 32
  {
    if IsUpper(c) then (c as int + 32) as char else c
  }

  /** The lower-cased text: same length, each upper-case letter replaced
      by its lower-case form, every other character kept where it was. */
  function Lower(s: string): (r: string)
    ensures |r| == |s|
    ensures forall i :: 0 <= i < |r| ==> !IsUpper(r[i])
    ensures forall i :: 0 <= i < |s| && IsUpper(s[i]) ==> r[i] as int == s[i] as int + 32
    ensures forall i :: 0 <= i < |s| && !IsUpper(s[i]) ==> r[i] == s[i]
  {
    seq(|s|, i requires 0 <= i < |s| => LowerChar(s[i]))
  }

  /** Lower-casing twice is lower-casing once. */
  lemma LowerIdempotent(s: string)
    ensures Lower(Lower(s)) == Lower(s)
  {
    assert forall i :: 0 <= i < |s| ==> Lower(Lower(s))[i] == Lower(s)[i];
  }

  /** The word class `\w`: letters, digits and the underscore (ASCII). */
  predicate IsWordChar(c: char) {
    ('a' <= c <= 'z') || ('A' <= c <= 'Z') || ('0' <= c <= '9') || c == '_'
  }

  /** The characters for which Python's `str.isspace()` holds. */
  predicate IsSpace(c: char) {
    || c == ' '
    || ('\t' <= c <= '\r')             // tab, line feed, vertical tab, form feed, carriage return
    || ('\U{1C}' <= c <= '\U{1F}')     // file, group, record and unit separators
    || c == '\U{85}' || c == '\U{A0}' || c == '\U{1680}'
    || ('\U{2000}' <= c <= '\U{200A}')
    || c == '\U{2028}' || c == '\U{2029}' || c == '\U{202F}' || c == '\U{205F}' || c == '\U{3000}'
  }

  predicate IsNonSpace(c: char) {
    !IsSpace(c)
  }

  // ---------------------------------------------------------------------
  // Maximal runs of a character class
  // ---------------------------------------------------------------------

  /** Length of the longest prefix of `s` whose characters all satisfy `p`. */
  function LeadingRun(s: string, p: char -> bool): (n: nat)
    ensures n <= |s|
    ensures forall k :: 0 <= k < n ==> p(s[k])
    ensures n < |s| ==> !p(s[n])
  {
    if s == [] || !p(s[0]) then 0 else 1 + LeadingRun(s[1..], p)
  }

  /** The maximal runs of characters satisfying `p`, left to right. Every
      run is non-empty and made only of `p` characters. */
  function Runs(s: string, p: char -> bool): (r: seq<string>)
    ensures forall w :: w in r ==> |w| > 0 && forall c :: c in w ==> p(c)
    decreases |s|
  {
    if s == [] then []
    else if !p(s[0]) then Runs(s[1..], p)
    else
      var n := LeadingRun(s, p);
      [s[..n]] + Runs(s[n..], p)
  }

  /** `s[i..j]` is a maximal run of `p`: non-empty, all `p`, and not
      extendable on either side. */
  ghost predicate IsMaximalRun(s: string, p: char -> bool, i: int, j: int) {
    && 0 <= i < j <= |s|
    && (forall k :: i <= k < j ==> p(s[k]))
    && (i == 0 || !p(s[i - 1]))
    && (j == |s| || !p(s[j]))
  }

  /** A maximal run of a suffix `s[d..]` that does not start right at the
      cut (or whose cut follows a non-`p` character) is a maximal run of `s`. */
  lemma ShiftRunOut(s: string, p: char -> bool, d: nat, i: int, j: int)
    requires d <= |s|
    requires IsMaximalRun(s[d..], p, i, j)
    requires i > 0 || d == 0 || !p(s[d - 1])
    ensures IsMaximalRun(s, p, i + d, j + d)
    ensures s[i + d..j + d] == s[d..][i..j]
  {
    var t := s[d..];
    forall k | i + d <= k < j + d ensures p(s[k]) {
      assert s[k] == t[k - d];
    }
    if i > 0 {
      assert s[i + d - 1] == t[i - 1];
    }
    if j + d < |s| {
      assert s[j + d] == t[j];
    }
  }

  /** A maximal run of `s` that starts at or after position `d` is a maximal
      run of the suffix `s[d..]`. */
  lemma ShiftRunIn(s: string, p: char -> bool, d: nat, i: int, j: int)
    requires IsMaximalRun(s, p, i, j)
    requires d <= i
    ensures IsMaximalRun(s[d..], p, i - d, j - d)
    ensures s[d..][i - d..j - d] == s[i..j]
  {
    var t := s[d..];
    forall k | i - d <= k < j - d ensures p(t[k]) {
      assert t[k] == s[k + d];
    }
    if i > d {
      assert t[i - d - 1] == s[i - 1];
    }
    if j - d < |t| {
      assert t[j - d] == s[j];
    }
  }

  /** Every run `Runs` reports is a maximal run of `s`. */
  lemma {:induction false} RunsSound(s: string, p: char -> bool, w: string)
    requires w in Runs(s, p)
    ensures exists i, j :: IsMaximalRun(s, p, i, j) && s[i..j] == w
    decreases |s|
  {
    if !p(s[0]) {
      RunsSound(s[1..], p, w);
      var i, j :| IsMaximalRun(s[1..], p, i, j) && s[1..][i..j] == w;
      ShiftRunOut(s, p, 1, i, j);
    } else {
      var n := LeadingRun(s, p);
      if w == s[..n] {
        assert s[0..n] == w;
        assert IsMaximalRun(s, p, 0, n);
      } else {
        assert w in Runs(s[n..], p);
        RunsSound(s[n..], p, w);
        var i, j :| IsMaximalRun(s[n..], p, i, j) && s[n..][i..j] == w;
        assert n < |s| && !p(s[n..][0]);
        ShiftRunOut(s, p, n, i, j);
      }
    }
  }

  /** Every maximal run of `s` is reported by `Runs`. */
  lemma {:induction false} RunsComplete(s: string, p: char -> bool, i: int, j: int)
    requires IsMaximalRun(s, p, i, j)
    ensures s[i..j] in Runs(s, p)
    decreases |s|
  {
    if !p(s[0]) {
      assert i != 0;
      ShiftRunIn(s, p, 1, i, j);
      RunsComplete(s[1..], p, i - 1, j - 1);
    } else {
      var n := LeadingRun(s, p);
      if i == 0 {
        assert j == n;
        assert s[i..j] == s[..n];
      } else {
        assert i > n;
        ShiftRunIn(s, p, n, i, j);
        RunsComplete(s[n..], p, i - n, j - n);
      }
    }
  }

  /** A string is in `Runs(s, p)` exactly when it is a maximal run of `s`. */
  lemma RunsMembership(s: string, p: char -> bool, w: string)
    ensures w in Runs(s, p) <==> exists i, j :: IsMaximalRun(s, p, i, j) && s[i..j] == w
  {
    if w in Runs(s, p) {
      RunsSound(s, p, w);
    }
    if exists i, j :: IsMaximalRun(s, p, i, j) && s[i..j] == w {
      var i, j :| IsMaximalRun(s, p, i, j) && s[i..j] == w;
      RunsComplete(s, p, i, j);
    }
  }

  /** A string made only of `p` characters is one run. */
  lemma RunsWhole(s: string, p: char -> bool)
    requires s != []
    requires forall k :: 0 <= k < |s| ==> p(s[k])
    ensures Runs(s, p) == [s]
  {
    assert LeadingRun(s, p) == |s|;
    assert s[..|s|] == s && s[|s|..] == [];
  }

  /** A non-`p` character separates: the runs of `a + [c] + b` are those of
      `a` followed by those of `b`. */
  lemma {:induction false} RunsSeparated(a: string, c: char, b: string, p: char -> bool)
    requires !p(c)
    ensures Runs(a + [c] + b, p) == Runs(a, p) + Runs(b, p)
    decreases |a|
  {
    var x := a + [c] + b;
    if a == [] {
      assert x[1..] == b;
    } else if !p(a[0]) {
      assert x[1..] == a[1..] + [c] + b;
      RunsSeparated(a[1..], c, b, p);
    } else {
      var n, m := LeadingRun(x, p), LeadingRun(a, p);
      assert m < |a| ==> x[m] == a[m];
      assert m == |a| ==> x[m] == c;
      assert n == m;
      assert x[..n] == a[..m];
      assert x[n..] == a[m..] + [c] + b;
      RunsSeparated(a[m..], c, b, p);
    }
  }

  /** The entries of `xs` separated by one `sep` character (Python's
      `sep.join(xs)` for a one-character separator). */
  function Join(xs: seq<string>, sep: char): string {
    if xs == [] then ""
    else if |xs| == 1 then xs[0]
    else xs[0] + [sep] + Join(xs[1..], sep)
  }

  /** Words made of `p` characters and joined by a non-`p` separator are
      found again, in order, as the runs of the joined text. */
  lemma {:induction false} RunsOfJoined(ws: seq<string>, sep: char, p: char -> bool)
    requires !p(sep)
    requires forall w :: w in ws ==> w != [] && forall c :: c in w ==> p(c)
    ensures Runs(Join(ws, sep), p) == ws
    decreases |ws|
  {
    if |ws| == 1 {
      assert ws[0] in ws;
      RunsWhole(ws[0], p);
    } else if |ws| > 1 {
      assert ws[0] in ws;
      RunsWhole(ws[0], p);
      assert forall w :: w in ws[1..] ==> w in ws;
      RunsOfJoined(ws[1..], sep, p);
      RunsSeparated(ws[0], sep, Join(ws[1..], sep), p);
      assert ws == [ws[0]] + ws[1..];
    }
  }

  /** Number of positions where a run of `p` starts, scanning left to right
      and remembering whether the previous character was inside a run. */
  function CountRunStarts(s: string, p: char -> bool, inRun: bool): nat
  {
    if s == [] then 0
    else (if p(s[0]) && !inRun then 1 else 0) + CountRunStarts(s[1..], p, p(s[0]))
  }

  lemma {:induction false} CountInsideRun(s: string, p: char -> bool, m: nat)
    requires m <= |s|
    requires forall k :: 0 <= k < m ==> p(s[k])
    ensures CountRunStarts(s, p, true) == CountRunStarts(s[m..], p, true)
    decreases m
  {
    if m > 0 {
      CountInsideRun(s[1..], p, m - 1);
      assert s[1..][m - 1..] == s[m..];
    }
  }

  /** `Runs` reports one run per run start: its length is the number of
      positions where a `p` character follows a non-`p` one or the start. */
  lemma {:induction false} RunsCount(s: string, p: char -> bool)
    ensures |Runs(s, p)| == CountRunStarts(s, p, false)
    decreases |s|
  {
    if s == [] {
    } else if !p(s[0]) {
      RunsCount(s[1..], p);
    } else {
      var n := LeadingRun(s, p);
      CountInsideRun(s[1..], p, n - 1);
      assert s[1..][n - 1..] == s[n..];
      assert CountRunStarts(s[n..], p, true) == CountRunStarts(s[n..], p, false);
      RunsCount(s[n..], p);
    }
  }

  /** There are no runs exactly when no character satisfies `p`. */
  lemma {:induction false} RunsEmptyIff(s: string, p: char -> bool)
    ensures Runs(s, p) == [] <==> forall k :: 0 <= k < |s| ==> !p(s[k])
    decreases |s|
  {
    if s != [] && !p(s[0]) {
      RunsEmptyIff(s[1..], p);
      assert forall k :: 1 <= k < |s| ==> s[k] == s[1..][k - 1];
    }
  }

  // ---------------------------------------------------------------------
  // The two tokenisers
  // ---------------------------------------------------------------------

  /** The matches of `\b\w+\b`, in order: the maximal runs of word
      characters. */
  function WordTokens(s: string): seq<string> {
    Runs(s, IsWordChar)
  }

  /** `str.split()` with no argument: the maximal runs of non-whitespace
      characters, with no empty strings. */
  function SplitWhitespace(s: string): seq<string> {
    Runs(s, IsNonSpace)
  }
}
