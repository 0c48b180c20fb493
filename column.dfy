/** The `fillers` column of a stored analysis: the detected fillers joined
    with ",", and what splitting that text on "," gives back. */
module FillersColumn {
  import opened Text
  import opened Fillers

  const Comma: char := ','

  /** Python's `s.split(sep)` for a one-character separator: the pieces
      between separators, empty pieces included. There is always at least
      one piece, and no piece contains the separator. */
  function SplitOn(s: string, sep: char): (r: seq<string>)
    ensures |r| >= 1
    ensures forall piece :: piece in r ==> sep !in piece
  {
    if s == [] then [""]
    else
      var rest := SplitOn(s[1..], sep);
      if s[0] == sep then [""] + rest
      else
        assert rest[0] in rest;
        [[s[0]] + rest[0]] + rest[1..]
  }

  /** Text without the separator is a single piece. */
  lemma {:induction false} SplitOnWithoutSeparator(a: string, sep: char)
    requires sep !in a
    ensures SplitOn(a, sep) == [a]
    decreases |a|
  {
    if a != [] {
      assert sep !in a[1..];
      SplitOnWithoutSeparator(a[1..], sep);
      assert [a[0]] + a[1..] == a;
    }
  }

  /** Splitting `a + [sep] + b`, where `a` has no separator, gives `a` and
      then the pieces of `b`. */
  lemma {:induction false} SplitOnFirstPiece(a: string, b: string, sep: char)
    requires sep !in a
    ensures SplitOn(a + [sep] + b, sep) == [a] + SplitOn(b, sep)
    decreases |a|
  {
    var s := a + [sep] + b;
    if a == [] {
      assert s[1..] == b;
    } else {
      assert s[1..] == a[1..] + [sep] + b;
      assert sep !in a[1..];
      SplitOnFirstPiece(a[1..], b, sep);
      assert [a[0]] + a[1..] == a;
    }
  }

  /** Joining a non-empty list whose entries contain no separator, then
      splitting, gives the list back. */
  lemma {:induction false} SplitOnJoin(xs: seq<string>, sep: char)
    requires xs != []
    requires forall x :: x in xs ==> sep !in x
    ensures SplitOn(Join(xs, sep), sep) == xs
    decreases |xs|
  {
    assert xs[0] in xs;
    if |xs| == 1 {
      SplitOnWithoutSeparator(xs[0], sep);
    } else {
      assert forall x :: x in xs[1..] ==> x in xs;
      SplitOnJoin(xs[1..], sep);
      SplitOnFirstPiece(xs[0], Join(xs[1..], sep), sep);
      assert xs == [xs[0]] + xs[1..];
    }
  }

  /** Splitting, then joining, gives the text back, whatever it holds. */
  lemma {:induction false} JoinSplitOn(s: string, sep: char)
    ensures Join(SplitOn(s, sep), sep) == s
    decreases |s|
  {
    if s != [] {
      JoinSplitOn(s[1..], sep);
      var rest := SplitOn(s[1..], sep);
      if s[0] == sep {
        assert ([""] + rest)[1..] == rest;
        assert s == [sep] + s[1..];
      } else {
        var r := [[s[0]] + rest[0]] + rest[1..];
        assert r[1..] == rest[1..];
        if |rest| > 1 {
          assert rest == [rest[0]] + rest[1..];
        }
        assert s == [s[0]] + s[1..];
      }
    }
  }

  /** No filler contains a comma. */
  lemma FillerWordsHaveNoComma()
    ensures forall w :: w in FillerWords ==> Comma !in w
  {
  }

  /** The stored column splits back into the reported fillers whenever some
      filler was found; when none was, the column is "" and splits into
      `[""]`, not into the empty list. */
  lemma FillersColumnRoundTrip(text: string)
    ensures DetectFillers(text) != [] ==>
      SplitOn(Join(DetectFillers(text), Comma), Comma) == DetectFillers(text)
    ensures DetectFillers(text) == [] ==>
      Join(DetectFillers(text), Comma) == "" && SplitOn(Join(DetectFillers(text), Comma), Comma) == [""]
  {
    var found := DetectFillers(text);
    KeepPresentMembership(FillerWords, WordTokens(Lower(text)));
    FillerWordsHaveNoComma();
    if found != [] {
      SplitOnJoin(found, Comma);
    }
  }
}
