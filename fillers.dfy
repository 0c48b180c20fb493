/** Filler-word detection: which entries of the fixed filler vocabulary
    occur as whole tokens of the lower-cased transcript. */
module Fillers {
  import opened Text

  /** The filler vocabulary, in the order results are reported. */
  const FillerWords: seq<string> := ["um", "uh", "like", "you know", "so", "actually", "basically"]

  /** `a` is `b` with some entries dropped, order kept. */
  predicate IsSubsequence<T(==)>(a: seq<T>, b: seq<T>)
    decreases |b|
  {
    if a == [] then true
    else if b == [] then false
    else if a[0] == b[0] then IsSubsequence(a[1..], b[1..])
    else IsSubsequence(a, b[1..])
  }

  predicate NoDuplicates<T(==)>(s: seq<T>) {
    forall i, j :: 0 <= i < j < |s| ==> s[i] != s[j]
  }

  /** `[x]` when `x` occurs in `words`, otherwise nothing. */
  function KeepIfPresent(x: string, words: seq<string>): seq<string> {
    if x in words then [x] else []
  }

  /** The entries of `xs` that occur in `words`, in `xs` order (the list
      comprehension `[w for w in xs if w in words]`). */
  function KeepPresent(xs: seq<string>, words: seq<string>): seq<string> {
    if xs == [] then [] else KeepIfPresent(xs[0], words) + KeepPresent(xs[1..], words)
  }

  /** An entry is kept exactly when it is in `xs` and in `words`. */
  lemma {:induction false} KeepPresentMembership(xs: seq<string>, words: seq<string>)
    ensures forall w :: w in KeepPresent(xs, words) <==> w in xs && w in words
    ensures |KeepPresent(xs, words)| <= |xs|
    decreases |xs|
  {
    if xs != [] {
      KeepPresentMembership(xs[1..], words);
      assert xs == [xs[0]] + xs[1..];
    }
  }

  /** Filtering keeps the order of `xs`. */
  lemma {:induction false} KeepPresentOrdered(xs: seq<string>, words: seq<string>)
    ensures IsSubsequence(KeepPresent(xs, words), xs)
    decreases |xs|
  {
    if xs != [] {
      KeepPresentOrdered(xs[1..], words);
      KeepPresentMembership(xs[1..], words);
      var rest := KeepPresent(xs[1..], words);
      if xs[0] in words {
        assert KeepPresent(xs, words) == [xs[0]] + rest;
        assert ([xs[0]] + rest)[1..] == rest;
      } else {
        assert KeepPresent(xs, words) == rest;
        if rest != [] {
          assert rest[0] in rest;
          assert rest[0] != xs[0];
        }
      }
    }
  }

  /** Filtering a list without duplicates gives a list without duplicates. */
  lemma {:induction false} KeepPresentDistinct(xs: seq<string>, words: seq<string>)
    requires NoDuplicates(xs)
    ensures NoDuplicates(KeepPresent(xs, words))
    decreases |xs|
  {
    if xs != [] {
      KeepPresentDistinct(xs[1..], words);
      KeepPresentMembership(xs[1..], words);
      assert xs[0] !in xs[1..];
    }
  }

  /** The fillers found in a transcript. */
  function DetectFillers(text: string): seq<string> {
    KeepPresent(FillerWords, WordTokens(Lower(text)))
  }

  lemma FillerWordsDistinct()
    ensures NoDuplicates(FillerWords)
  {
  }

  /** A filler is reported exactly when it is in the vocabulary and is a
      maximal run of word characters of the lower-cased transcript. */
  lemma DetectFillersMembership(text: string, w: string)
    ensures w in DetectFillers(text) <==>
      w in FillerWords && exists i, j :: IsMaximalRun(Lower(text), IsWordChar, i, j) && Lower(text)[i..j] == w
  {
    RunsMembership(Lower(text), IsWordChar, w);
    KeepPresentMembership(FillerWords, WordTokens(Lower(text)));
  }

  /** The result keeps vocabulary order, has no duplicates and at most
      seven entries, however often a filler is repeated. */
  lemma DetectFillersBounded(text: string)
    ensures IsSubsequence(DetectFillers(text), FillerWords)
    ensures NoDuplicates(DetectFillers(text))
    ensures |DetectFillers(text)| <= 7
  {
    var tokens := WordTokens(Lower(text));
    FillerWordsDistinct();
    KeepPresentMembership(FillerWords, tokens);
    KeepPresentOrdered(FillerWords, tokens);
    KeepPresentDistinct(FillerWords, tokens);
  }

  /** Matching ignores case: a transcript and its lower-cased form give the
      same fillers. */
  lemma DetectFillersCaseInsensitive(text: string)
    ensures DetectFillers(Lower(text)) == DetectFillers(text)
  {
    LowerIdempotent(text);
  }

  /** Tokens never contain a space, so the two-word entry "you know" is
      never reported. */
  lemma YouKnowNeverReported(text: string)
    ensures "you know" !in DetectFillers(text)
  {
    assert ' ' in "you know" && !IsWordChar(' ');
    KeepPresentMembership(FillerWords, WordTokens(Lower(text)));
  }

  /** A filler that is not a token of the lower-cased transcript is not
      reported. */
  lemma NotATokenNotReported(text: string, w: string)
    requires w !in WordTokens(Lower(text))
    ensures w !in DetectFillers(text)
  {
    KeepPresentMembership(FillerWords, WordTokens(Lower(text)));
  }

  /** A transcript that is one single word reports a filler only when the
      whole word is that filler: "so" is not found in "Sofia". */
  lemma SoNotInsideSofia()
    ensures "so" !in DetectFillers("Sofia")
  {
    assert Lower("Sofia") == "sofia";
    RunsWhole("sofia", IsWordChar);
    NotATokenNotReported("Sofia", "so");
  }

  /** "so" is not found in "also". */
  lemma SoNotInsideAlso()
    ensures "so" !in DetectFillers("also")
  {
    assert Lower("also") == "also";
    RunsWhole("also", IsWordChar);
    NotATokenNotReported("also", "so");
  }

  /** "like" is not found in "likely". */
  lemma LikeNotInsideLikely()
    ensures "like" !in DetectFillers("likely")
  {
    assert Lower("likely") == "likely";
    RunsWhole("likely", IsWordChar);
    NotATokenNotReported("likely", "like");
  }

  /** Filtering the vocabulary by a token list reports each filler once,
      in vocabulary order. */
  lemma KeepPresentExample()
    ensures KeepPresent(FillerWords, ["um", "so", "like", "um"]) == ["um", "like", "so"]
  {
  }

  /** Case does not hide a filler; repeats are reported once, in
      vocabulary order. */
  lemma DetectFillersExample()
    ensures DetectFillers("Um so LIKE um") == ["um", "like", "so"]
  {
    var tokens := ["um", "so", "like", "um"];
    assert Lower("Um so LIKE um") == Join(tokens, ' ');
    RunsOfJoined(tokens, ' ', IsWordChar);
    KeepPresentExample();
  }
}
