/** Speech metrics of a transcript: word count, speaking rate and its
    rounding to two decimals. */
module Metrics {
  import opened Text

  /** `len(transcript.split())`. */
  function WordCount(transcript: string): nat {
    |SplitWhitespace(transcript)|
  }

  /** The word count is the number of maximal non-whitespace runs: the
      positions where a non-space character follows whitespace or the
      start of the text. */
  lemma WordCountCountsRuns(transcript: string)
    ensures WordCount(transcript) == CountRunStarts(transcript, IsNonSpace, false)
  {
    RunsCount(transcript, IsNonSpace);
  }

  /** Each counted word is a maximal run of non-whitespace characters, and
      each such run is counted. */
  lemma WordsAreMaximalRuns(transcript: string, w: string)
    ensures w in SplitWhitespace(transcript) <==>
      exists i, j :: IsMaximalRun(transcript, IsNonSpace, i, j) && transcript[i..j] == w
  {
    RunsMembership(transcript, IsNonSpace, w);
  }

  /** The count is 0 exactly for an empty or all-whitespace transcript. */
  lemma WordCountZeroIffBlank(transcript: string)
    ensures WordCount(transcript) == 0 <==> forall k :: 0 <= k < |transcript| ==> IsSpace(transcript[k])
  {
    RunsEmptyIff(transcript, IsNonSpace);
  }

  /** `h` is `x` rounded to hundredths, counted in hundredths: the nearest
      integer to `100 * x`, ties going to the even one (Python's `round`). */
  ghost predicate IsRoundedHundredths(x: real, h: int) {
    var d := h as real - x * 100.0;
    && -0.5 <= d <= 0.5
    && ((d == 0.5 || d == -0.5) ==> h % 2 == 0)
  }

  /** `round(x, 2)`, in hundredths. Rounding keeps the sign. */
  function RoundHundredths(x: real): (h: int)
    ensures IsRoundedHundredths(x, h)
    ensures x >= 0.0 ==> h >= 0
    ensures x <= 0.0 ==> h <= 0
  {
    var y := x * 100.0;
    var f := y.Floor;
    var frac := y - f as real;
    if frac < 0.5 then f
    else if frac > 0.5 then f + 1
    else if f % 2 == 0 then f
    else f + 1
  }

  /** Only one integer is the rounded value. */
  lemma RoundHundredthsUnique(x: real, h: int)
    requires IsRoundedHundredths(x, h)
    ensures h == RoundHundredths(x)
  {
  }

  /** `word_count / (duration / 60)`: words per minute, for any non-zero
      duration. It is negative for a negative duration and at least one
      word. */
  function WordsPerMinute(wordCount: nat, duration: real): (wpm: real)
    requires duration != 0.0
    ensures wpm * duration == wordCount as real * 60.0
    ensures duration > 0.0 ==> wpm >= 0.0
    ensures duration < 0.0 ==> wpm <= 0.0
    ensures duration < 0.0 && wordCount > 0 ==> wpm < 0.0
  {
    wordCount as real / (duration / 60.0)
  }

  /** Four words spoken in ten seconds are 24.00 words per minute. */
  lemma SpeechRateExample()
    ensures WordCount("this is a test") == 4
    ensures RoundHundredths(WordsPerMinute(4, 10.0)) == 2400
  {
    var words := ["this", "is", "a", "test"];
    assert "this is a test" == Join(words, ' ');
    RunsOfJoined(words, ' ', IsNonSpace);
    assert WordsPerMinute(4, 10.0) == 24.0;
  }
}
