# Speech fluency analysis: a verified model of the `/analyze` logic

The backend takes an uploaded audio clip and a claimed duration. It
transcribes the clip and reports a word count, a speaking rate in words per
minute, a readability score, the detected language, grammar feedback and the
filler words used. It also stores the result as a database row. This project
models the self-contained logic inside `app.py` and proves properties of it:

- **Filler detection** (`Fillers`). `detect_fillers` lower-cases the
  transcript and splits it into the matches of `\b\w+\b`. It then keeps the
  entries of the fixed vocabulary `FILLERS` that occur among those tokens,
  in vocabulary order.
- **Tokenisers** (`Text`). Both tokenisers are the maximal runs of a
  character class. The `\b\w+\b` matches are runs of word characters. The
  words of `str.split()` are runs of non-whitespace characters. `Runs` is
  proved to report exactly its declarative reading: a string is reported exactly when
  it is a non-empty, non-extendable run. The number of runs equals the
  number of run starts.
- **Speech metrics** (`Metrics`). Word count, words per minute as
  `word_count / (duration / 60)` over exact reals, and `round(…, 2)` as an
  integer number of hundredths. Rounding is to nearest, with ties to even.
- **Decision order of `analyze`** (`Analysis`). This is a pure function of
  the upload parts, the duration field and the outside capabilities. Those
  are recognition, readability, grammar feedback and language detection,
  given as functions. It returns one of the four rejections or the response
  payload together with the stored row.
- **Fillers column** (`FillersColumn`). The fillers list is stored joined
  with `","`. `SplitOn` is Python's `str.split(",")`. Both round trips are
  proved. A non-empty list of fillers comes back unchanged, while an empty
  list is stored as `""` and comes back as `[""]`.

Behaviour of `app.py` that the model reproduces as written:

- Only a duration exactly equal to 0 is rejected, including a missing field,
  which defaults to 0. Negative durations are analysed and give a
  non-positive rate.
- An unparseable duration gets its own rejection, "Invalid duration",
  distinct from "Invalid or zero duration".
- The vocabulary entry "you know" can never be reported, because no token
  contains a space.
- An empty fillers list does not survive the join/split round trip.

## Model

| member | source | states |
|---|---|---|
| Text.IsWordChar | app.py:59 | the `\w` class (ASCII letters, digits, `_`); specified through `Text.RunsMembership`, `Fillers.YouKnowNeverReported` and `Fillers.DetectFillersMembership`, which show that tokens are its maximal runs and never hold a space |
| Text.IsSpace | app.py:95 | the characters for which `str.isspace()` holds; specified through `Metrics.WordsAreMaximalRuns` and `Metrics.WordCountZeroIffBlank` |
| Text.WordTokens | app.py:59 | `re.findall(r'\b\w+\b', …)`; `Text.RunsMembership` shows a string is a token exactly when it is a maximal word-character run, `Text.RunsOfJoined` that tokens come in text order |
| Text.SplitWhitespace | app.py:95 | `str.split()`; `Metrics.WordsAreMaximalRuns` shows a string is a split word exactly when it is a maximal non-whitespace run |
| Text.Join | app.py:109 | `",".join(…)`; `FillersColumn.SplitOnJoin` and `FillersColumn.JoinSplitOn` make it the inverse of splitting on the separator |
| Text.LowerChar | app.py:59 | lower-casing one character leaves no upper-case letter, maps `A`–`Z` to `a`–`z` and keeps every other character |
| Text.Lower | app.py:59 | `text.lower()` keeps the length, replaces each upper-case letter by its lower-case form and keeps every other character in place |
| Text.LowerIdempotent | app.py:59 | lower-casing an already lower-cased text changes nothing |
| Text.LeadingRun | app.py:59 | the greedy `\w+` stops at the first character outside the class: every character before it is in the class |
| Text.Runs | app.py:59 | every token reported is non-empty and made only of characters of the class |
| Text.RunsSound | app.py:59 | every reported token is a maximal run: bounded by the text's ends or by characters outside the class (`\b` on both sides) |
| Text.RunsComplete | app.py:59 | every maximal run of the class is reported |
| Text.RunsMembership | app.py:59 | a string is a token exactly when it is a maximal run of the text (both directions) |
| Text.RunsSeparated | app.py:59 | a character outside the class splits the text: the tokens of `a + [c] + b` are those of `a` followed by those of `b` |
| Text.RunsOfJoined | app.py:59 | words of the class joined by a separator outside it are found again as the tokens, in order |
| Text.RunsCount | app.py:95 | the number of tokens equals the number of positions where a run starts |
| Text.RunsEmptyIff | app.py:95 | there are no tokens exactly when no character belongs to the class |
| Fillers.KeepPresent | app.py:60 | the comprehension `[w for w in FILLERS if w in words]`; specified by `Fillers.KeepPresentMembership`, `Fillers.KeepPresentOrdered` and `Fillers.KeepPresentDistinct` |
| Fillers.DetectFillers | app.py:58-60 | `detect_fillers`; specified by `Fillers.DetectFillersMembership` (both directions), `Fillers.DetectFillersBounded` and `Fillers.DetectFillersCaseInsensitive` |
| Fillers.KeepPresentMembership | app.py:60 | the comprehension keeps an entry exactly when it is in the vocabulary and among the tokens, and never grows the list |
| Fillers.KeepPresentOrdered | app.py:60 | the comprehension keeps vocabulary order: its result is a subsequence of the vocabulary |
| Fillers.KeepPresentDistinct | app.py:60 | filtering a duplicate-free vocabulary gives a duplicate-free result, however often a token repeats |
| Fillers.FillerWordsDistinct | app.py:27 | the seven-entry filler vocabulary `FILLERS` (the constant `Fillers.FillerWords`) has no duplicate entries |
| Fillers.DetectFillersMembership | app.py:58-60 | a filler is reported exactly when it is a vocabulary entry and a whole maximal word-character run of the lower-cased transcript |
| Fillers.DetectFillersBounded | app.py:58-60 | the result is a subsequence of the vocabulary with no duplicates and at most 7 entries |
| Fillers.DetectFillersCaseInsensitive | app.py:59 | a transcript and its lower-cased form give the same fillers |
| Fillers.YouKnowNeverReported | app.py:27 | the two-word entry "you know" is never in the result, for any transcript |
| Fillers.NotATokenNotReported | app.py:59-60 | a filler that is not a whole token of the lower-cased transcript is not reported |
| Fillers.SoNotInsideSofia | app.py:59-60 | "so" is not found in "Sofia" |
| Fillers.SoNotInsideAlso | app.py:59-60 | "so" is not found in "also" |
| Fillers.LikeNotInsideLikely | app.py:59-60 | "like" is not found in "likely" |
| Fillers.KeepPresentExample | app.py:60 | the tokens "um so like um" give `["um", "like", "so"]`: vocabulary order, no repeats |
| Fillers.DetectFillersExample | app.py:58-60 | "Um so LIKE um" gives `["um", "like", "so"]` |
| FillersColumn.SplitOn | app.py:37 | splitting the column on "," gives at least one piece, and no piece contains a comma |
| FillersColumn.SplitOnWithoutSeparator | app.py:37 | text without a comma splits into itself alone |
| FillersColumn.SplitOnFirstPiece | app.py:37 | splitting `a + "," + b`, where `a` has no comma, gives `a` followed by the pieces of `b` |
| FillersColumn.SplitOnJoin | app.py:109 | joining a non-empty list whose entries have no comma and splitting again gives the list back |
| FillersColumn.JoinSplitOn | app.py:109 | splitting any text on "," and joining again gives the text back |
| FillersColumn.FillerWordsHaveNoComma | app.py:27 | no vocabulary entry contains a comma |
| FillersColumn.FillersColumnRoundTrip | app.py:109 | the stored column splits back into the detected fillers when there are some; with none it is "" and splits into `[""]` |
| Metrics.WordCount | app.py:95 | `len(transcript.split())`; specified by `Metrics.WordCountCountsRuns`, `Metrics.WordsAreMaximalRuns` and `Metrics.WordCountZeroIffBlank` |
| Metrics.WordCountCountsRuns | app.py:95 | `len(transcript.split())` is the number of maximal non-whitespace runs |
| Metrics.WordsAreMaximalRuns | app.py:95 | a string is one of the split words exactly when it is a maximal non-whitespace run |
| Metrics.WordCountZeroIffBlank | app.py:95 | the word count is 0 exactly for an empty or all-whitespace transcript |
| Metrics.RoundHundredths | app.py:96 | `round(x, 2)` in hundredths is within half a hundredth of `x`, even on a tie, and keeps the sign of `x` |
| Metrics.RoundHundredthsUnique | app.py:96 | only one integer is nearest with ties to even, so the rounding is determined |
| Metrics.WordsPerMinute | app.py:94-96 | for any non-zero duration, rate × duration = 60 × word count; the rate is non-negative for a positive duration and negative for a negative one with at least one word |
| Metrics.SpeechRateExample | app.py:94-96 | "this is a test" over 10 seconds has 4 words and a rate of 24.00 |
| Analysis.ErrorMessage | app.py:68-92 | the `error` text of each rejection; `Analysis.ErrorMessagesDistinct` shows the four texts tell the rejections apart |
| Analysis.ErrorMessagesDistinct | app.py:66-92 | the four rejection texts are pairwise different |
| Analysis.SelectAudio | app.py:66-67 | an upload counts only if the "audio" or "file" part has a non-empty file name, and "audio" is preferred |
| Analysis.ParsedDuration | app.py:88 | `float(request.form.get("duration", 0))`, a missing field reading as 0; specified through `Analysis.MissingDurationRejected` and `Analysis.AnalyzeErrorPrecedence` |
| Analysis.Assemble | app.py:94-113 | the metrics, feedback and stored row of a success; specified by `Analysis.AnalyzedPayload` and `Analysis.StoredMatchesPayload` |
| Analysis.Analyze | app.py:65-123 | success exactly when a file was uploaded, its speech was recognised and the duration parsed to a non-zero number; "Invalid or zero duration" exactly when the parsed or defaulted duration is 0 after both earlier checks passed |
| Analysis.AnalyzeErrorPrecedence | app.py:66-92 | a missing upload is reported before everything else, a failed recognition before any duration problem, and "Invalid duration" exactly for an unparseable duration after both |
| Analysis.MissingDurationRejected | app.py:88-90 | a missing duration field is rejected as a zero duration |
| Analysis.NegativeDurationAccepted | app.py:87-96 | a negative duration is analysed; its rounded rate is ≤ 0 and the exact rate is negative when there is a word |
| Analysis.AnalyzedPayload | app.py:94-123 | a success reports the transcript, the capabilities' answers about it, the run-count word count, the rate rounded to hundredths, and exactly the fillers `detect_fillers` finds in the transcript: vocabulary-ordered, duplicate-free and without "you know" |
| Analysis.StoredMatchesPayload | app.py:103-123 | the stored row carries the response's values, and its fillers column splits back into the response's list, except that an empty list comes back as `[""]` |

## Left out

- HTTP plumbing is not modelled: Flask routing, `request`, `jsonify`, CORS and status codes (app.py:15-16, 64-66, 115-132). Every rejection has status 400. The model keeps only the rejection kind and its text.
- The `/chat` route and `mentor_chat` (app.py:50-56, 125-132) are not modelled. They only forward a message to the language model.
- Audio conversion through pydub and the fixed temporary file `temp.wav` are not modelled (app.py:71-73, 81, 84). This is file-system I/O, and a path shared by concurrent requests is a concurrency concern. Conversion and recognition together are the `recognize` capability.
- Speech recognition is an opaque function of the uploaded part (file name and bytes) returning a transcript or "not understood". A network failure of the recogniser (`RequestError`) escapes the handler as a server error and is not modelled. Neither is a pydub decode failure at app.py:71: it also raises and gives a server error, not "Speech not recognized", and `recognize`, which returns a transcript or nothing, cannot express it.
- The OpenAI feedback, `textstat.flesch_reading_ease` and `langdetect.detect` (app.py:42-48, 97-100) are opaque functions of the transcript. Their exceptions are not modelled. For example, `detect` raises on text without letters, and a failed OpenAI call gives a server error.
- Persistence is not modelled: the SQLAlchemy model, `db.session.add/commit`, the generated id, the `utcnow` time stamp and commit failures (app.py:21, 30-39, 112-113). Only the stored values, including the comma-joined fillers column, are modelled.
- Python's `float()` parsing is not modelled (`inf`, `nan`, exponents, surrounding whitespace). The duration field arrives already parsed or already refused.
- IEEE floating point is not modelled. Rates are exact reals rounded exactly, so a value like 2.675, which a float stores slightly below the tie, is not modelled. A tiny positive duration whose `duration / 60` underflows to 0.0 makes the source raise a division error, and the model does not capture that.
- Text.IsWordChar: `\w` is taken as ASCII letters, digits and `_`. Python's `re` treats every Unicode letter and digit as a word character. So the model can report a filler Python does not: in "ñso" it finds the token "so", while Python finds the single token "ñso" and reports nothing.
- Text.Lower: lower-cases ASCII letters only. Python's `str.lower` also maps other Unicode upper-case letters, some to ASCII (the Kelvin sign to `k`).
- Text.Join: models `sep.join` for a one-character separator only, which is the only kind the source uses.
- The unused `GoogleTranslator` import (app.py:11) is not modelled. The file has no translate route.
