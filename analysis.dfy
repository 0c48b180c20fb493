/** The `/analyze` request: which error answers a request when several
    apply, and what a successful analysis reports and stores. Audio
    conversion, speech recognition, readability scoring, grammar feedback
    and language detection are outside capabilities, given as functions. */
module Analysis {
  import opened Wrappers
  import opened Text
  import opened Fillers
  import opened FillersColumn
  import opened Metrics

  /** An uploaded file part: its file name and the bytes it carries. */
  datatype UploadedFile = UploadedFile(filename: string, content: seq<bv8>)

  /** The `duration` form field: absent, or given and then either parsed
      to a number or refused by `float()` (`None`). */
  datatype DurationField = Absent | Given(parsed: Option<real>)

  /** The outside capabilities the request depends on. `recognize` stands
      for conversion to WAV followed by speech recognition; `None` is the
      "could not understand audio" outcome. */
  datatype Capabilities = Capabilities(
    recognize: UploadedFile -> Option<string>,
    readingEase: string -> real,
    grammarFeedback: string -> string,
    detectLanguage: string -> string)

  datatype AnalyzeError =
    | NoAudioUploaded
    | SpeechNotRecognized
    | InvalidDuration
    | InvalidOrZeroDuration

  /** The response body of a successful analysis. */
  datatype AnalysisPayload = AnalysisPayload(
    transcript: string,
    language: string,
    wordCount: nat,
    wpmHundredths: int,
    fluencyScore: real,
    fillers: seq<string>,
    grammarFeedback: string)

  /** The row stored for a successful analysis (id and time stamp aside). */
  datatype StoredResult = StoredResult(
    transcript: string,
    grammarFeedback: string,
    fluencyScore: real,
    wordCount: nat,
    wpmHundredths: int,
    fillers: string,
    language: string)

  datatype AnalyzeResponse =
    | Rejected(error: AnalyzeError)
    | Analyzed(payload: AnalysisPayload, stored: StoredResult)

  /** The `error` text of each rejection; every rejection has status 400. */
  function ErrorMessage(e: AnalyzeError): string {
    match e
    case NoAudioUploaded => "No audio uploaded"
    case SpeechNotRecognized => "Speech not recognized"
    case InvalidDuration => "Invalid duration"
    case InvalidOrZeroDuration => "Invalid or zero duration"
  }

  /** The four rejections can be told apart by their text. */
  lemma ErrorMessagesDistinct(e1: AnalyzeError, e2: AnalyzeError)
    ensures ErrorMessage(e1) == ErrorMessage(e2) <==> e1 == e2
  {
  }

  /** `request.files.get('audio') or request.files.get('file')`: a file part
      counts only when its file name is non-empty, and "audio" is preferred. */
  function SelectAudio(audioPart: Option<UploadedFile>, filePart: Option<UploadedFile>): (r: Option<UploadedFile>)
    ensures r.Some? <==>
      (audioPart.Some? && audioPart.value.filename != "") || (filePart.Some? && filePart.value.filename != "")
    ensures r.Some? ==> r.value.filename != "" && (r == audioPart || r == filePart)
    ensures audioPart.Some? && audioPart.value.filename != "" ==> r == audioPart
  {
    if audioPart.Some? && audioPart.value.filename != "" then audioPart
    else if filePart.Some? && filePart.value.filename != "" then filePart
    else None
  }

  /** `float(request.form.get("duration", 0))`: a missing field reads as 0. */
  function ParsedDuration(field: DurationField): Option<real> {
    match field
    case Absent => Some(0.0)
    case Given(parsed) => parsed
  }

  /** The metrics, feedback and stored row of a recognised transcript with a
      non-zero duration. */
  function Assemble(transcript: string, duration: real, caps: Capabilities): AnalyzeResponse
    requires duration != 0.0
  {
    var wordCount := WordCount(transcript);
    var wpm := RoundHundredths(WordsPerMinute(wordCount, duration));
    var score := caps.readingEase(transcript);
    var feedback := caps.grammarFeedback(transcript);
    var found := DetectFillers(transcript);
    var language := caps.detectLanguage(transcript);
    Analyzed(
      AnalysisPayload(transcript, language, wordCount, wpm, score, found, feedback),
      StoredResult(transcript, feedback, score, wordCount, wpm, Join(found, Comma), language))
  }

  /** The request succeeds exactly when a file was uploaded, its speech was
      recognised, and the duration parsed to a number other than 0; the
      zero-duration rejection answers exactly a parsed (or defaulted) 0. */
  function Analyze(
    audioPart: Option<UploadedFile>,
    filePart: Option<UploadedFile>,
    duration: DurationField,
    caps: Capabilities): (r: AnalyzeResponse)
    ensures r.Analyzed? <==>
      && SelectAudio(audioPart, filePart).Some?
      && caps.recognize(SelectAudio(audioPart, filePart).value).Some?
      && ParsedDuration(duration).Some?
      && ParsedDuration(duration).value != 0.0
    ensures r == Rejected(InvalidOrZeroDuration) <==>
      && SelectAudio(audioPart, filePart).Some?
      && caps.recognize(SelectAudio(audioPart, filePart).value).Some?
      && ParsedDuration(duration) == Some(0.0)
  {
    match SelectAudio(audioPart, filePart)
    case None => Rejected(NoAudioUploaded)
    case Some(file) =>
      match caps.recognize(file)
      case None => Rejected(SpeechNotRecognized)
      case Some(transcript) =>
        match ParsedDuration(duration)
        case None => Rejected(InvalidDuration)
        case Some(seconds) =>
          if seconds == 0.0 then Rejected(InvalidOrZeroDuration)
          else Assemble(transcript, seconds, caps)
  }

  /** Error precedence: a missing upload wins over everything; a failed
      recognition wins over any duration problem; an unparseable duration
      is reported as such, never as a zero one. */
  lemma AnalyzeErrorPrecedence(
    audioPart: Option<UploadedFile>,
    filePart: Option<UploadedFile>,
    duration: DurationField,
    caps: Capabilities)
    ensures SelectAudio(audioPart, filePart).None? ==>
      Analyze(audioPart, filePart, duration, caps) == Rejected(NoAudioUploaded)
    ensures SelectAudio(audioPart, filePart).Some? && caps.recognize(SelectAudio(audioPart, filePart).value).None? ==>
      Analyze(audioPart, filePart, duration, caps) == Rejected(SpeechNotRecognized)
    ensures Analyze(audioPart, filePart, duration, caps) == Rejected(InvalidDuration) <==>
      && SelectAudio(audioPart, filePart).Some?
      && caps.recognize(SelectAudio(audioPart, filePart).value).Some?
      && ParsedDuration(duration).None?
  {
  }

  /** A request without a duration field is rejected as a zero duration
      once the upload and the recognition have passed. */
  lemma MissingDurationRejected(
    audioPart: Option<UploadedFile>,
    filePart: Option<UploadedFile>,
    caps: Capabilities)
    requires SelectAudio(audioPart, filePart).Some?
    requires caps.recognize(SelectAudio(audioPart, filePart).value).Some?
    ensures Analyze(audioPart, filePart, Absent, caps) == Rejected(InvalidOrZeroDuration)
  {
  }

  /** A negative duration is accepted; with at least one word the speaking
      rate is negative. */
  lemma NegativeDurationAccepted(
    audioPart: Option<UploadedFile>,
    filePart: Option<UploadedFile>,
    seconds: real,
    caps: Capabilities)
    requires SelectAudio(audioPart, filePart).Some?
    requires caps.recognize(SelectAudio(audioPart, filePart).value).Some?
    requires seconds < 0.0
    ensures Analyze(audioPart, filePart, Given(Some(seconds)), caps).Analyzed?
    ensures Analyze(audioPart, filePart, Given(Some(seconds)), caps).payload.wpmHundredths <= 0
    ensures var transcript := caps.recognize(SelectAudio(audioPart, filePart).value).value;
      WordCount(transcript) > 0 ==> WordsPerMinute(WordCount(transcript), seconds) < 0.0
  {
    var transcript := caps.recognize(SelectAudio(audioPart, filePart).value).value;
    assert Analyze(audioPart, filePart, Given(Some(seconds)), caps) == Assemble(transcript, seconds, caps);
  }

  /** What a successful analysis reports: the transcript and the
      capabilities' answers about it, the number of whitespace-separated
      words, the rate rounded to hundredths of a word per minute, and the
      fillers detected in the transcript, which are whole tokens reported
      at most once each and in vocabulary order. */
  lemma AnalyzedPayload(
    audioPart: Option<UploadedFile>,
    filePart: Option<UploadedFile>,
    duration: DurationField,
    caps: Capabilities)
    requires Analyze(audioPart, filePart, duration, caps).Analyzed?
    ensures var p := Analyze(audioPart, filePart, duration, caps).payload;
      var transcript := caps.recognize(SelectAudio(audioPart, filePart).value).value;
      var seconds := ParsedDuration(duration).value;
      && p.transcript == transcript
      && p.language == caps.detectLanguage(transcript)
      && p.fluencyScore == caps.readingEase(transcript)
      && p.grammarFeedback == caps.grammarFeedback(transcript)
      && p.wordCount == CountRunStarts(transcript, IsNonSpace, false)
      && seconds != 0.0
      && IsRoundedHundredths(WordsPerMinute(p.wordCount, seconds), p.wpmHundredths)
      && p.fillers == DetectFillers(transcript)
      && IsSubsequence(p.fillers, FillerWords)
      && NoDuplicates(p.fillers)
      && "you know" !in p.fillers
  {
    var file := SelectAudio(audioPart, filePart).value;
    var transcript := caps.recognize(file).value;
    var seconds := ParsedDuration(duration).value;
    assert Analyze(audioPart, filePart, duration, caps) == Assemble(transcript, seconds, caps);
    WordCountCountsRuns(transcript);
    DetectFillersBounded(transcript);
    YouKnowNeverReported(transcript);
  }

  /** The stored row carries the response's values, and its fillers column
      splits back on "," into the response's fillers list, except that an
      empty list comes back as `[""]`. */
  lemma StoredMatchesPayload(
    audioPart: Option<UploadedFile>,
    filePart: Option<UploadedFile>,
    duration: DurationField,
    caps: Capabilities)
    requires Analyze(audioPart, filePart, duration, caps).Analyzed?
    ensures var r := Analyze(audioPart, filePart, duration, caps);
      && r.stored.transcript == r.payload.transcript
      && r.stored.grammarFeedback == r.payload.grammarFeedback
      && r.stored.fluencyScore == r.payload.fluencyScore
      && r.stored.wordCount == r.payload.wordCount
      && r.stored.wpmHundredths == r.payload.wpmHundredths
      && r.stored.language == r.payload.language
      && (r.payload.fillers != [] ==> SplitOn(r.stored.fillers, Comma) == r.payload.fillers)
      && (r.payload.fillers == [] ==> SplitOn(r.stored.fillers, Comma) == [""])
  {
    var transcript := caps.recognize(SelectAudio(audioPart, filePart).value).value;
    FillersColumnRoundTrip(transcript);
  }
}
