/** The decision flow of `downloadVideo` and `downloadTranscript` in
    src/downloader.ts. Everything the functions learn from the outside world
    (the library's metadata, whether a file exists, the clock, whether the
    transfer succeeds, the caption list) is an input of the model. */
module Downloader {
  import opened Wrappers
  import opened Types
  import opened Sanitize
  import opened Naming
  import opened FormatSelection
  import opened Transcript

  /** Errors that abort `downloadVideo`. */
  datatype DownloadError =
    | MetadataUnavailable   // `getInfo` threw
    | NoSuitableFormat      // format selection found nothing
    | TransferFailed        // the stream or the file write failed
    | TranscriptFailed      // caption fetch failed in transcript-only mode

  /** What `downloadTranscript` did when it returned normally. */
  datatype TranscriptOutcome =
    | NotRequested
    | Unavailable                                 // fetch failed, warning only
    | NoEntries                                   // the caption list was empty
    | BlankText                                   // rendered text was blank
    | Written(fileName: string, contents: string)

  /** The world as seen by one `downloadVideo` call. `fileExists` answers for
      a file name inside the output directory; `now` is the ISO-8601 time. */
  datatype Environment = Environment(
    formats: Option<seq<Format>>,
    choose: Chooser,
    fileExists: string -> bool,
    now: string,
    transferOk: bool,
    captions: Option<seq<Entry>>)

  datatype Report = Report(savedAs: Option<string>, format: Option<Format>, transcript: TranscriptOutcome)

  /** `downloadTranscript`: a failed fetch is fatal only in transcript-only
      mode; an empty list returns without writing; otherwise the rendered
      text is written to `<title>_transcript.txt`. */
  function DownloadTranscript(o: DownloadOptions, captions: Option<seq<Entry>>): (r: Result<TranscriptOutcome, DownloadError>)
    ensures r.Failure? <==> captions.None? && o.transcriptOnly
    ensures r.Failure? ==> r.error == TranscriptFailed
    ensures r == Success(Unavailable) <==> captions.None? && !o.transcriptOnly
    ensures r == Success(NoEntries) <==> captions == Some([])
    ensures r.Success? ==> r.value != BlankText && r.value != NotRequested
    ensures r.Success? && r.value.Written? ==>
      && captions.Some? && |captions.value| > 0
      && r.value.fileName == TranscriptFileName(SanitizeFilename(o.videoInfo.title))
      && r.value.contents == Render(captions.value)
  {
    match captions
    case None => if o.transcriptOnly then Failure(TranscriptFailed) else Success(Unavailable)
    case Some(entries) =>
      if |entries| == 0 then Success(NoEntries)
      else
        var text := Render(entries);
        RenderedNeverBlank(entries);
        if IsBlank(text) then Success(BlankText)
        else Success(Written(TranscriptFileName(SanitizeFilename(o.videoInfo.title)), text))
  }

  /** The name of the video file for these options. */
  function ChosenFileName(o: DownloadOptions, env: Environment): string
  {
    var title := SanitizeFilename(o.videoInfo.title);
    var ext := Extension(o.audioOnly, o.format);
    OutputFileName(title, ext, env.fileExists(VideoFileName(title, ext)), env.now)
  }

  function DownloadVideo(o: DownloadOptions, env: Environment): (r: Result<Report, DownloadError>)
  {
    if o.transcriptOnly then
      match DownloadTranscript(o, env.captions)
      case Failure(e) => Failure(e)
      case Success(t) => Success(Report(None, None, t))
    else if env.formats.None? then Failure(MetadataUnavailable)
    else
      var sel := SelectFormat(env.formats.value, o.audioOnly, o.format, o.quality, env.choose);
      if sel.chosen.None? then Failure(NoSuitableFormat)
      else if !env.transferOk then Failure(TransferFailed)
      else
        var name := ChosenFileName(o, env);
        if o.includeTranscript then
          match DownloadTranscript(o, env.captions)
          case Failure(e) => Failure(e)
          case Success(t) => Success(Report(Some(name), sel.chosen, t))
        else Success(Report(Some(name), sel.chosen, NotRequested))
  }

  /** A video download succeeds exactly when metadata, format selection and
      the transfer all succeed; caption problems never abort it. Its file is
      `<title>.<ext>`, or the time-stamped name when that already exists. */
  lemma VideoDownloadOutcome(o: DownloadOptions, env: Environment)
    requires !o.transcriptOnly
    ensures var r := DownloadVideo(o, env);
      && (r.Success? <==>
            && env.formats.Some?
            && SelectFormat(env.formats.value, o.audioOnly, o.format, o.quality, env.choose).chosen.Some?
            && env.transferOk)
      && (r.Failure? ==> r.error != TranscriptFailed)
      && (r.Success? ==>
            && r.value.savedAs.Some?
            && r.value.format == SelectFormat(env.formats.value, o.audioOnly, o.format, o.quality, env.choose).chosen
            && (!o.includeTranscript <==> r.value.transcript == NotRequested))
  {
  }

  /** The saved file name starts with the sanitised title, keeps the chosen
      extension, and is the plain `<title>.<ext>` exactly when no file of that
      name existed. */
  lemma SavedFileName(o: DownloadOptions, env: Environment)
    requires !o.transcriptOnly && env.formats.Some? && env.transferOk
    requires SelectFormat(env.formats.value, o.audioOnly, o.format, o.quality, env.choose).chosen.Some?
    ensures var title := SanitizeFilename(o.videoInfo.title);
      var ext := Extension(o.audioOnly, o.format);
      var name := DownloadVideo(o, env).value.savedAs.value;
      && title <= name
      && SplitExtension(name).1 == ext
      && (name == VideoFileName(title, ext) <==> !env.fileExists(VideoFileName(title, ext)))
  {
    var title := SanitizeFilename(o.videoInfo.title);
    var ext := Extension(o.audioOnly, o.format);
    VideoDownloadOutcome(o, env);
    assert DownloadVideo(o, env).value.savedAs == Some(ChosenFileName(o, env));
    OutputFileNameSplits(title, ext, env.fileExists(VideoFileName(title, ext)), env.now);
  }

  /** Transcript-only mode touches no video: it succeeds unless the caption
      fetch fails, and an empty caption list is not an error. */
  lemma TranscriptOnlyOutcome(o: DownloadOptions, env: Environment)
    requires o.transcriptOnly
    ensures var r := DownloadVideo(o, env);
      && (r.Success? <==> env.captions.Some?)
      && (r.Success? ==> r.value.savedAs.None? && r.value.format.None?)
      && (env.captions == Some([]) ==> r == Success(Report(None, None, NoEntries)))
  {
  }

  /** Whether a video download succeeds, and which file it writes, does not
      depend on the captions at all. */
  lemma CaptionsNeverAffectVideo(o: DownloadOptions, env: Environment, captions: Option<seq<Entry>>)
    requires !o.transcriptOnly
    ensures var r1 := DownloadVideo(o, env);
      var r2 := DownloadVideo(o, env.(captions := captions));
      && (r1.Success? <==> r2.Success?)
      && (r1.Success? ==> r1.value.savedAs == r2.value.savedAs && r1.value.format == r2.value.format)
  {
    VideoDownloadOutcome(o, env);
    VideoDownloadOutcome(o, env.(captions := captions));
  }
}
