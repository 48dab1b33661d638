/** The two commands of src/index.ts as decision functions: which steps run
    and with what exit status. Argument parsing, console output and the
    library calls are outside; their results are inputs. */
module Cli {
  import opened Wrappers
  import opened Types
  import opened VideoId
  import opened Downloader
  import Transcript

  const DefaultOutputDir: string := "./downloads"
  const DefaultFormat: string := "mp4"
  const DefaultQuality: string := "highest"

  /** Options as given on the command line; absent ones are `None`, absent
      flags `false`. */
  datatype RawOptions = RawOptions(output: Option<string>, format: Option<string>, quality: Option<string>,
                                   audioOnly: bool, info: bool)

  datatype CliOptions = CliOptions(output: string, format: string, quality: string, audioOnly: bool, info: bool)

  /** The defaults declared for `-o`, `-f` and `-q`; given values win. */
  function WithDefaults(raw: RawOptions): (o: CliOptions)
    ensures raw.output.Some? ==> o.output == raw.output.value
    ensures raw.output.None? ==> o.output == "./downloads"
    ensures raw.format.Some? ==> o.format == raw.format.value
    ensures raw.format.None? ==> o.format == "mp4"
    ensures raw.quality.Some? ==> o.quality == raw.quality.value
    ensures raw.quality.None? ==> o.quality == "highest"
    ensures o.audioOnly == raw.audioOnly && o.info == raw.info
  {
    CliOptions(raw.output.GetOr(DefaultOutputDir), raw.format.GetOr(DefaultFormat),
               raw.quality.GetOr(DefaultQuality), raw.audioOnly, raw.info)
  }

  /** Observable steps of a run, in order. */
  datatype Step =
    | LookUpMetadata
    | ShowInfo(info: VideoInfo)
    | CreateDirectory(path: string)
    | RunDownload(options: DownloadOptions, outcome: Result<Report, DownloadError>)

  datatype Run = Run(steps: seq<Step>, exitCode: nat)

  /** Results of the outside calls the default command makes. */
  datatype CliEnvironment = CliEnvironment(metadata: Option<VideoInfo>, directoryCreated: bool, download: Environment)

  /** The options object the default command hands to `downloadVideo`: the
      transcript flags are never set. */
  function ToDownloadOptions(o: CliOptions, v: VideoInfo): (d: DownloadOptions)
    ensures !d.transcriptOnly && !d.includeTranscript
    ensures d.outputDir == o.output && d.format == o.format && d.quality == o.quality
    ensures d.audioOnly == o.audioOnly && d.videoInfo == v
  {
    DownloadOptions(o.output, o.format, o.quality, o.audioOnly, v, false, false)
  }

  /** The default command `<video-id> [options]`. */
  function DownloadCommand(videoId: string, o: CliOptions, env: CliEnvironment): (run: Run)
  {
    if !IsValidVideoId(videoId) then Run([], 1)
    else
      match env.metadata
      case None => Run([LookUpMetadata], 1)
      case Some(v) =>
        var shown := [LookUpMetadata, ShowInfo(v)];
        if o.info then Run(shown, 0)
        else if !env.directoryCreated then Run(shown + [CreateDirectory(o.output)], 1)
        else
          var d := ToDownloadOptions(o, v);
          var outcome := DownloadVideo(d, env.download);
          Run(shown + [CreateDirectory(o.output), RunDownload(d, outcome)], if outcome.Success? then 0 else 1)
  }

  /** The `info <video-id>` subcommand. */
  function InfoCommand(videoId: string, metadata: Option<VideoInfo>): (run: Run)
  {
    if !IsValidVideoId(videoId) then Run([], 1)
    else
      match metadata
      case None => Run([LookUpMetadata], 1)
      case Some(v) => Run([LookUpMetadata, ShowInfo(v)], 0)
  }

  /** Both commands reject exactly the same ids, with status 1 and before
      any lookup; every run ends with status 0 or 1. */
  lemma ValidationFirst(videoId: string, o: CliOptions, env: CliEnvironment)
    ensures var d := DownloadCommand(videoId, o, env);
      var i := InfoCommand(videoId, env.metadata);
      && (d.exitCode == 0 || d.exitCode == 1)
      && (i.exitCode == 0 || i.exitCode == 1)
      && (!IsValidVideoId(videoId) <==> d == Run([], 1))
      && (!IsValidVideoId(videoId) <==> i == Run([], 1))
  {
  }

  /** With `--info` the default command shows the metadata and stops with
      status 0: no directory is created and nothing is downloaded. */
  lemma InfoFlagOnlyShows(videoId: string, o: CliOptions, env: CliEnvironment)
    requires IsValidVideoId(videoId) && o.info && env.metadata.Some?
    ensures var run := DownloadCommand(videoId, o, env);
      && run.exitCode == 0
      && run.steps == [LookUpMetadata, ShowInfo(env.metadata.value)]
      && run == InfoCommand(videoId, env.metadata)
  {
  }

  /** A download is attempted only for a valid id with metadata, no `--info`
      and a created directory; the status is then 0 exactly when it succeeds,
      and no transcript is ever produced. */
  lemma DownloadStepOutcome(videoId: string, o: CliOptions, env: CliEnvironment)
    ensures var run := DownloadCommand(videoId, o, env);
      && (|run.steps| == 4 <==>
            IsValidVideoId(videoId) && env.metadata.Some? && !o.info && env.directoryCreated)
      && (|run.steps| == 4 ==>
            && run.steps[3].RunDownload?
            && run.steps[3].options == ToDownloadOptions(o, env.metadata.value)
            && (run.exitCode == 0 <==> run.steps[3].outcome.Success?)
            && (run.steps[3].outcome.Success? ==> run.steps[3].outcome.value.transcript == NotRequested))
  {
    var run := DownloadCommand(videoId, o, env);
    if |run.steps| == 4 {
      var d := ToDownloadOptions(o, env.metadata.value);
      VideoDownloadOutcome(d, env.download);
    }
  }

  /** What the default command does never depends on the caption service:
      the transcript branches of the downloader are unreachable from it. */
  lemma CommandIgnoresCaptions(videoId: string, o: CliOptions, env: CliEnvironment, captions: Option<seq<Transcript.Entry>>)
    ensures var env2 := env.(download := env.download.(captions := captions));
      DownloadCommand(videoId, o, env).exitCode == DownloadCommand(videoId, o, env2).exitCode
  {
    if IsValidVideoId(videoId) && env.metadata.Some? && !o.info && env.directoryCreated {
      CaptionsNeverAffectVideo(ToDownloadOptions(o, env.metadata.value), env.download, captions);
    }
  }
}
