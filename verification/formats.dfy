/** `getHighestQualityFormat` of src/downloader.ts. The retrieval library's
    `chooseFormat(formats, { quality, filter })` is a parameter of the model:
    `Some` for the format it picks, `None` where it throws. */
module FormatSelection {
  import opened Wrappers
  import opened Types

  /** The options object handed to the chooser; `filter` is absent in the
      fallback call. */
  datatype Query = Query(quality: string, filter: Option<string>)

  type Chooser = (seq<Format>, Query) -> Option<Format>

  /** The chooser calls made, in order, and the format finally returned. */
  datatype Selection = Selection(queries: seq<Query>, chosen: Option<Format>)

  const AudioQuery: Query := Query("highestaudio", Some("audioonly"))
  const FallbackQuery: Query := Query("highest", None)

  /** The quality tier asked for: `high` is the best video-only tier,
      `medium` and `low` are 720p and 480p, and everything else, `highest`
      included, is the best overall. */
  function QualityTarget(quality: string): (target: string)
    ensures target in {"highest", "highestvideo", "720p", "480p"}
    ensures target == "highestvideo" <==> quality == "high"
    ensures target == "720p" <==> quality == "medium"
    ensures target == "480p" <==> quality == "low"
    ensures target == "highest" <==> quality !in {"high", "medium", "low"}
  {
    match quality
    case "highest" => "highest"
    case "high" => "highestvideo"
    case "medium" => "720p"
    case "low" => "480p"
    case _ => "highest"
  }

  /** A combined audio-and-video stream for `webm`, the mp4 container otherwise. */
  function ContainerFilter(format: string): (filter: string)
    ensures filter == "videoandaudio" <==> format == "webm"
    ensures filter == "mp4" <==> format != "webm"
  {
    if format == "webm" then "videoandaudio" else "mp4"
  }

  /** First query of a video download. */
  function VideoQuery(format: string, quality: string): Query
  {
    Query(QualityTarget(quality), Some(ContainerFilter(format)))
  }

  /** The selection protocol: audio only makes one audio query and never
      falls back; otherwise the tier/container query is made first and the
      unfiltered `highest` query only when it fails. The result is always
      the answer to the last query made. */
  function SelectFormat(formats: seq<Format>, audioOnly: bool, format: string, quality: string,
                        choose: Chooser): (r: Selection)
    ensures 1 <= |r.queries| <= 2
    ensures r.chosen == choose(formats, r.queries[|r.queries| - 1])
    ensures audioOnly ==> r.queries == [AudioQuery]
    ensures !audioOnly ==> r.queries[0] == VideoQuery(format, quality)
    ensures |r.queries| == 2 <==> !audioOnly && choose(formats, VideoQuery(format, quality)).None?
    ensures |r.queries| == 2 ==> r.queries[1] == FallbackQuery
  {
    if audioOnly then
      Selection([AudioQuery], choose(formats, AudioQuery))
    else
      var first := VideoQuery(format, quality);
      match choose(formats, first)
      case Some(f) => Selection([first], Some(f))
      case None => Selection([first, FallbackQuery], choose(formats, FallbackQuery))
  }

  /** The chooser only ever answers with a format from the list it was given. */
  ghost predicate PicksFromList(choose: Chooser) {
    forall fs, q :: choose(fs, q).Some? ==> choose(fs, q).value in fs
  }

  /** With such a chooser the selected format is one of those offered, and an
      empty list yields no format (the "No suitable format" failure). */
  lemma SelectedFormatIsOffered(formats: seq<Format>, audioOnly: bool, format: string, quality: string,
                                choose: Chooser)
    requires PicksFromList(choose)
    ensures var r := SelectFormat(formats, audioOnly, format, quality, choose);
      && (r.chosen.Some? ==> r.chosen.value in formats)
      && (|formats| == 0 ==> r.chosen.None?)
  {
    var r := SelectFormat(formats, audioOnly, format, quality, choose);
    var last := r.queries[|r.queries| - 1];
    assert choose(formats, last).Some? ==> choose(formats, last).value in formats;
  }

  /** For a video download the requested tier and container are only a
      preference: whenever the unfiltered `highest` query would find a
      format, some format is selected. */
  lemma VideoSelectionFallsBack(formats: seq<Format>, format: string, quality: string, choose: Chooser)
    requires choose(formats, FallbackQuery).Some?
    ensures SelectFormat(formats, false, format, quality, choose).chosen.Some?
    ensures var r := SelectFormat(formats, false, format, quality, choose);
      r.chosen == choose(formats, VideoQuery(format, quality)) || r.chosen == choose(formats, FallbackQuery)
  {
  }

  /** An audio-only download never falls back: if the audio query finds
      nothing, nothing is selected even when other formats exist. */
  lemma AudioSelectionHasNoFallback(formats: seq<Format>, format: string, quality: string, choose: Chooser)
    requires choose(formats, AudioQuery).None?
    ensures SelectFormat(formats, true, format, quality, choose).chosen.None?
  {
  }
}
