# youtube-dl core, modelled in Dafny

`youtube-dl` is a command-line tool that downloads a YouTube video (or its
transcript) by video id. Almost all of its work is delegated to a retrieval
library and a caption library; what the repository itself decides is small
and sequential. This project models exactly that part:

- the **filename sanitiser** `sanitizeFilename` (illegal-character
  replacement, white-space collapsing, trimming, truncation to 200);
- **output naming**: the extension choice, `<title>.<ext>`, the collision
  name `<title>_<stamp>.<ext>` and `<title>_transcript.txt`;
- the **format-selection policy** `getHighestQualityFormat`, over the
  library's `chooseFormat` taken as a parameter (`None` where it throws);
- **transcript rendering** (`[MM:SS] text` lines joined by `\n`) and the
  decisions of `downloadTranscript`;
- the **decision flow of `downloadVideo`**, with everything it learns from
  the outside world passed in as an `Environment`;
- in the CLI: the **video-id check**, **`formatDuration`**, the **option
  defaults** and the **outcome of both commands** (steps taken, exit status).

Modules: `Wrappers` (Option/Result), `Text` (character maps, join/split),
`Numerals` (`toString` and `padStart(2, "0")` for naturals), `Clock` (reading
`M:SS`/`H:MM:SS` back), `Sanitize`, `Naming`, `Types` (records of
`src/types.ts`), `FormatSelection`, `Transcript`, `Downloader`, `Duration`,
`VideoId`, `Cli`.

Strings are `seq<char>`, and a Dafny `char` is one Unicode scalar value. This
matches the JavaScript string, which is a sequence of UTF-16 code units, for
titles whose characters all lie at or below U+FFFF. JavaScript's `\s` and `trim()` white space (tab, line feed, vertical
tab, form feed, carriage return, space, U+00A0, U+1680, U+2000–U+200A,
U+2028, U+2029, U+202F, U+205F, U+3000, U+FEFF) is spelled out in
`Sanitize.IsSpace`.

Two behaviours of the code are worth stating plainly, since a reader might
expect otherwise:

- an empty caption list makes `downloadTranscript` return normally even in
  transcript-only mode (src/downloader.ts:228-231); only a failed fetch is
  fatal there;
- `sanitizeFilename` trims before it cuts at 200 characters
  (src/downloader.ts:212-213), so a space can end up last when the trimmed
  title is longer than 200 characters. Idempotence and "no trailing white
  space" are therefore proved only under that bound, and a lemma exhibits
  the failure above it.

## Model

| member | source | states |
|---|---|---|
| Sanitize.ReplaceIllegal | src/downloader.ts:210 | every character from `< > : " / \ ? *` and the vertical bar becomes `_`, every other character is kept, length unchanged, no illegal character remains |
| Sanitize.Collapse | src/downloader.ts:211 | after collapsing, every white-space character is a plain space, no two are adjacent, the non-space characters are exactly those of the input in order, a leading white-space run survives as one space, and no illegal character is introduced |
| Sanitize.CollapseSeparates | src/downloader.ts:211 | a white-space run of any length between two non-space characters becomes exactly one space, and the text on either side collapses on its own |
| Sanitize.CollapseAppend | src/downloader.ts:211 | collapsing works piecewise: a string ending in a non-space character collapses independently of what follows it |
| Sanitize.CollapseFixed | src/downloader.ts:211 | a string whose white space is already single plain spaces is left unchanged by collapsing |
| Sanitize.Trim | src/downloader.ts:212 | the trimmed string is a contiguous piece of the input with only white space before and after it and none at its own ends, so exactly the two edge runs are removed; it is the input itself when that has none |
| Sanitize.TrimKeepsNonSpace | src/downloader.ts:212 | trimming removes white space only |
| Sanitize.Truncate | src/downloader.ts:213 | the result is the prefix of length min(length, 200) |
| Sanitize.SanitizeFilename | src/downloader.ts:207-214 | the output is the first min(n, 200) characters of the replaced, collapsed and trimmed title of length n; it has no illegal character, only plain single spaces as white space, and no leading white space |
| Sanitize.SanitizeKeepsText | src/downloader.ts:209-213 | apart from white space the output is the title with illegal characters replaced: a prefix of it in general, all of it when the trimmed string fits in 200 characters |
| Sanitize.SanitizeIdempotent | src/downloader.ts:209-213 | when the trimmed string fits in 200 characters the output has no trailing white space and sanitising it again changes nothing |
| Sanitize.TrailingSpaceSurvivesTruncation | src/downloader.ts:212-213 | for any 199 ordinary characters followed by " b", the output ends in a space and a second pass changes it, so truncating after trimming breaks both promises above 200 characters |
| Numerals.Pad2 | src/downloader.ts:241-243 | `toString().padStart(2, "0")` yields digits that read back as the number, two of them below 100 and the plain numeral from 10 on |
| Naming.Extension | src/downloader.ts:42-46 | the extension is `m4a` exactly for audio only, `webm` exactly when not audio only and the format is `webm`, `mp4` otherwise; it holds no dot and no underscore |
| Naming.VideoFileNameRoundTrip | src/downloader.ts:47 | `<title>.<ext>` splits at its last dot back into the title and the extension |
| Naming.CollisionStamp | src/downloader.ts:53 | the stamp has the timestamp's length, turns each `:` and `.` into `-`, keeps every other character, and contains neither `:` nor `.` |
| Naming.CollisionFileName | src/downloader.ts:54 | the collision name starts with the title and `_` and always differs from `<title>.<ext>` |
| Naming.CollisionFileNameRoundTrip | src/downloader.ts:54 | the collision name splits back into `<title>_<stamp>` and the extension |
| Naming.OutputFileName | src/downloader.ts:51-61 | the plain name is used exactly when no file of that name exists, the collision name otherwise |
| Naming.TranscriptNameDistinct | src/downloader.ts:255 | `<title>_transcript.txt` differs from both the plain and the collision video name for every extension the downloader picks |
| FormatSelection.QualityTarget | src/downloader.ts:89-106 | `high`, `medium`, `low` map to `highestvideo`, `720p`, `480p` (each if and only if), and every other quality, `highest` included, to `highest` |
| FormatSelection.ContainerFilter | src/downloader.ts:112 | the filter is `videoandaudio` exactly when the format is `webm`, `mp4` otherwise |
| FormatSelection.SelectFormat | src/downloader.ts:80-119 | audio only makes the single query (`highestaudio`, `audioonly`); otherwise the tier/container query comes first and the unfiltered `highest` query is made exactly when it fails; the result is the answer to the last query |
| FormatSelection.SelectedFormatIsOffered | src/downloader.ts:108-119 | with a chooser that only returns listed formats, the selection is one of the offered formats and an empty list selects nothing |
| FormatSelection.VideoSelectionFallsBack | src/downloader.ts:114-119 | for a video download some format is selected whenever the unfiltered `highest` query finds one |
| FormatSelection.AudioSelectionHasNoFallback | src/downloader.ts:80-86 | an audio-only download selects nothing when the audio query fails, whatever else is offered |
| Transcript.Timestamp | src/downloader.ts:238-243 | the stamp splits at its colon into the padded minutes and seconds and reads back as the whole number of seconds of the offset |
| Transcript.TimestampFields | src/downloader.ts:238-243 | the stamp has exactly one colon (no hour field), a two-digit seconds field below 60 and an uncapped minutes field equal to the whole minutes |
| Transcript.RenderedNeverBlank | src/downloader.ts:248-251 | a non-empty caption list renders to text starting with `[`, so the blank-text check cannot fire |
| Transcript.RenderLinesRoundTrip | src/downloader.ts:236-246 | when no caption text holds a line break, the rendered text splits into exactly one `[MM:SS] text` line per entry, in input order |
| Transcript.RenderExample | src/downloader.ts:236-246 | 65000 ms with `hello` renders to exactly `[01:05] hello` |
| Downloader.DownloadTranscript | src/downloader.ts:216-284 | a failed fetch is an error exactly in transcript-only mode and a warning otherwise; an empty list writes nothing and is not an error; the blank outcome never occurs; a written file is `<title>_transcript.txt` holding the rendered entries |
| Downloader.VideoDownloadOutcome | src/downloader.ts:23-70 | a video download succeeds exactly when metadata, format selection and the transfer succeed, never fails because of captions, reports the selected format, and touches captions only when asked |
| Downloader.SavedFileName | src/downloader.ts:40-61 | the saved file starts with the sanitised title, carries the chosen extension, and is the plain name exactly when no file of that name existed |
| Downloader.TranscriptOnlyOutcome | src/downloader.ts:16-19 | transcript-only mode writes no video, succeeds exactly when the fetch succeeds, and treats an empty caption list as a normal return |
| Downloader.CaptionsNeverAffectVideo | src/downloader.ts:63-66 | success and the saved video file of a video download do not depend on the caption service |
| Duration.Decompose | src/index.ts:153-156 | minutes and seconds are below 60, hours·3600 + minutes·60 + seconds equals the input, and hours are positive exactly from 3600 on |
| Duration.DurationShape | src/index.ts:158-163 | the duration has two colons from one hour on and one below; below an hour its first field is the unpadded minutes; seconds (and minutes after hours) are two digits |
| Duration.DurationRoundTrip | src/index.ts:153-164 | reading the formatted duration back as a clock gives the original number of seconds |
| Duration.DurationExamples | src/index.ts:153-164 | 65 gives `1:05`, 3725 gives `1:02:05`, 0 gives `0:00` |
| VideoId.CheckVideoId | src/index.ts:36 | the check accepts exactly the strings of 11 characters from `[A-Za-z0-9_-]` |
| VideoId.VideoIdExamples | src/index.ts:98 | an ordinary id passes; 10 or 12 characters, or a character outside the class, fail |
| Cli.WithDefaults | src/index.ts:21-31 | given options are kept; absent ones default to `./downloads`, `mp4` and `highest` |
| Cli.ToDownloadOptions | src/index.ts:69-75 | the downloader gets the parsed output, format, quality and audio flag and the looked-up metadata, and never the transcript flags |
| Cli.ValidationFirst | src/index.ts:36-41 | both commands reject exactly the invalid ids, with status 1 and no step before; every run ends with status 0 or 1 |
| Cli.InfoFlagOnlyShows | src/index.ts:60-63 | with `--info` the default command looks up and shows the metadata and exits 0 without creating a directory or downloading: the same modelled steps as the `info` command |
| Cli.DownloadStepOutcome | src/index.ts:65-89 | a download runs only for a valid id with metadata, no `--info` and a created directory; the exit status is 0 exactly when it succeeds; no transcript is produced |
| Cli.CommandIgnoresCaptions | src/index.ts:69-75 | the default command's exit status never depends on the caption service, so the transcript branches are unreachable from the CLI |

## Left out

- `downloadWithProgress` (src/downloader.ts:122-205): stream piping, the clock and floating-point percent, speed and ETA are display only; the model keeps only whether the transfer succeeded (`Environment.transferOk`). Deleting the partial file on error is a file-system side effect and is not modelled.
- The retrieval library (`getInfo`, the stream) and the caption library: their results are inputs (`Environment.formats`, `Environment.captions`, `CliEnvironment.metadata`); `chooseFormat` is the `Chooser` parameter. Which format the library would pick for a given list is not modelled, so the two selection examples about one audio-only and one combined mp4 format are not stated.
- File-system calls (`existsSync`, `mkdir`, `writeFileSync`, `statSync`, `unlinkSync`): existence and directory creation are inputs; writing the transcript is assumed to succeed; `path.join` is not modelled, names are file names inside the output directory.
- The clock: the ISO-8601 timestamp is an input string (`Environment.now`).
- Console, spinner and colour output, `filesize`, `toLocaleString`, and the description preview of the `info` command (src/index.ts:119-123).
- `commander` parsing and `process.exit`: the model starts from parsed options and reports the exit status; the error-message substring test (src/downloader.ts:269) only chooses a message.
- `getVideoInfo` (src/index.ts:136-151) beyond `formatDuration`: the record is an input; `parseInt` of non-numeric text (NaN) and durations beyond exact double precision are not modelled, nor numerals in exponent notation.
- Transcript.Timestamp: offsets are natural numbers of milliseconds; fractional or negative offsets from the caption library are not modelled, nor a `null` caption list.
- Sanitize.SanitizeFilename: titles containing a character above U+FFFF (an emoji, say) are outside the model. A Dafny `char` cannot be a lone surrogate, while JavaScript's `.substring(0, 200)` counts such a character as two code units and may cut between them.
