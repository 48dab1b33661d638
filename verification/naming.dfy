/** Output file names chosen by `downloadVideo` and `downloadTranscript` in
    src/downloader.ts: the extension, `<title>.<ext>`, the collision name
    `<title>_<stamp>.<ext>` and `<title>_transcript.txt`. The title passed in
    is the already sanitised one. */
module Naming {
  import opened Text

  /** `m4a` for audio only, else `webm` when that format was asked for, else `mp4`. */
  function Extension(audioOnly: bool, format: string): (ext: string)
    ensures ext == "m4a" <==> audioOnly
    ensures ext == "webm" <==> !audioOnly && format == "webm"
    ensures ext == "mp4" <==> !audioOnly && format != "webm"
    ensures '.' !in ext && '_' !in ext
  {
    if audioOnly then "m4a" else if format == "webm" then "webm" else "mp4"
  }

  function VideoFileName(title: string, ext: string): string
  {
    title + "." + ext
  }

  /** Index of the last `c` in `s`, or -1 when there is none. */
  function LastIndexOf(s: string, c: char): (k: int)
    ensures -1 <= k < |s|
    ensures k >= 0 ==> s[k] == c
    ensures forall j :: k < j < |s| ==> s[j] != c
  {
    if |s| == 0 then -1
    else if s[|s| - 1] == c then |s| - 1
    else LastIndexOf(s[..|s| - 1], c)
  }

  /** Splits a file name at its last dot into stem and extension; a name
      without a dot has an empty extension. */
  function SplitExtension(name: string): (string, string)
  {
    var k := LastIndexOf(name, '.');
    if k < 0 then (name, "") else (name[..k], name[k + 1..])
  }

  /** A stem followed by a dot and a dot-free extension splits back into the two. */
  lemma SplitExtensionOf(stem: string, ext: string)
    requires '.' !in ext
    ensures SplitExtension(stem + "." + ext) == (stem, ext)
  {
    var name := stem + "." + ext;
    var k := LastIndexOf(name, '.');
    assert name[|stem|] == '.';
    assert forall j :: |stem| < j < |name| ==> name[j] == ext[j - |stem| - 1];
    assert k == |stem|;
    assert name[..k] == stem;
    assert name[k + 1..] == ext;
  }

  /** The plain video name splits back into the title and the extension. */
  lemma VideoFileNameRoundTrip(title: string, ext: string)
    requires '.' !in ext
    ensures SplitExtension(VideoFileName(title, ext)) == (title, ext)
  {
    SplitExtensionOf(title, ext);
  }

  function StampChar(c: char): char {
    if c == ':' || c == '.' then '-' else c
  }

  /** `toISOString().replace(/[:.]/g, "-")`: the same length, every `:` and
      `.` turned into `-`, everything else kept. */
  function CollisionStamp(iso: string): (stamp: string)
    ensures |stamp| == |iso|
    ensures ':' !in stamp && '.' !in stamp
    ensures forall i :: 0 <= i < |iso| ==>
      stamp[i] == (if iso[i] == ':' || iso[i] == '.' then '-' else iso[i])
  {
    MapChars(iso, StampChar)
  }

  /** Name used when `<title>.<ext>` already exists: it starts with the title
      and an underscore, keeps the extension, and is never the plain name. */
  function CollisionFileName(title: string, iso: string, ext: string): (name: string)
    ensures title + "_" <= name
    ensures name != VideoFileName(title, ext)
  {
    var stem := title + "_" + CollisionStamp(iso);
    assert |stem + "." + ext| > |VideoFileName(title, ext)|;
    stem + "." + ext
  }

  /** The collision name splits back into `<title>_<stamp>` and the
      extension: the stamp contributes no dot. */
  lemma CollisionFileNameRoundTrip(title: string, iso: string, ext: string)
    requires '.' !in ext
    ensures SplitExtension(CollisionFileName(title, iso, ext)) == (title + "_" + CollisionStamp(iso), ext)
  {
    SplitExtensionOf(title + "_" + CollisionStamp(iso), ext);
  }

  /** The name actually written: the plain one unless a file of that name
      already exists in the output directory. */
  function OutputFileName(title: string, ext: string, taken: bool, iso: string): (name: string)
    ensures !taken <==> name == VideoFileName(title, ext)
    ensures taken ==> name == CollisionFileName(title, iso, ext)
  {
    if taken then CollisionFileName(title, iso, ext) else VideoFileName(title, ext)
  }

  /** Whichever name is written, it starts with the title and splits back to
      the requested extension. */
  lemma OutputFileNameSplits(title: string, ext: string, taken: bool, iso: string)
    requires '.' !in ext
    ensures var name := OutputFileName(title, ext, taken, iso);
      && title <= name
      && SplitExtension(name).1 == ext
  {
    if taken {
      CollisionFileNameRoundTrip(title, iso, ext);
      assert title <= title + "_";
    } else {
      VideoFileNameRoundTrip(title, ext);
    }
  }

  function TranscriptFileName(title: string): string
  {
    title + "_transcript.txt"
  }

  /** The transcript never overwrites the video file written beside it: for
      each of the three extensions the names differ in their last character. */
  lemma TranscriptNameDistinct(title: string, iso: string, audioOnly: bool, format: string)
    ensures var ext := Extension(audioOnly, format);
      && TranscriptFileName(title) != VideoFileName(title, ext)
      && TranscriptFileName(title) != CollisionFileName(title, iso, ext)
  {
    var ext := Extension(audioOnly, format);
    var t := TranscriptFileName(title);
    var v := VideoFileName(title, ext);
    var c := CollisionFileName(title, iso, ext);
    assert t[|t| - 1] == 't';
    assert v[|v| - 1] == ext[|ext| - 1] != 't';
    assert c == title + "_" + CollisionStamp(iso) + "." + ext;
    assert c[|c| - 1] == ext[|ext| - 1];
  }
}
