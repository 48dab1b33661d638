/** The rendering step of `downloadTranscript` in src/downloader.ts: each
    caption entry becomes `[MM:SS] text`, and the lines are joined by `\n`.
    Minutes are not capped and there is no hour field. */
module Transcript {
  import opened Wrappers
  import opened Text
  import opened Numerals
  import opened Clock
  import opened Sanitize

  /** A caption entry: start offset in milliseconds and its text. */
  datatype Entry = Entry(offsetMs: nat, text: string)

  /** `MM:SS` for an offset: whole seconds, then minutes and seconds within
      the minute, each padded to at least two digits. */
  function Timestamp(offsetMs: nat): (r: string)
    ensures Split(r, ':') == [Pad2(offsetMs / 1000 / 60), Pad2(offsetMs / 1000 % 60)]
    ensures ParseClock(r) == Some(offsetMs / 1000)
  {
    var seconds := offsetMs / 1000;
    var mm := Pad2(seconds / 60);
    var ss := Pad2(seconds % 60);
    DigitsExclude(mm, ':');
    DigitsExclude(ss, ':');
    assert Join([mm, ss], ':') == mm + ":" + ss by {
      assert [mm, ss][1..] == [ss];
    }
    SplitJoin([mm, ss], ':');
    mm + ":" + ss
  }

  /** The stamp has exactly one colon, its seconds field is two digits
      below 60, and its minutes field is the whole number of minutes,
      however large. */
  lemma {:induction false} TimestampFields(offsetMs: nat)
    ensures Count(Timestamp(offsetMs), ':') == 1
    ensures var f := Split(Timestamp(offsetMs), ':');
      && |f| == 2
      && SexagesimalField(f[1])
      && ParseDigits(f[0]) == offsetMs / 1000 / 60
  {
    var seconds := offsetMs / 1000;
    var mm := Pad2(seconds / 60);
    var ss := Pad2(seconds % 60);
    DigitsExclude(mm, ':');
    DigitsExclude(ss, ':');
    assert Timestamp(offsetMs) == Join([mm, ss], ':') by {
      assert [mm, ss][1..] == [ss];
    }
    CountJoinSeparators([mm, ss], ':');
  }

  function RenderLine(e: Entry): string
  {
    "[" + Timestamp(e.offsetMs) + "] " + e.text
  }

  function Lines(entries: seq<Entry>): (lines: seq<string>)
    ensures |lines| == |entries|
    ensures forall i :: 0 <= i < |entries| ==> lines[i] == RenderLine(entries[i])
  {
    seq(|entries|, i requires 0 <= i < |entries| => RenderLine(entries[i]))
  }

  /** `transcriptArray.map(...).join("\n")`. */
  function Render(entries: seq<Entry>): string
  {
    Join(Lines(entries), '\n')
  }

  /** `transcript.trim().length === 0`. */
  predicate IsBlank(s: string) {
    AllSpace(s)
  }

  lemma JoinStartsWithFirst(parts: seq<string>, sep: char)
    requires |parts| >= 1 && |parts[0]| >= 1
    ensures |Join(parts, sep)| >= 1 && Join(parts, sep)[0] == parts[0][0]
  {
  }

  /** A non-empty transcript starts with `[`, so the emptiness check made
      after rendering can never fire. */
  lemma RenderedNeverBlank(entries: seq<Entry>)
    requires |entries| > 0
    ensures |Render(entries)| > 0 && Render(entries)[0] == '['
    ensures !IsBlank(Render(entries))
  {
    JoinStartsWithFirst(Lines(entries), '\n');
  }

  /** When no caption text holds a line break, the rendered transcript has
      exactly one line per entry, in input order. */
  lemma {:induction false} RenderLinesRoundTrip(entries: seq<Entry>)
    requires |entries| > 0
    requires forall i :: 0 <= i < |entries| ==> '\n' !in entries[i].text
    ensures Split(Render(entries), '\n') == Lines(entries)
  {
    var lines := Lines(entries);
    forall i | 0 <= i < |lines|
      ensures '\n' !in lines[i]
    {
      LineHasNoNewline(entries[i]);
    }
    SplitJoin(lines, '\n');
  }

  lemma LineHasNoNewline(e: Entry)
    requires '\n' !in e.text
    ensures '\n' !in RenderLine(e)
  {
    var seconds := e.offsetMs / 1000;
    var mm := Pad2(seconds / 60);
    var ss := Pad2(seconds % 60);
    DigitsExclude(mm, '\n');
    DigitsExclude(ss, '\n');
    assert Timestamp(e.offsetMs) == mm + ":" + ss;
  }

  /** Worked value: 65000 ms and `hello` render as `[01:05] hello`. */
  lemma RenderExample()
    ensures Render([Entry(65000, "hello")]) == "[01:05] hello"
  {
    assert Decimal(1) == "1";
    assert Decimal(5) == "5";
    assert Pad2(1) == "01";
    assert Pad2(5) == "05";
    assert Timestamp(65000) == "01:05";
    assert RenderLine(Entry(65000, "hello")) == "[01:05] hello";
    var lines := Lines([Entry(65000, "hello")]);
    assert lines[0] == "[01:05] hello";
    assert lines == ["[01:05] hello"];
  }
}
