/** `formatDuration` of src/index.ts: a video length in whole seconds shown as
    `H:MM:SS`, or `M:SS` when it is shorter than an hour. */
module Duration {
  import opened Wrappers
  import opened Text
  import opened Numerals
  import opened Clock

  datatype Parts = Parts(hours: nat, minutes: nat, seconds: nat)

  /** Hours, minutes within the hour and seconds within the minute, computed as
      the source does: `floor(s / 3600)`, `floor((s % 3600) / 60)`, `s % 60`. */
  function Decompose(total: nat): (p: Parts)
    ensures p.minutes < 60 && p.seconds < 60
    ensures p.hours * 3600 + p.minutes * 60 + p.seconds == total
    ensures p.hours > 0 <==> total >= 3600
  {
    var hours := total / 3600;
    var rest := total % 3600;
    var minutes := rest / 60;
    assert total == hours * 3600 + rest;
    assert rest == minutes * 60 + rest % 60;
    assert total == (hours * 60 + minutes) * 60 + rest % 60;
    RemainderUnique(total, hours * 60 + minutes, rest % 60);
    Parts(total / 3600, rest / 60, total % 60)
  }

  /** The remainder by 60 is the one digit below 60 of any such split. */
  lemma RemainderUnique(x: nat, q: nat, r: nat)
    requires x == q * 60 + r && r < 60
    ensures x % 60 == r
  {
  }

  function FormatDuration(total: nat): string
  {
    var p := Decompose(total);
    if p.hours > 0 then
      Decimal(p.hours) + ":" + Pad2(p.minutes) + ":" + Pad2(p.seconds)
    else
      Decimal(p.minutes) + ":" + Pad2(p.seconds)
  }

  /** The fields of a rendered duration, as `:`-separated parts. */
  lemma DurationFields(total: nat)
    ensures var p := Decompose(total);
      FormatDuration(total) ==
        if p.hours > 0 then Join([Decimal(p.hours), Pad2(p.minutes), Pad2(p.seconds)], ':')
        else Join([Decimal(p.minutes), Pad2(p.seconds)], ':')
  {
    var p := Decompose(total);
    if p.hours > 0 {
      var parts := [Decimal(p.hours), Pad2(p.minutes), Pad2(p.seconds)];
      assert parts[1..] == [Pad2(p.minutes), Pad2(p.seconds)];
      assert parts[1..][1..] == [Pad2(p.seconds)];
      assert Join(parts[1..], ':') == Pad2(p.minutes) + ":" + Pad2(p.seconds);
      assert Join(parts, ':') == Decimal(p.hours) + ":" + (Pad2(p.minutes) + ":" + Pad2(p.seconds));
    } else {
      var parts := [Decimal(p.minutes), Pad2(p.seconds)];
      assert parts[1..] == [Pad2(p.seconds)];
    }
  }

  /** The rendered duration has two colons from one hour on and one below;
      the seconds field is always two digits, as is the minutes field when an
      hour field precedes it. */
  lemma {:induction false} DurationShape(total: nat)
    ensures Count(FormatDuration(total), ':') == if total >= 3600 then 2 else 1
    ensures var f := Split(FormatDuration(total), ':');
      && (total >= 3600 ==> |f| == 3 && |f[1]| == 2 && |f[2]| == 2)
      && (total < 3600 ==> |f| == 2 && f[0] == Decimal(total / 60) && |f[1]| == 2)
  {
    var p := Decompose(total);
    DurationFields(total);
    var parts := if p.hours > 0 then [Decimal(p.hours), Pad2(p.minutes), Pad2(p.seconds)]
                 else [Decimal(p.minutes), Pad2(p.seconds)];
    forall i | 0 <= i < |parts|
      ensures ':' !in parts[i]
    {
      DigitsExclude(parts[i], ':');
    }
    CountJoinSeparators(parts, ':');
    SplitJoin(parts, ':');
  }

  /** `H:MM:SS` with a sub-60 minutes and seconds field reads back. */
  lemma ReadHours(h: nat, m: nat, sec: nat)
    requires m < 60 && sec < 60
    ensures ParseClock(Join([Decimal(h), Pad2(m), Pad2(sec)], ':')) == Some(h * 3600 + m * 60 + sec)
  {
    var parts := [Decimal(h), Pad2(m), Pad2(sec)];
    DigitsExclude(parts[0], ':');
    DigitsExclude(parts[1], ':');
    DigitsExclude(parts[2], ':');
    SplitJoin(parts, ':');
    ParseDecimal(h);
  }

  /** `M:SS` with a sub-60 seconds field reads back. */
  lemma ReadMinutes(m: nat, sec: nat)
    requires sec < 60
    ensures ParseClock(Join([Decimal(m), Pad2(sec)], ':')) == Some(m * 60 + sec)
  {
    var parts := [Decimal(m), Pad2(sec)];
    DigitsExclude(parts[0], ':');
    DigitsExclude(parts[1], ':');
    SplitJoin(parts, ':');
    ParseDecimal(m);
  }

  /** Reading the rendered duration back as a clock gives the original number
      of seconds. */
  lemma {:induction false} DurationRoundTrip(total: nat)
    ensures ParseClock(FormatDuration(total)) == Some(total)
  {
    var p := Decompose(total);
    DurationFields(total);
    if p.hours > 0 {
      ReadHours(p.hours, p.minutes, p.seconds);
    } else {
      ReadMinutes(p.minutes, p.seconds);
    }
  }

  /** Worked values: 65 s is "1:05", 3725 s is "1:02:05", 0 s is "0:00". */
  lemma DurationExamples()
    ensures FormatDuration(65) == "1:05"
    ensures FormatDuration(3725) == "1:02:05"
    ensures FormatDuration(0) == "0:00"
  {
    assert Decompose(65) == Parts(0, 1, 5);
    assert Decimal(1) == "1";
    assert Pad2(5) == "05";
    assert Decompose(3725) == Parts(1, 2, 5);
    assert Pad2(2) == "02";
    assert Decompose(0) == Parts(0, 0, 0);
    assert Decimal(0) == "0";
    assert Pad2(0) == "00";
  }
}
