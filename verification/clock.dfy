/** Reading a `M:SS`, `MM:SS` or `H:MM:SS` clock string back into a number of
    seconds: the inverse used to state the round trips of the duration and
    transcript time stamps. */
module Clock {
  import opened Wrappers
  import opened Text
  import opened Numerals

  /** A non-empty digit field. */
  predicate NumberField(f: string) {
    |f| >= 1 && AllDigits(f)
  }

  /** A two-digit field below 60 (minutes or seconds inside a larger unit). */
  predicate SexagesimalField(f: string) {
    |f| == 2 && AllDigits(f) && ParseDigits(f) < 60
  }

  /** Seconds denoted by `lead:SS` or `H:MM:SS`; `None` for anything else. */
  function ParseClock(s: string): Option<nat>
  {
    var f := Split(s, ':');
    if |f| == 2 && NumberField(f[0]) && SexagesimalField(f[1]) then
      Some(ParseDigits(f[0]) * 60 + ParseDigits(f[1]))
    else if |f| == 3 && NumberField(f[0]) && SexagesimalField(f[1]) && SexagesimalField(f[2]) then
      Some(ParseDigits(f[0]) * 3600 + ParseDigits(f[1]) * 60 + ParseDigits(f[2]))
    else None
  }
}
