/** `sanitizeFilename` of src/downloader.ts: replace the characters
    `<>:"/\|?*` by `_`, collapse every whitespace run to one space, trim,
    then keep at most the first 200 characters. */
module Sanitize {
  import opened Text

  const MaxNameLength: nat := 200

  /** The class `[<>:"/\\|?*]`. */
  predicate IsIllegal(c: char) {
    c == '<' || c == '>' || c == ':' || c == '"' || c == '/' || c == '\\' ||
    c == '|' || c == '?' || c == '*'
  }

  /** ECMAScript WhiteSpace and LineTerminator code units: what both the
      regular-expression class `\s` and `String.prototype.trim` treat as
      white space. */
  predicate IsSpace(c: char) {
    c == '\t' || c == '\n' || c == '\U{000B}' || c == '\U{000C}' || c == '\r' ||
    c == ' ' || c == '\U{00A0}' || c == '\U{1680}' || ('\U{2000}' <= c <= '\U{200A}') ||
    c == '\U{2028}' || c == '\U{2029}' || c == '\U{202F}' || c == '\U{205F}' ||
    c == '\U{3000}' || c == '\U{FEFF}'
  }

  predicate NoIllegal(s: string) {
    forall i :: 0 <= i < |s| ==> !IsIllegal(s[i])
  }

  /** Every white-space character is a plain space. */
  predicate SpacesNormalized(s: string) {
    forall i :: 0 <= i < |s| && IsSpace(s[i]) ==> s[i] == ' '
  }

  predicate NoAdjacentSpaces(s: string) {
    forall i :: 0 <= i < |s| - 1 ==> !(IsSpace(s[i]) && IsSpace(s[i + 1]))
  }

  predicate AllSpace(s: string) {
    forall i :: 0 <= i < |s| ==> IsSpace(s[i])
  }

  /** Neither the first nor the last character is white space. */
  predicate NoEdgeSpace(s: string) {
    |s| == 0 || (!IsSpace(s[0]) && !IsSpace(s[|s| - 1]))
  }

  /** The characters of `s` that are not white space, in order. */
  function NonSpace(s: string): string
  {
    if |s| == 0 then [] else (if IsSpace(s[0]) then [] else [s[0]]) + NonSpace(s[1..])
  }

  lemma {:induction false} NonSpaceAppend(a: string, b: string)
    ensures NonSpace(a + b) == NonSpace(a) + NonSpace(b)
  {
    if |a| > 0 {
      assert (a + b)[1..] == a[1..] + b;
      NonSpaceAppend(a[1..], b);
    } else {
      assert a + b == b;
    }
  }

  lemma {:induction false} NonSpaceOfSpaces(s: string)
    requires AllSpace(s)
    ensures NonSpace(s) == []
  {
    if |s| > 0 {
      NonSpaceOfSpaces(s[1..]);
    }
  }

  lemma NonSpacePrefix(r: string, u: string)
    requires r <= u
    ensures NonSpace(r) <= NonSpace(u)
  {
    assert u == r + u[|r|..];
    NonSpaceAppend(r, u[|r|..]);
  }

  function ReplaceChar(c: char): char {
    if IsIllegal(c) then '_' else c
  }

  /** Step one: `.replace(/[<>:"/\\|?*]/g, "_")`. */
  function ReplaceIllegal(s: string): (r: string)
    ensures |r| == |s|
    ensures NoIllegal(r)
    ensures forall i :: 0 <= i < |s| ==> r[i] == (if IsIllegal(s[i]) then '_' else s[i])
    ensures forall i :: 0 <= i < |s| ==> (IsSpace(r[i]) <==> IsSpace(s[i]))
  {
    MapChars(s, ReplaceChar)
  }

  /** Length of the white-space run that starts `s`. */
  function LeadingSpaces(s: string): (n: nat)
    ensures n <= |s|
    ensures forall i :: 0 <= i < n ==> IsSpace(s[i])
    ensures n < |s| ==> !IsSpace(s[n])
  {
    if |s| == 0 || !IsSpace(s[0]) then 0
    else 1 + LeadingSpaces(s[1..])
  }

  /** Length of the white-space run that ends `s`. */
  function TrailingSpaces(s: string): (n: nat)
    ensures n <= |s|
    ensures forall i :: |s| - n <= i < |s| ==> IsSpace(s[i])
    ensures n < |s| ==> !IsSpace(s[|s| - n - 1])
  {
    if |s| == 0 || !IsSpace(s[|s| - 1]) then 0
    else 1 + TrailingSpaces(s[..|s| - 1])
  }


  /** Putting one character in front keeps a string collapsed, provided it
      is a plain space or no white space, and no space meets a space. */
  lemma ConsCollapsed(c: char, rest: string)
    requires SpacesNormalized(rest) && NoAdjacentSpaces(rest)
    requires c == ' ' || !IsSpace(c)
    requires IsSpace(c) && |rest| > 0 ==> !IsSpace(rest[0])
    ensures SpacesNormalized([c] + rest) && NoAdjacentSpaces([c] + rest)
  {
    var r := [c] + rest;
    assert forall i :: 1 <= i < |r| ==> r[i] == rest[i - 1];
  }

  /** Step two: `.replace(/\s+/g, " ")`. */
  function Collapse(s: string): (r: string)
    ensures SpacesNormalized(r)
    ensures NoAdjacentSpaces(r)
    ensures |r| <= |s|
    ensures |r| == 0 <==> |s| == 0
    ensures |r| > 0 ==> (IsSpace(r[0]) <==> IsSpace(s[0]))
    decreases |s|
  {
    if |s| == 0 then []
    else if IsSpace(s[0]) then
      var n := LeadingSpaces(s);
      var rest := Collapse(s[n..]);
      ConsCollapsed(' ', rest);
      [' '] + rest
    else
      var rest := Collapse(s[1..]);
      ConsCollapsed(s[0], rest);
      [s[0]] + rest
  }

  lemma NonSpaceCons(c: char, rest: string)
    ensures NonSpace([c] + rest) == (if IsSpace(c) then [] else [c]) + NonSpace(rest)
  {
    assert ([c] + rest)[1..] == rest;
  }

  /** Collapsing changes white space only. */
  lemma {:induction false} CollapseKeepsNonSpace(s: string)
    ensures NonSpace(Collapse(s)) == NonSpace(s)
    decreases |s|
  {
    if |s| > 0 {
      if IsSpace(s[0]) {
        var n := LeadingSpaces(s);
        CollapseKeepsNonSpace(s[n..]);
        assert s == s[..n] + s[n..];
        NonSpaceAppend(s[..n], s[n..]);
        NonSpaceOfSpaces(s[..n]);
        NonSpaceCons(' ', Collapse(s[n..]));
      } else {
        CollapseKeepsNonSpace(s[1..]);
        NonSpaceCons(s[0], Collapse(s[1..]));
      }
    }
  }

  /** Collapsing introduces no illegal character. */
  lemma {:induction false} CollapseKeepsLegal(s: string)
    requires NoIllegal(s)
    ensures NoIllegal(Collapse(s))
    decreases |s|
  {
    if |s| > 0 {
      if IsSpace(s[0]) {
        var n := LeadingSpaces(s);
        SliceKeeps(s, n, |s|);
        CollapseKeepsLegal(s[n..]);
        ConsLegal(' ', Collapse(s[n..]));
      } else {
        SliceKeeps(s, 1, |s|);
        CollapseKeepsLegal(s[1..]);
        ConsLegal(s[0], Collapse(s[1..]));
      }
    }
  }

  lemma ConsLegal(c: char, rest: string)
    requires !IsIllegal(c) && NoIllegal(rest)
    ensures NoIllegal([c] + rest)
  {
    var r := [c] + rest;
    assert forall i :: 1 <= i < |r| ==> r[i] == rest[i - 1];
  }


  /** `LeadingSpaces` is determined by its contract. */
  lemma {:induction false} LeadingSpacesIs(s: string, m: nat)
    requires m <= |s|
    requires forall i :: 0 <= i < m ==> IsSpace(s[i])
    requires m < |s| ==> !IsSpace(s[m])
    ensures LeadingSpaces(s) == m
  {
    if m > 0 {
      LeadingSpacesIs(s[1..], m - 1);
    }
  }

  /** The leading white-space run of `x + y` lies inside `x` when `x` ends in
      a non-space character. */
  lemma LeadingRunOfAppend(x: string, y: string)
    requires |x| > 0 && !IsSpace(x[|x| - 1])
    ensures LeadingSpaces(x) < |x|
    ensures LeadingSpaces(x + y) == LeadingSpaces(x)
    ensures (x + y)[LeadingSpaces(x)..] == x[LeadingSpaces(x)..] + y
  {
    var s := x + y;
    var m := LeadingSpaces(x);
    assert forall i :: 0 <= i <= m ==> s[i] == x[i];
    LeadingSpacesIs(s, m);
  }

  /** A string ending in a non-space character collapses independently of
      what follows it. */
  lemma {:induction false} CollapseAppend(x: string, y: string)
    requires |x| > 0 && !IsSpace(x[|x| - 1])
    ensures Collapse(x + y) == Collapse(x) + Collapse(y)
    decreases |x|, 1
  {
    if IsSpace(x[0]) {
      CollapseAppendRun(x, y);
    } else if |x| == 1 {
      assert (x + y)[1..] == y;
    } else {
      assert (x + y)[1..] == x[1..] + y;
      CollapseAppend(x[1..], y);
    }
  }

  /** The case of `CollapseAppend` where `x` opens with a white-space run. */
  lemma {:induction false} CollapseAppendRun(x: string, y: string)
    requires |x| > 0 && !IsSpace(x[|x| - 1]) && IsSpace(x[0])
    ensures Collapse(x + y) == Collapse(x) + Collapse(y)
    decreases |x|, 0
  {
    var s := x + y;
    var m := LeadingSpaces(x);
    LeadingRunOfAppend(x, y);
    assert 0 < m;
    assert x[m..][|x| - m - 1] == x[|x| - 1];
    CollapseAppend(x[m..], y);
    assert s[0] == x[0];
    CollapseOfRun(s);
    CollapseOfRun(x);
  }

  /** A string opening with white space collapses to one space followed by
      the collapsed remainder after the run. */
  lemma CollapseOfRun(s: string)
    requires |s| > 0 && IsSpace(s[0])
    ensures Collapse(s) == [' '] + Collapse(s[LeadingSpaces(s)..])
  {
  }

  /** A white-space run followed by a non-space character becomes one space. */
  lemma CollapseLeadingRun(w: string, b: string)
    requires |w| > 0 && AllSpace(w)
    requires |b| > 0 && !IsSpace(b[0])
    ensures Collapse(w + b) == " " + Collapse(b)
  {
    var s := w + b;
    LeadingSpacesIs(s, |w|);
    assert s[|w|..] == b;
  }

  /** The run of white space between two words becomes exactly one space: the
      word boundary is kept and nothing else around it changes. */
  lemma CollapseSeparates(a: string, w: string, b: string)
    requires |a| > 0 && !IsSpace(a[|a| - 1])
    requires |w| > 0 && AllSpace(w)
    requires |b| > 0 && !IsSpace(b[0])
    ensures Collapse(a + w + b) == Collapse(a) + " " + Collapse(b)
  {
    var wb := w + b;
    assert a + w + b == a + wb;
    CollapseAppend(a, wb);
    CollapseLeadingRun(w, b);
    assert Collapse(a) + (" " + Collapse(b)) == Collapse(a) + " " + Collapse(b);
  }

  /** Both of the above. */
  lemma CollapseKeepsText(s: string)
    ensures NonSpace(Collapse(s)) == NonSpace(s)
    ensures NoIllegal(s) ==> NoIllegal(Collapse(s))
  {
    CollapseKeepsNonSpace(s);
    if NoIllegal(s) {
      CollapseKeepsLegal(s);
    }
  }

  /** A string already in collapsed form is left alone. */
  lemma {:induction false} CollapseFixed(s: string)
    requires SpacesNormalized(s) && NoAdjacentSpaces(s)
    ensures Collapse(s) == s
  {
    if |s| > 0 {
      if IsSpace(s[0]) {
        assert LeadingSpaces(s) == 1;
      }
      CollapseFixed(s[1..]);
    }
  }

  /** `String.prototype.trimStart`. */
  function TrimStart(s: string): (r: string)
    ensures |r| <= |s| && r == s[|s| - |r|..]
    ensures AllSpace(s[..|s| - |r|])
    ensures |r| == 0 || !IsSpace(r[0])
  {
    var n := LeadingSpaces(s);
    assert forall i :: 0 <= i < n ==> s[..n][i] == s[i];
    s[n..]
  }

  /** `String.prototype.trimEnd`. */
  function TrimEnd(s: string): (r: string)
    ensures |r| <= |s| && r == s[..|r|]
    ensures AllSpace(s[|r|..])
    ensures |r| == 0 || !IsSpace(r[|r| - 1])
  {
    var k := |s| - TrailingSpaces(s);
    assert forall i :: 0 <= i < |s| - k ==> s[k..][i] == s[k + i];
    s[..k]
  }

  /** The three character-class properties carry over to any slice. */
  lemma SliceKeeps(s: string, i: nat, j: nat)
    requires i <= j <= |s|
    ensures SpacesNormalized(s) ==> SpacesNormalized(s[i..j])
    ensures NoAdjacentSpaces(s) ==> NoAdjacentSpaces(s[i..j])
    ensures NoIllegal(s) ==> NoIllegal(s[i..j])
  {
    var t := s[i..j];
    assert forall k :: 0 <= k < |t| ==> t[k] == s[i + k];
  }

  /** Step three: `.trim()`. The result is the middle of `s` once a white-space
      run is cut from each end. */
  function Trim(s: string): (r: string)
    ensures NoEdgeSpace(r)
    ensures |r| <= |s|
    ensures exists i ::
              0 <= i <= |s| - |r| && r == s[i..i + |r|] &&
              AllSpace(s[..i]) && AllSpace(s[i + |r|..])
    ensures NoEdgeSpace(s) ==> r == s
  {
    var t := TrimStart(s);
    var i := |s| - |t|;
    var r := TrimEnd(t);
    TrimSlice(s);
    TrimOfTrimmed(s);
    assert r == s[i..i + |r|] && AllSpace(s[..i]) && AllSpace(s[i + |r|..]);
    r
  }

  /** What `TrimEnd` leaves of what `TrimStart` leaves is a slice of `s` with
      white space only on either side. */
  lemma TrimSlice(s: string)
    ensures var t := TrimStart(s);
      var i := |s| - |t|;
      var r := TrimEnd(t);
      && i + |r| <= |s|
      && r == s[i..i + |r|]
      && AllSpace(s[..i])
      && AllSpace(s[i + |r|..])
  {
    var t := TrimStart(s);
    var i := |s| - |t|;
    var r := TrimEnd(t);
    assert s[i + |r|..] == t[|r|..];
  }

  /** Nothing is cut from a string without white space at its ends. */
  lemma TrimOfTrimmed(s: string)
    ensures NoEdgeSpace(s) ==> TrimEnd(TrimStart(s)) == s
  {
    if NoEdgeSpace(s) && |s| > 0 {
      assert LeadingSpaces(s) == 0;
      assert TrailingSpaces(s) == 0;
    }
  }

  /** Trimming keeps the character-class properties: the result is a slice. */
  lemma TrimKeeps(s: string)
    ensures SpacesNormalized(s) ==> SpacesNormalized(Trim(s))
    ensures NoAdjacentSpaces(s) ==> NoAdjacentSpaces(Trim(s))
    ensures NoIllegal(s) ==> NoIllegal(Trim(s))
  {
    var t := TrimStart(s);
    var k := |s| - |t|;
    var r := TrimEnd(t);
    assert r == s[k..k + |r|];
    SliceKeeps(s, k, k + |r|);
  }

  lemma {:induction false} TrimStartKeepsNonSpace(s: string)
    ensures NonSpace(TrimStart(s)) == NonSpace(s)
  {
    var t := TrimStart(s);
    var k := |s| - |t|;
    assert s == s[..k] + t;
    NonSpaceAppend(s[..k], t);
    NonSpaceOfSpaces(s[..k]);
  }

  lemma {:induction false} TrimEndKeepsNonSpace(s: string)
    ensures NonSpace(TrimEnd(s)) == NonSpace(s)
  {
    var r := TrimEnd(s);
    assert s == r + s[|r|..];
    NonSpaceAppend(r, s[|r|..]);
    NonSpaceOfSpaces(s[|r|..]);
  }

  /** Trimming removes white space only. */
  lemma TrimKeepsNonSpace(s: string)
    ensures NonSpace(Trim(s)) == NonSpace(s)
  {
    TrimStartKeepsNonSpace(s);
    TrimEndKeepsNonSpace(TrimStart(s));
  }

  /** Step four: `.substring(0, 200)`. */
  function Truncate(s: string): (r: string)
    ensures |r| == if |s| <= MaxNameLength then |s| else MaxNameLength
    ensures r == s[..|r|]
  {
    if |s| <= MaxNameLength then s else s[..MaxNameLength]
  }

  /** The trimmed string before truncation. */
  function Untruncated(title: string): string
  {
    Trim(Collapse(ReplaceIllegal(title)))
  }

  function SanitizeFilename(title: string): (r: string)
    ensures |r| <= MaxNameLength
    ensures NoIllegal(r)
    ensures SpacesNormalized(r) && NoAdjacentSpaces(r)
    ensures |r| == 0 || !IsSpace(r[0])
    ensures r <= Untruncated(title)
    ensures |Untruncated(title)| <= MaxNameLength ==> r == Untruncated(title)
    ensures |Untruncated(title)| > MaxNameLength ==> |r| == MaxNameLength
  {
    var c := Collapse(ReplaceIllegal(title));
    CollapseKeepsText(ReplaceIllegal(title));
    var t := Trim(c);
    TrimKeeps(c);
    assert t == Untruncated(title);
    var r := Truncate(t);
    SliceKeeps(t, 0, |r|);
    r
  }

  /** Apart from white space, the output is the input with every illegal
      character turned into `_`: all of it when the trimmed string fits in 200
      characters, a prefix of it otherwise. */
  lemma SanitizeKeepsText(title: string)
    ensures NonSpace(SanitizeFilename(title)) <= NonSpace(ReplaceIllegal(title))
    ensures |Untruncated(title)| <= MaxNameLength ==>
      NonSpace(SanitizeFilename(title)) == NonSpace(ReplaceIllegal(title))
  {
    var a := ReplaceIllegal(title);
    var c := Collapse(a);
    CollapseKeepsText(a);
    TrimKeepsNonSpace(c);
    var u := Untruncated(title);
    var r := SanitizeFilename(title);
    NonSpacePrefix(r, u);
    if |u| <= MaxNameLength {
      assert r == u;
    }
  }



  /** When the trimmed string fits, the result has no white space at either
      end and sanitising it again changes nothing. */
  lemma SanitizeIdempotent(title: string)
    requires |Untruncated(title)| <= MaxNameLength
    ensures NoEdgeSpace(SanitizeFilename(title))
    ensures SanitizeFilename(SanitizeFilename(title)) == SanitizeFilename(title)
  {
    var r := SanitizeFilename(title);
    assert r == Untruncated(title);
    assert ReplaceIllegal(r) == r;
    CollapseFixed(r);
  }

  /** A string with no illegal character and single plain spaces is only
      trimmed and truncated. */
  lemma SanitizeOfClean(s: string)
    requires NoIllegal(s) && SpacesNormalized(s) && NoAdjacentSpaces(s)
    ensures SanitizeFilename(s) == Truncate(Trim(s))
  {
    assert ReplaceIllegal(s) == s;
    CollapseFixed(s);
  }

  /** Without that bound the promise fails: 199 ordinary characters, a space
      and one more character come out as the 199 characters plus a trailing
      space, and a second pass trims that space away. */
  lemma TrailingSpaceSurvivesTruncation(w: string)
    requires |w| == MaxNameLength - 1
    requires forall i :: 0 <= i < |w| ==> !IsSpace(w[i]) && !IsIllegal(w[i])
    ensures var r := SanitizeFilename(w + " b");
      && r == w + " "
      && SanitizeFilename(r) == w
      && SanitizeFilename(r) != r
  {
    CutAfterSpace(w);
    SecondPassTrims(w);
  }

  /** First pass: the 201-character input is clean and fully trimmed, so the
      cut at 200 keeps the space and drops the final character. */
  lemma CutAfterSpace(w: string)
    requires |w| == MaxNameLength - 1
    requires forall i :: 0 <= i < |w| ==> !IsSpace(w[i]) && !IsIllegal(w[i])
    ensures SanitizeFilename(w + " b") == w + " "
  {
    var s := w + " b";
    assert s == w + " " + ['b'];
    WordThenSpaceClean(w, 'b');
    SanitizeOfTrimmed(s);
    assert s[..MaxNameLength] == w + " " by {
      assert forall i :: 0 <= i < |w| ==> s[i] == w[i];
    }
  }

  /** A clean string without white space at its ends is only truncated. */
  lemma SanitizeOfTrimmed(s: string)
    requires NoIllegal(s) && SpacesNormalized(s) && NoAdjacentSpaces(s) && NoEdgeSpace(s)
    ensures SanitizeFilename(s) == Truncate(s)
  {
    SanitizeOfClean(s);
  }

  /** Second pass: `w + " "` is clean, and trimming removes its final space. */
  lemma SecondPassTrims(w: string)
    requires |w| == MaxNameLength - 1
    requires forall i :: 0 <= i < |w| ==> !IsSpace(w[i]) && !IsIllegal(w[i])
    ensures SanitizeFilename(w + " ") == w
  {
    var r := w + " ";
    assert forall i :: 0 <= i < |w| ==> r[i] == w[i];
    assert NoIllegal(r) && SpacesNormalized(r) && NoAdjacentSpaces(r);
    SanitizeOfClean(r);
    TrimDropsFinalSpace(w);
  }

  /** `w + " " + [c]` is clean and has no white space at its ends when `w` is a
      non-empty run of ordinary characters and `c` is one. */
  lemma WordThenSpaceClean(w: string, c: char)
    requires |w| > 0
    requires forall i :: 0 <= i < |w| ==> !IsSpace(w[i]) && !IsIllegal(w[i])
    requires !IsSpace(c) && !IsIllegal(c)
    ensures var s := w + " " + [c];
      NoIllegal(s) && SpacesNormalized(s) && NoAdjacentSpaces(s) && NoEdgeSpace(s)
  {
    var s := w + " " + [c];
    assert forall i :: 0 <= i < |w| ==> s[i] == w[i];
    assert s[|w|] == ' ' && s[|w| + 1] == c;
  }

  /** Trimming `w + " "` removes exactly the final space. */
  lemma TrimDropsFinalSpace(w: string)
    requires |w| > 0
    requires forall i :: 0 <= i < |w| ==> !IsSpace(w[i])
    ensures Trim(w + " ") == w
  {
    var r := w + " ";
    assert r[0] == w[0];
    assert LeadingSpaces(r) == 0;
    assert TrimStart(r) == r;
    assert r[..|r| - 1] == w;
    assert TrailingSpaces(r) == 1;
  }




}
