/** The video-id check `/^[a-zA-Z0-9_-]{11}$/` used by both commands of
    src/index.ts. */
module VideoId {

  const VideoIdLength: nat := 11

  predicate IsIdChar(c: char) {
    ('A' <= c <= 'Z') || ('a' <= c <= 'z') || ('0' <= c <= '9') || c == '_' || c == '-'
  }

  /** Exactly eleven characters, each from the class `[A-Za-z0-9_-]`. */
  predicate IsValidVideoId(id: string) {
    |id| == VideoIdLength && forall i :: 0 <= i < |id| ==> IsIdChar(id[i])
  }

  /** The anchored regular-expression test, one character at a time. */
  method CheckVideoId(id: string) returns (ok: bool)
    ensures ok <==> IsValidVideoId(id)
  {
    if |id| != VideoIdLength {
      return false;
    }
    var i := 0;
    while i < |id|
      invariant 0 <= i <= |id|
      invariant forall j :: 0 <= j < i ==> IsIdChar(id[j])
    {
      if !IsIdChar(id[i]) {
        return false;
      }
      i := i + 1;
    }
    return true;
  }

  /** Worked values: an ordinary id passes; ten characters, twelve characters
      or a character outside the class fail. */
  lemma VideoIdExamples()
    ensures IsValidVideoId("dQw4w9WgXcQ")
    ensures IsValidVideoId("a-b_c-d_e-F")
    ensures !IsValidVideoId("dQw4w9WgXc")
    ensures !IsValidVideoId("dQw4w9WgXcQQ")
    ensures !IsValidVideoId("dQw4w9WgXc.")
  {
    assert "dQw4w9WgXc."[10] == '.';
  }
}
