/** Identifiers accepted from Tumblr: pkg/connector/sync.go (validRemoteID) and the echo rule of outbound.go. */
module RemoteIDs {

  const MAX_REMOTE_ID_RUNES := 512
  const LOCAL_ECHO_PREFIX := "matrix-"

  predicate IsSpace(c: char) {
    || '\t' <= c <= '\r' || c == ' ' || c == '\U{85}' || c == '\U{A0}' || c == '\U{1680}'
    || '\U{2000}' <= c <= '\U{200A}' || c == '\U{2028}' || c == '\U{2029}' || c == '\U{202F}'
    || c == '\U{205F}' || c == '\U{3000}'
  }

  predicate IsControl(c: char) {
    c <= '\U{1F}' || '\U{7F}' <= c <= '\U{9F}'
  }

  // True of the strings that trimming leaves empty.
  predicate IsBlank(s: string) {
    forall c <- s :: IsSpace(c)
  }

  // The string without the spaces around it.
  function Trim(s: string): (t: string)
    ensures t == "" <==> IsBlank(s)
    ensures |t| <= |s| && (t != "" ==> !IsSpace(t[0]) && !IsSpace(t[|t| - 1]))
  {
    if s != "" && IsSpace(s[0]) then Trim(s[1..])
    else if s != "" && IsSpace(s[|s| - 1]) then Trim(s[..|s| - 1])
    else s
  }

  predicate HasOuterSpace(s: string) {
    s != "" && (IsSpace(s[0]) || IsSpace(s[|s| - 1]))
  }

  // Nothing but spaces around the text is lost.
  ghost predicate IsTrimmed(s: string, t: string) {
    !HasOuterSpace(t) && exists a, b :: s == a + t + b && IsBlank(a) && IsBlank(b)
  }

  lemma SpacesAround(s: string, t: string, a: string, b: string)
    requires IsBlank(a) && IsBlank(b) && IsTrimmed(s, t)
    ensures IsTrimmed(a + s + b, t)
  {
    hide IsSpace;
    var a', b' :| s == a' + t + b' && IsBlank(a') && IsBlank(b');
    assert a + s + b == (a + a') + t + (b' + b) && IsBlank(a + a') && IsBlank(b' + b);
  }

  lemma NothingToTrim(s: string)
    requires !HasOuterSpace(s)
    ensures IsTrimmed(s, s)
  {
    hide IsSpace;
    assert s == "" + s + "" && IsBlank("");
  }

  lemma {:induction false} TrimKeepsText(s: string)
    ensures IsTrimmed(s, Trim(s))
  {
    hide IsSpace, IsTrimmed;
    if s != "" && IsSpace(s[0]) {
      TrimKeepsText(s[1..]);
      SpacesAround(s[1..], Trim(s), [s[0]], "");
      assert s == [s[0]] + s[1..] + "";
    } else if s != "" && IsSpace(s[|s| - 1]) {
      TrimKeepsText(s[..|s| - 1]);
      SpacesAround(s[..|s| - 1], Trim(s), "", [s[|s| - 1]]);
      assert s == "" + s[..|s| - 1] + [s[|s| - 1]];
    } else {
      NothingToTrim(s);
    }
  }

  lemma {:induction false} TrimTakesSpaces(a: string, t: string, b: string)
    requires IsBlank(a) && IsBlank(b) && !HasOuterSpace(t) && t != ""
    ensures Trim(a + t + b) == t
    decreases |a| + |b|
  {
    hide IsSpace;
    var s := a + t + b;
    if a != "" {
      assert s[1..] == a[1..] + t + b;
      TrimTakesSpaces(a[1..], t, b);
    } else if b != "" {
      assert s[0] == t[0] && s[..|s| - 1] == a + t + b[..|b| - 1];
      TrimTakesSpaces(a, t, b[..|b| - 1]);
    } else {
      assert s == t;
    }
  }

  /** Trimming takes exactly the spaces at the ends. */
  lemma TrimmedExactly(s: string, t: string)
    ensures t == Trim(s) <==> IsTrimmed(s, t)
  {
    TrimKeepsText(s);
    hide IsSpace;
    if IsTrimmed(s, t) {
      var a, b :| s == a + t + b && IsBlank(a) && IsBlank(b);
      if t != "" {
        TrimTakesSpaces(a, t, b);
      }
    }
  }

  predicate IsValidRemoteID(id: string) {
    && !IsBlank(id)
    && |id| <= MAX_REMOTE_ID_RUNES
    && forall c <- id :: !IsSpace(c) && !IsControl(c)
  }

  predicate IsValidOutboundRemoteID(id: string) {
    IsValidRemoteID(id) && !(LOCAL_ECHO_PREFIX <= id)
  }
}
