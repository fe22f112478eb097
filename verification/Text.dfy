/** Cleaning of tag texts and file names.  Texts are sequences of runes; which
    runes are white space is a parameter. */
module Text {
  type Spaces = char -> bool

  /** No ASCII graphic character is white space. */
  ghost predicate GraphicIsNotSpace(sp: Spaces) {
    forall c: char :: '!' <= c <= '~' ==> !sp(c)
  }

  function TrimLeft(s: string, sp: Spaces): string {
    if s != [] && sp(s[0]) then TrimLeft(s[1..], sp) else s
  }

  function TrimRight(s: string, sp: Spaces): string {
    if s != [] && sp(s[|s| - 1]) then TrimRight(s[..|s| - 1], sp) else s
  }

  /** strings.TrimSpace. */
  function TrimSpace(s: string, sp: Spaces): string {
    TrimRight(TrimLeft(s, sp), sp)
  }

  /** Trims, and reads rippers' placeholders as empty. */
  function CleanTag(s: string, sp: Spaces): string {
    var t := TrimSpace(s, sp);
    if t == "?" || t == "<?>" then "" else t
  }

  predicate Control(c: char) {
    c < ' ' || c == '\U{7F}'
  }

  /** Not a path separator, not a colon, not a control character. */
  predicate Clean(c: char) {
    c != '/' && c != ':' && !Control(c)
  }

  predicate AllClean(s: string) {
    forall i :: 0 <= i < |s| ==> Clean(s[i])
  }

  function Replaced(s: string): (r: string)
    ensures |r| == |s| && AllClean(r)
  {
    seq(|s|, i requires 0 <= i < |s| => if Clean(s[i]) then s[i] else '_')
  }

  function Sanitized(s: string, sp: Spaces): string {
    var t := TrimSpace(Replaced(s), sp);
    if t == "." || t == ".." then "_" else t
  }

  method SanitizeFilename(s: string, sp: Spaces) returns (r: string)
    ensures r == Sanitized(s, sp)
  {
    var b := "";
    for i := 0 to |s|
      invariant b == Replaced(s)[..i]
    {
      if s[i] == '/' || s[i] == ':' {
        b := b + ['_'];
      } else if s[i] < ' ' || s[i] == '\U{7F}' {
        b := b + ['_'];
      } else {
        b := b + [s[i]];
      }
    }
    assert b == Replaced(s);
    r := TrimSpace(b, sp);
    if r == "." || r == ".." {
      r := "_";
    }
  }

  // ---- Trimming ------------------------------------------------------------

  lemma {:induction false} TrimLeftKeeps(s: string, sp: Spaces)
    ensures var t := TrimLeft(s, sp);
            && |t| <= |s| && t == s[|s| - |t|..]
            && (t != [] ==> !sp(t[0]))
            && forall i :: 0 <= i < |s| - |t| ==> sp(s[i])
  {
    if s != [] && sp(s[0]) {
      var rest, t := s[1..], TrimLeft(s, sp);
      TrimLeftKeeps(rest, sp);
      assert s[|s| - |t|..] == rest[|rest| - |t|..];
      assert forall i :: 0 < i < |s| ==> s[i] == rest[i - 1];
    }
  }

  lemma {:induction false} TrimRightKeeps(s: string, sp: Spaces)
    ensures var t := TrimRight(s, sp);
            && t <= s
            && (t != [] ==> !sp(t[|t| - 1]))
            && forall i :: |t| <= i < |s| ==> sp(s[i])
  {
    if s != [] && sp(s[|s| - 1]) {
      TrimRightKeeps(s[..|s| - 1], sp);
    }
  }

  /** What trimming leaves is a piece of the text without spaces at its ends. */
  lemma TrimmedPiece(s: string, sp: Spaces) returns (at: nat)
    ensures var t := TrimSpace(s, sp);
            && at + |t| <= |s| && t == s[at..at + |t|]
            && (t != [] ==> !sp(t[0]) && !sp(t[|t| - 1]))
  {
    var l := TrimLeft(s, sp);
    var t := TrimSpace(s, sp);
    TrimLeftKeeps(s, sp);
    TrimRightKeeps(l, sp);
    at := |s| - |l|;
  }

  /** Trimming cuts off exactly the spaces at both ends. */
  lemma TrimMeaning(s: string, sp: Spaces) returns (from: nat, to: nat)
    ensures from <= to <= |s| && TrimSpace(s, sp) == s[from..to]
    ensures forall i :: 0 <= i < from || to <= i < |s| ==> sp(s[i])
    ensures from < to ==> !sp(s[from]) && !sp(s[to - 1])
  {
    var l := TrimLeft(s, sp);
    TrimLeftKeeps(s, sp);
    TrimRightKeeps(l, sp);
    from := |s| - |l|;
    to := from + |TrimSpace(s, sp)|;
    forall i | to <= i < |s| ensures sp(s[i]) {
      assert s[i] == l[i - from];
    }
  }

  /** A tag loses exactly the spaces around it, and all of itself if it is one of
      the two placeholders. */
  lemma CleanTagMeaning(s: string, sp: Spaces) returns (from: nat, to: nat)
    ensures from <= to <= |s|
    ensures forall i :: 0 <= i < from || to <= i < |s| ==> sp(s[i])
    ensures from < to ==> !sp(s[from]) && !sp(s[to - 1])
    ensures CleanTag(s, sp) == if s[from..to] == "?" || s[from..to] == "<?>" then "" else s[from..to]
  {
    from, to := TrimMeaning(s, sp);
  }

  lemma TrimOfTrimmed(t: string, sp: Spaces)
    requires t != [] ==> !sp(t[0]) && !sp(t[|t| - 1])
    ensures TrimSpace(t, sp) == t
  {
  }

  /** A text with a visible rune is not trimmed away. */
  lemma TrimKeepsVisible(s: string, sp: Spaces, i: nat)
    requires i < |s| && !sp(s[i])
    ensures TrimSpace(s, sp) != []
  {
    var l := TrimLeft(s, sp);
    TrimLeftKeeps(s, sp);
    var j := i - (|s| - |l|);
    assert 0 <= j && l[j] == s[i];
    TrimRightKeeps(l, sp);
  }

  /** A cleaned tag is clean: cleaning again changes nothing. */
  lemma CleanTagIdempotent(s: string, sp: Spaces)
    ensures CleanTag(CleanTag(s, sp), sp) == CleanTag(s, sp)
  {
    var at := TrimmedPiece(s, sp);
    TrimOfTrimmed(CleanTag(s, sp), sp);
  }

  // ---- Sanitized names -----------------------------------------------------

  lemma SanitizedIsClean(s: string, sp: Spaces)
    ensures AllClean(Sanitized(s, sp))
    ensures Sanitized(s, sp) != "." && Sanitized(s, sp) != ".."
  {
    var at := TrimmedPiece(Replaced(s), sp);
  }

  /** What a rune becomes in a file name. */
  function Escaped(c: char): char {
    if c == '/' || c == ':' || c as int < 32 || c as int == 127 then '_' else c
  }

  /** A name is the text rune by rune, without the spaces around it; the two names
      a folder reserves become an underscore. */
  lemma SanitizeMeaning(s: string, sp: Spaces) returns (from: nat, to: nat, t: string)
    ensures from <= to <= |s| && |t| == to - from
    ensures forall i :: from <= i < to ==> t[i - from] == Escaped(s[i])
    ensures forall i :: 0 <= i < from || to <= i < |s| ==> sp(Escaped(s[i]))
    ensures t != "" ==> !sp(t[0]) && !sp(t[|t| - 1])
    ensures Sanitized(s, sp) == if t == "." || t == ".." then "_" else t
  {
    ReplacedIsEscaped(s);
    from, to := TrimMeaning(Replaced(s), sp);
    t := Replaced(s)[from..to];
  }

  lemma ReplacedIsEscaped(s: string)
    ensures forall i :: 0 <= i < |s| ==> Replaced(s)[i] == Escaped(s[i])
  {
  }

  /** Sanitizing a sanitized name changes nothing. */
  lemma SanitizeIdempotent(s: string, sp: Spaces)
    requires !sp('_')
    ensures Sanitized(Sanitized(s, sp), sp) == Sanitized(s, sp)
  {
    var t := Sanitized(s, sp);
    SanitizedIsClean(s, sp);
    assert Replaced(t) == t;
    var at := TrimmedPiece(Replaced(s), sp);
    TrimOfTrimmed(t, sp);
  }
}
