/** The two string substitutions behind a reference token of a JSON Pointer (RFC 6901, sections 3 and 4). */
module Escape {

  /** `strings.Replace(s, old, new, -1)`: one left-to-right scan over non-overlapping occurrences. */
  function ReplaceAll(s: string, old': string, new': string): string
    requires old' != ""
  {
    if s == "" then ""
    else if old' <= s then new' + ReplaceAll(s[|old'|..], old', new')
    else [s[0]] + ReplaceAll(s[1..], old', new')
  }

  /** `escapeJSONPointerValue`: two passes, tilde first. */
  function EscapeToken(s: string): string {
    ReplaceAll(ReplaceAll(s, "~", "~0"), "/", "~1")
  }

  /** RFC 6901, section 4: decode `~1` first and `~0` second. */
  function UnescapeToken(t: string): string {
    ReplaceAll(ReplaceAll(t, "~1", "/"), "~0", "~")
  }

  function Substitute(c: char): string {
    if c == '~' then "~0" else if c == '/' then "~1" else [c]
  }

  /** A single simultaneous substitution, the reference the two passes are compared with. */
  function SubstituteEach(s: string): string {
    if s == "" then "" else Substitute(s[0]) + SubstituteEach(s[1..])
  }

  /** The grammar of a reference token (RFC 6901, section 3): no slash, and every tilde starts `~0` or `~1`. */
  predicate IsReferenceToken(t: string) {
    t == ""
    || (t[0] == '~' && |t| >= 2 && (t[1] == '0' || t[1] == '1') && IsReferenceToken(t[2..]))
    || (t[0] != '~' && t[0] != '/' && IsReferenceToken(t[1..]))
  }

  /** A character that cannot start an occurrence of `old'` stays in place. */
  lemma ReplaceStep(c: char, rest: string, old': string, new': string)
    requires old' != ""
    requires c != old'[0] || (|old'| > 1 && (rest == "" || rest[0] != old'[1]))
    ensures ReplaceAll([c] + rest, old', new') == [c] + ReplaceAll(rest, old', new')
  {
    assert ([c] + rest)[1..] == rest;
  }

  lemma ReplaceHit(old': string, rest: string, new': string)
    requires old' != ""
    ensures ReplaceAll(old' + rest, old', new') == new' + ReplaceAll(rest, old', new')
  {
    assert (old' + rest)[|old'|..] == rest;
  }

  /** Which of the two is which. */
  lemma EscapesOneByOne()
    ensures EscapeToken("~") == "~0" && EscapeToken("/") == "~1"
    ensures UnescapeToken("~0") == "~" && UnescapeToken("~1") == "/" && UnescapeToken("~01") == "~1"
  {
    assert ['~'] + "01" == "~01" && ['0'] + "1" == "01";
    ReplaceStep('~', "01", "~1", "/");
    ReplaceStep('0', "1", "~1", "/");
    assert ReplaceAll("1", "~1", "/") == "1" == ReplaceAll("1", "~0", "~");
    assert "~01"[2..] == "1";
  }

  /** What the first pass does to one character. */
  function EscapeTilde(c: char): string {
    if c == '~' then "~0" else [c]
  }

  lemma FirstPassStep(c: char, rest: string)
    ensures ReplaceAll([c] + rest, "~", "~0") == EscapeTilde(c) + ReplaceAll(rest, "~", "~0")
  {
    if c == '~' {
      ReplaceHit("~", rest, "~0");
    } else {
      ReplaceStep(c, rest, "~", "~0");
    }
  }

  lemma SecondPassStep(c: char, rest: string)
    ensures ReplaceAll(EscapeTilde(c) + rest, "/", "~1") == Substitute(c) + ReplaceAll(rest, "/", "~1")
  {
    if c == '~' {
      assert "~0" + rest == ['~'] + (['0'] + rest);
      ReplaceStep('~', ['0'] + rest, "/", "~1");
      ReplaceStep('0', rest, "/", "~1");
    } else if c == '/' {
      ReplaceHit("/", rest, "~1");
    } else {
      ReplaceStep(c, rest, "/", "~1");
    }
  }

  lemma DecodeSlashStep(c: char, rest: string)
    ensures ReplaceAll(Substitute(c) + rest, "~1", "/") == EscapeTilde(c) + ReplaceAll(rest, "~1", "/")
  {
    if c == '~' {
      assert "~0" + rest == ['~'] + (['0'] + rest);
      ReplaceStep('~', ['0'] + rest, "~1", "/");
      ReplaceStep('0', rest, "~1", "/");
    } else if c == '/' {
      ReplaceHit("~1", rest, "/");
    } else {
      ReplaceStep(c, rest, "~1", "/");
    }
  }

  lemma DecodeTildeStep(c: char, rest: string)
    ensures ReplaceAll(EscapeTilde(c) + rest, "~0", "~") == [c] + ReplaceAll(rest, "~0", "~")
  {
    if c == '~' {
      ReplaceHit("~0", rest, "~");
    } else {
      ReplaceStep(c, rest, "~0", "~");
    }
  }

  /** The two passes, in this order, are the simultaneous substitution: the second never touches what the first
      wrote. */
  lemma {:induction false} EscapeIsSimultaneous(s: string)
    ensures EscapeToken(s) == SubstituteEach(s)
  {
    if s == "" {
    } else {
      assert s == [s[0]] + s[1..];
      FirstPassStep(s[0], s[1..]);
      SecondPassStep(s[0], ReplaceAll(s[1..], "~", "~0"));
      EscapeIsSimultaneous(s[1..]);
    }
  }

  /** The first decoding pass takes the escaped text back to the text with only its tildes escaped. */
  lemma {:induction false} DecodeSlashes(s: string)
    ensures ReplaceAll(SubstituteEach(s), "~1", "/") == ReplaceAll(s, "~", "~0")
  {
    if s == "" {
    } else {
      assert s == [s[0]] + s[1..];
      FirstPassStep(s[0], s[1..]);
      DecodeSlashStep(s[0], SubstituteEach(s[1..]));
      DecodeSlashes(s[1..]);
    }
  }

  /** The second decoding pass restores the tildes. */
  lemma {:induction false} DecodeTildes(s: string)
    ensures ReplaceAll(ReplaceAll(s, "~", "~0"), "~0", "~") == s
  {
    if s == "" {
    } else {
      assert s == [s[0]] + s[1..];
      FirstPassStep(s[0], s[1..]);
      DecodeTildeStep(s[0], ReplaceAll(s[1..], "~", "~0"));
      DecodeTildes(s[1..]);
    }
  }

  /** Decoding undoes the escape, for every string. */
  lemma UnescapeEscape(s: string)
    ensures UnescapeToken(EscapeToken(s)) == s
  {
    EscapeIsSimultaneous(s);
    DecodeSlashes(s);
    DecodeTildes(s);
  }

  lemma {:induction false} EscapeIsReferenceToken(s: string)
    ensures IsReferenceToken(EscapeToken(s))
    ensures '/' !in EscapeToken(s)
  {
    EscapeIsSimultaneous(s);
    if s == "" {
    } else {
      var tail := SubstituteEach(s[1..]);
      EscapeIsSimultaneous(s[1..]);
      EscapeIsReferenceToken(s[1..]);
      if s[0] == '~' || s[0] == '/' {
        assert SubstituteEach(s)[2..] == tail;
      } else {
        assert SubstituteEach(s)[1..] == tail;
      }
    }
  }

  /** Every grammatical token is the escape of some string ... */
  lemma {:induction false} ReferenceTokenIsEscape(t: string) returns (s: string)
    requires IsReferenceToken(t)
    ensures EscapeToken(s) == t
  {
    if t == "" {
      s := "";
    } else if t[0] == '~' {
      var rest := ReferenceTokenIsEscape(t[2..]);
      s := [if t[1] == '0' then '~' else '/'] + rest;
      EscapeIsSimultaneous(rest);
      EscapeIsSimultaneous(s);
      assert s[1..] == rest;
      assert t == [t[0], t[1]] + t[2..];
    } else {
      var rest := ReferenceTokenIsEscape(t[1..]);
      s := [t[0]] + rest;
      EscapeIsSimultaneous(rest);
      EscapeIsSimultaneous(s);
      assert s[1..] == rest;
    }
  }

  /** ... namely of its own decoding, so the escape is a bijection from strings to reference tokens. */
  lemma EscapeUnescape(t: string)
    requires IsReferenceToken(t)
    ensures EscapeToken(UnescapeToken(t)) == t
  {
    var s := ReferenceTokenIsEscape(t);
    UnescapeEscape(s);
  }
}
