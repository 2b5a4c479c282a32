/** JSON Pointers as strings and as sequences of decoded reference tokens (RFC 6901, sections 3 and 4). */
module JsonPointer {
  import opened Wrappers
  import opened Escape

  datatype SyntaxError = NoLeadingSlash | BadEscape

  /** The pieces between slashes, before decoding. */
  function SplitAtSlashes(s: string): (pieces: seq<string>)
    ensures |pieces| >= 1
  {
    if s == "" then [""]
    else
      var rest := SplitAtSlashes(s[1..]);
      if s[0] == '/' then [""] + rest else [[s[0]] + rest[0]] + rest[1..]
  }

  function UnescapeTokens(pieces: seq<string>): (tokens: seq<string>)
    ensures |tokens| == |pieces|
  {
    seq(|pieces|, i requires 0 <= i < |pieces| => UnescapeToken(pieces[i]))
  }

  function EscapeTokens(tokens: seq<string>): (pieces: seq<string>)
    ensures |pieces| == |tokens|
  {
    seq(|tokens|, i requires 0 <= i < |tokens| => EscapeToken(tokens[i]))
  }

  /** The pointer is empty, or a slash before every reference token. */
  function Parse(pointer: string): Result<seq<string>, SyntaxError> {
    if pointer == "" then Success([])
    else if pointer[0] != '/' then Failure(NoLeadingSlash)
    else
      var pieces := SplitAtSlashes(pointer[1..]);
      if forall piece :: piece in pieces ==> IsReferenceToken(piece) then Success(UnescapeTokens(pieces))
      else Failure(BadEscape)
  }

  function Format(tokens: seq<string>): string {
    if tokens == [] then "" else "/" + EscapeToken(tokens[0]) + Format(tokens[1..])
  }

  /** The inverse of splitting. */
  function JoinWithSlashes(pieces: seq<string>): string
    requires pieces != []
  {
    if |pieces| == 1 then pieces[0] else pieces[0] + "/" + JoinWithSlashes(pieces[1..])
  }

  lemma {:induction false} JoinSplit(s: string)
    ensures JoinWithSlashes(SplitAtSlashes(s)) == s
  {
    if s == "" {
    } else {
      var rest := SplitAtSlashes(s[1..]);
      JoinSplit(s[1..]);
      assert s == [s[0]] + s[1..];
      if s[0] == '/' {
        assert ([""] + rest)[1..] == rest;
      } else {
        assert ([[s[0]] + rest[0]] + rest[1..])[1..] == rest[1..];
        if |rest| > 1 {
          var tail := "/" + JoinWithSlashes(rest[1..]);
          assert [s[0]] + (rest[0] + tail) == [s[0]] + rest[0] + tail;
        }
      }
    }
  }

  lemma {:induction false} SplitWithoutSlash(a: string)
    requires '/' !in a
    ensures SplitAtSlashes(a) == [a]
  {
    if a == "" {
    } else {
      assert '/' !in a[1..];
      SplitWithoutSlash(a[1..]);
      assert [a[0]] + a[1..] == a;
    }
  }

  lemma {:induction false} SplitAfterPiece(a: string, b: string)
    requires '/' !in a
    ensures SplitAtSlashes(a + "/" + b) == [a] + SplitAtSlashes(b)
  {
    var s := a + "/" + b;
    if a == "" {
      assert s[1..] == b;
    } else {
      assert '/' !in a[1..];
      SplitAfterPiece(a[1..], b);
      assert s[1..] == a[1..] + "/" + b;
      assert [a[0]] + a[1..] == a;
    }
  }

  lemma {:induction false} SplitJoin(pieces: seq<string>)
    requires pieces != []
    requires forall i :: 0 <= i < |pieces| ==> '/' !in pieces[i]
    ensures SplitAtSlashes(JoinWithSlashes(pieces)) == pieces
  {
    if |pieces| == 1 {
      SplitWithoutSlash(pieces[0]);
    } else {
      SplitJoin(pieces[1..]);
      SplitAfterPiece(pieces[0], JoinWithSlashes(pieces[1..]));
    }
  }

  lemma {:induction false} FormatIsJoin(tokens: seq<string>)
    requires tokens != []
    ensures Format(tokens) == "/" + JoinWithSlashes(EscapeTokens(tokens))
  {
    var pieces := EscapeTokens(tokens);
    if |tokens| == 1 {
    } else {
      FormatIsJoin(tokens[1..]);
      assert pieces[1..] == EscapeTokens(tokens[1..]);
      var tail := JoinWithSlashes(pieces[1..]);
      assert "/" + pieces[0] + ("/" + tail) == "/" + (pieces[0] + "/" + tail);
    }
  }

  /** Every token sequence survives formatting and parsing. */
  lemma ParseFormat(tokens: seq<string>)
    ensures Parse(Format(tokens)) == Success(tokens)
  {
    if tokens == [] {
    } else {
      var pieces := EscapeTokens(tokens);
      FormatIsJoin(tokens);
      forall i | 0 <= i < |pieces|
        ensures '/' !in pieces[i] && IsReferenceToken(pieces[i]) && UnescapeToken(pieces[i]) == tokens[i]
      {
        EscapeIsReferenceToken(tokens[i]);
        UnescapeEscape(tokens[i]);
      }
      SplitJoin(pieces);
      assert Format(tokens)[1..] == JoinWithSlashes(pieces);
      assert UnescapeTokens(pieces) == tokens;
    }
  }

  /** Every pointer that parses is the formatting of its tokens, so distinct pointers name distinct token sequences. */
  lemma FormatParse(pointer: string)
    requires Parse(pointer).Success?
    ensures Format(Parse(pointer).value) == pointer
  {
    if pointer == "" {
    } else {
      var pieces := SplitAtSlashes(pointer[1..]);
      var tokens := UnescapeTokens(pieces);
      forall i | 0 <= i < |pieces|
        ensures EscapeTokens(tokens)[i] == pieces[i]
      {
        assert pieces[i] in pieces;
        EscapeUnescape(pieces[i]);
      }
      assert EscapeTokens(tokens) == pieces;
      FormatIsJoin(tokens);
      JoinSplit(pointer[1..]);
    }
  }

  lemma ParseTwo(a: string, b: string)
    ensures Parse("/" + EscapeToken(a) + "/" + EscapeToken(b)) == Success([a, b])
  {
    var x, y := EscapeToken(a), EscapeToken(b);
    assert [a, b][1..] == [b] && [b][1..] == [];
    assert Format([b]) == "/" + y;
    assert Format([a, b]) == "/" + x + "/" + y;
    ParseFormat([a, b]);
  }

  lemma ParseThree(a: string, b: string, c: string)
    ensures Parse("/" + EscapeToken(a) + "/" + EscapeToken(b) + "/" + EscapeToken(c)) == Success([a, b, c])
  {
    var x, y, z := EscapeToken(a), EscapeToken(b), EscapeToken(c);
    assert [a, b, c][1..] == [b, c] && [b, c][1..] == [c] && [c][1..] == [];
    assert Format([c]) == "/" + z;
    assert Format([b, c]) == "/" + y + "/" + z;
    assert Format([a, b, c]) == "/" + x + "/" + y + "/" + z;
    ParseFormat([a, b, c]);
  }
}
