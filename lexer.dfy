/**
 * What the reader's token-level operations compute, as functions of the
 * input text `s` and a position `p` in it (the `StringReader`'s cursor):
 * white space skipping, words, tokens and string literals with their
 * escapes. Each function returns the new position with its answer, or the
 * exception the reader raises.
 */
module Lexer {
  import opened Base

  /** The reader's `TOKEN` enumeration. */
  datatype Token =
    | NoToken | CurlyOpen | CurlyClose | SquaredOpen | SquaredClose | Colon | Comma
    | StringStart | NumberStart | TrueWord | FalseWord | NullWord

  /** The first position at or after `p` that does not hold white space. */
  function SkipWhite(s: Text, p: nat): (q: nat)
    requires p <= |s|
    ensures p <= q <= |s|
    ensures q < |s| ==> !IsWhiteSpace(s[q])
    ensures forall i :: p <= i < q ==> IsWhiteSpace(s[i])
    decreases |s| - p
  {
    if p < |s| && IsWhiteSpace(s[p]) then SkipWhite(s, p + 1) else p
  }

  /** The end of the word at `p`: the first word break at or after `p`, or the end of the input. */
  function WordEnd(s: Text, p: nat): (q: nat)
    requires p <= |s|
    ensures p <= q <= |s|
    ensures q < |s| ==> IsWordBreak(s[q])
    ensures forall i :: p <= i < q ==> !IsWordBreak(s[i])
    decreases |s| - p
  {
    if p < |s| && !IsWordBreak(s[p]) then WordEnd(s, p + 1) else p
  }

  /**
   * The tokens `NextToken` leaves unread, and the character each one is
   * standing on.
   */
  predicate Ahead(tok: Token, s: Text, p: nat)
    requires p <= |s|
  {
    match tok
    case CurlyOpen => p < |s| && s[p] == LBRACE
    case SquaredOpen => p < |s| && s[p] == LBRACKET
    case StringStart => p < |s| && s[p] == QUOTE
    case Colon => p < |s| && s[p] == COLON
    case NumberStart => p < |s| && (IsDigit(s[p]) || s[p] == MINUS)
    case _ => true
  }

  /** The tokens `NextToken` reads past. */
  predicate Consumed(tok: Token)
  {
    tok in {CurlyClose, SquaredClose, Comma, TrueWord, FalseWord, NullWord}
  }

  /**
   * `NextToken`: skip white space (which fails at the very end of the input,
   * where `PeekChar` converts -1), then classify the next character. Closing
   * brackets and commas are read; opening brackets, quotes, colons and
   * number starts are only peeked at; anything else is read as a word, which
   * must be exactly `true`, `false` or `null`.
   */
  function NextToken(s: Text, p: nat): (r: Result<(Token, nat)>)
    requires p <= |s|
    ensures r.Err? <==> p == |s|
    ensures r.Err? ==> r.error == EndOfInput
    ensures r.Ok? ==> p <= r.value.1 <= |s| && Ahead(r.value.0, s, r.value.1)
    ensures r.Ok? && Consumed(r.value.0) ==> p < r.value.1
    ensures r.Ok? && r.value.0 == NoToken ==> p < r.value.1 || SkipWhite(s, p) == |s|
  {
    if p == |s| then Err(EndOfInput)
    else
      var q := SkipWhite(s, p);
      if q == |s| then Ok((NoToken, q))
      else
        var c := s[q];
        if c == LBRACE then Ok((CurlyOpen, q))
        else if c == RBRACE then Ok((CurlyClose, q + 1))
        else if c == LBRACKET then Ok((SquaredOpen, q))
        else if c == RBRACKET then Ok((SquaredClose, q + 1))
        else if c == COMMA then Ok((Comma, q + 1))
        else if c == QUOTE then Ok((StringStart, q))
        else if c == COLON then Ok((Colon, q))
        else if IsDigit(c) || c == MINUS then Ok((NumberStart, q))
        else
          var e := WordEnd(s, q);
          Ok((Bareword(s[q..e]), e))
  }

  /** The `switch (word)` of `NextToken`. */
  function Bareword(word: Text): (tok: Token)
    ensures tok in {FalseWord, TrueWord, NullWord, NoToken}
    ensures tok == TrueWord <==> word == Lit("true")
    ensures tok == FalseWord <==> word == Lit("false")
    ensures tok == NullWord <==> word == Lit("null")
  {
    // the three words differ in their first letter
    assert Lit("false")[0] != Lit("true")[0] && Lit("true")[0] != Lit("null")[0] && Lit("null")[0] != Lit("false")[0];
    if word == Lit("false") then FalseWord
    else if word == Lit("true") then TrueWord
    else if word == Lit("null") then NullWord
    else NoToken
  }

  predicate IsHexDigit(c: CodeUnit)
  {
    IsDigit(c) || 65 <= c <= 70 || 97 <= c <= 102
  }

  function HexValue(c: CodeUnit): (n: nat)
    requires IsHexDigit(c)
    ensures n < 16
  {
    if IsDigit(c) then c as int - 48 else if c <= 70 then c as int - 55 else c as int - 87
  }

  /** `(char) Convert.ToInt32(hex, 16)` on the four code units read after `\u`. */
  function HexUnit(h: Text): (r: Result<CodeUnit>)
    requires |h| == 4
    ensures r.Ok? <==> forall i :: 0 <= i < 4 ==> IsHexDigit(h[i])
    ensures r.Err? ==> r.error == BadHex
  {
    if IsHexDigit(h[0]) && IsHexDigit(h[1]) && IsHexDigit(h[2]) && IsHexDigit(h[3]) then
      var hi := HexValue(h[0]) * 16 + HexValue(h[1]);
      var lo := HexValue(h[2]) * 16 + HexValue(h[3]);
      assert hi < 256 && lo < 256;
      Ok((hi * 256 + lo) as CodeUnit)
    else
      Err(BadHex)
  }

  /** The one-character escapes of `ParseString`: `\" \\ \/ \b \f \n \r \t`. */
  function Unescape(e: CodeUnit): Option<CodeUnit>
  {
    if e == QUOTE || e == BACKSLASH || e == SLASH then Some(e)
    else if e == Unit('b') then Some(8)
    else if e == Unit('f') then Some(12)
    else if e == Unit('n') then Some(LF)
    else if e == Unit('r') then Some(CR)
    else if e == Unit('t') then Some(TAB)
    else None
  }

  /**
   * The loop of `ParseString` from `p`, having read `acc`: it stops after
   * the first unescaped quote, or at the end of the input with what it has;
   * `\u` reads exactly four code units as hex; an unknown escape drops both
   * code units.
   */
  function StringBody(s: Text, p: nat, acc: Text): (r: Result<(Text, nat)>)
    requires p <= |s|
    ensures r.Ok? ==> p <= r.value.1 <= |s|
    ensures r.Ok? && p < |s| ==> p < r.value.1
    decreases |s| - p
  {
    if p == |s| then Ok((acc, p))
    else if s[p] == QUOTE then Ok((acc, p + 1))
    else if s[p] != BACKSLASH then StringBody(s, p + 1, acc + [s[p]])
    else if p + 1 == |s| then Ok((acc, p + 1))
    else if s[p + 1] == Unit('u') then
      if |s| < p + 6 then Err(EndOfInput)
      else
        var u :- HexUnit(s[p + 2..p + 6]);
        StringBody(s, p + 6, acc + [u])
    else match Unescape(s[p + 1])
      case Some(e) => StringBody(s, p + 2, acc + [e])
      case None => StringBody(s, p + 2, acc)
  }

  /**
   * `ParseString()`: the first code unit is dropped unread (it is the
   * opening quote when the caller saw a `StringStart`), then the body.
   */
  function ParseString(s: Text, p: nat): (r: Result<(Text, nat)>)
    requires p <= |s|
    ensures r.Ok? ==> p <= r.value.1 <= |s|
    ensures r.Ok? && p < |s| ==> p < r.value.1
  {
    StringBody(s, if p < |s| then p + 1 else p, [])
  }
}
