/**
 * Shared vocabulary of the model: .NET strings as UTF-16 code units, the
 * exceptions the engine can raise, the opaque double payload and the
 * culture-dependent number formatting the engine delegates to .NET.
 */
module Base {

  /** A .NET `char`: one UTF-16 code unit (lone surrogates included). */
  newtype CodeUnit = x: int | 0 <= x < 0x1_0000

  /** A .NET `string`. */
  type Text = seq<CodeUnit>

  /** The code unit of an ASCII character of a Dafny literal. */
  function Unit(c: char): CodeUnit
  {
    if c as int < 0x1_0000 then c as int as CodeUnit else 0xFFFD
  }

  /** A Dafny string literal as .NET text. */
  function Lit(s: string): (t: Text)
    ensures |t| == |s|
  {
    seq(|s|, i requires 0 <= i < |s| => Unit(s[i]))
  }

  // The characters the reader and the writer give a meaning to.
  const TAB: CodeUnit := 9
  const LF: CodeUnit := 10
  const CR: CodeUnit := 13
  const SPACE: CodeUnit := 32
  const QUOTE: CodeUnit := 34
  const COMMA: CodeUnit := 44
  const MINUS: CodeUnit := 45
  const SLASH: CodeUnit := 47
  const COLON: CodeUnit := 58
  const LBRACKET: CodeUnit := 91
  const BACKSLASH: CodeUnit := 92
  const RBRACKET: CodeUnit := 93
  const LBRACE: CodeUnit := 123
  const RBRACE: CodeUnit := 125

  /** `WhiteSpace = " \t\n\r"` of the reader. */
  predicate IsWhiteSpace(c: CodeUnit)
  {
    c == SPACE || c == TAB || c == LF || c == CR
  }

  /** `WordBreak = " \t\n\r{}[],:\""` of the reader. */
  predicate IsWordBreak(c: CodeUnit)
  {
    IsWhiteSpace(c) || c == LBRACE || c == RBRACE || c == LBRACKET || c == RBRACKET
    || c == COMMA || c == COLON || c == QUOTE
  }

  predicate IsDigit(c: CodeUnit)
  {
    48 <= c <= 57
  }

  /** The exceptions the core raises, plus the one way it fails to answer at all. */
  datatype Error =
    | EndOfInput       // Convert.ToChar(-1) when a character is demanded at the end of the input
    | BadHex           // Convert.ToInt32(hex, 16) on a malformed \u escape
    | NullReference    // a member access on a null Json reference
    | KeyNotFound      // Dictionary indexer on a missing key
    | DuplicateKey     // Dictionary.Add on a present key
    | IndexOutOfRange  // List indexer out of bounds
    | AssertionFailed  // UnityEngine.Assertions.Assert.IsTrue(false)
    | BadEnumName      // Enum.Parse on a name that is not a member
    | Diverges         // the source loops forever on this input

  datatype Option<+T> = None | Some(value: T)

  datatype Result<+T> = Ok(value: T) | Err(error: Error) {
    predicate IsFailure() { Err? }
    function PropagateFailure<U>(): Result<U> requires Err? { Err(error) }
    function Extract(): T requires Ok? { value }
    function GetOr(default: T): T { if Ok? then value else default }
  }

  /** An IEEE-754 double, kept as its bit pattern; the model never computes on it. */
  type Double = bv64

  /** The bit pattern of +0.0, which `double.TryParse` yields when it fails. */
  const ZERO: Double := 0

  /**
   * The current culture's number formatting: `double.ToString` (used by
   * `StringWriter.Write(double)` and `Json.ToString`) and `double.TryParse`.
   */
  datatype Culture = Culture(format: Double -> Text, parse: Text -> Option<Double>)

  /** `double.TryParse(word, out d)`: the parsed value, or 0 when parsing fails. */
  function TryParse(c: Culture, word: Text): Double
  {
    match c.parse(word)
    case Some(d) => d
    case None => ZERO
  }

  /**
   * The printed form of `d` reads back as one number token: it is non-empty,
   * starts with a digit or `-`, contains no word-break character, and parses
   * back to `d`.
   */
  predicate NumberRoundTrips(c: Culture, d: Double)
  {
    var t := c.format(d);
    && |t| > 0
    && (IsDigit(t[0]) || t[0] == MINUS)
    && (forall i :: 0 <= i < |t| ==> !IsWordBreak(t[i]))
    && c.parse(t) == Some(d)
  }
}
