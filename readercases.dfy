/**
 * What the reader makes of text the writer does not produce: white space
 * at the end of the input, words that are not `true`, `false` or `null`,
 * a `:` where an array item should be, a key without a colon, envelopes
 * that are missing a part, and strings with escapes or no closing quote.
 */
module ReaderCases {
  import opened Base
  import opened Dict
  import opened Tags
  import opened Values
  import opened Lexer
  import opened Grammar
  import opened Writer
  import opened ReadSteps

  /**
   * Only white space from `p` on: demanding a token exactly at the end
   * fails, and anywhere before it the reader finds no token, so a value is
   * Null and an open array or object is a null reference.
   */
  lemma BlankToEnd(s: Text, p: nat, items: seq<Value>, data: seq<Entry<Value>>, c: Culture)
    requires p <= |s| && forall i :: p <= i < |s| ==> IsWhiteSpace(s[i])
    ensures NextToken(s, p) == if p == |s| then Err(EndOfInput) else Ok((NoToken, |s|))
    ensures ParseValue(s, p, c) == if p == |s| then Err(EndOfInput) else Ok((NullNode(), |s|))
    ensures ParseArray(s, p, items, c) == if p == |s| then Err(EndOfInput) else Ok((NullRef, |s|))
    ensures ParseObject(s, p, data, c) == if p == |s| then Err(EndOfInput) else Ok((NullRef, |s|))
  {
    if p < |s| {
      assert SkipWhite(s, p) == |s|;
    }
  }

  /** The empty input fails; any other input of white space alone is Null. */
  lemma BlankInput(s: Text, c: Culture)
    requires forall i :: 0 <= i < |s| ==> IsWhiteSpace(s[i])
    ensures Deserialize(s, c) == if s == [] then Err(EndOfInput) else Ok(NullNode())
  {
    BlankToEnd(s, 0, [], [], c);
  }

  /** `[1 ` reads as a null reference; `[1` fails at the end of the input. */
  lemma UnclosedArray(c: Culture)
    ensures Deserialize(Lit("[1 "), c) == Ok(NullRef)
    ensures Deserialize(Lit("[1"), c) == Err(EndOfInput)
  {
    var s := Lit("[1 ");
    assert s[0] == LBRACKET && IsDigit(s[1]) && s[2] == SPACE;
    assert NextToken(s, 0) == Ok((SquaredOpen, 0));
    assert NextToken(s, 1) == Ok((NumberStart, 1));
    assert WordEnd(s, 1) == 2;
    BlankToEnd(s, 2, [], [], c);
    var t := Lit("[1");
    assert t[0] == LBRACKET && IsDigit(t[1]);
    assert NextToken(t, 0) == Ok((SquaredOpen, 0));
    assert NextToken(t, 1) == Ok((NumberStart, 1));
    assert WordEnd(t, 1) == 2;
  }

  /** `[1,,2]`: the empty slot between the commas is skipped, so the array holds the two numbers, in order. */
  lemma DoubledComma(c: Culture)
    ensures Deserialize(Lit("[1,,2]"), c)
            == Ok(ArrayNode([NumberNode(TryParse(c, Lit("1"))), NumberNode(TryParse(c, Lit("2")))]))
  {
    var s := Lit("[1,,2]");
    DoubledCommaText();
    var one, two := NumberNode(TryParse(c, [s[1]])), NumberNode(TryParse(c, [s[4]]));
    assert NextToken(s, 0) == Ok((SquaredOpen, 0));
    DigitItem(s, 1, [], c);
    assert [] + [one] == [one] && [one] + [two] == [one, two];
    assert ParseArray(s, 1, [], c) == ParseArray(s, 2, [one], c);
    ItemCommaStep(s, 2, 2, [one], c);
    ItemCommaStep(s, 3, 3, [one], c);
    DigitItem(s, 4, [one], c);
    assert ParseArray(s, 2, [one], c) == ParseArray(s, 5, [one, two], c);
    ItemCloseStep(s, 5, 5, [one, two], c);
    assert ParseArray(s, 1, [], c) == Ok((ArrayNode([one, two]), 6));
  }

  lemma DoubledCommaText()
    ensures |Lit("[1,,2]")| == 6 && Lit("[1,,2]")[0] == LBRACKET && Lit("[1,,2]")[5] == RBRACKET
    ensures Lit("[1,,2]")[2] == COMMA && Lit("[1,,2]")[3] == COMMA
    ensures [Lit("[1,,2]")[1]] == Lit("1") && [Lit("[1,,2]")[4]] == Lit("2")
    ensures IsDigit(Lit("[1,,2]")[1]) && IsDigit(Lit("[1,,2]")[4])
    ensures IsWordBreak(Lit("[1,,2]")[2]) && IsWordBreak(Lit("[1,,2]")[5])
  {
  }

  /** A one-digit number in an array, followed by a break, is appended as that number. */
  lemma DigitItem(s: Text, p: nat, items: seq<Value>, c: Culture)
    requires p + 1 < |s| && IsDigit(s[p]) && IsWordBreak(s[p + 1])
    ensures ParseArray(s, p, items, c) == ParseArray(s, p + 1, items + [NumberNode(TryParse(c, [s[p]]))], c)
  {
    assert NextToken(s, p) == Ok((NumberStart, p));
    assert WordEnd(s, p) == p + 1 && s[p..p + 1] == [s[p]];
    ItemStep(s, p, NumberNode(TryParse(c, [s[p]])), p + 1, items, c);
  }

  /**
   * A `:` where an array item should be: `NextToken` stops in front of it,
   * `ParseByToken` makes a Null without reading it, and the next token is
   * the same colon again, so the source's loop never ends; the model
   * answers `Diverges`.
   */
  lemma ColonRepeats(s: Text, p: nat, q: nat, items: seq<Value>, c: Culture)
    requires Blank(s, p, q) && q < |s| && s[q] == COLON
    ensures NextToken(s, p) == Ok((Colon, q))
    ensures ParseByToken(Colon, s, q, c) == Ok((NullNode(), q))
    ensures NextToken(s, q) == Ok((Colon, q))
    ensures ParseArray(s, p, items, c) == Err(Diverges)
  {
    SkipBlank(s, p, q);
    SkipBlank(s, q, q);
  }

  /** `[:]` never finishes reading. */
  lemma ColonInArray(c: Culture)
    ensures Deserialize(Lit("[:]"), c) == Err(Diverges)
  {
    var s := Lit("[:]");
    assert s[0] == LBRACKET && s[1] == COLON;
    assert NextToken(s, 0) == Ok((SquaredOpen, 0));
    ColonRepeats(s, 1, 1, [], c);
  }

  /**
   * A word that starts no value and is not `true`, `false` or `null`: at
   * the top it is Null, and inside an array or an object it makes the
   * whole container a null reference.
   */
  lemma UnknownWord(s: Text, p: nat, q: nat, items: seq<Value>, data: seq<Entry<Value>>, c: Culture)
    requires Blank(s, p, q) && q < |s| && !IsWordBreak(s[q]) && !IsDigit(s[q]) && s[q] != MINUS
    requires s[q..WordEnd(s, q)] !in {Lit("true"), Lit("false"), Lit("null")}
    ensures ParseValue(s, p, c) == Ok((NullNode(), WordEnd(s, q)))
    ensures ParseArray(s, p, items, c) == Ok((NullRef, WordEnd(s, q)))
    ensures ParseObject(s, p, data, c) == Ok((NullRef, WordEnd(s, q)))
  {
    SkipBlank(s, p, q);
    assert NextToken(s, p) == Ok((NoToken, WordEnd(s, q)));
  }

  /** Only a digit or `-` starts a number: `+5`, `.5` and `foo` are all Null. */
  lemma NotNumbers(c: Culture)
    ensures Deserialize(Lit("+5"), c) == Ok(NullNode())
    ensures Deserialize(Lit(".5"), c) == Ok(NullNode())
    ensures Deserialize(Lit("foo"), c) == Ok(NullNode())
  {
    forall w | w in [Lit("+5"), Lit(".5"), Lit("foo")]
      ensures Deserialize(w, c) == Ok(NullNode())
    {
      assert forall i :: 0 <= i < |w| ==> !IsWordBreak(w[i]);
      WordAt(w, 0, w);
      assert w[0..|w|] == w;
      assert |w| < |Lit("true")| < |Lit("false")| && |Lit("null")| == |Lit("true")|;
      UnknownWord(w, 0, 0, [], [], c);
    }
  }

  /** A key followed by anything but a colon: the object is a null reference. */
  lemma KeyWithoutColon(s: Text, p: nat, q: nat, k: Text, t: Token, r: nat, data: seq<Entry<Value>>, c: Culture)
    requires Blank(s, p, q) && At(s, q, Quoted(k)) && Plain(k)
    requires NextToken(s, q + |k| + 2) == Ok((t, r)) && t != Colon
    ensures ParseObject(s, p, data, c) == Ok((NullRef, r))
  {
    assert s[q] == Quoted(k)[0];
    StringToken(s, p, q);
    MemberWithoutColon(s, q, k, t, r, c);
    MissingMember(s, p, q, r, data, c);
  }

  /** The member read of a key not followed by a colon stops after the token it found instead. */
  lemma MemberWithoutColon(s: Text, q: nat, k: Text, t: Token, r: nat, c: Culture)
    requires At(s, q, Quoted(k)) && Plain(k)
    requires NextToken(s, q + |k| + 2) == Ok((t, r)) && t != Colon
    ensures ParseMember(s, q, c) == Ok((None, r))
  {
    var b := q + |k| + 2;
    ReadQuoted(s, q, k);
    assert ParseString(s, q) == Ok((k, b)) && NextToken(s, b).value.0 != Colon;
  }

  /** A string token whose member has no colon ends the object loop with a null reference. */
  lemma MissingMember(s: Text, p: nat, q: nat, r: nat, data: seq<Entry<Value>>, c: Culture)
    requires p <= |s| && q <= |s| && NextToken(s, p) == Ok((StringStart, q)) && ParseMember(s, q, c) == Ok((None, r))
    ensures ParseObject(s, p, data, c) == Ok((NullRef, r))
  {
    assert NextToken(s, p).value.0 !in {NoToken, Comma, CurlyClose};
  }

  /** `{"a" 1}` reads as a null reference. */
  lemma MissingColon(c: Culture)
    ensures Deserialize(Lit("{\"a\" 1}"), c) == Ok(NullRef)
  {
    var s := Lit("{\"a\" 1}");
    var k := Lit("a");
    assert s[0] == LBRACE && s[4] == SPACE && IsDigit(s[5]);
    assert NextToken(s, 0) == Ok((CurlyOpen, 0));
    assert At(s, 1, Quoted(k)) by {
      assert s[1..4] == Quoted(k);
    }
    SkipBlank(s, 4, 5);
    assert NextToken(s, 4) == Ok((NumberStart, 5));
    KeyWithoutColon(s, 1, 1, k, NumberStart, 5, [], c);
  }

  /**
   * Closing an object that holds both tag keys, whatever else it holds:
   * without a `"Value"` key it fails; when it succeeds, the result is the
   * `"Value"` node with its slots kept and its tags named by the two
   * String nodes.
   */
  lemma CloseEnvelopeCases(data: seq<Entry<Value>>)
    requires HasKey(data, JsonTypeKey()) && HasKey(data, DataTypeKey())
    ensures !HasKey(data, ValueKey()) ==> CloseObject(data) == Err(KeyNotFound)
    ensures CloseObject(data).Ok? ==>
              && HasKey(data, ValueKey())
              && var r := CloseObject(data).value;
              && r == Retag(Get(data, ValueKey()).value, r.jsonType, r.dataType)
              && JsonTypeName(r.jsonType) == Get(data, JsonTypeKey()).value.str
              && DataTypeName(r.dataType) == Get(data, DataTypeKey()).value.str
    ensures HasKey(data, ValueKey()) && Get(data, ValueKey()).value.NullRef? ==> CloseObject(data).Err?
  {
  }

  /** The escapes of section 7 of RFC 8259: quote, backslash and the control characters. */
  function EscapeUnit(u: CodeUnit): (t: Text)
    ensures |t| >= 1 && (|t| == 1 <==> t == [u])
    ensures t[0] == QUOTE ==> false
    ensures |t| > 1 ==> t[0] == BACKSLASH
  {
    if u == QUOTE then [BACKSLASH, QUOTE]
    else if u == BACKSLASH then [BACKSLASH, BACKSLASH]
    else if u == 8 then [BACKSLASH, Unit('b')]
    else if u == 12 then [BACKSLASH, Unit('f')]
    else if u == LF then [BACKSLASH, Unit('n')]
    else if u == CR then [BACKSLASH, Unit('r')]
    else if u == TAB then [BACKSLASH, Unit('t')]
    else if u < 0x20 then [BACKSLASH, Unit('u'), Unit('0'), Unit('0'), HexDigit(u as nat / 16), HexDigit(u as nat % 16)]
    else [u]
  }

  /** A lower-case hex digit. */
  function HexDigit(n: nat): (d: CodeUnit)
    requires n < 16
    ensures IsHexDigit(d) && HexValue(d) == n
  {
    if n < 10 then (48 + n) as CodeUnit else (87 + n) as CodeUnit
  }

  /** A text escaped as RFC 8259 asks of a string's content. */
  function Escape(t: Text): (e: Text)
    ensures |e| >= |t|
  {
    if t == [] then [] else EscapeUnit(t[0]) + Escape(t[1..])
  }

  /** One escaped code unit is read back as that code unit; the loop goes on at `q`, after it. */
  lemma ReadEscapedUnit(s: Text, p: nat, u: CodeUnit, acc: Text, q: nat)
    requires At(s, p, EscapeUnit(u)) && q == p + |EscapeUnit(u)|
    ensures StringBody(s, p, acc) == StringBody(s, q, acc + [u])
  {
    var t := EscapeUnit(u);
    assert s[p] == t[0];
    if |t| > 1 {
      assert s[p + 1] == t[1];
    }
    if |t| == 6 {
      assert s[p + 2..p + 6] == t[2..6];
    }
  }

  /** The first escaped code unit of a non-empty text is read, and the rest of the escaped text follows it. */
  lemma ReadEscapedHead(s: Text, p: nat, t: Text, acc: Text, q: nat)
    requires t != [] && At(s, p, Escape(t) + [QUOTE]) && q == p + |EscapeUnit(t[0])|
    ensures StringBody(s, p, acc) == StringBody(s, q, acc + [t[0]])
    ensures At(s, q, Escape(t[1..]) + [QUOTE])
    ensures |Escape(t)| == |EscapeUnit(t[0])| + |Escape(t[1..])|
  {
    EscapeHead(t);
    AtSplit(s, p, EscapeUnit(t[0]), Escape(t[1..]) + [QUOTE]);
    ReadEscapedUnit(s, p, t[0], acc, q);
  }

  /** An escaped text and its quote: the head's escape, then the rest's, then the quote. */
  lemma EscapeHead(t: Text)
    requires t != []
    ensures Escape(t) + [QUOTE] == EscapeUnit(t[0]) + (Escape(t[1..]) + [QUOTE])
    ensures |Escape(t)| == |EscapeUnit(t[0])| + |Escape(t[1..])|
  {
    AppendQuote(EscapeUnit(t[0]), Escape(t[1..]), Escape(t));
  }

  /** A quote after a concatenation is a quote after its second part. */
  lemma AppendQuote(a: Text, b: Text, c: Text)
    requires c == a + b
    ensures c + [QUOTE] == a + (b + [QUOTE]) && |c| == |a| + |b|
  {
  }

  /** A closing quote ends the body with nothing more read. */
  lemma ReadClosingQuote(s: Text, p: nat, acc: Text)
    requires At(s, p, [QUOTE])
    ensures StringBody(s, p, acc) == Ok((acc, p + 1))
  {
    assert s[p] == [QUOTE][0];
  }

  /** What has been read, then the head of a text, then its tail: the text after what has been read. */
  lemma HeadThenRest(acc: Text, t: Text)
    requires t != []
    ensures acc + [t[0]] + t[1..] == acc + t
  {
    assert t == [t[0]] + t[1..];
  }

  /** An escaped text and its closing quote are read back as the text. */
  lemma {:induction false} ReadEscaped(s: Text, p: nat, t: Text, acc: Text)
    requires At(s, p, Escape(t) + [QUOTE])
    ensures StringBody(s, p, acc) == Ok((acc + t, p + |Escape(t)| + 1))
    decreases |t|
  {
    if t == [] {
      assert Escape(t) + [QUOTE] == [QUOTE] && acc + t == acc;
      ReadClosingQuote(s, p, acc);
    } else {
      var q := p + |EscapeUnit(t[0])|;
      var next := acc + [t[0]];
      ReadEscapedHead(s, p, t, acc, q);
      ReadEscaped(s, q, t[1..], next);
      HeadThenRest(acc, t);
    }
  }

  /** `ParseString` undoes RFC 8259 escaping: the quoted escaped text reads back as the text. */
  lemma EscapeRoundTrip(s: Text, p: nat, t: Text)
    requires At(s, p, [QUOTE] + Escape(t) + [QUOTE])
    ensures ParseString(s, p) == Ok((t, p + |Escape(t)| + 2))
  {
    assert [QUOTE] + Escape(t) + [QUOTE] == [QUOTE] + (Escape(t) + [QUOTE]);
    AtSplit(s, p, [QUOTE], Escape(t) + [QUOTE]);
    ReadEscaped(s, p + 1, t, []);
    assert [] + t == t;
  }

  /** A string that never closes: everything up to the end of the input, without an error. */
  lemma {:induction false} Unterminated(s: Text, p: nat, acc: Text)
    requires p <= |s| && forall i :: p <= i < |s| ==> s[i] != QUOTE && s[i] != BACKSLASH
    ensures StringBody(s, p, acc) == Ok((acc + s[p..], |s|))
    decreases |s| - p
  {
    if p < |s| {
      Unterminated(s, p + 1, acc + [s[p]]);
      assert acc + [s[p]] + s[p + 1..] == acc + s[p..];
    } else {
      assert acc + s[p..] == acc;
    }
  }

  /** Unknown escapes, as many as there are, drop both of their code units: what follows them up to the quote is all that is read. */
  lemma {:induction false} UnknownEscapes(s: Text, p: nat, n: nat, acc: Text)
    requires p + 2 * n < |s| && s[p + 2 * n] == QUOTE
    requires forall i :: 0 <= i < n ==> s[p + 2 * i] == BACKSLASH
    requires forall i :: 0 <= i < n ==> s[p + 2 * i + 1] != Unit('u') && Unescape(s[p + 2 * i + 1]).None?
    ensures StringBody(s, p, acc) == Ok((acc, p + 2 * n + 1))
    decreases n
  {
    if n > 0 {
      assert s[p + 2 * 0] == BACKSLASH && s[p + 2 * 0 + 1] != Unit('u') && Unescape(s[p + 2 * 0 + 1]).None?;
      forall i | 0 <= i < n - 1
        ensures s[p + 2 + 2 * i] == BACKSLASH
        ensures s[p + 2 + 2 * i + 1] != Unit('u') && Unescape(s[p + 2 + 2 * i + 1]).None?
      {
        assert p + 2 + 2 * i == p + 2 * (i + 1);
      }
      UnknownEscapes(s, p + 2, n - 1, acc);
    }
  }
}
