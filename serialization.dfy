/**
 * `JsonSerialization`: the reader as a `Reader` object holding the text and
 * the cursor of its `StringReader` (one per call of `Deserialize` instead of
 * one shared static), and the two entry points. Every method is proved
 * against the function of `Lexer` or `Grammar` that says what it computes
 * from the cursor it starts at; the parsing methods build `Json` nodes whose
 * value views are what those functions compute.
 */
module Serialization {
  import opened Base
  import opened Dict
  import opened Tags
  import opened Values
  import opened Lexer
  import Grammar
  import Writer
  import opened Nodes

  class Reader {
    /** The text of the `StringReader`. */
    const text: Text
    /** Its cursor: the index of the next code unit to read. */
    var pos: nat

    /** `new StringReader(json)`. */
    constructor (json: Text)
      ensures text == json && pos == 0
    {
      text, pos := json, 0;
    }

    /** `_reader.Peek()`: the next code unit, or -1 at the end. */
    method Peek() returns (c: int)
      requires pos <= |text|
      ensures c == if pos < |text| then text[pos] as int else -1
    {
      c := if pos < |text| then text[pos] as int else -1;
    }

    /** `_reader.Read()`: like `Peek`, and the cursor moves on unless at the end. */
    method Read() returns (c: int)
      requires pos <= |text|
      modifies this
      ensures c == if old(pos) < |text| then text[old(pos)] as int else -1
      ensures pos == if old(pos) < |text| then old(pos) + 1 else old(pos)
    {
      if pos < |text| {
        c := text[pos] as int;
        pos := pos + 1;
      } else {
        c := -1;
      }
    }

    /** `PeekChar`: `Convert.ToChar(_reader.Peek())`, which throws on -1. */
    method PeekChar() returns (r: Result<CodeUnit>)
      requires pos <= |text|
      ensures r == if pos < |text| then Ok(text[pos]) else Err(EndOfInput)
    {
      var c := Peek();
      r := if c == -1 then Err(EndOfInput) else Ok(c as CodeUnit);
    }

    /** `NextChar`: `Convert.ToChar(_reader.Read())`, which throws on -1. */
    method NextChar() returns (r: Result<CodeUnit>)
      requires pos <= |text|
      modifies this
      ensures r == if old(pos) < |text| then Ok(text[old(pos)]) else Err(EndOfInput)
      ensures pos == if old(pos) < |text| then old(pos) + 1 else old(pos)
    {
      var c := Read();
      r := if c == -1 then Err(EndOfInput) else Ok(c as CodeUnit);
    }

    /**
     * `NextWord`: the code units up to the next word break or the end of
     * the input; the test at the top of the loop throws when the word
     * starts at the very end.
     */
    method NextWord() returns (r: Result<Text>)
      requires pos <= |text|
      modifies this
      ensures pos <= |text|
      ensures r.Err? <==> old(pos) == |text|
      ensures r.Err? ==> r.error == EndOfInput
      ensures r.Ok? ==> pos == WordEnd(text, old(pos)) && r.value == text[old(pos)..pos]
    {
      var word: Text := [];
      while true
        invariant old(pos) <= pos <= |text|
        invariant pos < |text| || pos == old(pos)
        invariant word == text[old(pos)..pos]
        invariant WordEnd(text, pos) == WordEnd(text, old(pos))
        decreases |text| - pos
      {
        var c :- PeekChar();
        if IsWordBreak(c) {
          break;
        }
        var n := NextChar();
        word := word + [n.value];
        var next := Peek();
        if next == -1 {
          break;
        }
      }
      r := Ok(word);
    }

    /**
     * `EatWhitespace()`: reads white space up to the next other code unit or
     * the end; the test at the top of the loop throws when it starts at the
     * very end.
     */
    method EatWhitespace() returns (r: Result<()>)
      requires pos <= |text|
      modifies this
      ensures pos <= |text|
      ensures r.Err? <==> old(pos) == |text|
      ensures r.Err? ==> r.error == EndOfInput
      ensures r.Ok? ==> pos == SkipWhite(text, old(pos))
    {
      while true
        invariant old(pos) <= pos <= |text|
        invariant pos < |text| || pos == old(pos)
        invariant SkipWhite(text, pos) == SkipWhite(text, old(pos))
        decreases |text| - pos
      {
        var c :- PeekChar();
        if !IsWhiteSpace(c) {
          break;
        }
        var dropped := Read();
        var next := Peek();
        if next == -1 {
          break;
        }
      }
      r := Ok(());
    }

    /** `NextToken`. */
    method NextToken() returns (r: Result<Token>)
      requires pos <= |text|
      modifies this
      ensures pos <= |text|
      ensures Lexer.NextToken(text, old(pos)) == if r.Ok? then Ok((r.value, pos)) else Err(r.error)
    {
      var skipped :- EatWhitespace();
      var next := Peek();
      if next == -1 {
        return Ok(NoToken);
      }
      var peeked := PeekChar();
      var c := peeked.value;
      if c == LBRACE {
        return Ok(CurlyOpen);
      } else if c == RBRACE {
        var dropped := Read();
        return Ok(CurlyClose);
      } else if c == LBRACKET {
        return Ok(SquaredOpen);
      } else if c == RBRACKET {
        var dropped := Read();
        return Ok(SquaredClose);
      } else if c == COMMA {
        var dropped := Read();
        return Ok(Comma);
      } else if c == QUOTE {
        return Ok(StringStart);
      } else if c == COLON {
        return Ok(Colon);
      } else if IsDigit(c) || c == MINUS {
        return Ok(NumberStart);
      }
      var word := NextWord();
      r := Ok(Bareword(word.value));
    }

    /**
     * `ParseString()`: drops one code unit, then reads up to the first
     * unescaped quote or the end of the input, decoding escapes.
     */
    method ParseString() returns (r: Result<Text>)
      requires pos <= |text|
      modifies this
      ensures pos <= |text|
      ensures Lexer.ParseString(text, old(pos)) == if r.Ok? then Ok((r.value, pos)) else Err(r.error)
    {
      var s: Text := [];
      var dropped := Read();
      var parsing := true;
      while parsing
        invariant pos <= |text|
        invariant parsing ==> StringBody(text, pos, s) == Lexer.ParseString(text, old(pos))
        invariant !parsing ==> Lexer.ParseString(text, old(pos)) == Ok((s, pos))
        decreases |text| - pos
      {
        var next := Peek();
        if next == -1 {
          parsing := false;
          break;
        }
        var c := NextChar();
        if c.value == QUOTE {
          parsing := false;
        } else if c.value == BACKSLASH {
          next := Peek();
          if next == -1 {
            parsing := false;
          } else {
            var e :- ParseEscape(s);
            s := s + e;
          }
        } else {
          s := s + [c.value];
        }
      }
      r := Ok(s);
    }

    /**
     * The `case '\\'` of `ParseString`, after the backslash: the escape
     * letter, and for `\u` four code units of hex. Gives the decoded code
     * unit, or nothing for an unknown escape.
     */
    method ParseEscape(ghost acc: Text) returns (r: Result<Text>)
      requires 0 < pos < |text| && text[pos - 1] == BACKSLASH
      modifies this
      ensures old(pos) < pos <= |text|
      ensures r.Ok? ==> StringBody(text, old(pos) - 1, acc) == StringBody(text, pos, acc + r.value)
      ensures r.Err? ==> StringBody(text, old(pos) - 1, acc) == Err(r.error)
    {
      var c := NextChar();
      if c.value == Unit('u') {
        var hex: Text := [];
        for i := 0 to 4
          invariant pos == old(pos) + 1 + i <= |text|
          invariant hex == text[old(pos) + 1..pos]
        {
          var h :- NextChar();
          hex := hex + [h];
        }
        var u :- HexUnit(hex);
        r := Ok([u]);
      } else {
        match Unescape(c.value) {
          case Some(e) => r := Ok([e]);
          case None =>
            r := Ok([]);
            assert acc + r.value == acc;
        }
      }
    }

    /** `ParseNumber()`: the word at the cursor through `double.TryParse`. */
    method ParseNumber(c: Culture) returns (r: Result<Double>)
      requires pos <= |text|
      modifies this
      ensures pos <= |text|
      ensures Grammar.ParseNumber(text, old(pos), c) == if r.Ok? then Ok((NumberNode(r.value), pos)) else Err(r.error)
    {
      var number :- NextWord();
      r := Ok(TryParse(c, number));
    }

    /**
     * `ParseValue()`: the next token, then `ParseByToken`. The new nodes,
     * all created by this call, are `V`.
     */
    method ParseValue(c: Culture) returns (r: Result<Json?>, ghost V: set<Json>)
      requires pos <= |text|
      modifies this
      ensures pos <= |text|
      ensures fresh(V)
      ensures r.Ok? ==> ChildTree(r.value, V)
      ensures Grammar.ParseValue(text, old(pos), c) == if r.Ok? then Ok((ViewOf(r.value, V), pos)) else Err(r.error)
      decreases |text| - pos, 2
    {
      V := {};
      var tok :- NextToken();
      r, V := ParseByToken(tok, c);
    }

    /** `ParseByToken(token)`. */
    method ParseByToken(tok: Token, c: Culture) returns (r: Result<Json?>, ghost V: set<Json>)
      requires pos <= |text| && Ahead(tok, text, pos)
      modifies this
      ensures pos <= |text|
      ensures fresh(V)
      ensures r.Ok? ==> ChildTree(r.value, V)
      ensures Grammar.ParseByToken(tok, text, old(pos), c) == if r.Ok? then Ok((ViewOf(r.value, V), pos)) else Err(r.error)
      decreases |text| - pos, 1
    {
      V := {};
      var n: Json;
      if tok == StringStart {
        var s :- ParseString();
        n := new Json.FromString(s);
      } else if tok == NumberStart {
        var number := ParseNumber(c);
        n := new Json.FromNumber(number.value);
      } else if tok == CurlyOpen {
        var dropped := Read();
        r, V := ParseObject(c);
        return;
      } else if tok == SquaredOpen {
        var dropped := Read();
        r, V := ParseArray(c);
        return;
      } else if tok == TrueWord {
        n := new Json.FromBool(true);
      } else if tok == FalseWord {
        n := new Json.FromBool(false);
      } else {
        // `null`, and every token that starts no value
        n := new Json.NewNull();
      }
      r, V := Ok(n), {n};
    }

    /**
     * `ParseArray()`, after the opening bracket. A colon where an item
     * should be is left unread by `ParseByToken`, and the source's loop
     * then adds Null items forever; here it is `Diverges`.
     */
    method ParseArray(c: Culture) returns (r: Result<Json?>, ghost V: set<Json>)
      requires pos <= |text|
      modifies this
      ensures pos <= |text|
      ensures fresh(V)
      ensures r.Ok? ==> ChildTree(r.value, V)
      ensures Grammar.ParseArray(text, old(pos), [], c) == if r.Ok? then Ok((ViewOf(r.value, V), pos)) else Err(r.error)
      decreases |text| - pos, 5
    {
      V := {};
      var items: seq<Json?> := [];
      ghost var W: set<Json> := {};
      ghost var vs: seq<Value> := [];
      while true
        invariant old(pos) <= pos <= |text|
        invariant fresh(W)
        invariant ChildrenIn(items, W) && ViewItems(items, W) == vs
        invariant Grammar.ParseArray(text, pos, vs, c) == Grammar.ParseArray(text, old(pos), [], c)
        decreases |text| - pos
      {
        ghost var p0 := pos;
        var nextToken :- NextToken();
        if nextToken == NoToken {
          return Ok(null), {};
        } else if nextToken == Comma {
        } else if nextToken == SquaredClose {
          var n := new Json.FromItems(items, W);
          return Ok(n), W + {n};
        } else if nextToken == Colon {
          return Err(Diverges), {};
        } else {
          var step: Result<seq<Json?>>;
          ghost var W': set<Json>, vs': seq<Value>;
          step, W', vs' := StoreItem(items, W, vs, p0, nextToken, c);
          if step.Err? {
            return Err(step.error), {};
          }
          items, W, vs := step.value, W', vs';
        }
      }
    }

    /**
     * The item case of `ParseArray`'s loop, after `NextToken` has read `tok`
     * from `p0`: `ParseByToken(nextToken)` appended to the list.
     */
    method StoreItem(items: seq<Json?>, ghost W: set<Json>, ghost vs: seq<Value>,
                     ghost p0: nat, tok: Token, c: Culture)
      returns (r: Result<seq<Json?>>, ghost W': set<Json>, ghost vs': seq<Value>)
      requires pos <= |text| && ChildrenIn(items, W) && ViewItems(items, W) == vs
      requires p0 <= |text| && Lexer.NextToken(text, p0) == Ok((tok, pos))
      requires tok !in {NoToken, Comma, SquaredClose, Colon}
      modifies this
      ensures pos <= |text|
      ensures fresh(W' - W)
      ensures r.Ok? ==> p0 < pos && ChildrenIn(r.value, W') && ViewItems(r.value, W') == vs'
      ensures r.Ok? ==> Grammar.ParseArray(text, p0, vs, c) == Grammar.ParseArray(text, pos, vs', c)
      ensures r.Err? ==> Grammar.ParseArray(text, p0, vs, c) == Err(r.error)
      decreases |text| - pos, 4
    {
      W', vs' := W, vs;
      var item: Result<Json?>;
      ghost var I: set<Json>;
      item, I := ParseByToken(tok, c);
      if item.Err? {
        return Err(item.error), W, vs;
      }
      ghost var v := ViewOf(item.value, I);
      GrowItems(items, W, item.value, I);
      r, W', vs' := Ok(items + [item.value]), W + I, vs + [v];
    }

    /** `ParseObject()`, after the opening brace. */
    method ParseObject(c: Culture) returns (r: Result<Json?>, ghost V: set<Json>)
      requires pos <= |text|
      modifies this
      ensures pos <= |text|
      ensures fresh(V)
      ensures r.Ok? ==> ChildTree(r.value, V)
      ensures Grammar.ParseObject(text, old(pos), [], c) == if r.Ok? then Ok((ViewOf(r.value, V), pos)) else Err(r.error)
      decreases |text| - pos, 5
    {
      V := {};
      var data: seq<Entry<Json?>> := [];
      ghost var W: set<Json> := {};
      ghost var ms: seq<Entry<Value>> := [];
      while true
        invariant old(pos) <= pos <= |text|
        invariant fresh(W)
        invariant Collected(data, W, ms)
        invariant Grammar.ParseObject(text, pos, ms, c) == Grammar.ParseObject(text, old(pos), [], c)
        decreases |text| - pos
      {
        ghost var p0 := pos;
        var nextToken :- NextToken();
        if nextToken == NoToken {
          return Ok(null), {};
        } else if nextToken == Comma {
        } else if nextToken == CurlyClose {
          r, V := CloseObject(data, W, ms);
          return;
        } else {
          var step: Result<Option<seq<Entry<Json?>>>>;
          ghost var W': set<Json>, ms': seq<Entry<Value>>;
          step, W', ms' := StoreMember(data, W, ms, p0, nextToken, c);
          if step.Err? {
            return Err(step.error), {};
          }
          if step.value.None? {
            return Ok(null), {};
          }
          data, W, ms := step.value.value, W', ms';
        }
      }
    }

    /**
     * The member case of `ParseObject`'s loop, after `NextToken` has read
     * `tok` from `p0`: one member parsed and stored with the setter, or
     * `None` where the source returns null.
     */
    method StoreMember(data: seq<Entry<Json?>>, ghost W: set<Json>, ghost ms: seq<Entry<Value>>,
                       ghost p0: nat, ghost tok: Token, c: Culture)
      returns (r: Result<Option<seq<Entry<Json?>>>>, ghost W': set<Json>, ghost ms': seq<Entry<Value>>)
      requires pos <= |text| && Collected(data, W, ms)
      requires p0 <= |text| && Lexer.NextToken(text, p0) == Ok((tok, pos))
      requires tok !in {NoToken, Comma, CurlyClose}
      modifies this
      ensures pos <= |text|
      ensures fresh(W' - W)
      ensures r.Ok? && r.value.Some? ==> p0 < pos && Collected(r.value.value, W', ms')
      ensures r.Ok? && r.value.Some? ==> Grammar.ParseObject(text, p0, ms, c) == Grammar.ParseObject(text, pos, ms', c)
      ensures r.Ok? && r.value.None? ==> Grammar.ParseObject(text, p0, ms, c) == Ok((NullRef, pos))
      ensures r.Err? ==> Grammar.ParseObject(text, p0, ms, c) == Err(r.error)
      decreases |text| - pos, 4
    {
      W', ms' := W, ms;
      var member: Result<Option<(Text, Json?)>>;
      ghost var I: set<Json>;
      label before:
      member, I := ParseMember(c);
      if member.Err? {
        return Err(member.error), W, ms;
      }
      if member.value.None? {
        return Ok(None), W, ms;
      }
      var (key, value) := member.value.value;
      ghost var v := ViewOf(value, I);
      // the member's node is new, and every node of `W` is older
      assert value != null ==> value in I && !old@before(allocated(value));
      GrowMembers(data, W, ms, key, value, I);
      r, W', ms' := Ok(Some(Put(data, key, value))), W + I, Put(ms, key, v);
    }

    /**
     * One member of `ParseObject`: `ParseString()` for the key, the colon
     * (read and dropped), then `ParseValue()`. `None` when the colon is
     * missing, where the source returns null.
     */
    method ParseMember(c: Culture) returns (r: Result<Option<(Text, Json?)>>, ghost I: set<Json>)
      requires pos <= |text|
      modifies this
      ensures pos <= |text|
      ensures fresh(I)
      ensures r.Ok? && r.value.Some? ==> ChildTree(r.value.value.1, I)
      ensures Grammar.ParseMember(text, old(pos), c)
              == if r.Err? then Err(r.error)
                 else if r.value.None? then Ok((None, pos))
                 else Ok((Some((r.value.value.0, ViewOf(r.value.value.1, I))), pos))
      decreases |text| - pos, 3
    {
      I := {};
      ghost var start := pos;
      var key :- ParseString();
      ghost var afterKey := pos;
      var colon :- NextToken();
      if colon != Colon {
        return Ok(None), {};
      }
      ghost var colonAt := pos;
      var dropped := Read();
      MemberAfterColon(text, start, key, afterKey, colonAt, c);
      var value: Result<Json?>;
      value, I := ParseValue(c);
      if value.Err? {
        return Err(value.error), {};
      }
      r := Ok(Some((key, value.value)));
    }

    /**
     * The `CURLY_CLOSE` case of `ParseObject`: with both tag keys present,
     * `FromSerialization` retags the `"Value"` node in place and returns it;
     * otherwise a new Container node over `data`.
     */
    static method CloseObject(data: seq<Entry<Json?>>, ghost W: set<Json>, ghost ms: seq<Entry<Value>>) returns (r: Result<Json?>, ghost V: set<Json>)
      requires Collected(data, W, ms)
      modifies W
      ensures fresh(V - W)
      ensures r.Ok? ==> ChildTree(r.value, V)
      ensures Grammar.CloseObject(ms) == if r.Ok? then Ok(ViewOf(r.value, V)) else Err(r.error)
    {
      V := W;
      ViewGet(data, Grammar.JsonTypeKey(), W);
      ViewGet(data, Grammar.DataTypeKey(), W);
      ViewGet(data, Grammar.ValueKey(), W);
      var jsonType := Get(data, Grammar.JsonTypeKey());
      var dataType := Get(data, Grammar.DataTypeKey());
      if jsonType.Ok? && dataType.Ok? {
        var value :- Get(data, Grammar.ValueKey());
        if value != null {
          GetUnshared(data, Grammar.ValueKey(), Grammar.JsonTypeKey());
          GetUnshared(data, Grammar.ValueKey(), Grammar.DataTypeKey());
        }
        r := Json.FromSerialization(jsonType.value, dataType.value, value, W);
        V := W;
      } else {
        var n := new Json.FromMembers(data, W);
        r, V := Ok(n), W + {n};
      }
    }
  }

  /** `JsonSerialization.Serialize(data)`: `Write` with the type information. */
  method Serialize(data: Json?, ghost U: set<Json>, c: Culture) returns (r: Result<Text>)
    requires ChildTree(data, U)
    ensures r == Writer.Serialize(ViewOf(data, U), c)
  {
    if data == null {
      return Err(NullReference);
    }
    r := data.Write(U, true, c);
  }

  /** `JsonSerialization.Deserialize(json)`: one value read from a new reader. */
  method Deserialize(json: Text, c: Culture) returns (r: Result<Json?>, ghost V: set<Json>)
    ensures fresh(V)
    ensures r.Ok? ==> ChildTree(r.value, V)
    ensures Grammar.Deserialize(json, c) == if r.Ok? then Ok(ViewOf(r.value, V)) else Err(r.error)
  {
    var reader := new Reader(json);
    r, V := reader.ParseValue(c);
  }

  /** A member whose key is followed by a colon holds the value read just past that colon. */
  lemma MemberAfterColon(s: Text, p: nat, k: Text, b: nat, q: nat, c: Culture)
    requires p <= |s| && Lexer.ParseString(s, p) == Ok((k, b))
    requires Lexer.NextToken(s, b) == Ok((Colon, q))
    ensures q < |s|
    ensures Grammar.ParseMember(s, p, c)
            == match Grammar.ParseValue(s, q + 1, c)
               case Err(e) => Err(e)
               case Ok(v) => Ok((Some((k, v.0)), v.1))
  {
  }
}
