/**
 * What the reader's recursive descent computes, as functions of the input
 * text and a position: `ParseValue`, `ParseByToken`, `ParseNumber`, the
 * loops of `ParseArray` and `ParseObject` (each carrying what it has
 * collected so far), and `Deserialize`.
 *
 * `ParseArray` never ends when it meets a `:` where an item should be:
 * `ParseByToken` leaves the colon unread, so the loop adds a Null and sees
 * the same colon again. The functions answer `Err(Diverges)` there, and
 * `ColonRepeats` shows that the loop is stuck.
 */
module Grammar {
  import opened Base
  import opened Dict
  import opened Tags
  import opened Values
  import opened Lexer

  /** The keys whose joint presence makes `ParseObject` read an object as a typed envelope. */
  function JsonTypeKey(): Text { Lit("JsonType") }
  function DataTypeKey(): Text { Lit("DataType") }
  function ValueKey(): Text { Lit("Value") }

  /** `ParseNumber()`: the word at `p`, through `double.TryParse`. */
  function ParseNumber(s: Text, p: nat, c: Culture): (r: Result<(Value, nat)>)
    requires p <= |s|
    ensures r.Err? <==> p == |s|
    ensures r.Ok? ==> p <= r.value.1 <= |s|
    ensures r.Ok? && !IsWordBreak(s[p]) ==> p < r.value.1
  {
    if p == |s| then Err(EndOfInput)
    else
      var e := WordEnd(s, p);
      Ok((NumberNode(TryParse(c, s[p..e])), e))
  }

  /** `ParseValue()`: the next token, then `ParseByToken`. */
  function ParseValue(s: Text, p: nat, c: Culture): (r: Result<(Value, nat)>)
    requires p <= |s|
    ensures r.Ok? ==> p <= r.value.1 <= |s|
    decreases |s| - p, 2
  {
    var t :- NextToken(s, p);
    ParseByToken(t.0, s, t.1, c)
  }

  /**
   * `ParseByToken(token)`: strings, numbers, objects and arrays are read
   * from where `NextToken` left them; every token that starts no value,
   * and `null`, gives `Json.Null`.
   */
  function ParseByToken(tok: Token, s: Text, p: nat, c: Culture): (r: Result<(Value, nat)>)
    requires p <= |s| && Ahead(tok, s, p)
    ensures r.Ok? ==> p <= r.value.1 <= |s|
    ensures r.Ok? && tok in {CurlyOpen, SquaredOpen, StringStart, NumberStart} ==> p < r.value.1
    decreases |s| - p, 1
  {
    match tok
    case StringStart =>
      var t :- ParseString(s, p);
      Ok((StringNode(t.0), t.1))
    case NumberStart => ParseNumber(s, p, c)
    case CurlyOpen => ParseObject(s, p + 1, [], c)
    case SquaredOpen => ParseArray(s, p + 1, [], c)
    case TrueWord => Ok((BoolNode(true), p))
    case FalseWord => Ok((BoolNode(false), p))
    case _ => Ok((NullNode(), p))
  }

  /**
   * The loop of `ParseArray` at `p`, having collected `items`: commas are
   * skipped, `]` ends the array, running out of tokens gives a null
   * reference, and any other token is parsed as the next item.
   */
  function ParseArray(s: Text, p: nat, items: seq<Value>, c: Culture): (r: Result<(Value, nat)>)
    requires p <= |s|
    ensures r.Ok? ==> p <= r.value.1 <= |s|
    decreases |s| - p, 4
  {
    var t :- NextToken(s, p);
    if t.0 == NoToken then Ok((NullRef, t.1))
    else if t.0 == Comma then ParseArray(s, t.1, items, c)
    else if t.0 == SquaredClose then Ok((ArrayNode(items), t.1))
    else if t.0 == Colon then Err(Diverges)
    else
      var e :- ParseByToken(t.0, s, t.1, c);
      ParseArray(s, e.1, items + [e.0], c)
  }

  /**
   * The loop of `ParseObject` at `p`, having collected `data`: commas are
   * skipped; `}` ends the object; running out of tokens, or a key not
   * followed by a colon, gives a null reference; anything else starts a
   * member, stored with the dictionary setter.
   */
  function ParseObject(s: Text, p: nat, data: seq<Entry<Value>>, c: Culture): (r: Result<(Value, nat)>)
    requires p <= |s|
    ensures r.Ok? ==> p <= r.value.1 <= |s|
    decreases |s| - p, 4
  {
    var t :- NextToken(s, p);
    if t.0 == NoToken then Ok((NullRef, t.1))
    else if t.0 == Comma then ParseObject(s, t.1, data, c)
    else if t.0 == CurlyClose then
      var v :- CloseObject(data);
      Ok((v, t.1))
    else
      var m :- ParseMember(s, t.1, c);
      match m.0
      case None => Ok((NullRef, m.1))
      case Some(kv) => ParseObject(s, m.1, Put(data, kv.0, kv.1), c)
  }

  /**
   * One member of `ParseObject`: the key through `ParseString`, which drops
   * the code unit at `p` whatever it is, then a colon, which is read, then
   * a value. `None` when the colon is missing.
   */
  function ParseMember(s: Text, p: nat, c: Culture): (r: Result<(Option<(Text, Value)>, nat)>)
    requires p <= |s|
    ensures r.Ok? ==> p <= r.value.1 <= |s|
    ensures r.Ok? && r.value.0.Some? ==> p < r.value.1
    decreases |s| - p, 3
  {
    var k :- ParseString(s, p);
    var colon :- NextToken(s, k.1);
    if colon.0 != Colon then Ok((None, colon.1))
    else
      var v :- ParseValue(s, colon.1 + 1, c);
      Ok((Some((k.0, v.0)), v.1))
  }

  /**
   * The `CURLY_CLOSE` cases of `ParseObject`: an object holding both tag
   * keys is an envelope, whose `"Value"` is retagged by `FromSerialization`;
   * any other object is a Container.
   */
  function CloseObject(data: seq<Entry<Value>>): (r: Result<Value>)
    ensures !(HasKey(data, JsonTypeKey()) && HasKey(data, DataTypeKey())) ==> r == Ok(ObjectNode(data))
  {
    if HasKey(data, JsonTypeKey()) && HasKey(data, DataTypeKey()) then
      var v :- Get(data, ValueKey());
      FromSerialization(Get(data, JsonTypeKey()).value, Get(data, DataTypeKey()).value, v)
    else
      Ok(ObjectNode(data))
  }

  /** `Deserialize(json)`: one value from the start; whatever follows it is ignored. */
  function Deserialize(s: Text, c: Culture): Result<Value>
  {
    var t :- ParseValue(s, 0, c);
    Ok(t.0)
  }
}
