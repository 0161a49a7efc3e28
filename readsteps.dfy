/**
 * Single steps of the reader over written text: every lemma says what a
 * reader function computes at a position of a text `s` that holds a
 * written fragment there, possibly after white space. The typed round trip
 * is assembled from these steps.
 */
module ReadSteps {
  import opened Base
  import opened Dict
  import opened Tags
  import opened Values
  import opened Lexer
  import opened Grammar
  import opened Writer

  /** `s` holds `t` at `p`. */
  predicate At(s: Text, p: nat, t: Text)
  {
    p + |t| <= |s| && s[p..p + |t|] == t
  }

  /** Only white space from `q` up to `p`. */
  predicate Blank(s: Text, q: nat, p: nat)
  {
    q <= p <= |s| && forall i :: q <= i < p ==> IsWhiteSpace(s[i])
  }

  /** A word that ends at `e` is not continued: the input ends or breaks there. */
  predicate Ends(s: Text, e: nat)
    requires e <= |s|
  {
    e == |s| || IsWordBreak(s[e])
  }

  /** A text the writer quotes without ambiguity: no quote and no backslash inside. */
  predicate Plain(t: Text)
  {
    forall i :: 0 <= i < |t| ==> t[i] != QUOTE && t[i] != BACKSLASH
  }

  lemma AtSplit(s: Text, p: nat, a: Text, b: Text)
    requires At(s, p, a + b)
    ensures At(s, p, a) && At(s, p + |a|, b)
  {
    forall i | 0 <= i < |a| ensures s[p + i] == a[i] {
      assert s[p + i] == (a + b)[i];
    }
    forall i | 0 <= i < |b| ensures s[p + |a| + i] == b[i] {
      assert s[p + |a| + i] == (a + b)[|a| + i];
    }
  }

  lemma {:induction false} SkipBlank(s: Text, q: nat, p: nat)
    requires Blank(s, q, p) && p < |s| && !IsWhiteSpace(s[p])
    ensures SkipWhite(s, q) == p
    decreases p - q
  {
    if q < p {
      SkipBlank(s, q + 1, p);
    }
  }

  lemma {:induction false} WordAt(s: Text, p: nat, t: Text)
    requires At(s, p, t) && Ends(s, p + |t|)
    requires forall i :: 0 <= i < |t| ==> !IsWordBreak(t[i])
    ensures WordEnd(s, p) == p + |t|
    decreases |t|
  {
    if |t| > 0 {
      assert s[p] == t[0];
      AtSplit(s, p, [t[0]], t[1..]);
      WordAt(s, p + 1, t[1..]);
    }
  }

  lemma {:induction false} ReadBody(s: Text, p: nat, t: Text, i: nat)
    requires At(s, p, Quoted(t)) && Plain(t) && i <= |t|
    ensures StringBody(s, p + 1 + i, t[..i]) == Ok((t, p + |t| + 2))
    decreases |t| - i
  {
    assert s[p + 1 + i] == Quoted(t)[1 + i];
    if i == |t| {
      assert t[..i] == t;
    } else {
      assert t[..i] + [t[i]] == t[..i + 1];
      ReadBody(s, p, t, i + 1);
    }
  }

  /** A quoted plain text reads back as itself. */
  lemma ReadQuoted(s: Text, p: nat, t: Text)
    requires At(s, p, Quoted(t)) && Plain(t)
    ensures Lexer.ParseString(s, p) == Ok((t, p + |t| + 2))
  {
    assert s[p] == Quoted(t)[0];
    ReadBody(s, p, t, 0);
    assert t[..0] == [];
  }

  /** A quoted plain text after white space reads as a String node. */
  lemma ReadString(s: Text, q: nat, p: nat, t: Text, c: Culture)
    requires Blank(s, q, p) && At(s, p, Quoted(t)) && Plain(t)
    ensures ParseValue(s, q, c) == Ok((StringNode(t), p + |t| + 2))
  {
    assert s[p] == Quoted(t)[0];
    SkipBlank(s, q, p);
    ReadQuoted(s, p, t);
  }

  /** A formatted number that reads back, after white space and before a break, is a Number node. */
  lemma ReadNumber(s: Text, q: nat, p: nat, d: Double, e: nat, c: Culture)
    requires NumberRoundTrips(c, d) && e == p + |c.format(d)|
    requires Blank(s, q, p) && At(s, p, c.format(d)) && Ends(s, e)
    ensures ParseValue(s, q, c) == Ok((NumberNode(d), e))
  {
    var t := c.format(d);
    assert s[p] == t[0];
    SkipBlank(s, q, p);
    WordAt(s, p, t);
  }

  /** `true`, `false` and `null`, after white space and before a break. */
  lemma ReadBareword(s: Text, q: nat, p: nat, w: Text, c: Culture)
    requires w == Lit("true") || w == Lit("false") || w == Lit("null")
    requires Blank(s, q, p) && At(s, p, w) && Ends(s, p + |w|)
    ensures ParseValue(s, q, c)
            == Ok((if w == Lit("true") then BoolNode(true) else if w == Lit("false") then BoolNode(false) else NullNode(),
                   p + |w|))
  {
    BarewordToken(s, q, p, w);
  }

  /** The token of such a word, read past. */
  lemma BarewordToken(s: Text, q: nat, p: nat, w: Text)
    requires w == Lit("true") || w == Lit("false") || w == Lit("null")
    requires Blank(s, q, p) && At(s, p, w) && Ends(s, p + |w|)
    ensures NextToken(s, q) == Ok((Bareword(w), p + |w|))
  {
    assert s[p] == w[0];
    SkipBlank(s, q, p);
    WordAt(s, p, w);
    assert s[p..p + |w|] == w;
  }

  /** A member `"k": ` whose value reads back. */
  lemma ReadMember(s: Text, p: nat, k: Text, v: Value, x: nat, e: nat, c: Culture)
    requires At(s, p, KeyPrefix(k)) && Plain(k)
    requires x == p + |k| + 3 && ParseValue(s, x, c) == Ok((v, e))
    ensures ParseMember(s, p, c) == Ok((Some((k, v)), e))
  {
    var b := p + |k| + 2;
    AtSplit(s, p, Quoted(k), Lit(": "));
    assert s[b] == COLON;
    SkipBlank(s, b, b);
    ReadQuoted(s, p, k);
    assert ParseString(s, p) == Ok((k, b)) && NextToken(s, b) == Ok((Colon, b));
  }

  /** One such member after white space: the object loop stores it and goes on after it. */
  lemma MemberStep(s: Text, q: nat, p: nat, k: Text, v: Value, x: nat, e: nat, acc: seq<Entry<Value>>, c: Culture)
    requires Blank(s, q, p) && At(s, p, KeyPrefix(k)) && Plain(k)
    requires x == p + |k| + 3 && ParseValue(s, x, c) == Ok((v, e))
    ensures ParseObject(s, q, acc, c) == ParseObject(s, e, Put(acc, k, v), c)
  {
    assert s[p] == KeyPrefix(k)[0];
    StringToken(s, q, p);
    ReadMember(s, p, k, v, x, e, c);
    MemberLoop(s, q, p, k, v, e, acc, c);
  }

  /** A quote after white space is a string token, left for the string reader. */
  lemma StringToken(s: Text, q: nat, p: nat)
    requires Blank(s, q, p) && p < |s| && s[p] == QUOTE
    ensures NextToken(s, q) == Ok((StringStart, p))
  {
    SkipBlank(s, q, p);
  }

  /** A member read after a string token is stored and the loop goes on after it. */
  lemma MemberLoop(s: Text, q: nat, p: nat, k: Text, v: Value, e: nat, acc: seq<Entry<Value>>, c: Culture)
    requires q <= |s| && p <= |s| && e <= |s|
    requires NextToken(s, q) == Ok((StringStart, p)) && ParseMember(s, p, c) == Ok((Some((k, v)), e))
    ensures ParseObject(s, q, acc, c) == ParseObject(s, e, Put(acc, k, v), c)
  {
    assert NextToken(s, q).value.0 !in {NoToken, Comma, CurlyClose};
  }

  lemma CommaStep(s: Text, q: nat, p: nat, n: nat, acc: seq<Entry<Value>>, c: Culture)
    requires Blank(s, q, p) && p < |s| && s[p] == COMMA && n == p + 1
    ensures ParseObject(s, q, acc, c) == ParseObject(s, n, acc, c)
  {
    SkipBlank(s, q, p);
    assert NextToken(s, q) == Ok((Comma, n));
    assert NextToken(s, q).value.0 != NoToken;
  }

  /** What the object loop returns on `}` with `data` stored, the brace ending before `e`. */
  function ClosedAt(data: seq<Entry<Value>>, e: nat): Result<(Value, nat)>
  {
    var v :- CloseObject(data);
    Ok((v, e))
  }

  lemma CloseStep(s: Text, q: nat, p: nat, acc: seq<Entry<Value>>, c: Culture)
    requires Blank(s, q, p) && p < |s| && s[p] == RBRACE
    ensures ParseObject(s, q, acc, c) == ClosedAt(acc, p + 1)
  {
    SkipBlank(s, q, p);
    assert NextToken(s, q) == Ok((CurlyClose, p + 1));
    assert NextToken(s, q).value.0 !in {NoToken, Comma};
  }

  /**
   * An item: whenever the next token starts a value (anything but the end,
   * a comma, `]` or `:`), the array loop reads that value, appends it, and
   * goes on after it.
   */
  lemma ItemStep(s: Text, q: nat, v: Value, e: nat, items: seq<Value>, c: Culture)
    requires q <= |s| && NextToken(s, q).Ok? && NextToken(s, q).value.0 !in {NoToken, Comma, SquaredClose, Colon}
    requires ParseValue(s, q, c) == Ok((v, e))
    ensures ParseArray(s, q, items, c) == ParseArray(s, e, items + [v], c)
  {
  }

  /** An item that starts with `{` after blanks is one such item. */
  lemma ObjectItemStep(s: Text, q: nat, p: nat, v: Value, e: nat, items: seq<Value>, c: Culture)
    requires Blank(s, q, p) && p < |s| && s[p] == LBRACE
    requires ParseValue(s, q, c) == Ok((v, e))
    ensures ParseArray(s, q, items, c) == ParseArray(s, e, items + [v], c)
  {
    SkipBlank(s, q, p);
    assert NextToken(s, q) == Ok((CurlyOpen, p));
    ItemStep(s, q, v, e, items, c);
  }

  lemma ItemCommaStep(s: Text, q: nat, p: nat, items: seq<Value>, c: Culture)
    requires Blank(s, q, p) && p < |s| && s[p] == COMMA
    ensures ParseArray(s, q, items, c) == ParseArray(s, p + 1, items, c)
  {
    SkipBlank(s, q, p);
    assert NextToken(s, q) == Ok((Comma, p + 1));
    assert NextToken(s, q).value.0 != NoToken;
  }

  lemma ItemCloseStep(s: Text, q: nat, p: nat, items: seq<Value>, c: Culture)
    requires Blank(s, q, p) && p < |s| && s[p] == RBRACKET
    ensures ParseArray(s, q, items, c) == Ok((ArrayNode(items), p + 1))
  {
    SkipBlank(s, q, p);
    assert NextToken(s, q) == Ok((SquaredClose, p + 1));
    assert NextToken(s, q).value.0 !in {NoToken, Comma};
  }

  /** Letters need no escaping. */
  lemma WordPlain(t: Text)
    requires IsWord(t)
    ensures Plain(t)
  {
  }

  lemma HeadOpen()
    ensures Lit("{\"JsonType\": \"") == [LBRACE] + KeyPrefix(JsonTypeKey()) + [QUOTE]
  {
  }

  lemma HeadMiddle()
    ensures Lit("\", \"DataType\": \"") == [QUOTE] + SEPARATOR + KeyPrefix(DataTypeKey()) + [QUOTE]
  {
  }

  lemma HeadClose()
    ensures Lit("\", \"Value\": ") == [QUOTE] + SEPARATOR + KeyPrefix(ValueKey())
  {
  }

  lemma Regroup(open: Text, k1: Text, q: Text, n1: Text, sep: Text, k2: Text, n2: Text, k3: Text)
    ensures (open + k1 + q) + n1 + (q + sep + k2 + q) + n2 + (q + sep + k3)
            == open + k1 + (q + n1 + q) + sep + k2 + (q + n2 + q) + sep + k3
  {
  }

  /** The written envelope head is an object's first members: the two names, then the `"Value"` key. */
  lemma EnvelopeText(jt: JsonTypes, dt: DataTypes)
    ensures EnvelopeHead(jt, dt)
            == [LBRACE] + KeyPrefix(JsonTypeKey()) + Quoted(JsonTypeName(jt)) + SEPARATOR
               + KeyPrefix(DataTypeKey()) + Quoted(DataTypeName(dt)) + SEPARATOR + KeyPrefix(ValueKey())
  {
    HeadOpen();
    HeadMiddle();
    HeadClose();
    Regroup([LBRACE], KeyPrefix(JsonTypeKey()), [QUOTE], JsonTypeName(jt), SEPARATOR, KeyPrefix(DataTypeKey()),
            DataTypeName(dt), KeyPrefix(ValueKey()));
  }

  /** The three members of an envelope, as the object loop stores them. */
  function EnvelopeMembers(jt: JsonTypes, dt: DataTypes, u: Value): seq<Entry<Value>>
  {
    [Entry(JsonTypeKey(), StringNode(JsonTypeName(jt))), Entry(DataTypeKey(), StringNode(DataTypeName(dt))),
     Entry(ValueKey(), u)]
  }

  /** Closing an envelope retags its value. */
  lemma CloseEnvelope(jt: JsonTypes, dt: DataTypes, u: Value)
    requires u.Node?
    ensures CloseObject(EnvelopeMembers(jt, dt, u)) == Ok(Retag(u, jt, dt))
  {
    var ms := EnvelopeMembers(jt, dt, u);
    assert JsonTypeKey()[0] != DataTypeKey()[0];
    assert |ValueKey()| != |JsonTypeKey()| && |ValueKey()| != |DataTypeKey()|;
    GetIndex(ms, 0);
    GetIndex(ms, 1);
    GetIndex(ms, 2);
    assert HasKey(ms, JsonTypeKey()) && HasKey(ms, DataTypeKey());
    RetagByNames(jt, dt, u);
  }

  /** The names read back retag a node with the tags they name. */
  lemma RetagByNames(jt: JsonTypes, dt: DataTypes, u: Value)
    requires u.Node?
    ensures FromSerialization(StringNode(JsonTypeName(jt)), StringNode(DataTypeName(dt)), u) == Ok(Retag(u, jt, dt))
  {
    ParseNames(jt, dt);
  }

  /** Storing the three envelope members one after the other. */
  lemma StoreEnvelope(jt: JsonTypes, dt: DataTypes, u: Value)
    ensures Put(Put(Put([], JsonTypeKey(), StringNode(JsonTypeName(jt))), DataTypeKey(), StringNode(DataTypeName(dt))),
                ValueKey(), u)
            == EnvelopeMembers(jt, dt, u)
  {
    assert JsonTypeKey()[0] != DataTypeKey()[0];
    assert |ValueKey()| != |JsonTypeKey()| && |ValueKey()| != |DataTypeKey()|;
    var m0 := [Entry(JsonTypeKey(), StringNode(JsonTypeName(jt)))];
    assert !HasKey(m0, DataTypeKey());
    var m1 := m0 + [Entry(DataTypeKey(), StringNode(DataTypeName(dt)))];
    assert !HasKey(m1, ValueKey());
  }

  /** The shape of `"k": `. */
  lemma KeyPrefixShape(k: Text)
    ensures |KeyPrefix(k)| == |k| + 4
    ensures KeyPrefix(k)[0] == QUOTE && KeyPrefix(k)[|k| + 3] == SPACE
  {
  }

  lemma SeparatorShape()
    ensures SEPARATOR == [COMMA, SPACE]
  {
  }

  lemma AtSeparator(s: Text, x: nat)
    requires At(s, x, SEPARATOR)
    ensures x + 2 <= |s| && s[x] == COMMA && s[x + 1] == SPACE
  {
    SeparatorShape();
    assert s[x] == SEPARATOR[0] && s[x + 1] == SEPARATOR[1];
  }

  lemma AtKeyPrefix(s: Text, x: nat, k: Text)
    requires At(s, x, KeyPrefix(k))
    ensures x + |k| + 4 <= |s| && s[x] == QUOTE && s[x + |k| + 3] == SPACE
  {
    KeyPrefixShape(k);
    assert s[x] == KeyPrefix(k)[0] && s[x + |k| + 3] == KeyPrefix(k)[|k| + 3];
  }

  /** Where the pieces of `"k": "n", ` stand. */
  lemma NameLayout(s: Text, p: nat, k: Text, n: Text, d: nat)
    requires At(s, p, KeyPrefix(k) + Quoted(n) + SEPARATOR) && d == p + |k| + |n| + 6
    ensures At(s, p, KeyPrefix(k)) && s[p + |k| + 3] == SPACE && At(s, p + |k| + 4, Quoted(n))
    ensures d + 2 <= |s| && s[d] == COMMA && s[d + 1] == SPACE
  {
    KeyPrefixShape(k);
    AtSplit(s, p, KeyPrefix(k) + Quoted(n), SEPARATOR);
    AtSplit(s, p, KeyPrefix(k), Quoted(n));
    AtKeyPrefix(s, p, k);
    AtSeparator(s, d);
  }

  /** A member holding a quoted plain name: the object loop stores it and goes on after the closing quote. */
  lemma StringMember(s: Text, q: nat, p: nat, k: Text, n: Text, e: nat, acc: seq<Entry<Value>>, c: Culture)
    requires Plain(k) && Plain(n) && e == p + |k| + |n| + 6
    requires Blank(s, q, p) && At(s, p, KeyPrefix(k)) && p + |k| + 4 <= |s| && s[p + |k| + 3] == SPACE
    requires At(s, p + |k| + 4, Quoted(n))
    ensures ParseObject(s, q, acc, c) == ParseObject(s, e, Put(acc, k, StringNode(n)), c)
  {
    ReadString(s, p + |k| + 3, p + |k| + 4, n, c);
    MemberStep(s, q, p, k, StringNode(n), p + |k| + 3, e, acc, c);
  }

  /** The same member followed by `, `: the loop goes on after the comma. */
  lemma NameMember(s: Text, q: nat, p: nat, k: Text, n: Text, e: nat, acc: seq<Entry<Value>>, c: Culture)
    requires Plain(k) && Plain(n) && e == p + |k| + |n| + 7
    requires Blank(s, q, p) && At(s, p, KeyPrefix(k) + Quoted(n) + SEPARATOR)
    ensures ParseObject(s, q, acc, c) == ParseObject(s, e, Put(acc, k, StringNode(n)), c)
  {
    var d := p + |k| + |n| + 6;
    NameLayout(s, p, k, n, d);
    StringMember(s, q, p, k, n, d, acc, c);
    CommaStep(s, d, d, e, Put(acc, k, StringNode(n)), c);
  }

  /**
   * A last member whose value reads back from the space at `x` up to `e`,
   * then `}`: the object closes after the brace.
   */
  lemma LastMember(s: Text, q: nat, p: nat, k: Text, b: Text, u: Value, x: nat, e: nat, acc: seq<Entry<Value>>,
                   c: Culture)
    requires Plain(k) && x == p + |k| + 3 && e == x + 1 + |b|
    requires Blank(s, q, p) && At(s, p, KeyPrefix(k) + b + [RBRACE])
    requires x <= |s| && ParseValue(s, x, c) == Ok((u, e))
    ensures ParseObject(s, q, acc, c) == ClosedAt(Put(acc, k, u), e + 1)
  {
    KeyPrefixShape(k);
    AtSplit(s, p, KeyPrefix(k) + b, [RBRACE]);
    AtSplit(s, p, KeyPrefix(k), b);
    assert s[e] == [RBRACE][0];
    MemberStep(s, q, p, k, u, x, e, acc, c);
    CloseStep(s, e, e, Put(acc, k, u), c);
  }

  lemma Group(o: Text, a1: Text, a2: Text, a3: Text, b1: Text, b2: Text, b3: Text, c1: Text, x: Text, y: Text)
    ensures o + a1 + a2 + a3 + b1 + b2 + b3 + c1 + x + y == o + (a1 + a2 + a3) + (b1 + b2 + b3) + (c1 + x + y)
  {
  }

  /** An object after white space: the reader goes into the member loop after the brace. */
  lemma ObjectOpen(s: Text, q: nat, p: nat, c: Culture)
    requires Blank(s, q, p) && p < |s| && s[p] == LBRACE
    ensures ParseValue(s, q, c) == ParseObject(s, p + 1, [], c)
  {
    SkipBlank(s, q, p);
    assert NextToken(s, q) == Ok((CurlyOpen, p));
    assert ParseByToken(CurlyOpen, s, p, c) == ParseObject(s, p + 1, [], c);
  }

  /** An array after white space: the reader goes into the item loop after the bracket. */
  lemma ArrayOpen(s: Text, q: nat, p: nat, c: Culture)
    requires Blank(s, q, p) && p < |s| && s[p] == LBRACKET
    ensures ParseValue(s, q, c) == ParseArray(s, p + 1, [], c)
  {
    SkipBlank(s, q, p);
    assert NextToken(s, q) == Ok((SquaredOpen, p));
    assert ParseByToken(SquaredOpen, s, p, c) == ParseArray(s, p + 1, [], c);
  }

  /** Where the three members of `{m1m2m3` stand: the first after the brace, the others after `q2` and `q3`. */
  lemma ThreeLayout(s: Text, p: nat, m1: Text, m2: Text, m3: Text, q2: nat, q3: nat)
    requires At(s, p, [LBRACE] + m1 + m2 + m3) && |m1| > 0 && |m2| > 0
    requires q2 == p + |m1| && q3 == q2 + |m2|
    ensures s[p] == LBRACE && At(s, p + 1, m1) && At(s, q2 + 1, m2) && At(s, q3 + 1, m3)
    ensures s[q2] == m1[|m1| - 1] && s[q3] == m2[|m2| - 1]
  {
    AtSplit(s, p, [LBRACE] + m1 + m2, m3);
    AtSplit(s, p, [LBRACE] + m1, m2);
    AtSplit(s, p, [LBRACE], m1);
    assert s[p] == [LBRACE][0];
  }

  /** `"k": "n", ` is eight longer than its key and name, and ends in a space. */
  lemma NameShape(k: Text, n: Text)
    ensures var m := KeyPrefix(k) + Quoted(n) + SEPARATOR;
            |m| == |k| + |n| + 8 && m[|m| - 1] == SPACE
  {
    KeyPrefixShape(k);
    SeparatorShape();
  }

  /** One space is white space. */
  lemma OneSpace(s: Text, q: nat)
    requires q < |s| && s[q] == SPACE
    ensures Blank(s, q, q + 1)
  {
  }

  /** Two name members, from just after the brace at `p - 1`: the loop goes on at the space `q3` after them. */
  lemma TwoNames(s: Text, p: nat, k1: Text, n1: Text, k2: Text, n2: Text, q2: nat, q3: nat, c: Culture)
    requires Plain(k1) && Plain(n1) && Plain(k2) && Plain(n2)
    requires q2 == p + |k1| + |n1| + 7 && q3 == q2 + |k2| + |n2| + 8 && q3 <= |s|
    requires At(s, p, KeyPrefix(k1) + Quoted(n1) + SEPARATOR)
    requires q2 < |s| && s[q2] == SPACE && At(s, q2 + 1, KeyPrefix(k2) + Quoted(n2) + SEPARATOR)
    ensures ParseObject(s, p, [], c)
            == ParseObject(s, q3, Put(Put([], k1, StringNode(n1)), k2, StringNode(n2)), c)
  {
    var a1 := Put([], k1, StringNode(n1));
    OneSpace(s, q2);
    NameMember(s, p, p, k1, n1, q2, [], c);
    NameMember(s, q2, q2 + 1, k2, n2, q3, a1, c);
  }

  /** Two name members then a last one, from just after the brace at `p - 1`. */
  lemma ThreeMembers(s: Text, p: nat, k1: Text, n1: Text, k2: Text, n2: Text, k3: Text, b: Text, u: Value,
                     q2: nat, q3: nat, p3: nat, x: nat, e: nat, c: Culture)
    requires Plain(k1) && Plain(n1) && Plain(k2) && Plain(n2) && Plain(k3)
    requires q2 == p + |k1| + |n1| + 7 && q3 == q2 + |k2| + |n2| + 8
    requires At(s, p, KeyPrefix(k1) + Quoted(n1) + SEPARATOR)
    requires q2 < |s| && s[q2] == SPACE && At(s, q2 + 1, KeyPrefix(k2) + Quoted(n2) + SEPARATOR)
    requires Blank(s, q3, p3) && At(s, p3, KeyPrefix(k3) + b + [RBRACE])
    requires x == p3 + |k3| + 3 && e == x + 1 + |b|
    requires x <= |s| && ParseValue(s, x, c) == Ok((u, e))
    ensures ParseObject(s, p, [], c)
            == ClosedAt(Put(Put(Put([], k1, StringNode(n1)), k2, StringNode(n2)), k3, u), e + 1)
  {
    var a2 := Put(Put([], k1, StringNode(n1)), k2, StringNode(n2));
    TwoNames(s, p, k1, n1, k2, n2, q2, q3, c);
    LastMember(s, q3, p3, k3, b, u, x, e, a2, c);
  }

  /**
   * An object of three members after white space, the first two holding
   * quoted plain names and the third a value `u` that reads back from the
   * space at `x` up to `e`: the reader closes the three members stored in order.
   */
  lemma ReadThree(s: Text, q: nat, p: nat, k1: Text, n1: Text, k2: Text, n2: Text, k3: Text, b: Text, u: Value,
                  x: nat, e: nat, c: Culture)
    requires Plain(k1) && Plain(n1) && Plain(k2) && Plain(n2) && Plain(k3)
    requires Blank(s, q, p)
    requires At(s, p, [LBRACE] + (KeyPrefix(k1) + Quoted(n1) + SEPARATOR) + (KeyPrefix(k2) + Quoted(n2) + SEPARATOR)
                      + (KeyPrefix(k3) + b + [RBRACE]))
    requires x == p + |k1| + |n1| + |k2| + |n2| + |k3| + 20 && e == x + 1 + |b|
    requires x <= |s| && ParseValue(s, x, c) == Ok((u, e))
    ensures ParseValue(s, q, c)
            == ClosedAt(Put(Put(Put([], k1, StringNode(n1)), k2, StringNode(n2)), k3, u), e + 1)
  {
    var m1 := KeyPrefix(k1) + Quoted(n1) + SEPARATOR;
    var m2 := KeyPrefix(k2) + Quoted(n2) + SEPARATOR;
    NameShape(k1, n1);
    NameShape(k2, n2);
    var q2 := p + |m1|;
    var q3 := q2 + |m2|;
    ThreeLayout(s, p, m1, m2, KeyPrefix(k3) + b + [RBRACE], q2, q3);
    OneSpace(s, q3);
    assert q2 == p + 1 + |k1| + |n1| + 7;
    assert q3 == q2 + |k2| + |n2| + 8;
    assert q2 < |s| && s[q2] == SPACE;
    assert Blank(s, q3, q3 + 1);
    assert x == q3 + 1 + |k3| + 3;
    ObjectOpen(s, q, p, c);
    ThreeMembers(s, p + 1, k1, n1, k2, n2, k3, b, u, q2, q3, q3 + 1, x, e, c);
  }

  /**
   * An envelope after white space whose body reads back as `u` from the
   * space at `x` before it up to `e`: the reader returns `u` retagged with
   * the two names.
   */
  lemma ReadEnvelope(s: Text, q: nat, p: nat, jt: JsonTypes, dt: DataTypes, b: Text, u: Value, x: nat, e: nat,
                     c: Culture)
    requires u.Node?
    requires Blank(s, q, p) && At(s, p, EnvelopeHead(jt, dt) + b + [RBRACE])
    requires x == p + |EnvelopeHead(jt, dt)| - 1 && e == x + 1 + |b|
    requires x <= |s| && ParseValue(s, x, c) == Ok((u, e))
    ensures ParseValue(s, q, c) == Ok((Retag(u, jt, dt), e + 1))
  {
    EnvelopeText(jt, dt);
    KeyPrefixShape(JsonTypeKey());
    KeyPrefixShape(DataTypeKey());
    KeyPrefixShape(ValueKey());
    SeparatorShape();
    EnvelopeNamesPlain(jt, dt);
    Group([LBRACE], KeyPrefix(JsonTypeKey()), Quoted(JsonTypeName(jt)), SEPARATOR,
          KeyPrefix(DataTypeKey()), Quoted(DataTypeName(dt)), SEPARATOR, KeyPrefix(ValueKey()), b, [RBRACE]);
    ReadThree(s, q, p, JsonTypeKey(), JsonTypeName(jt), DataTypeKey(), DataTypeName(dt), ValueKey(), b, u, x, e, c);
    StoreEnvelope(jt, dt, u);
    CloseEnvelope(jt, dt, u);
  }

  /** The keys and names of an envelope are plain. */
  lemma EnvelopeNamesPlain(jt: JsonTypes, dt: DataTypes)
    ensures Plain(JsonTypeKey()) && Plain(DataTypeKey()) && Plain(ValueKey())
    ensures Plain(JsonTypeName(jt)) && Plain(DataTypeName(dt))
  {
    JsonTypeNameIsWord(jt);
    DataTypeNameIsWord(dt);
    WordPlain(JsonTypeName(jt));
    WordPlain(DataTypeName(dt));
    LitIsWord("JsonType");
    LitIsWord("DataType");
    LitIsWord("Value");
    WordPlain(JsonTypeKey());
    WordPlain(DataTypeKey());
    WordPlain(ValueKey());
  }
}
