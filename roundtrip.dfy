/**
 * The typed round trip: `Deserialize(Serialize(v)) == v` for every value
 * the typed writer can express and the reader can read back (`Portable`),
 * and what becomes of a TimeSpan, which the writer cannot express.
 *
 * The reading lemmas follow the written text from the outside in: a value
 * is an envelope around a body; an Array body is items joined by ", "; an
 * Object body is members joined by ", ". Every lemma takes the positions it
 * speaks about as parameters, so that the reader's results at those
 * positions line up from one lemma to the next.
 */
module RoundTrip {
  import opened Base
  import opened Dict
  import opened Tags
  import opened Values
  import opened Lexer
  import opened Grammar
  import opened Writer
  import opened ReadSteps

  /** What the reader makes of a node's body alone, before the envelope retags it. */
  function Untagged(v: Value): (u: Value)
    requires v.Node?
    ensures u.Node?
  {
    match v.jsonType
    case Undefined => NullNode()
    case Null => NullNode()
    case String => StringNode(v.str)
    case Boolean => BoolNode(v.boolean)
    case Number => NumberNode(v.number)
    case Array => ArrayNode(v.items)
    case Object => ObjectNode(v.members)
  }

  /**
   * Every slot the writer leaves out for the node's JSON type is at its
   * default: a node whose type was changed by a later setter still holds
   * the old payload, which no text carries.
   */
  predicate Canonical(v: Value)
    requires v.Node?
  {
    Retag(Untagged(v), v.jsonType, v.dataType) == v
  }

  /** A child of a non-Container Object that is shown as a bare number which reads back. */
  predicate ShownNumber(u: Value, c: Culture)
  {
    u.Node? && u == NumberNode(u.number) && NumberRoundTrips(c, u.number)
  }

  /**
   * The values that survive `Serialize` then `Deserialize`: no null
   * reference, canonical slots, strings and keys without a quote or a
   * backslash (nothing is escaped), numbers whose text reads back, no
   * object that looks like an envelope, and only numbers under a
   * non-Container Object (its children are shown, not written).
   */
  predicate Portable(v: Value, c: Culture)
    decreases v
  {
    && v.Node?
    && Canonical(v)
    && match v.jsonType
       case String => Plain(v.str)
       case Number => NumberRoundTrips(c, v.number)
       case Array => forall i :: 0 <= i < |v.items| ==> Portable(v.items[i], c)
       case Object =>
         && DistinctKeys(v.members)
         && !(HasKey(v.members, JsonTypeKey()) && HasKey(v.members, DataTypeKey()))
         && (forall i :: 0 <= i < |v.members| ==> Plain(v.members[i].key))
         && if v.dataType == Container then forall i :: 0 <= i < |v.members| ==> Portable(v.members[i].value, c)
            else forall i :: 0 <= i < |v.members| ==> ShownNumber(v.members[i].value, c)
       case _ => true
  }

  /** The texts of an Object's members as its body joins them: written for a Container, shown otherwise. */
  function MemberParts(v: Value, c: Culture): Result<seq<Text>>
    requires v.Node?
  {
    if v.dataType == Container then Collect(MemberWrites(v.members, true, c)) else Collect(MemberShows(v.members, c))
  }

  /** The envelope opens with a brace and its head ends with the space before the body. */
  lemma EnvelopeShape(jt: JsonTypes, dt: DataTypes)
    ensures var h := EnvelopeHead(jt, dt);
            |h| >= 2 && h[0] == LBRACE && h[|h| - 1] == SPACE
  {
    EnvelopeText(jt, dt);
    KeyPrefixShape(ValueKey());
  }

  /** Every typed text opens with a brace. */
  lemma WrittenOpens(v: Value, c: Culture, w: Text)
    requires Write(v, true, c) == Ok(w)
    ensures |w| > 0 && w[0] == LBRACE
  {
    EnvelopeShape(v.jsonType, v.dataType);
  }

  /** Where the body and the closing brace of an envelope stand. */
  lemma EnvelopeEnd(s: Text, p: nat, jt: JsonTypes, dt: DataTypes, b: Text, x: nat, e: nat)
    requires At(s, p, EnvelopeHead(jt, dt) + b + [RBRACE])
    requires x == p + |EnvelopeHead(jt, dt)| - 1 && e == x + 1 + |b|
    ensures x < |s| && s[x] == SPACE && At(s, x + 1, b) && e < |s| && s[e] == RBRACE
  {
    var h := EnvelopeHead(jt, dt);
    EnvelopeShape(jt, dt);
    AtSplit(s, p, h + b, [RBRACE]);
    AtSplit(s, p, h, b);
    assert s[x] == h[|h| - 1];
    assert s[e] == [RBRACE][0];
  }

  /** The joined parts from the `i`-th on: the part, then a separator and the rest unless it is the last. */
  lemma JoinFrom(parts: seq<Text>, i: nat)
    requires i < |parts|
    ensures Join(parts[i..]) == if i + 1 < |parts| then parts[i] + SEPARATOR + Join(parts[i + 1..]) else parts[i]
  {
    var t := parts[i..];
    assert t[0] == parts[i];
    assert t[1..] == parts[i + 1..];
  }

  /**
   * Where the `i`-th part of a joined text that ends with `closer` stands,
   * and what follows it.
   */
  lemma JoinAt(s: Text, z: nat, parts: seq<Text>, i: nat, closer: CodeUnit, f: nat, e: nat)
    requires i < |parts| && At(s, z, Join(parts[i..]) + [closer]) && IsWordBreak(closer)
    requires f == z + |parts[i]| && e == z + |Join(parts[i..])| + 1
    ensures At(s, z, parts[i]) && Blank(s, f, f) && f < |s| && IsWordBreak(s[f])
    ensures i + 1 < |parts| ==>
              && s[f] == COMMA && Blank(s, f + 1, f + 2)
              && At(s, f + 2, Join(parts[i + 1..]) + [closer]) && e == f + 2 + |Join(parts[i + 1..])| + 1
    ensures i + 1 == |parts| ==> s[f] == closer && e == f + 1
  {
    JoinFrom(parts, i);
    if i + 1 < |parts| {
      var rest := Join(parts[i + 1..]) + [closer];
      assert Join(parts[i..]) + [closer] == parts[i] + SEPARATOR + rest;
      AtSplit(s, z, parts[i] + SEPARATOR, rest);
      AtSplit(s, z, parts[i], SEPARATOR);
      AtSeparator(s, f);
      OneSpace(s, f + 1);
    } else {
      AtSplit(s, z, parts[i], [closer]);
      CharAt(s, f, closer);
    }
  }

  /** `"k": ` then `t` at `z`: the key, the space after the colon, and `t` after it. */
  lemma KeyAt(s: Text, z: nat, k: Text, t: Text)
    requires At(s, z, KeyPrefix(k) + t)
    ensures At(s, z, KeyPrefix(k)) && Blank(s, z + |k| + 3, z + |k| + 4) && At(s, z + |k| + 4, t)
  {
    KeyPrefixShape(k);
    AtSplit(s, z, KeyPrefix(k), t);
    AtKeyPrefix(s, z, k);
    OneSpace(s, z + |k| + 3);
  }

  /** Appending the `i`-th element to the ones before it. */
  lemma Snoc<T>(xs: seq<T>, i: nat)
    requires i < |xs|
    ensures xs[..i] + [xs[i]] == xs[..i + 1]
  {
  }

  /** Storing the next member of a dictionary with distinct keys extends the prefix stored so far. */
  lemma PutNext(ms: seq<Entry<Value>>, i: nat)
    requires DistinctKeys(ms) && i < |ms|
    ensures Put(ms[..i], ms[i].key, ms[i].value) == ms[..i + 1]
  {
    assert !HasKey(ms[..i], ms[i].key) by {
      forall j | 0 <= j < i ensures ms[..i][j].key != ms[i].key {
        assert ms[j].key != ms[i].key;
      }
    }
    assert ms[..i] + [ms[i]] == ms[..i + 1];
  }

  /** A `null`, `true` or `false` body after the space: the node it stands for. */
  lemma ReadsWord(v: Value, c: Culture, s: Text, x: nat, b: Text, e: nat)
    requires v.Node? && v.jsonType in {JsonTypes.Undefined, Null, Boolean} && Body(v, true, c) == Ok(b)
    requires Blank(s, x, x + 1) && At(s, x + 1, b) && e == x + 1 + |b| && e < |s| && IsWordBreak(s[e])
    ensures ParseValue(s, x, c) == Ok((Untagged(v), e))
  {
    assert Lit("true")[0] != Lit("null")[0] && Lit("false")[0] != Lit("null")[0] && Lit("true")[0] != Lit("false")[0];
    ReadBareword(s, x, x + 1, b, c);
  }

  /** A quoted string or a number body after the space: the node it stands for. */
  lemma ReadsScalar(v: Value, c: Culture, s: Text, x: nat, b: Text, e: nat)
    requires v.Node? && v.jsonType in {JsonTypes.String, Number} && Body(v, true, c) == Ok(b)
    requires v.jsonType == String ==> Plain(v.str)
    requires v.jsonType == Number ==> NumberRoundTrips(c, v.number)
    requires Blank(s, x, x + 1) && At(s, x + 1, b) && e == x + 1 + |b| && e < |s| && IsWordBreak(s[e])
    ensures ParseValue(s, x, c) == Ok((Untagged(v), e))
  {
    if v.jsonType == String {
      ReadString(s, x, x + 1, v.str, c);
    } else {
      ReadNumber(s, x, x + 1, v.number, e, c);
    }
  }

  /** `s` holds the single code unit `ch` at `x`. */
  lemma CharAt(s: Text, x: nat, ch: CodeUnit)
    requires At(s, x, [ch])
    ensures x < |s| && s[x] == ch
  {
    assert s[x] == [ch][0];
  }

  /** `s` holds `ch` then `rest` at `x`. */
  lemma OpenAt(s: Text, x: nat, ch: CodeUnit, rest: Text)
    requires At(s, x, [ch] + rest)
    ensures x < |s| && s[x] == ch && At(s, x + 1, rest)
  {
    AtSplit(s, x, [ch], rest);
    CharAt(s, x, ch);
  }

  /** An Array body is its written items joined, in brackets. */
  lemma ArrayText(v: Value, c: Culture, b: Text)
    requires v.Node? && v.jsonType == Array && Body(v, true, c) == Ok(b)
    ensures Collect(Writes(v.items, true, c)).Ok?
    ensures var j := Join(Collect(Writes(v.items, true, c)).value);
            b == [LBRACKET] + (j + [RBRACKET]) && |b| == |j| + 2
  {
  }

  /** An Object body is its member texts joined, in braces. */
  lemma ObjectText(v: Value, c: Culture, b: Text)
    requires v.Node? && v.jsonType == Object && Body(v, true, c) == Ok(b)
    ensures MemberParts(v, c).Ok?
    ensures var j := Join(MemberParts(v, c).value);
            b == [LBRACE] + (j + [RBRACE]) && |b| == |j| + 2
  {
  }

  /** The text of the `i`-th item is that item written in typed mode. */
  lemma ItemPart(v: Value, c: Culture, parts: seq<Text>, i: nat)
    requires v.Node? && Collect(Writes(v.items, true, c)) == Ok(parts) && i < |parts|
    ensures i < |v.items| && Write(v.items[i], true, c) == Ok(parts[i])
  {
  }

  /** The text of the `i`-th member of a Container: its key, then its value written in typed mode. */
  lemma WrittenPart(v: Value, c: Culture, parts: seq<Text>, i: nat)
    requires v.Node? && v.dataType == Container && MemberParts(v, c) == Ok(parts) && i < |parts|
    ensures i < |v.members| && Write(v.members[i].value, true, c).Ok?
    ensures parts[i] == KeyPrefix(v.members[i].key) + Write(v.members[i].value, true, c).value
  {
    assert MemberWrites(v.members, true, c)[i] == Ok(parts[i]);
  }

  /** The text of the `i`-th member of any other Object whose members are numbers: its key, then the number. */
  lemma ShownPart(v: Value, c: Culture, parts: seq<Text>, i: nat)
    requires v.Node? && v.dataType != Container && MemberParts(v, c) == Ok(parts) && i < |parts|
    requires i < |v.members| ==> ShownNumber(v.members[i].value, c)
    ensures i < |v.members| && parts[i] == KeyPrefix(v.members[i].key) + c.format(v.members[i].value.number)
  {
    assert MemberShows(v.members, c)[i] == Ok(parts[i]);
    var m := v.members[i];
    assert m.value == Node(Number, Primitive, [], false, m.value.number, [], []);
    assert Show(m.value, c) == Ok(c.format(m.value.number));
  }

  /** Having read the body from the space at `x` to `d`, the reader closes the envelope at `d`. */
  lemma EnvelopeDone(v: Value, c: Culture, s: Text, q: nat, p: nat, b: Text, x: nat, d: nat, e: nat)
    requires v.Node? && Canonical(v)
    requires Blank(s, q, p) && At(s, p, EnvelopeHead(v.jsonType, v.dataType) + b + [RBRACE])
    requires x == p + |EnvelopeHead(v.jsonType, v.dataType)| - 1 && d == x + 1 + |b| && e == d + 1
    requires x <= |s| && ParseValue(s, x, c) == Ok((Untagged(v), d))
    ensures ParseValue(s, q, c) == Ok((v, e))
  {
    ReadEnvelope(s, q, p, v.jsonType, v.dataType, b, Untagged(v), x, d, c);
  }

  /** A written value after white space reads back as itself. */
  lemma {:induction false} ReadsValue(v: Value, c: Culture, s: Text, q: nat, p: nat, w: Text, e: nat)
    requires Portable(v, c) && Write(v, true, c) == Ok(w)
    requires Blank(s, q, p) && At(s, p, w) && e == p + |w|
    ensures ParseValue(s, q, c) == Ok((v, e))
    decreases v, 6, 0
  {
    var b := Body(v, true, c).value;
    var h := EnvelopeHead(v.jsonType, v.dataType);
    assert w == h + b + [RBRACE];
    EnvelopeShape(v.jsonType, v.dataType);
    var x := p + |h| - 1;
    var d := x + 1 + |b|;
    EnvelopeEnd(s, p, v.jsonType, v.dataType, b, x, d);
    ReadsBody(v, c, s, x, b, d);
    EnvelopeDone(v, c, s, q, p, b, x, d, e);
  }

  /** A body after the space that precedes it reads back as the untagged node. */
  lemma {:induction false} ReadsBody(v: Value, c: Culture, s: Text, x: nat, b: Text, e: nat)
    requires Portable(v, c) && Body(v, true, c) == Ok(b)
    requires x < |s| && s[x] == SPACE && At(s, x + 1, b) && e == x + 1 + |b| && e < |s| && IsWordBreak(s[e])
    ensures ParseValue(s, x, c) == Ok((Untagged(v), e))
    decreases v, 5, 0
  {
    OneSpace(s, x);
    if v.jsonType == Array {
      ReadsArray(v, c, s, x, b, e);
    } else if v.jsonType == Object {
      ReadsObject(v, c, s, x, b, e);
    } else if v.jsonType in {JsonTypes.String, Number} {
      ReadsScalar(v, c, s, x, b, e);
    } else {
      ReadsWord(v, c, s, x, b, e);
    }
  }

  /** An Array body: the bracket, the items in order, the closing bracket. */
  lemma {:induction false} ReadsArray(v: Value, c: Culture, s: Text, x: nat, b: Text, e: nat)
    requires Portable(v, c) && v.jsonType == Array && Body(v, true, c) == Ok(b)
    requires Blank(s, x, x + 1) && At(s, x + 1, b) && e == x + 1 + |b|
    ensures ParseValue(s, x, c) == Ok((Untagged(v), e))
    decreases v, 4, 1
  {
    ArrayText(v, c, b);
    var parts := Collect(Writes(v.items, true, c)).value;
    OpenAt(s, x + 1, LBRACKET, Join(parts) + [RBRACKET]);
    ArrayOpen(s, x, x + 1, c);
    ReadsItems(v, c, s, parts, x + 1 + 1, e);
  }

  /** The items of an Array body and its closing bracket, from just after the opening one. */
  lemma {:induction false} ReadsItems(v: Value, c: Culture, s: Text, parts: seq<Text>, z: nat, e: nat)
    requires Portable(v, c) && v.jsonType == Array && Collect(Writes(v.items, true, c)) == Ok(parts)
    requires At(s, z, Join(parts) + [RBRACKET]) && e == z + |Join(parts)| + 1
    ensures ParseArray(s, z, [], c) == Ok((ArrayNode(v.items), e))
    decreases v, 4, 0
  {
    if parts == [] {
      assert Join(parts) + [RBRACKET] == [RBRACKET];
      CharAt(s, z, RBRACKET);
      ItemCloseStep(s, z, z, [], c);
    } else {
      assert parts[0..] == parts;
      ReadItems(v, c, s, parts, 0, z, z, e, []);
    }
  }

  /**
   * The items from the `i`-th on, each after white space, then the closing
   * bracket: the loop, holding the first `i` items as `done`, ends with
   * all of them.
   */
  lemma {:induction false} ReadItems(v: Value, c: Culture, s: Text, parts: seq<Text>, i: nat, y: nat, z: nat,
                                     e: nat, done: seq<Value>)
    requires Portable(v, c) && v.jsonType == Array && Collect(Writes(v.items, true, c)) == Ok(parts)
    requires i < |parts| && Blank(s, y, z) && At(s, z, Join(parts[i..]) + [RBRACKET])
    requires e == z + |Join(parts[i..])| + 1 && done == v.items[..i]
    ensures ParseArray(s, y, done, c) == Ok((ArrayNode(v.items), e))
    decreases v, 3, |parts| - i
  {
    var f := z + |parts[i]|;
    JoinAt(s, z, parts, i, RBRACKET, f, e);
    ReadItem(v, c, s, parts, i, y, z, f, done);
    var next := done + [v.items[i]];
    Snoc(v.items, i);
    if i + 1 < |parts| {
      ItemCommaStep(s, f, f, next, c);
      ReadItems(v, c, s, parts, i + 1, f + 1, f + 2, e, next);
    } else {
      assert next == v.items;
      ItemCloseStep(s, f, f, next, c);
    }
  }

  /** The `i`-th item after white space: the array loop appends it. */
  lemma {:induction false} ReadItem(v: Value, c: Culture, s: Text, parts: seq<Text>, i: nat, y: nat, z: nat, f: nat,
                                    done: seq<Value>)
    requires Portable(v, c) && v.jsonType == Array && Collect(Writes(v.items, true, c)) == Ok(parts)
    requires i < |parts| && Blank(s, y, z) && At(s, z, parts[i]) && f == z + |parts[i]|
    ensures i < |v.items| && ParseArray(s, y, done, c) == ParseArray(s, f, done + [v.items[i]], c)
    decreases v, 2, 0
  {
    ItemPart(v, c, parts, i);
    WrittenOpens(v.items[i], c, parts[i]);
    assert s[z] == parts[i][0];
    ReadsValue(v.items[i], c, s, y, z, parts[i], f);
    ObjectItemStep(s, y, z, v.items[i], f, done, c);
  }

  /** An Object body: the brace, the members in order, the closing brace. */
  lemma {:induction false} ReadsObject(v: Value, c: Culture, s: Text, x: nat, b: Text, e: nat)
    requires Portable(v, c) && v.jsonType == Object && Body(v, true, c) == Ok(b)
    requires Blank(s, x, x + 1) && At(s, x + 1, b) && e == x + 1 + |b|
    ensures ParseValue(s, x, c) == Ok((Untagged(v), e))
    decreases v, 4, 1
  {
    ObjectText(v, c, b);
    var parts := MemberParts(v, c).value;
    OpenAt(s, x + 1, LBRACE, Join(parts) + [RBRACE]);
    ObjectOpen(s, x, x + 1, c);
    ReadsMembers(v, c, s, parts, x + 1 + 1, e);
  }

  /** The members of an Object body and its closing brace, from just after the opening one. */
  lemma {:induction false} ReadsMembers(v: Value, c: Culture, s: Text, parts: seq<Text>, z: nat, e: nat)
    requires Portable(v, c) && v.jsonType == Object && MemberParts(v, c) == Ok(parts)
    requires At(s, z, Join(parts) + [RBRACE]) && e == z + |Join(parts)| + 1
    ensures ParseObject(s, z, [], c) == Ok((ObjectNode(v.members), e))
    decreases v, 4, 0
  {
    if parts == [] {
      assert Join(parts) + [RBRACE] == [RBRACE];
      CharAt(s, z, RBRACE);
      CloseStep(s, z, z, [], c);
    } else {
      assert parts[0..] == parts;
      ReadMembers(v, c, s, parts, 0, z, z, e, []);
    }
  }

  /**
   * The members from the `i`-th on, each after white space, then the
   * closing brace: the loop, holding the first `i` members as `done`, ends
   * with all of them, which do not look like an envelope.
   */
  lemma {:induction false} ReadMembers(v: Value, c: Culture, s: Text, parts: seq<Text>, i: nat, y: nat, z: nat,
                                       e: nat, done: seq<Entry<Value>>)
    requires Portable(v, c) && v.jsonType == Object && MemberParts(v, c) == Ok(parts)
    requires i < |parts| && Blank(s, y, z) && At(s, z, Join(parts[i..]) + [RBRACE])
    requires e == z + |Join(parts[i..])| + 1 && done == v.members[..i]
    ensures ParseObject(s, y, done, c) == Ok((ObjectNode(v.members), e))
    decreases v, 3, |parts| - i
  {
    var f := z + |parts[i]|;
    JoinAt(s, z, parts, i, RBRACE, f, e);
    var next := v.members[..i + 1];
    ReadEntry(v, c, s, parts, i, y, z, f, done, next);
    if i + 1 < |parts| {
      CommaStep(s, f, f, f + 1, next, c);
      ReadMembers(v, c, s, parts, i + 1, f + 1, f + 2, e, next);
    } else {
      assert next == v.members;
      CloseMembers(s, f, e, next, c);
    }
  }

  /** A closing brace after members that do not look like an envelope gives back an Object holding them. */
  lemma CloseMembers(s: Text, f: nat, e: nat, ms: seq<Entry<Value>>, c: Culture)
    requires f < |s| && s[f] == RBRACE && e == f + 1
    requires !(HasKey(ms, JsonTypeKey()) && HasKey(ms, DataTypeKey()))
    ensures ParseObject(s, f, ms, c) == Ok((ObjectNode(ms), e))
  {
    CloseStep(s, f, f, ms, c);
  }

  /** The `i`-th member after white space: the object loop stores it after the ones before it. */
  lemma {:induction false} ReadEntry(v: Value, c: Culture, s: Text, parts: seq<Text>, i: nat, y: nat, z: nat, f: nat,
                                     done: seq<Entry<Value>>, next: seq<Entry<Value>>)
    requires Portable(v, c) && v.jsonType == Object && MemberParts(v, c) == Ok(parts)
    requires i < |parts| && Blank(s, y, z) && At(s, z, parts[i]) && f == z + |parts[i]|
    requires f < |s| && IsWordBreak(s[f])
    requires i < |v.members| && done == v.members[..i] && next == v.members[..i + 1]
    ensures ParseObject(s, y, done, c) == ParseObject(s, f, next, c)
    decreases v, 2, 0
  {
    PutNext(v.members, i);
    if v.dataType == Container {
      ReadWrittenEntry(v, c, s, parts, i, y, z, f, done);
    } else {
      ReadShownEntry(v, c, s, parts, i, y, z, f, done);
    }
  }

  /** A member of a Container: its key, then its value written in typed mode. */
  lemma {:induction false} ReadWrittenEntry(v: Value, c: Culture, s: Text, parts: seq<Text>, i: nat, y: nat, z: nat,
                                            f: nat, done: seq<Entry<Value>>)
    requires Portable(v, c) && v.jsonType == Object && v.dataType == Container && MemberParts(v, c) == Ok(parts)
    requires i < |parts| && Blank(s, y, z) && At(s, z, parts[i]) && f == z + |parts[i]|
    ensures i < |v.members|
    ensures ParseObject(s, y, done, c) == ParseObject(s, f, Put(done, v.members[i].key, v.members[i].value), c)
    decreases v, 1, 0
  {
    WrittenPart(v, c, parts, i);
    var m := v.members[i];
    var t := Write(m.value, true, c).value;
    assert Portable(m.value, c) && Plain(m.key);
    KeyedValue(s, y, z, m.key, m.value, t, f, done, c);
  }

  /** A key and a value written in typed mode after white space: the object loop stores the pair. */
  lemma KeyedValue(s: Text, y: nat, z: nat, k: Text, u: Value, t: Text, f: nat, done: seq<Entry<Value>>, c: Culture)
    requires Portable(u, c) && Plain(k) && Write(u, true, c) == Ok(t)
    requires Blank(s, y, z) && At(s, z, KeyPrefix(k) + t) && f == z + |KeyPrefix(k) + t|
    ensures ParseObject(s, y, done, c) == ParseObject(s, f, Put(done, k, u), c)
    decreases u, 7
  {
    KeyPrefixShape(k);
    KeyAt(s, z, k, t);
    var x := z + |k| + 3;
    ReadsValue(u, c, s, x, x + 1, t, f);
    MemberStep(s, y, z, k, u, x, f, done, c);
  }

  /** A member of any other Object: its key, then its number shown bare. */
  lemma ReadShownEntry(v: Value, c: Culture, s: Text, parts: seq<Text>, i: nat, y: nat, z: nat, f: nat,
                       done: seq<Entry<Value>>)
    requires Portable(v, c) && v.jsonType == Object && v.dataType != Container && MemberParts(v, c) == Ok(parts)
    requires i < |parts| && Blank(s, y, z) && At(s, z, parts[i]) && f == z + |parts[i]|
    requires f < |s| && IsWordBreak(s[f])
    ensures i < |v.members|
    ensures ParseObject(s, y, done, c) == ParseObject(s, f, Put(done, v.members[i].key, v.members[i].value), c)
  {
    ShownPart(v, c, parts, i);
    var m := v.members[i];
    assert ShownNumber(m.value, c);
    var t := c.format(m.value.number);
    KeyAt(s, z, m.key, t);
    var x := z + |m.key| + 3;
    ReadNumber(s, x, x + 1, m.value.number, f, c);
    MemberStep(s, y, z, m.key, m.value, x, f, done, c);
  }

  /** A portable value has a typed text. */
  lemma {:induction false} WritesOk(v: Value, c: Culture)
    requires Portable(v, c)
    ensures Write(v, true, c).Ok?
    decreases v
  {
    if v.jsonType == Array {
      forall i | 0 <= i < |v.items| ensures Write(v.items[i], true, c).Ok? {
        WritesOk(v.items[i], c);
      }
      assert Collect(Writes(v.items, true, c)).Ok?;
      assert WriteItems(v.items, true, c).Ok?;
    } else if v.jsonType == Object && v.dataType == Container {
      forall i | 0 <= i < |v.members| ensures WriteMember(v.members[i], true, c).Ok? {
        WritesOk(v.members[i].value, c);
      }
      assert Collect(MemberWrites(v.members, true, c)).Ok?;
      assert WriteMembers(v.members, true, c).Ok?;
    } else if v.jsonType == Object {
      forall i | 0 <= i < |v.members| ensures ShowMember(v.members[i], c).Ok? {
        assert ShownNumber(v.members[i].value, c);
      }
      assert Collect(MemberShows(v.members, c)).Ok?;
      assert ShowMembers(v.members, c).Ok?;
    }
    assert Body(v, true, c).Ok?;
  }

  /**
   * The typed round trip: a portable value is written, and reading its
   * text gives the value back, both tags and every slot.
   */
  lemma SerializeRoundTrip(v: Value, c: Culture)
    requires Portable(v, c)
    ensures Serialize(v, c).Ok? && Deserialize(Serialize(v, c).value, c) == Ok(v)
  {
    WritesOk(v, c);
    var w := Serialize(v, c).value;
    assert At(w, 0, w) by {
      assert w[0..|w|] == w;
    }
    ReadsValue(v, c, w, 0, 0, w, |w|);
  }

  /** `Deserialize` reads one value and stops: whatever follows the serialized text is never looked at. */
  lemma TrailingTextIgnored(v: Value, c: Culture, rest: Text)
    requires Portable(v, c)
    ensures Serialize(v, c).Ok? && Deserialize(Serialize(v, c).value + rest, c) == Ok(v)
  {
    WritesOk(v, c);
    var w := Serialize(v, c).value;
    var s := w + rest;
    assert At(s, 0, w) by {
      assert s[0..|w|] == w;
    }
    ReadsValue(v, c, s, 0, 0, w, |w|);
  }

  /** A Vector3 whose components read back is portable: three distinct one-letter keys over numbers. */
  lemma Vector3Portable(x: Double, y: Double, z: Double, c: Culture)
    requires NumberRoundTrips(c, x) && NumberRoundTrips(c, y) && NumberRoundTrips(c, z)
    ensures Portable(Vector3Node(x, y, z), c)
  {
    var ms := Vector3Node(x, y, z).members;
    ComponentNamesDistinct();
    assert |JsonTypeKey()| == 8;
    forall i | 0 <= i < |ms| ensures |ms[i].key| == 1 && Plain(ms[i].key) && ShownNumber(ms[i].value, c) {
      assert ms[i].key == XYZ()[i];
    }
  }

  /** `new Json(Vector3)` survives the typed round trip when its components' texts read back. */
  lemma Vector3RoundTrip(x: Double, y: Double, z: Double, c: Culture)
    requires NumberRoundTrips(c, x) && NumberRoundTrips(c, y) && NumberRoundTrips(c, z)
    ensures Serialize(Vector3Node(x, y, z), c).Ok?
    ensures Deserialize(Serialize(Vector3Node(x, y, z), c).value, c) == Ok(Vector3Node(x, y, z))
  {
    Vector3Portable(x, y, z, c);
    SerializeRoundTrip(Vector3Node(x, y, z), c);
  }

  /**
   * A TimeSpan is Object-shaped with no members, so its text is `{}` in the
   * envelope whatever the ticks: it reads back as a TimeSpan of zero ticks.
   */
  lemma TimeSpanTicksLost(t: Double, c: Culture)
    ensures Serialize(TimeSpanNode(t), c) == Serialize(TimeSpanNode(ZERO), c)
    ensures Serialize(TimeSpanNode(t), c).Ok?
    ensures Deserialize(Serialize(TimeSpanNode(t), c).value, c) == Ok(TimeSpanNode(ZERO))
  {
    assert Body(TimeSpanNode(t), true, c) == Body(TimeSpanNode(ZERO), true, c);
    assert Portable(TimeSpanNode(ZERO), c);
    SerializeRoundTrip(TimeSpanNode(ZERO), c);
  }
}
