/**
 * What `Json.Write` and `Json.ToString` produce, as functions of the value
 * view. Plain mode emits JSON text for the shape; typed mode wraps every node
 * that `Write` itself visits in a `{"JsonType", "DataType", "Value"}`
 * envelope. Children of an Object whose data type is not Container go
 * through `ToString` instead: no envelope, no quotes, .NET booleans.
 */
module Writer {
  import opened Base
  import opened Dict
  import opened Tags
  import opened Values

  /** `{"JsonType": "<jt>", "DataType": "<dt>", "Value": ` */
  function EnvelopeHead(jt: JsonTypes, dt: DataTypes): Text
  {
    Lit("{\"JsonType\": \"") + JsonTypeName(jt) + Lit("\", \"DataType\": \"") + DataTypeName(dt)
    + Lit("\", \"Value\": ")
  }

  /** `"` + payload + `"`: nothing inside is escaped. */
  function Quoted(t: Text): Text
  {
    [QUOTE] + t + [QUOTE]
  }

  /** `"key": ` as both Object branches write it. */
  function KeyPrefix(k: Text): Text
  {
    Quoted(k) + Lit(": ")
  }

  const SEPARATOR: Text := Lit(", ")

  /** `Write(writer, typed)`: a null reference fails on the member access. */
  function Write(v: Value, typed: bool, c: Culture): (r: Result<Text>)
    ensures r.Err? ==> r.error == NullReference
    decreases v, 1
  {
    match v
    case NullRef => Err(NullReference)
    case Node(jt, dt, _, _, _, _, _) =>
      var body :- Body(v, typed, c);
      Ok(if typed then EnvelopeHead(jt, dt) + body + [RBRACE] else body)
  }

  /** The `switch (JsonType)` of `Write`. */
  function Body(v: Value, typed: bool, c: Culture): (r: Result<Text>)
    requires v.Node?
    ensures r.Err? ==> r.error == NullReference
    decreases v, 0
  {
    match v.jsonType
    case Undefined => Ok(Lit("null"))
    case Null => Ok(Lit("null"))
    case String => Ok(Quoted(v.str))
    case Boolean => Ok(if v.boolean then Lit("true") else Lit("false"))
    case Number => Ok(c.format(v.number))
    case Array =>
      var t :- WriteItems(v.items, typed, c);
      Ok([LBRACKET] + t + [RBRACKET])
    case Object =>
      var t :- if v.dataType == Container then WriteMembers(v.members, typed, c) else ShowMembers(v.members, c);
      Ok([LBRACE] + t + [RBRACE])
  }

  /** The parts joined by ", ", as the loops emit them: a separator after every part but the last. */
  function Join(parts: seq<Text>): Text
  {
    if parts == [] then []
    else if |parts| == 1 then parts[0]
    else parts[0] + SEPARATOR + Join(parts[1..])
  }

  /**
   * Every result in order, or the first failure: a loop that writes its
   * parts one after the other stops at the first exception.
   */
  function Collect(rs: seq<Result<Text>>): (r: Result<seq<Text>>)
    ensures r.Ok? <==> forall i :: 0 <= i < |rs| ==> rs[i].Ok?
    ensures r.Ok? ==> |r.value| == |rs| && forall i :: 0 <= i < |rs| ==> rs[i] == Ok(r.value[i])
    ensures r.Err? ==> exists i :: 0 <= i < |rs| && rs[i] == Err(r.error)
  {
    if rs == [] then Ok([])
    else
      var first :- rs[0];
      var rest :- Collect(rs[1..]);
      Ok([first] + rest)
  }

  /**
   * What a writer loop has emitted after the first parts of `total`: each
   * part, and a separator after each one that is not the last.
   */
  function Emitted(parts: seq<Text>, total: nat): Text
  {
    if 0 < |parts| < total then Join(parts) + SEPARATOR else Join(parts)
  }

  /**
   * One more turn of a writer loop that has emitted the first parts of
   * `rs`: the part, then a separator unless it was the last.
   */
  lemma Advance(rs: seq<Result<Text>>, parts: seq<Text>, p: Text)
    requires |parts| < |rs| && rs[|parts|] == Ok(p)
    requires forall j :: 0 <= j < |parts| ==> rs[j] == Ok(parts[j])
    ensures forall j :: 0 <= j < |parts| + 1 ==> rs[j] == Ok((parts + [p])[j])
    ensures Emitted(parts + [p], |rs|)
            == if |parts| + 1 < |rs| then Emitted(parts, |rs|) + p + SEPARATOR else Emitted(parts, |rs|) + p
  {
    JoinSnoc(parts, p);
  }

  /** When every result is a success, collecting them gives their values. */
  lemma CollectAll(rs: seq<Result<Text>>, parts: seq<Text>)
    requires |parts| == |rs|
    requires forall j :: 0 <= j < |rs| ==> rs[j] == Ok(parts[j])
    ensures Collect(rs) == Ok(parts)
  {
    var collected := Collect(rs);
    assert collected.Ok? by {
      forall j | 0 <= j < |rs| ensures rs[j].Ok? { }
    }
    assert collected.value == parts by {
      forall j | 0 <= j < |parts| ensures collected.value[j] == parts[j] {
        assert rs[j] == Ok(collected.value[j]);
      }
    }
  }

  /** The array loop: each item written in the same mode, joined by ", ". */
  function WriteItems(vs: seq<Value>, typed: bool, c: Culture): (r: Result<Text>)
    ensures r.Err? ==> r.error == NullReference
    decreases vs, 1
  {
    var parts :- Collect(Writes(vs, typed, c));
    Ok(Join(parts))
  }

  /** What writing each item yields. */
  function Writes(vs: seq<Value>, typed: bool, c: Culture): (rs: seq<Result<Text>>)
    ensures |rs| == |vs|
    ensures forall i :: 0 <= i < |vs| ==> rs[i] == Write(vs[i], typed, c)
    decreases vs, 0
  {
    seq(|vs|, i requires 0 <= i < |vs| => Write(vs[i], typed, c))
  }

  /** One entry of the Container loop: `"key": ` and the value written in the same mode. */
  function WriteMember(m: Entry<Value>, typed: bool, c: Culture): (r: Result<Text>)
    ensures r.Err? ==> r.error == NullReference
    decreases m, 2
  {
    var t :- Write(m.value, typed, c);
    Ok(KeyPrefix(m.key) + t)
  }

  function WriteMembers(ms: seq<Entry<Value>>, typed: bool, c: Culture): (r: Result<Text>)
    ensures r.Err? ==> r.error == NullReference
    decreases ms, 1
  {
    var parts :- Collect(MemberWrites(ms, typed, c));
    Ok(Join(parts))
  }

  function MemberWrites(ms: seq<Entry<Value>>, typed: bool, c: Culture): (rs: seq<Result<Text>>)
    ensures |rs| == |ms|
    ensures forall i :: 0 <= i < |ms| ==> rs[i] == WriteMember(ms[i], typed, c)
    decreases ms, 0
  {
    seq(|ms|, i requires 0 <= i < |ms| => WriteMember(ms[i], typed, c))
  }

  /** One entry of the loop for any other Object: `$"\"{key}\": {value}"`, the value through `ToString`. */
  function ShowMember(m: Entry<Value>, c: Culture): (r: Result<Text>)
    ensures r.Err? ==> r.error == NullReference
    decreases m, 3
  {
    var t :- Show(m.value, c);
    Ok(KeyPrefix(m.key) + t)
  }

  function ShowMembers(ms: seq<Entry<Value>>, c: Culture): (r: Result<Text>)
    ensures r.Err? ==> r.error == NullReference
    decreases ms, 1
  {
    var parts :- Collect(MemberShows(ms, c));
    Ok(Join(parts))
  }

  function MemberShows(ms: seq<Entry<Value>>, c: Culture): (rs: seq<Result<Text>>)
    ensures |rs| == |ms|
    ensures forall i :: 0 <= i < |ms| ==> rs[i] == ShowMember(ms[i], c)
    decreases ms, 0
  {
    seq(|ms|, i requires 0 <= i < |ms| => ShowMember(ms[i], c))
  }

  /**
   * `ToString()`, as string interpolation applies it: a null reference
   * interpolates as nothing; a String is its bare payload; a Boolean is
   * `bool.ToString()`; an Array or Object is the plain `Write`.
   */
  function Show(v: Value, c: Culture): (r: Result<Text>)
    ensures r.Err? ==> r.error == NullReference
    decreases v, 2
  {
    match v
    case NullRef => Ok([])
    case Node(jt, _, s, b, d, _, _) =>
      match jt
      case Undefined => Ok(Lit("null"))
      case Null => Ok(Lit("null"))
      case String => Ok(s)
      case Boolean => Ok(if b then Lit("True") else Lit("False"))
      case Number => Ok(c.format(d))
      case Array => Write(v, false, c)
      case Object => Write(v, false, c)
  }

  /** `JsonSerialization.Serialize`: `Write` with type information. */
  function Serialize(v: Value, c: Culture): Result<Text>
  {
    Write(v, true, c)
  }
  /**
   * A null reference that `Write` dereferences: an item, a Container member,
   * or one inside an Array or Object shown through `ToString`. A null member
   * of any other Object interpolates as empty text and is not met.
   */
  predicate MeetsNull(v: Value)
    decreases v
  {
    match v
    case NullRef => true
    case Node(jt, dt, _, _, _, items, members) =>
      if jt == Array then exists i :: 0 <= i < |items| && MeetsNull(items[i])
      else if jt == Object && dt == Container then exists i :: 0 <= i < |members| && MeetsNull(members[i].value)
      else if jt == Object then
        exists i :: 0 <= i < |members| && members[i].value.Node? && members[i].value.jsonType in {Array, Object}
                                       && MeetsNull(members[i].value)
      else false
  }

  /** `Write` throws exactly when it meets a null reference, in either mode. */
  lemma WriteOk(v: Value, typed: bool, c: Culture)
    ensures Write(v, typed, c).Ok? <==> !MeetsNull(v)
    decreases v, 2
  {
    if v.Node? {
      assert Write(v, typed, c).Ok? <==> Body(v, typed, c).Ok?;
      if v.jsonType == Array {
        ItemsOk(v, typed, c);
        assert Body(v, typed, c).Ok? <==> WriteItems(v.items, typed, c).Ok?;
      } else if v.jsonType == Object && v.dataType == Container {
        MembersOk(v, typed, c);
        assert Body(v, typed, c).Ok? <==> WriteMembers(v.members, typed, c).Ok?;
      } else if v.jsonType == Object {
        ShownOk(v, c);
        assert Body(v, typed, c).Ok? <==> ShowMembers(v.members, c).Ok?;
      }
    }
  }

  lemma {:induction false} ItemsOk(v: Value, typed: bool, c: Culture)
    requires v.Node? && v.jsonType == Array
    ensures WriteItems(v.items, typed, c).Ok? <==> !MeetsNull(v)
    decreases v, 1
  {
    forall i | 0 <= i < |v.items| ensures Write(v.items[i], typed, c).Ok? <==> !MeetsNull(v.items[i]) {
      WriteOk(v.items[i], typed, c);
    }
    assert WriteItems(v.items, typed, c).Ok? <==> Collect(Writes(v.items, typed, c)).Ok?;
  }

  lemma {:induction false} MembersOk(v: Value, typed: bool, c: Culture)
    requires v.Node? && v.jsonType == Object && v.dataType == Container
    ensures WriteMembers(v.members, typed, c).Ok? <==> !MeetsNull(v)
    decreases v, 1
  {
    forall i | 0 <= i < |v.members|
      ensures WriteMember(v.members[i], typed, c).Ok? <==> !MeetsNull(v.members[i].value)
    {
      WriteOk(v.members[i].value, typed, c);
    }
    assert WriteMembers(v.members, typed, c).Ok? <==> Collect(MemberWrites(v.members, typed, c)).Ok?;
  }

  lemma {:induction false} ShownOk(v: Value, c: Culture)
    requires v.Node? && v.jsonType == Object && v.dataType != Container
    ensures ShowMembers(v.members, c).Ok? <==> !MeetsNull(v)
    decreases v, 1
  {
    forall i | 0 <= i < |v.members|
      ensures ShowMember(v.members[i], c).Ok?
              <==> !(v.members[i].value.Node? && v.members[i].value.jsonType in {Array, Object}
                     && MeetsNull(v.members[i].value))
    {
      ShowOk(v.members[i].value, c);
    }
    assert ShowMembers(v.members, c).Ok? <==> Collect(MemberShows(v.members, c)).Ok?;
  }

  /**
   * `ToString` throws only for an Array or Object whose `Write` meets a null
   * reference; a null reference itself shows as empty text.
   */
  lemma ShowOk(v: Value, c: Culture)
    ensures Show(v, c).Ok? <==> !(v.Node? && v.jsonType in {Array, Object} && MeetsNull(v))
    ensures v.NullRef? ==> Show(v, c) == Ok([])
    decreases v, 3
  {
    if v.Node? && v.jsonType in {Array, Object} {
      WriteOk(v, false, c);
    }
  }

  /** An Object that is not a Container, with one member: its value is written through `ToString`. */
  lemma ShownMember(dt: DataTypes, k: Text, v: Value, t: Text, c: Culture)
    requires dt != Container && Show(v, c) == Ok(t)
    ensures Write(Node(Object, dt, [], false, ZERO, [], [Entry(k, v)]), false, c) == Ok([LBRACE] + KeyPrefix(k) + t + [RBRACE])
  {
    var ms := [Entry(k, v)];
    assert ShowMember(ms[0], c) == Ok(KeyPrefix(k) + t);
    CollectAll(MemberShows(ms, c), [KeyPrefix(k) + t]);
    assert Join([KeyPrefix(k) + t]) == KeyPrefix(k) + t;
    assert ShowMembers(ms, c) == Ok(KeyPrefix(k) + t);
    assert [LBRACE] + (KeyPrefix(k) + t) + [RBRACE] == [LBRACE] + KeyPrefix(k) + t + [RBRACE];
    assert Body(Node(Object, dt, [], false, ZERO, [], ms), false, c) == Ok([LBRACE] + (KeyPrefix(k) + t) + [RBRACE]);
  }

  /** A Container with one member: its value is written by `Write` itself. */
  lemma WrittenMember(k: Text, v: Value, t: Text, c: Culture)
    requires Write(v, false, c) == Ok(t)
    ensures Write(Node(Object, Container, [], false, ZERO, [], [Entry(k, v)]), false, c) == Ok([LBRACE] + KeyPrefix(k) + t + [RBRACE])
  {
    var ms := [Entry(k, v)];
    assert WriteMember(ms[0], false, c) == Ok(KeyPrefix(k) + t);
    CollectAll(MemberWrites(ms, false, c), [KeyPrefix(k) + t]);
    assert Join([KeyPrefix(k) + t]) == KeyPrefix(k) + t;
    assert WriteMembers(ms, false, c) == Ok(KeyPrefix(k) + t);
    assert [LBRACE] + (KeyPrefix(k) + t) + [RBRACE] == [LBRACE] + KeyPrefix(k) + t + [RBRACE];
    assert Body(Node(Object, Container, [], false, ZERO, [], ms), false, c) == Ok([LBRACE] + (KeyPrefix(k) + t) + [RBRACE]);
  }

  /** The text of `Nested(path, v)` when `v` writes as `t`: one brace pair and one key per step. */
  function NestedText(path: seq<Text>, t: Text): Text
    requires path != []
    decreases |path|
  {
    [LBRACE] + KeyPrefix(path[0]) + (if |path| == 1 then t else NestedText(path[1..], t)) + [RBRACE]
  }

  /** The Objects a chain of keyed getters creates are written as nested braces around the stored value. */
  lemma {:induction false} WriteNested(path: seq<Text>, v: Value, t: Text, c: Culture)
    requires path != [] && Write(v, false, c) == Ok(t)
    ensures Write(Nested(path, v), false, c) == Ok(NestedText(path, t))
    decreases |path|
  {
    if |path| == 1 {
      WrittenMember(path[0], v, t, c);
    } else {
      WriteNested(path[1..], v, t, c);
      WrittenMember(path[0], Nested(path[1..], v), NestedText(path[1..], t), c);
    }
  }

  /**
   * The members of an Object that is not a Container go through `ToString`:
   * a String child is not quoted and a Boolean child is written `True` or
   * `False`, where a Container quotes the one and writes `true` or `false`.
   */
  lemma ShownLeaves(dt: DataTypes, k: Text, s: Text, b: bool, c: Culture)
    requires dt != Container
    ensures Write(Node(Object, dt, [], false, ZERO, [], [Entry(k, StringNode(s))]), false, c) == Ok([LBRACE] + KeyPrefix(k) + s + [RBRACE])
    ensures Write(Node(Object, Container, [], false, ZERO, [], [Entry(k, StringNode(s))]), false, c) == Ok([LBRACE] + KeyPrefix(k) + Quoted(s) + [RBRACE])
    ensures Write(Node(Object, dt, [], false, ZERO, [], [Entry(k, BoolNode(b))]), false, c)
            == Ok([LBRACE] + KeyPrefix(k) + (if b then Lit("True") else Lit("False")) + [RBRACE])
    ensures Write(Node(Object, Container, [], false, ZERO, [], [Entry(k, BoolNode(b))]), false, c)
            == Ok([LBRACE] + KeyPrefix(k) + (if b then Lit("true") else Lit("false")) + [RBRACE])
  {
    ShownMember(dt, k, StringNode(s), s, c);
    WrittenMember(k, StringNode(s), Quoted(s), c);
    ShownMember(dt, k, BoolNode(b), if b then Lit("True") else Lit("False"), c);
    WrittenMember(k, BoolNode(b), if b then Lit("true") else Lit("false"), c);
  }

  /** Adding a part to the joined text: a separator, unless it is the first part, then the part. */
  lemma {:induction false} JoinSnoc(parts: seq<Text>, p: Text)
    ensures Join(parts + [p]) == if parts == [] then p else Join(parts) + SEPARATOR + p
  {
    if |parts| > 1 {
      assert (parts + [p])[1..] == parts[1..] + [p];
      JoinSnoc(parts[1..], p);
    } else if |parts| == 1 {
      assert (parts + [p])[1..] == [p];
    }
  }
}
