/**
 * The value view of a `Json` node: its two tags, every payload slot, and
 * its children, or `NullRef` for a null `Json` reference (which the reader
 * can return and store). The functions here are the value view of the
 * static members and constructors of `Json`, and of its private typed
 * getters.
 */
module Values {
  import opened Base
  import opened Dict
  import opened Tags

  datatype Value =
    | NullRef
    | Node(jsonType: JsonTypes, dataType: DataTypes, str: Text, boolean: bool, number: Double,
           items: seq<Value>, members: seq<Entry<Value>>)

  /** `new Json()`: both tags Undefined, every slot at its default. */
  function Fresh(): Value
  {
    Tagged(JsonTypes.Undefined, DataTypes.Undefined)
  }

  /** A fresh node given the tag pair; the slots stay at their defaults. */
  function Tagged(jt: JsonTypes, dt: DataTypes): (v: Value)
    ensures v.Node?
  {
    Node(jt, dt, [], false, ZERO, [], [])
  }

  /** `Json.Null`. */
  function NullNode(): Value { Tagged(Null, Primitive) }

  /** `new Json(string)`. */
  function StringNode(s: Text): Value { Node(String, Primitive, s, false, ZERO, [], []) }

  /** `new Json(bool)`. */
  function BoolNode(b: bool): Value { Node(Boolean, Primitive, [], b, ZERO, [], []) }

  /** `new Json(double)`. */
  function NumberNode(d: Double): Value { Node(Number, Primitive, [], false, d, [], []) }

  /** `new Json(IEnumerable<Json>)`; `Json.Array` is `ArrayNode([])`. */
  function ArrayNode(items: seq<Value>): Value { Node(Array, Container, [], false, ZERO, items, []) }

  /** `new Json(IDictionary<string, Json>)`; `Json.Object` is `ObjectNode([])`. */
  function ObjectNode(members: seq<Entry<Value>>): Value { Node(Object, Container, [], false, ZERO, [], members) }

  /**
   * What `n[k0][k1]…[km] = v` binds under `k0` when none of the keys was
   * bound yet: each keyed getter creates an empty Object, and the last
   * setter stores `v` in the innermost one.
   */
  function Nested(path: seq<Text>, v: Value): Value
    requires path != []
    decreases |path|
  {
    ObjectNode([Entry(path[0], if |path| == 1 then v else Nested(path[1..], v))])
  }

  /**
   * `new Json(Uri)`, `new Json(Guid)`, `new Json(DateTime)` and
   * `new Json(DateTimeOffset)`: a String node carrying its own data type; the
   * text is what .NET formats the value as, which the model keeps opaque.
   */
  function TextNode(dt: DataTypes, formatted: Text): Value
  {
    Node(String, dt, formatted, false, ZERO, [], [])
  }

  /** `new Json(TimeSpan)`: Object-shaped, but the ticks go to the number slot. */
  function TimeSpanNode(ticks: Double): Value { Node(Object, TimeSpan, [], false, ticks, [], []) }

  /** Number children under fixed keys, as the geometric setters build them. */
  function Components(keys: seq<Text>, xs: seq<Double>): (ms: seq<Entry<Value>>)
    requires |keys| == |xs|
    ensures |ms| == |keys|
    ensures forall i :: 0 <= i < |ms| ==> ms[i] == Entry(keys[i], NumberNode(xs[i]))
  {
    seq(|keys|, i requires 0 <= i < |keys| => Entry(keys[i], NumberNode(xs[i])))
  }

  function XY(): seq<Text> { [Lit("x"), Lit("y")] }
  function XYZ(): seq<Text> { [Lit("x"), Lit("y"), Lit("z")] }
  function XYZW(): seq<Text> { [Lit("x"), Lit("y"), Lit("z"), Lit("w")] }
  function RGBA(): seq<Text> { [Lit("r"), Lit("g"), Lit("b"), Lit("a")] }
  function XYWH(): seq<Text> { [Lit("x"), Lit("y"), Lit("width"), Lit("height")] }

  /** `new Json(Color)` and `new Json(Color32)`. */
  function ColorNode(r: Double, g: Double, b: Double, a: Double): Value
  {
    Node(Object, Color, [], false, ZERO, [], Components(RGBA(), [r, g, b, a]))
  }

  /** `new Json(Vector2)`. */
  function Vector2Node(x: Double, y: Double): Value
  {
    Node(Object, Vector, [], false, ZERO, [], Components(XY(), [x, y]))
  }

  /** `new Json(Vector3)`. */
  function Vector3Node(x: Double, y: Double, z: Double): Value
  {
    Node(Object, Vector, [], false, ZERO, [], Components(XYZ(), [x, y, z]))
  }

  /** `new Json(Vector4)`. */
  function Vector4Node(x: Double, y: Double, z: Double, w: Double): Value
  {
    Node(Object, Vector, [], false, ZERO, [], Components(XYZW(), [x, y, z, w]))
  }

  /** `new Json(Quaternion)`. */
  function QuaternionNode(x: Double, y: Double, z: Double, w: Double): Value
  {
    Node(Object, Quaternion, [], false, ZERO, [], Components(XYZW(), [x, y, z, w]))
  }

  /** `new Json(Rect)`. */
  function RectNode(x: Double, y: Double, width: Double, height: Double): Value
  {
    Node(Object, Rect, [], false, ZERO, [], Components(XYWH(), [x, y, width, height]))
  }

  /** `new Json(Bounds)`: two Vector3 children. */
  function BoundsNode(center: (Double, Double, Double), size: (Double, Double, Double)): Value
  {
    Node(Object, Bounds, [], false, ZERO, [], [
      Entry(Lit("center"), Vector3Node(center.0, center.1, center.2)),
      Entry(Lit("size"), Vector3Node(size.0, size.1, size.2))])
  }

  /** `FromSerialization`: overwrite the two tags, keep every slot. */
  function Retag(v: Value, jt: JsonTypes, dt: DataTypes): Value
    requires v.Node?
  {
    v.(jsonType := jt, dataType := dt)
  }

  /**
   * `Json.FromSerialization(jsonType, dataType, value)`: each name node goes
   * through the `String` getter and then `Enum.Parse`; the two tags are
   * stored into `value`, whose slots stay as they are. A null `value` fails
   * on the first store, after the first name has been read.
   */
  function FromSerialization(jt: Value, dt: Value, v: Value): (r: Result<Value>)
    ensures r.Ok? <==> && StringOf(jt).Ok? && ParseJsonType(jt.str).Ok? && v.Node?
                       && StringOf(dt).Ok? && ParseDataType(dt.str).Ok?
    ensures r.Ok? ==> && r.value.Node? && r.value == Retag(v, r.value.jsonType, r.value.dataType)
                      && JsonTypeName(r.value.jsonType) == jt.str
                      && DataTypeName(r.value.dataType) == dt.str
  {
    var jn :- StringOf(jt);
    var j :- ParseJsonType(jn);
    if v.NullRef? then Err(NullReference)
    else
      var dn :- StringOf(dt);
      var d :- ParseDataType(dn);
      Ok(Retag(v, j, d))
  }

  /**
   * What a failed `FromSerialization` leaves in `v`: the JsonType is stored
   * as soon as its name parses, before the DataType name is read.
   */
  function PartlyRetagged(jt: Value, v: Value): (r: Value)
    requires v.Node?
    ensures r.Node? && r.dataType == v.dataType
    ensures r == Retag(v, r.jsonType, v.dataType)
    ensures StringOf(jt).Ok? && ParseJsonType(jt.str).Ok? ==> JsonTypeName(r.jsonType) == jt.str
    ensures !(StringOf(jt).Ok? && ParseJsonType(jt.str).Ok?) ==> r == v
  {
    match StringOf(jt)
    case Err(_) => v
    case Ok(name) =>
      match ParseJsonType(name)
      case Err(_) => v
      case Ok(j) => v.(jsonType := j)
  }

  /** The node with its items replaced. */
  function WithItems(v: Value, items: seq<Value>): Value
    requires v.Node?
  {
    v.(items := items)
  }

  /** The node with its members replaced. */
  function WithMembers(v: Value, members: seq<Entry<Value>>): Value
    requires v.Node?
  {
    v.(members := members)
  }

  /** No two component names of one key list coincide. */
  predicate DistinctNames(keys: seq<Text>)
  {
    forall i, j :: 0 <= i < j < |keys| ==> keys[i] != keys[j]
  }

  lemma ComponentNamesDistinct()
    ensures DistinctNames(XY()) && DistinctNames(XYZ()) && DistinctNames(XYZW())
    ensures DistinctNames(RGBA()) && DistinctNames(XYWH())
  {
    forall keys | keys in [XY(), XYZ(), XYZW(), RGBA(), XYWH()]
      ensures DistinctNames(keys)
    {
      forall i, j | 0 <= i < j < |keys| ensures keys[i] != keys[j] {
        assert keys[i][0] != keys[j][0];
      }
    }
  }

  predicate HasTags(v: Value, jt: JsonTypes, dt: DataTypes)
  {
    v.Node? && v.jsonType == jt && v.dataType == dt
  }

  // The private typed getters. Each checks its tag pair with Assert.IsTrue;
  // a null reference fails first, on the member access.

  /** The `String` getter, which the implicit `string` conversion calls. */
  function StringOf(v: Value): (r: Result<Text>)
    ensures r.Ok? <==> HasTags(v, String, Primitive)
    ensures r.Ok? ==> r.value == v.str
    ensures r.Err? ==> r.error == if v.NullRef? then NullReference else AssertionFailed
  {
    if v.NullRef? then Err(NullReference)
    else if HasTags(v, String, Primitive) then Ok(v.str)
    else Err(AssertionFailed)
  }

  /** The `Bool` getter. */
  function BoolOf(v: Value): (r: Result<bool>)
    ensures r.Ok? <==> HasTags(v, Boolean, Primitive)
    ensures r.Ok? ==> r.value == v.boolean
  {
    if v.NullRef? then Err(NullReference)
    else if HasTags(v, Boolean, Primitive) then Ok(v.boolean)
    else Err(AssertionFailed)
  }

  /** The `Number` getter, which every numeric implicit conversion calls. */
  function NumberOf(v: Value): (r: Result<Double>)
    ensures r.Ok? <==> HasTags(v, Number, Primitive)
    ensures r.Ok? ==> r.value == v.number
  {
    if v.NullRef? then Err(NullReference)
    else if HasTags(v, Number, Primitive) then Ok(v.number)
    else Err(AssertionFailed)
  }

  /**
   * The `Uri`, `Guid`, `DateTime` and `DateTimeOffset` getters: the String
   * node must carry that data type; .NET then parses the text, which the
   * model leaves out.
   */
  function FormattedOf(v: Value, dt: DataTypes): (r: Result<Text>)
    requires dt in {Uri, Guid, DateTime, DateTimeOffset}
    ensures r.Ok? <==> HasTags(v, String, dt)
    ensures r.Ok? ==> r.value == v.str
  {
    if v.NullRef? then Err(NullReference)
    else if HasTags(v, String, dt) then Ok(v.str)
    else Err(AssertionFailed)
  }

  /** The `TimeSpan` getter: the ticks come from the number slot. */
  function TimeSpanOf(v: Value): (r: Result<Double>)
    ensures r.Ok? <==> HasTags(v, Object, TimeSpan)
    ensures r.Ok? ==> r.value == v.number
  {
    if v.NullRef? then Err(NullReference)
    else if HasTags(v, Object, TimeSpan) then Ok(v.number)
    else Err(AssertionFailed)
  }

  /**
   * `(float)this[key]`: the keyed getter, then the `Number` getter on the
   * child. A missing key yields the lazily created Object child, on which
   * the `Number` getter's assertion fails.
   */
  function ComponentOf(ms: seq<Entry<Value>>, key: Text): (r: Result<Double>)
    ensures r.Ok? <==> exists i :: 0 <= i < |ms| && ms[i].key == key && HasTags(ms[i].value, Number, Primitive)
                                    && Get(ms, key) == Ok(ms[i].value)
    ensures r.Ok? ==> r.value == Get(ms, key).value.number
    ensures r.Err? ==> r.error == if HasKey(ms, key) && Get(ms, key).value.NullRef? then NullReference else AssertionFailed
  {
    match Get(ms, key)
    case Err(_) => Err(AssertionFailed)
    case Ok(child) => NumberOf(child)
  }

  function ComponentsOf(ms: seq<Entry<Value>>, keys: seq<Text>): (r: Result<seq<Double>>)
    ensures r.Ok? ==> |r.value| == |keys|
    ensures r.Ok? ==> forall i :: 0 <= i < |keys| ==> ComponentOf(ms, keys[i]) == Ok(r.value[i])
    ensures r.Err? ==> exists i :: && 0 <= i < |keys| && ComponentOf(ms, keys[i]) == Err(r.error)
                                   && forall j :: 0 <= j < i ==> ComponentOf(ms, keys[j]).Ok?
    decreases |keys|
  {
    if keys == [] then Ok([])
    else
      var x :- ComponentOf(ms, keys[0]);
      var rest :- ComponentsOf(ms, keys[1..]);
      Ok([x] + rest)
  }

  /**
   * The geometric getters: the node must be an Object whose data type is one
   * of `allowed`, and each of `keys` must hold a Number child. The Vector4
   * and Quaternion getters both accept {Vector, Quaternion}.
   */
  function GeometryOf(v: Value, allowed: set<DataTypes>, keys: seq<Text>): (r: Result<seq<Double>>)
    ensures r.Ok? ==> v.Node? && v.jsonType == Object && v.dataType in allowed
    ensures v.Node? && !(v.jsonType == Object && v.dataType in allowed) ==> r == Err(AssertionFailed)
    ensures v.Node? && v.jsonType == Object && v.dataType in allowed ==> r == ComponentsOf(v.members, keys)
  {
    if v.NullRef? then Err(NullReference)
    else if v.jsonType == Object && v.dataType in allowed then ComponentsOf(v.members, keys)
    else Err(AssertionFailed)
  }

  function ColorOf(v: Value): Result<seq<Double>> { GeometryOf(v, {Color}, RGBA()) }
  function Vector2Of(v: Value): Result<seq<Double>> { GeometryOf(v, {Vector}, XY()) }
  function Vector3Of(v: Value): Result<seq<Double>> { GeometryOf(v, {Vector}, XYZ()) }
  function Vector4Of(v: Value): Result<seq<Double>> { GeometryOf(v, {Vector, Quaternion}, XYZW()) }
  function QuaternionOf(v: Value): Result<seq<Double>> { GeometryOf(v, {Vector, Quaternion}, XYZW()) }
  function RectOf(v: Value): Result<seq<Double>> { GeometryOf(v, {Rect}, XYWH()) }

  /**
   * The keyed getter on a dictionary's view: the child under `key`, or the
   * empty Object the getter binds when the key is missing.
   */
  function Keyed(ms: seq<Entry<Value>>, key: Text): Value
  {
    Get(ms, key).GetOr(ObjectNode([]))
  }

  /** The `Bounds` getter: `new Bounds(this["center"], this["size"])`, each a Vector3. */
  function BoundsOf(v: Value): (r: Result<(seq<Double>, seq<Double>)>)
    ensures v.NullRef? ==> r == Err(NullReference)
    ensures v.Node? && !HasTags(v, Object, Bounds) ==> r == Err(AssertionFailed)
    ensures r.Ok? <==> && HasTags(v, Object, Bounds)
                       && Vector3Of(Keyed(v.members, Lit("center"))).Ok?
                       && Vector3Of(Keyed(v.members, Lit("size"))).Ok?
    ensures r.Ok? ==> r.value == (Vector3Of(Keyed(v.members, Lit("center"))).value,
                                  Vector3Of(Keyed(v.members, Lit("size"))).value)
    ensures HasTags(v, Object, Bounds) && Vector3Of(Keyed(v.members, Lit("center"))).Err?
            ==> r == Err(Vector3Of(Keyed(v.members, Lit("center"))).error)
    ensures HasTags(v, Object, Bounds) && !HasKey(v.members, Lit("center")) ==> r == Err(AssertionFailed)
  {
    if v.NullRef? then Err(NullReference)
    else if !HasTags(v, Object, Bounds) then Err(AssertionFailed)
    else
      // a missing key yields the lazily created Object/Container child,
      // whose Vector3 getter fails its assertion
      var c := Keyed(v.members, Lit("center"));
      var s := Keyed(v.members, Lit("size"));
      var center :- Vector3Of(c);
      var size :- Vector3Of(s);
      Ok((center, size))
  }

  /** The components a geometric setter stores are read back by the getter over the same names. */
  lemma ComponentsRoundTrip(keys: seq<Text>, xs: seq<Double>)
    requires |keys| == |xs| && DistinctNames(keys)
    ensures ComponentsOf(Components(keys, xs), keys) == Ok(xs)
  {
    var ms := Components(keys, xs);
    assert DistinctKeys(ms);
    forall i | 0 <= i < |keys| ensures ComponentOf(ms, keys[i]) == Ok(xs[i]) {
      GetIndex(ms, i);
    }
    var r := ComponentsOf(ms, keys);
    assert r.Ok?;
    assert r.value == xs;
  }

  /** Each geometric constructor is undone by its getter; the `Vector4` getter also reads a Quaternion. */
  lemma GeometryRoundTrip(x: Double, y: Double, z: Double, w: Double)
    ensures ColorOf(ColorNode(x, y, z, w)) == Ok([x, y, z, w])
    ensures Vector2Of(Vector2Node(x, y)) == Ok([x, y])
    ensures Vector3Of(Vector3Node(x, y, z)) == Ok([x, y, z])
    ensures Vector4Of(Vector4Node(x, y, z, w)) == Ok([x, y, z, w])
    ensures QuaternionOf(QuaternionNode(x, y, z, w)) == Ok([x, y, z, w])
    ensures Vector4Of(QuaternionNode(x, y, z, w)) == Ok([x, y, z, w])
    ensures RectOf(RectNode(x, y, z, w)) == Ok([x, y, z, w])
  {
    ComponentNamesDistinct();
    ComponentsRoundTrip(RGBA(), [x, y, z, w]);
    ComponentsRoundTrip(XY(), [x, y]);
    ComponentsRoundTrip(XYZ(), [x, y, z]);
    ComponentsRoundTrip(XYZW(), [x, y, z, w]);
    ComponentsRoundTrip(XYWH(), [x, y, z, w]);
  }

  /** `new Json(Vector3)` is undone by the `Vector3` getter. */
  lemma Vector3Back(x: Double, y: Double, z: Double)
    ensures Vector3Of(Vector3Node(x, y, z)) == Ok([x, y, z])
  {
    ComponentNamesDistinct();
    ComponentsRoundTrip(XYZ(), [x, y, z]);
  }

  /** `new Json(Bounds)` is undone by the `Bounds` getter. */
  lemma BoundsRoundTrip(center: (Double, Double, Double), size: (Double, Double, Double))
    ensures BoundsOf(BoundsNode(center, size)) == Ok(([center.0, center.1, center.2], [size.0, size.1, size.2]))
  {
    var cv := Vector3Node(center.0, center.1, center.2);
    var sv := Vector3Node(size.0, size.1, size.2);
    var ms := BoundsNode(center, size).members;
    assert ms == [Entry(Lit("center"), cv), Entry(Lit("size"), sv)];
    assert |Lit("center")| != |Lit("size")|;
    DistinctPair(ms[0], ms[1]);
    GetIndex(ms, 0);
    GetIndex(ms, 1);
    Vector3Back(center.0, center.1, center.2);
    Vector3Back(size.0, size.1, size.2);
  }

  /** A Vector2 has no "z": the Vector3 getter finds the lazily created Object child and fails its assertion. */
  lemma Vector2IsNotVector3(x: Double, y: Double)
    ensures Vector3Of(Vector2Node(x, y)) == Err(AssertionFailed)
  {
    var ms := Vector2Node(x, y).members;
    var keys := XYZ();
    assert ms == [Entry(Lit("x"), NumberNode(x)), Entry(Lit("y"), NumberNode(y))];
    assert keys[2][0] != ms[0].key[0] && keys[2][0] != ms[1].key[0];
    assert !HasKey(ms, keys[2]);
    assert ComponentOf(ms, keys[2]) == Err(AssertionFailed);
    assert keys[2..] == [keys[2]] && keys[1..][1..] == keys[2..];
    assert ComponentsOf(ms, keys[2..]) == Err(AssertionFailed);
    assert ComponentsOf(ms, keys[1..]) == Err(AssertionFailed);
  }
}
