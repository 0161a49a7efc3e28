/**
 * The `Json` class: a node whose tag pair and payload slots its typed
 * setters, indexers and `Add` methods update in place. Nodes refer to one
 * another by reference, so a well-formed node is described relative to a
 * universe `U` of the nodes it may reach: `Tree(U)` says every child lies in
 * `U` without the node itself (so no cycles), and `View(U)` is the value the
 * node stands for.
 */
module Nodes {
  import opened Base
  import opened Dict
  import opened Tags
  import opened Values
  import Writer

  class Json {
    var jsonType: JsonTypes
    var dataType: DataTypes
    var str: Text
    var boolean: bool
    var number: Double
    var items: seq<Json?>
    var container: seq<Entry<Json?>>

    /** The node, and every node below it, is acyclic within `U`, with distinct keys. */
    ghost predicate Tree(U: set<Json>)
      reads U
      decreases U, 0
    {
      && this in U
      && DistinctKeys(container)
      && ChildrenIn(items, U - {this})
      && MembersIn(container, U - {this})
    }

    /** The value the node stands for. */
    ghost function View(U: set<Json>): (v: Value)
      requires Tree(U)
      reads U
      ensures v.Node?
      decreases U, 0
    {
      Node(jsonType, dataType, str, boolean, number,
           ViewItems(items, U - {this}), ViewMembers(container, U - {this}))
    }

    /** `new Json()`. */
    constructor ()
      ensures Tree({this}) && View({this}) == Fresh()
    {
      jsonType, dataType := JsonTypes.Undefined, DataTypes.Undefined;
      str, boolean, number := [], false, ZERO;
      items, container := [], [];
    }

    /** `Json.Null`. */
    constructor NewNull()
      ensures Tree({this}) && View({this}) == NullNode()
    {
      jsonType, dataType := Null, Primitive;
      str, boolean, number := [], false, ZERO;
      items, container := [], [];
    }

    /** `new Json(string)`: the `String` setter. */
    constructor FromString(s: Text)
      ensures Tree({this}) && View({this}) == StringNode(s)
    {
      jsonType, dataType := String, Primitive;
      str, boolean, number := s, false, ZERO;
      items, container := [], [];
    }

    /** `new Json(bool)`: the `Bool` setter. */
    constructor FromBool(b: bool)
      ensures Tree({this}) && View({this}) == BoolNode(b)
    {
      jsonType, dataType := Boolean, Primitive;
      str, boolean, number := [], b, ZERO;
      items, container := [], [];
    }

    /** `new Json(double)`: the `Number` setter. */
    constructor FromNumber(d: Double)
      ensures Tree({this}) && View({this}) == NumberNode(d)
    {
      jsonType, dataType := Number, Primitive;
      str, boolean, number := [], false, d;
      items, container := [], [];
    }

    /** `new Json(Uri)`, `(Guid)`, `(DateTime)`, `(DateTimeOffset)`, given the formatted text. */
    constructor FromFormatted(dt: DataTypes, formatted: Text)
      requires dt in {Uri, Guid, DateTime, DateTimeOffset}
      ensures Tree({this}) && View({this}) == TextNode(dt, formatted)
    {
      jsonType, dataType := String, dt;
      str, boolean, number := formatted, false, ZERO;
      items, container := [], [];
    }

    /** `new Json(TimeSpan)`, given `value.Ticks`. */
    constructor FromTimeSpan(ticks: Double)
      ensures Tree({this}) && View({this}) == TimeSpanNode(ticks)
    {
      jsonType, dataType := Object, TimeSpan;
      str, boolean, number := [], false, ticks;
      items, container := [], [];
    }

    /** `Json.Array` and `new Json(IEnumerable<Json>)`: the list is copied. */
    constructor FromItems(data: seq<Json?>, ghost W: set<Json>)
      requires ChildrenIn(data, W)
      ensures Tree(W + {this}) && View(W + {this}) == ArrayNode(ViewItems(data, W))
    {
      jsonType, dataType := Array, Container;
      str, boolean, number := [], false, ZERO;
      items, container := data, [];
      new;
      Adopt(this, W);
    }

    /** `Json.Object` and `new Json(IDictionary<string, Json>)`: the dictionary is copied. */
    constructor FromMembers(data: seq<Entry<Json?>>, ghost W: set<Json>)
      requires DistinctKeys(data)
      requires MembersIn(data, W)
      ensures Tree(W + {this}) && View(W + {this}) == ObjectNode(ViewMembers(data, W))
    {
      jsonType, dataType := Object, Container;
      str, boolean, number := [], false, ZERO;
      items, container := [], data;
      new;
      Adopt(this, W);
    }

    /**
     * The geometric constructors: the setter replaces the dictionary with
     * one Number child per component, under the component names.
     */
    constructor FromComponents(dt: DataTypes, keys: seq<Text>, xs: seq<Double>)
      requires |keys| == |xs|
      requires dt in {Color, Vector, Quaternion, Rect}
      requires DistinctNames(keys)
      ensures exists U :: fresh(U) && Tree(U) && View(U) == Node(Object, dt, [], false, ZERO, [], Components(keys, xs))
    {
      var es;
      ghost var V;
      es, V := NumberEntries(keys, xs);
      jsonType, dataType := Object, dt;
      str, boolean, number := [], false, ZERO;
      items, container := [], es;
      new;
      assert DistinctKeys(es) by {
        forall i, j | 0 <= i < j < |es| ensures es[i].key != es[j].key {
          assert es[i].key == keys[i] && es[j].key == keys[j];
        }
      }
      Adopt(this, V);
      ghost var ms := ViewMembers(es, V);
      assert ms == Components(keys, xs) by {
        forall i | 0 <= i < |ms| ensures ms[i] == Components(keys, xs)[i] {
          assert ms[i] == Entry(es[i].key, ViewOf(es[i].value, V));
        }
      }
      assert Tree(V + {this}) && View(V + {this}) == Node(Object, dt, [], false, ZERO, [], Components(keys, xs));
    }

    /** `new Json(Vector3)`, with the universe of the new tree. */
    static method NewVector3(x: Double, y: Double, z: Double) returns (n: Json, ghost U: set<Json>)
      ensures fresh(U) && n.Tree(U) && n.View(U) == Vector3Node(x, y, z)
    {
      assert DistinctNames(XYZ()) by { ComponentNamesDistinct(); }
      n := new Json.FromComponents(Vector, XYZ(), [x, y, z]);
      U :| fresh(U) && n.Tree(U) && n.View(U) == Vector3Node(x, y, z);
    }

    /** `new Json(Bounds)`: a Vector3 child under "center" and one under "size". */
    constructor FromBounds(center: (Double, Double, Double), size: (Double, Double, Double))
      ensures exists U :: fresh(U) && Tree(U) && View(U) == BoundsNode(center, size)
    {
      jsonType, dataType := Object, Bounds;
      str, boolean, number := [], false, ZERO;
      var cn, Uc := NewVector3(center.0, center.1, center.2);
      assert fresh(Uc);
      var sn, Us := NewVector3(size.0, size.1, size.2);
      assert fresh(Uc + Us);
      items, container := [], [Entry(Lit("center"), cn), Entry(Lit("size"), sn)];
      new;
      AdoptBounds(this, cn, Uc, sn, Us, center, size);
      ghost var U :| U == Uc + Us + {this} && Tree(U) && View(U) == BoundsNode(center, size);
      assert fresh(U);
    }

    // The indexers and `Add` methods. A setter's `Assert.IsTrue` on the
    // JsonType is a precondition; the tags are switched before the list or
    // dictionary is touched, so they change even when that then throws.
    // Each mutator takes the universe `U` of the node and the universe `V`
    // of the node it stores, and states the new value of the node.

    /** The int indexer's getter: `_array[index]`, whatever the tags. */
    method GetAt(index: int, ghost U: set<Json>) returns (r: Result<Json?>)
      requires Tree(U)
      ensures r.Ok? <==> 0 <= index < |View(U).items|
      ensures r.Err? ==> r.error == IndexOutOfRange
      ensures r.Ok? ==> ChildTree(r.value, U - {this}) && ViewOf(r.value, U - {this}) == View(U).items[index]
      ensures r.Ok? ==> r.value == items[index]
    {
      if 0 <= index < |items| {
        r := Ok(items[index]);
      } else {
        r := Err(IndexOutOfRange);
      }
    }

    /** The int indexer's setter: replaces an item; the list never grows. */
    method SetAt(index: int, value: Json?, ghost U: set<Json>, ghost V: set<Json>) returns (r: Result<()>)
      requires jsonType == Array || jsonType == JsonTypes.Undefined
      requires Tree(U) && ChildTree(value, V) && this !in V
      modifies this
      ensures r.Ok? <==> 0 <= index < |old(items)|
      ensures r.Err? ==> r.error == IndexOutOfRange
      ensures items == if r.Ok? then old(items)[index := value] else old(items)
      ensures Tree(U + V)
      ensures View(U + V) == WithItems(Retag(old(View(U)), Array, Container),
                                        if r.Ok? then old(View(U)).items[index := ViewOf(value, V)] else old(View(U)).items)
    {
      ghost var before := View(U);
      ghost var stored := ViewOf(value, V);
      ghost var W := Detach(this, U, value, V);
      var updated := items;
      if 0 <= index < |items| {
        updated := items[index := value];
        r := Ok(());
      } else {
        r := Err(IndexOutOfRange);
      }
      ghost var vs := if r.Ok? then before.items[index := stored] else before.items;
      assert ChildrenIn(updated, W) && ViewItems(updated, W) == vs;
      assert Hosts(W, updated, container, value, V, vs, before.members, stored);
      jsonType, dataType, items := Array, Container, updated;
      assert Hosts(W, updated, container, value, V, vs, before.members, stored);
      Adopt(this, W);
    }

    /**
     * The string indexer's getter: a missing key is first bound to a fresh
     * empty Object, so the getter always answers; the tags stay as they are.
     */
    method GetMember(key: Text, ghost U: set<Json>) returns (child: Json?, ghost U': set<Json>)
      requires Tree(U)
      modifies this
      ensures HasKey(old(container), key) ==> container == old(container) && U' == U
      ensures !HasKey(old(container), key) ==> child != null && fresh(child) && U' == U + {child}
                                               && container == old(container) + [Entry(key, child)]
      ensures Tree(U')
      ensures View(U') == WithMembers(old(View(U)), Put(old(View(U)).members, key, Get(old(View(U)).members, key).GetOr(ObjectNode([]))))
      ensures ChildTree(child, U' - {this}) && Get(View(U').members, key) == Ok(ViewOf(child, U' - {this}))
      ensures !HasKey(old(container), key) ==> ViewOf(child, U' - {this}) == ObjectNode([])
      ensures Get(container, key) == Ok(child)
      ensures items == old(items)
    {
      ghost var before := View(U);
      ghost var entries := container;
      assert DistinctKeys(before.members) by {
        assert forall j :: 0 <= j < |container| ==> before.members[j].key == container[j].key;
      }
      if !HasKey(container, key) {
        child, U' := BindEmpty(key, U);
        assert Put(before.members, key, ObjectNode([])) == before.members + [Entry(key, ObjectNode([]))];
        GetAfterPut(before.members, key, ObjectNode([]), key);
        assert Put(entries, key, child) == container;
        GetAfterPut(entries, key, child, key);
      } else {
        var i :| 0 <= i < |container| && container[i].key == key;
        child := container[i].value;
        U' := U;
        assert before.members[i] == Entry(key, ViewOf(child, U - {this}));
        GetIndex(container, i);
        GetIndex(before.members, i);
        PutExisting(before.members, i);
        assert View(U) == WithMembers(before, before.members);
      }
    }

    /** Asking the keyed getter twice for one key answers the same node both times. */
    method ReadTwice(key: Text, ghost U: set<Json>) returns (first: Json?, second: Json?)
      requires Tree(U)
      modifies this
      ensures first == second
      ensures Get(container, key) == Ok(first)
      ensures HasKey(old(container), key) ==> container == old(container)
      ensures !HasKey(old(container), key) ==> first != null && fresh(first) && container == old(container) + [Entry(key, first)]
    {
      ghost var U1: set<Json>;
      ghost var U2: set<Json>;
      first, U1 := GetMember(key, U);
      second, U2 := GetMember(key, U1);
    }

    /**
     * `n[k0][k1]…[km] = value` over keys none of which is bound yet: each
     * keyed getter binds a fresh empty Object and the last setter stores
     * `value` in the innermost one, so the node gains one member that holds
     * the nested objects, while its own tags stay as they are.
     */
    method SetPath(path: seq<Text>, value: Json?, ghost U: set<Json>, ghost V: set<Json>) returns (ghost N: set<Json>)
      requires |path| >= 2 && Tree(U) && ChildTree(value, V) && this !in V && !HasKey(container, path[0])
      modifies this
      decreases |path|, 0
      ensures fresh(N)
      ensures Tree(U + V + N)
      ensures View(U + V + N) == WithMembers(old(View(U)), old(View(U)).members + [Entry(path[0], Nested(path[1..], ViewOf(value, V)))])
    {
      ghost var before := View(U);
      ghost var below := U - {this};
      ghost var vv := ViewOf(value, V);
      ghost var slots := items;
      ghost var entries := container;
      assert Rooted(slots, entries, below, before.items, before.members);
      // the keyed getter on a missing key
      ghost var U1: set<Json>;
      var child;
      child, U1 := BindEmpty(path[0], U);
      ghost var node: Json := child;
      assert node !in U && node !in V;
      assert DistinctKeys(container) && container == entries + [Entry(path[0], node)];
      assert ViewOf(value, V) == vv;
      assert View(U1).jsonType == before.jsonType && View(U1).dataType == before.dataType;
      assert View(U1).str == before.str && View(U1).boolean == before.boolean && View(U1).number == before.number;
      ghost var grown := child.FillEmpty(path[1..], value, below + {node}, V, vv);
      assert fresh(grown) && fresh(node);
      N := grown + {node};
      assert Rooted(slots, entries, below, before.items, before.members);
      Graft(this, node, U, V, grown, N, slots, entries, before, path[0], Nested(path[1..], vv));
      assert ViewOf(value, V) == vv;
    }

    /**
     * The rest of a path, run on the empty Object the first getter bound:
     * the node ends up holding the nested objects for the remaining keys.
     */
    method FillEmpty(path: seq<Text>, value: Json?, ghost U: set<Json>, ghost V: set<Json>, ghost v: Value)
      returns (ghost N: set<Json>)
      requires |path| >= 1 && Tree(U) && View(U) == ObjectNode([]) && ChildTree(value, V) && this !in V
      requires ViewOf(value, V) == v
      modifies this
      decreases |path|, 1
      ensures fresh(N)
      ensures Tree(U + V + N) && View(U + V + N) == Nested(path, v)
    {
      assert |container| == 0;
      if |path| == 1 {
        SetMember(path[0], value, U, V);
        N := {};
        assert U + V + N == U + V;
      } else {
        N := SetPath(path, value, U, V);
      }
    }

    /** The keyed getter's missing-key branch: `_container[key] = Json.Object`. */
    method BindEmpty(key: Text, ghost U: set<Json>) returns (child: Json, ghost U': set<Json>)
      requires Tree(U) && !HasKey(container, key)
      modifies this
      ensures fresh(child) && U' == U + {child} && container == old(container) + [Entry(key, child)]
      ensures items == old(items)
      ensures !HasKey(old(View(U)).members, key)
      ensures Tree(U') && View(U') == WithMembers(old(View(U)), old(View(U)).members + [Entry(key, ObjectNode([]))])
      ensures ChildTree(child, U' - {this}) && ViewOf(child, U' - {this}) == ObjectNode([])
    {
      ghost var before := View(U);
      child := new Json.FromMembers([], {});
      assert {} + {child} == {child};
      U' := U + {child};
      ghost var W := Detach(this, U, child, {child});
      var updated := container + [Entry(key, child)];
      ViewAdd(container, key, child, W);
      ghost var members := before.members + [Entry(key, ObjectNode([]))];
      assert Hosts(W, items, updated, child, {child}, before.items, members, ObjectNode([]));
      container := updated;
      assert Hosts(W, items, updated, child, {child}, before.items, members, ObjectNode([]));
      Adopt(this, W);
      assert U' - {this} == W && U' == W + {this};
    }

    /** The string indexer's setter: `_container[key] = value`, overwriting in place. */
    method SetMember(key: Text, value: Json?, ghost U: set<Json>, ghost V: set<Json>)
      requires jsonType == Object || jsonType == JsonTypes.Undefined
      requires Tree(U) && ChildTree(value, V) && this !in V
      modifies this
      ensures container == Put(old(container), key, value)
      ensures Tree(U + V)
      ensures View(U + V) == WithMembers(Retag(old(View(U)), Object, Container), Put(old(View(U)).members, key, ViewOf(value, V)))
    {
      ghost var before := View(U);
      ghost var stored := ViewOf(value, V);
      ghost var W := Detach(this, U, value, V);
      var updated := Put(container, key, value);
      ViewPut(container, key, value, W);
      ghost var members := Put(before.members, key, stored);
      assert Hosts(W, items, updated, value, V, before.items, members, stored);
      jsonType, dataType, container := Object, Container, updated;
      assert Hosts(W, items, updated, value, V, before.items, members, stored);
      Adopt(this, W);
    }

    /** `Add(Json)`: appends an item. */
    method Add(value: Json?, ghost U: set<Json>, ghost V: set<Json>)
      requires jsonType == Array || jsonType == JsonTypes.Undefined
      requires Tree(U) && ChildTree(value, V) && this !in V
      modifies this
      ensures items == old(items) + [value]
      ensures Tree(U + V)
      ensures View(U + V) == WithItems(Retag(old(View(U)), Array, Container), old(View(U)).items + [ViewOf(value, V)])
    {
      ghost var before := View(U);
      ghost var stored := ViewOf(value, V);
      ghost var W := Detach(this, U, value, V);
      var updated := items + [value];
      ghost var vs := before.items + [stored];
      assert ChildrenIn(updated, W) && ViewItems(updated, W) == vs;
      assert Hosts(W, updated, container, value, V, vs, before.members, stored);
      jsonType, dataType, items := Array, Container, updated;
      assert Hosts(W, updated, container, value, V, vs, before.members, stored);
      Adopt(this, W);
    }

    /** `Add(string, Json)`: `Dictionary.Add`, which refuses a present key. */
    method AddMember(key: Text, value: Json?, ghost U: set<Json>, ghost V: set<Json>) returns (r: Result<()>)
      requires jsonType == Object || jsonType == JsonTypes.Undefined
      requires Tree(U) && ChildTree(value, V) && this !in V
      modifies this
      ensures r.Ok? <==> !HasKey(old(container), key)
      ensures r.Err? ==> r.error == DuplicateKey
      ensures container == if r.Ok? then old(container) + [Entry(key, value)] else old(container)
      ensures Tree(U + V)
      ensures View(U + V) == WithMembers(Retag(old(View(U)), Object, Container),
                                          Dict.Add(old(View(U)).members, key, ViewOf(value, V)).GetOr(old(View(U)).members))
    {
      ghost var before := View(U);
      ghost var stored := ViewOf(value, V);
      ghost var W := Detach(this, U, value, V);
      var added := Dict.Add(container, key, value);
      r := if added.Ok? then Ok(()) else Err(added.error);
      var updated := added.GetOr(container);
      assert updated == if r.Ok? then container + [Entry(key, value)] else container;
      ViewAdd(container, key, value, W);
      ghost var members := Dict.Add(before.members, key, stored).GetOr(before.members);
      assert Hosts(W, items, updated, value, V, before.items, members, stored);
      jsonType, dataType, container := Object, Container, updated;
      assert Hosts(W, items, updated, value, V, before.items, members, stored);
      Adopt(this, W);
    }

    // The writer. Output goes to a text that grows as the `StringWriter`
    // does; an exception abandons it.

    /** `Write(writer, includeTypeInfo)`. */
    method Write(ghost U: set<Json>, typed: bool, c: Culture) returns (r: Result<Text>)
      requires Tree(U)
      ensures r == Writer.Write(View(U), typed, c)
      decreases U, 1
    {
      var body: Text;
      match jsonType {
        case Undefined =>
          body := Lit("null");
        case Null =>
          body := Lit("null");
        case String =>
          body := [QUOTE] + str + [QUOTE];
        case Boolean =>
          body := if boolean then Lit("true") else Lit("false");
        case Number =>
          body := c.format(number);
        case Array =>
          var inner :- WriteArray(U, typed, c);
          body := [LBRACKET] + inner + [RBRACKET];
        case Object =>
          var inner;
          if dataType == Container {
            inner :- WriteContainer(U, typed, c);
          } else {
            inner :- WriteFields(U, c);
          }
          body := [LBRACE] + inner + [RBRACE];
      }
      if typed {
        r := Ok(Writer.EnvelopeHead(jsonType, dataType) + body + [RBRACE]);
      } else {
        r := Ok(body);
      }
    }

    /** The array loop of `Write`: each item, then ", " unless it was the last. */
    method WriteArray(ghost U: set<Json>, typed: bool, c: Culture) returns (r: Result<Text>)
      requires Tree(U)
      ensures r == Writer.WriteItems(View(U).items, typed, c)
      decreases U, 0
    {
      ghost var vs := ViewItems(items, U - {this});
      ghost var results := Writer.Writes(vs, typed, c);
      var out: Text := [];
      ghost var parts: seq<Text> := [];
      var index := 0;
      var count := |items| - 1;
      while index < |items|
        invariant 0 <= index <= |items|
        invariant |parts| == index
        invariant forall j :: 0 <= j < index ==> results[j] == Ok(parts[j])
        invariant out == Writer.Emitted(parts, |items|)
      {
        var part :- WriteItem(items[index], U - {this}, typed, c);
        Writer.Advance(results, parts, part);
        out := out + part;
        if index < count {
          out := out + Writer.SEPARATOR;
        }
        parts := parts + [part];
        index := index + 1;
      }
      Writer.CollectAll(results, parts);
      r := Ok(out);
    }

    /** The Container loop of `Write`: `"key": `, the value in the same mode, then ", " unless last. */
    method WriteContainer(ghost U: set<Json>, typed: bool, c: Culture) returns (r: Result<Text>)
      requires Tree(U)
      ensures r == Writer.WriteMembers(View(U).members, typed, c)
      decreases U, 0
    {
      ghost var ms := ViewMembers(container, U - {this});
      ghost var results := Writer.MemberWrites(ms, typed, c);
      var out: Text := [];
      ghost var parts: seq<Text> := [];
      var index := 0;
      var count := |container| - 1;
      while index < |container|
        invariant 0 <= index <= |container|
        invariant |parts| == index
        invariant forall j :: 0 <= j < index ==> results[j] == Ok(parts[j])
        invariant out == Writer.Emitted(parts, |container|)
      {
        var part :- WriteEntry(container[index], U - {this}, typed, c);
        Writer.Advance(results, parts, part);
        out := out + part;
        if index < count {
          out := out + Writer.SEPARATOR;
        }
        parts := parts + [part];
        index := index + 1;
      }
      Writer.CollectAll(results, parts);
      r := Ok(out);
    }

    /** The loop of `Write` for any other Object: `$"\"{key}\": {value}"`, then ", " unless last. */
    method WriteFields(ghost U: set<Json>, c: Culture) returns (r: Result<Text>)
      requires Tree(U)
      ensures r == Writer.ShowMembers(View(U).members, c)
      decreases U, 0
    {
      ghost var ms := ViewMembers(container, U - {this});
      ghost var results := Writer.MemberShows(ms, c);
      var out: Text := [];
      ghost var parts: seq<Text> := [];
      var index := 0;
      var count := |container| - 1;
      while index < |container|
        invariant 0 <= index <= |container|
        invariant |parts| == index
        invariant forall j :: 0 <= j < index ==> results[j] == Ok(parts[j])
        invariant out == Writer.Emitted(parts, |container|)
      {
        var part :- ShowEntry(container[index], U - {this}, c);
        Writer.Advance(results, parts, part);
        out := out + part;
        if index < count {
          out := out + Writer.SEPARATOR;
        }
        parts := parts + [part];
        index := index + 1;
      }
      Writer.CollectAll(results, parts);
      r := Ok(out);
    }

    /** One item of the array loop: `_array[i].Write(writer, includeTypeInfo)`. */
    static method WriteItem(item: Json?, ghost V: set<Json>, typed: bool, c: Culture) returns (r: Result<Text>)
      requires ChildTree(item, V)
      ensures r == Writer.Write(ViewOf(item, V), typed, c)
      decreases V, 2
    {
      if item == null {
        return Err(NullReference);
      }
      r := item.Write(V, typed, c);
    }

    /** One entry of the Container loop: the quoted key, `: `, then the value in the same mode. */
    static method WriteEntry(kvp: Entry<Json?>, ghost V: set<Json>, typed: bool, c: Culture) returns (r: Result<Text>)
      requires ChildTree(kvp.value, V)
      ensures r == Writer.WriteMember(Entry(kvp.key, ViewOf(kvp.value, V)), typed, c)
      decreases V, 2
    {
      var prefix := Writer.KeyPrefix(kvp.key);
      if kvp.value == null {
        return Err(NullReference);
      }
      var t :- kvp.value.Write(V, typed, c);
      r := Ok(prefix + t);
    }

    /** One entry of the loop for any other Object: the quoted key, `: `, then the value's `ToString`. */
    static method ShowEntry(kvp: Entry<Json?>, ghost V: set<Json>, c: Culture) returns (r: Result<Text>)
      requires ChildTree(kvp.value, V)
      ensures r == Writer.ShowMember(Entry(kvp.key, ViewOf(kvp.value, V)), c)
      decreases V, 3
    {
      var shown: Text := [];
      if kvp.value != null {
        shown :- kvp.value.ToString(V, c);
      }
      r := Ok(Writer.KeyPrefix(kvp.key) + shown);
    }

    /** `ToString()`. */
    method ToString(ghost U: set<Json>, c: Culture) returns (r: Result<Text>)
      requires Tree(U)
      ensures r == Writer.Show(View(U), c)
      decreases U, 2
    {
      match jsonType {
        case Undefined =>
          r := Ok(Lit("null"));
        case Null =>
          r := Ok(Lit("null"));
        case String =>
          r := Ok(str);
        case Boolean =>
          r := Ok(if boolean then Lit("True") else Lit("False"));
        case Number =>
          r := Ok(c.format(number));
        case Array =>
          r := Write(U, false, c);
        case Object =>
          r := Write(U, false, c);
      }
    }

    /** The implicit `string` conversion: the `String` getter, which asserts the String/Primitive tags. */
    static method AsString(n: Json?, ghost V: set<Json>) returns (r: Result<Text>)
      requires ChildTree(n, V)
      ensures r == StringOf(ViewOf(n, V))
    {
      if n == null {
        return Err(NullReference);
      }
      if n.jsonType == String && n.dataType == Primitive {
        r := Ok(n.str);
      } else {
        r := Err(AssertionFailed);
      }
    }

    /**
     * `FromSerialization(jsonType, dataType, value)`: stores the tag named by
     * each name node into `value` and hands `value` back. The JsonType is
     * stored before the DataType name is checked, so a bad DataType name
     * leaves `value` half retagged.
     */
    static method FromSerialization(jsonType: Json?, dataType: Json?, value: Json?, ghost V: set<Json>)
      returns (r: Result<Json?>)
      requires ChildTree(jsonType, V) && ChildTree(dataType, V) && ChildTree(value, V)
      requires value != null ==> value != jsonType && value != dataType
      modifies value
      ensures r.Ok? ==> r.value == value && ChildTree(value, V)
      ensures Values.FromSerialization(old(ViewOf(jsonType, V)), old(ViewOf(dataType, V)), old(ViewOf(value, V)))
              == if r.Ok? then Ok(ViewOf(value, V)) else Err(r.error)
      ensures r.Err? && value != null ==>
                && ChildTree(value, V)
                && ViewOf(value, V) == PartlyRetagged(old(ViewOf(jsonType, V)), old(ViewOf(value, V)))
    {
      var jn :- AsString(jsonType, V);
      var j :- ParseJsonType(jn);
      if value == null {
        return Err(NullReference);
      }
      // `dataType` is another node, so the first store leaves what its conversion reads alone
      var dn := AsString(dataType, V);
      ghost var before := value.View(V);
      ghost var W := V - {value};
      assert Hosts(W, value.items, value.container, null, {}, before.items, before.members, NullRef);
      value.jsonType := j;
      assert Hosts(W, value.items, value.container, null, {}, before.items, before.members, NullRef);
      Adopt(value, W);
      assert W + {value} == V;
      var name :- dn;
      var d :- ParseDataType(name);
      value.dataType := d;
      assert Hosts(W, value.items, value.container, null, {}, before.items, before.members, NullRef);
      Adopt(value, W);
      assert W + {value} == V;
      r := Ok(value);
    }

    /** Number children for `keys`, as the dictionary initialiser of a geometric setter creates them. */
    static method NumberEntries(keys: seq<Text>, xs: seq<Double>) returns (es: seq<Entry<Json?>>, ghost V: set<Json>)
      requires |keys| == |xs|
      ensures fresh(V)
      ensures |es| == |keys|
      ensures forall i :: 0 <= i < |es| ==> es[i].key == keys[i]
      ensures forall i :: 0 <= i < |es| ==> ChildTree(es[i].value, V) && ViewOf(es[i].value, V) == NumberNode(xs[i])
    {
      es, V := [], {};
      for i := 0 to |keys|
        invariant fresh(V)
        invariant |es| == i
        invariant forall j :: 0 <= j < i ==> es[j].key == keys[j]
        invariant forall j :: 0 <= j < i ==> ChildTree(es[j].value, V) && ViewOf(es[j].value, V) == NumberNode(xs[j])
      {
        var child := new Json.FromNumber(xs[i]);
        forall j | 0 <= j < i
          ensures ChildTree(es[j].value, V + {child}) && ViewOf(es[j].value, V + {child}) == NumberNode(xs[j])
        {
          ChildMono(es[j].value, V, V + {child});
        }
        Mono(child, {child}, V + {child});
        es, V := es + [Entry(keys[i], child)], V + {child};
      }
    }
  }

  /** A child slot: null, or a well-formed node of `V`. */
  ghost predicate ChildTree(c: Json?, V: set<Json>)
    reads V
    decreases V, 1
  {
    c != null ==> c in V && c.Tree(V)
  }

  /** Every slot of a list is a child of `V`. */
  ghost predicate ChildrenIn(cs: seq<Json?>, V: set<Json>)
    reads V
    decreases V, 2
  {
    forall i :: 0 <= i < |cs| ==> ChildTree(cs[i], V)
  }

  /** Every value of a dictionary is a child of `V`. */
  ghost predicate MembersIn(es: seq<Entry<Json?>>, V: set<Json>)
    reads V
    decreases V, 2
  {
    forall i :: 0 <= i < |es| ==> ChildTree(es[i].value, V)
  }

  /** The value of a child slot: a null reference stays one. */
  ghost function ViewOf(c: Json?, V: set<Json>): (v: Value)
    requires ChildTree(c, V)
    reads V
    ensures v.NullRef? <==> c == null
    decreases V, 1
  {
    if c == null then NullRef else c.View(V)
  }

  ghost function ViewItems(cs: seq<Json?>, V: set<Json>): (vs: seq<Value>)
    requires ChildrenIn(cs, V)
    reads V
    ensures |vs| == |cs|
    ensures forall i :: 0 <= i < |cs| ==> vs[i] == ViewOf(cs[i], V)
    decreases V, 3
  {
    seq(|cs|, i requires 0 <= i < |cs| && ChildTree(cs[i], V) reads V => ViewOf(cs[i], V))
  }

  ghost function ViewMembers(es: seq<Entry<Json?>>, V: set<Json>): (ms: seq<Entry<Value>>)
    requires MembersIn(es, V)
    reads V
    ensures |ms| == |es|
    ensures forall i :: 0 <= i < |es| ==> ms[i] == Entry(es[i].key, ViewOf(es[i].value, V))
    decreases V, 3
  {
    seq(|es|, i requires 0 <= i < |es| && ChildTree(es[i].value, V) reads V => Entry(es[i].key, ViewOf(es[i].value, V)))
  }

  /** A tree stays a tree, with the same value, in any larger universe. */
  lemma {:induction false} Mono(n: Json, U: set<Json>, W: set<Json>)
    requires n.Tree(U) && U <= W
    ensures n.Tree(W) && n.View(W) == n.View(U)
    decreases U, 0
  {
    forall i | 0 <= i < |n.items|
      ensures ChildTree(n.items[i], W - {n}) && ViewOf(n.items[i], W - {n}) == ViewOf(n.items[i], U - {n})
    {
      ChildMono(n.items[i], U - {n}, W - {n});
    }
    forall i | 0 <= i < |n.container|
      ensures ChildTree(n.container[i].value, W - {n})
      ensures ViewOf(n.container[i].value, W - {n}) == ViewOf(n.container[i].value, U - {n})
    {
      ChildMono(n.container[i].value, U - {n}, W - {n});
    }
    assert ViewItems(n.items, W - {n}) == ViewItems(n.items, U - {n});
    assert ViewMembers(n.container, W - {n}) == ViewMembers(n.container, U - {n});
  }

  lemma {:induction false} ChildMono(c: Json?, V: set<Json>, W: set<Json>)
    requires ChildTree(c, V) && V <= W
    ensures ChildTree(c, W) && ViewOf(c, W) == ViewOf(c, V)
    decreases V, 1
  {
    if c != null {
      Mono(c, V, W);
    }
  }

  /**
   * Before a node of `U` takes in a child of `V`: its children, and the new
   * one, are trees of `W`, the two universes without the node, with the
   * values they had.
   */
  lemma Detach(n: Json, U: set<Json>, c: Json?, V: set<Json>) returns (W: set<Json>)
    requires n.Tree(U) && ChildTree(c, V) && n !in V
    ensures W == (U + V) - {n} && W + {n} == U + V && n !in W
    ensures ChildrenIn(n.items, W)
    ensures MembersIn(n.container, W)
    ensures ChildTree(c, W) && ViewOf(c, W) == ViewOf(c, V)
    ensures ViewItems(n.items, W) == n.View(U).items
    ensures ViewMembers(n.container, W) == n.View(U).members
  {
    W := (U + V) - {n};
    KeepChildren(n.items, U - {n}, W);
    KeepMembers(n.container, U - {n}, W);
    ChildMono(c, V, W);
  }

  /** The slots `new Json(Bounds)` fills: an Object tagged Bounds whose two members are `a` and `b`. */
  ghost predicate BoundsSlots(n: Json, a: Json, b: Json)
    reads n
  {
    && n.jsonType == Object && n.dataType == Bounds && n.str == [] && !n.boolean && n.number == ZERO
    && n.items == [] && n.container == [Entry(Lit("center"), a), Entry(Lit("size"), b)]
  }

  /** A Bounds node over its two Vector3 trees is a tree with the Bounds value. */
  lemma AdoptBounds(n: Json, a: Json, A: set<Json>, b: Json, B: set<Json>, center: (Double, Double, Double),
                    size: (Double, Double, Double))
    requires a.Tree(A) && a.View(A) == Vector3Node(center.0, center.1, center.2)
    requires b.Tree(B) && b.View(B) == Vector3Node(size.0, size.1, size.2)
    requires n !in A + B && BoundsSlots(n, a, b)
    ensures exists U :: U == A + B + {n} && n.Tree(U) && n.View(U) == BoundsNode(center, size)
  {
    assert |Lit("center")| != |Lit("size")|;
    AdoptPair(n, a, A, a.View(A), b, B, b.View(B));
    ghost var U := A + B + {n};
    assert U == A + B + {n} && n.Tree(U) && n.View(U) == BoundsNode(center, size);
  }

  /** `Adopt` for a node with exactly two members, each with its own universe. */
  lemma AdoptPair(n: Json, a: Json, A: set<Json>, va: Value, b: Json, B: set<Json>, vb: Value)
    requires a.Tree(A) && a.View(A) == va && b.Tree(B) && b.View(B) == vb && n !in A + B
    requires n.items == [] && |n.container| == 2 && n.container[0].value == a && n.container[1].value == b
    requires n.container[0].key != n.container[1].key
    ensures n.Tree(A + B + {n})
    ensures n.View(A + B + {n}) == Node(n.jsonType, n.dataType, n.str, n.boolean, n.number, [],
                                        [Entry(n.container[0].key, va), Entry(n.container[1].key, vb)])
  {
    Mono(a, A, A + B);
    Mono(b, B, A + B);
    forall i | 0 <= i < |n.container|
      ensures ChildTree(n.container[i].value, A + B)
    {
    }
    Adopt(n, A + B);
    assert ViewMembers(n.container, A + B) == [Entry(n.container[0].key, va), Entry(n.container[1].key, vb)];
  }

  /**
   * The slots a node is about to hold, and the child it takes in, are trees
   * of `W` with the given values. Nothing here reads the node itself, so the
   * fact survives any change to it.
   */
  ghost predicate Hosts(W: set<Json>, cs: seq<Json?>, es: seq<Entry<Json?>>, c: Json?, V: set<Json>,
                        vs: seq<Value>, ms: seq<Entry<Value>>, v: Value)
    reads W
  {
    && V <= W
    && ChildrenIn(cs, W) && MembersIn(es, W) && ChildTree(c, V)
    && ViewItems(cs, W) == vs && ViewMembers(es, W) == ms && ViewOf(c, V) == v
  }

  /** A node outside `W` whose children are trees of `W` is a tree of `W` and itself. */
  lemma Adopt(n: Json, W: set<Json>)
    requires n !in W
    requires DistinctKeys(n.container)
    requires ChildrenIn(n.items, W)
    requires MembersIn(n.container, W)
    ensures n.Tree(W + {n})
    ensures n.View(W + {n}) == Node(n.jsonType, n.dataType, n.str, n.boolean, n.number,
                                     ViewItems(n.items, W), ViewMembers(n.container, W))
  {
    assert (W + {n}) - {n} == W;
  }

  lemma KeepChildren(cs: seq<Json?>, V: set<Json>, W: set<Json>)
    requires ChildrenIn(cs, V)
    requires V <= W
    ensures ChildrenIn(cs, W)
    ensures ViewItems(cs, W) == ViewItems(cs, V)
  {
    forall i | 0 <= i < |cs|
      ensures ChildTree(cs[i], W) && ViewOf(cs[i], W) == ViewOf(cs[i], V)
    {
      ChildMono(cs[i], V, W);
    }
  }

  lemma KeepMembers(es: seq<Entry<Json?>>, V: set<Json>, W: set<Json>)
    requires MembersIn(es, V)
    requires V <= W
    ensures MembersIn(es, W)
    ensures ViewMembers(es, W) == ViewMembers(es, V)
  {
    forall i | 0 <= i < |es|
      ensures ChildTree(es[i].value, W) && ViewOf(es[i].value, W) == ViewOf(es[i].value, V)
    {
      ChildMono(es[i].value, V, W);
    }
  }

  /** Appending a child of `I` to a list over `W`: the list's view grows by the child's. */
  lemma GrowItems(cs: seq<Json?>, W: set<Json>, c: Json?, I: set<Json>)
    requires ChildrenIn(cs, W) && ChildTree(c, I)
    ensures ChildrenIn(cs + [c], W + I)
    ensures ViewItems(cs + [c], W + I) == ViewItems(cs, W) + [ViewOf(c, I)]
  {
    KeepChildren(cs, W, W + I);
    ChildMono(c, I, W + I);
    assert ViewItems(cs + [c], W + I) == ViewItems(cs, W + I) + [ViewOf(c, W + I)];
  }

  /**
   * A dictionary being filled by the reader: distinct keys, values that are
   * distinct children of `W`, and `ms` its view.
   */
  ghost predicate Collected(es: seq<Entry<Json?>>, W: set<Json>, ms: seq<Entry<Value>>)
    reads W
  {
    DistinctKeys(es) && MembersIn(es, W) && Unshared(es) && ViewMembers(es, W) == ms
  }

  /**
   * Storing a child of `I`, which is not a node of `W`, in a dictionary over
   * `W`: the dictionary's view is the setter applied to the views.
   */
  lemma GrowMembers(es: seq<Entry<Json?>>, W: set<Json>, ms: seq<Entry<Value>>, k: Text, c: Json?, I: set<Json>)
    requires Collected(es, W, ms)
    requires ChildTree(c, I) && c !in W
    ensures Collected(Put(es, k, c), W + I, Put(ms, k, ViewOf(c, I)))
  {
    KeepMembers(es, W, W + I);
    ChildMono(c, I, W + I);
    PutUnshared(es, k, c, W);
    ViewPut(es, k, c, W + I);
  }

  /** Slots that are children of `below` with the given views; nothing here reads the node holding them. */
  ghost predicate Rooted(cs: seq<Json?>, es: seq<Entry<Json?>>, below: set<Json>, vs: seq<Value>, ms: seq<Entry<Value>>)
    reads below
  {
    ChildrenIn(cs, below) && MembersIn(es, below) && ViewItems(cs, below) == vs && ViewMembers(es, below) == ms
  }

  /**
   * A node whose dictionary was `es`, over `below`, and now ends in a child
   * that is a tree of `W`: the node is a tree of `W` and itself, whose view
   * gained that one member.
   */
  lemma Regraft(n: Json, cs: seq<Json?>, es: seq<Entry<Json?>>, below: set<Json>, W: set<Json>, T: set<Json>, k: Text, c: Json, v: Value)
    requires n !in W && below <= W && c in W && c.Tree(W) && c.View(W) == v && T == W + {n}
    requires ChildrenIn(cs, below) && MembersIn(es, below)
    requires n.items == cs && n.container == es + [Entry(k, c)] && DistinctKeys(n.container)
    ensures n.Tree(T)
    ensures n.View(T) == Node(n.jsonType, n.dataType, n.str, n.boolean, n.number,
                              ViewItems(cs, below), ViewMembers(es, below) + [Entry(k, v)])
  {
    KeepChildren(cs, below, W);
    KeepMembers(es, below, W);
    assert ViewMembers(es + [Entry(k, c)], W) == ViewMembers(es, W) + [Entry(k, v)];
    Adopt(n, W);
  }

  /**
   * The last step of a keyed chain: `n`, whose view was `before` over `U`,
   * now ends its dictionary in `c`, a tree over the rest of `U`, the stored
   * value's nodes `V` and the new nodes.
   */
  lemma Graft(n: Json, c: Json, U: set<Json>, V: set<Json>, grown: set<Json>, N: set<Json>,
              cs: seq<Json?>, es: seq<Entry<Json?>>, before: Value, k: Text, v: Value)
    requires n in U && n !in V && n !in grown && c != n && N == grown + {c}
    requires c.Tree((U - {n}) + {c} + V + grown) && c.View((U - {n}) + {c} + V + grown) == v
    requires before.Node? && Rooted(cs, es, U - {n}, before.items, before.members)
    requires n.items == cs && n.container == es + [Entry(k, c)] && DistinctKeys(n.container)
    requires n.jsonType == before.jsonType && n.dataType == before.dataType
    requires n.str == before.str && n.boolean == before.boolean && n.number == before.number
    ensures n.Tree(U + V + N)
    ensures n.View(U + V + N) == WithMembers(before, before.members + [Entry(k, v)])
  {
    Regroup(U, V, n, c, grown);
    Regraft(n, cs, es, U - {n}, (U - {n}) + {c} + V + grown, U + V + N, k, c, v);
  }

  /** The universe after a path is set: the old one, the stored value's, and the new nodes. */
  lemma Regroup(U: set<Json>, V: set<Json>, n: Json, c: Json, grown: set<Json>)
    requires n in U
    ensures (U - {n}) + {c} + V + grown + {n} == U + V + (grown + {c})
  {
  }

  /** Viewing commutes with `Dictionary.Add`, whether it succeeds or not. */
  lemma ViewAdd(es: seq<Entry<Json?>>, k: Text, c: Json?, W: set<Json>)
    requires MembersIn(es, W) && ChildTree(c, W)
    ensures Dict.Add(es, k, c).Ok? == Dict.Add(ViewMembers(es, W), k, ViewOf(c, W)).Ok?
    ensures MembersIn(Dict.Add(es, k, c).GetOr(es), W)
    ensures ViewMembers(Dict.Add(es, k, c).GetOr(es), W)
            == Dict.Add(ViewMembers(es, W), k, ViewOf(c, W)).GetOr(ViewMembers(es, W))
  {
    var ms := ViewMembers(es, W);
    assert HasKey(ms, k) <==> HasKey(es, k) by {
      if HasKey(es, k) {
        var i :| 0 <= i < |es| && es[i].key == k;
        assert ms[i].key == k;
      }
      if HasKey(ms, k) {
        var i :| 0 <= i < |ms| && ms[i].key == k;
        assert es[i].key == k;
      }
    }
    if !HasKey(es, k) {
      assert ViewMembers(es + [Entry(k, c)], W) == ms + [Entry(k, ViewOf(c, W))];
    }
  }

  /** Viewing commutes with the dictionary getter. */
  lemma ViewGet(es: seq<Entry<Json?>>, k: Text, W: set<Json>)
    requires MembersIn(es, W) && DistinctKeys(es)
    ensures HasKey(ViewMembers(es, W), k) == HasKey(es, k)
    ensures Get(es, k).Ok? ==> ChildTree(Get(es, k).value, W) && Get(ViewMembers(es, W), k) == Ok(ViewOf(Get(es, k).value, W))
  {
    var ms := ViewMembers(es, W);
    if HasKey(ms, k) {
      var i :| 0 <= i < |ms| && ms[i].key == k;
      assert es[i].key == k;
    }
    if HasKey(es, k) {
      var i :| 0 <= i < |es| && es[i].key == k;
      assert ms[i].key == k;
      GetIndex(es, i);
      assert DistinctKeys(ms) by {
        assert forall j :: 0 <= j < |es| ==> ms[j].key == es[j].key;
      }
      GetIndex(ms, i);
    }
  }

  /** No node is the value of two entries of a dictionary. */
  ghost predicate Unshared(es: seq<Entry<Json?>>)
  {
    forall i, j :: 0 <= i < j < |es| && es[i].value != null ==> es[i].value != es[j].value
  }

  /** Storing a node from outside `W` keeps the values of a dictionary over `W` unshared. */
  lemma PutUnshared(es: seq<Entry<Json?>>, k: Text, c: Json?, W: set<Json>)
    requires DistinctKeys(es) && MembersIn(es, W) && Unshared(es)
    requires c !in W
    ensures Unshared(Put(es, k, c))
  {
    var r := Put(es, k, c);
    forall i, j | 0 <= i < j < |r| && r[i].value != null
      ensures r[i].value != r[j].value
    {
      assert ChildTree(es[i].value, W);
      if j < |es| {
        assert ChildTree(es[j].value, W);
      }
    }
  }

  /** The values under two different keys of an unshared dictionary are different nodes. */
  lemma GetUnshared(es: seq<Entry<Json?>>, k1: Text, k2: Text)
    requires Unshared(es) && k1 != k2
    requires Get(es, k1).Ok? && Get(es, k2).Ok? && Get(es, k1).value != null
    ensures Get(es, k1).value != Get(es, k2).value
  {
    var i :| 0 <= i < |es| && es[i] == Entry(k1, Get(es, k1).value);
    var j :| 0 <= j < |es| && es[j] == Entry(k2, Get(es, k2).value);
    assert i != j;
  }

  /** Viewing commutes with the dictionary setter. */
  lemma ViewPut(es: seq<Entry<Json?>>, k: Text, c: Json?, W: set<Json>)
    requires MembersIn(es, W)
    requires ChildTree(c, W)
    ensures MembersIn(Put(es, k, c), W)
    ensures ViewMembers(Put(es, k, c), W) == Put(ViewMembers(es, W), k, ViewOf(c, W))
  {
    var ms := ViewMembers(es, W);
    var r := Put(es, k, c);
    var v := ViewOf(c, W);
    assert HasKey(ms, k) <==> HasKey(es, k) by {
      if HasKey(es, k) {
        var i :| 0 <= i < |es| && es[i].key == k;
        assert ms[i].key == k;
      }
      if HasKey(ms, k) {
        var i :| 0 <= i < |ms| && ms[i].key == k;
        assert es[i].key == k;
      }
    }
    var rm := Put(ms, k, v);
    assert |r| == |rm|;
    forall i | 0 <= i < |r|
      ensures ChildTree(r[i].value, W) && Entry(r[i].key, ViewOf(r[i].value, W)) == rm[i]
    {
      if i == |es| {
        assert r[i] == Entry(k, c) && rm[i] == Entry(k, v);
      } else if es[i].key == k {
        assert r[i] == Entry(k, c) && rm[i] == Entry(k, v);
      } else {
        assert r[i] == es[i] && rm[i] == ms[i];
      }
    }
  }

}
