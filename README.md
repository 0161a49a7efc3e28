# unity-json, modelled in Dafny

RedOwl's `Json` is a single mutable node class for Unity. It is a tagged
union: a `JsonType` (Undefined, Null, String, Boolean, Number, Array,
Object) and a `DataType` (Undefined, Primitive, Container, Uri, Guid,
DateTime, DateTimeOffset, TimeSpan, Color, Vector, Quaternion, Bounds,
Rect) say which of its slots are meaningful. The slots are a string, a
boolean, a double, a list of children and a dictionary of children.

A node is built in three ways:
- typed constructors, for strings, booleans, numbers and the Unity value
  types;
- the integer indexer, the string indexer and the two `Add` overloads,
  which change it in place;
- `JsonSerialization`, which reads it back from text.

The node writes itself in two forms:
- `Write(writer, typed)` gives plain JSON text, or, when `typed` is set, a
  `{"JsonType": …, "DataType": …, "Value": …}` envelope around every node;
- `ToString()` is used for the children of the Unity value types.

`JsonSerialization` is a hand-written recursive-descent reader. It keeps a
static `StringReader`, tokenises by peeking one character, and rebuilds a
node from an envelope with `Json.FromSerialization`.

The project has these modules:

- `Base`: the shared vocabulary.
  - Strings are sequences of UTF-16 code units.
  - A double is an opaque 64-bit pattern.
  - `Culture` stands for the current culture's `double.ToString` and
    `double.TryParse`.
  - `Result` carries the exception a call would throw.
- `Dict`: the insertion-ordered `Dictionary<string, Json>`. It covers the
  indexer get and set, `Add` (which refuses a duplicate key), and the
  lookup that throws `KeyNotFoundException`.
- `Tags`: the two enums, their names, and `Enum.Parse` on those names.
- `Values`: the value of a node as a datatype.
  - Every typed constructor and `Json.Null`/`Array`/`Object` as a
    function.
  - Every typed getter, with its `Assert.IsTrue` as an error case.
  - `FromSerialization`.
- `Writer`: `Write` and `ToString` as functions of the value.
- `Nodes`: the class `Json`.
  - Its fields: the two tags, the three scalar slots, the child list and
    the child dictionary.
  - Its constructors, its indexers and its `Add` methods, which update
    those fields in place.
  - `Write`, `ToString` and `FromSerialization` as methods.
  - Each method is proved against the value the node stands for. That
    value is computed over an explicit set of the nodes the tree reaches,
    so shared children are allowed.
- `Lexer` and `Grammar`: the reader as functions of (text, position).
  - `EatWhitespace`, `NextWord`, `NextToken` and `ParseString` with its
    escapes.
  - `ParseNumber`, `ParseValue`, `ParseByToken`, `ParseArray`,
    `ParseObject` with its envelope case, and `Deserialize`.
- `Serialization`: the reader as the source writes it. A class `Reader`
  holds the text and the position that the static `StringReader` keeps,
  with its loops. Each method is proved against its `Lexer`/`Grammar`
  function. `Serialize` and `Deserialize` are also here.
- `ReadSteps`, `ReaderCases`, `RoundTrip`: what the reader does on the
  texts that matter.
  - Single steps of each loop.
  - The edge cases: blank input, unclosed arrays, a colon inside an array,
    unknown words, a key without a colon, and envelopes without `Value`.
  - The escaping round trip of `ParseString`.
  - The typed round trip `Deserialize(Serialize(v)) == v`, for every value
    the writer and the reader can both express.

## Model

| member | source | states |
|---|---|---|
| Dict.Get | RedOwl/Engine/Json.cs:77-83 | a dictionary lookup succeeds exactly when the key is present and yields the value stored under it; a missing key is `KeyNotFoundException` |
| Dict.Put | RedOwl/Engine/Json.cs:84-90 | `dict[key] = value` replaces the value of an existing key in its place and otherwise appends the entry at the end; no other entry changes |
| Dict.Add | RedOwl/Engine/Json.cs:139-145 | `Dictionary.Add` appends the entry when the key is new and fails with a duplicate-key error, leaving the dictionary as it was, when it is not |
| Dict.GetAfterPut | RedOwl/Engine/Json.cs:77-91 | after storing under `k`, looking up `k` yields the stored value and every other key yields what it yielded before |
| Dict.PutKeys | RedOwl/Engine/JsonSerialization.cs:282 | storing under a key that is present keeps the key order; storing under a new key appends it, so a repeated key in a text keeps its first position |
| Dict.PutDistinct | RedOwl/Engine/Json.cs:84-90 | storing under a key keeps the keys of a dictionary distinct |
| Tags.ParseJsonType | RedOwl/Engine/Json.cs:685 | `Enum.Parse` on `JsonTypes` succeeds only on a name that the enum's `ToString` gives back, and otherwise fails |
| Tags.ParseDataType | RedOwl/Engine/Json.cs:686 | `Enum.Parse` on `DataTypes` succeeds only on a name that the enum's `ToString` gives back, and otherwise fails |
| Tags.ParseNames | RedOwl/Engine/Json.cs:612-616 | the names the writer puts in an envelope parse back to the same two tags |
| Tags.JsonNamesDistinct | RedOwl/Engine/Json.cs:27-36 | no two JSON types share a name |
| Tags.DataNamesDistinct | RedOwl/Engine/Json.cs:38-53 | no two data types share a name |
| Values.StringOf | RedOwl/Engine/Json.cs:149-162 | the `String` getter succeeds exactly on a String/Primitive node and returns its text; a null reference is `NullReferenceException`, any other node fails the assertion |
| Values.BoolOf | RedOwl/Engine/Json.cs:164-177 | the `Bool` getter succeeds exactly on a Boolean/Primitive node and returns its flag |
| Values.NumberOf | RedOwl/Engine/Json.cs:179-192 | the `Number` getter succeeds exactly on a Number/Primitive node and returns its double |
| Values.FormattedOf | RedOwl/Engine/Json.cs:194-252 | the `Uri`, `Guid`, `DateTime` and `DateTimeOffset` getters succeed exactly on a String node with that data type |
| Values.TimeSpanOf | RedOwl/Engine/Json.cs:254-267 | the `TimeSpan` getter succeeds exactly on an Object/TimeSpan node and returns its ticks |
| Values.ComponentOf | RedOwl/Engine/Json.cs:77-83 | `(double)this[key]` succeeds exactly when the key is present and holds a Number/Primitive node, and then gives that child's number; a null child is `NullReferenceException`, any other child or a missing key fails the assertion |
| Values.ComponentsOf | RedOwl/Engine/Json.cs:269-387 | reading the fixed keys of a Unity value type yields one number per key, in key order, or fails with the error of the first key that does not hold a number |
| Values.GeometryOf | RedOwl/Engine/Json.cs:269-387 | a geometric getter fails its assertion unless the node is an Object with an allowed data type, and otherwise reads the components under its keys |
| Values.BoundsOf | RedOwl/Engine/Json.cs:359-366 | the `Bounds` getter succeeds exactly on an Object/Bounds node whose `center` and `size` children both read as Vector3, and then gives those two readings; a missing `center` fails the assertion, since the getter's fresh empty Object is no Vector3 |
| Values.FromSerialization | RedOwl/Engine/Json.cs:683-688 | `FromSerialization` succeeds exactly when both names are String nodes naming an enum member and the value is not null; the result is the value with exactly those two tags replaced |
| Values.ComponentNamesDistinct | RedOwl/Engine/Json.cs:269-387 | the key layouts of the Unity value types have no repeated key, so their dictionary initialisers never throw |
| Values.ComponentsRoundTrip | RedOwl/Engine/Json.cs:269-387 | reading the keys a setter wrote gives back exactly the numbers it was given |
| Values.GeometryRoundTrip | RedOwl/Engine/Json.cs:269-387 | each of the Color, Vector2, Vector3, Vector4, Quaternion and Rect getters undoes its constructor, and a Quaternion also reads as a Vector4 |
| Values.BoundsRoundTrip | RedOwl/Engine/Json.cs:359-372 | the `Bounds` getter gives back the centre and size the `Bounds` constructor stored |
| Values.Vector2IsNotVector3 | RedOwl/Engine/Json.cs:299-327 | a Vector2 node shares the data type `Vector` with a Vector3, yet reading it as a Vector3 fails, because the `z` key is missing |
| Writer.WriteOk | RedOwl/Engine/Json.cs:610-681 | `Write` throws exactly when it meets a null reference: a null node, or a null child that it visits itself or that a child's `ToString` visits |
| Writer.ShowOk | RedOwl/Engine/Json.cs:93-117 | `ToString` throws exactly when it writes an Array or Object that meets a null reference; a null child prints as the empty text |
| Writer.ShownMember | RedOwl/Engine/Json.cs:660-670 | an Object that is not a Container writes each member as `"key": ` followed by the child's `ToString` |
| Writer.WrittenMember | RedOwl/Engine/Json.cs:648-659 | a Container writes each member as `"key": ` followed by the child's own `Write` |
| Writer.WriteNested | RedOwl/Engine/Json.cs:648-659 | the Objects a chain of keyed getters creates are written as nested braces, one `"key": ` per step, around the stored value's text |
| Writer.ShownLeaves | RedOwl/Engine/Json.cs:646-672 | under a non-Container Object a String child is written unquoted and a Boolean as `True`/`False`; under a Container the same children are quoted and written `true`/`false` |
| Lexer.SkipWhite | RedOwl/Engine/JsonSerialization.cs:55-64 | `EatWhitespace` stops at the first code unit that is not one of space, tab, LF or CR, or at the end of the text |
| Lexer.WordEnd | RedOwl/Engine/JsonSerialization.cs:38-53 | `NextWord` stops at the first word-break character (whitespace, `{}[],:` or a quote), or at the end of the text |
| Lexer.NextToken | RedOwl/Engine/JsonSerialization.cs:66-121 | `NextToken` fails exactly at the end of the text; `{`, `[`, `:`, a quote and a number start are left unread and the position stands on that character; `}`, `]`, `,` and the three words move forward; `NONE` either read an unknown word or found only blanks up to the end |
| Lexer.Bareword | RedOwl/Engine/JsonSerialization.cs:108-119 | a word is TRUE, FALSE or NULL exactly when it is `true`, `false` or `null`, and NONE otherwise |
| Lexer.HexUnit | RedOwl/Engine/JsonSerialization.cs:202-210 | a `\u` escape succeeds exactly when its four code units are hex digits |
| Grammar.ParseNumber | RedOwl/Engine/JsonSerialization.cs:222-227 | `ParseNumber` fails exactly at the end of the text; otherwise it never moves back, and it moves forward whenever it does not start at a word break |
| Grammar.ParseByToken | RedOwl/Engine/JsonSerialization.cs:128-152 | reading a value after a token never moves back, and moves forward for an object, an array, a string or a number |
| Grammar.ParseMember | RedOwl/Engine/JsonSerialization.cs:268-283 | reading a member never moves back, and moves forward when it yields a key and a value |
| Grammar.CloseObject | RedOwl/Engine/JsonSerialization.cs:264-267 | closing a dictionary that lacks `JsonType` or `DataType` gives a plain Container Object of those members |
| Nodes.Json.constructor | RedOwl/Engine/Json.cs:393 | `new Json()` is a fresh Undefined node with no children |
| Nodes.Json.NewNull | RedOwl/Engine/Json.cs:425 | `Json.Null` is a fresh Null/Primitive node |
| Nodes.Json.FromString | RedOwl/Engine/Json.cs:394 | `new Json(string)` is a String/Primitive node holding the text |
| Nodes.Json.FromBool | RedOwl/Engine/Json.cs:395 | `new Json(bool)` is a Boolean/Primitive node holding the flag |
| Nodes.Json.FromNumber | RedOwl/Engine/Json.cs:396 | `new Json(double)` is a Number/Primitive node holding the double |
| Nodes.Json.FromFormatted | RedOwl/Engine/Json.cs:397-400 | `new Json(Uri/Guid/DateTime/DateTimeOffset)` is a String node with that data type, holding the formatted text |
| Nodes.Json.FromTimeSpan | RedOwl/Engine/Json.cs:401 | `new Json(TimeSpan)` is an Object/TimeSpan node whose number slot holds the ticks |
| Nodes.Json.FromItems | RedOwl/Engine/Json.cs:411-416 | `new Json(IEnumerable<Json>)` is an Array/Container node whose items are the given children, in order |
| Nodes.Json.FromMembers | RedOwl/Engine/Json.cs:418-423 | `new Json(IDictionary<string, Json>)` is an Object/Container node whose members are the given entries, in order |
| Nodes.Json.FromComponents | RedOwl/Engine/Json.cs:402-409 | the Color, Vector and Rect constructors build an Object of that data type with one fresh Number child per component, under the component's key |
| Nodes.Json.FromBounds | RedOwl/Engine/Json.cs:408 | `new Json(Bounds)` is an Object/Bounds node, built only of fresh nodes, with a Vector3 child under `center` and another under `size` |
| Nodes.Json.GetAt | RedOwl/Engine/Json.cs:67 | the integer getter returns the very node stored at the index, without checking the node's type, and fails with an out-of-range error outside the list |
| Nodes.Json.SetAt | RedOwl/Engine/Json.cs:68-74 | the integer setter retags the node as Array/Container and replaces the child at the index, never growing the list; outside the list it fails |
| Nodes.Json.GetMember | RedOwl/Engine/Json.cs:79-83 | the string getter returns the very node now stored under the key; when the key is missing it first stores a fresh empty Object there; it never changes the node's own tags or items |
| Nodes.Json.ReadTwice | RedOwl/Engine/Json.cs:79-83 | two reads of one key return the same node, the one stored under the key, so a change made through the first is seen through the second |
| Nodes.Json.SetPath | RedOwl/Engine/Json.cs:77-91 | `n[k0][k1]…[km] = v` on a missing `k0` stores under `k0` a chain of fresh Objects, one per further key, with `v` under the last key, and leaves the rest of `n` as it was |
| Nodes.Json.FillEmpty | RedOwl/Engine/Json.cs:77-91 | on a freshly bound empty Object the rest of a keyed chain builds `Values.Nested(path, v)` |
| Nodes.Json.SetMember | RedOwl/Engine/Json.cs:84-90 | the string setter retags the node as Object/Container and stores the child under the key, replacing any earlier child in its place |
| Nodes.Json.Add | RedOwl/Engine/Json.cs:131-137 | `Add(value)` retags the node as Array/Container and appends the child |
| Nodes.Json.AddMember | RedOwl/Engine/Json.cs:139-145 | `Add(key, value)` retags the node as Object/Container and appends the entry, or fails on a duplicate key with the dictionary unchanged |
| Nodes.Json.Write | RedOwl/Engine/Json.cs:610-681 | the text `Write` produces, or the null reference it meets, is `Writer.Write` of the node's value |
| Nodes.Json.WriteArray | RedOwl/Engine/Json.cs:634-645 | the Array loop writes each item in the same mode, separated by `, ` |
| Nodes.Json.WriteContainer | RedOwl/Engine/Json.cs:648-659 | the Container loop writes `"key": ` and the child's `Write` for each member, separated by `, ` |
| Nodes.Json.WriteFields | RedOwl/Engine/Json.cs:660-670 | the loop for any other Object writes `"key": ` and the child's `ToString` for each member, separated by `, ` |
| Nodes.Json.ToString | RedOwl/Engine/Json.cs:93-117 | `ToString` is `Writer.Show` of the node's value |
| Nodes.Json.AsString | RedOwl/Engine/Json.cs:517 | the implicit conversion to `string` is the `String` getter of the node's value |
| Nodes.Json.FromSerialization | RedOwl/Engine/Json.cs:683-688 | `FromSerialization` retags the value node in place with the parsed names and returns that same node, exactly as `Values.FromSerialization` describes; on an error the node keeps its DataType and carries the parsed JsonType when the first name was valid (`Values.PartlyRetagged`), since that store happens first |
| Serialization.Reader.constructor | RedOwl/Engine/JsonSerialization.cs:299 | a new reader is at the start of the text |
| Serialization.Reader.PeekChar | RedOwl/Engine/JsonSerialization.cs:34 | `PeekChar` is the code unit at the position, and fails at the end of the text |
| Serialization.Reader.NextChar | RedOwl/Engine/JsonSerialization.cs:36 | `NextChar` returns the code unit at the position and moves past it, and fails at the end of the text |
| Serialization.Reader.NextWord | RedOwl/Engine/JsonSerialization.cs:38-53 | the `NextWord` loop ends where `Lexer.WordEnd` says and returns the code units it passed; at the end of the text it fails |
| Serialization.Reader.EatWhitespace | RedOwl/Engine/JsonSerialization.cs:55-64 | the `EatWhitespace` loop ends where `Lexer.SkipWhite` says; at the end of the text it fails |
| Serialization.Reader.NextToken | RedOwl/Engine/JsonSerialization.cs:66-121 | the token and the new position are those of `Lexer.NextToken` |
| Serialization.Reader.ParseString | RedOwl/Engine/JsonSerialization.cs:154-220 | the string loop yields the text and position of `Lexer.ParseString` |
| Serialization.Reader.ParseEscape | RedOwl/Engine/JsonSerialization.cs:174-212 | one escape appends what `Lexer.StringBody` appends for it and resumes where it resumes |
| Serialization.Reader.ParseNumber | RedOwl/Engine/JsonSerialization.cs:222-227 | `ParseNumber` is `Grammar.ParseNumber` |
| Serialization.Reader.ParseValue | RedOwl/Engine/JsonSerialization.cs:123-126 | the node built and the position reached are those of `Grammar.ParseValue` |
| Serialization.Reader.ParseByToken | RedOwl/Engine/JsonSerialization.cs:128-152 | the node built and the position reached are those of `Grammar.ParseByToken` |
| Serialization.Reader.ParseArray | RedOwl/Engine/JsonSerialization.cs:229-252 | the array loop builds the node that `Grammar.ParseArray` describes, including `null` at the end of the text, and reports the unbounded loop on `:` as divergence |
| Serialization.Reader.StoreItem | RedOwl/Engine/JsonSerialization.cs:245-247 | one turn of the array loop appends the value read and continues as `Grammar.ParseArray` does |
| Serialization.Reader.ParseObject | RedOwl/Engine/JsonSerialization.cs:254-286 | the object loop builds the node that `Grammar.ParseObject` describes, including `null` results and the envelope case |
| Serialization.Reader.StoreMember | RedOwl/Engine/JsonSerialization.cs:268-283 | one member turn stores the value under its key, or returns `null` without a colon, as `Grammar.ParseObject` does |
| Serialization.Reader.ParseMember | RedOwl/Engine/JsonSerialization.cs:270-282 | the key, the colon check, the dropped colon and the value are those of `Grammar.ParseMember` |
| Serialization.Reader.CloseObject | RedOwl/Engine/JsonSerialization.cs:264-267 | on `}` the dictionary becomes a plain Object, or the `Value` node retagged by `FromSerialization`, as `Grammar.CloseObject` says |
| Serialization.Serialize | RedOwl/Engine/JsonSerialization.cs:290-295 | `Serialize` is the typed `Write` of the node's value |
| Serialization.Deserialize | RedOwl/Engine/JsonSerialization.cs:297-301 | `Deserialize` builds the node that `Grammar.Deserialize` describes, or fails as it does |
| ReaderCases.BlankToEnd | RedOwl/Engine/JsonSerialization.cs:55-121 | when only whitespace is left, a token, a value, an array or an object reads as NONE, `Json.Null` or `null`; at the very end it fails |
| ReaderCases.BlankInput | RedOwl/Engine/JsonSerialization.cs:297-301 | a text of whitespace deserialises to `Json.Null`, and the empty text fails |
| ReaderCases.UnclosedArray | RedOwl/Engine/JsonSerialization.cs:229-252 | `[1 ` deserialises to `null`, while `[1` fails at the end of the text |
| ReaderCases.DoubledComma | RedOwl/Engine/JsonSerialization.cs:229-252 | `[1,,2]` deserialises to the array of the two numbers: an empty slot between commas is skipped |
| ReaderCases.DigitItem | RedOwl/Engine/JsonSerialization.cs:245-247 | a one-digit number followed by a word break is read and appended as that Number node |
| ReaderCases.ColonRepeats | RedOwl/Engine/JsonSerialization.cs:229-252 | a colon inside an array is never consumed: it reads as `Json.Null` and the next token is the same colon, so the array loop never ends |
| ReaderCases.ColonInArray | RedOwl/Engine/JsonSerialization.cs:229-252 | `[:]` makes the reader loop forever |
| ReaderCases.UnknownWord | RedOwl/Engine/JsonSerialization.cs:108-119 | a word other than `true`, `false` or `null` reads as `Json.Null` on its own, and ends an array or an object with `null` |
| ReaderCases.NotNumbers | RedOwl/Engine/JsonSerialization.cs:94-119 | `+5`, `.5` and `foo` are not numbers: each deserialises to `Json.Null` |
| ReaderCases.KeyWithoutColon | RedOwl/Engine/JsonSerialization.cs:270-277 | a key that is not followed by a colon ends the object with `null` |
| ReaderCases.MissingColon | RedOwl/Engine/JsonSerialization.cs:254-286 | `{"a" 1}` deserialises to `null` |
| ReaderCases.CloseEnvelopeCases | RedOwl/Engine/JsonSerialization.cs:264-265 | an object with `JsonType` and `DataType` but no `Value` fails with a missing key; otherwise its result is the `Value` node retagged with the named tags, and a null `Value` fails |
| ReaderCases.ReadEscaped | RedOwl/Engine/JsonSerialization.cs:161-217 | the string loop reads an escaped text and its closing quote back as the text |
| ReaderCases.EscapeRoundTrip | RedOwl/Engine/JsonSerialization.cs:154-220 | `ParseString` undoes escaping: the quoted escaped text reads back as the text and ends just after the closing quote |
| ReaderCases.Unterminated | RedOwl/Engine/JsonSerialization.cs:161-167 | a string that never closes reads as everything up to the end of the text, without an error |
| ReaderCases.UnknownEscapes | RedOwl/Engine/JsonSerialization.cs:180-211 | an escape that is none of `" \ / b f n r t u` drops both of its code units |
| ReadSteps.ReadString | RedOwl/Engine/JsonSerialization.cs:131-132 | a quoted text without a quote or a backslash reads as a String node of that text |
| ReadSteps.ReadNumber | RedOwl/Engine/JsonSerialization.cs:133-134 | a number the culture prints and parses back reads as that Number node |
| ReadSteps.ReadBareword | RedOwl/Engine/JsonSerialization.cs:143-148 | `true`, `false` and `null` followed by a word break read as the two booleans and `Json.Null` |
| ReadSteps.ReadMember | RedOwl/Engine/JsonSerialization.cs:270-282 | `"key": ` followed by a value reads as that key and value, ending where the value ends |
| ReadSteps.MemberStep | RedOwl/Engine/JsonSerialization.cs:268-283 | a member in an object stores its value under its key, and a repeated key overwrites the earlier value |
| ReadSteps.CommaStep | RedOwl/Engine/JsonSerialization.cs:262-263 | a comma in an object is skipped, however many there are |
| ReadSteps.ItemStep | RedOwl/Engine/JsonSerialization.cs:236-247 | whenever the next token is none of NONE, a comma, `]` and a colon (the colon is `ReaderCases.ColonRepeats`), the array loop reads a value from that token, appends it to the items read so far and goes on after it |
| ReadSteps.ObjectItemStep | RedOwl/Engine/JsonSerialization.cs:245-247 | an object after blanks in an array is read and appended |
| ReadSteps.ItemCommaStep | RedOwl/Engine/JsonSerialization.cs:240-241 | a comma in an array is skipped, however many there are |
| ReadSteps.ItemCloseStep | RedOwl/Engine/JsonSerialization.cs:242-244 | `]` ends an array with the items read so far |
| ReadSteps.CloseEnvelope | RedOwl/Engine/JsonSerialization.cs:264-265 | closing the three envelope members gives the value with the named tags |
| ReadSteps.RetagByNames | RedOwl/Engine/Json.cs:683-688 | `FromSerialization` on the written names of two tags sets exactly those tags |
| ReadSteps.ReadEnvelope | RedOwl/Engine/JsonSerialization.cs:254-286 | a written envelope reads as its `Value` retagged with its two names, ending after the closing brace |
| RoundTrip.WritesOk | RedOwl/Engine/Json.cs:610-681 | the typed `Write` succeeds on every value that the round trip covers |
| RoundTrip.ReadsValue | RedOwl/Engine/JsonSerialization.cs:123-152 | any covered value, written with type information after blanks, reads back as itself, ending where its text ends |
| RoundTrip.ReadItems | RedOwl/Engine/JsonSerialization.cs:229-252 | the written items of an array, joined by `, ` and closed by `]`, read back as those items |
| RoundTrip.ReadMembers | RedOwl/Engine/JsonSerialization.cs:254-286 | the written members of an object, joined by `, ` and closed by `}`, read back as those members |
| RoundTrip.SerializeRoundTrip | RedOwl/Engine/JsonSerialization.cs:290-301 | `Deserialize(Serialize(v)) == v` for every value with no null reference, no unused slot, no quote or backslash in a string or key, numbers the culture reads back, no envelope-shaped object, and only numbers under a Unity value type |
| RoundTrip.TrailingTextIgnored | RedOwl/Engine/JsonSerialization.cs:297-301 | `Deserialize` stops after the first value: any text after a serialised value is ignored |
| RoundTrip.Vector3RoundTrip | RedOwl/Engine/Json.cs:314-327 | a Vector3 whose components the culture reads back survives `Serialize` then `Deserialize` |
| RoundTrip.TimeSpanTicksLost | RedOwl/Engine/Json.cs:254-267 | a TimeSpan serialises as `{}` inside its envelope whatever its ticks, and reads back with zero ticks |

## Left out

- Floating point. A double is an opaque bit pattern. `double.ToString`
  and `double.TryParse` under the current culture are the two functions
  of a `Culture` parameter. The round trip assumes that the culture
  prints each number as one token that parses back to it.
- The Unity value types themselves (`Color`, `Color32`, `Vector2`,
  `Vector3`, `Vector4`, `Quaternion`, `Bounds`, `Rect`). They are modelled
  by the key layout their setters write and their getters read. The
  byte-to-float conversion of `Color32` and the arithmetic of the Unity
  structs are not modelled.
- Values.FormattedOf: formatting and parsing of `Uri`, `Guid`, `DateTime`
  and `DateTimeOffset` are not modelled. Their text is opaque, and so
  their getters return the stored text, not a parsed object, and never
  fail on a malformed one.
- The array and `List<T>` implicit conversions (Json.cs:433-595). They
  apply a scalar conversion to each element of `_array`.
- Values.TimeSpanOf: returns the number slot itself; the `(long)` cast
  that turns it into ticks is one of the narrowing numeric conversions
  below.
- The narrowing numeric conversions (`float`, `decimal`, the integer
  types). They need arithmetic on doubles.
- Nodes.Json.FromComponents: takes the components as the doubles to
  store. In the source each Unity `float` component goes through
  `implicit operator Json(float)`, which stores `(double)(decimal)value`
  (Json.cs:439): that rounds to decimal precision and throws
  `OverflowException` on NaN or an infinity. Neither is modelled.
- `GetEnumerator`. Iteration order is the order of the child list and of
  the dictionary entries, which the writer loops follow.
- `Json.Serialize()` and `Json.Deserialize(string)` (Json.cs:600-608).
  They only forward to `Serialization.Serialize` and
  `Serialization.Deserialize`.
- Tags.ParseJsonType: `Enum.Parse` also accepts numeric strings, leading
  and trailing blanks, and comma-separated flag lists. The model accepts
  exactly the member names. The writer only ever produces those names.
- Tags.ParseDataType: accepts exactly the member names, for the same
  reason as `Tags.ParseJsonType`.
- Lexer.HexUnit: `Convert.ToInt32(hex, 16)` in a `\u` escape also accepts a `0x` prefix
  and a leading `+`; a leading `-` throws, as it fails in the model. The
  model accepts exactly four hex digits.
- Values.StringOf: a string slot that was never set, or was set to a
  null string, is the empty text in the model, while the source's
  `String` getter returns null there. This is reachable: an envelope
  that retags a Number node as String/Primitive gives such a node.
- Nodes.Json.AsString: the same null-versus-empty gap as
  `Values.StringOf`, whose view it returns.
- Nodes.Json.ToString: a String/Primitive node whose string slot is null
  shows as the empty text, where the source returns null.
- Nodes.Json.FromString: `new Json((string)null)` has no counterpart,
  because the model's text is never null. Null string arguments, null
  dictionary keys (`ArgumentNullException` in the indexers) and
  `Deserialize(null)` are not modelled either.
- Nodes.Json.Write: returns its text instead of appending to the
  caller's `StringWriter`. When it meets a null child, the source has
  already written the envelope head and the earlier items to that
  writer; the model reports only `NullReference` and not that partial
  output. `Serialize` and `ToString` use writers of their own, so only
  direct callers of `Write` would see it.
- A `Bounds` does not survive `Serialize` then `Deserialize`: its
  `center` and `size` children are written through the untyped
  `ToString` (Json.cs:660-670), read back as Object/Container nodes, and
  the `Bounds` getter then fails its assertion. The round trip's
  conditions exclude any non-number under a Unity value type for this
  reason.
- The static `StringReader` is explicit state in the `Reader` class, one
  reader per call. Concurrent use of the static reader is not modelled.
- The infinite loop of `ParseArray` on a colon is the error `Diverges`,
  and `ReaderCases.ColonRepeats` proves that the loop makes no progress.
- `Assert.IsTrue` in the mutators is a precondition. In the getters and
  in `FromSerialization` it is the error `AssertionFailed`, because there
  the data decides it.
- Values.GeometryOf: the geometric getters go through the string
  indexer, which stores an empty Object under a missing key before the
  number conversion fails (Json.cs:81). The model reports only the
  failure, not that insertion.
- Values.ComponentOf: reports the failure on a missing key, not the empty
  Object the string indexer stores there first.
- Values.BoundsOf: reports the failure on a missing `center` or `size`,
  not the empty Object the string indexer stores there first.
- Nodes.Json.FromSerialization: requires that the value node is neither
  of the two name nodes. The source does not ask this, but would then
  retag the name node it is still reading. The reader never passes such
  nodes.
- Nodes.Json.SetAt: requires the node to be an Array or Undefined (the
  source's assertion), and requires the new child not to contain the
  node, so that the tree stays acyclic.
- Nodes.Json.SetMember: requires the node to be an Object or Undefined
  (the source's assertion), and requires the new child not to contain
  the node.
- Nodes.Json.Add: requires the node to be an Array or Undefined (the
  source's assertion), and requires the new child not to contain the
  node.
- Nodes.Json.AddMember: requires the node to be an Object or Undefined
  (the source's assertion), and requires the new child not to contain
  the node.
- Nodes.Json.SetPath: covers a chain whose first key is not yet bound,
  so it goes through the getter's missing-key branch (`BindEmpty`). When
  the first key is bound, its child may be shared elsewhere in the tree,
  and the value view does not track how a change to a shared node shows
  in every place that holds it.
- Example and test code outside `Json.cs` and `JsonSerialization.cs` is
  not part of this model.
