/**
 * The two tags of a node: `JsonTypes`, the JSON-visible shape, and
 * `DataTypes`, the .NET type the node was built from. Their member names are
 * what the typed writer emits and what `Enum.Parse` reads back.
 */
module Tags {
  import opened Base

  datatype JsonTypes = Undefined | Null | String | Boolean | Number | Array | Object

  datatype DataTypes =
    | Undefined | Primitive | Container | Uri | Guid | DateTime | DateTimeOffset
    | TimeSpan | Color | Vector | Quaternion | Bounds | Rect

  /** The member name, as `$"{JsonType}"` prints it. */
  function JsonTypeName(t: JsonTypes): Text
  {
    match t
    case Undefined => Lit("Undefined")
    case Null => Lit("Null")
    case String => Lit("String")
    case Boolean => Lit("Boolean")
    case Number => Lit("Number")
    case Array => Lit("Array")
    case Object => Lit("Object")
  }

  /** The member name, as `$"{DataType}"` prints it. */
  function DataTypeName(t: DataTypes): Text
  {
    match t
    case Undefined => Lit("Undefined")
    case Primitive => Lit("Primitive")
    case Container => Lit("Container")
    case Uri => Lit("Uri")
    case Guid => Lit("Guid")
    case DateTime => Lit("DateTime")
    case DateTimeOffset => Lit("DateTimeOffset")
    case TimeSpan => Lit("TimeSpan")
    case Color => Lit("Color")
    case Vector => Lit("Vector")
    case Quaternion => Lit("Quaternion")
    case Bounds => Lit("Bounds")
    case Rect => Lit("Rect")
  }

  /** `Enum.Parse(typeof(JsonTypes), name)` as an exact-name lookup. */
  function ParseJsonType(name: Text): (r: Result<JsonTypes>)
    ensures r.Ok? ==> JsonTypeName(r.value) == name
    ensures r.Err? ==> r.error == BadEnumName
  {
    if name == JsonTypeName(JsonTypes.Undefined) then Ok(JsonTypes.Undefined)
    else if name == JsonTypeName(Null) then Ok(Null)
    else if name == JsonTypeName(String) then Ok(String)
    else if name == JsonTypeName(Boolean) then Ok(Boolean)
    else if name == JsonTypeName(Number) then Ok(Number)
    else if name == JsonTypeName(Array) then Ok(Array)
    else if name == JsonTypeName(Object) then Ok(Object)
    else Err(BadEnumName)
  }

  /** `Enum.Parse(typeof(DataTypes), name)` as an exact-name lookup. */
  function ParseDataType(name: Text): (r: Result<DataTypes>)
    ensures r.Ok? ==> DataTypeName(r.value) == name
    ensures r.Err? ==> r.error == BadEnumName
  {
    if name == DataTypeName(DataTypes.Undefined) then Ok(DataTypes.Undefined)
    else if name == DataTypeName(Primitive) then Ok(Primitive)
    else if name == DataTypeName(Container) then Ok(Container)
    else if name == DataTypeName(Uri) then Ok(Uri)
    else if name == DataTypeName(Guid) then Ok(Guid)
    else if name == DataTypeName(DateTime) then Ok(DateTime)
    else if name == DataTypeName(DateTimeOffset) then Ok(DateTimeOffset)
    else if name == DataTypeName(TimeSpan) then Ok(TimeSpan)
    else if name == DataTypeName(Color) then Ok(Color)
    else if name == DataTypeName(Vector) then Ok(Vector)
    else if name == DataTypeName(Quaternion) then Ok(Quaternion)
    else if name == DataTypeName(Bounds) then Ok(Bounds)
    else if name == DataTypeName(Rect) then Ok(Rect)
    else Err(BadEnumName)
  }

  /** Every name is a non-empty run of ASCII letters: no quote, backslash or break. */
  predicate IsLetter(c: CodeUnit)
  {
    65 <= c <= 90 || 97 <= c <= 122
  }

  predicate IsWord(t: Text)
  {
    |t| > 0 && forall i :: 0 <= i < |t| ==> IsLetter(t[i])
  }

  /** A non-empty ASCII-letter literal is a word. */
  lemma LitIsWord(s: string)
    requires |s| > 0 && forall i :: 0 <= i < |s| ==> 'A' <= s[i] <= 'Z' || 'a' <= s[i] <= 'z'
    ensures IsWord(Lit(s))
  {
  }

  lemma JsonTypeNameIsWord(jt: JsonTypes)
    ensures IsWord(JsonTypeName(jt))
  {
    match jt
    case Undefined =>
    case Null =>
    case String =>
    case Boolean =>
    case Number =>
    case Array =>
    case Object =>
  }

  lemma DataTypeNameIsWord(dt: DataTypes)
    ensures IsWord(DataTypeName(dt))
  {
    match dt
    case Undefined => LitIsWord("Undefined");
    case Primitive => LitIsWord("Primitive");
    case Container => LitIsWord("Container");
    case Uri => LitIsWord("Uri");
    case Guid => LitIsWord("Guid");
    case DateTime => LitIsWord("DateTime");
    case DateTimeOffset => LitIsWord("DateTimeOffset");
    case TimeSpan => LitIsWord("TimeSpan");
    case Color => LitIsWord("Color");
    case Vector => LitIsWord("Vector");
    case Quaternion => LitIsWord("Quaternion");
    case Bounds => LitIsWord("Bounds");
    case Rect => LitIsWord("Rect");
  }

  /** Distinct `JsonTypes` members have distinct names: they differ in length or first letter. */
  lemma JsonNamesDistinct(a: JsonTypes, b: JsonTypes)
    ensures JsonTypeName(a) == JsonTypeName(b) ==> a == b
  {
    if a != b {
      assert |JsonTypeName(a)| != |JsonTypeName(b)| || JsonTypeName(a)[0] != JsonTypeName(b)[0];
    }
  }

  /** Distinct `DataTypes` members have distinct names: they differ in length or first letter. */
  lemma DataNamesDistinct(c: DataTypes, d: DataTypes)
    ensures DataTypeName(c) == DataTypeName(d) ==> c == d
  {
    if c != d {
      assert |DataTypeName(c)| != |DataTypeName(d)| || DataTypeName(c)[0] != DataTypeName(d)[0];
    }
  }

  /** Reading a written `JsonTypes` name gives back the tag. */
  lemma ParseJsonTypeName(jt: JsonTypes)
    ensures ParseJsonType(JsonTypeName(jt)) == Ok(jt)
  {
    var r := ParseJsonType(JsonTypeName(jt));
    if r.Ok? {
      JsonNamesDistinct(r.value, jt);
    } else {
      match jt
      case Undefined =>
      case Null =>
      case String =>
      case Boolean =>
      case Number =>
      case Array =>
      case Object =>
    }
  }

  /** Reading a written `DataTypes` name gives back the tag. */
  lemma ParseDataTypeName(dt: DataTypes)
    ensures ParseDataType(DataTypeName(dt)) == Ok(dt)
  {
    var r := ParseDataType(DataTypeName(dt));
    if r.Ok? {
      DataNamesDistinct(r.value, dt);
    } else {
      match dt
      case Undefined =>
      case Primitive =>
      case Container =>
      case Uri =>
      case Guid =>
      case DateTime =>
      case DateTimeOffset =>
      case TimeSpan =>
      case Color =>
      case Vector =>
      case Quaternion =>
      case Bounds =>
      case Rect =>
    }
  }

  /** Reading written names gives back the tags. */
  lemma ParseNames(jt: JsonTypes, dt: DataTypes)
    ensures ParseJsonType(JsonTypeName(jt)) == Ok(jt)
    ensures ParseDataType(DataTypeName(dt)) == Ok(dt)
  {
    ParseJsonTypeName(jt);
    ParseDataTypeName(dt);
  }
}
