/** The subset of nlohmann::json the core uses. Objects are maps from keys
    to values (nlohmann keeps them in a std::map, ordered by key; order is
    recovered where it matters by sorting keys). Floating-point numbers are
    not represented. */
module JsonModel {
  import opened Wrappers

  datatype Json =
    | JNull
    | JBool(b: bool)
    | JInt(i: int)
    | JStr(s: string)
    | JArr(items: seq<Json>)
    | JObj(fields: map<string, Json>)

  const EmptyObject: Json := JObj(map[])

  /** nlohmann::json::type_name. */
  function TypeName(j: Json): string
  {
    match j
    case JNull => "null"
    case JBool(_) => "boolean"
    case JInt(_) => "number"
    case JStr(_) => "string"
    case JArr(_) => "array"
    case JObj(_) => "object"
  }

  /** `j.contains(key)`: false for anything but an object. */
  predicate Has(j: Json, key: string)
  {
    j.JObj? && key in j.fields
  }

  /** `j.find(key)` followed by `is_string()`: the string stored at key, if
      j is an object holding a string there. */
  function StringAt(j: Json, key: string): (r: Option<string>)
    ensures r.Some? <==> Has(j, key) && j.fields[key].JStr?
    ensures r.Some? ==> j.fields[key] == JStr(r.value)
  {
    if Has(j, key) && j.fields[key].JStr? then Some(j.fields[key].s) else None
  }

  /** `j.value(key, default)` read as a string: the default when the key is
      missing; nlohmann's type_error (306 on a non-object, 302 on a value of
      another type) as Err with its message. */
  function ValueString(j: Json, key: string, default: string): (r: Result<string, string>)
    ensures !j.JObj? ==> r.Err?
    ensures j.JObj? && key !in j.fields ==> r == Ok(default)
    ensures j.JObj? && key in j.fields ==> (r.Ok? <==> j.fields[key].JStr?)
    ensures r.Ok? && Has(j, key) ==> j.fields[key] == JStr(r.value)
  {
    if !j.JObj? then Err("[json.exception.type_error.306] cannot use value() with " + TypeName(j))
    else if key !in j.fields then Ok(default)
    else match j.fields[key]
      case JStr(s) => Ok(s)
      case other => Err("[json.exception.type_error.302] type must be string, but is " + TypeName(other))
  }

  /** `j.get<std::vector<std::string>>()` on an array: Some when every
      element is a string. */
  function StringList(items: seq<Json>): (r: Option<seq<string>>)
    ensures r.Some? ==> |r.value| == |items| && forall k :: 0 <= k < |items| ==> items[k] == JStr(r.value[k])
    ensures r.None? ==> exists k :: 0 <= k < |items| && !items[k].JStr?
  {
    if items == [] then Some([])
    else match items[0]
      case JStr(s) =>
        (match StringList(items[1..])
         case Some(rest) => Some([s] + rest)
         case None => None)
      case _ => None
  }

  function StringsToJson(xs: seq<string>): (r: Json)
    ensures r.JArr? && |r.items| == |xs|
    ensures forall k :: 0 <= k < |xs| ==> r.items[k] == JStr(xs[k])
  {
    JArr(seq(|xs|, k requires 0 <= k < |xs| => JStr(xs[k])))
  }

  lemma StringListOfStrings(xs: seq<string>)
    ensures StringList(StringsToJson(xs).items) == Some(xs)
  {
    var r := StringList(StringsToJson(xs).items);
    if r.None? {
      assert false;
    } else {
      var items := StringsToJson(xs).items;
      forall k | 0 <= k < |xs| ensures r.value[k] == xs[k] {
        assert items[k] == JStr(r.value[k]);
        assert items[k] == JStr(xs[k]);
      }
      assert r.value == xs;
    }
  }

  /** The object's fields, or none when j is not an object
      (`is_object() ? j : json::object()`). */
  function ObjectOrEmpty(j: Json): (m: map<string, Json>)
    ensures j.JObj? ==> m == j.fields
    ensures !j.JObj? ==> m == map[]
  {
    if j.JObj? then j.fields else map[]
  }

  /** `json::empty()` for objects (used as "non-empty object"). */
  predicate NonEmptyObject(j: Json)
  {
    j.JObj? && |j.fields| > 0
  }
}
