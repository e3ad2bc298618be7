/**
 * The JSON values (`serde_json::Value`) the backend reads and writes.
 * Numbers are integers; the floating-point part of JSON is not modelled.
 * Objects are maps, as in serde_json's default sorted `Map`.
 */
module Json {
  import opened Wrappers

  datatype Value =
    | Null
    | Bool(b: bool)
    | Num(n: int)
    | Str(s: string)
    | Arr(items: seq<Value>)
    | Obj(fields: map<string, Value>)

  const EmptyObject: Value := Obj(map[])

  /** A list of strings as a JSON array (`json!(vec)` of a `Vec<String>`). */
  function StrArray(values: seq<string>): (r: Value)
    ensures r.Arr? && |r.items| == |values|
    ensures forall i :: 0 <= i < |values| ==> r.items[i] == Str(values[i])
  {
    Arr(seq(|values|, i requires 0 <= i < |values| => Str(values[i])))
  }

  /** A string map as a JSON object (`json!(map)` of a `BTreeMap<String, String>`). */
  function StrObject(m: map<string, string>): (r: Value)
    ensures r.Obj? && r.fields.Keys == m.Keys
    ensures forall k :: k in m ==> r.fields[k] == Str(m[k])
  {
    Obj(map k | k in m :: Str(m[k]))
  }

  /** `Value::get(key)`: the member of an object, `None` for a missing key or a non-object. */
  function Get(v: Value, key: string): (r: Option<Value>)
    ensures r.Some? <==> v.Obj? && key in v.fields
    ensures r.Some? ==> r.value == v.fields[key]
  {
    if v.Obj? && key in v.fields then Some(v.fields[key]) else None
  }

  /** `v.get(key).and_then(Value::as_str)`. */
  function GetStr(v: Value, key: string): (r: Option<string>)
    ensures r.Some? <==> Get(v, key).Some? && Get(v, key).value.Str?
    ensures r.Some? ==> Get(v, key) == Some(Str(r.value))
  {
    match Get(v, key)
    case Some(Str(s)) => Some(s)
    case _ => None
  }

  /** `v.get(key).and_then(Value::as_i64)`. */
  function GetInt(v: Value, key: string): (r: Option<int>)
    ensures r.Some? <==> Get(v, key).Some? && Get(v, key).value.Num?
    ensures r.Some? ==> Get(v, key) == Some(Num(r.value))
  {
    match Get(v, key)
    case Some(Num(n)) => Some(n)
    case _ => None
  }

  /** `v.get(key).and_then(Value::as_bool)`. */
  function GetBool(v: Value, key: string): (r: Option<bool>)
    ensures r.Some? <==> Get(v, key).Some? && Get(v, key).value.Bool?
    ensures r.Some? ==> Get(v, key) == Some(Bool(r.value))
  {
    match Get(v, key)
    case Some(Bool(b)) => Some(b)
    case _ => None
  }

  /** `map.insert(key, value)` on an object; other values are left alone. */
  function Insert(v: Value, key: string, value: Value): (r: Value)
    requires v.Obj?
    ensures r.Obj? && Get(r, key) == Some(value)
    ensures forall k :: k != key ==> Get(r, k) == Get(v, k)
  {
    Obj(v.fields[key := value])
  }
}
