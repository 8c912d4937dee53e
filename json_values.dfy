/**
 * JSON values as the Python populator holds them after `json.load`, with the
 * path helper that walks nested objects and the non-date branch of the value
 * transform.
 */
module JsonValues {
  import opened Text

  datatype Json =
    | JNull
    | JBool(b: bool)
    | JNumber(n: int)
    | JString(s: string)
    | JArray(elems: seq<Json>)
    | JObject(fields: map<string, Json>)

  /** The value reached by following `path` key by key from `data`; `JNull`
      (Python's `None`) as soon as a step meets a non-object or a missing key. */
  function ValueAt(data: Json, path: seq<string>): Json
  {
    if path == [] then data
    else if data.JObject? && path[0] in data.fields then ValueAt(data.fields[path[0]], path[1..])
    else JNull
  }

  /** `get_value_from_path`: walks the path with a cursor and stops at the
      first step that is not an object holding the key. */
  method GetValueFromPath(data: Json, path: seq<string>) returns (r: Json)
    ensures r == ValueAt(data, path)
  {
    var current := data;
    for i := 0 to |path|
      invariant ValueAt(data, path) == ValueAt(current, path[i..])
    {
      var key := path[i];
      if current.JObject? && key in current.fields {
        current := current.fields[key];
      } else {
        return JNull;
      }
    }
    assert path[|path|..] == [];
    return current;
  }

  /** Following `p + q` is following `p` and then `q` from where `p` ended. */
  lemma {:induction false} ValueAtConcat(data: Json, p: seq<string>, q: seq<string>)
    ensures ValueAt(data, p + q) == ValueAt(ValueAt(data, p), q)
  {
    if p == [] {
      assert p + q == q;
    } else {
      assert (p + q)[0] == p[0] && (p + q)[1..] == p[1..] + q;
      if data.JObject? && p[0] in data.fields {
        ValueAtConcat(data.fields[p[0]], p[1..], q);
      } else {
        ValueAtOfNull(q);
      }
    }
  }

  /** Nothing can be reached from `None`. */
  lemma {:induction false} ValueAtOfNull(q: seq<string>)
    ensures ValueAt(JNull, q) == JNull
  {
  }

  /** A value found one step past `p` was found in an object that holds the key. */
  lemma ValueAtStep(data: Json, p: seq<string>, k: string)
    requires ValueAt(data, p + [k]) != JNull
    ensures ValueAt(data, p).JObject? && k in ValueAt(data, p).fields
    ensures ValueAt(data, p + [k]) == ValueAt(data, p).fields[k]
  {
    ValueAtConcat(data, p, [k]);
    var v := ValueAt(data, p);
    assert ValueAt(v, [k]) == if v.JObject? && k in v.fields then ValueAt(v.fields[k], []) else JNull;
  }

  /** Python truthiness: `None`, `False`, `0`, `""` and empty containers are
      false. A string is truthy exactly when it writes a non-empty value, a
      number exactly when it does not write "0". */
  predicate Truthy(v: Json)
    ensures v.JString? ==> (Truthy(v) <==> TransformValue(v) != "")
    ensures v.JNumber? ==> (Truthy(v) <==> TransformValue(v) != "0")
    ensures Truthy(v) ==> v != JNull
  {
    match v
    case JNull => false
    case JBool(b) => b
    case JNumber(n) => n != 0
    case JString(s) => s != ""
    case JArray(elems) => elems != []
    case JObject(fields) => |fields| != 0
  }

  /** `value.get(key, default)`; a value that is not an object reads as the
      default (Python would raise instead). */
  function Get(value: Json, key: string, default: Json): (r: Json)
    ensures r == default || (value.JObject? && r in value.fields.Values)
    ensures !value.JObject? ==> r == default
  {
    if value.JObject? && key in value.fields then value.fields[key] else default
  }

  /** `transform_value(value)` without a date transform: "" for `None`,
      otherwise `str(value)` (Python spells booleans `True` and `False`). */
  function TransformValue(v: Json): (r: string)
    requires !v.JArray? && !v.JObject?
    ensures r == "" <==> v == JNull || v == JString("")
    ensures v.JString? ==> r == v.s
    ensures v.JBool? ==> r == (if v.b then "True" else "False")
  {
    match v
    case JNull => ""
    case JBool(b) => if b then "True" else "False"
    case JNumber(n) => IntToString(n)
    case JString(s) => s
  }

  /** A number comes out as its decimal rendering, which reads back as the number. */
  lemma TransformNumberRoundTrip(n: int)
    ensures IntValue(TransformValue(JNumber(n))) == n
  {
    IntToStringRoundTrip(n);
  }
}
