/** A parsed YAML (or JSON) document as the frontend sees it after `parse`:
    the value shapes and JavaScript's truthiness and property reads. The YAML
    text parser and serializer themselves are out of scope; where the source
    calls them the model takes them as function parameters. */
module YamlValue {

  datatype Value =
    | Null
    | Bool(b: bool)
    | Num(n: real)
    | Str(s: string)
    | List(items: seq<Value>)
    | Obj(fields: map<string, Value>)

  /** JavaScript truthiness: `null`/`undefined`, `false`, `0` and `""` are falsy;
      every list and object is truthy, even an empty one. */
  predicate Truthy(v: Value)
  {
    match v
    case Null => false
    case Bool(b) => b
    case Num(n) => n != 0.0
    case Str(s) => s != ""
    case List(_) => true
    case Obj(_) => true
  }

  /** Property read `v[key]`; a missing key, or a read on a non-object, is
      `undefined`, represented as `Null`. */
  function Get(v: Value, key: string): Value
  {
    if v.Obj? && key in v.fields then v.fields[key] else Null
  }

  /** `a || b` on values. */
  function Or(a: Value, b: Value): (r: Value)
    ensures Truthy(a) ==> r == a
    ensures !Truthy(a) ==> r == b
  {
    if Truthy(a) then a else b
  }

  /** The fields that an object spread `{...v}` copies: all fields of an
      object, none of anything else. */
  function SpreadFields(v: Value): map<string, Value>
  {
    if v.Obj? then v.fields else map[]
  }
}
