/**
 * JSON values as `JSON.parse` produces them, and the few JavaScript operations
 * the application performs on them: truthiness, reading a named property,
 * object spread, and the dropping of `undefined` members when a response
 * object is serialised.
 *
 * Parsing itself is not modelled: every caller receives a parse oracle
 * `string -> Option<Json>` whose `None` stands for a `SyntaxError`.
 */
module Json {
  import opened JsString

  datatype Json =
    | JNull
    | JBool(b: bool)
    | JNumber(n: real)
    | JStr(s: string)
    | JArr(items: seq<Json>)
    | JObj(fields: map<string, Json>)

  /** A JSON object, as the routes build and the store keeps them. */
  type JsonObject = map<string, Json>

  /** JavaScript truthiness of a parsed value. */
  predicate Truthy(v: Json) {
    match v
    case JNull => false
    case JBool(b) => b
    case JNumber(n) => n != 0.0
    case JStr(s) => s != []
    case _ => true
  }

  /** The outcome of `v.key` for a named (non-index, non-`length`) key. */
  datatype Read = Value(v: Json) | Undefined | Throws {
    predicate IsTruthy() { Value? && Truthy(v) }
  }

  /**
   * `v.key`: reading a property of `null` throws a TypeError; objects yield the
   * member (the last of duplicate keys, which is what `JSON.parse` keeps);
   * every other value has no property of the names the application reads.
   */
  function Get(v: Json, key: string): (r: Read)
    ensures r.Throws? <==> v.JNull?
    ensures r.Value? <==> v.JObj? && key in v.fields
    ensures r.Value? ==> r.v == v.fields[key]
  {
    match v
    case JNull => Throws
    case JObj(f) => if key in f then Value(f[key]) else Undefined
    case _ => Undefined
  }

  /** `o.key` on an object literal. */
  function Member(o: JsonObject, key: string): Read {
    if key in o then Value(o[key]) else Undefined
  }

  /** The object `{...v}` builds: own enumerable members of objects, indices of arrays and strings. */
  function Spread(v: Json): (m: JsonObject)
    ensures v.JObj? ==> m == v.fields
    ensures v.JArr? ==> forall i :: 0 <= i < |v.items| ==> Decimal(i) in m && m[Decimal(i)] == v.items[i]
    ensures v.JStr? ==> forall i :: 0 <= i < |v.s| ==> Decimal(i) in m && m[Decimal(i)] == JStr([v.s[i]])
    ensures (v.JArr? || v.JStr?) ==> forall k :: k in m ==> exists i: nat :: k == Decimal(i)
    ensures !v.JObj? && !v.JArr? && !v.JStr? ==> m == map[]
  {
    match v
    case JObj(f) => f
    case JArr(items) => Indexed(items)
    case JStr(s) => Indexed(seq(|s|, i requires 0 <= i < |s| => JStr([s[i]])))
    case _ => map[]
  }

  /** The members `"0"`, `"1"`, ... of a spread sequence. */
  function Indexed(items: seq<Json>): (m: JsonObject)
    ensures forall i :: 0 <= i < |items| ==> Decimal(i) in m && m[Decimal(i)] == items[i]
    ensures forall k :: k in m ==> exists i: nat :: i < |items| && k == Decimal(i)
  {
    if |items| == 0 then map[]
    else
      var n := |items| - 1;
      var m := Indexed(items[..n]);
      DecimalInjective();
      m[Decimal(n) := items[n]]
  }

  /**
   * The member `key: r` of an object literal as it appears once the object is
   * serialised: a member whose value is `undefined` is dropped.
   */
  function Put(m: JsonObject, key: string, r: Read): (m': JsonObject)
    requires !r.Throws?
    ensures r.Value? ==> m' == m[key := r.v]
    ensures r.Undefined? ==> key !in m' && forall k :: k in m && k != key ==> k in m' && m'[k] == m[k]
    ensures m'.Keys <= m.Keys + {key}
  {
    if r.Value? then m[key := r.v] else m - {key}
  }
}
