/**
 * The JavaScript values the app passes around (IPC payloads, worker messages,
 * stored records), with JavaScript's truthiness, member access and what a
 * JSON round trip makes of them. `undefined` may occur anywhere, also nested,
 * as it can in structured-clone messages; JSON cannot represent it there.
 */
module JsValue {

  datatype Value =
    | Undefined
    | Null
    | Bool(b: bool)
    | Num(n: int)
    | Str(s: string)
    | Arr(items: seq<Value>)
    | Obj(fields: map<string, Value>)

  /** `!!v`: false, 0, "", null and undefined are falsy; arrays and objects are truthy. */
  predicate Truthy(v: Value) {
    match v
    case Undefined => false
    case Null => false
    case Bool(b) => b
    case Num(n) => n != 0
    case Str(s) => s != ""
    case Arr(_) => true
    case Obj(_) => true
  }

  /** `v[name]` on a value that is neither null nor undefined; a missing member is undefined. */
  function Member(v: Value, name: string): (r: Value)
    requires v != Undefined && v != Null
    ensures !v.Obj? ==> r == Undefined
  {
    if v.Obj? && name in v.fields then v.fields[name] else Undefined
  }

  /** No `undefined` anywhere below the top: every array item and object member is JSON-representable. */
  predicate JsonSafe(v: Value) {
    match v
    case Arr(items) => forall i :: 0 <= i < |items| ==> items[i] != Undefined && JsonSafe(items[i])
    case Obj(fields) => forall k :: k in fields ==> fields[k] != Undefined && JsonSafe(fields[k])
    case _ => true
  }

  /**
   * `JSON.parse(JSON.stringify(v))` for a value held in a member: an undefined
   * object member is dropped, an undefined array item becomes null, and a
   * top-level undefined stays undefined (its member is dropped, so reading it
   * gives undefined again).
   */
  function Json(v: Value): (r: Value)
    ensures JsonSafe(r)
    ensures v.Arr? <==> r.Arr?
    ensures v.Obj? <==> r.Obj?
    ensures Truthy(r) == Truthy(v)
    ensures v.Arr? ==> |r.items| == |v.items| && forall i :: 0 <= i < |v.items| && v.items[i] == Undefined ==> r.items[i] == Null
    ensures v.Obj? ==> r.fields.Keys == set k | k in v.fields && v.fields[k] != Undefined
    ensures !v.Arr? && !v.Obj? ==> r == v
  {
    match v
    case Arr(items) => Arr(seq(|items|, i requires 0 <= i < |items| => if items[i] == Undefined then Null else Json(items[i])))
    case Obj(fields) => Obj(map k | k in fields && fields[k] != Undefined :: Json(fields[k]))
    case _ => v
  }

  /** A JSON-representable value survives the round trip unchanged. */
  lemma {:induction false} JsonKeepsSafe(v: Value)
    requires JsonSafe(v)
    ensures Json(v) == v
  {
    match v
    case Arr(items) =>
      forall i | 0 <= i < |items|
        ensures Json(v).items[i] == items[i]
      {
        JsonKeepsSafe(items[i]);
      }
    case Obj(fields) =>
      forall k | k in fields
        ensures Json(v).fields[k] == fields[k]
      {
        JsonKeepsSafe(fields[k]);
      }
      assert Json(v).fields == fields;
    case _ =>
  }

  /** A second JSON round trip changes nothing. */
  lemma JsonIdempotent(v: Value)
    ensures Json(Json(v)) == Json(v)
  {
    JsonKeepsSafe(Json(v));
  }

  /** Values that hold `undefined` below the top are exactly those the round trip changes. */
  lemma JsonChangesUnsafe(v: Value)
    ensures Json(v) == v <==> JsonSafe(v)
  {
    if JsonSafe(v) {
      JsonKeepsSafe(v);
    }
  }
}
