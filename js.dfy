/** JSON values as JavaScript sees them once `JSON.parse` has produced them,
    and the two pieces of JavaScript semantics the server relies on:
    property reads (`v.key`) and truthiness (`!x`). */
module Js {

  datatype Option<+T> = None | Some(value: T)

  /** A parsed JSON value. Numbers are exact reals (JSON has no NaN); an
      object is a map from member name to value, so member order is not kept. */
  datatype Json =
    | Null
    | Bool(b: bool)
    | Number(n: real)
    | Str(s: string)
    | Arr(items: seq<Json>)
    | Obj(members: map<string, Json>)

  /** The outcome of reading `v.key`: reading a property of `null` throws a
      TypeError; otherwise the value, with `undefined` written `None`. */
  datatype Read = Throws | Got(value: Option<Json>)

  /** `v.key` for the member names this server reads (`title`, `file_url`,
      `updated_date`): only an object has them as own members, and neither
      `Object.prototype`, `String.prototype` nor `Array.prototype` defines them. */
  function GetProperty(v: Json, key: string): (r: Read)
    requires key in {"title", "file_url", "updated_date"}
    ensures r == Throws <==> v == Null
    ensures r.Got? && r.value.Some? ==> v.Obj? && key in v.members && r.value.value == v.members[key]
    ensures v.Obj? && key in v.members ==> r == Got(Some(v.members[key]))
  {
    match v
    case Null => Throws
    case Obj(m) => if key in m then Got(Some(m[key])) else Got(None)
    case _ => Got(None)
  }

  /** `v.key = x` in sloppy-mode code, as seen through JSON: an object gains or
      overwrites the member; on a primitive the write is silently dropped; on an
      array it adds a non-index property that JSON never shows. Never called
      on `null`. */
  function SetProperty(v: Json, key: string, x: Json): (r: Json)
    requires v != Null
    ensures v.Obj? ==> r.Obj? && r.members.Keys == v.members.Keys + {key}
    ensures v.Obj? ==> r.members[key] == x
    ensures v.Obj? ==> forall k :: k in v.members && k != key ==> r.members[k] == v.members[k]
    ensures !v.Obj? ==> r == v
  {
    match v
    case Obj(m) => Obj(m[key := x])
    case _ => v
  }

  /** `!x`: undefined, null, false, 0 and "" are falsy; every object and
      array is truthy. */
  predicate Falsy(x: Option<Json>) {
    match x
    case None => true
    case Some(Null) => true
    case Some(Bool(b)) => !b
    case Some(Number(n)) => n == 0.0
    case Some(Str(s)) => s == ""
    case Some(_) => false
  }
}
