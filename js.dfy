/**
 * JavaScript values as the controllers see them in request bodies, parsed
 * JSON and database rows, with the truthiness and `String(...)` conversion
 * that the source relies on.
 */
module Js {
  import opened Wrappers
  import opened Strings

  /** Numbers are modelled by their integer values; objects by their entries in key order. */
  datatype JsValue =
    | Undefined
    | Null
    | Bool(b: bool)
    | Num(n: int)
    | Str(s: string)
    | Arr(items: seq<JsValue>)
    | Obj(entries: seq<(string, JsValue)>)

  /** `Boolean(v)`. */
  predicate Truthy(v: JsValue) {
    match v
    case Undefined => false
    case Null => false
    case Bool(b) => b
    case Num(n) => n != 0
    case Str(s) => s != ""
    case _ => true
  }

  /** `v === undefined || v === null`. */
  predicate Nullish(v: JsValue) {
    v.Undefined? || v.Null?
  }

  /** `String(v)`; array elements that are null or undefined print as empty text. */
  function ToJsString(v: JsValue): string {
    match v
    case Undefined => "undefined"
    case Null => "null"
    case Bool(b) => if b then "true" else "false"
    case Num(n) => IntToString(n)
    case Str(s) => s
    case Arr(items) => JoinItems(items)
    case Obj(_) => "[object Object]"
  }

  function JoinItems(items: seq<JsValue>): string
    decreases items
  {
    if items == [] then ""
    else
      var first := if Nullish(items[0]) then "" else ToJsString(items[0]);
      if |items| == 1 then first else first + "," + JoinItems(items[1..])
  }

  /** A request object (query string or body): key to value; a missing key reads as undefined. */
  function Lookup(m: map<string, JsValue>, k: string): JsValue {
    if k in m then m[k] else Undefined
  }

  /** `obj[key]` on an object given by its entries: the value of the entry with that key, else undefined. */
  function Get(entries: seq<(string, JsValue)>, key: string): JsValue {
    if entries == [] then Undefined
    else if entries[|entries| - 1].0 == key then entries[|entries| - 1].1
    else Get(entries[..|entries| - 1], key)
  }

  /** The keys of an object, as `Object.keys` lists them. */
  function Keys(entries: seq<(string, JsValue)>): (r: seq<string>)
    ensures |r| == |entries| && forall i :: 0 <= i < |r| ==> r[i] == entries[i].0
  {
    if entries == [] then [] else Keys(entries[..|entries| - 1]) + [entries[|entries| - 1].0]
  }
}
