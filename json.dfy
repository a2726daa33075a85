/** JSON-like values as the extension stores them (configuration objects,
    messages, responses), with the JavaScript operations the extension
    applies to them: truthiness, property reads, `String(...)`, template
    text and `Object.entries`. */
module JsonValue {
  import opened JsText

  /** A JSON value. Numbers are integers: no configuration field the model
      follows holds a fraction. A missing property reads as `JNull`, which is
      also how `undefined` is represented. */
  datatype Json =
    | JNull
    | JBool(b: bool)
    | JNum(n: int)
    | JStr(s: string)
    | JArr(items: seq<Json>)
    | JObj(fields: map<string, Json>)

  /** JavaScript truthiness: `null`, `false`, `0` and `''` are falsy, every
      array and object (even an empty one) is truthy. */
  predicate Truthy(v: Json) {
    match v
    case JNull => false
    case JBool(b) => b
    case JNum(n) => n != 0
    case JStr(s) => s != ""
    case JArr(_) => true
    case JObj(_) => true
  }

  /** `a || b`. */
  function Or(a: Json, b: Json): (r: Json)
    ensures Truthy(a) ==> r == a
    ensures !Truthy(a) ==> r == b
  {
    if Truthy(a) then a else b
  }

  /** `v?.[key]` for a named field such as `autoPush` or `baseUrl`: only a
      plain object has such a property. */
  function Get(v: Json, key: string): (r: Json)
    ensures v.JObj? && key in v.fields ==> r == v.fields[key]
    ensures !(v.JObj? && key in v.fields) ==> r == JNull
  {
    if v.JObj? && key in v.fields then v.fields[key] else JNull
  }

  /** `a || b` picks one of its operands and is truthy exactly when one of
      them is. */
  lemma OrTruthy(a: Json, b: Json)
    ensures Or(a, b) == a || Or(a, b) == b
    ensures Truthy(Or(a, b)) <==> Truthy(a) || Truthy(b)
  {
  }

  /** A property read that gives anything but `null` found a field of a plain
      object. */
  lemma GetDefined(v: Json, key: string)
    ensures Get(v, key) != JNull ==> v.JObj? && key in v.fields && v.fields[key] == Get(v, key)
  {
  }

  /** The template text `${v[key]}`: the `String` of the property, or
      `undefined` when the property is absent. */
  function PropertyText(v: Json, key: string): string {
    if v.JObj? && key in v.fields then ToJsString(v.fields[key]) else "undefined"
  }

  /** `String(v)` (ECMAScript ToString); an array is joined with commas and its
      null elements become empty strings, as `Array.prototype.join` does. */
  function ToJsString(v: Json): string {
    match v
    case JNull => "null"
    case JBool(b) => if b then "true" else "false"
    case JNum(n) => IntToString(n)
    case JStr(s) => s
    case JArr(items) => JoinItems(items)
    case JObj(_) => "[object Object]"
  }

  function JoinItems(items: seq<Json>): string
    decreases items, 1
  {
    if items == [] then ""
    else
      var last := items[|items| - 1];
      var lastText := if last.JNull? then "" else ToJsString(last);
      if |items| == 1 then lastText
      else JoinItems(items[..|items| - 1]) + "," + lastText
  }

  /** The values a string of text converts to unchanged. */
  lemma ToJsStringOfString(s: string)
    ensures ToJsString(JStr(s)) == s
  {
  }

  /** `String(v || '')`: the text of a truthy value, otherwise the empty string. */
  function TextOr(v: Json): (r: string)
    ensures !Truthy(v) ==> r == ""
    ensures v.JStr? ==> r == v.s
  {
    ToJsString(Or(v, JStr("")))
  }

  /** The own enumerable properties `Object.entries` lists: an object's fields,
      or an array's elements under their decimal indices. */
  function Entries(v: Json): (m: map<string, Json>)
    requires v.JObj? || v.JArr?
    ensures v.JObj? ==> m == v.fields
    ensures v.JArr? ==> m.Keys == IndexKeys(|v.items|)
    ensures v.JArr? ==> forall i :: 0 <= i < |v.items| ==> m[NatToString(i)] == v.items[i]
  {
    if v.JObj? then v.fields else IndexEntries(v.items)
  }

  /** The decimal indices of an array of length `n`. */
  function IndexKeys(n: nat): set<string> {
    set i | 0 <= i < n :: NatToString(i)
  }

  function IndexEntries(items: seq<Json>): (m: map<string, Json>)
    ensures m.Keys == IndexKeys(|items|)
    ensures forall i :: 0 <= i < |items| ==> m[NatToString(i)] == items[i]
  {
    if items == [] then map[]
    else
      var n := |items| - 1;
      var prev := IndexEntries(items[..n]);
      NewIndexKey(n);
      IndexEntriesStep(items, prev);
      prev[NatToString(n) := items[n]]
  }

  lemma IndexEntriesStep(items: seq<Json>, prev: map<string, Json>)
    requires |items| > 0
    requires prev.Keys == IndexKeys(|items| - 1)
    requires forall i :: 0 <= i < |items| - 1 ==> prev[NatToString(i)] == items[i]
    requires NatToString(|items| - 1) !in IndexKeys(|items| - 1)
    ensures var m := prev[NatToString(|items| - 1) := items[|items| - 1]];
      forall i :: 0 <= i < |items| ==> m[NatToString(i)] == items[i]
  {
  }

  /** The index `n` is not among the indices below it. */
  lemma NewIndexKey(n: nat)
    ensures NatToString(n) !in IndexKeys(n)
    ensures IndexKeys(n + 1) == IndexKeys(n) + {NatToString(n)}
  {
    if NatToString(n) in IndexKeys(n) {
      var i :| 0 <= i < n && NatToString(i) == NatToString(n);
      NatToStringInjective(i, n);
    }
  }

  /** An entry value is part of the value it was listed from (what makes the
      recursion of a merge over entries terminate). */
  lemma EntriesSmaller(v: Json)
    requires v.JObj? || v.JArr?
    ensures forall k :: k in Entries(v) ==> Entries(v)[k] < v
  {
    forall k | k in Entries(v) ensures Entries(v)[k] < v {
      if v.JArr? {
        var i :| 0 <= i < |v.items| && k == NatToString(i);
        assert Entries(v)[k] == v.items[i];
      }
    }
  }
}
