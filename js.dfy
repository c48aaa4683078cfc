/** JSON-like JavaScript values: the payloads the caches store, the query
    parameters the validator reads and the data the logger masks. Numbers are
    modelled as integers; an object is its own enumerable properties in
    insertion order. JavaScript lists integer-like keys (`"0"`, `"10"`)
    first, in ascending order, which this order does not reproduce. */
module Js {
  import opened Text

  datatype Value =
    | Undefined
    | Null
    | Bool(b: bool)
    | Num(n: int)
    | Str(s: string)
    | Arr(items: seq<Value>)
    | Obj(fields: seq<(string, Value)>)

  /** JavaScript truthiness: `undefined`, `null`, `false`, `0` and `''` are falsy. */
  predicate Truthy(v: Value)
  {
    match v
    case Undefined => false
    case Null => false
    case Bool(b) => b
    case Num(n) => n != 0
    case Str(s) => s != ""
    case Arr(_) => true
    case Obj(_) => true
  }

  /** `typeof v === 'object' && v !== null` */
  predicate IsObject(v: Value)
  {
    v.Arr? || v.Obj?
  }

  /** `String(v)`, which is also what a template literal `${v}` produces.
      An array prints its elements joined by commas, `null` and `undefined`
      elements as empty text; a plain object prints as `[object Object]`. */
  function ToStr(v: Value): string
    decreases v
  {
    match v
    case Undefined => "undefined"
    case Null => "null"
    case Bool(b) => if b then "true" else "false"
    case Num(n) => IntToString(n)
    case Str(s) => s
    case Arr(items) =>
      Join(seq(|items|, i requires 0 <= i < |items| =>
             if items[i].Null? || items[i].Undefined? then "" else ToStr(items[i])), ",")
    case Obj(_) => "[object Object]"
  }

  /** The value of the first property named `key`, or `undefined`. */
  function Lookup(fields: seq<(string, Value)>, key: string): Value
    decreases |fields|
  {
    if fields == [] then Undefined
    else if fields[0].0 == key then fields[0].1
    else Lookup(fields[1..], key)
  }

  /** Property read `v[key]` on a value that is not `null` or `undefined`:
      primitives and arrays have none of the properties the core reads. */
  function Get(v: Value, key: string): Value
  {
    if v.Obj? then Lookup(v.fields, key) else Undefined
  }

  /** Property write `obj[key] = v`: an existing property keeps its place,
      a new one goes last. */
  function Put(fields: seq<(string, Value)>, key: string, v: Value): (r: seq<(string, Value)>)
    ensures Lookup(r, key) == v
    ensures key in Keys(r)
    ensures forall k :: k != key ==> Lookup(r, k) == Lookup(fields, k)
    ensures forall k :: k != key ==> (k in Keys(r) <==> k in Keys(fields))
    decreases |fields|
  {
    if fields == [] then
      assert Keys([(key, v)]) == [key];
      [(key, v)]
    else if fields[0].0 == key then
      var r := [(key, v)] + fields[1..];
      assert Keys(r) == [key] + Keys(fields)[1..];
      r
    else
      var rest := Put(fields[1..], key, v);
      var r := [fields[0]] + rest;
      assert Keys(r) == [fields[0].0] + Keys(rest);
      assert Keys(fields) == [fields[0].0] + Keys(fields[1..]);
      r
  }

  /** The properties every plain object inherits from `Object.prototype`:
      reading one of these on an object literal finds a function, not
      `undefined`. */
  const ObjectPrototypeNames: set<string> :=
    {"constructor", "__defineGetter__", "__defineSetter__", "hasOwnProperty", "__lookupGetter__",
     "__lookupSetter__", "isPrototypeOf", "propertyIsEnumerable", "toString", "valueOf",
     "__proto__", "toLocaleString"}

  function Keys(fields: seq<(string, Value)>): seq<string>
  {
    seq(|fields|, i requires 0 <= i < |fields| => fields[i].0)
  }

  /** Reading a property of fields with one more entry at the end. */
  lemma {:induction false} LookupAppend(front: seq<(string, Value)>, last: (string, Value), key: string)
    ensures Keys(front + [last]) == Keys(front) + [last.0]
    ensures Lookup(front + [last], key)
            == if key in Keys(front) then Lookup(front, key) else if last.0 == key then last.1 else Undefined
    decreases |front|
  {
    if front != [] {
      assert (front + [last])[1..] == front[1..] + [last];
      assert Keys(front) == [front[0].0] + Keys(front[1..]);
      LookupAppend(front[1..], last, key);
    }
  }

  /** In an object whose earlier properties have other names, reading a
      property finds its own value. */
  lemma {:induction false} LookupAt(fields: seq<(string, Value)>, i: nat)
    requires i < |fields|
    requires forall j :: 0 <= j < i ==> fields[j].0 != fields[i].0
    ensures Lookup(fields, fields[i].0) == fields[i].1
    decreases i
  {
    if i > 0 {
      LookupAt(fields[1..], i - 1);
    }
  }

  /** Reading a property an object does not have gives `undefined`. */
  lemma {:induction false} LookupAbsent(fields: seq<(string, Value)>, key: string)
    requires key !in Keys(fields)
    ensures Lookup(fields, key) == Undefined
    decreases |fields|
  {
    if fields != [] {
      assert Keys(fields) == [fields[0].0] + Keys(fields[1..]);
      LookupAbsent(fields[1..], key);
    }
  }

  /** Property names of a JavaScript object are unique. */
  ghost predicate DistinctKeys(fields: seq<(string, Value)>)
  {
    forall i, j :: 0 <= i < j < |fields| ==> fields[i].0 != fields[j].0
  }
}
