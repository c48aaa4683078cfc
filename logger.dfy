/** utils/security/logger.js: the level filter of `log`, the masking of
    sensitive fields in the data a log entry carries, and the plain-text
    layout of an entry. Streams, files and the console are I/O and not part
    of this model. */
module Logger {
  import opened Common
  import opened Text
  import opened Js

  /** `LOG_LEVELS[level]`; any other name has no number. */
  function LevelValue(level: string): (n: Option<int>)
    ensures n.Some? ==> 0 <= n.value <= 4
  {
    match level
    case "DEBUG" => Some(0)
    case "INFO" => Some(1)
    case "WARN" => Some(2)
    case "ERROR" => Some(3)
    case "SECURITY" => Some(4)
    case _ => None
  }

  /** The part of `DEFAULT_CONFIG` merged with the caller's options that the
      modelled code reads. */
  datatype LoggerConfig = LoggerConfig(level: int, maskSensitiveData: bool, sensitiveFields: seq<string>)

  const DefaultSensitiveFields: seq<string> := ["password", "token", "secret", "authorization", "cookie"]
  const DefaultLoggerConfig := LoggerConfig(1, true, DefaultSensitiveFields)

  /** The check at the top of `log`: an entry is dropped only when its level
      has a number below the configured one. `undefined < n` is false, so a
      level name outside `LOG_LEVELS` is never dropped. */
  predicate Emits(c: LoggerConfig, level: string)
  {
    !(LevelValue(level).Some? && LevelValue(level).value < c.level)
  }

  /** The filter is a threshold: a level at least as high as one that is
      written is written too, and an unknown level always is. */
  lemma EmitsIsThreshold(c: LoggerConfig, a: string, b: string)
    ensures (LevelValue(a).Some? && LevelValue(b).Some? && LevelValue(a).value <= LevelValue(b).value
             && Emits(c, a)) ==> Emits(c, b)
    ensures LevelValue(a).None? ==> Emits(c, a)
  {
  }

  /** With the default configuration only `DEBUG` is dropped. */
  lemma DefaultDropsOnlyDebug(level: string)
    ensures !Emits(DefaultLoggerConfig, level) <==> level == "DEBUG"
  {
  }

  /** A property name is sensitive when its lower-case form contains one of
      the sensitive fields in lower case. */
  predicate SensitiveKey(key: string, fields: seq<string>)
  {
    exists f :: f in fields && Contains(Lower(key), Lower(f))
  }

  /** The value `maskSensitiveData` stores under `key`: a sensitive string
      becomes `******`, any other sensitive value `[REDACTED]`, a nested
      object is masked in turn and everything else is kept. */
  function MaskField(fields: seq<string>, key: string, value: Value, arraysAsObjects: bool): (r: Value)
    ensures SensitiveKey(key, fields) && value.Str? ==> r == Str("******")
    ensures SensitiveKey(key, fields) && !value.Str? ==> r == Str("[REDACTED]")
    ensures !SensitiveKey(key, fields) && !IsObject(value) ==> r == value
    decreases value, 1
  {
    if SensitiveKey(key, fields) then
      if value.Str? then Str("******") else Str("[REDACTED]")
    else if Truthy(value) && IsObject(value) then Mask(fields, value, arraysAsObjects)
    else value
  }

  /** `maskSensitiveData(data)`. Anything but an object or array is returned
      as it is. The copy `{ ...data }` has the properties of `data` in the
      same order, each replaced by its `MaskField`. When `arraysAsObjects`
      holds, an array is copied that way too and so turns into an object
      keyed by its indices, as the code is written; otherwise it stays an
      array whose elements are masked under the same index keys. */
  function Mask(fields: seq<string>, data: Value, arraysAsObjects: bool): (r: Value)
    ensures !IsObject(data) ==> r == data
    // An object keeps its keys, in order, and each value becomes its `MaskField`.
    ensures data.Obj? ==> r.Obj? && Keys(r.fields) == Keys(data.fields)
    ensures data.Obj? ==> forall i :: 0 <= i < |data.fields| ==>
              r.fields[i].1 == MaskField(fields, data.fields[i].0, data.fields[i].1, arraysAsObjects)
    // An array's element `i` is masked under the key `"i"`.
    ensures data.Arr? && arraysAsObjects ==> r.Obj? && |r.fields| == |data.items|
    ensures data.Arr? && arraysAsObjects ==> forall i :: 0 <= i < |data.items| ==>
              r.fields[i] == (NatToString(i), MaskField(fields, NatToString(i), data.items[i], arraysAsObjects))
    ensures data.Arr? && !arraysAsObjects ==> r.Arr? && |r.items| == |data.items|
    ensures data.Arr? && !arraysAsObjects ==> forall i :: 0 <= i < |data.items| ==>
              r.items[i] == MaskField(fields, NatToString(i), data.items[i], arraysAsObjects)
    decreases data, 0
  {
    match data
    case Obj(fs) =>
      Obj(seq(|fs|, i requires 0 <= i < |fs| => (fs[i].0, MaskField(fields, fs[i].0, fs[i].1, arraysAsObjects))))
    case Arr(items) =>
      var masked := seq(|items|, i requires 0 <= i < |items| =>
                          MaskField(fields, NatToString(i), items[i], arraysAsObjects));
      if arraysAsObjects then Obj(seq(|items|, i requires 0 <= i < |items| => (NatToString(i), masked[i])))
      else Arr(masked)
    case _ => data
  }

  /** Every sensitive property, at any depth, holds one of the two
      placeholders. */
  ghost predicate Redacted(fields: seq<string>, v: Value)
    decreases v
  {
    match v
    case Obj(fs) =>
      forall i :: 0 <= i < |fs| ==>
        if SensitiveKey(fs[i].0, fields) then fs[i].1 == Str("******") || fs[i].1 == Str("[REDACTED]")
        else Redacted(fields, fs[i].1)
    case Arr(items) =>
      forall i :: 0 <= i < |items| ==>
        if SensitiveKey(NatToString(i), fields) then items[i] == Str("******") || items[i] == Str("[REDACTED]")
        else Redacted(fields, items[i])
    case _ => true
  }

  /** Masking leaves no sensitive value anywhere in the data. */
  lemma {:induction false} MaskRedacts(fields: seq<string>, data: Value, arraysAsObjects: bool)
    ensures Redacted(fields, Mask(fields, data, arraysAsObjects))
    decreases data
  {
    match data
    case Obj(fs) =>
      var r := Mask(fields, data, arraysAsObjects);
      forall i | 0 <= i < |fs|
        ensures if SensitiveKey(fs[i].0, fields) then r.fields[i].1 == Str("******") || r.fields[i].1 == Str("[REDACTED]")
                else Redacted(fields, r.fields[i].1)
      {
        assert r.fields[i] == (fs[i].0, MaskField(fields, fs[i].0, fs[i].1, arraysAsObjects));
        if !SensitiveKey(fs[i].0, fields) && IsObject(fs[i].1) {
          assert fs[i] in fs;
          MaskRedacts(fields, fs[i].1, arraysAsObjects);
        }
      }
    case Arr(items) =>
      var r := Mask(fields, data, arraysAsObjects);
      forall i | 0 <= i < |items|
        ensures var m := MaskField(fields, NatToString(i), items[i], arraysAsObjects);
                if SensitiveKey(NatToString(i), fields) then m == Str("******") || m == Str("[REDACTED]")
                else Redacted(fields, m)
      {
        if !SensitiveKey(NatToString(i), fields) && IsObject(items[i]) {
          MaskRedacts(fields, items[i], arraysAsObjects);
        }
      }
      if arraysAsObjects {
        assert forall i :: 0 <= i < |items| ==> r.fields[i] == (NatToString(i), MaskField(fields, NatToString(i), items[i], arraysAsObjects));
      } else {
        assert forall i :: 0 <= i < |items| ==> r.items[i] == MaskField(fields, NatToString(i), items[i], arraysAsObjects);
      }
    case _ =>
  }

  /** As written, an array handed to `maskSensitiveData` comes back as an
      object keyed `"0"`, `"1"`, ...: `[7]` is logged as `{"0":7}`. */
  lemma ArrayBecomesObject()
    ensures Mask(DefaultSensitiveFields, Arr([Num(7)]), true) == Obj([("0", Num(7))])
    ensures Mask(DefaultSensitiveFields, Arr([Num(7)]), false) == Arr([Num(7)])
  {
    assert NatToString(0) == "0";
    assert !SensitiveKey("0", DefaultSensitiveFields) by {
      forall f | f in DefaultSensitiveFields ensures !Contains(Lower("0"), Lower(f)) {
        assert |Lower(f)| > 1;
        assert Lower("0")[1..] == "";
      }
    }
  }

  /** `maskSensitiveData(data)` as a copy-and-update loop over the entries of
      the copy, recursing into nested objects; arrays stay arrays. */
  method MaskSensitiveData(fields: seq<string>, data: Value) returns (r: Value)
    ensures r == Mask(fields, data, false)
    decreases data
  {
    if !Truthy(data) || !IsObject(data) {
      return data;
    }
    var n := if data.Obj? then |data.fields| else |data.items|;
    var keys := if data.Obj? then Keys(data.fields) else seq(n, i requires 0 <= i < n => NatToString(i));
    var masked: seq<Value> := if data.Obj? then seq(n, i requires 0 <= i < n => data.fields[i].1) else data.items;
    var i := 0;
    while i < n
      invariant 0 <= i <= n && |masked| == n && |keys| == n
      invariant forall j :: 0 <= j < i ==>
                  masked[j] == MaskField(fields, keys[j], if data.Obj? then data.fields[j].1 else data.items[j], false)
      invariant forall j :: i <= j < n ==> masked[j] == if data.Obj? then data.fields[j].1 else data.items[j]
    {
      var key := keys[i];
      var value := masked[i];
      var v := value;
      if SensitiveKey(key, fields) {
        v := if value.Str? then Str("******") else Str("[REDACTED]");
      } else if Truthy(value) && IsObject(value) {
        if data.Obj? {
          assert data.fields[i] in data.fields;
        } else {
          assert data.items[i] in data.items;
        }
        v := MaskSensitiveData(fields, value);
      }
      masked := masked[i := v];
      i := i + 1;
    }
    if data.Obj? {
      r := Obj(seq(n, j requires 0 <= j < n => (keys[j], masked[j])));
    } else {
      r := Arr(masked);
    }
  }

  /** The text `Array.prototype.join` makes of an element: `null` and
      `undefined` become empty. */
  function JoinText(v: Value): string
  {
    if v.Null? || v.Undefined? then "" else ToStr(v)
  }

  /** The parts `formatPlainText(entry)` pushes, in order: timestamp, level,
      request id, message, request line, user and data, each optional one
      only when truthy. `stringify` is `JSON.stringify`. */
  function PlainTextParts(entry: Value, stringify: Value -> string): (parts: seq<string>)
    ensures 2 <= |parts| <= 7
    ensures |parts| == 2 + (if Truthy(Get(entry, "timestamp")) then 1 else 0)
                         + (if Truthy(Get(entry, "requestId")) then 1 else 0)
                         + (if Truthy(Get(entry, "request")) then 1 else 0)
                         + (if Truthy(Get(entry, "user")) then 1 else 0)
                         + (if Truthy(Get(entry, "data")) then 1 else 0)
    ensures var at := if Truthy(Get(entry, "timestamp")) then 1 else 0;
            parts[at] == "[" + ToStr(Get(entry, "level")) + "]"
            && parts[at + (if Truthy(Get(entry, "requestId")) then 2 else 1)] == JoinText(Get(entry, "message"))
    ensures Truthy(Get(entry, "timestamp")) ==> parts[0] == "[" + ToStr(Get(entry, "timestamp")) + "]"
    ensures Truthy(Get(entry, "requestId")) ==>
              parts[(if Truthy(Get(entry, "timestamp")) then 1 else 0) + 1] == "[" + ToStr(Get(entry, "requestId")) + "]"
    // After the message come the request line, the user and the data, each when present.
    ensures var d := if Truthy(Get(entry, "data")) then 1 else 0;
            var u := if Truthy(Get(entry, "user")) then 1 else 0;
            var request := Get(entry, "request");
            var user := Get(entry, "user");
            (d == 1 ==> parts[|parts| - 1] == stringify(Get(entry, "data")))
            && (u == 1 ==> parts[|parts| - 1 - d] == "User: " + ToStr(Get(user, "username")) + " (" + ToStr(Get(user, "id")) + ")")
            && (Truthy(request) ==>
                  parts[|parts| - 1 - d - u]
                  == ToStr(Get(request, "method")) + " " + ToStr(Get(request, "url")) + " (" + ToStr(Get(request, "ip")) + ")")
  {
    var request := Get(entry, "request");
    var user := Get(entry, "user");
    (if Truthy(Get(entry, "timestamp")) then ["[" + ToStr(Get(entry, "timestamp")) + "]"] else [])
    + ["[" + ToStr(Get(entry, "level")) + "]"]
    + (if Truthy(Get(entry, "requestId")) then ["[" + ToStr(Get(entry, "requestId")) + "]"] else [])
    + [JoinText(Get(entry, "message"))]
    + (if Truthy(request)
       then [ToStr(Get(request, "method")) + " " + ToStr(Get(request, "url")) + " (" + ToStr(Get(request, "ip")) + ")"]
       else [])
    + (if Truthy(user) then ["User: " + ToStr(Get(user, "username")) + " (" + ToStr(Get(user, "id")) + ")"] else [])
    + (if Truthy(Get(entry, "data")) then [stringify(Get(entry, "data"))] else [])
  }

  /** `formatPlainText(entry)`: the parts joined by single spaces. */
  function FormatPlainText(entry: Value, stringify: Value -> string): string
  {
    Join(PlainTextParts(entry, stringify), " ")
  }

  /** The plain text always shows the level in brackets and the message. */
  lemma PlainTextShowsLevelAndMessage(entry: Value, stringify: Value -> string)
    ensures Contains(FormatPlainText(entry, stringify), "[" + ToStr(Get(entry, "level")) + "]")
    ensures Contains(FormatPlainText(entry, stringify), JoinText(Get(entry, "message")))
  {
    var parts := PlainTextParts(entry, stringify);
    var at := if Truthy(Get(entry, "timestamp")) then 1 else 0;
    JoinContainsPart(parts, " ", at);
    JoinContainsPart(parts, " ", at + (if Truthy(Get(entry, "requestId")) then 2 else 1));
  }
}
