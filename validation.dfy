/** `validateAndSanitizeQuery` and `validateAndSanitizeValue` of
    utils/security/validation.js: check each query parameter against its
    rules, collect the problems found and build the sanitized parameter
    object. Parsing that the source leaves to the JavaScript runtime
    (`Number`, `JSON.parse`, `new URL`, a rule's regular expression) is
    passed in as functions. */
module Validation {
  import opened Common
  import opened Text
  import opened Js
  import opened Sanitize

  /** The rules of one parameter. A field the schema leaves out is
      `Undefined` or `None`. */
  datatype Rules = Rules(
    required: Value,
    default: Value,
    kind: Value,                         // `rules.type`
    sanitize: Value,
    allowHtml: Value,
    minLength: Option<int>,
    maxLength: Option<int>,
    pattern: Option<string -> bool>,     // `rules.pattern.test`
    min: Option<int>,
    max: Option<int>,
    minItems: Option<int>,
    maxItems: Option<int>,
    items: Option<Rules>,
    values: Value)                       // `rules.values` of an enum

  /** Rules with every field absent: what a schema entry that is not an
      object, such as `_allowUnknown: true`, reads as. */
  const NoRules: Rules :=
    Rules(Undefined, Undefined, Undefined, Undefined, Undefined,
          None, None, None, None, None, None, None, None, Undefined)

  /** The value a schema maps a name to: an object of rules or some other value. */
  datatype SchemaEntry = Rule(rules: Rules) | Setting(v: Value)

  type Schema = seq<(string, SchemaEntry)>

  /** What the runtime does for the validator. */
  datatype Url = Url(protocol: string, href: string)
  datatype Parsers = Parsers(
    toNumber: Value -> Option<int>,                   // `Number(v)`; `None` is `NaN`
    parseJsonArray: string -> Option<seq<Value>>,     // `JSON.parse(s)` when it yields an array
    parseUrl: Value -> Option<Url>)                   // `new URL(v)`; `None` when it throws

  /** The problem an error message reports. */
  datatype Problem =
    | Required
    | TooShort(minLength: int)
    | TooLong(maxLength: int)
    | BadFormat
    | NotNumber
    | BelowMin(min: int)
    | AboveMax(max: int)
    | NotBoolean
    | NotArray
    | TooFewItems(minItems: int)
    | TooManyItems(maxItems: int)
    | NotHttp
    | BadUrl
    | NotInEnum(values: seq<Value>)

  /** Query parameters are reported as `参数 <name> ...`, array items as
      `<name>[<index>] ...`. */
  datatype Subject = Param(name: string) | Item(name: string)
  datatype Issue = Issue(subject: Subject, problem: Problem)

  /** What the validator throws instead of returning. */
  datatype Thrown =
    | EnumWithoutValues(param: string)    // an enum rule without a `values` array
    | RulesUnreadable(param: string)      // `rules` is `null` or `undefined`

  datatype QueryResult = QueryResult(isValid: bool, sanitized: seq<(string, Value)>, errors: seq<Issue>)

  /** The outcome of validating one value. */
  datatype Checked<T> = Checked(valid: bool, value: T, issues: seq<Issue>)

  /** The error message text the source pushes for an issue. */
  function Message(i: Issue): (m: string)
    ensures i.subject.Param? ==> StartsWith(m, "参数 " + i.subject.name + " ")
    ensures i.subject.Item? ==> StartsWith(m, i.subject.name + " ")
  {
    var head := if i.subject.Param? then "参数 " + i.subject.name + " " else i.subject.name + " ";
    var tail :=
      match i.problem
      case Required => "是必需的"
      case TooShort(n) => "长度不能小于 " + IntToString(n)
      case TooLong(n) => "长度不能大于 " + IntToString(n)
      case BadFormat => "格式不正确"
      case NotNumber => "必须是数字"
      case BelowMin(n) => "不能小于 " + IntToString(n)
      case AboveMax(n) => "不能大于 " + IntToString(n)
      case NotBoolean => "必须是布尔值"
      case NotArray => "必须是数组"
      case TooFewItems(n) => "项目数不能小于 " + IntToString(n)
      case TooManyItems(n) => "项目数不能大于 " + IntToString(n)
      case NotHttp => "必须是有效的http或https URL"
      case BadUrl => "必须是有效的URL"
      case NotInEnum(vs) =>
        "必须是以下值之一: "
        + Join(seq(|vs|, j requires 0 <= j < |vs| => if vs[j].Null? || vs[j].Undefined? then "" else ToStr(vs[j])), ", ");
    assert (head + tail)[..|head|] == head;
    head + tail
  }

  /** `value === undefined || value === null || value === ''` */
  predicate Missing(v: Value)
  {
    v == Undefined || v == Null || v == Str("")
  }

  /** `s.substring(0, n)` */
  function Substring(s: string, n: int): (r: string)
    ensures r <= s
    ensures |r| == if n < 0 then 0 else if n > |s| then |s| else n
  {
    if n < 0 then "" else if n > |s| then s else s[..n]
  }

  /** `a.slice(0, n)`: a negative end counts from the back. */
  function Slice(a: seq<Value>, n: int): (r: seq<Value>)
    ensures r <= a
    ensures n >= 0 ==> |r| == if n > |a| then |a| else n
    ensures n < 0 ==> |r| == if |a| + n < 0 then 0 else |a| + n
  {
    var end := if n < 0 then (if |a| + n < 0 then 0 else |a| + n) else if n > |a| then |a| else n;
    a[..end]
  }

  /** `rules.values.includes(value)`: a query value that is an array or
      object is never the same object as one in the schema. */
  predicate Includes(values: seq<Value>, v: Value)
  {
    !IsObject(v) && v in values
  }

  /** The string a string rule starts from: sanitized unless `sanitize` is
      exactly `false`. */
  function Cleaned(s: string, rules: Rules): (r: string)
    ensures |r| <= |s|
  {
    if rules.sanitize != Bool(false) then SanitizeString(Str(s), rules.allowHtml) else s
  }

  /** The checks of a string rule on a string value. The result is a prefix
      of the cleaned string, no longer than a non-negative `maxLength`, and
      is valid exactly when no check fails. */
  function CheckString(s: string, rules: Rules, who: Subject): (r: Checked<string>)
    ensures r.valid <==> r.issues == []
    ensures r.value <= Cleaned(s, rules)
    ensures rules.maxLength.Some? && rules.maxLength.value >= 0 ==> |r.value| <= rules.maxLength.value
    ensures rules.minLength.Some? && |Cleaned(s, rules)| < rules.minLength.value
            ==> Issue(who, TooShort(rules.minLength.value)) in r.issues
    ensures r.issues == [] <==>
              (rules.minLength.None? || |Cleaned(s, rules)| >= rules.minLength.value)
              && (rules.maxLength.None? || |Cleaned(s, rules)| <= rules.maxLength.value)
              && (rules.pattern.None? || rules.pattern.value(r.value))
    ensures rules.maxLength.Some? && 0 <= rules.maxLength.value < |Cleaned(s, rules)|
            ==> r.value == Cleaned(s, rules)[..rules.maxLength.value]
                && Issue(who, TooLong(rules.maxLength.value)) in r.issues
    ensures rules.maxLength.None? || |Cleaned(s, rules)| <= rules.maxLength.value ==> r.value == Cleaned(s, rules)
  {
    var c := Cleaned(s, rules);
    var short := if rules.minLength.Some? && |c| < rules.minLength.value
                 then [Issue(who, TooShort(rules.minLength.value))] else [];
    var long := rules.maxLength.Some? && |c| > rules.maxLength.value;
    var cut := if long then Substring(c, rules.maxLength.value) else c;
    var tooLong := if long then [Issue(who, TooLong(rules.maxLength.value))] else [];
    var bad := if rules.pattern.Some? && !rules.pattern.value(cut) then [Issue(who, BadFormat)] else [];
    var issues := short + tooLong + bad;
    Checked(issues == [], cut, issues)
  }

  /** The range checks of a number rule: below `min` becomes `min`, then
      above `max` becomes `max`, one issue each. */
  function CheckNumber(n: int, rules: Rules, who: Subject): (r: Checked<int>)
    ensures r.valid <==> r.issues == []
    ensures rules.max.Some? ==> r.value <= rules.max.value
    ensures rules.min.Some? && (rules.max.None? || rules.min.value <= rules.max.value)
            ==> rules.min.value <= r.value
    ensures (rules.min.None? || rules.min.value <= n) && (rules.max.None? || n <= rules.max.value)
            <==> r.issues == []
    ensures r.issues == [] ==> r.value == n
    // The stored value: `min` below the range, `max` above it, `n` inside it.
    ensures rules.min.Some? && n < rules.min.value && (rules.max.None? || rules.min.value <= rules.max.value)
            ==> r.value == rules.min.value
    ensures rules.max.Some? && n > rules.max.value ==> r.value == rules.max.value
    ensures (rules.min.None? || rules.min.value <= n) && (rules.max.None? || n <= rules.max.value)
            ==> r.value == n
    ensures rules.min.Some? ==> (Issue(who, BelowMin(rules.min.value)) in r.issues <==> n < rules.min.value)
    ensures rules.max.Some? && (rules.min.None? || rules.min.value <= rules.max.value)
            ==> (Issue(who, AboveMax(rules.max.value)) in r.issues <==> n > rules.max.value)
    // With `min > max`, a number below `min` is raised to `min` and then
    // lowered to `max`, with both issues.
    ensures rules.min.Some? && rules.max.Some? && rules.max.value < rules.min.value && n < rules.min.value
            ==> r.value == rules.max.value
                && r.issues == [Issue(who, BelowMin(rules.min.value)), Issue(who, AboveMax(rules.max.value))]
    ensures |r.issues| <= 2
  {
    var low := rules.min.Some? && n < rules.min.value;
    var n1 := if low then rules.min.value else n;
    var high := rules.max.Some? && n1 > rules.max.value;
    var n2 := if high then rules.max.value else n1;
    var issues := (if low then [Issue(who, BelowMin(rules.min.value))] else [])
                  + (if high then [Issue(who, AboveMax(rules.max.value))] else []);
    Checked(issues == [], n2, issues)
  }

  /** `validateAndSanitizeValue(value, rules, name)`: only string and number
      rules check anything; a value `Number` cannot read keeps its original
      form. */
  function ValidateValue(value: Value, rules: Rules, name: string, P: Parsers): (r: Checked<Value>)
    ensures r.valid <==> r.issues == []
    ensures rules.kind != Str("string") && rules.kind != Str("number") ==> r == Checked(true, value, [])
    ensures rules.kind == Str("number") && r.value.Num? && rules.max.Some? ==> r.value.n <= rules.max.value
    ensures rules.kind == Str("number") && !value.Num? && P.toNumber(value).None?
            ==> r == Checked(false, value, [Issue(Item(name), NotNumber)])
    ensures rules.kind == Str("number") && r.value.Num? && rules.min.Some?
            && (rules.max.None? || rules.min.value <= rules.max.value)
            ==> rules.min.value <= r.value.n
    // A number `Number` can read is checked by the range rules.
    ensures rules.kind == Str("number") && (value.Num? || P.toNumber(value).Some?)
            ==> var c := CheckNumber(if value.Num? then value.n else P.toNumber(value).value, rules, Item(name));
                r == Checked(c.valid, Num(c.value), c.issues)
    ensures rules.kind == Str("string") ==> r.value.Str?
    // A value that is not a string is turned into one and is not checked.
    ensures rules.kind == Str("string") && !value.Str? ==> r == Checked(true, Str(ToStr(value)), [])
    // A string is checked by the string rules.
    ensures rules.kind == Str("string") && value.Str?
            ==> var c := CheckString(value.s, rules, Item(name));
                r == Checked(c.valid, Str(c.value), c.issues)
    ensures rules.kind == Str("string") && value.Str? && rules.maxLength.Some? && rules.maxLength.value >= 0
            ==> |r.value.s| <= rules.maxLength.value
  {
    if rules.kind == Str("string") then
      if !value.Str? then Checked(true, Str(ToStr(value)), [])
      else
        var c := CheckString(value.s, rules, Item(name));
        Checked(c.valid, Str(c.value), c.issues)
    else if rules.kind == Str("number") then
      var n := if value.Num? then Some(value.n) else P.toNumber(value);
      if n.None? then Checked(false, value, [Issue(Item(name), NotNumber)])
      else
        var c := CheckNumber(n.value, rules, Item(name));
        Checked(c.valid, Num(c.value), c.issues)
    else Checked(true, value, [])
  }

  /** `${param}[${index}]` */
  function ItemName(param: string, index: nat): string
  {
    param + "[" + NatToString(index) + "]"
  }

  /** Item `j` validated under the name `param[j]`. */
  function CheckItem(items: seq<Value>, rules: Rules, param: string, j: nat, P: Parsers): (r: Checked<Value>)
    requires j < |items|
    ensures r.valid <==> r.issues == []
  {
    ValidateValue(items[j], rules, ItemName(param, j), P)
  }

  /** The issues of the items from `i` on, in item order. */
  function ItemIssues(items: seq<Value>, rules: Rules, param: string, i: nat, P: Parsers): seq<Issue>
    requires i <= |items|
    decreases |items| - i
  {
    if i == |items| then [] else CheckItem(items, rules, param, i, P).issues + ItemIssues(items, rules, param, i + 1, P)
  }

  /** The items from `i` on report no issue exactly when each is valid. */
  lemma {:induction false} ItemIssuesEmpty(items: seq<Value>, rules: Rules, param: string, i: nat, P: Parsers)
    requires i <= |items|
    ensures ItemIssues(items, rules, param, i, P) == []
            <==> forall j :: i <= j < |items| ==> CheckItem(items, rules, param, j, P).valid
    decreases |items| - i
  {
    if i < |items| {
      var c := CheckItem(items, rules, param, i, P);
      var rest := ItemIssues(items, rules, param, i + 1, P);
      assert ItemIssues(items, rules, param, i, P) == c.issues + rest;
      ItemIssuesEmpty(items, rules, param, i + 1, P);
      if c.valid && rest == [] {
        forall j | i <= j < |items| ensures CheckItem(items, rules, param, j, P).valid {
          if j > i {
            assert i + 1 <= j;
          }
        }
      }
    }
  }

  /** The array a value becomes under an array rule: an array as it is, a
      string as a JSON array or else its comma-separated trimmed parts. */
  function AsArray(value: Value, P: Parsers): (r: Option<seq<Value>>)
    ensures r.None? <==> !value.Arr? && !value.Str?
    ensures value.Arr? ==> r == Some(value.items)
    ensures value.Str? && P.parseJsonArray(value.s).Some? ==> r == P.parseJsonArray(value.s)
    // Otherwise a string becomes its comma-separated parts, each trimmed.
    ensures value.Str? && P.parseJsonArray(value.s).None? ==>
              var parts := Split(value.s, ',');
              r.Some? && |r.value| == |parts|
              && forall j :: 0 <= j < |parts| ==> r.value[j] == Str(Trim(parts[j]))
  {
    if value.Arr? then Some(value.items)
    else if value.Str? then
      match P.parseJsonArray(value.s)
      case Some(items) => Some(items)
      case None =>
        var parts := Split(value.s, ',');
        Some(seq(|parts|, j requires 0 <= j < |parts| => Str(Trim(parts[j]))))
    else None
  }

  /** The effect of one schema entry: whether it keeps the result valid, the
      value it writes under the parameter's name, if any, and its issues. */
  datatype Step = Step(valid: bool, out: Option<Value>, issues: seq<Issue>)

  function RulesOf(entry: SchemaEntry): Rules
  {
    if entry.Rule? then entry.rules else NoRules
  }

  /** The items an array rule keeps: `items.slice(0, maxItems)` when there
      are more than `maxItems`, otherwise all of them. */
  function KeptItems(rules: Rules, items: seq<Value>): (r: seq<Value>)
    ensures r <= items
    ensures rules.maxItems.None? || |items| <= rules.maxItems.value ==> r == items
    ensures rules.maxItems.Some? && 0 <= rules.maxItems.value < |items| ==> r == items[..rules.maxItems.value]
  {
    if rules.maxItems.Some? && |items| > rules.maxItems.value then Slice(items, rules.maxItems.value) else items
  }

  /** An array rule has item rules when `rules.items && rules.items.type`. */
  predicate HasItemRules(rules: Rules)
  {
    rules.items.Some? && Truthy(rules.items.value.kind)
  }

  /** The length checks and item checks of an array rule on `items`. */
  function CheckArray(param: string, rules: Rules, items: seq<Value>, P: Parsers): (st: Step)
    ensures st.out.Some? && st.out.value.Arr?
    // Without item rules the kept items are stored as they are.
    ensures !HasItemRules(rules) ==> st.out.value.items == KeptItems(rules, items)
    // With item rules each kept item is stored as its item check left it,
    // and one invalid item makes the parameter invalid.
    ensures HasItemRules(rules) ==>
              var kept := KeptItems(rules, items);
              |st.out.value.items| == |kept|
              && (forall j :: 0 <= j < |kept| ==>
                    st.out.value.items[j] == CheckItem(kept, rules.items.value, param, j, P).value)
              && (st.valid ==> forall j :: 0 <= j < |kept| ==> CheckItem(kept, rules.items.value, param, j, P).valid)
    ensures rules.maxItems.Some? && rules.maxItems.value >= 0 ==> |st.out.value.items| <= rules.maxItems.value
    ensures rules.maxItems.Some? && 0 <= rules.maxItems.value < |items|
            ==> |st.out.value.items| == rules.maxItems.value
                && Issue(Param(param), TooManyItems(rules.maxItems.value)) in st.issues
    ensures rules.minItems.Some? && |items| < rules.minItems.value
            ==> Issue(Param(param), TooFewItems(rules.minItems.value)) in st.issues
    ensures st.valid <==> st.issues == []
  {
    var few := if rules.minItems.Some? && |items| < rules.minItems.value
               then [Issue(Param(param), TooFewItems(rules.minItems.value))] else [];
    var many := rules.maxItems.Some? && |items| > rules.maxItems.value;
    var kept := KeptItems(rules, items);
    var tooMany := if many then [Issue(Param(param), TooManyItems(rules.maxItems.value))] else [];
    if HasItemRules(rules) then
      var itemRules := rules.items.value;
      var allValid := forall j :: 0 <= j < |kept| ==> CheckItem(kept, itemRules, param, j, P).valid;
      var values := seq(|kept|, j requires 0 <= j < |kept| => CheckItem(kept, itemRules, param, j, P).value);
      var itemIssues := if allValid then [] else ItemIssues(kept, itemRules, param, 0, P);
      ItemIssuesEmpty(kept, itemRules, param, 0, P);
      Step(few == [] && tooMany == [] && allValid, Some(Arr(values)), few + tooMany + itemIssues)
    else
      var issues := few + tooMany;
      Step(issues == [], Some(Arr(kept)), issues)
  }

  /** One iteration of the schema loop for the parameter `param`, whose query
      value is `value`. */
  function ParamStep(param: string, entry: SchemaEntry, value: Value, P: Parsers): (r: Result<Step, Thrown>)
    ensures r.Failure? <==> (entry == Setting(Null) || entry == Setting(Undefined)
              || (!Missing(value) && entry.Rule? && entry.rules.kind == Str("enum") && !entry.rules.values.Arr?))
    ensures r.Success? ==> (r.value.valid <==> r.value.issues == [])
    ensures r.Success? && Missing(value) && Truthy(RulesOf(entry).required)
            ==> r.value == Step(false, None, [Issue(Param(param), Required)])
    ensures r.Success? && Missing(value) && !Truthy(RulesOf(entry).required)
            ==> r.value == Step(true, if RulesOf(entry).default != Undefined then Some(RulesOf(entry).default) else None, [])
  {
    if entry == Setting(Null) || entry == Setting(Undefined) then Failure(RulesUnreadable(param))
    else
      var rules := RulesOf(entry);
      if Truthy(rules.required) && Missing(value) then
        Success(Step(false, None, [Issue(Param(param), Required)]))
      else if Missing(value) && rules.default != Undefined then
        Success(Step(true, Some(rules.default), []))
      else if Missing(value) then
        Success(Step(true, None, []))
      else if rules.kind == Str("string") then
        if !value.Str? then Success(Step(true, Some(Str(ToStr(value))), []))
        else
          var c := CheckString(value.s, rules, Param(param));
          Success(Step(c.valid, Some(Str(c.value)), c.issues))
      else if rules.kind == Str("number") then
        var n := if value.Num? then Some(value.n) else P.toNumber(value);
        if n.None? then Success(Step(false, None, [Issue(Param(param), NotNumber)]))
        else
          var c := CheckNumber(n.value, rules, Param(param));
          Success(Step(c.valid, Some(Num(c.value)), c.issues))
      else if rules.kind == Str("boolean") then
        if value.Bool? then Success(Step(true, Some(value), []))
        else if value.Str? then
          var lower := Lower(value.s);
          if lower in ["true", "1", "yes", "y"] then Success(Step(true, Some(Bool(true)), []))
          else if lower in ["false", "0", "no", "n"] then Success(Step(true, Some(Bool(false)), []))
          else Success(Step(false, None, [Issue(Param(param), NotBoolean)]))
        else Success(Step(true, Some(Bool(Truthy(value))), []))
      else if rules.kind == Str("array") then
        match AsArray(value, P)
        case None => Success(Step(false, None, [Issue(Param(param), NotArray)]))
        case Some(items) => Success(CheckArray(param, rules, items, P))
      else if rules.kind == Str("url") then
        match P.parseUrl(value)
        case None => Success(Step(false, None, [Issue(Param(param), BadUrl)]))
        case Some(url) =>
          if url.protocol in ["http:", "https:"] then Success(Step(true, Some(Str(url.href)), []))
          else Success(Step(false, None, [Issue(Param(param), NotHttp)]))
      else if rules.kind == Str("enum") then
        if !rules.values.Arr? then Failure(EnumWithoutValues(param))
        else if Includes(rules.values.items, value) then Success(Step(true, Some(value), []))
        else
          var vs := rules.values.items;
          var fallback := if rules.default != Undefined then rules.default
                          else if vs != [] then vs[0] else Undefined;
          Success(Step(false, Some(fallback), [Issue(Param(param), NotInEnum(vs))]))
      else Success(Step(true, Some(value), []))
  }

  /** Record one step in the result under the name `param`. */
  function Apply(acc: QueryResult, param: string, st: Step): QueryResult
  {
    QueryResult(
      acc.isValid && st.valid,
      if st.out.Some? then Put(acc.sanitized, param, st.out.value) else acc.sanitized,
      acc.errors + st.issues)
  }

  const Start: QueryResult := QueryResult(true, [], [])

  /** One iteration of the schema loop on the result so far. */
  function Visit(query: seq<(string, Value)>, acc: Result<QueryResult, Thrown>, entry: (string, SchemaEntry), P: Parsers)
    : Result<QueryResult, Thrown>
  {
    match acc
    case Failure(e) => Failure(e)
    case Success(a) =>
      match ParamStep(entry.0, entry.1, Lookup(query, entry.0), P)
      case Failure(e) => Failure(e)
      case Success(st) => Success(Apply(a, entry.0, st))
  }

  /** The result after the schema loop has run over `entries`, or what it
      threw. */
  function SchemaPass(query: seq<(string, Value)>, entries: Schema, P: Parsers): Result<QueryResult, Thrown>
    decreases |entries|
  {
    if entries == [] then Success(Start)
    else Visit(query, SchemaPass(query, entries[..|entries| - 1], P), entries[|entries| - 1], P)
  }

  /** Once an entry throws, the whole schema loop throws that. */
  lemma {:induction false} ThrowEndsTheLoop(query: seq<(string, Value)>, entries: Schema, k: nat, P: Parsers)
    requires k <= |entries|
    requires SchemaPass(query, entries[..k], P).Failure?
    ensures SchemaPass(query, entries, P) == SchemaPass(query, entries[..k], P)
    decreases |entries|
  {
    if k == |entries| {
      assert entries[..k] == entries;
    } else {
      var front := entries[..|entries| - 1];
      assert front[..k] == entries[..k];
      ThrowEndsTheLoop(query, front, k, P);
    }
  }

  function Names(schema: Schema): seq<string>
  {
    seq(|schema|, i requires 0 <= i < |schema| => schema[i].0)
  }

  /** `schema[param] !== undefined`: a schema names its own entries and,
      being an object literal, the inherited `Object.prototype` members. */
  predicate Defines(schema: Schema, name: string)
  {
    name in Names(schema) || name in ObjectPrototypeNames
  }

  function SchemaLookup(schema: Schema, name: string): Option<SchemaEntry>
    decreases |schema|
  {
    if schema == [] then None
    else if schema[0].0 == name then Some(schema[0].1)
    else SchemaLookup(schema[1..], name)
  }

  /** `schema._allowUnknown === true` */
  predicate AllowUnknown(schema: Schema)
  {
    SchemaLookup(schema, "_allowUnknown") == Some(Setting(Bool(true)))
  }

  /** The result after the unknown-parameter loop has run over `params`. */
  function UnknownPass(schema: Schema, params: seq<(string, Value)>, acc: QueryResult): QueryResult
    decreases |params|
  {
    if params == [] then acc
    else
      var prev := UnknownPass(schema, params[..|params| - 1], acc);
      var p := params[|params| - 1];
      if !Defines(schema, p.0) && AllowUnknown(schema)
      then prev.(sanitized := Put(prev.sanitized, p.0, p.1))
      else prev
  }

  /** What `validateAndSanitizeQuery(query, schema)` returns or throws. */
  function QuerySpec(query: seq<(string, Value)>, schema: Schema, P: Parsers): Result<QueryResult, Thrown>
  {
    match SchemaPass(query, schema, P)
    case Failure(e) => Failure(e)
    case Success(acc) => Success(UnknownPass(schema, query, acc))
  }

  /** The loop over the schema's entries. */
  method RunSchema(query: seq<(string, Value)>, schema: Schema, P: Parsers)
      returns (r: Result<QueryResult, Thrown>)
    ensures r == SchemaPass(query, schema, P)
  {
    var acc := Start;
    var i := 0;
    while i < |schema|
      invariant 0 <= i <= |schema|
      invariant SchemaPass(query, schema[..i], P) == Success(acc)
    {
      var param := schema[i].0;
      var step := ParamStep(param, schema[i].1, Lookup(query, param), P);
      assert schema[..i + 1][..i] == schema[..i];
      if step.Failure? {
        ThrowEndsTheLoop(query, schema, i + 1, P);
        assert schema[..|schema|] == schema;
        return Failure(step.error);
      }
      acc := Apply(acc, param, step.value);
      i := i + 1;
    }
    assert schema[..i] == schema;
    r := Success(acc);
  }

  /** The loop over the query's own parameters that keeps the ones the
      schema does not name when it allows unknown parameters. */
  method RunUnknown(schema: Schema, query: seq<(string, Value)>, acc: QueryResult) returns (r: QueryResult)
    ensures r == UnknownPass(schema, query, acc)
  {
    r := acc;
    var allowUnknown := AllowUnknown(schema);
    var j := 0;
    while j < |query|
      invariant 0 <= j <= |query|
      invariant UnknownPass(schema, query[..j], acc) == r
    {
      assert query[..j + 1][..j] == query[..j];
      var (param, value) := query[j];
      if !Defines(schema, param) && allowUnknown {
        r := r.(sanitized := Put(r.sanitized, param, value));
      }
      j := j + 1;
    }
    assert query[..j] == query;
  }

  /** `validateAndSanitizeQuery(query, schema)` */
  method ValidateAndSanitizeQuery(query: seq<(string, Value)>, schema: Schema, P: Parsers)
      returns (r: Result<QueryResult, Thrown>)
    ensures r == QuerySpec(query, schema, P)
  {
    var afterSchema := RunSchema(query, schema, P);
    if afterSchema.Failure? {
      return Failure(afterSchema.error);
    }
    var result := RunUnknown(schema, query, afterSchema.value);
    r := Success(result);
  }

  /** The names of a schema, being an object's keys, are unique. */
  ghost predicate DistinctNames(schema: Schema)
  {
    forall i, j :: 0 <= i < j < |schema| ==> schema[i].0 != schema[j].0
  }

  /** The schema loop writes only names it has visited. */
  lemma {:induction false} SchemaPassWritesOnlyNames(query: seq<(string, Value)>, entries: Schema, P: Parsers)
    requires SchemaPass(query, entries, P).Success?
    ensures forall k :: k in Keys(SchemaPass(query, entries, P).value.sanitized) ==> k in Names(entries)
    decreases |entries|
  {
    if entries != [] {
      var front := entries[..|entries| - 1];
      var last := entries[|entries| - 1];
      SchemaPassWritesOnlyNames(query, front, P);
      assert Names(entries) == Names(front) + [last.0];
    }
  }

  lemma {:induction false} SchemaPassValidIffNoErrors(query: seq<(string, Value)>, entries: Schema, P: Parsers)
    requires SchemaPass(query, entries, P).Success?
    ensures SchemaPass(query, entries, P).value.isValid <==> SchemaPass(query, entries, P).value.errors == []
    decreases |entries|
  {
    if entries != [] {
      SchemaPassValidIffNoErrors(query, entries[..|entries| - 1], P);
    }
  }

  /** Under the name of entry `i` the schema loop leaves exactly what that
      entry's step wrote, and it keeps that step's issues. */
  lemma {:induction false} SchemaPassEntry(query: seq<(string, Value)>, entries: Schema, P: Parsers, i: nat)
    requires DistinctNames(entries) && i < |entries|
    requires SchemaPass(query, entries, P).Success?
    ensures ParamStep(entries[i].0, entries[i].1, Lookup(query, entries[i].0), P).Success?
    ensures var st := ParamStep(entries[i].0, entries[i].1, Lookup(query, entries[i].0), P).value;
            var acc := SchemaPass(query, entries, P).value;
            (entries[i].0 in Keys(acc.sanitized) <==> st.out.Some?)
            && (st.out.Some? ==> Lookup(acc.sanitized, entries[i].0) == st.out.value)
            && (forall x :: x in st.issues ==> x in acc.errors)
            && (!st.valid ==> !acc.isValid)
    decreases |entries|
  {
    var n := |entries|;
    var front := entries[..n - 1];
    var last := entries[n - 1];
    var prev := SchemaPass(query, front, P).value;
    var stLast := ParamStep(last.0, last.1, Lookup(query, last.0), P).value;
    assert SchemaPass(query, entries, P).value == Apply(prev, last.0, stLast);
    if i == n - 1 {
      SchemaPassWritesOnlyNames(query, front, P);
      assert last.0 !in Names(front);
    } else {
      assert front[i] == entries[i];
      SchemaPassEntry(query, front, P, i);
    }
  }

  lemma UnknownPassKeepsDefined(schema: Schema, params: seq<(string, Value)>, acc: QueryResult, k: string)
    requires Defines(schema, k)
    ensures UnknownPass(schema, params, acc).isValid == acc.isValid
    ensures UnknownPass(schema, params, acc).errors == acc.errors
    ensures k in Keys(UnknownPass(schema, params, acc).sanitized) <==> k in Keys(acc.sanitized)
    ensures Lookup(UnknownPass(schema, params, acc).sanitized, k) == Lookup(acc.sanitized, k)
    decreases |params|
  {
    if params != [] {
      UnknownPassKeepsDefined(schema, params[..|params| - 1], acc, k);
    }
  }

  lemma {:induction false} UnknownPassCopies(schema: Schema, params: seq<(string, Value)>, acc: QueryResult, k: string)
    requires !Defines(schema, k) && k !in Keys(acc.sanitized) && DistinctKeys(params)
    ensures k in Keys(UnknownPass(schema, params, acc).sanitized) <==> AllowUnknown(schema) && k in Keys(params)
    ensures k in Keys(UnknownPass(schema, params, acc).sanitized)
            ==> Lookup(UnknownPass(schema, params, acc).sanitized, k) == Lookup(params, k)
    decreases |params|
  {
    if params != [] {
      var front := params[..|params| - 1];
      var last := params[|params| - 1];
      assert params == front + [last];
      LookupAppend(front, last, k);
      assert last.0 == k ==> k !in Keys(front);
      UnknownPassCopies(schema, front, acc, k);
    }
  }

  /** `isValid` is false exactly when some error was recorded. */
  lemma QueryValidIffNoErrors(query: seq<(string, Value)>, schema: Schema, P: Parsers)
    requires QuerySpec(query, schema, P).Success?
    ensures QuerySpec(query, schema, P).value.isValid <==> QuerySpec(query, schema, P).value.errors == []
  {
    SchemaPassValidIffNoErrors(query, schema, P);
    UnknownPassKeepsDefined(schema, query, SchemaPass(query, schema, P).value, "constructor");
  }

  /** Under a name the schema defines, the result holds exactly what that
      entry's step wrote, and it records that step's issues. */
  lemma QueryEntry(query: seq<(string, Value)>, schema: Schema, P: Parsers, i: nat)
    requires DistinctNames(schema) && i < |schema|
    requires QuerySpec(query, schema, P).Success?
    ensures ParamStep(schema[i].0, schema[i].1, Lookup(query, schema[i].0), P).Success?
    ensures var st := ParamStep(schema[i].0, schema[i].1, Lookup(query, schema[i].0), P).value;
            var r := QuerySpec(query, schema, P).value;
            (schema[i].0 in Keys(r.sanitized) <==> st.out.Some?)
            && (st.out.Some? ==> Lookup(r.sanitized, schema[i].0) == st.out.value)
            && (forall x :: x in st.issues ==> x in r.errors)
            && (!st.valid ==> !r.isValid)
  {
    SchemaPassEntry(query, schema, P, i);
    assert Names(schema)[i] == schema[i].0;
    UnknownPassKeepsDefined(schema, query, SchemaPass(query, schema, P).value, schema[i].0);
  }

  /** A required parameter that is `undefined`, `null` or `''` makes the
      result invalid with a "required" error and leaves no entry. */
  lemma RequiredMissingReported(query: seq<(string, Value)>, schema: Schema, P: Parsers, i: nat)
    requires DistinctNames(schema) && i < |schema|
    requires Truthy(RulesOf(schema[i].1).required) && Missing(Lookup(query, schema[i].0))
    requires QuerySpec(query, schema, P).Success?
    ensures !QuerySpec(query, schema, P).value.isValid
    ensures Issue(Param(schema[i].0), Required) in QuerySpec(query, schema, P).value.errors
    ensures schema[i].0 !in Keys(QuerySpec(query, schema, P).value.sanitized)
  {
    QueryEntry(query, schema, P, i);
  }

  /** A missing optional parameter gets its default without error, or no
      entry when it has none. */
  lemma MissingOptionalGetsDefault(query: seq<(string, Value)>, schema: Schema, P: Parsers, i: nat)
    requires DistinctNames(schema) && i < |schema|
    requires !Truthy(RulesOf(schema[i].1).required) && Missing(Lookup(query, schema[i].0))
    requires QuerySpec(query, schema, P).Success?
    ensures var r := QuerySpec(query, schema, P).value;
            var d := RulesOf(schema[i].1).default;
            (d != Undefined ==> schema[i].0 in Keys(r.sanitized) && Lookup(r.sanitized, schema[i].0) == d)
            && (d == Undefined ==> schema[i].0 !in Keys(r.sanitized))
  {
    QueryEntry(query, schema, P, i);
  }

  /** A number parameter ends up in `[min, max]`; a value `Number` cannot
      read gives an error and no entry. */
  lemma NumberClamped(query: seq<(string, Value)>, schema: Schema, P: Parsers, i: nat, rules: Rules)
    requires DistinctNames(schema) && i < |schema|
    requires schema[i].1 == Rule(rules) && rules.kind == Str("number")
    requires !Missing(Lookup(query, schema[i].0))
    requires QuerySpec(query, schema, P).Success?
    ensures var value := Lookup(query, schema[i].0);
            var n := if value.Num? then Some(value.n) else P.toNumber(value);
            var r := QuerySpec(query, schema, P).value;
            (n.None? ==> schema[i].0 !in Keys(r.sanitized) && Issue(Param(schema[i].0), NotNumber) in r.errors && !r.isValid)
            && (n.Some? ==> schema[i].0 in Keys(r.sanitized) && Lookup(r.sanitized, schema[i].0).Num?)
            && (n.Some? && rules.max.Some? ==> Lookup(r.sanitized, schema[i].0).n <= rules.max.value)
            && (n.Some? && rules.min.Some? && (rules.max.None? || rules.min.value <= rules.max.value)
                ==> rules.min.value <= Lookup(r.sanitized, schema[i].0).n)
            && (n.Some? && rules.min.Some? && n.value < rules.min.value
                ==> Issue(Param(schema[i].0), BelowMin(rules.min.value)) in r.errors)
            && (n.Some? && rules.max.Some? && n.value > rules.max.value
                ==> Issue(Param(schema[i].0), AboveMax(rules.max.value)) in r.errors)
            // The stored number: `min` below the range, `max` above it, the number itself inside it.
            && (n.Some? && rules.min.Some? && n.value < rules.min.value
                && (rules.max.None? || rules.min.value <= rules.max.value)
                ==> Lookup(r.sanitized, schema[i].0) == Num(rules.min.value))
            && (n.Some? && rules.max.Some? && n.value > rules.max.value
                ==> Lookup(r.sanitized, schema[i].0) == Num(rules.max.value))
            && (n.Some? && (rules.min.None? || rules.min.value <= n.value)
                && (rules.max.None? || n.value <= rules.max.value)
                ==> Lookup(r.sanitized, schema[i].0) == Num(n.value))
  {
    QueryEntry(query, schema, P, i);
  }

  /** A boolean parameter: a boolean is kept, the strings `true`, `1`, `yes`,
      `y` and `false`, `0`, `no`, `n` (in any ASCII case) become `true` and
      `false`, any other string is an error with no entry, and any other
      value becomes its truthiness. */
  lemma BooleanParsed(query: seq<(string, Value)>, schema: Schema, P: Parsers, i: nat, rules: Rules)
    requires DistinctNames(schema) && i < |schema|
    requires schema[i].1 == Rule(rules) && rules.kind == Str("boolean")
    requires !Missing(Lookup(query, schema[i].0))
    requires QuerySpec(query, schema, P).Success?
    ensures var value := Lookup(query, schema[i].0);
            var name := schema[i].0;
            var r := QuerySpec(query, schema, P).value;
            (value.Bool? ==> name in Keys(r.sanitized) && Lookup(r.sanitized, name) == value)
            && (value.Str? && Lower(value.s) in ["true", "1", "yes", "y"]
                ==> name in Keys(r.sanitized) && Lookup(r.sanitized, name) == Bool(true))
            && (value.Str? && Lower(value.s) in ["false", "0", "no", "n"]
                ==> name in Keys(r.sanitized) && Lookup(r.sanitized, name) == Bool(false))
            && (value.Str? && Lower(value.s) !in ["true", "1", "yes", "y", "false", "0", "no", "n"]
                ==> name !in Keys(r.sanitized) && Issue(Param(name), NotBoolean) in r.errors && !r.isValid)
            && (!value.Bool? && !value.Str?
                ==> name in Keys(r.sanitized) && Lookup(r.sanitized, name) == Bool(Truthy(value)))
  {
    QueryEntry(query, schema, P, i);
  }

  /** A URL parameter is stored as the parsed URL's `href` exactly when its
      protocol is `http:` or `https:`; another protocol or a value `new URL`
      rejects is an error with no entry. */
  lemma UrlOnlyHttp(query: seq<(string, Value)>, schema: Schema, P: Parsers, i: nat, rules: Rules)
    requires DistinctNames(schema) && i < |schema|
    requires schema[i].1 == Rule(rules) && rules.kind == Str("url")
    requires !Missing(Lookup(query, schema[i].0))
    requires QuerySpec(query, schema, P).Success?
    ensures var url := P.parseUrl(Lookup(query, schema[i].0));
            var name := schema[i].0;
            var r := QuerySpec(query, schema, P).value;
            (url.None? ==> name !in Keys(r.sanitized) && Issue(Param(name), BadUrl) in r.errors && !r.isValid)
            && (url.Some? ==> (name in Keys(r.sanitized) <==> url.value.protocol in ["http:", "https:"]))
            && (url.Some? && url.value.protocol in ["http:", "https:"]
                ==> Lookup(r.sanitized, name) == Str(url.value.href))
            && (url.Some? && url.value.protocol !in ["http:", "https:"]
                ==> Issue(Param(name), NotHttp) in r.errors && !r.isValid)
  {
    QueryEntry(query, schema, P, i);
  }

  /** An enum value outside `values` makes the result invalid and is replaced
      by the default, or else by the first value. */
  lemma EnumFallback(query: seq<(string, Value)>, schema: Schema, P: Parsers, i: nat, rules: Rules)
    requires DistinctNames(schema) && i < |schema|
    requires schema[i].1 == Rule(rules) && rules.kind == Str("enum") && rules.values.Arr?
    requires !Missing(Lookup(query, schema[i].0)) && !Includes(rules.values.items, Lookup(query, schema[i].0))
    requires QuerySpec(query, schema, P).Success?
    ensures var r := QuerySpec(query, schema, P).value;
            var vs := rules.values.items;
            !r.isValid
            && Issue(Param(schema[i].0), NotInEnum(vs)) in r.errors
            && Lookup(r.sanitized, schema[i].0)
               == if rules.default != Undefined then rules.default else if vs != [] then vs[0] else Undefined
  {
    QueryEntry(query, schema, P, i);
  }

  /** An enum rule without a `values` array throws once a value is given. */
  lemma EnumWithoutValuesThrows(query: seq<(string, Value)>, schema: Schema, P: Parsers, i: nat)
    requires i < |schema| && schema[i].1.Rule?
    requires schema[i].1.rules.kind == Str("enum") && !schema[i].1.rules.values.Arr?
    requires !Missing(Lookup(query, schema[i].0))
    ensures QuerySpec(query, schema, P).Failure?
  {
    assert schema[..i + 1][..i] == schema[..i];
    assert SchemaPass(query, schema[..i + 1], P).Failure?;
    ThrowEndsTheLoop(query, schema, i + 1, P);
    assert schema[..|schema|] == schema;
  }

  /** A string longer than `maxLength` is reported and cut to exactly
      `maxLength` characters. */
  lemma StringTruncated(query: seq<(string, Value)>, schema: Schema, P: Parsers, i: nat, rules: Rules, s: string)
    requires DistinctNames(schema) && i < |schema|
    requires schema[i].1 == Rule(rules) && rules.kind == Str("string")
    requires Lookup(query, schema[i].0) == Str(s) && s != ""
    requires rules.maxLength.Some? && 0 <= rules.maxLength.value < |Cleaned(s, rules)|
    requires QuerySpec(query, schema, P).Success?
    ensures var r := QuerySpec(query, schema, P).value;
            !r.isValid
            && Issue(Param(schema[i].0), TooLong(rules.maxLength.value)) in r.errors
            && Lookup(r.sanitized, schema[i].0) == Str(Cleaned(s, rules)[..rules.maxLength.value])
            && |Lookup(r.sanitized, schema[i].0).s| == rules.maxLength.value
  {
    QueryEntry(query, schema, P, i);
  }

  /** An array longer than `maxItems` is reported and cut to exactly
      `maxItems` items. */
  lemma ArrayTruncated(query: seq<(string, Value)>, schema: Schema, P: Parsers, i: nat, rules: Rules, items: seq<Value>)
    requires DistinctNames(schema) && i < |schema|
    requires schema[i].1 == Rule(rules) && rules.kind == Str("array")
    requires !Missing(Lookup(query, schema[i].0)) && AsArray(Lookup(query, schema[i].0), P) == Some(items)
    requires rules.maxItems.Some? && 0 <= rules.maxItems.value < |items|
    requires QuerySpec(query, schema, P).Success?
    ensures var r := QuerySpec(query, schema, P).value;
            !r.isValid
            && Issue(Param(schema[i].0), TooManyItems(rules.maxItems.value)) in r.errors
            && Lookup(r.sanitized, schema[i].0).Arr?
            && |Lookup(r.sanitized, schema[i].0).items| == rules.maxItems.value
            // The first `maxItems` items are the ones kept.
            && (!HasItemRules(rules)
                ==> Lookup(r.sanitized, schema[i].0).items == items[..rules.maxItems.value])
            && (HasItemRules(rules) ==> forall j :: 0 <= j < rules.maxItems.value ==>
                  Lookup(r.sanitized, schema[i].0).items[j]
                  == CheckItem(items[..rules.maxItems.value], rules.items.value, schema[i].0, j, P).value)
  {
    QueryEntry(query, schema, P, i);
  }

  /** A query parameter the schema does not name is copied into the result
      exactly when `_allowUnknown` is `true`. */
  lemma UnknownParamPolicy(query: seq<(string, Value)>, schema: Schema, P: Parsers, k: string)
    requires DistinctKeys(query) && !Defines(schema, k)
    requires QuerySpec(query, schema, P).Success?
    ensures var r := QuerySpec(query, schema, P).value;
            (k in Keys(r.sanitized) <==> AllowUnknown(schema) && k in Keys(query))
            && (k in Keys(r.sanitized) ==> Lookup(r.sanitized, k) == Lookup(query, k))
  {
    SchemaPassWritesOnlyNames(query, schema, P);
    UnknownPassCopies(schema, query, SchemaPass(query, schema, P).value, k);
  }
}
