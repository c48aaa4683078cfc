/** utils/security/envConfig.js: the `EnvConfig` class over the process
    environment, which is the map field `env` here. Loading the `.env` file is
    I/O and not part of this model: `env` starts as whatever the process
    environment holds once that file has been read. */
module Environment {
  import opened Common
  import opened Text
  import opened Js

  const DefaultSensitiveVars: seq<string> := ["PASSWORD", "SECRET", "KEY", "TOKEN", "AUTH", "CREDENTIAL"]

  /** The constructor's options; a list or object left out is `None`,
      `maskSensitive` left out is `Undefined`. A validator is a function of
      the variable's text; `defaults` lists the object's entries in order. */
  datatype EnvOptions = EnvOptions(
    requiredVars: Option<seq<string>>,
    optionalVars: Option<seq<string>>,
    defaults: Option<seq<(string, string)>>,
    validators: Option<map<string, string -> bool>>,
    maskSensitive: Value,
    sensitiveVars: Option<seq<string>>)

  datatype EnvSettings = EnvSettings(
    requiredVars: seq<string>,
    optionalVars: seq<string>,
    defaults: seq<(string, string)>,
    validators: map<string, string -> bool>,
    maskSensitive: Value,
    sensitiveVars: seq<string>)

  /** `this.config`: every list and object falls back to an empty one,
      `maskSensitive` to `true` and `sensitiveVars` to the six patterns. */
  function SettingsOf(o: EnvOptions): (c: EnvSettings)
    // A given list or object is kept; one left out becomes empty.
    ensures c.requiredVars == (if o.requiredVars.Some? then o.requiredVars.value else [])
    ensures c.optionalVars == (if o.optionalVars.Some? then o.optionalVars.value else [])
    ensures c.defaults == (if o.defaults.Some? then o.defaults.value else [])
    ensures c.validators == (if o.validators.Some? then o.validators.value else map[])
    ensures o.maskSensitive == Undefined ==> c.maskSensitive == Bool(true)
    ensures o.maskSensitive != Undefined ==> c.maskSensitive == o.maskSensitive
    ensures c.sensitiveVars == (if o.sensitiveVars.Some? then o.sensitiveVars.value else DefaultSensitiveVars)
  {
    EnvSettings(
      if o.requiredVars.Some? then o.requiredVars.value else [],
      if o.optionalVars.Some? then o.optionalVars.value else [],
      if o.defaults.Some? then o.defaults.value else [],
      if o.validators.Some? then o.validators.value else map[],
      if o.maskSensitive != Undefined then o.maskSensitive else Bool(true),
      if o.sensitiveVars.Some? then o.sensitiveVars.value else DefaultSensitiveVars)
  }

  /** The defaults step of `loadEnv`, entry by entry: a variable is set only
      while it is still undefined. */
  function ApplyDefaults(env: map<string, string>, ds: seq<(string, string)>): map<string, string>
    decreases |ds|
  {
    if ds == [] then env
    else
      var e := ApplyDefaults(env, ds[..|ds| - 1]);
      var last := ds[|ds| - 1];
      if last.0 in e then e else e[last.0 := last.1]
  }

  /** The value of the first entry of `ds` named `k`. */
  function DefaultFor(ds: seq<(string, string)>, k: string): Option<string>
    decreases |ds|
  {
    if ds == [] then None
    else
      var f := DefaultFor(ds[..|ds| - 1], k);
      if f.Some? then f else if ds[|ds| - 1].0 == k then Some(ds[|ds| - 1].1) else None
  }

  /** Defaults never overwrite: a variable that was set keeps its value, one
      that was not gets its first default, and no other variable appears. */
  lemma {:induction false} DefaultsOnlyFillGaps(env: map<string, string>, ds: seq<(string, string)>)
    ensures forall k :: k in ApplyDefaults(env, ds) <==> k in env || DefaultFor(ds, k).Some?
    ensures forall k :: k in env ==> ApplyDefaults(env, ds)[k] == env[k]
    ensures forall k :: k !in env && DefaultFor(ds, k).Some? ==> ApplyDefaults(env, ds)[k] == DefaultFor(ds, k).value
    decreases |ds|
  {
    if ds != [] {
      DefaultsOnlyFillGaps(env, ds[..|ds| - 1]);
    }
  }

  /** The validator of `name` exists and rejects the variable's value. */
  predicate Fails(env: map<string, string>, validators: map<string, string -> bool>, name: string)
  {
    name in env && name in validators && !validators[name](env[name])
  }

  /** The names of `names` that are undefined, in order. */
  function MissingVars(env: map<string, string>, names: seq<string>): seq<string>
    decreases |names|
  {
    if names == [] then []
    else
      var n := names[|names| - 1];
      MissingVars(env, names[..|names| - 1]) + (if n !in env then [n] else [])
  }

  /** The names of `names` that are defined and fail their validator, in order. */
  function InvalidVars(env: map<string, string>, validators: map<string, string -> bool>, names: seq<string>): seq<string>
    decreases |names|
  {
    if names == [] then []
    else
      var n := names[|names| - 1];
      InvalidVars(env, validators, names[..|names| - 1]) + (if Fails(env, validators, n) then [n] else [])
  }

  lemma {:induction false} MissingVarsMembers(env: map<string, string>, names: seq<string>)
    ensures forall n :: n in MissingVars(env, names) <==> n in names && n !in env
    decreases |names|
  {
    if names != [] {
      MissingVarsMembers(env, names[..|names| - 1]);
      assert names == names[..|names| - 1] + [names[|names| - 1]];
    }
  }

  lemma {:induction false} InvalidVarsMembers(env: map<string, string>, validators: map<string, string -> bool>, names: seq<string>)
    ensures forall n :: n in InvalidVars(env, validators, names) <==> n in names && Fails(env, validators, n)
    decreases |names|
  {
    if names != [] {
      InvalidVarsMembers(env, validators, names[..|names| - 1]);
      assert names == names[..|names| - 1] + [names[|names| - 1]];
    }
  }

  /** `validateEnv` fails exactly when a required variable is undefined or
      rejected by its validator, or a defined optional one is rejected. */
  lemma ValidationFailsIff(env: map<string, string>, c: EnvSettings)
    ensures (MissingVars(env, c.requiredVars) == []
             && InvalidVars(env, c.validators, c.requiredVars) + InvalidVars(env, c.validators, c.optionalVars) == [])
            <==>
            (forall n :: n in c.requiredVars ==> n in env && !Fails(env, c.validators, n))
            && (forall n :: n in c.optionalVars ==> !Fails(env, c.validators, n))
  {
    MissingVarsMembers(env, c.requiredVars);
    InvalidVarsMembers(env, c.validators, c.requiredVars);
    InvalidVarsMembers(env, c.validators, c.optionalVars);
    var m := MissingVars(env, c.requiredVars);
    var i := InvalidVars(env, c.validators, c.requiredVars) + InvalidVars(env, c.validators, c.optionalVars);
    if m != [] { assert m[0] in m; }
    if i != [] {
      assert i[0] in i;
      if InvalidVars(env, c.validators, c.requiredVars) != [] {
        assert InvalidVars(env, c.validators, c.requiredVars)[0] in InvalidVars(env, c.validators, c.requiredVars);
      } else {
        assert InvalidVars(env, c.validators, c.optionalVars)[0] in InvalidVars(env, c.validators, c.optionalVars);
      }
    }
  }

  /** The texts `getBoolean` reads as true. */
  const TrueForms: seq<string> := ["true", "1", "yes", "y"]

  /** `envValidators.isBoolean(value)`: one of the eight forms, in any case. */
  predicate IsBoolean(value: string)
  {
    Lower(value) in ["true", "false", "1", "0", "yes", "no", "y", "n"]
  }

  /** `envValidators.notEmpty(value)`: `undefined` and `null` fail, a string
      passes unless it is all white space, and any other value has no `trim`,
      so the call throws. */
  function NotEmpty(value: Value): (r: Result<bool, string>)
    ensures value.Undefined? || value.Null? ==> r == Success(false)
    ensures value.Str? ==> (r == Success(true) <==> exists i :: 0 <= i < |value.s| && !IsSpace(value.s[i]))
    ensures value.Str? ==> r.Success?
    ensures !value.Undefined? && !value.Null? && !value.Str? ==> r.Failure?
  {
    if value.Undefined? || value.Null? then Success(false)
    else if value.Str? then
      TrimEmpty(value.s);
      Success(Trim(value.s) != "")
    else Failure("TypeError: value.trim is not a function")
  }

  /** A variable name `getAll` masks: its upper-case form contains one of
      the sensitive patterns. */
  predicate Sensitive(key: string, patterns: seq<string>)
  {
    exists p :: p in patterns && Contains(Upper(key), p)
  }

  lemma UpperOfLower(s: string)
    ensures Upper(Lower(s)) == Upper(s)
  {
  }

  lemma LowerOfUpper(s: string)
    ensures Lower(Upper(s)) == Lower(s)
  {
  }

  /** Masking does not depend on how the name is cased. */
  lemma SensitiveIgnoresCase(key: string, patterns: seq<string>)
    ensures Sensitive(Lower(key), patterns) <==> Sensitive(key, patterns)
    ensures Sensitive(Upper(key), patterns) <==> Sensitive(key, patterns)
  {
    UpperOfLower(key);
    assert Upper(Upper(key)) == Upper(key);
  }

  /** `isBoolean` does not depend on case either. */
  lemma IsBooleanIgnoresCase(value: string)
    ensures IsBoolean(Upper(value)) <==> IsBoolean(value)
  {
    LowerOfUpper(value);
  }

  /** A parameter declared `= null`: an omitted or `undefined` argument
      takes the value `null`. */
  function OrNull(v: Value): Value
  {
    if v == Undefined then Null else v
  }

  class EnvConfig {
    const config: EnvSettings
    /** `process.env`: every defined variable and its text. */
    var env: map<string, string>

    /** `new EnvConfig(options)` on the process environment `processEnv`:
        it applies the defaults and then validates, whose verdict is only
        logged. */
    constructor (options: EnvOptions, processEnv: map<string, string>)
      ensures config == SettingsOf(options)
      ensures env == ApplyDefaults(processEnv, config.defaults)
    {
      config := SettingsOf(options);
      env := processEnv;
      new;
      LoadEnv();
      var _, _, _ := ValidateEnv();
    }

    /** The defaults step of `loadEnv`. */
    method LoadEnv()
      modifies this
      ensures env == ApplyDefaults(old(env), config.defaults)
    {
      var ds := config.defaults;
      var i := 0;
      while i < |ds|
        invariant 0 <= i <= |ds|
        invariant env == ApplyDefaults(old(env), ds[..i])
      {
        assert ds[..i + 1][..i] == ds[..i];
        if ds[i].0 !in env {
          env := env[ds[i].0 := ds[i].1];
        }
        i := i + 1;
      }
      assert ds[..|ds|] == ds;
    }

    /** `validateEnv()`: the verdict, with the lists it reports. */
    method ValidateEnv() returns (isValid: bool, missing: seq<string>, invalid: seq<string>)
      ensures missing == MissingVars(env, config.requiredVars)
      ensures invalid == InvalidVars(env, config.validators, config.requiredVars)
                         + InvalidVars(env, config.validators, config.optionalVars)
      ensures isValid <==> missing == [] && invalid == []
    {
      isValid := true;
      missing := [];
      var invalidRequired := [];
      var req := config.requiredVars;
      var i := 0;
      while i < |req|
        invariant 0 <= i <= |req|
        invariant missing == MissingVars(env, req[..i])
        invariant invalidRequired == InvalidVars(env, config.validators, req[..i])
        invariant isValid <==> missing == [] && invalidRequired == []
      {
        assert req[..i + 1][..i] == req[..i];
        var name := req[i];
        if name !in env {
          missing := missing + [name];
          isValid := false;
        } else if name in config.validators && !config.validators[name](env[name]) {
          invalidRequired := invalidRequired + [name];
          isValid := false;
        }
        i := i + 1;
      }
      assert req[..|req|] == req;
      invalid := invalidRequired;
      var opt := config.optionalVars;
      var j := 0;
      while j < |opt|
        invariant 0 <= j <= |opt|
        invariant invalid == invalidRequired + InvalidVars(env, config.validators, opt[..j])
        invariant isValid <==> missing == [] && invalid == []
      {
        assert opt[..j + 1][..j] == opt[..j];
        var name := opt[j];
        if name in env && name in config.validators && !config.validators[name](env[name]) {
          invalid := invalid + [name];
          isValid := false;
        }
        j := j + 1;
      }
      assert opt[..|opt|] == opt;
    }

    /** `get(name, defaultValue = null)`: the variable's text, else the
        default, where an omitted or `undefined` default reads as `null`. */
    function Get(name: string, defaultValue: Value): (r: Value)
      reads this
      ensures name in env ==> r == Str(env[name])
      ensures name !in env && defaultValue != Undefined ==> r == defaultValue
      ensures name !in env && defaultValue == Undefined ==> r == Null
    {
      if name in env then Str(env[name]) else OrNull(defaultValue)
    }

    /** `getBoolean(name, defaultValue = null)`: the default when unset
        (`null` for an omitted or `undefined` one), else whether the value is
        one of the true forms in any case. */
    function GetBoolean(name: string, defaultValue: Value): (r: Value)
      reads this
      ensures name !in env && defaultValue != Undefined ==> r == defaultValue
      ensures name !in env && defaultValue == Undefined ==> r == Null
      ensures name in env ==> r.Bool? && (r.b <==> Lower(env[name]) in TrueForms)
    {
      if Get(name, Null) == Null then OrNull(defaultValue) else Bool(Lower(env[name]) in TrueForms)
    }

    /** `NODE_ENV` in lower case, `''` when unset. */
    function NodeEnv(): string
      reads this
    {
      Lower(Get("NODE_ENV", Str("")).s)
    }

    function IsProduction(): (b: bool)
      reads this
      ensures b <==> "NODE_ENV" in env && Lower(env["NODE_ENV"]) == "production"
      ensures b ==> !IsDevelopment()
    {
      NodeEnv() == "production"
    }

    function IsDevelopment(): (b: bool)
      reads this
      ensures b <==> "NODE_ENV" !in env || Lower(env["NODE_ENV"]) in ["development", ""]
    {
      NodeEnv() == "development" || NodeEnv() == ""
    }

    function IsTest(): (b: bool)
      reads this
      ensures b <==> "NODE_ENV" in env && Lower(env["NODE_ENV"]) == "test"
      ensures b ==> !IsProduction() && !IsDevelopment()
    {
      NodeEnv() == "test"
    }

    /** `getAll(maskSensitive)`: every variable, with the sensitive ones shown
        as `******` when masking is on. An argument of `null` or `undefined`
        leaves the choice to the configuration. */
    method GetAll(maskArg: Value) returns (r: map<string, string>)
      ensures r.Keys == env.Keys
      ensures forall k :: k in r ==>
                r[k] == if Truthy(if maskArg.Null? || maskArg.Undefined? then config.maskSensitive else maskArg)
                           && Sensitive(k, config.sensitiveVars)
                        then "******" else env[k]
    {
      var shouldMask := if maskArg.Null? || maskArg.Undefined? then config.maskSensitive else maskArg;
      r := map[];
      var rest := env.Keys;
      while rest != {}
        invariant rest <= env.Keys
        invariant r.Keys == env.Keys - rest
        invariant forall k :: k in r ==>
                    r[k] == if Truthy(shouldMask) && Sensitive(k, config.sensitiveVars) then "******" else env[k]
        decreases rest
      {
        var k :| k in rest;
        var isSensitive := Truthy(shouldMask) && Sensitive(k, config.sensitiveVars);
        r := r[k := if isSensitive then "******" else env[k]];
        rest := rest - {k};
      }
    }
  }

  /** After construction, `get` finds the process's own value, else the first
      default, else the caller's fallback. */
  lemma GetAfterDefaults(e: EnvConfig, processEnv: map<string, string>, name: string, fallback: Value)
    requires e.env == ApplyDefaults(processEnv, e.config.defaults)
    ensures name in processEnv ==> e.Get(name, fallback) == Str(processEnv[name])
    ensures name !in processEnv && DefaultFor(e.config.defaults, name).Some?
            ==> e.Get(name, fallback) == Str(DefaultFor(e.config.defaults, name).value)
    ensures name !in processEnv && DefaultFor(e.config.defaults, name).None? ==> e.Get(name, fallback) == OrNull(fallback)
  {
    DefaultsOnlyFillGaps(processEnv, e.config.defaults);
  }

  /** A variable that is defined and passes `isBoolean` reads as false exactly
      when it is one of the four false forms. */
  lemma GetBooleanOnBooleans(e: EnvConfig, name: string, defaultValue: Value)
    requires name in e.env && IsBoolean(e.env[name])
    ensures e.GetBoolean(name, defaultValue) == Bool(false) <==> Lower(e.env[name]) in ["false", "0", "no", "n"]
  {
  }
}
