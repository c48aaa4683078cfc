/** `createEnhancedCorsConfig` of utils/security/cors.js: the option
    defaults, the response-header settings and the `origin` decision, with
    the hostname that `new URL(origin)` yields taken as an input. */
module Cors {
  import opened Common
  import opened Text
  import opened Js

  const DefaultAllowedDomains: seq<string> :=
    ["localhost", "127.0.0.1", "zerocat.houlangs.com", "zerocat.wuyuan.dev", "z.8r.ink",
     "zerocatdev.github.io", "zeronext.wuyuan.dev", "scratch.190823.xyz", "scratch-editor.192325.xyz"]
  const DefaultMethods: seq<string> := ["GET", "HEAD", "PUT", "PATCH", "POST", "DELETE"]
  const DefaultHeaders: seq<string> := ["Content-Type", "Authorization", "X-Requested-With"]
  const DefaultExposed: seq<string> := ["X-RateLimit-Limit", "X-RateLimit-Remaining", "X-RateLimit-Reset"]
  const DefaultMaxAge := 86400

  /** The caller's options; a list or number left out is `None`, a flag left
      out is `Undefined`. */
  datatype CorsOptions = CorsOptions(
    allowedDomains: Option<seq<string>>,
    allowedMethods: Option<seq<string>>,
    allowedHeaders: Option<seq<string>>,
    exposedHeaders: Option<seq<string>>,
    maxAge: Option<int>,
    credentials: Value,
    strictDomainMatching: Value,
    enableWildcardSubdomains: Value,
    logViolations: Value)

  const NoOptions := CorsOptions(None, None, None, None, None, Undefined, Undefined, Undefined, Undefined)

  datatype CorsConfig = CorsConfig(
    allowedDomains: seq<string>,
    allowedMethods: seq<string>,
    allowedHeaders: seq<string>,
    exposedHeaders: seq<string>,
    maxAge: int,
    credentials: Value,
    strictDomainMatching: Value,
    enableWildcardSubdomains: Value,
    logViolations: Value)

  /** `x !== undefined ? x : d` */
  function Given(x: Value, d: Value): Value
  {
    if x != Undefined then x else d
  }

  /** The merged `config`: lists fall back when left out, `maxAge` also when
      it is `0`, flags only when they are `undefined`. */
  function ConfigOf(o: CorsOptions): (c: CorsConfig)
    // A given list is kept; one left out takes its default.
    ensures c.allowedDomains == (if o.allowedDomains.Some? then o.allowedDomains.value else DefaultAllowedDomains)
    ensures c.allowedMethods == (if o.allowedMethods.Some? then o.allowedMethods.value else DefaultMethods)
    ensures c.allowedHeaders == (if o.allowedHeaders.Some? then o.allowedHeaders.value else DefaultHeaders)
    ensures c.exposedHeaders == (if o.exposedHeaders.Some? then o.exposedHeaders.value else DefaultExposed)
    ensures c.maxAge == (if o.maxAge.Some? && o.maxAge.value != 0 then o.maxAge.value else DefaultMaxAge)
    // A given flag is kept, even when it is falsy; only `undefined` takes the default.
    ensures c.credentials == (if o.credentials == Undefined then Bool(true) else o.credentials)
    ensures c.strictDomainMatching == (if o.strictDomainMatching == Undefined then Bool(true) else o.strictDomainMatching)
    ensures c.enableWildcardSubdomains
            == (if o.enableWildcardSubdomains == Undefined then Bool(false) else o.enableWildcardSubdomains)
    ensures c.logViolations == (if o.logViolations == Undefined then Bool(true) else o.logViolations)
  {
    CorsConfig(
      if o.allowedDomains.Some? then o.allowedDomains.value else DefaultAllowedDomains,
      if o.allowedMethods.Some? then o.allowedMethods.value else DefaultMethods,
      if o.allowedHeaders.Some? then o.allowedHeaders.value else DefaultHeaders,
      if o.exposedHeaders.Some? then o.exposedHeaders.value else DefaultExposed,
      if o.maxAge.Some? && o.maxAge.value != 0 then o.maxAge.value else DefaultMaxAge,
      Given(o.credentials, Bool(true)),
      Given(o.strictDomainMatching, Bool(true)),
      Given(o.enableWildcardSubdomains, Bool(false)),
      Given(o.logViolations, Bool(true)))
  }

  /** The settings of the returned object besides `origin`. */
  datatype CorsSettings = CorsSettings(
    methods: string,
    allowedHeaders: string,
    exposedHeaders: string,
    maxAge: int,
    credentials: Value,
    preflightContinue: bool,
    optionsSuccessStatus: int)

  function SettingsOf(c: CorsConfig): (s: CorsSettings)
    ensures s.maxAge == c.maxAge && s.credentials == c.credentials
    ensures !s.preflightContinue && s.optionsSuccessStatus == 204
    ensures s.methods == Join(c.allowedMethods, ",")
    ensures s.allowedHeaders == Join(c.allowedHeaders, ",")
    ensures s.exposedHeaders == Join(c.exposedHeaders, ",")
  {
    CorsSettings(Join(c.allowedMethods, ","), Join(c.allowedHeaders, ","), Join(c.exposedHeaders, ","),
                 c.maxAge, c.credentials, false, 204)
  }

  /** With no options: credentials on, a day of preflight caching and the
      six methods joined by commas. */
  lemma DefaultSettings()
    ensures SettingsOf(ConfigOf(NoOptions)).credentials == Bool(true)
    ensures SettingsOf(ConfigOf(NoOptions)).maxAge == 86400
    ensures SettingsOf(ConfigOf(NoOptions)).methods == "GET,HEAD,PUT,PATCH,POST,DELETE"
    ensures ConfigOf(NoOptions).allowedDomains == DefaultAllowedDomains
  {
    MethodsJoined();
  }

  lemma MethodsJoined()
    ensures Join(DefaultMethods, ",") == "GET,HEAD,PUT,PATCH,POST,DELETE"
  {
    var m := DefaultMethods;
    assert m[5..] == ["DELETE"];
    assert Join(m[5..], ",") == "DELETE";
    assert m[4..][1..] == m[5..];
    assert Join(m[4..], ",") == "POST" + "," + "DELETE";
    assert m[3..][1..] == m[4..];
    assert Join(m[3..], ",") == "PATCH" + "," + "POST,DELETE";
    assert m[2..][1..] == m[3..];
    assert Join(m[2..], ",") == "PUT" + "," + "PATCH,POST,DELETE";
    assert m[1..][1..] == m[2..];
    assert Join(m[1..], ",") == "HEAD" + "," + "PUT,PATCH,POST,DELETE";
    assert Join(m, ",") == "GET" + "," + "HEAD,PUT,PATCH,POST,DELETE";
  }

  /** One entry of the allow-list in loose matching: `*.base` covers `base`
      and every name ending in `.base` when wildcards are on; any other entry
      only itself. */
  predicate DomainMatches(c: CorsConfig, host: string, domain: string)
  {
    if Truthy(c.enableWildcardSubdomains) && StartsWith(domain, "*.") then
      var base := domain[2..];
      host == base || EndsWith(host, "." + base)
    else host == domain
  }

  predicate HostAllowed(c: CorsConfig, host: string)
  {
    if Truthy(c.strictDomainMatching) then host in c.allowedDomains
    else exists d :: d in c.allowedDomains && DomainMatches(c, host, d)
  }

  /** What the `origin` callback is called with; a rejection may also log a
      warning. */
  datatype OriginDecision =
    | Allow                                               // callback(null, true)
    | Reject(message: string, warning: Option<string>)    // callback(new Error(message))

  /** The `origin` check for the `Origin` header `origin`. `hostname` is what
      `new URL(origin).hostname` gives, `None` when that throws; `nodeEnv` is
      `NODE_ENV`. */
  function DecideOrigin(c: CorsConfig, origin: Value, hostname: Option<string>, nodeEnv: Option<string>): (d: OriginDecision)
    ensures d == Allow <==>
              (!Truthy(origin) || nodeEnv == Some("development") || (hostname.Some? && HostAllowed(c, hostname.value)))
    ensures d.Reject? && hostname.None? ==> d.message == "Invalid origin"
    ensures d.Reject? && hostname.Some? ==> d.message == "Origin " + ToStr(origin) + " not allowed by CORS policy"
    ensures d.Reject? && d.warning.Some? ==> Truthy(c.logViolations)
    ensures d.Reject? && hostname.Some? && Truthy(c.logViolations) ==>
              d.warning == Some("CORS violation: " + ToStr(origin) + " attempted to access the API")
    ensures d.Reject? && hostname.None? ==> d.warning.None?
  {
    if !Truthy(origin) || nodeEnv == Some("development") then Allow
    else if hostname.None? then Reject("Invalid origin", None)
    else if HostAllowed(c, hostname.value) then Allow
    else
      var warning := if Truthy(c.logViolations)
                     then Some("CORS violation: " + ToStr(origin) + " attempted to access the API") else None;
      Reject("Origin " + ToStr(origin) + " not allowed by CORS policy", warning)
  }

  /** In strict mode, the default, a hostname passes exactly when it is one
      of the allowed domains. */
  lemma StrictIsExactMembership(o: CorsOptions, origin: Value, host: string, nodeEnv: Option<string>)
    requires o.strictDomainMatching == Undefined
    requires Truthy(origin) && nodeEnv != Some("development")
    ensures DecideOrigin(ConfigOf(o), origin, Some(host), nodeEnv) == Allow <==> host in ConfigOf(o).allowedDomains
  {
  }

  /** A wildcard entry `*.base` admits `base` itself and every name ending in
      `.base`. */
  lemma WildcardAdmitsBaseAndSubdomains(c: CorsConfig, base: string, sub: string)
    requires !Truthy(c.strictDomainMatching) && Truthy(c.enableWildcardSubdomains)
    requires "*." + base in c.allowedDomains
    ensures HostAllowed(c, base)
    ensures HostAllowed(c, sub + "." + base)
  {
    var d := "*." + base;
    assert StartsWith(d, "*.") && d[2..] == base;
    assert DomainMatches(c, base, d);
    var h := sub + "." + base;
    assert h[|h| - |"." + base|..] == "." + base;
    assert DomainMatches(c, h, d);
  }

  /** ... but not a name that merely ends in `base` without a dot before it. */
  lemma WildcardRejectsGluedPrefix(c: CorsConfig, base: string, prefix: string)
    requires Truthy(c.enableWildcardSubdomains)
    requires prefix != "" && prefix[|prefix| - 1] != '.'
    ensures !DomainMatches(c, prefix + base, "*." + base)
  {
    var d := "*." + base;
    assert StartsWith(d, "*.") && d[2..] == base;
    var h := prefix + base;
    var tail := "." + base;
    assert |h| >= |tail|;
    assert h[|h| - |tail|] == prefix[|prefix| - 1];
    assert h[|h| - |tail|..][0] == h[|h| - |tail|];
    assert tail[0] == '.';
  }

  /** Loose matching without wildcards is plain equality, so it agrees with
      strict mode. */
  lemma LooseWithoutWildcardsIsStrict(c: CorsConfig, host: string)
    requires !Truthy(c.enableWildcardSubdomains)
    ensures HostAllowed(c, host) <==> host in c.allowedDomains
  {
    if !Truthy(c.strictDomainMatching) && host in c.allowedDomains {
      assert DomainMatches(c, host, host);
    }
  }

  /** A missing origin, or development mode, is always let through. */
  lemma MissingOriginOrDevelopmentAllowed(c: CorsConfig, origin: Value, hostname: Option<string>, nodeEnv: Option<string>)
    requires !Truthy(origin) || nodeEnv == Some("development")
    ensures DecideOrigin(c, origin, hostname, nodeEnv) == Allow
  {
  }
}
