/**
 * `SecurityHeadersExtensions`: the HSTS decision, the options and their defaults, and
 * the middleware that adds the security headers to a response that has not started.
 */
module SecurityHeaders {
  import opened Wrappers
  import opened Text
  import opened Http
  import opened HeaderMap

  datatype SecurityHeadersOptions = SecurityHeadersOptions(
    enableHsts: bool,
    contentSecurityPolicy: string,
    xFrameOptions: string,
    referrerPolicy: string,
    permissionsPolicy: string,
    crossOriginOpenerPolicy: string,
    crossOriginResourcePolicy: string)

  const DefaultOptions := SecurityHeadersOptions(
    true,
    "default-src 'none'; frame-ancestors 'none'; base-uri 'none'; form-action 'none'",
    "DENY",
    "no-referrer",
    "camera=(), microphone=(), geolocation=(), payment=(), usb=(), interest-cohort=()",
    "same-origin",
    "same-site")

  const ContentSecurityPolicy := "Content-Security-Policy"
  const XFrameOptions := "X-Frame-Options"
  const XContentTypeOptions := "X-Content-Type-Options"
  const ReferrerPolicy := "Referrer-Policy"
  const PermissionsPolicy := "Permissions-Policy"
  const CrossOriginOpenerPolicy := "Cross-Origin-Opener-Policy"
  const CrossOriginResourcePolicy := "Cross-Origin-Resource-Policy"
  const XXssProtection := "X-XSS-Protection"

  /** The options after the optional `configure` callback has run on the defaults. */
  function Configured(configure: Option<SecurityHeadersOptions -> SecurityHeadersOptions>): SecurityHeadersOptions
  {
    match configure
    case None => DefaultOptions
    case Some(f) => f(DefaultOptions)
  }

  /** `app.UseHsts()` is registered only in production and only when the options enable it. */
  function UsesHsts(isProduction: bool, options: SecurityHeadersOptions): bool
  {
    isProduction && options.enableHsts
  }

  /** The headers `ApplySecurityHeaders` always tries to add, in order. */
  function Always(options: SecurityHeadersOptions): seq<(string, string)>
  {
    [(ContentSecurityPolicy, options.contentSecurityPolicy),
     (XFrameOptions, options.xFrameOptions),
     (XContentTypeOptions, "nosniff"),
     (ReferrerPolicy, options.referrerPolicy),
     (PermissionsPolicy, options.permissionsPolicy)]
  }

  /** A header tried only when its option is not null or white space. */
  function Optional(name: string, value: string): seq<(string, string)>
  {
    if !IsWhiteSpace(value) then [(name, value)] else []
  }

  /** The headers `ApplySecurityHeaders` tries to add, in the order it tries them. */
  function Additions(options: SecurityHeadersOptions): seq<(string, string)>
  {
    Always(options)
    + Optional(CrossOriginOpenerPolicy, options.crossOriginOpenerPolicy)
    + Optional(CrossOriginResourcePolicy, options.crossOriginResourcePolicy)
  }

  /** The five headers that are always tried, one `TryAdd` at a time. */
  function WithAlways(headers: Headers, options: SecurityHeadersOptions): Headers
  {
    var h1 := TryAdd(headers, ContentSecurityPolicy, options.contentSecurityPolicy);
    var h2 := TryAdd(h1, XFrameOptions, options.xFrameOptions);
    var h3 := TryAdd(h2, XContentTypeOptions, "nosniff");
    var h4 := TryAdd(h3, ReferrerPolicy, options.referrerPolicy);
    TryAdd(h4, PermissionsPolicy, options.permissionsPolicy)
  }

  /** `TryAdd` guarded by `!string.IsNullOrWhiteSpace(value)`. */
  function TryAddIfSet(headers: Headers, name: string, value: string): Headers
  {
    if !IsWhiteSpace(value) then TryAdd(headers, name, value) else headers
  }

  /** The response headers after `ApplySecurityHeaders`: the run of its `TryAdd`s. */
  function Secured(headers: Headers, options: SecurityHeadersOptions): Headers
  {
    AddAll(headers, Additions(options))
  }

  /** The same, one call at a time as the method makes them. */
  function Stepwise(headers: Headers, options: SecurityHeadersOptions): Headers
  {
    var h := WithAlways(headers, options);
    var h' := TryAddIfSet(h, CrossOriginOpenerPolicy, options.crossOriginOpenerPolicy);
    TryAddIfSet(h', CrossOriginResourcePolicy, options.crossOriginResourcePolicy)
  }

  lemma StepwiseIsRun(headers: Headers, options: SecurityHeadersOptions)
    ensures Stepwise(headers, options) == Secured(headers, options)
  {
    AlwaysIsRun(headers, options);
    var a := Always(options);
    var b := Optional(CrossOriginOpenerPolicy, options.crossOriginOpenerPolicy);
    OptionalIsRun(headers, a, CrossOriginOpenerPolicy, options.crossOriginOpenerPolicy);
    OptionalIsRun(headers, a + b, CrossOriginResourcePolicy, options.crossOriginResourcePolicy);
  }

  lemma AlwaysIsRun(headers: Headers, options: SecurityHeadersOptions)
    ensures WithAlways(headers, options) == AddAll(headers, Always(options))
  {
    var done: seq<(string, string)> := [];
    done := Added(headers, done, (ContentSecurityPolicy, options.contentSecurityPolicy));
    done := Added(headers, done, (XFrameOptions, options.xFrameOptions));
    done := Added(headers, done, (XContentTypeOptions, "nosniff"));
    done := Added(headers, done, (ReferrerPolicy, options.referrerPolicy));
    done := Added(headers, done, (PermissionsPolicy, options.permissionsPolicy));
    assert done == Always(options);
  }

  lemma OptionalIsRun(headers: Headers, done: seq<(string, string)>, name: string, value: string)
    ensures AddAll(headers, done + Optional(name, value)) == TryAddIfSet(AddAll(headers, done), name, value)
  {
    if !IsWhiteSpace(value) {
      var next := Added(headers, done, (name, value));
    } else {
      assert done + Optional(name, value) == done;
    }
  }

  method TryAddHeader(context: HttpContext, name: string, value: string)
    modifies context`responseHeaders
    ensures context.responseHeaders == TryAdd(old(context.responseHeaders), name, value)
  {
    if name !in context.responseHeaders {
      context.responseHeaders := context.responseHeaders[name := value];
    }
  }

  method ApplySecurityHeaders(context: HttpContext, options: SecurityHeadersOptions)
    modifies context`responseHeaders
    ensures context.responseHeaders == Secured(old(context.responseHeaders), options)
  {
    StepwiseIsRun(context.responseHeaders, options);
    TryAddHeader(context, ContentSecurityPolicy, options.contentSecurityPolicy);
    TryAddHeader(context, XFrameOptions, options.xFrameOptions);
    TryAddHeader(context, XContentTypeOptions, "nosniff");
    TryAddHeader(context, ReferrerPolicy, options.referrerPolicy);
    TryAddHeader(context, PermissionsPolicy, options.permissionsPolicy);
    if !IsWhiteSpace(options.crossOriginOpenerPolicy) {
      TryAddHeader(context, CrossOriginOpenerPolicy, options.crossOriginOpenerPolicy);
    }
    if !IsWhiteSpace(options.crossOriginResourcePolicy) {
      TryAddHeader(context, CrossOriginResourcePolicy, options.crossOriginResourcePolicy);
    }
  }

  /** One more `TryAdd` extends the run by its pair. */
  lemma Added(headers: Headers, done: seq<(string, string)>, pair: (string, string)) returns (next: seq<(string, string)>)
    ensures next == done + [pair]
    ensures AddAll(headers, next) == TryAdd(AddAll(headers, done), pair.0, pair.1)
  {
    next := done + [pair];
    assert next[..|done|] == done;
  }

  /** The middleware registered with `app.Use`: headers only before the response starts, then `next`. */
  method InvokeMiddleware(context: HttpContext, options: SecurityHeadersOptions)
    modifies context
    ensures old(context.hasStarted) ==> context.responseHeaders == old(context.responseHeaders)
    ensures !old(context.hasStarted) ==> context.responseHeaders == Secured(old(context.responseHeaders), options)
    ensures context.requestHeaders == old(context.requestHeaders) && context.items == old(context.items)
    ensures context.nextCalls == old(context.nextCalls) + [context.State()]
  {
    if !context.hasStarted {
      ApplySecurityHeaders(context, options);
    }
    context.Next();
  }

  // ---------------------------------------------------------------------------------------------
  // Properties of ApplySecurityHeaders

  /** A header the response already carries keeps its value. */
  lemma SecuredNeverOverwrites(headers: Headers, options: SecurityHeadersOptions, name: string)
    requires name in headers
    ensures name in Secured(headers, options) && Secured(headers, options)[name] == headers[name]
  {
    AddAllKeeps(headers, Additions(options), name);
  }

  function AddedNames(options: SecurityHeadersOptions): set<string>
  {
    {ContentSecurityPolicy, XFrameOptions, XContentTypeOptions, ReferrerPolicy, PermissionsPolicy}
    + (if !IsWhiteSpace(options.crossOriginOpenerPolicy) then {CrossOriginOpenerPolicy} else {})
    + (if !IsWhiteSpace(options.crossOriginResourcePolicy) then {CrossOriginResourcePolicy} else {})
  }

  /**
   * Afterwards the five hardening headers are always present, COOP and CORP exactly when
   * they were present or their option is set, and nothing else is added.
   */
  lemma SecuredKeys(headers: Headers, options: SecurityHeadersOptions)
    ensures Secured(headers, options).Keys == headers.Keys + AddedNames(options)
  {
    AddAllKeys(headers, Additions(options));
    AdditionNames(options);
  }

  lemma AdditionNames(options: SecurityHeadersOptions)
    ensures Names(Additions(options)) == AddedNames(options)
  {
    var a := Additions(options);
    assert a[0].0 == ContentSecurityPolicy && a[1].0 == XFrameOptions && a[2].0 == XContentTypeOptions;
    assert a[3].0 == ReferrerPolicy && a[4].0 == PermissionsPolicy;
    if !IsWhiteSpace(options.crossOriginOpenerPolicy) {
      assert a[5].0 == CrossOriginOpenerPolicy;
    }
    if !IsWhiteSpace(options.crossOriginResourcePolicy) {
      assert a[|a| - 1].0 == CrossOriginResourcePolicy;
    }
  }

  /** The obsolete X-XSS-Protection header is never added. */
  lemma NoXssHeaderAdded(headers: Headers, options: SecurityHeadersOptions)
    ensures XXssProtection in Secured(headers, options) <==> XXssProtection in headers
  {
    SecuredKeys(headers, options);
    NameLengths();
  }

  /** The header names differ in length, or else in their first letter. */
  lemma NameLengths()
    ensures |ContentSecurityPolicy| == 23 && |XFrameOptions| == 15 && |XContentTypeOptions| == 22
    ensures |ReferrerPolicy| == 15 && |PermissionsPolicy| == 18 && |CrossOriginOpenerPolicy| == 26
    ensures |CrossOriginResourcePolicy| == 28 && |XXssProtection| == 16
    ensures XFrameOptions[0] == 'X' && ReferrerPolicy[0] == 'R'
  {
  }

  /** COOP is added exactly when its option is not null or white space (and it was absent). */
  lemma OpenerPolicyAddedIff(headers: Headers, options: SecurityHeadersOptions)
    requires CrossOriginOpenerPolicy !in headers
    ensures CrossOriginOpenerPolicy in Secured(headers, options) <==> !IsWhiteSpace(options.crossOriginOpenerPolicy)
  {
    SecuredKeys(headers, options);
  }

  lemma ResourcePolicyAddedIff(headers: Headers, options: SecurityHeadersOptions)
    requires CrossOriginResourcePolicy !in headers
    ensures CrossOriginResourcePolicy in Secured(headers, options) <==> !IsWhiteSpace(options.crossOriginResourcePolicy)
  {
    SecuredKeys(headers, options);
  }

  /** An absent header is set to the configured value, and X-Content-Type-Options to "nosniff". */
  lemma SecuredValues(headers: Headers, options: SecurityHeadersOptions)
    ensures SecuredValueIfAbsent(headers, options, ContentSecurityPolicy, options.contentSecurityPolicy)
    ensures SecuredValueIfAbsent(headers, options, XFrameOptions, options.xFrameOptions)
    ensures SecuredValueIfAbsent(headers, options, XContentTypeOptions, "nosniff")
    ensures SecuredValueIfAbsent(headers, options, ReferrerPolicy, options.referrerPolicy)
    ensures SecuredValueIfAbsent(headers, options, PermissionsPolicy, options.permissionsPolicy)
  {
    NameLengths();
    var a := Additions(options);
    assert a[..5] == Always(options);
    FirstAdditionWins(headers, a, 0);
    FirstAdditionWins(headers, a, 1);
    FirstAdditionWins(headers, a, 2);
    FirstAdditionWins(headers, a, 3);
    FirstAdditionWins(headers, a, 4);
  }

  lemma FirstAdditionWins(headers: Headers, a: seq<(string, string)>, i: int)
    requires 0 <= i < |a|
    requires forall j :: 0 <= j < i ==> a[j].0 != a[i].0
    ensures a[i].0 !in headers ==> a[i].0 in AddAll(headers, a) && AddAll(headers, a)[a[i].0] == a[i].1
  {
    if a[i].0 !in headers {
      AddAllFirstWins(headers, a, i);
    }
  }

  predicate SecuredValueIfAbsent(headers: Headers, options: SecurityHeadersOptions, name: string, value: string)
  {
    name !in headers ==> name in Secured(headers, options) && Secured(headers, options)[name] == value
  }

  /** Applying the headers twice gives the same headers as applying them once. */
  lemma SecuredIdempotent(headers: Headers, options: SecurityHeadersOptions)
    ensures Secured(Secured(headers, options), options) == Secured(headers, options)
  {
    AddAllIdempotent(headers, Additions(options));
  }

  /**
   * Whatever the `configure` callback does, HSTS is never used outside production; a callback
   * that disables it disables it everywhere, and one that leaves it enabled leaves the decision
   * to the environment.
   */
  lemma HstsOnlyInProduction(isProduction: bool, configure: Option<SecurityHeadersOptions -> SecurityHeadersOptions>)
    ensures UsesHsts(isProduction, Configured(configure)) ==> isProduction
    ensures !Configured(configure).enableHsts ==> !UsesHsts(isProduction, Configured(configure))
    ensures Configured(configure).enableHsts ==> (UsesHsts(isProduction, Configured(configure)) <==> isProduction)
  {
  }

  /** With the defaults, HSTS is used exactly in production. */
  lemma DefaultHsts(isProduction: bool)
    ensures UsesHsts(isProduction, Configured(None)) == isProduction
  {
  }
}
