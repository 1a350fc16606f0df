/** The decision the plugin takes on each `Request.dispatch` event: whether an
    anonymous caller may go on, and what happens when it may not (status 403
    for API requests, then a redirect or a `NoAccessException`). */
module AccessDecision {
  import opened Wrappers
  import opened PhpStrings
  import opened QueryMatcher
  import opened ConfigNormalizer

  /** The PHP library functions the plugin calls on strings, taken as given:
      `parse_str` on an allow-list entry, `parse_str(html_entity_decode(...))`
      on the referrer's query, and `filter_var(..., FILTER_VALIDATE_URL)`. */
  datatype Library = Library(
    parsePattern: string -> Pattern,
    parseReferrerQuery: string -> ParamSet,
    isValidUrl: string -> bool)

  /** What one dispatch reads from Matomo and from PHP: whether the user is
      anonymous, whether the root request is an API request, `$_GET`, the
      host and query of the sanitised `Referer` header and the host of
      Matomo's own URL (`None` where `parse_url` finds no such part). */
  datatype Request = Request(
    isAnonymous: bool,
    isRootApiRequest: bool,
    get: ParamSet,
    referrerHost: Option<string>,
    referrerQuery: Option<string>,
    platformHost: Option<string>)

  /** The side effects of a denial, in the order they happen. */
  datatype Effect =
    | SendResponseCode(code: int)
    | RedirectToUrl(url: string)
    | ThrowNoAccess(message: string)

  /** The translation key of the `NoAccessException` message. */
  const YouMustBeLoggedIn: string := "General_YouMustBeLoggedIn"

  /** `0 === stripos($referrerHost, $piwikHost)`; PHP 8 reads a missing host
      (null) as the empty string. */
  predicate ReferrerHostAllowed(req: Request) {
    StartsWithIgnoreCase(req.referrerHost.GetOr(""), req.platformHost.GetOr(""))
  }

  /** The three conditions under which the referrer's query is looked at at
      all: same host, a non-empty referrer allow-list, a non-empty query. */
  predicate ReferrerGateOpen(config: Config, req: Request) {
    && ReferrerHostAllowed(req)
    && AllowedReferrers(config) != []
    && req.referrerQuery.Some? && !IsEmpty(req.referrerQuery.value)
  }

  /** The referrer path lets the request through. */
  predicate ReferrerAllowed(config: Config, library: Library, req: Request) {
    && ReferrerGateOpen(config, req)
    && Allows(library.parseReferrerQuery(req.referrerQuery.value), AllowedReferrers(config), library.parsePattern)
  }

  /** The request's own parameters let it through. */
  predicate RequestAllowed(config: Config, library: Library, req: Request) {
    Allows(req.get, AllowedRequests(config), library.parsePattern)
  }

  /** `isAllowedRequest`, in the order the source evaluates it. */
  predicate AccessAllowed(config: Config, library: Library, req: Request) {
    if ReferrerAllowed(config, library, req) then true
    else
      var requests := AllowedRequests(config);
      if requests == [] then false else Allows(req.get, requests, library.parsePattern)
  }

  /** `shouldRedirectUnallowedRequests`: the configured target when it is a
      string that passes URL validation. */
  function RedirectTarget(config: Config, library: Library): (r: Option<string>)
    ensures r.Some? <==> config.redirectUnallowedTo.Some? && library.isValidUrl(config.redirectUnallowedTo.value)
    ensures r.Some? ==> r.value == config.redirectUnallowedTo.value
  {
    match config.redirectUnallowedTo
    case None => None
    case Some(url) => if library.isValidUrl(url) then Some(url) else None
  }

  /** What a denied root request does: 403 first for an API request, then a
      redirect when one is configured, otherwise the exception. */
  function DenialEffects(isRootApiRequest: bool, target: Option<string>): seq<Effect> {
    (if isRootApiRequest then [SendResponseCode(403)] else [])
    + (if target.Some? then [RedirectToUrl(target.value)] else [ThrowNoAccess(YouMustBeLoggedIn)])
  }

  /** The effects of checking a root request of an anonymous user. */
  function CheckEffects(config: Config, library: Library, req: Request): seq<Effect> {
    if AccessAllowed(config, library, req) then []
    else DenialEffects(req.isRootApiRequest, RedirectTarget(config, library))
  }

  lemma CheckEffectsCases(config: Config, library: Library, req: Request, allowed: bool)
    requires allowed == AccessAllowed(config, library, req)
    ensures CheckEffects(config, library, req)
         == if allowed then [] else DenialEffects(req.isRootApiRequest, RedirectTarget(config, library))
  {
  }

  /** The plugin object. `nestedInvocationCount` is a static field in the
      source; one plugin object lives as long as the PHP process, so it is a
      field here. */
  class RestrictAnonymousAccess {
    const config: Config
    const library: Library
    var nestedInvocationCount: nat

    constructor(config: Config, library: Library)
      ensures this.config == config && this.library == library
      ensures nestedInvocationCount == 0
    {
      this.config := config;
      this.library := library;
      nestedInvocationCount := 0;
    }

    /** `isCurrentRequestTheRootRequest`. */
    predicate IsCurrentRequestTheRootRequest()
      reads this
    {
      nestedInvocationCount == 1
    }

    /** The `Request.dispatch` handler: counts the invocation, then checks
        the request when the user is anonymous. */
    method RestrictAnonymousAccess(req: Request) returns (effects: seq<Effect>)
      modifies this`nestedInvocationCount
      ensures nestedInvocationCount == old(nestedInvocationCount) + 1
      ensures effects == if req.isAnonymous && nestedInvocationCount == 1
                         then CheckEffects(config, library, req) else []
      ensures old(nestedInvocationCount) >= 1 ==> effects == []
    {
      nestedInvocationCount := nestedInvocationCount + 1;
      effects := [];
      if req.isAnonymous {
        effects := CheckIsAllowedRequest(req);
      }
    }

    /** `checkIsAllowedRequest`: nothing unless this is the root request;
        nothing when the request is allowed; otherwise the 403 for API
        requests, then either the redirect (and return) or the exception. */
    method CheckIsAllowedRequest(req: Request) returns (effects: seq<Effect>)
      ensures effects == if IsCurrentRequestTheRootRequest() then CheckEffects(config, library, req) else []
    {
      effects := [];
      if !IsCurrentRequestTheRootRequest() {
        return;
      }
      var allowed := IsAllowedRequest(req);
      CheckEffectsCases(config, library, req, allowed);
      if !allowed {
        effects := Deny(req.isRootApiRequest);
      }
    }

    /** The denial steps of `checkIsAllowedRequest`: the 403 for an API
        request, then the redirect (and return) when one is configured,
        otherwise the exception. */
    method Deny(isRootApiRequest: bool) returns (effects: seq<Effect>)
      ensures effects == DenialEffects(isRootApiRequest, RedirectTarget(config, library))
    {
      effects := [];
      if isRootApiRequest {
        effects := effects + [SendResponseCode(403)];
      }
      var target := RedirectTarget(config, library);
      if target.Some? {
        effects := effects + [RedirectToUrl(target.value)];
        return;
      }
      effects := effects + [ThrowNoAccess(YouMustBeLoggedIn)];
    }

    /** `isAllowedRequest`: the referrer path when its gate is open, then the
        request's own parameters against the allowed requests. */
    method IsAllowedRequest(req: Request) returns (allowed: bool)
      ensures allowed == AccessAllowed(config, library, req)
    {
      var referrers := AllowedReferrers(config);
      var hostAllowed := StartsWithIgnoreCase(req.referrerHost.GetOr(""), req.platformHost.GetOr(""));
      if hostAllowed && referrers != [] && req.referrerQuery.Some? && !IsEmpty(req.referrerQuery.value) {
        var params := library.parseReferrerQuery(req.referrerQuery.value);
        var ok := ParamsAreAllowed(params, referrers, library.parsePattern);
        if ok {
          return true;
        }
      }
      var requests := AllowedRequests(config);
      if requests == [] {
        return false;
      }
      allowed := ParamsAreAllowed(req.get, requests, library.parsePattern);
    }
  }

  /** A root dispatch followed by a nested one (an internal sub-request
      during the same PHP request): only the root one can act. */
  method RootThenNestedDispatch(config: Config, library: Library, root: Request, nested: Request)
    returns (first: seq<Effect>, second: seq<Effect>)
    ensures first == if root.isAnonymous then CheckEffects(config, library, root) else []
    ensures second == []
  {
    var plugin := new RestrictAnonymousAccess(config, library);
    first := plugin.RestrictAnonymousAccess(root);
    second := plugin.RestrictAnonymousAccess(nested);
  }

  /** The allowed-requests list always holds the built-ins, so the source's
      "no allowed requests" branch never decides anything: the request is
      allowed exactly when the referrer path or the request path allows it. */
  lemma AllowedIsReferrerOrRequest(config: Config, library: Library, req: Request)
    ensures AccessAllowed(config, library, req)
        == (ReferrerAllowed(config, library, req) || RequestAllowed(config, library, req))
    ensures AllowedRequests(config) != []
  {
    AlwaysAllowedIncluded(config);
  }

  /** When the referrer gate is closed (foreign host, no referrer allow-list
      or no referrer query), the decision is the request's own match. */
  lemma GateClosedFallsThrough(config: Config, library: Library, req: Request)
    requires !ReferrerGateOpen(config, req)
    ensures AccessAllowed(config, library, req) == RequestAllowed(config, library, req)
  {
  }

  /** Without a referrer allow-list the referrer never lets anything through. */
  lemma NoReferrerListNoReferrerPath(config: Config, library: Library, req: Request)
    requires config.allowedReferrers.None?
    ensures !ReferrerAllowed(config, library, req)
  {
  }

  /** The host test is a case-insensitive prefix test, not equality: a
      referrer host that extends Matomo's host passes it. */
  lemma LongerReferrerHostPasses(req: Request, host: string, rest: string)
    requires req.platformHost == Some(host) && req.referrerHost == Some(host + rest)
    ensures ReferrerHostAllowed(req)
  {
    assert (host + rest)[..|host|] == host;
  }

  /** A referrer host whose first letter differs from Matomo's (ignoring
      case) fails the host test, whatever the referrer lists hold. */
  lemma ForeignReferrerHostFails(config: Config, library: Library, req: Request)
    requires req.platformHost.Some? && req.platformHost.value != []
    requires req.referrerHost.Some? && req.referrerHost.value != []
    requires LowerChar(req.referrerHost.value[0]) != LowerChar(req.platformHost.value[0])
    ensures !ReferrerHostAllowed(req) && !ReferrerAllowed(config, library, req)
    ensures AccessAllowed(config, library, req) == RequestAllowed(config, library, req)
  {
    var h, p := req.referrerHost.value, req.platformHost.value;
    if |p| <= |h| {
      assert Lower(h[..|p|])[0] != Lower(p)[0];
    }
  }

  /** A referrer from "otherhost.example" is ignored when Matomo runs at
      "analytics.example", whatever the lists hold. */
  lemma OtherHostReferrerIgnored(config: Config, library: Library, req: Request)
    requires req.platformHost == Some("analytics.example")
    requires req.referrerHost == Some("otherhost.example")
    ensures !ReferrerAllowed(config, library, req)
  {
    ForeignReferrerHostFails(config, library, req);
  }

  /** An allowed request has no effect at all. */
  lemma AllowedHasNoEffects(config: Config, library: Library, req: Request)
    requires ReferrerAllowed(config, library, req) || RequestAllowed(config, library, req)
    ensures CheckEffects(config, library, req) == []
  {
    AllowedIsReferrerOrRequest(config, library, req);
  }

  /** The outcome table of a denial: 403 is sent exactly for API requests
      and comes first; a redirect happens exactly when a valid target is
      configured; the exception is thrown exactly when there is none; the
      last effect ends the request and is the only one that does. */
  lemma DenialOutcome(config: Config, library: Library, req: Request)
    requires !ReferrerAllowed(config, library, req) && !RequestAllowed(config, library, req)
    ensures var e, target := CheckEffects(config, library, req), RedirectTarget(config, library);
      && (SendResponseCode(403) in e <==> req.isRootApiRequest)
      && (forall url :: RedirectToUrl(url) in e <==> target == Some(url))
      && (ThrowNoAccess(YouMustBeLoggedIn) in e <==> target.None?)
      && |e| > 0 && !e[|e| - 1].SendResponseCode?
      && (forall i :: 0 <= i < |e| - 1 ==> e[i] == SendResponseCode(403))
  {
    AllowedIsReferrerOrRequest(config, library, req);
    var e := CheckEffects(config, library, req);
    var target := RedirectTarget(config, library);
    assert e == DenialEffects(req.isRootApiRequest, target);
    forall url
      ensures RedirectToUrl(url) in e <==> target == Some(url)
    {
      if RedirectToUrl(url) in e {
        var i :| 0 <= i < |e| && e[i] == RedirectToUrl(url);
      }
    }
  }

  /** The quirk of a denied API request with a redirect configured: it gets
      both the 403 status and the redirect. */
  lemma ApiDenialGetsStatusAndRedirect(config: Config, library: Library, req: Request, url: string)
    requires !ReferrerAllowed(config, library, req) && !RequestAllowed(config, library, req)
    requires req.isRootApiRequest
    requires config.redirectUnallowedTo == Some(url) && library.isValidUrl(url)
    ensures CheckEffects(config, library, req) == [SendResponseCode(403), RedirectToUrl(url)]
  {
    AllowedIsReferrerOrRequest(config, library, req);
  }

  /** A denied non-API request without a usable redirect target only throws:
      no status code is sent. */
  lemma PlainDenialOnlyThrows(config: Config, library: Library, req: Request)
    requires !ReferrerAllowed(config, library, req) && !RequestAllowed(config, library, req)
    requires !req.isRootApiRequest
    requires config.redirectUnallowedTo.None? || !library.isValidUrl(config.redirectUnallowedTo.value)
    ensures CheckEffects(config, library, req) == [ThrowNoAccess(YouMustBeLoggedIn)]
  {
    AllowedIsReferrerOrRequest(config, library, req);
  }

  /** A request that satisfies one of the built-in patterns is allowed,
      whatever the configuration. */
  lemma BuiltinPatternAllows(config: Config, library: Library, req: Request, k: nat)
    requires k < |AlwaysAllowed|
    requires PatternSatisfied(req.get, library.parsePattern(AlwaysAllowed[k]))
    ensures AccessAllowed(config, library, req)
  {
    AlwaysAllowedIncluded(config);
    var requests := AllowedRequests(config);
    var entry := AlwaysAllowed[k];
    assert entry in requests;
    var i :| 0 <= i < |requests| && requests[i] == entry;
    assert Allows(req.get, requests, library.parsePattern);
  }

  /** The login page is always reachable, whatever the configuration: a
      request with `module=login` (in any case) is allowed. */
  lemma LoginAlwaysAllowed(config: Config, library: Library, req: Request)
    requires library.parsePattern(AlwaysAllowed[0]) == [("module", "Login")]
    requires "module" in req.get && Lower(req.get["module"]) == Lower("Login")
    ensures AccessAllowed(config, library, req)
  {
    assert PairSatisfied(req.get, ("module", "Login"));
    BuiltinPatternAllows(config, library, req, 0);
  }

  /** A request that satisfies a configured entry, once trimmed, is allowed. */
  lemma ConfiguredEntryAllows(config: Config, library: Library, req: Request, k: nat)
    requires config.allowedRequests.Some? && k < |config.allowedRequests.value|
    requires !IsEmpty(Trim(config.allowedRequests.value[k]))
    requires PatternSatisfied(req.get, library.parsePattern(Trim(config.allowedRequests.value[k])))
    ensures RequestAllowed(config, library, req)
  {
    var list := config.allowedRequests.value;
    var entry := Trim(list[k]);
    SanitizeComplete(list, k);
    AllowedRequestsContents(config, entry);
    var requests := AllowedRequests(config);
    var i :| 0 <= i < |requests| && requests[i] == entry;
  }

  /** A configured entry "module=API&method=Foo" lets through a request
      whose method is "foo". */
  lemma ValueCaseIgnoredExample(config: Config, library: Library, req: Request, entry: string)
    requires entry == "module=API&method=Foo"
    requires config.allowedRequests == Some([entry])
    requires library.parsePattern(entry) == [("module", "API"), ("method", "Foo")]
    requires req.get == map["module" := "API", "method" := "foo"]
    ensures RequestAllowed(config, library, req)
  {
    assert entry[0] == 'm' && entry[|entry| - 1] == 'o';
    TrimOfClean(entry);
    assert Lower("foo") == Lower("Foo") by {
      assert LowerChar('F') == 'f';
    }
    assert PairSatisfied(req.get, ("method", "Foo"));
    assert PairSatisfied(req.get, ("module", "API"));
    ConfiguredEntryAllows(config, library, req, 0);
  }
}
