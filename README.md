# RestrictAnonymousAccess — a Dafny model of the anonymous-access decision

The RestrictAnonymousAccess plugin for Matomo decides whether an anonymous
visitor may go on with a request. The decision uses two allow-lists:

- **Allowed requests.** Query-string patterns such as
  `module=API&method=Foo`. The built-in login and proxy requests are always
  added.
- **Allowed referrers.** These are checked against the `Referer` header,
  but only when that header points back to Matomo's own host.

On every `Request.dispatch` the plugin increments a nesting counter. Only
the root dispatch (counter equal to 1) of an anonymous user is checked. A
denied request gets status 403 if it is an API request. After that it is
either redirected to the configured URL or aborted with a
`NoAccessException`.

The project is split into these modules:

- `Wrappers`: `Option`, for PHP values that may be null or of the wrong type.
- `PhpStrings`: `trim`, ASCII `strtolower`, `empty` on strings, and the
  `0 === stripos(...)` prefix test.
- `QueryMatcher`: `paramsAreAllowed`.
  - It is a method with the source's nested loops. `continue 2` becomes
    `continue Outer`.
  - It is proved equal to the predicate `Allows`: some entry has all of its
    name/value pairs present, with values equal after lower-casing.
- `ConfigNormalizer`: the plugin configuration, `sanitizeConfigArray`
  (trim, drop empties, drop repeats), the built-in requests,
  `getAllowedRequests` and `getAllowedReferrers`.
- `AccessDecision`:
  - The referrer gate and `isAllowedRequest`.
  - The effects of a denial, as an ordered list
    (`SendResponseCode(403)`, `RedirectToUrl`, `ThrowNoAccess`).
  - The plugin class. It holds the nesting counter, the dispatch handler
    and `checkIsAllowedRequest`.

The string functions of the PHP library are passed in as the `Library`
datatype. Nothing in this model depends on what they compute:

- `parse_str` on an allow-list entry;
- `parse_str(html_entity_decode(...))` on the referrer query;
- `filter_var(..., FILTER_VALIDATE_URL)`.

What Matomo reports is passed in as the `Request` datatype:

- whether the user is anonymous;
- whether the root request is an API request;
- `$_GET`;
- the host and query that `parse_url` extracts from the sanitised
  `Referer` header;
- the host of Matomo's own URL.

Points where the code's behaviour is easy to misread:

- The referrer host test is a case-insensitive *prefix* test, not a test
  of host equality. So `analytics.example.attacker.test` passes for Matomo at
  `analytics.example` (`LongerReferrerHostPasses`).
- A missing referrer host is read as the empty string, as PHP 8 does with
  `null`. It therefore passes the host test only when Matomo's own host is
  empty or missing.
- When `allowed_requests` is not an array, the built-ins are returned
  without being sanitised. They are already trimmed, not empty and
  distinct, so sanitising them would return them unchanged
  (`AlwaysAllowedSanitized`).
- The nesting counter is never reset. The model keeps it for the life of
  the plugin object.

## Model

| member | source | states |
|---|---|---|
| `QueryMatcher.RequestVarFound` | RestrictAnonymousAccess.php:135-140 | `getRequestVar` with a null default finds a name exactly when the name is neither "" nor "0", is present, and has a non-empty value; otherwise its exception skips to the next entry |
| `QueryMatcher.PairSatisfied` | RestrictAnonymousAccess.php:134-145 | one pair of an entry holds when `getRequestVar` finds its name and the value equals the entry's value after lower-casing both |
| `QueryMatcher.PatternSatisfied` | RestrictAnonymousAccess.php:134-147 | the AND of the inner loop: every pair of one entry is satisfied, so line 147 is reached |
| `QueryMatcher.Allows` | RestrictAnonymousAccess.php:130-150 | some entry of the list, as `parse_str` reads it, has every one of its pairs satisfied |
| `QueryMatcher.ParamsAreAllowed` | RestrictAnonymousAccess.php:128-151 | the nested loop returns true exactly when some allow-list entry has every name found by `getRequestVar` with a value equal after lower-casing; a name not found or a mismatched value only abandons that entry |
| `QueryMatcher.EmptyListAllowsNothing` | RestrictAnonymousAccess.php:130-150 | an empty allow-list never allows anything |
| `QueryMatcher.EmptyPatternAllowsAll` | RestrictAnonymousAccess.php:134-147 | an entry that parses to no pairs lets every parameter set through |
| `QueryMatcher.AllowsDependsOnlyOnEntries` | RestrictAnonymousAccess.php:130-148 | the decision depends only on which entries are listed, not on their order or repetition |
| `QueryMatcher.AllowsIgnoresValueCase` | RestrictAnonymousAccess.php:142 | lower-casing every actual value does not change the decision |
| `QueryMatcher.UnfoundNameRejectsEntry` | RestrictAnonymousAccess.php:135-140 | an entry with a name `getRequestVar` does not find is never satisfied, whatever value the entry expects |
| `QueryMatcher.EmptyValueExample` | RestrictAnonymousAccess.php:135-140 | the entry `module=Widgetize&idSite=` does not let through a request whose `idSite` is present but empty |
| `QueryMatcher.AllowsMonotone` | RestrictAnonymousAccess.php:134-145 | adding parameters to an allowed request keeps it allowed |
| `PhpStrings.Trim` | RestrictAnonymousAccess.php:196-198 | PHP `trim` with its default characters: `rtrim` of `ltrim`; its meaning is stated by `TrimSpec` |
| `PhpStrings.Lower` | RestrictAnonymousAccess.php:142 | ASCII `strtolower`, which keeps the length of its input |
| `PhpStrings.IsEmpty` | RestrictAnonymousAccess.php:200-202 | PHP `empty` on a string: true exactly for "" and "0" |
| `PhpStrings.StartsWithIgnoreCase` | RestrictAnonymousAccess.php:108 | `0 === stripos(haystack, needle)`: the haystack starts with the needle, ignoring case; its meaning is stated by `StartsWithIgnoreCaseSpec` |
| `PhpStrings.LeadingCutChars` | RestrictAnonymousAccess.php:196-198 | every character that trim cuts from the front is a trim character |
| `PhpStrings.TrailingCutChars` | RestrictAnonymousAccess.php:196-198 | every character that trim cuts from the back is a trim character |
| `PhpStrings.TrimOfClean` | RestrictAnonymousAccess.php:196-198 | a string with no trim character at either end is its own trim |
| `PhpStrings.TrimSpec` | RestrictAnonymousAccess.php:196-198 | trim returns an infix of its input, cuts only trim characters on either side, and leaves no trim character at either end |
| `PhpStrings.TrimIdempotent` | RestrictAnonymousAccess.php:196-198 | trimming twice gives the same as trimming once |
| `PhpStrings.StartsWithIgnoreCaseSpec` | RestrictAnonymousAccess.php:108 | the stripos-at-0 test holds exactly when the lower-cased host is the lower-cased Matomo host followed by something |
| `ConfigNormalizer.TrimAll` | RestrictAnonymousAccess.php:196-198 | the mapped list has the input's length and holds the trim of each input element at the same position |
| `ConfigNormalizer.DropEmpty` | RestrictAnonymousAccess.php:200-202 | the filtered list holds exactly the input values that are not "" or "0" |
| `ConfigNormalizer.DropEmptyKeepsOrder` | RestrictAnonymousAccess.php:200-202 | filtering keeps the relative order of first occurrences |
| `ConfigNormalizer.Unique` | RestrictAnonymousAccess.php:200 | array_unique keeps exactly the input's values, each once |
| `ConfigNormalizer.UniqueKeepsOrder` | RestrictAnonymousAccess.php:200 | array_unique lists values in the order of their first occurrence in its input |
| `ConfigNormalizer.Sanitize` | RestrictAnonymousAccess.php:195-203 | the sanitised list has no repeats and no entry "" or "0"; its contents and order are stated by the lemmas below |
| `ConfigNormalizer.SanitizeSound` | RestrictAnonymousAccess.php:195-203 | every sanitised element is the trim of some input element and is neither "" nor "0" |
| `ConfigNormalizer.SanitizeComplete` | RestrictAnonymousAccess.php:195-203 | every input element whose trim is neither "" nor "0" survives, trimmed |
| `ConfigNormalizer.SanitizeOrdered` | RestrictAnonymousAccess.php:195-203 | the sanitised list has no repeats and follows the order of first occurrence in the trimmed input |
| `ConfigNormalizer.SanitizedAreTrimmed` | RestrictAnonymousAccess.php:195-203 | every sanitised element is its own trim and is not empty |
| `ConfigNormalizer.SanitizeIdempotent` | RestrictAnonymousAccess.php:195-203 | sanitising a sanitised list changes nothing |
| `ConfigNormalizer.SanitizeExample` | RestrictAnonymousAccess.php:195-203 | `[" ", "", "a=b", "a=b", " a=b "]` sanitises to `["a=b"]` |
| `ConfigNormalizer.AlwaysAllowedClean` | RestrictAnonymousAccess.php:160-165 | each built-in entry is already trimmed and not empty |
| `ConfigNormalizer.CleanTailKept` | RestrictAnonymousAccess.php:171-173 | entries that are already trimmed and not empty, appended after the configured list, all survive sanitising |
| `ConfigNormalizer.AlwaysAllowedDistinct` | RestrictAnonymousAccess.php:160-165 | the four built-in entries are distinct |
| `ConfigNormalizer.CleanListSanitized` | RestrictAnonymousAccess.php:195-203 | a list of distinct entries that are already trimmed and not empty is its own sanitised form |
| `ConfigNormalizer.AlwaysAllowedSanitized` | RestrictAnonymousAccess.php:160-169 | returning the built-ins unsanitised at line 168 gives what sanitising them would give |
| `ConfigNormalizer.AllowedRequests` | RestrictAnonymousAccess.php:158-174 | the built-ins alone without a configured array, else the configured list with the built-ins appended, then sanitised as one list; its contents are stated by `AlwaysAllowedIncluded` and `AllowedRequestsContents` |
| `ConfigNormalizer.AllowedRequestsNoRepeats` | RestrictAnonymousAccess.php:158-174 | the allowed requests never list an entry twice, so a configured entry that trims to a built-in appears once |
| `ConfigNormalizer.AlwaysAllowedIncluded` | RestrictAnonymousAccess.php:158-173 | the allowed requests always contain the four built-ins and are never empty; without a configured array they are exactly the built-ins |
| `ConfigNormalizer.AllowedRequestsContents` | RestrictAnonymousAccess.php:167-173 | with a configured array, a value is allowed exactly when it is a built-in or survives sanitising of the configured list |
| `ConfigNormalizer.AllowedReferrers` | RestrictAnonymousAccess.php:181-188 | without a configured array the referrer list is empty |
| `AccessDecision.ReferrerHostAllowed` | RestrictAnonymousAccess.php:104-108 | the referrer host, read as "" when missing, starts with Matomo's host ignoring case |
| `AccessDecision.ReferrerGateOpen` | RestrictAnonymousAccess.php:110 | the host test passes, the referrer list is not empty and the referrer query is not PHP-empty |
| `AccessDecision.ReferrerAllowed` | RestrictAnonymousAccess.php:110-116 | the referrer path: the gate is open and the parsed referrer query satisfies some allowed referrer |
| `AccessDecision.RequestAllowed` | RestrictAnonymousAccess.php:119-125 | the request's own path: `$_GET` satisfies some allowed request |
| `AccessDecision.AccessAllowed` | RestrictAnonymousAccess.php:101-126 | `isAllowedRequest` in the source's order: the referrer path when its gate is open and it matches, then the empty-list test, then the request's own match; reduced to referrer match OR request match by `AllowedIsReferrerOrRequest` |
| `AccessDecision.DenialEffects` | RestrictAnonymousAccess.php:82-92 | the effects of a denial in order: the 403 for an API request, then the redirect or the exception; stated case by case by `DenialOutcome` |
| `AccessDecision.CheckEffects` | RestrictAnonymousAccess.php:81-93 | no effect for an allowed request, the denial effects otherwise; stated by `AllowedHasNoEffects` and `DenialOutcome` |
| `AccessDecision.RestrictAnonymousAccess.IsCurrentRequestTheRootRequest` | RestrictAnonymousAccess.php:224-227 | the request is the root one exactly when the nesting counter is 1 |
| `AccessDecision.RedirectTarget` | RestrictAnonymousAccess.php:210-217 | a redirect target exists exactly when the configured value is a string that passes URL validation, and it is that value |
| `AccessDecision.RestrictAnonymousAccess.RestrictAnonymousAccess` | RestrictAnonymousAccess.php:61-68 | every dispatch increments the counter by exactly one; the check runs only for an anonymous user when the counter is 1; once the counter was at least 1, a dispatch has no effect |
| `AccessDecision.RestrictAnonymousAccess.CheckIsAllowedRequest` | RestrictAnonymousAccess.php:75-94 | no effect unless this is the root request; otherwise the effects of checking the request, in order |
| `AccessDecision.RestrictAnonymousAccess.Deny` | RestrictAnonymousAccess.php:82-92 | the denial steps produce the 403 first for an API request, then the redirect to the valid configured target or, when there is none, the exception |
| `AccessDecision.RestrictAnonymousAccess.IsAllowedRequest` | RestrictAnonymousAccess.php:101-126 | the result is the decision `AccessAllowed`: true when the gate is open and the referrer query matches a referrer entry, otherwise the match of the request's own parameters against the allowed requests (referrer match OR request match, as `AllowedIsReferrerOrRequest` proves) |
| `AccessDecision.RootThenNestedDispatch` | RestrictAnonymousAccess.php:224-227 | in a root dispatch followed by a nested one, only the root one can act, and only for an anonymous user |
| `AccessDecision.AllowedIsReferrerOrRequest` | RestrictAnonymousAccess.php:103-125 | the request is allowed exactly when the referrer path or the request path allows it, and the "no allowed requests" branch never fires |
| `AccessDecision.GateClosedFallsThrough` | RestrictAnonymousAccess.php:108-125 | when the host test fails, the referrer list is empty or the referrer query is empty, the decision is the request's own match |
| `AccessDecision.NoReferrerListNoReferrerPath` | RestrictAnonymousAccess.php:181-185 | without a configured referrer array the referrer never lets anything through |
| `AccessDecision.LongerReferrerHostPasses` | RestrictAnonymousAccess.php:108 | a referrer host that extends Matomo's host passes the host test |
| `AccessDecision.ForeignReferrerHostFails` | RestrictAnonymousAccess.php:106-110 | a referrer host whose first letter differs from Matomo's, ignoring case, fails the host test, so only the request's own match counts |
| `AccessDecision.OtherHostReferrerIgnored` | RestrictAnonymousAccess.php:104-110 | a referrer from "otherhost.example" is ignored for Matomo at "analytics.example", whatever the lists hold |
| `AccessDecision.AllowedHasNoEffects` | RestrictAnonymousAccess.php:81-93 | an allowed request has no effect |
| `AccessDecision.DenialOutcome` | RestrictAnonymousAccess.php:81-93 | on denial: 403 is sent exactly for API requests and first; a redirect to u happens exactly when u is the valid configured target; the exception is thrown exactly when there is none; the last effect is the redirect or the exception |
| `AccessDecision.ApiDenialGetsStatusAndRedirect` | RestrictAnonymousAccess.php:82-90 | a denied API request with a valid redirect target gets both the 403 and the redirect |
| `AccessDecision.PlainDenialOnlyThrows` | RestrictAnonymousAccess.php:82-92 | a denied non-API request without a valid redirect target only throws, with no status code |
| `AccessDecision.BuiltinPatternAllows` | RestrictAnonymousAccess.php:119-125 | a request satisfying a built-in entry is allowed, whatever the configuration |
| `AccessDecision.LoginAlwaysAllowed` | RestrictAnonymousAccess.php:161 | whatever the configuration, a request with `module=login` in any case is allowed |
| `AccessDecision.ConfiguredEntryAllows` | RestrictAnonymousAccess.php:171-173 | a request satisfying a configured entry, once trimmed, is allowed |
| `AccessDecision.ValueCaseIgnoredExample` | RestrictAnonymousAccess.php:142 | the entry `module=API&method=Foo` lets through `module=API, method=foo` |

## Left out

- Plugin construction and config loading, and event registration
  (RestrictAnonymousAccess.php:40-44 and :51-56). The configuration is the
  `Config` datatype: a list field is `None` when it is not an array, and the
  redirect field is `None` when it is not a string.
- Calls into Matomo are inputs: `Piwik::isUserIsAnonymous`,
  `Request::isRootRequestApiRequest` and `SettingsPiwik::getPiwikUrl`.
  `Common::sendResponseCode`, `Url::redirectToUrl` and the thrown
  `NoAccessException` are recorded as `Effect` values. The message of
  `Piwik::translate` is its translation key.
- PHP library parsing is taken as given through `Library` or through the
  `Request` fields. This covers `parse_url`, `parse_str`,
  `html_entity_decode`, `Common::sanitizeInputValues` on the `Referer`
  header, and `filter_var`. Key mangling, URL decoding and array-valued
  parameters are therefore not modelled.
- PairSatisfied: the value sanitising inside `Common::getRequestVar` is not
  modelled. Matomo html-escapes the value it returns and strips line breaks
  before the comparison at RestrictAnonymousAccess.php:142; the model
  compares the raw value from `$_GET`. A value containing `&`, `<`, `>`, a
  quote or a line break can therefore match an entry in the model and not
  in PHP, or the reverse.
- `Common::getRequestVar` with a null default throws when the name is ""
  or "0", when the name is absent, or when its value is the empty string
  (`RequestVarFound`). Each of these abandons the current entry. Array-valued and
  empty-array parameters are not modelled.
- PairSatisfied: the source compares with loose `!=`. That operator treats
  numeric strings such as "10" and "1e1" as equal. The model compares the
  lower-cased strings exactly. `strtolower` is modelled as ASCII-only, as
  in PHP 8.2.
- RestrictAnonymousAccess.RestrictAnonymousAccess: the counter is static
  in the source, so it is shared by all plugin objects. The model keeps it
  per object. The handler's `$module`, `$action` and `$parameters` are not
  used by the source and are not modelled.
- Configuration elements are modelled as strings. `array_unique` leaves
  gaps in the array keys. Nothing in this code reads the keys, so the
  sanitised list is a plain sequence.
