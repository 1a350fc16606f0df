/** `sanitizeConfigArray`, `getAllowedRequests` and `getAllowedReferrers`:
    the plugin's configuration lists, trimmed, without empty entries and
    without repeats, and the requests that are always allowed. */
module ConfigNormalizer {
  import opened Wrappers
  import opened PhpStrings

  /** The plugin's section of the configuration. A list field is `None` when
      it is missing or is not an array; the redirect target is `None` when it
      is missing or is not a string. */
  datatype Config = Config(
    allowedRequests: Option<seq<string>>,
    allowedReferrers: Option<seq<string>>,
    redirectUnallowedTo: Option<string>)

  predicate NoDuplicates(s: seq<string>) {
    forall i, j :: 0 <= i < j < |s| ==> s[i] != s[j]
  }

  /** The position where `x` first occurs in `s`. */
  function FirstOccurrence(s: seq<string>, x: string): (k: nat)
    requires x in s
    ensures k < |s| && s[k] == x
    ensures forall i :: 0 <= i < k ==> s[i] != x
  {
    if s[0] == x then 0 else 1 + FirstOccurrence(s[1..], x)
  }

  /** Appending an element keeps the first occurrences already present, and
      puts a new element last. */
  lemma FirstOccurrenceAppend(p: seq<string>, e: string, x: string)
    requires x in p + [e]
    ensures x in p ==> FirstOccurrence(p + [e], x) == FirstOccurrence(p, x)
    ensures x !in p ==> FirstOccurrence(p + [e], x) == |p|
  {
    var s := p + [e];
    assert forall i :: 0 <= i < |p| ==> s[i] == p[i];
    if x in p {
      var m := FirstOccurrence(p, x);
      assert s[m] == x;
    }
  }

  /** `array_map('trim', ...)`. */
  function TrimAll(raw: seq<string>): (r: seq<string>)
    ensures |r| == |raw|
    ensures forall i :: 0 <= i < |raw| ==> r[i] == Trim(raw[i])
  {
    seq(|raw|, i requires 0 <= i < |raw| => Trim(raw[i]))
  }

  /** `array_filter` with `!empty(...)`: drops "" and "0", keeps the rest in
      order. */
  function DropEmpty(s: seq<string>): (r: seq<string>)
    ensures forall x :: x in r <==> x in s && !IsEmpty(x)
  {
    if s == [] then [] else
      var p := s[..|s| - 1];
      var e := s[|s| - 1];
      assert s == p + [e];
      if IsEmpty(e) then DropEmpty(p) else DropEmpty(p) + [e]
  }

  /** Filtering keeps the relative order of first occurrences. */
  lemma {:induction false} DropEmptyKeepsOrder(s: seq<string>, x: string, y: string)
    requires x in DropEmpty(s) && y in DropEmpty(s)
    ensures FirstOccurrence(DropEmpty(s), x) < FirstOccurrence(DropEmpty(s), y)
        <==> FirstOccurrence(s, x) < FirstOccurrence(s, y)
  {
    var p := s[..|s| - 1];
    var e := s[|s| - 1];
    var d := DropEmpty(p);
    var r := DropEmpty(s);
    assert s == p + [e];
    FirstOccurrenceAppend(p, e, x);
    FirstOccurrenceAppend(p, e, y);
    if !IsEmpty(e) {
      FirstOccurrenceAppend(d, e, x);
      FirstOccurrenceAppend(d, e, y);
    }
    if x in d && y in d {
      DropEmptyKeepsOrder(p, x, y);
    } else if x in d {
      assert FirstOccurrence(d, x) < |d|;
    } else if y in d {
      assert FirstOccurrence(d, y) < |d|;
    }
  }

  /** `array_unique`: keeps the first occurrence of each value, in order. */
  function Unique(s: seq<string>): (r: seq<string>)
    ensures forall x :: x in r <==> x in s
    ensures NoDuplicates(r)
  {
    if s == [] then [] else
      var p := s[..|s| - 1];
      var e := s[|s| - 1];
      var d := Unique(p);
      assert s == p + [e];
      if e in d then d else d + [e]
  }

  /** The survivors of `array_unique` are listed in the order in which each
      first occurs in the input. */
  lemma {:induction false} UniqueKeepsOrder(s: seq<string>, i: nat, j: nat)
    requires i < j < |Unique(s)|
    ensures FirstOccurrence(s, Unique(s)[i]) < FirstOccurrence(s, Unique(s)[j])
  {
    var p := s[..|s| - 1];
    var e := s[|s| - 1];
    var d := Unique(p);
    var r := Unique(s);
    assert s == p + [e];
    FirstOccurrenceAppend(p, e, r[i]);
    FirstOccurrenceAppend(p, e, r[j]);
    if j < |d| {
      UniqueKeepsOrder(p, i, j);
    } else {
      assert r[i] == d[i] && r[j] == e && e !in d;
      assert FirstOccurrence(p, d[i]) < |p|;
    }
  }

  /** `sanitizeConfigArray`: trim, drop empties, drop repeats. */
  function Sanitize(raw: seq<string>): (r: seq<string>)
    ensures NoDuplicates(r)
    ensures forall x :: x in r ==> !IsEmpty(x)
  {
    Unique(DropEmpty(TrimAll(raw)))
  }

  /** Every element of the sanitised list is the trim of some input element
      and is not empty in PHP's sense ("" and "0" are dropped). */
  lemma SanitizeSound(raw: seq<string>, x: string)
    requires x in Sanitize(raw)
    ensures !IsEmpty(x) && x in TrimAll(raw)
  {
  }

  /** Every input element whose trim is not empty survives, trimmed. */
  lemma SanitizeComplete(raw: seq<string>, k: nat)
    requires k < |raw| && !IsEmpty(Trim(raw[k]))
    ensures Trim(raw[k]) in Sanitize(raw)
  {
    assert TrimAll(raw)[k] == Trim(raw[k]);
  }

  /** No value occurs twice, and the values appear in the order of their first
      occurrence in the trimmed input. */
  lemma SanitizeOrdered(raw: seq<string>)
    ensures NoDuplicates(Sanitize(raw))
    ensures var r, t := Sanitize(raw), TrimAll(raw);
      forall i, j :: 0 <= i < j < |r| ==> FirstOccurrence(t, r[i]) < FirstOccurrence(t, r[j])
  {
    var t := TrimAll(raw);
    var d := DropEmpty(t);
    var r := Unique(d);
    forall i, j | 0 <= i < j < |r|
      ensures FirstOccurrence(t, r[i]) < FirstOccurrence(t, r[j])
    {
      UniqueKeepsOrder(d, i, j);
      DropEmptyKeepsOrder(t, r[i], r[j]);
    }
  }

  /** Every element of a sanitised list is its own trim. */
  lemma SanitizedAreTrimmed(raw: seq<string>, x: string)
    requires x in Sanitize(raw)
    ensures Trim(x) == x && !IsEmpty(x)
  {
    SanitizeSound(raw, x);
    var t := TrimAll(raw);
    var k := FirstOccurrence(t, x);
    TrimIdempotent(raw[k]);
  }

  /** Sanitising a sanitised list changes nothing. */
  lemma {:induction false} SanitizeIdempotent(raw: seq<string>)
    ensures Sanitize(Sanitize(raw)) == Sanitize(raw)
  {
    var s := Sanitize(raw);
    forall x | x in s
      ensures Trim(x) == x && !IsEmpty(x)
    {
      SanitizedAreTrimmed(raw, x);
    }
    TrimAllFixed(s);
    DropEmptyFixed(s);
    UniqueFixed(s);
  }

  lemma {:induction false} TrimAllFixed(s: seq<string>)
    requires forall x :: x in s ==> Trim(x) == x
    ensures TrimAll(s) == s
  {
  }

  lemma {:induction false} DropEmptyFixed(s: seq<string>)
    requires forall x :: x in s ==> !IsEmpty(x)
    ensures DropEmpty(s) == s
  {
    if s != [] {
      var p := s[..|s| - 1];
      assert s == p + [s[|s| - 1]];
      DropEmptyFixed(p);
    }
  }

  lemma {:induction false} UniqueFixed(s: seq<string>)
    requires NoDuplicates(s)
    ensures Unique(s) == s
  {
    if s != [] {
      var p := s[..|s| - 1];
      assert s == p + [s[|s| - 1]];
      UniqueFixed(p);
    }
  }

  /** The requests an anonymous user may always make: the login page and the
      stylesheet and script proxies it needs. */
  const AlwaysAllowed: seq<string> := [
    "module=Login",
    "module=Proxy&action=getCss",
    "module=Proxy&action=getCoreJs",
    "module=Proxy&action=getNonCoreJs"
  ]

  /** `getAllowedRequests`: the built-ins alone when the configured list is
      missing or not an array; otherwise the configured list with the
      built-ins appended, then sanitised as one list, so a configured entry
      that trims to a built-in is not listed twice. */
  function AllowedRequests(config: Config): seq<string> {
    match config.allowedRequests
    case None => AlwaysAllowed
    case Some(list) => Sanitize(list + AlwaysAllowed)
  }

  /** `getAllowedReferrers`: the sanitised configured list, or nothing when it
      is missing or not an array. */
  function AllowedReferrers(config: Config): (r: seq<string>)
    ensures config.allowedReferrers.None? ==> r == []
  {
    match config.allowedReferrers
    case None => []
    case Some(list) => Sanitize(list)
  }

  /** Every entry of `extra` is already trimmed and not empty. */
  predicate AllClean(extra: seq<string>) {
    forall k :: 0 <= k < |extra| ==> Trim(extra[k]) == extra[k] && !IsEmpty(extra[k])
  }

  /** The built-in entries are already trimmed and not empty. */
  lemma AlwaysAllowedClean()
    ensures AllClean(AlwaysAllowed)
  {
    forall k | 0 <= k < |AlwaysAllowed|
      ensures Trim(AlwaysAllowed[k]) == AlwaysAllowed[k] && !IsEmpty(AlwaysAllowed[k])
    {
      var b := AlwaysAllowed[k];
      assert |b| > 1 && b[0] == 'm';
      assert b[|b| - 1] == 'n' || b[|b| - 1] == 's';
      TrimOfClean(b);
    }
  }

  /** A list of distinct entries that are already trimmed and not empty is
      its own sanitised form. */
  lemma CleanListSanitized(s: seq<string>)
    requires AllClean(s) && NoDuplicates(s)
    ensures Sanitize(s) == s
  {
    TrimAllFixed(s);
    DropEmptyFixed(s);
    UniqueFixed(s);
  }

  /** The built-ins are distinct: their lengths already differ. */
  lemma AlwaysAllowedDistinct(a: seq<string>)
    requires a == AlwaysAllowed
    ensures NoDuplicates(a)
  {
    assert |a[0]| == 12 && |a[1]| == 26 && |a[2]| == 29 && |a[3]| == 32;
  }

  /** Returning the built-ins unsanitised when no array is configured is
      what sanitising them would give. */
  lemma AlwaysAllowedSanitized()
    ensures Sanitize(AlwaysAllowed) == AlwaysAllowed
  {
    AlwaysAllowedClean();
    AlwaysAllowedDistinct(AlwaysAllowed);
    CleanListSanitized(AlwaysAllowed);
  }

  /** The allowed requests never list an entry twice, whatever the
      configuration: a configured built-in and the appended built-in merge. */
  lemma AllowedRequestsNoRepeats(config: Config)
    ensures NoDuplicates(AllowedRequests(config))
  {
    if config.allowedRequests.None? {
      AlwaysAllowedDistinct(AlwaysAllowed);
    }
  }

  /** Clean entries appended to any list survive sanitising. */
  lemma CleanTailKept(list: seq<string>, extra: seq<string>, x: string)
    requires AllClean(extra) && x in extra
    ensures x in Sanitize(list + extra)
  {
    var raw := list + extra;
    var k :| 0 <= k < |extra| && extra[k] == x;
    assert raw[|list| + k] == x;
    SanitizeComplete(raw, |list| + k);
  }

  /** Whatever the configuration, the built-in requests are allowed, so the
      list of allowed requests is never empty. */
  lemma AlwaysAllowedIncluded(config: Config)
    ensures forall x :: x in AlwaysAllowed ==> x in AllowedRequests(config)
    ensures AllowedRequests(config) != []
    ensures config.allowedRequests.None? ==> AllowedRequests(config) == AlwaysAllowed
  {
    if config.allowedRequests.Some? {
      var list := config.allowedRequests.value;
      AlwaysAllowedClean();
      forall x | x in AlwaysAllowed
        ensures x in Sanitize(list + AlwaysAllowed)
      {
        CleanTailKept(list, AlwaysAllowed, x);
      }
      assert AlwaysAllowed[0] in AllowedRequests(config);
    }
  }

  /** The allowed requests are exactly the built-ins plus the configured
      entries that survive sanitising. */
  lemma AllowedRequestsContents(config: Config, x: string)
    requires config.allowedRequests.Some?
    ensures x in AllowedRequests(config) <==> x in AlwaysAllowed || x in Sanitize(config.allowedRequests.value)
  {
    AlwaysAllowedIncluded(config);
    if x in AllowedRequests(config) && x !in AlwaysAllowed {
      ConfiguredRequestKept(config.allowedRequests.value, x);
    }
    if x in Sanitize(config.allowedRequests.value) {
      ConfiguredRequestAllowed(config.allowedRequests.value, x);
    }
  }

  lemma ConfiguredRequestKept(list: seq<string>, x: string)
    requires x in Sanitize(list + AlwaysAllowed) && x !in AlwaysAllowed
    ensures x in Sanitize(list)
  {
    AlwaysAllowedClean();
    KeptFromPrefix(list, AlwaysAllowed, x);
  }

  /** An element of a sanitised concatenation that is not one of the already
      trimmed trailing entries comes from the leading list. */
  lemma KeptFromPrefix(list: seq<string>, extra: seq<string>, x: string)
    requires AllClean(extra)
    requires x in Sanitize(list + extra) && x !in extra
    ensures x in Sanitize(list)
  {
    var raw := list + extra;
    SanitizeSound(raw, x);
    var k := FirstOccurrence(TrimAll(raw), x);
    assert Trim(raw[k]) == x;
    assert k < |list|;
    assert raw[k] == list[k];
    SanitizeComplete(list, k);
  }

  lemma ConfiguredRequestAllowed(list: seq<string>, x: string)
    requires x in Sanitize(list)
    ensures x in Sanitize(list + AlwaysAllowed)
  {
    var raw := list + AlwaysAllowed;
    SanitizeSound(list, x);
    var k := FirstOccurrence(TrimAll(list), x);
    assert Trim(list[k]) == x;
    assert raw[k] == list[k];
    SanitizeComplete(raw, k);
  }

  /** Blanks and empties are dropped, surrounding whitespace is trimmed and
      repeats collapse to one entry: [" ", "", "a=b", "a=b", " a=b "]
      sanitises to ["a=b"]. */
  lemma SanitizeExample(raw: seq<string>)
    requires raw == [" ", "", "a=b", "a=b", " a=b "]
    ensures Sanitize(raw) == ["a=b"]
  {
    var blank, empty, entry, padded := raw[0], raw[1], raw[2], raw[4];
    TrimExample(blank, empty, entry, padded);
    var t := ["", "", entry, entry, entry];
    TrimAllPointwise(raw, t);
    DropEmptyOfExample(t, entry);
    UniqueOfExample([entry, entry, entry], entry);
  }

  lemma TrimExample(blank: string, empty: string, entry: string, padded: string)
    requires blank == " " && empty == "" && entry == "a=b" && padded == " a=b "
    ensures Trim(blank) == "" && Trim(empty) == ""
    ensures Trim(entry) == entry && Trim(padded) == entry
  {
    assert LeadingCut(blank) == 1;
    TrimOfClean(entry);
    assert LeadingCut(padded) == 1 by {
      assert padded[1..][0] == 'a';
    }
    var t := padded[1..];
    assert t == entry + " ";
    assert TrailingKeep(t) == 3 by {
      assert t[..|t| - 1] == entry;
    }
  }

  lemma TrimAllPointwise(raw: seq<string>, t: seq<string>)
    requires |raw| == |t| && forall i :: 0 <= i < |raw| ==> Trim(raw[i]) == t[i]
    ensures TrimAll(raw) == t
  {
  }

  lemma DropEmptyOfExample(t: seq<string>, v: string)
    requires t == ["", "", v, v, v] && !IsEmpty(v)
    ensures DropEmpty(t) == [v, v, v]
  {
    assert DropEmpty(t[..1]) == [] by { assert t[..1][..0] == []; }
    assert DropEmpty(t[..2]) == [] by { assert t[..2][..1] == t[..1]; }
    assert DropEmpty(t[..3]) == [v] by { assert t[..3][..2] == t[..2]; }
    assert DropEmpty(t[..4]) == [v, v] by { assert t[..4][..3] == t[..3]; }
  }

  lemma UniqueOfExample(u: seq<string>, v: string)
    requires u == [v, v, v]
    ensures Unique(u) == [v]
  {
    assert Unique(u[..1]) == [v] by { assert u[..1][..0] == []; }
    assert Unique(u[..2]) == [v] by { assert u[..2][..1] == u[..1]; }
  }
}
