/** `paramsAreAllowed`: does a parameter set satisfy at least one allow-list
    pattern in full? Each pattern is a query string such as
    "module=Proxy&action=getCss"; a request satisfies it when every name in
    it is present with a value equal up to `strtolower`. */
module QueryMatcher {
  import opened PhpStrings

  /** The actual parameters of a request (`$_GET`, or the parsed referrer
      query): name to value. */
  type ParamSet = map<string, string>

  /** One allow-list entry after `parse_str`: its name/value pairs in order. */
  type Pattern = seq<(string, string)>

  /** `Common::getRequestVar` with a null default returns a value instead of
      throwing: the name is not PHP-`empty`, it is present, and its value is
      not the empty string. */
  predicate RequestVarFound(actual: ParamSet, name: string) {
    !IsEmpty(name) && name in actual && actual[name] != ""
  }

  /** One pair holds: `getRequestVar` finds the name, and the values agree
      after `strtolower`. */
  predicate PairSatisfied(actual: ParamSet, pair: (string, string)) {
    RequestVarFound(actual, pair.0) && Lower(actual[pair.0]) == Lower(pair.1)
  }

  /** AND: every pair of the pattern holds. */
  predicate PatternSatisfied(actual: ParamSet, pattern: Pattern) {
    forall j :: 0 <= j < |pattern| ==> PairSatisfied(actual, pattern[j])
  }

  /** OR of AND: some allow-list entry, parsed by `parse`, is satisfied. */
  predicate Allows(actual: ParamSet, allowed: seq<string>, parse: string -> Pattern) {
    exists i :: 0 <= i < |allowed| && PatternSatisfied(actual, parse(allowed[i]))
  }

  /** The nested `foreach` of the source: a name `getRequestVar` does not
      find (its exception) or a mismatched value
      abandons only the current pattern (`continue 2`); the first pattern
      whose pairs all hold returns true; an exhausted list returns false. */
  method ParamsAreAllowed(actual: ParamSet, allowed: seq<string>, parse: string -> Pattern)
    returns (ok: bool)
    ensures ok == Allows(actual, allowed, parse)
  {
    label Outer:
    for i := 0 to |allowed|
      invariant forall k :: 0 <= k < i ==> !PatternSatisfied(actual, parse(allowed[k]))
    {
      var pairs := parse(allowed[i]);
      for j := 0 to |pairs|
        invariant forall k :: 0 <= k < j ==> PairSatisfied(actual, pairs[k])
      {
        var (name, value) := pairs[j];
        if !RequestVarFound(actual, name) {
          continue Outer;
        }
        if Lower(actual[name]) != Lower(value) {
          continue Outer;
        }
      }
      return true;
    }
    return false;
  }

  /** An empty allow-list allows nothing. */
  lemma EmptyListAllowsNothing(actual: ParamSet, parse: string -> Pattern)
    ensures !Allows(actual, [], parse)
  {
  }

  /** An entry that parses to no pairs at all lets every request through:
      its inner loop has nothing to reject. */
  lemma EmptyPatternAllowsAll(actual: ParamSet, allowed: seq<string>, parse: string -> Pattern, i: nat)
    requires i < |allowed| && parse(allowed[i]) == []
    ensures Allows(actual, allowed, parse)
  {
    assert PatternSatisfied(actual, parse(allowed[i]));
  }

  /** The decision depends only on which entries are listed, not on their
      order or repetition: evaluation order only decides where the search
      stops. */
  lemma AllowsDependsOnlyOnEntries(actual: ParamSet, xs: seq<string>, ys: seq<string>, parse: string -> Pattern)
    requires forall x :: x in xs <==> x in ys
    ensures Allows(actual, xs, parse) == Allows(actual, ys, parse)
  {
    if Allows(actual, xs, parse) {
      var i :| 0 <= i < |xs| && PatternSatisfied(actual, parse(xs[i]));
      assert xs[i] in ys;
      var k :| 0 <= k < |ys| && ys[k] == xs[i];
    }
    if Allows(actual, ys, parse) {
      var i :| 0 <= i < |ys| && PatternSatisfied(actual, parse(ys[i]));
      assert ys[i] in xs;
      var k :| 0 <= k < |xs| && xs[k] == ys[i];
    }
  }

  /** Values are compared ignoring case: changing the case of a request's
      values does not change the decision. */
  lemma AllowsIgnoresValueCase(actual: ParamSet, lowered: ParamSet, allowed: seq<string>, parse: string -> Pattern)
    requires actual.Keys == lowered.Keys
    requires forall n :: n in actual ==> lowered[n] == Lower(actual[n])
    ensures Allows(actual, allowed, parse) == Allows(lowered, allowed, parse)
  {
    forall n | n in actual
      ensures Lower(lowered[n]) == Lower(actual[n])
      ensures (lowered[n] == "") == (actual[n] == "")
    {
      LowerIdempotent(actual[n]);
    }
    forall i | 0 <= i < |allowed|
      ensures PatternSatisfied(actual, parse(allowed[i])) == PatternSatisfied(lowered, parse(allowed[i]))
    {
      var p := parse(allowed[i]);
      assert forall j :: 0 <= j < |p| ==> PairSatisfied(actual, p[j]) == PairSatisfied(lowered, p[j]);
    }
  }

  /** Extra request parameters never hurt: a request that carries more
      parameters than another, agreeing on the shared ones, is allowed
      whenever the other one is. */
  lemma AllowsMonotone(actual: ParamSet, larger: ParamSet, allowed: seq<string>, parse: string -> Pattern)
    requires forall n :: n in actual ==> n in larger && larger[n] == actual[n]
    requires Allows(actual, allowed, parse)
    ensures Allows(larger, allowed, parse)
  {
    var i :| 0 <= i < |allowed| && PatternSatisfied(actual, parse(allowed[i]));
    var p := parse(allowed[i]);
    assert forall j :: 0 <= j < |p| ==> PairSatisfied(actual, p[j]) ==> PairSatisfied(larger, p[j]);
  }

  /** A pair whose name `getRequestVar` does not find rejects its whole
      entry, whatever value the entry expects: an empty value in the request
      does not match an empty value in the entry, and a name "" or "0" never
      matches. */
  lemma UnfoundNameRejectsEntry(actual: ParamSet, pattern: Pattern, j: nat)
    requires j < |pattern| && !RequestVarFound(actual, pattern[j].0)
    ensures !PatternSatisfied(actual, pattern)
  {
    assert !PairSatisfied(actual, pattern[j]);
  }

  /** The entry "module=Widgetize&idSite=" does not let through a request
      whose `idSite` is present but empty. */
  lemma EmptyValueExample(actual: ParamSet, allowed: seq<string>, parse: string -> Pattern)
    requires allowed == ["module=Widgetize&idSite="]
    requires parse(allowed[0]) == [("module", "Widgetize"), ("idSite", "")]
    requires actual == map["module" := "Widgetize", "idSite" := ""]
    ensures !Allows(actual, allowed, parse)
  {
    UnfoundNameRejectsEntry(actual, parse(allowed[0]), 1);
  }
}
