/** The PHP string primitives the plugin relies on: `trim`, `strtolower`,
    `empty` on a string, and `stripos(...) === 0` as a prefix test. */
module PhpStrings {

  /** The characters PHP's `trim` strips by default: space, tab, newline,
      carriage return, NUL and vertical tab. */
  predicate IsTrimChar(c: char) {
    c == ' ' || c == '\t' || c == '\n' || c == '\r' || c == 0 as char || c == 11 as char
  }

  /** How many trim characters `ltrim` cuts from the front of `s`; the
      character after them, if any, is not one. */
  function LeadingCut(s: string): (n: nat)
    ensures n <= |s| && (n == |s| || !IsTrimChar(s[n]))
  {
    if |s| > 0 && IsTrimChar(s[0]) then 1 + LeadingCut(s[1..]) else 0
  }

  /** How many characters `rtrim` keeps at the front of `s`; the last of
      them, if any, is not a trim character. */
  function TrailingKeep(s: string): (n: nat)
    ensures n <= |s| && (n == 0 || !IsTrimChar(s[n - 1]))
  {
    if |s| > 0 && IsTrimChar(s[|s| - 1]) then TrailingKeep(s[..|s| - 1]) else |s|
  }

  /** `ltrim`: drops the leading trim characters. */
  function TrimLeft(s: string): string {
    s[LeadingCut(s)..]
  }

  /** `rtrim`: drops the trailing trim characters. */
  function TrimRight(s: string): string {
    s[..TrailingKeep(s)]
  }

  /** `trim`: both of the above. */
  function Trim(s: string): string {
    TrimRight(TrimLeft(s))
  }

  /** Everything `ltrim` cuts off is a trim character. */
  lemma {:induction false} LeadingCutChars(s: string, i: nat)
    requires i < LeadingCut(s)
    ensures IsTrimChar(s[i])
  {
    if i > 0 {
      LeadingCutChars(s[1..], i - 1);
    }
  }

  /** Everything `rtrim` cuts off is a trim character. */
  lemma {:induction false} TrailingCutChars(s: string, i: nat)
    requires TrailingKeep(s) <= i < |s|
    ensures IsTrimChar(s[i])
  {
    if i < |s| - 1 {
      TrailingCutChars(s[..|s| - 1], i);
    }
  }

  /** What `trim` returns: the infix `s[a..a+|r|]` of its input that starts
      where `ltrim` stops, everything cut off on either side is a trim
      character, and the result neither starts nor ends with one. */
  lemma TrimSpec(s: string)
    ensures var r, a := Trim(s), |s| - |TrimLeft(s)|;
      && a + |r| <= |s| && r == s[a..a + |r|]
      && (forall i :: 0 <= i < a ==> IsTrimChar(s[i]))
      && (forall i :: a + |r| <= i < |s| ==> IsTrimChar(s[i]))
      && (r == [] || (!IsTrimChar(r[0]) && !IsTrimChar(r[|r| - 1])))
  {
    var a := LeadingCut(s);
    var t := s[a..];
    var e := TrailingKeep(t);
    assert t[..e] == s[a..a + e];
    forall i | 0 <= i < a
      ensures IsTrimChar(s[i])
    {
      LeadingCutChars(s, i);
    }
    forall i | a + e <= i < |s|
      ensures IsTrimChar(s[i])
    {
      assert s[i] == t[i - a];
      TrailingCutChars(t, i - a);
    }
  }

  /** A string with no trim character at either end is its own `trim`. */
  lemma TrimOfClean(s: string)
    requires s != [] && !IsTrimChar(s[0]) && !IsTrimChar(s[|s| - 1])
    ensures Trim(s) == s
  {
    assert TrimLeft(s) == s;
  }

  /** Trimming twice is trimming once: every sanitised configuration entry
      is a fixed point of `trim`. */
  lemma TrimIdempotent(s: string)
    ensures Trim(Trim(s)) == Trim(s)
  {
    var r := Trim(s);
    TrimSpec(s);
    assert TrimLeft(r) == r;
    assert TrimRight(r) == r;
  }

  /** `strtolower` on one character: ASCII A-Z only, as PHP 8.2 does. */
  function LowerChar(c: char): char {
    if 'A' <= c <= 'Z' then (c as int + 32) as char else c
  }

  function Lower(s: string): (r: string)
    ensures |r| == |s|
  {
    seq(|s|, i requires 0 <= i < |s| => LowerChar(s[i]))
  }

  /** Lower-casing an already lower-cased string changes nothing. */
  lemma LowerIdempotent(s: string)
    ensures Lower(Lower(s)) == Lower(s)
  {
    forall i | 0 <= i < |s|
      ensures Lower(Lower(s))[i] == Lower(s)[i]
    {
      assert Lower(s)[i] == LowerChar(s[i]);
    }
  }

  /** PHP's `empty` on a string: true for "" and for "0". */
  predicate IsEmpty(s: string) {
    s == "" || s == "0"
  }

  /** `0 === stripos(haystack, needle)`: the haystack begins with the needle
      when both are lower-cased. In PHP 8 an empty needle is found at 0. */
  predicate StartsWithIgnoreCase(haystack: string, needle: string) {
    |needle| <= |haystack| && Lower(haystack[..|needle|]) == Lower(needle)
  }

  /** The prefix test holds exactly when the lower-cased haystack is the
      lower-cased needle followed by something. */
  lemma StartsWithIgnoreCaseSpec(haystack: string, needle: string)
    ensures StartsWithIgnoreCase(haystack, needle)
        <==> exists rest :: Lower(haystack) == Lower(needle) + rest
  {
    if StartsWithIgnoreCase(haystack, needle) {
      var rest := Lower(haystack)[|needle|..];
      assert Lower(haystack) == Lower(needle) + rest;
    }
    if rest :| Lower(haystack) == Lower(needle) + rest {
      forall i | 0 <= i < |needle|
        ensures Lower(haystack[..|needle|])[i] == Lower(needle)[i]
      {
        assert Lower(haystack)[i] == Lower(needle)[i];
      }
    }
  }
}
