/**
  The few `java.lang.String` operations the rule parser relies on:
  `split("\\s+")`, `indexOf(String)`, `substring(int)` (a sequence suffix) and
  the case mappings, which are modelled on the ASCII letters only.
 */
module JavaStrings {
  import opened Wrappers

  /** The characters of the regular-expression class `\s`: space, tab, line feed,
      vertical tab, form feed and carriage return. */
  predicate IsWhitespace(ch: char) {
    ch == ' ' || ch == '\t' || ch == '\n' || ch == '\U{000B}' || ch == '\U{000C}' || ch == '\r'
  }

  predicate NoWhitespace(s: string) {
    forall k :: 0 <= k < |s| ==> !IsWhitespace(s[k])
  }

  predicate AllWhitespace(s: string) {
    forall k :: 0 <= k < |s| ==> IsWhitespace(s[k])
  }

  // ---------------------------------------------------------------------------
  // split("\\s+")
  // ---------------------------------------------------------------------------

  /** The first whitespace position at or after `from`, or `|s|` if there is none. */
  function FirstWhitespace(s: string, from: nat): (r: nat)
    requires from <= |s|
    ensures from <= r <= |s|
    ensures forall k :: from <= k < r ==> !IsWhitespace(s[k])
    ensures r < |s| ==> IsWhitespace(s[r])
    decreases |s| - from
  {
    if from == |s| then from
    else if IsWhitespace(s[from]) then from
    else FirstWhitespace(s, from + 1)
  }

  /** The end of the maximal whitespace run that starts at `from`; this is how far
      the greedy `\s+` reaches. */
  function RunEnd(s: string, from: nat): (r: nat)
    requires from <= |s|
    ensures from <= r <= |s|
    ensures forall k :: from <= k < r ==> IsWhitespace(s[k])
    ensures r < |s| ==> !IsWhitespace(s[r])
    decreases |s| - from
  {
    if from == |s| || !IsWhitespace(s[from]) then from
    else RunEnd(s, from + 1)
  }

  /** The segments of `s` between maximal whitespace runs, in order, before the
      trailing empty segments are discarded. The first segment is empty when `s`
      starts with whitespace and the last one is empty when it ends with it. */
  function Pieces(s: string): (ps: seq<string>)
    ensures |ps| >= 1
    decreases |s|
  {
    var i := FirstWhitespace(s, 0);
    if i == |s| then [s]
    else
      var j := RunEnd(s, i);
      [s[..i]] + Pieces(s[j..])
  }

  /** Drops the trailing empty strings, as `split` does when its limit is zero. */
  function StripTrailingEmpty(ps: seq<string>): (r: seq<string>)
    ensures |r| <= |ps| && r == ps[..|r|]
    ensures |r| > 0 ==> r[|r| - 1] != ""
    ensures forall k :: |r| <= k < |ps| ==> ps[k] == ""
  {
    if |ps| == 0 then []
    else if ps[|ps| - 1] == "" then StripTrailingEmpty(ps[..|ps| - 1])
    else ps
  }

  /** `line.split("\\s+")`: the whole line when the pattern never matches
      (so `""` gives `[""]`), otherwise the segments between whitespace runs with
      the trailing empty ones dropped (so a leading empty token is kept and an
      all-whitespace line gives no token at all). */
  function Split(line: string): seq<string>
  {
    if FirstWhitespace(line, 0) == |line| then [line]
    else StripTrailingEmpty(Pieces(line))
  }

  // ---------------------------------------------------------------------------
  // indexOf
  // ---------------------------------------------------------------------------

  /** `needle` occurs in `hay` starting at position `k`. */
  predicate OccursAt(needle: string, hay: string, k: nat) {
    k + |needle| <= |hay| && hay[k..k + |needle|] == needle
  }

  /** `needle` occurs somewhere in `hay`. */
  ghost predicate Occurs(needle: string, hay: string) {
    exists k: nat :: OccursAt(needle, hay, k)
  }

  /** The first occurrence of `needle` in `hay` at or after `from`. */
  function IndexOfFrom(hay: string, needle: string, from: nat): (r: Option<nat>)
    requires from <= |hay|
    ensures r.Some? <==> exists k: nat :: from <= k && OccursAt(needle, hay, k)
    ensures r.Some? ==> from <= r.value && OccursAt(needle, hay, r.value)
    ensures r.Some? ==> forall k: nat :: from <= k < r.value ==> !OccursAt(needle, hay, k)
    decreases |hay| - from
  {
    if OccursAt(needle, hay, from) then Some(from)
    else if from == |hay| then None
    else IndexOfFrom(hay, needle, from + 1)
  }

  /** `hay.indexOf(needle)`, with `None` standing for Java's `-1`. */
  function IndexOf(hay: string, needle: string): (r: Option<nat>)
    ensures r.Some? <==> Occurs(needle, hay)
    ensures r.Some? ==> OccursAt(needle, hay, r.value)
    ensures r.Some? ==> forall k: nat :: k < r.value ==> !OccursAt(needle, hay, k)
  {
    IndexOfFrom(hay, needle, 0)
  }

  // ---------------------------------------------------------------------------
  // Case mapping (ASCII letters only)
  // ---------------------------------------------------------------------------

  predicate IsUpper(ch: char) { 'A' <= ch <= 'Z' }

  predicate IsLower(ch: char) { 'a' <= ch <= 'z' }

  function LowerChar(ch: char): char {
    if IsUpper(ch) then (ch as int + 32) as char else ch
  }

  function UpperChar(ch: char): char {
    if IsLower(ch) then (ch as int - 32) as char else ch
  }

  /** `s.toLowerCase()` */
  function ToLower(s: string): string {
    seq(|s|, k requires 0 <= k < |s| => LowerChar(s[k]))
  }

  /** `s.toUpperCase()` */
  function ToUpper(s: string): string {
    seq(|s|, k requires 0 <= k < |s| => UpperChar(s[k]))
  }

  /** Two characters are the same letter up to ASCII case, or simply equal. */
  predicate SameIgnoringCase(a: char, b: char) {
    a == b || (IsUpper(a) && b as int == a as int + 32) || (IsUpper(b) && a as int == b as int + 32)
  }

  /** `a.equalsIgnoreCase(b)` restricted to ASCII letters: the reference notion
      against which the case-folding comparisons of the parser are proved. */
  predicate EqualsIgnoreCase(a: string, b: string) {
    |a| == |b| && forall k :: 0 <= k < |a| ==> SameIgnoringCase(a[k], b[k])
  }
}
