/**
 * The pieces of the Java class library that the launch-command composer leans on:
 * the `\s` character class of `java.util.regex`, `String.trim()`, `startsWith`,
 * `endsWith`, and the joining done by `StringUtils.join` and `Collectors.joining`.
 * Characters are Dafny `char`s; Java's UTF-16 code units below U+0021 are the only
 * ones whose exact value matters here.
 */
module JavaText {

  /** The regex class `\s` without the UNICODE_CHARACTER_CLASS flag: [ \t\n\x0B\f\r]. */
  predicate IsRegexSpace(c: char)
  {
    c == ' ' || c == '\t' || c == '\n' || c == '\U{0B}' || c == '\U{0C}' || c == '\r'
  }

  /** The characters `String.trim()` strips: every code unit up to and including U+0020. */
  predicate IsTrimmed(c: char)
  {
    c <= ' '
  }

  /** Every `\s` character is also stripped by `trim()` (the converse does not hold). */
  lemma RegexSpaceIsTrimmed(c: char)
    requires IsRegexSpace(c)
    ensures IsTrimmed(c)
  {
  }

  /** `s` with its leading trimmable characters removed. */
  function TrimStart(s: string): (r: string)
    ensures |r| <= |s| && r == s[|s| - |r|..]
    ensures forall k :: 0 <= k < |s| - |r| ==> IsTrimmed(s[k])
    ensures r == [] || !IsTrimmed(r[0])
  {
    if s != [] && IsTrimmed(s[0]) then TrimStart(s[1..]) else s
  }

  /** `s` with its trailing trimmable characters removed. */
  function TrimEnd(s: string): (r: string)
    ensures r <= s
    ensures forall k :: |r| <= k < |s| ==> IsTrimmed(s[k])
    ensures r == [] || !IsTrimmed(r[|r| - 1])
  {
    if s != [] && IsTrimmed(s[|s| - 1]) then TrimEnd(s[..|s| - 1]) else s
  }

  /** Where `Trim(s)` starts inside `s`. */
  function TrimOffset(s: string): nat
  {
    |s| - |TrimStart(s)|
  }

  /**
   * `String.trim()`: the infix of `s` left after stripping trimmable characters at
   * both ends; it is empty exactly when `s` holds nothing but trimmable characters.
   */
  function Trim(s: string): (r: string)
    ensures TrimOffset(s) + |r| <= |s| && r == s[TrimOffset(s)..TrimOffset(s) + |r|]
    ensures forall k :: 0 <= k < TrimOffset(s) ==> IsTrimmed(s[k])
    ensures forall k :: TrimOffset(s) + |r| <= k < |s| ==> IsTrimmed(s[k])
    ensures r != [] ==> !IsTrimmed(r[0]) && !IsTrimmed(r[|r| - 1])
  {
    TrimEnd(TrimStart(s))
  }

  /** `trim()` gives the empty string exactly when every character of `s` is trimmable. */
  lemma TrimEmpty(s: string)
    ensures Trim(s) == [] <==> forall k :: 0 <= k < |s| ==> IsTrimmed(s[k])
  {
    if Trim(s) == [] {
      // a non-empty TrimStart(s) begins with a character TrimEnd cannot strip
      assert TrimStart(s) == [];
    }
  }

  /** `trim()` leaves a string alone when neither end is trimmable. */
  lemma TrimUnchanged(s: string)
    requires s != [] && !IsTrimmed(s[0]) && !IsTrimmed(s[|s| - 1])
    ensures Trim(s) == s
  {
  }

  /** `s.startsWith(p)`. */
  predicate StartsWith(s: string, p: string)
  {
    p <= s
  }

  /** `s.endsWith(p)`. */
  predicate EndsWith(s: string, p: string)
  {
    |p| <= |s| && s[|s| - |p|..] == p
  }

  /**
   * The elements of `xs` with `sep` between each neighbouring pair, as produced by
   * `StringUtils.join(iterator, sep)` and by `Collectors.joining(sep)`.
   */
  function Join(xs: seq<string>, sep: string): (r: string)
    ensures xs == [] ==> r == []
    ensures |xs| == 1 ==> r == xs[0]
    ensures xs != [] ==> xs[0] <= r
    ensures xs != [] && xs[0] != [] ==> r != []
  {
    if xs == [] then []
    else if |xs| == 1 then xs[0]
    else xs[0] + sep + Join(xs[1..], sep)
  }
}
