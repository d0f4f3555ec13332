/**
 * Character-level string helpers the downloader relies on: substring tests,
 * Python's `str.strip()`, `str.split(c)[0]`, and the illegal-character stripper
 * regular-expression substitution that deletes the nine characters
 * backslash, slash, star, question mark, colon, double quote, less-than,
 * greater-than and bar from every course, folder and file name.
 */
module Strings {

  /** `sub in s` for Python strings: `sub` occurs somewhere in `s` as a contiguous run. */
  predicate Contains(s: string, sub: string) {
    exists i | 0 <= i <= |s| - |sub| :: OccursAt(s, sub, i)
  }

  /** `sub` occurs in `s` starting at index `i`. */
  predicate OccursAt(s: string, sub: string, i: int)
    requires 0 <= i <= |s| - |sub|
  {
    s[i..i + |sub|] == sub
  }

  /** `s.startswith(prefix)`. */
  predicate StartsWith(s: string, prefix: string) {
    |prefix| <= |s| && s[..|prefix|] == prefix
  }

  // ---------------------------------------------------------------------------
  // The sanitizer
  // ---------------------------------------------------------------------------

  /** The nine characters the sanitizer's character class matches. */
  predicate IsIllegal(c: char) {
    c == '\\' || c == '/' || c == '*' || c == '?' || c == ':' || c == '"' || c == '<' || c == '>' || c == '|'
  }

  /** No character of `s` is in the illegal class. */
  predicate IsClean(s: string) {
    forall i | 0 <= i < |s| :: !IsIllegal(s[i])
  }

  /**
   * The sanitizer: every illegal character is deleted
   * (not replaced), every other character is kept.
   */
  function StripIllegal(s: string): (r: string)
    ensures IsClean(r)
    ensures |r| <= |s|
  {
    if s == [] then []
    else if IsIllegal(s[0]) then StripIllegal(s[1..])
    else [s[0]] + StripIllegal(s[1..])
  }

  /** A clean string holds no path separator (`/` is one of the illegal characters). */
  lemma CleanHasNoSeparator(s: string)
    requires IsClean(s)
    ensures '/' !in s
  {
    assert IsIllegal('/');
  }

  /** A clean string is its own sanitized form; with StripIllegal's ensures this makes the stripper idempotent. */
  lemma {:induction false} StripIllegalFixesClean(s: string)
    requires IsClean(s)
    ensures StripIllegal(s) == s
  {
    if s != [] {
      assert !IsIllegal(s[0]);
      StripIllegalFixesClean(s[1..]);
    }
  }

  /** Applying the sanitizer twice is the same as applying it once. */
  lemma StripIllegalIdempotent(s: string)
    ensures StripIllegal(StripIllegal(s)) == StripIllegal(s)
  {
    StripIllegalFixesClean(StripIllegal(s));
  }

  /**
   * The sanitizer works character by character and keeps the order of what it
   * keeps: it distributes over concatenation. With StripIllegalOneChar this
   * pins it down on every input.
   */
  lemma {:induction false} StripIllegalConcat(a: string, b: string)
    ensures StripIllegal(a + b) == StripIllegal(a) + StripIllegal(b)
  {
    if a == [] {
      assert a + b == b;
    } else {
      assert (a + b)[0] == a[0];
      assert (a + b)[1..] == a[1..] + b;
      StripIllegalConcat(a[1..], b);
    }
  }

  /** On one character the sanitizer deletes exactly the illegal ones. */
  lemma StripIllegalOneChar(c: char)
    ensures StripIllegal([c]) == if IsIllegal(c) then [] else [c]
  {
    assert [c][1..] == [];
  }

  /** Each legal character occurs in the output exactly as often as in the input; illegal ones never. */
  lemma {:induction false} StripIllegalCounts(s: string, c: char)
    ensures multiset(StripIllegal(s))[c] == if IsIllegal(c) then 0 else multiset(s)[c]
  {
    if s != [] {
      StripIllegalCounts(s[1..], c);
      assert s == [s[0]] + s[1..];
      assert multiset(s) == multiset([s[0]]) + multiset(s[1..]);
    }
  }

  // ---------------------------------------------------------------------------
  // str.strip()
  // ---------------------------------------------------------------------------

  /** Python's `str.isspace()` on one character. */
  predicate IsSpace(c: char) {
    ('\t' <= c <= '\r') || ('\U{1C}' <= c <= '\U{1F}') || c == ' ' || c == '\U{85}' || c == '\U{A0}'
    || c == '\U{1680}' || ('\U{2000}' <= c <= '\U{200A}') || c == '\U{2028}' || c == '\U{2029}'
    || c == '\U{202F}' || c == '\U{205F}' || c == '\U{3000}'
  }

  /** Every character of `s` from index `lo` up to `hi` is whitespace. */
  predicate AllSpaceIn(s: string, lo: nat, hi: nat)
    requires lo <= hi <= |s|
  {
    forall k | lo <= k < hi :: IsSpace(s[k])
  }

  /** Where `s.lstrip()` starts when scanning from `i`: the first non-space index at or after `i`, or `|s|`. */
  function SkipSpace(s: string, i: nat): (r: nat)
    requires i <= |s|
    ensures i <= r <= |s| && AllSpaceIn(s, i, r)
    ensures r == |s| || !IsSpace(s[r])
    decreases |s| - i
  {
    if i == |s| || !IsSpace(s[i]) then i else SkipSpace(s, i + 1)
  }

  /** Where `s.rstrip()` ends when scanning back from `j` no further than `lo`: just past the last non-space index before `j`, or `lo`. */
  function SkipSpaceBack(s: string, lo: nat, j: nat): (r: nat)
    requires lo <= j <= |s|
    ensures lo <= r <= j && AllSpaceIn(s, r, j)
    ensures r == lo || !IsSpace(s[r - 1])
    decreases j
  {
    if j == lo || !IsSpace(s[j - 1]) then j else SkipSpaceBack(s, lo, j - 1)
  }

  /**
   * `s.strip()`: the slice `s[i..j]` that remains after dropping the whitespace
   * on both ends; it starts and ends with a non-space character unless empty,
   * and it is empty only when `s` is all whitespace.
   */
  function Strip(s: string): (r: string)
    ensures var i := SkipSpace(s, 0);
      && i + |r| <= |s| && r == s[i..i + |r|]
      && AllSpaceIn(s, 0, i) && AllSpaceIn(s, i + |r|, |s|)
    ensures r == [] || (!IsSpace(r[0]) && !IsSpace(r[|r| - 1]))
  {
    var i := SkipSpace(s, 0);
    s[i..SkipSpaceBack(s, i, |s|)]
  }

  // ---------------------------------------------------------------------------
  // Searching for one character
  // ---------------------------------------------------------------------------

  /** `s.rfind(c)`: the last index holding `c`, or -1. */
  function LastIndexOf(s: string, c: char): (r: int)
    ensures -1 <= r < |s|
    ensures r >= 0 ==> s[r] == c
    ensures forall k | r < k < |s| :: s[k] != c
  {
    if s == [] then -1
    else if s[|s| - 1] == c then |s| - 1
    else LastIndexOf(s[..|s| - 1], c)
  }

  /** `s.split(c)[0]`: everything before the first `c`, or all of `s` when `c` does not occur. */
  function BeforeFirst(s: string, c: char): (r: string)
    ensures |r| <= |s| && r == s[..|r|]
    ensures forall k | 0 <= k < |r| :: r[k] != c
    ensures |r| < |s| ==> s[|r|] == c
  {
    if s == [] || s[0] == c then []
    else [s[0]] + BeforeFirst(s[1..], c)
  }
}
