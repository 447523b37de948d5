/** Character classes and string tests that the JavaScript source gets from regular
    expressions and from `String.prototype.includes` / `toLowerCase`. */
module Text {

  /** The characters JavaScript's `\s` matches. */
  predicate IsSpace(c: char)
  {
    c == ' ' || c == '\t' || c == '\n' || c == '\r' || c == '\U{B}' || c == '\U{C}'
    || c == '\U{A0}' || c == '\U{1680}' || ('\U{2000}' <= c <= '\U{200A}')
    || c == '\U{2028}' || c == '\U{2029}' || c == '\U{202F}' || c == '\U{205F}'
    || c == '\U{3000}' || c == '\U{FEFF}'
  }

  /** The characters that JavaScript's `.` does not match (without the `s` flag). */
  predicate IsLineTerminator(c: char)
  {
    c == '\n' || c == '\r' || c == '\U{2028}' || c == '\U{2029}'
  }

  /** The class `[A-Z]`. */
  predicate IsUpper(c: char)
  {
    'A' <= c <= 'Z'
  }

  /** The class `[!@#$%^&*]`. */
  predicate IsSpecial(c: char)
  {
    c == '!' || c == '@' || c == '#' || c == '$' || c == '%' || c == '^' || c == '&' || c == '*'
  }

  predicate NoSpace(s: string)
  {
    forall i | 0 <= i < |s| :: !IsSpace(s[i])
  }

  /** `t` occurs in `s` starting at index `i`. */
  predicate OccursAt(s: string, t: string, i: nat)
  {
    i + |t| <= |s| && s[i..i + |t|] == t
  }

  /** `s.includes(t)`: `t` occurs in `s` as a contiguous substring. */
  predicate Contains(s: string, t: string)
  {
    exists i: nat | i <= |s| :: OccursAt(s, t, i)
  }

  /** Every string contains the empty string, as `"abc".includes("")` is true. */
  lemma ContainsEmpty(s: string)
    ensures Contains(s, "")
  {
    assert OccursAt(s, "", 0);
  }

  /** An occurrence survives extension of the string on either side. */
  lemma ContainsInContext(pre: string, t: string, post: string)
    ensures Contains(pre + t + post, t)
  {
    var s := pre + t + post;
    assert s[|pre|..|pre| + |t|] == t;
    assert OccursAt(s, t, |pre|);
  }

  /** `toLowerCase` restricted to ASCII: `A`..`Z` become `a`..`z`, everything else is kept. */
  function LowerChar(c: char): (r: char)
    ensures IsUpper(c) ==> r as int == c as int + 32
    ensures !IsUpper(c) ==> r == c
    ensures !IsUpper(r)
  {
    if IsUpper(c) then (c as int + 32) as char else c
  }

  function ToLower(s: string): (r: string)
    ensures |r| == |s|
    ensures forall i | 0 <= i < |s| :: r[i] == LowerChar(s[i])
  {
    seq(|s|, i requires 0 <= i < |s| => LowerChar(s[i]))
  }

  /** Lower-casing twice is lower-casing once. */
  lemma ToLowerIdempotent(s: string)
    ensures ToLower(ToLower(s)) == ToLower(s)
  {
  }
}
