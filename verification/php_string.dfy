/** The few PHP string primitives the router relies on.

    - Truthiness: PHP treats a string as false when it is `""` or `"0"`; the
      router tests `!$url` and `!$route` with that rule.
    - `strtolower`: since PHP 8.2 it maps only the ASCII letters A-Z and is
      independent of the locale; that is the mapping modelled here.
    - `trim($s) == ''`: the default trim set is space, tab, newline, carriage
      return, NUL and vertical tab, so the trimmed string is empty exactly
      when every character lies in that set. */
module PhpString {

  /** PHP's falsiness for a string value. */
  predicate IsFalsy(s: string) {
    s == "" || s == "0"
  }

  predicate IsUpper(c: char) {
    'A' <= c <= 'Z'
  }

  function LowerChar(c: char): (d: char)
    ensures !IsUpper(d)
    ensures IsUpper(c) ==> d as int == c as int + 32
    ensures !IsUpper(c) ==> d == c
  {
    if IsUpper(c) then (c as int + 32) as char else c
  }

  /** No ASCII upper-case letter occurs in `s`. */
  predicate IsLowerCase(s: string) {
    forall i :: 0 <= i < |s| ==> !IsUpper(s[i])
  }

  /** `strtolower` on ASCII: every letter A-Z is replaced by its lower-case
      form, every other character is kept, and the length is unchanged. */
  function Lower(s: string): (r: string)
    ensures |r| == |s|
    ensures forall i :: 0 <= i < |s| ==> r[i] == LowerChar(s[i])
    ensures IsLowerCase(r)
  {
    if |s| == 0 then "" else [LowerChar(s[0])] + Lower(s[1..])
  }

  /** Lower-casing a string that has no upper-case letter returns it
      unchanged; in particular lower-casing is idempotent. */
  lemma LowerFixesLowerCase(s: string)
    requires IsLowerCase(s)
    ensures Lower(s) == s
  {
    var r := Lower(s);
    forall i | 0 <= i < |s| ensures r[i] == s[i] {
      assert !IsUpper(s[i]);
    }
  }

  lemma LowerIdempotent(s: string)
    ensures Lower(Lower(s)) == Lower(s)
  {
    LowerFixesLowerCase(Lower(s));
  }

  /** The characters PHP's `trim` strips by default. */
  predicate IsTrimmed(c: char) {
    c == ' ' || c == '\t' || c == '\n' || c == '\r' || c == '\0' || c == '\U{B}'
  }

  /** `trim($s) == ''`. */
  predicate IsBlank(s: string) {
    forall i :: 0 <= i < |s| ==> IsTrimmed(s[i])
  }
}
