/** The regular-expression engine, kept abstract.

    Router.php turns every stored route into `'/^' . route . '/Uim'` (with
    each `/` escaped) and calls `preg_match` on the subject. The model does
    not interpret the pattern language: a `Matcher` is any function from
    (route, subject) to the captures of a successful match, with `None` for
    no match, including the `false` that `preg_match` returns for an invalid
    pattern. */
module Matching {
  import opened Optional

  /** `$matches` after a successful `preg_match`: element 0 is the text the
      whole pattern matched, the rest are the capture groups in order. */
  datatype Captures = Captures(whole: string, groups: seq<string>)

  type Matcher = (string, string) -> Option<Captures>

  /** The router's acceptance test for a pattern: the match succeeds and its
      whole-match text is the entire subject. The leading `^` anchors the
      start, and comparing `$matches[0]` with the subject anchors the end. */
  predicate FullMatch(matcher: Matcher, route: string, subject: string) {
    matcher(route, subject).Some? && matcher(route, subject).value.whole == subject
  }
}
