/**
 * What the model leaves abstract: the four regular expressions too large to hand-code (`url_re`,
 * `_email_re`, `_text_re`, `_domain_re`) and the code of user-written placeholders and tags.
 * Each is a parameter of the model, a total function supplied from outside.
 */
module Matchers {
  import opened Wrappers
  import opened Errors
  import opened TagOptions

  datatype Env = Env(
    /** `url_re.search(s)`: the span `(start, end)` of the leftmost match, if any. */
    urlSearch: string -> Option<(nat, nat)>,
    /** `re.search(_email_re, s) is not None`. */
    emailSearch: string -> bool,
    /** `re.search(_text_re, s) is not None`. */
    textSearch: string -> bool,
    /** `_domain_re.match(s) is not None`. */
    domainMatch: string -> bool,
    /** The `validate(content, extra_context)` of a user-written placeholder class, by key. */
    customValidate: (string, Option<string>, string) -> Result<bool, Error>,
    /** The `render(value, option, parent)` of a user-written tag class, by key. */
    customRender: (string, Option<string>, Option<string>, Option<BBCodeTagOptions>) -> Result<string, Error>)

  /**
   * The URL match in `s`, as a non-empty span inside `s`. A span the supplied function reports
   * outside `s` is read as no match, so every use of a span is in range.
   */
  function UrlMatch(env: Env, s: string): (r: Option<(nat, nat)>)
    ensures r.Some? ==> r.value.0 < r.value.1 <= |s|
    ensures r.Some? ==> r == env.urlSearch(s)
  {
    match env.urlSearch(s)
    case Some((a, b)) => if a < b <= |s| then Some((a, b)) else None
    case None => None
  }
}
