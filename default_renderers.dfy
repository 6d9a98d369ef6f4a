/**
 * The two built-in tags that render by code rather than by a definition string: `list`
 * (`ListBBCodeTag.render`, and `_render_list` of the legacy parser) and `url`
 * (`UrlBBCodeTag.render`, and `_render_url` of the legacy parser).
 */
module BuiltinRenderers {
  import opened Wrappers
  import opened Text
  import opened Errors
  import opened Utils
  import opened PyFormat
  import opened Matchers

  /** The `css_opts` table: the list style each recognised option selects. */
  function ListStyle(option: Option<string>): Option<string>
  {
    match option
    case Some("1") => Some("decimal")
    case Some("01") => Some("decimal-leading-zero")
    case Some("a") => Some("lower-alpha")
    case Some("A") => Some("upper-alpha")
    case Some("i") => Some("lower-roman")
    case Some("I") => Some("upper-roman")
    case _ => None
  }

  /**
   * A recognised option gives an ordered list styled by the table, anything else (no option
   * included) an unordered list; the value is formatted as is, `None` as "None".
   */
  function ListHtml(value: Option<string>, option: Option<string>): string
  {
    match ListStyle(option)
    case Some(style) => "<ol style=\"list-style-type:" + style + ";\">" + Show(value) + "</ol>"
    case None => "<ul>" + Show(value) + "</ul>"
  }

  /** Exactly the six options of the table have a style. */
  lemma ListStyleKeys(option: Option<string>)
    ensures ListStyle(option).Some? <==>
      option in {Some("1"), Some("01"), Some("a"), Some("A"), Some("i"), Some("I")}
  {
  }

  /** A text starting with one prefix does not start with a different one of the same length. */
  lemma PrefixDecides(p: string, rest: string, q: string)
    requires |p| == |q|
    ensures StartsWith(p + rest, q) <==> p == q
  {
    assert (p + rest)[..|p|] == p;
  }

  /** A styled option gives an ordered list, anything else an unordered one. */
  lemma ListOrderedIff(value: Option<string>, option: Option<string>)
    ensures StartsWith(ListHtml(value, option), "<ol") <==> ListStyle(option).Some?
  {
    match ListStyle(option)
    case Some(style) =>
      PrefixDecides("<ol", " style=\"list-style-type:" + style + ";\">" + Show(value) + "</ol>", "<ol");
    case None =>
      PrefixDecides("<ul", ">" + Show(value) + "</ul>", "<ol");
  }

  /** The list's items are the value, formatted as is, between the opening and closing tags. */
  lemma ListWrapsValue(value: Option<string>, option: Option<string>)
    ensures EndsWith(ListHtml(value, option), Show(value) + (if ListStyle(option).Some? then "</ol>" else "</ul>"))
  {
    var close := if ListStyle(option).Some? then "</ol>" else "</ul>";
    var open := match ListStyle(option)
      case Some(style) => "<ol style=\"list-style-type:" + style + ";\">"
      case None => "<ul>";
    assert ListHtml(value, option) == open + Show(value) + close;
    ConcatAssoc(open, Show(value), close);
    EndsWithSuffix(open, Show(value) + close);
  }

  lemma EndsWithSuffix(p: string, q: string)
    ensures EndsWith(p + q, q)
  {
    assert (p + q)[|p + q| - |q|..] == q;
  }

  /** `if option` in Python: a non-empty option. */
  predicate HasOption(option: Option<string>) { option.Some? && option.value != [] }

  /**
   * The link target: the escaped option when there is one, else the value; "http://" is
   * prepended exactly when the target holds no "://" and looks like a domain name. Without an
   * option a `None` value makes the `in` test raise `TypeError`.
   */
  function Href(env: Env, table: Replacements, value: Option<string>, option: Option<string>): (r: Result<string, Error>)
    ensures r.Err? <==> !HasOption(option) && value.None?
    ensures r.Err? ==> r.error == TypeError
    ensures r.Ok? ==>
      var target := if HasOption(option) then ApplyReplacements(option.value, table) else value.value;
      r.value == if !Contains(target, "://") && env.domainMatch(target) then "http://" + target else target
  {
    if HasOption(option) then
      var h := ApplyReplacements(option.value, table);
      Ok(if !Contains(h, "://") && env.domainMatch(h) then "http://" + h else h)
    else match value
      case None => Err(TypeError)
      case Some(h) => Ok(if !Contains(h, "://") && env.domainMatch(h) then "http://" + h else h)
  }

  /**
   * `<a href="{href}">{content}</a>`: the text is the value when an option gave the target and
   * the target otherwise, falling back to the target when it is empty or `None`.
   */
  function UrlHtml(env: Env, table: Replacements, value: Option<string>, option: Option<string>): (r: Result<string, Error>)
    ensures r.Err? <==> Href(env, table, value, option).Err?
    ensures r.Ok? ==>
      var h := Href(env, table, value, option).value;
      var text := if HasOption(option) && value.Some? && value.value != [] then value.value else h;
      r.value == "<a href=\"" + h + "\">" + text + "</a>"
  {
    match Href(env, table, value, option)
    case Err(e) => Err(e)
    case Ok(h) =>
      var content := if HasOption(option) then value else Some(h);
      var text := if content.Some? && content.value != [] then content.value else h;
      Ok("<a href=\"" + h + "\">" + text + "</a>")
  }

  /** A text with no HTML special character is its own escape. */
  lemma {:induction false} EscapeHtmlPlain(s: string)
    requires forall i :: 0 <= i < |s| ==> s[i] !in "&<>\"'"
    ensures EscapeHtml(s) == s
  {
    if s != [] {
      assert s[0] !in "&<>\"'";
      EscapeHtmlPlain(s[1..]);
    }
  }

  /**
   * `[url=google.com]goto google[/url]`: an option naming a bare domain (no "://", no HTML
   * special character) gets "http://" and the tag's content becomes the link text.
   */
  lemma UrlWithDomainOption(env: Env, domain: string, value: string)
    requires env.domainMatch(domain) && ':' !in domain && domain != [] && value != []
    requires forall i :: 0 <= i < |domain| ==> domain[i] !in "&<>\"'"
    ensures UrlHtml(env, EscapeTable, Some(value), Some(domain))
         == Ok("<a href=\"http://" + domain + "\">" + value + "</a>")
  {
    EscapeTableIsPerChar(domain);
    EscapeHtmlPlain(domain);
    NoColonNoScheme(domain);
    assert Href(env, EscapeTable, Some(value), Some(domain)) == Ok("http://" + domain);
    ConcatAssoc("<a href=\"", "http://", domain);
    AnchorPrefix();
  }

  lemma AnchorPrefix()
    ensures "<a href=\"" + "http://" == "<a href=\"http://"
  {
  }

  /** A text without ':' contains no "://". */
  lemma {:induction false} NoColonNoScheme(s: string)
    requires ':' !in s
    ensures !Contains(s, "://")
    decreases |s|
  {
    if |s| > 0 {
      if |s| >= 3 { assert s[..3][0] == s[0]; }
      NoColonNoScheme(s[1..]);
    }
  }

  /** A target that already names a scheme is kept as it is. */
  lemma SchemeKept(env: Env, value: string)
    requires Contains(value, "://")
    ensures UrlHtml(env, EscapeTable, Some(value), None) == Ok("<a href=\"" + value + "\">" + value + "</a>")
  {
  }
}
