/**
 * The renderer shared by both parser generations: `_render_textual_content` (links pulled out
 * into markers, HTML escaping, smilies, links put back), `_link_replace`, and `_render_tokens`,
 * which walks the repaired token list, renders each tag through its closing search and
 * recursion on the embedded tokens, and joins the pieces.
 */
module Render {
  import opened Wrappers
  import opened Text
  import opened Errors
  import opened Utils
  import opened Matchers
  import opened Lexer
  import opened TagOptions
  import opened Repair
  import opened Closing

  /**
   * What rendering reads from the parser: the regular expressions, each tag's options, the call
   * that renders one tag (`do_render` of the tag object, or the legacy renderer function), the
   * escape table, the smilies in insertion order and `newline_char`.
   */
  datatype Config = Config(
    env: Env,
    reg: Registry,
    call: (string, Option<string>, Option<string>, Option<BBCodeTagOptions>) -> Result<string, Error>,
    table: Replacements,
    smilies: Replacements,
    newlineChar: string,
    /**
     * The marker standing for the `k`-th link pulled out of a text when the search started at
     * `pos`: `'-*-bbcode-link-{id(match)}-{pos}-*-'`, whose middle part is an object identity.
     */
    marker: (nat, nat) -> string)

  /** The link target of `_link_replace`: the URL, with "http://" in front when it names no scheme. */
  function LinkHref(url: string): string
  {
    if Contains(url, "://") then url else "http://" + url
  }

  /** `_link_replace(match)`: an anchor to the target whose text is the URL as written. */
  function LinkHtml(url: string): string
  {
    "<a href=\"" + LinkHref(url) + "\">" + url + "</a>"
  }

  /**
   * The link-pulling loop from the state where `data` is the text so far, `pos` the search start
   * that names the next marker, `resume` the index after the last marker and `k` the number of
   * links pulled: the final text and the `(marker, anchor)` pairs still to come.
   */
  function PullFrom(env: Env, marker: (nat, nat) -> string, data: string, pos: nat, resume: nat, k: nat): (string, Replacements)
    requires resume <= |data|
    decreases |data| - resume
  {
    match UrlMatch(env, data[resume..])
    case None => (data, [])
    case Some((a, b)) =>
      var token := marker(k, pos);
      var start := resume + a;
      var data' := data[..start] + token + data[resume + b..];
      var rest := PullFrom(env, marker, data', start, start + |token|, k + 1);
      (rest.0, [(token, LinkHtml(data[start..resume + b]))] + rest.1)
  }

  /** The text with its links replaced by markers, and the markers with their anchors. */
  function PullLinks(env: Env, marker: (nat, nat) -> string, data: string): (string, Replacements)
  {
    PullFrom(env, marker, data, 0, 0, 0)
  }

  /** One pulled link: the pair for it comes first, then those of the text with its marker in place. */
  lemma PullStep(env: Env, marker: (nat, nat) -> string, data: string, pos: nat, resume: nat, k: nat, a: nat, b: nat)
    requires resume <= |data| && UrlMatch(env, data[resume..]) == Some((a, b))
    ensures resume + a + |marker(k, pos)| <= |data[..resume + a] + marker(k, pos) + data[resume + b..]|
    ensures PullFrom(env, marker, data, pos, resume, k)
      == var q := PullFrom(env, marker, data[..resume + a] + marker(k, pos) + data[resume + b..], resume + a, resume + a + |marker(k, pos)|, k + 1);
         (q.0, [(marker(k, pos), LinkHtml(data[resume + a..resume + b]))] + q.1)
  {
  }

  lemma PairsAssoc(links: Replacements, pair: (string, string), rest: Replacements)
    ensures links + ([pair] + rest) == (links + [pair]) + rest
  {
  }

  /** What the pulling loop keeps: the final text and the pairs still to come complete `links`. */
  predicate PullInv(env: Env, marker: (nat, nat) -> string, input: string, data: string, pos: nat, resume: nat, k: nat, links: Replacements)
  {
    resume <= |data|
    && PullFrom(env, marker, data, pos, resume, k).0 == PullLinks(env, marker, input).0
    && links + PullFrom(env, marker, data, pos, resume, k).1 == PullLinks(env, marker, input).1
  }

  /** One pass of the loop keeps `PullInv`. */
  lemma PullAdvance(env: Env, marker: (nat, nat) -> string, input: string, data: string, pos: nat, resume: nat, k: nat,
                    links: Replacements, a: nat, b: nat, data': string, pair: (string, string))
    requires PullInv(env, marker, input, data, pos, resume, k, links)
    requires UrlMatch(env, data[resume..]) == Some((a, b))
    requires data' == data[..resume + a] + marker(k, pos) + data[resume + b..]
    requires pair == (marker(k, pos), LinkHtml(data[resume + a..resume + b]))
    ensures PullInv(env, marker, input, data', resume + a, resume + a + |marker(k, pos)|, k + 1, links + [pair])
    ensures |data'| - (resume + a + |marker(k, pos)|) < |data| - resume
  {
    PullStep(env, marker, data, pos, resume, k, a, b);
    var rest := PullFrom(env, marker, data', resume + a, resume + a + |marker(k, pos)|, k + 1);
    assert PullFrom(env, marker, data, pos, resume, k) == (rest.0, [pair] + rest.1);
    PairsAssoc(links, pair, rest.1);
  }

  /** With no match left, the text and the pairs so far are the result. */
  lemma PullDone(env: Env, marker: (nat, nat) -> string, input: string, data: string, pos: nat, resume: nat, k: nat,
                 links: Replacements)
    requires PullInv(env, marker, input, data, pos, resume, k, links)
    requires UrlMatch(env, data[resume..]).None?
    ensures (data, links) == PullLinks(env, marker, input)
  {
    assert PullFrom(env, marker, data, pos, resume, k) == (data, []);
    assert links + [] == links;
  }

  /** The `while True` loop of `_render_textual_content` that pulls the links out. */
  method PullLinksLoop(env: Env, marker: (nat, nat) -> string, input: string) returns (data: string, links: Replacements)
    ensures (data, links) == PullLinks(env, marker, input)
  {
    data := input;
    links := [];
    assert links + PullLinks(env, marker, input).1 == PullLinks(env, marker, input).1;
    var pos: nat := 0;
    var resume: nat := 0;
    var k: nat := 0;
    var done := false;
    while !done
      invariant PullInv(env, marker, input, data, pos, resume, k, links)
      invariant done ==> (data, links) == PullLinks(env, marker, input)
      decreases !done, |data| - resume
    {
      done, data, pos, resume, k, links := PullOnce(env, marker, input, data, pos, resume, k, links);
    }
  }

  /** One pass of the pulling loop: the next link replaced by its marker, or the end of the search. */
  method PullOnce(env: Env, marker: (nat, nat) -> string, input: string, data: string, pos: nat, resume: nat, k: nat,
                  links: Replacements)
    returns (done: bool, data': string, pos': nat, resume': nat, k': nat, links': Replacements)
    requires PullInv(env, marker, input, data, pos, resume, k, links)
    ensures PullInv(env, marker, input, data', pos', resume', k', links')
    ensures done ==> (data', links') == PullLinks(env, marker, input)
    ensures !done ==> |data'| - resume' < |data| - resume
  {
    var m := UrlMatch(env, data[resume..]);
    if m.None? {
      PullDone(env, marker, input, data, pos, resume, k, links);
      return true, data, pos, resume, k, links;
    }
    var a, b := m.value.0, m.value.1;
    var token := marker(k, pos);
    var start := resume + a;
    var pair := (token, LinkHtml(data[start..resume + b]));
    data' := data[..start] + token + data[resume + b..];
    PullAdvance(env, marker, input, data, pos, resume, k, links, a, b, data', pair);
    done, pos', resume', k', links' := false, start, start + |token|, k + 1, links + [pair];
  }

  /**
   * `_render_textual_content(data, replace_specialchars, replace_links, replace_smilies)`: the
   * links are pulled out, the rest is escaped, then the smilies are replaced, then the links are
   * put back.
   */
  function RenderText(cfg: Config, data: string, specialChars: bool, links: bool, smilies: bool): string
  {
    var pulled := if links then PullLinks(cfg.env, cfg.marker, data) else (data, []);
    var escaped := if specialChars then ApplyReplacements(pulled.0, cfg.table) else pulled.0;
    var smiled := if smilies then ApplyReplacements(escaped, cfg.smilies) else escaped;
    ApplyReplacements(smiled, pulled.1)
  }

  method RenderTextualContent(cfg: Config, input: string, specialChars: bool, links: bool, smilies: bool)
    returns (data: string)
    ensures data == RenderText(cfg, input, specialChars, links, smilies)
  {
    data := input;
    var urlMatches := [];
    if links {
      data, urlMatches := PullLinksLoop(cfg.env, cfg.marker, input);
    }
    if specialChars {
      data := ReplaceAll(data, cfg.table);
    }
    if smilies {
      data := ReplaceAll(data, cfg.smilies);
    }
    data := ReplaceAll(data, urlMatches);
  }

  /** Text tokens inherit their treatment from the enclosing tag; at top level all three are on. */
  predicate EscapesIn(parent: Option<BBCodeTagOptions>) { parent.None? || parent.value.escapeHtml }

  predicate LinksIn(parent: Option<BBCodeTagOptions>) { parent.None? || parent.value.replaceLinks }

  predicate SmiliesIn(parent: Option<BBCodeTagOptions>) { parent.None? || parent.value.renderEmbedded }

  /** The name a tag token is looked up by (every tag token the lexer emits has one). */
  function NameOf(t: Token): string
  {
    if t.tagName.Some? then t.tagName.value else ""
  }

  /** The content handed to a tag: stripped first when `strip`, then newlines replaced when `transform_newlines`. */
  function TagInner(cfg: Config, o: BBCodeTagOptions, inner: string): string
  {
    var stripped := if o.strip then Text.Strip(inner) else inner;
    if o.transformNewlines then Replace(stripped, "\n", cfg.newlineChar) else stripped
  }

  /** The output of one pass of the `_render_tokens` loop and the next value of `itk`. */
  datatype Emitted = Emitted(out: string, next: nat)

  /** The index of the last token a non-standalone tag takes: its closing token, backing up one when that is not consumed. */
  function TokenEnd(c: Close): int
  {
    if c.consume then c.end else c.end - 1
  }

  /** With `swallow_trailing_newline`, a NEWLINE right after the tag is taken as well. */
  function Swallow(o: BBCodeTagOptions, ts: seq<Token>, tokenEnd: nat): nat
  {
    if o.swallowTrailingNewline && tokenEnd + 1 < |ts| && ts[tokenEnd + 1].kind == Newline then tokenEnd + 1 else tokenEnd
  }

  /** The tokens between a non-standalone START token at `itk` and the token that closes it. */
  function Embedded(cfg: Config, ts: seq<Token>, itk: nat): seq<Token>
    requires itk < |ts|
  {
    var c := FindClosing(ts[itk].tagName, OptionsOf(ts[itk], cfg.reg), ts, itk + 1);
    ts[itk + 1..c.end]
  }

  /**
   * The content of the tag opened at `itk`, before stripping: its embedded tokens rendered as
   * BBCode with the tag as parent when it renders embedded tags, else their text, without smilies.
   */
  function TagContent(cfg: Config, ts: seq<Token>, itk: nat): Result<string, Error>
    requires itk < |ts|
    decreases |ts|, 0, 0
  {
    var o := OptionsOf(ts[itk], cfg.reg);
    var embedded := Embedded(cfg, ts, itk);
    if o.renderEmbedded then RenderFrom(cfg, embedded, 0, Some(o))
    else Ok(RenderText(cfg, Texts(embedded), o.escapeHtml, o.replaceLinks, o.renderEmbedded))
  }

  /** One pass of the `_render_tokens` loop at index `itk`. */
  function RenderStep(cfg: Config, ts: seq<Token>, itk: nat, parent: Option<BBCodeTagOptions>): (r: Result<Emitted, Error>)
    requires itk < |ts|
    ensures r.Ok? ==> itk < r.value.next <= |ts| + 1
    decreases |ts|, 0, 1
  {
    var t := ts[itk];
    if t.kind == StartTag then
      var o := OptionsOf(t, cfg.reg);
      if o.standalone then
        (match cfg.call(NameOf(t), None, t.option, parent)
         case Err(e) => Err(e)
         case Ok(html) => Ok(Emitted(html, itk + 1)))
      else
        var inner := TagContent(cfg, ts, itk);
        if inner.Err? then Err(inner.error)
        else
          var html := cfg.call(NameOf(t), Some(TagInner(cfg, o, inner.value)), t.option, parent);
          if html.Err? then Err(html.error)
          else Ok(Emitted(html.value, Swallow(o, ts, TokenEnd(FindClosing(t.tagName, o, ts, itk + 1))) + 1))
    else if t.kind == Data then
      Ok(Emitted(RenderText(cfg, t.text, EscapesIn(parent), LinksIn(parent), SmiliesIn(parent)), itk + 1))
    else if t.kind == Newline then
      Ok(Emitted(if parent.None? then cfg.newlineChar else t.text, itk + 1))
    else
      Ok(Emitted("", itk + 1))
  }

  /** `_render_tokens(tokens, parent_tag)` from index `itk`: the joined output of the remaining passes. */
  function RenderFrom(cfg: Config, ts: seq<Token>, itk: nat, parent: Option<BBCodeTagOptions>): Result<string, Error>
    decreases |ts|, 1, |ts| + 1 - itk
  {
    if itk >= |ts| then Ok("")
    else
      var step := RenderStep(cfg, ts, itk, parent);
      if step.Err? then Err(step.error)
      else Prepend(step.value.out, RenderFrom(cfg, ts, step.value.next, parent))
  }

  function RenderTokensSpec(cfg: Config, ts: seq<Token>, parent: Option<BBCodeTagOptions>): Result<string, Error>
  {
    RenderFrom(cfg, ts, 0, parent)
  }

  /** Output already joined, in front of a result that may be an error. */
  function Prepend(s: string, r: Result<string, Error>): Result<string, Error>
  {
    match r
    case Ok(v) => Ok(s + v)
    case Err(e) => Err(e)
  }

  lemma PrependAppend(a: string, b: string, r: Result<string, Error>)
    ensures Prepend(a, Prepend(b, r)) == Prepend(a + b, r)
    ensures Prepend("", r) == r
  {
    if r.Ok? {
      ConcatAssoc(a, b, r.value);
      assert "" + r.value == r.value;
    }
  }

  /** `_render_tokens`: the `itk` loop collecting the rendered pieces in `rendered`. */
  method RenderTokens(cfg: Config, tokens: seq<Token>, parent: Option<BBCodeTagOptions>)
    returns (r: Result<string, Error>)
    ensures r == RenderTokensSpec(cfg, tokens, parent)
    decreases |tokens|, 2
  {
    var itk: nat := 0;
    var rendered: seq<string> := [];
    PrependAppend("", "", RenderFrom(cfg, tokens, 0, parent));
    while itk < |tokens|
      invariant Prepend(Concat(rendered), RenderFrom(cfg, tokens, itk, parent)) == RenderTokensSpec(cfg, tokens, parent)
      decreases |tokens| + 1 - itk
    {
      var token := tokens[itk];
      var piece: string;
      var next: nat;
      if token.kind == StartTag {
        var step := RenderTag(cfg, tokens, itk, parent);
        if step.Err? {
          return Err(step.error);
        }
        piece, next := step.value.out, step.value.next;
      } else {
        if token.kind == Data {
          piece := RenderTextualContent(cfg, token.text, EscapesIn(parent), LinksIn(parent), SmiliesIn(parent));
        } else if token.kind == Newline {
          piece := if parent.None? then cfg.newlineChar else token.text;
        } else {
          piece := "";
        }
        next := itk + 1;
      }
      assert RenderStep(cfg, tokens, itk, parent) == Ok(Emitted(piece, next));
      ConcatAppend(rendered, [piece]);
      assert Concat([piece]) == piece + "";
      assert piece + "" == piece;
      PrependAppend(Concat(rendered), piece, RenderFrom(cfg, tokens, next, parent));
      rendered := rendered + [piece];
      itk := next;
    }
    assert Concat(rendered) + "" == Concat(rendered);
    return Ok(Concat(rendered));
  }

  /** The START-token branch of the `_render_tokens` loop. */
  method RenderTag(cfg: Config, tokens: seq<Token>, itk: nat, parent: Option<BBCodeTagOptions>)
    returns (r: Result<Emitted, Error>)
    requires itk < |tokens| && tokens[itk].kind == StartTag
    ensures r == RenderStep(cfg, tokens, itk, parent)
    decreases |tokens|, 1
  {
    var token := tokens[itk];
    var o := OptionsOf(token, cfg.reg);
    if o.standalone {
      var html := cfg.call(NameOf(token), None, token.option, parent);
      StandaloneStep(cfg, tokens, itk, parent);
      if html.Err? {
        return Err(html.error);
      }
      return Ok(Emitted(html.value, itk + 1));
    }
    var c := FindClosingToken(token.tagName, o, tokens, itk + 1);
    var tokenEnd := c.end;
    if !c.consume {
      tokenEnd := tokenEnd - 1;
    }
    var content := RenderContent(cfg, tokens, itk, c);
    if content.Err? {
      ContentErrStep(cfg, tokens, itk, parent);
      return Err(content.error);
    }
    var inner := content.value;
    if o.strip {
      inner := Text.Strip(inner);
    }
    if o.transformNewlines {
      inner := Replace(inner, "\n", cfg.newlineChar);
    }
    assert inner == TagInner(cfg, o, content.value);
    var html := cfg.call(NameOf(token), Some(inner), token.option, parent);
    if html.Err? {
      HtmlErrStep(cfg, tokens, itk, parent, content.value);
      return Err(html.error);
    }
    assert tokenEnd == TokenEnd(c);
    tokenEnd := SwallowNewline(o, tokens, tokenEnd);
    PairedStep(cfg, tokens, itk, parent, content.value, html.value);
    return Ok(Emitted(html.value, tokenEnd + 1));
  }

  /** The `swallow_trailing_newline` check after a tag's closing token. */
  method SwallowNewline(o: BBCodeTagOptions, tokens: seq<Token>, tokenEnd: nat) returns (e: nat)
    ensures e == Swallow(o, tokens, tokenEnd)
  {
    e := tokenEnd;
    if o.swallowTrailingNewline {
      var nextItk := tokenEnd + 1;
      if nextItk < |tokens| && tokens[nextItk].kind == Newline {
        e := nextItk;
      }
    }
  }

  /** The pass at the START token of a standalone tag is its renderer's result. */
  lemma StandaloneStep(cfg: Config, ts: seq<Token>, itk: nat, parent: Option<BBCodeTagOptions>)
    requires itk < |ts| && ts[itk].kind == StartTag && OptionsOf(ts[itk], cfg.reg).standalone
    ensures var html := cfg.call(NameOf(ts[itk]), None, ts[itk].option, parent);
      RenderStep(cfg, ts, itk, parent) == if html.Err? then Err(html.error) else Ok(Emitted(html.value, itk + 1))
  {
  }

  /** A failure while rendering a tag's content fails the pass. */
  lemma ContentErrStep(cfg: Config, ts: seq<Token>, itk: nat, parent: Option<BBCodeTagOptions>)
    requires itk < |ts| && ts[itk].kind == StartTag && !OptionsOf(ts[itk], cfg.reg).standalone
    requires TagContent(cfg, ts, itk).Err?
    ensures RenderStep(cfg, ts, itk, parent) == Err(TagContent(cfg, ts, itk).error)
  {
  }

  /** A failure of the tag's renderer fails the pass. */
  lemma HtmlErrStep(cfg: Config, ts: seq<Token>, itk: nat, parent: Option<BBCodeTagOptions>, content: string)
    requires itk < |ts| && ts[itk].kind == StartTag && !OptionsOf(ts[itk], cfg.reg).standalone
    requires TagContent(cfg, ts, itk) == Ok(content)
    requires cfg.call(NameOf(ts[itk]), Some(TagInner(cfg, OptionsOf(ts[itk], cfg.reg), content)), ts[itk].option, parent).Err?
    ensures RenderStep(cfg, ts, itk, parent)
      == Err(cfg.call(NameOf(ts[itk]), Some(TagInner(cfg, OptionsOf(ts[itk], cfg.reg), content)), ts[itk].option, parent).error)
  {
  }

  /** The pass at a START token of a tag that is not standalone, when its content and its renderer succeed. */
  lemma PairedStep(cfg: Config, ts: seq<Token>, itk: nat, parent: Option<BBCodeTagOptions>, content: string, html: string)
    requires itk < |ts| && ts[itk].kind == StartTag && !OptionsOf(ts[itk], cfg.reg).standalone
    requires TagContent(cfg, ts, itk) == Ok(content)
    requires cfg.call(NameOf(ts[itk]), Some(TagInner(cfg, OptionsOf(ts[itk], cfg.reg), content)), ts[itk].option, parent) == Ok(html)
    ensures var o := OptionsOf(ts[itk], cfg.reg);
      RenderStep(cfg, ts, itk, parent) == Ok(Emitted(html, Swallow(o, ts, TokenEnd(FindClosing(ts[itk].tagName, o, ts, itk + 1))) + 1))
  {
  }

  /** The embedded part of the START-token branch: the slice up to the closing token, rendered or taken as text. */
  method RenderContent(cfg: Config, tokens: seq<Token>, itk: nat, c: Close) returns (r: Result<string, Error>)
    requires itk < |tokens| && c == FindClosing(tokens[itk].tagName, OptionsOf(tokens[itk], cfg.reg), tokens, itk + 1)
    ensures r == TagContent(cfg, tokens, itk)
    decreases |tokens|, 0
  {
    var o := OptionsOf(tokens[itk], cfg.reg);
    var embedded := tokens[itk + 1..c.end];
    if o.renderEmbedded {
      r := RenderTokens(cfg, embedded, Some(o));
    } else {
      var text := RenderTextualContent(cfg, Texts(embedded), o.escapeHtml, o.replaceLinks, o.renderEmbedded);
      r := Ok(text);
    }
  }
}
