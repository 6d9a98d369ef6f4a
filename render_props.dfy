/**
 * What the renderer promises: the link target always names a scheme, text is escaped before
 * smilies are replaced, tag-free token lists render token by token, a START token that closes
 * its predecessor is rendered again, stripping happens before newlines are transformed, and a
 * tag that does not render embedded tags shows them as escaped text.
 */
module RenderProps {
  import opened Wrappers
  import opened Text
  import opened Utils
  import opened Matchers
  import opened Lexer
  import opened TagOptions
  import opened Repair
  import opened Closing
  import opened Render
  import opened PyFormat
  import BuiltinRenderers

  /** An occurrence at index `i` is an occurrence. */
  lemma {:induction false} ContainsAt(s: string, sub: string, i: nat)
    requires i <= |s| && StartsWith(s[i..], sub)
    ensures Contains(s, sub)
    decreases i
  {
    if i > 0 {
      assert s[1..][i - 1..] == s[i..];
      ContainsAt(s[1..], sub, i - 1);
    } else {
      assert s[0..] == s;
    }
  }

  /**
   * `_link_replace`: the target always names a scheme, and it is the URL as written exactly when
   * the URL names one already.
   */
  lemma LinkHrefScheme(url: string)
    ensures Contains(LinkHref(url), "://")
    ensures LinkHref(url) == url <==> Contains(url, "://")
  {
    if !Contains(url, "://") {
      var s := "http://" + url;
      assert s[4..][..3] == "://";
      ContainsAt(s, "://", 4);
      assert |s| > |url|;
    }
  }

  /** When no link is pulled out, the text is escaped first and the smilies are replaced in the escaped text. */
  lemma RenderTextOrder(cfg: Config, data: string, specialChars: bool, links: bool, smilies: bool)
    requires !links || UrlMatch(cfg.env, data).None?
    ensures RenderText(cfg, data, specialChars, links, smilies)
      == var escaped := if specialChars then ApplyReplacements(data, cfg.table) else data;
         if smilies then ApplyReplacements(escaped, cfg.smilies) else escaped
  {
    if links {
      assert data[0..] == data;
      assert PullLinks(cfg.env, cfg.marker, data) == (data, []);
    }
  }

  /** With the default table and no smiley or link to replace, rendering text escapes it character by character. */
  lemma RenderTextEscapes(cfg: Config, data: string, links: bool, smilies: bool)
    requires cfg.table == EscapeTable && (!smilies || cfg.smilies == [])
    requires !links || UrlMatch(cfg.env, data).None?
    ensures RenderText(cfg, data, true, links, smilies) == Utils.EscapeHtml(data)
  {
    RenderTextOrder(cfg, data, true, links, smilies);
    EscapeTableIsPerChar(data);
  }

  /**
   * Smilies are replaced after escaping, so the HTML of a smiley's image is not escaped: a text
   * that is just the smiley's code (free of HTML special characters) renders as the image.
   */
  lemma SmileyNotEscaped(cfg: Config, code: string, image: string)
    requires cfg.table == EscapeTable && cfg.smilies == [(code, image)] && code != []
    requires forall i :: 0 <= i < |code| ==> code[i] !in "&<>\"'"
    requires UrlMatch(cfg.env, code).None?
    ensures RenderText(cfg, code, true, true, true) == image
  {
    RenderTextOrder(cfg, code, true, true, true);
    EscapeTableIsPerChar(code);
    BuiltinRenderers.EscapeHtmlPlain(code);
    assert code[..|code|] == code;
    assert code[|code|..] == [];
    assert Replace(code, code, image) == image + Replace([], code, image);
  }

  /** The output of a token that is not a START token, as a pass of the loop gives it. */
  function TokenOut(cfg: Config, t: Token, parent: Option<BBCodeTagOptions>): string
  {
    if t.kind == Data then RenderText(cfg, t.text, EscapesIn(parent), LinksIn(parent), SmiliesIn(parent))
    else if t.kind == Newline then (if parent.None? then cfg.newlineChar else t.text)
    else ""
  }

  /** Token-by-token output: the reference for lists without START tokens. */
  function PlainOut(cfg: Config, ts: seq<Token>, parent: Option<BBCodeTagOptions>): string
  {
    if ts == [] then "" else TokenOut(cfg, ts[0], parent) + PlainOut(cfg, ts[1..], parent)
  }

  predicate NoStart(ts: seq<Token>)
  {
    forall k :: 0 <= k < |ts| ==> ts[k].kind != StartTag
  }

  lemma {:induction false} PlainRenderFrom(cfg: Config, ts: seq<Token>, itk: nat, parent: Option<BBCodeTagOptions>)
    requires itk <= |ts| && NoStart(ts)
    ensures RenderFrom(cfg, ts, itk, parent) == Ok(PlainOut(cfg, ts[itk..], parent))
    decreases |ts| - itk
  {
    if itk < |ts| {
      PlainRenderFrom(cfg, ts, itk + 1, parent);
      assert ts[itk..][1..] == ts[itk + 1..];
      assert ts[itk].kind != StartTag;
      assert RenderStep(cfg, ts, itk, parent) == Ok(Emitted(TokenOut(cfg, ts[itk], parent), itk + 1));
    } else {
      assert ts[itk..] == [];
    }
  }

  /**
   * Without START tokens every token renders on its own: DATA as text under the parent's
   * options, NEWLINE as `newline_char` at top level and as itself inside a tag, END as nothing.
   */
  lemma PlainRender(cfg: Config, ts: seq<Token>, parent: Option<BBCodeTagOptions>)
    requires NoStart(ts)
    ensures RenderTokensSpec(cfg, ts, parent) == Ok(PlainOut(cfg, ts, parent))
  {
    PlainRenderFrom(cfg, ts, 0, parent);
    assert ts[0..] == ts;
  }

  /** Escaped text for DATA, `newline_char` for NEWLINE, nothing for the rest. */
  function SafeOut(ts: seq<Token>, newlineChar: string): string
  {
    if ts == [] then ""
    else (if ts[0].kind == Data then Utils.EscapeHtml(ts[0].text) else if ts[0].kind == Newline then newlineChar else "")
         + SafeOut(ts[1..], newlineChar)
  }

  /**
   * At top level, with the default escape table, no smilies and no link in any DATA token, the
   * token-by-token output is the escaped text with `newline_char` for each newline.
   */
  lemma {:induction false} PlainOutEscapes(cfg: Config, ts: seq<Token>)
    requires cfg.table == EscapeTable && cfg.smilies == []
    requires forall k :: 0 <= k < |ts| && ts[k].kind == Data ==> UrlMatch(cfg.env, ts[k].text).None?
    ensures PlainOut(cfg, ts, None) == SafeOut(ts, cfg.newlineChar)
  {
    if ts != [] {
      if ts[0].kind == Data {
        RenderTextEscapes(cfg, ts[0].text, true, true);
      }
      PlainOutEscapes(cfg, ts[1..]);
    }
  }

  /**
   * When the closing search stops at a START token of the same name without consuming it (the
   * `same_tag_closes` case, as for `[*]`), the next pass of the loop starts on that token.
   */
  lemma SameTagReread(cfg: Config, ts: seq<Token>, itk: nat, parent: Option<BBCodeTagOptions>)
    requires itk < |ts| && ts[itk].kind == StartTag
    requires !OptionsOf(ts[itk], cfg.reg).standalone
    requires !FindClosing(ts[itk].tagName, OptionsOf(ts[itk], cfg.reg), ts, itk + 1).consume
    ensures var r := RenderStep(cfg, ts, itk, parent);
      var c := FindClosing(ts[itk].tagName, OptionsOf(ts[itk], cfg.reg), ts, itk + 1);
      r.Ok? ==> r.value.next == c.end && SameStart(ts[c.end], ts[itk].tagName)
  {
    ClosingHit(ts[itk].tagName, OptionsOf(ts[itk], cfg.reg), ts, itk + 1, 0);
  }

  /** Whitespace at the start of `s + [c]` when `c` is whitespace. */
  lemma {:induction false} LeadLenSnoc(s: string, c: char)
    requires IsSpace(c)
    ensures LeadLen(s + [c]) == if LeadLen(s) == |s| then |s| + 1 else LeadLen(s)
  {
    if s != [] {
      assert (s + [c])[1..] == s[1..] + [c];
      if IsSpace(s[0]) {
        LeadLenSnoc(s[1..], c);
      }
    }
  }

  /** The start of the trailing whitespace of `[c] + s` when `c` is whitespace. */
  lemma {:induction false} TrailStartCons(c: char, s: string)
    requires IsSpace(c)
    ensures TrailStart([c] + s) == if TrailStart(s) == 0 then 0 else TrailStart(s) + 1
    decreases |s|
  {
    if s != [] {
      assert ([c] + s)[..|[c] + s| - 1] == [c] + s[..|s| - 1];
      if IsSpace(s[|s| - 1]) {
        TrailStartCons(c, s[..|s| - 1]);
      }
    }
  }

  /** Whitespace at the start of `[c] + s + [c]` when `c` is whitespace. */
  lemma WrappedLead(c: char, s: string)
    requires IsSpace(c)
    ensures LeadLen([c] + s + [c]) == if LeadLen(s) == |s| then |s| + 2 else LeadLen(s) + 1
  {
    var u := s + [c];
    ConcatAssoc([c], s, [c]);
    LeadLenCons(c, u);
    LeadLenSnoc(s, c);
  }

  lemma LeadLenCons(c: char, u: string)
    requires IsSpace(c)
    ensures LeadLen([c] + u) == 1 + LeadLen(u)
  {
    assert ([c] + u)[1..] == u;
  }

  /** The start of the trailing whitespace of `[c] + s + [c]` when `c` is whitespace. */
  lemma WrappedTrail(c: char, s: string)
    requires IsSpace(c)
    ensures TrailStart([c] + s + [c]) == if TrailStart(s) == 0 then 0 else TrailStart(s) + 1
  {
    var t := [c] + s + [c];
    assert t[..|t| - 1] == [c] + s;
    TrailStartCons(c, s);
  }

  lemma WrappedSlice(c: char, s: string, l: nat, e: nat)
    requires l <= e <= |s|
    ensures ([c] + s + [c])[1 + l..1 + e] == s[l..e]
  {
    var t := [c] + s + [c];
    assert t[1..|s| + 1] == s;
    assert t[1 + l..1 + e] == t[1..|s| + 1][l..e];
  }

  /** Whitespace around a text disappears when it is stripped. */
  lemma StripWrapped(c: char, s: string)
    requires IsSpace(c)
    ensures Text.Strip([c] + s + [c]) == Text.Strip(s)
  {
    var t := [c] + s + [c];
    WrappedLead(c, s);
    WrappedTrail(c, s);
    StripUnfold(t);
    StripUnfold(s);
    var l := LeadLen(s);
    if l < |s| {
      var e := TrailStart(s);
      assert l < e by {
        assert !IsSpace(s[l]);
      }
      WrappedSlice(c, s, l, e);
    }
  }

  /** The two cases of `strip`: all white space, or the slice between the white space at the ends. */
  lemma StripUnfold(s: string)
    ensures Text.Strip(s) == if LeadLen(s) == |s| then [] else s[LeadLen(s)..TrailStart(s)]
  {
  }

  /** Newlines around a text disappear when it is stripped. */
  lemma StripEdges(s: string)
    ensures Text.Strip("\n" + s + "\n") == Text.Strip(s)
  {
    StripWrapped('\n', s);
  }

  /**
   * `strip` comes before `transform_newlines`: with `strip`, newlines around a tag's content are
   * removed and never become `newline_char`.
   */
  lemma StripBeforeTransform(cfg: Config, o: BBCodeTagOptions, s: string)
    requires o.strip
    ensures TagInner(cfg, o, "\n" + s + "\n") == TagInner(cfg, o, s)
  {
    StripEdges(s);
  }

  /**
   * A tag that does not render embedded tags (`code`) hands over the text of everything up to its
   * closing token, tags included, escaped and without smilies.
   */
  lemma LiteralContent(cfg: Config, ts: seq<Token>, itk: nat)
    requires itk < |ts| && cfg.table == EscapeTable
    requires !OptionsOf(ts[itk], cfg.reg).renderEmbedded && OptionsOf(ts[itk], cfg.reg).escapeHtml
    requires !OptionsOf(ts[itk], cfg.reg).replaceLinks || UrlMatch(cfg.env, Texts(Embedded(cfg, ts, itk))).None?
    ensures TagContent(cfg, ts, itk) == Ok(Utils.EscapeHtml(Texts(Embedded(cfg, ts, itk))))
  {
    var o := OptionsOf(ts[itk], cfg.reg);
    RenderTextEscapes(cfg, Texts(Embedded(cfg, ts, itk)), o.replaceLinks, false);
  }

  /** The smiley pass of `_render_textual_content`, when it is on. */
  function Smiled(cfg: Config, smilies: bool, s: string): string
  {
    if smilies then ApplyReplacements(s, cfg.smilies) else s
  }

  /** A marker holds none of the characters the escape table replaces. */
  predicate EscapeFree(m: string)
  {
    forall i :: 0 <= i < |m| ==> m[i] !in "&<>\"'"
  }

  /** The marker occurs in `x + m + y` only where it was put. */
  predicate MarkerOnlyBetween(x: string, m: string, y: string)
  {
    (forall i :: 0 <= i < |x| ==> !MatchAt(x + m + y, m, i)) && !Contains(y, m)
  }

  lemma SplitAroundUrl(pre: string, url: string, post: string)
    ensures (pre + url + post)[0..] == pre + url + post
    ensures (pre + url + post)[..|pre|] == pre
    ensures (pre + url + post)[|pre|..|pre| + |url|] == url
    ensures (pre + url + post)[|pre| + |url|..] == post
  {
  }

  lemma AfterMarker(pre: string, m: string, post: string)
    ensures (pre + m + post)[|pre| + |m|..] == post
  {
  }

  /** A text whose only URL match is `url` has that link pulled as marker 0 and its anchor. */
  lemma PullOneLink(env: Env, marker: (nat, nat) -> string, pre: string, url: string, post: string)
    requires UrlMatch(env, pre + url + post) == Some((|pre|, |pre| + |url|))
    requires UrlMatch(env, post).None?
    ensures PullLinks(env, marker, pre + url + post) == (pre + marker(0, 0) + post, [(marker(0, 0), LinkHtml(url))])
  {
    var data := pre + url + post;
    var m := marker(0, 0);
    SplitAroundUrl(pre, url, post);
    PullStep(env, marker, data, 0, 0, 0, |pre|, |pre| + |url|);
    AfterMarker(pre, m, post);
    var data' := pre + m + post;
    assert data[..|pre|] + m + data[|pre| + |url|..] == data';
    assert PullFrom(env, marker, data', |pre|, |pre| + |m|, 1) == (data', []);
    var pair := (m, LinkHtml(url));
    assert [pair] + [] == [pair];
    assert PullFrom(env, marker, data, 0, 0, 0) == (data', [pair] + []);
  }

  /** The escape table distributes over concatenation. */
  lemma EscapeConcat(a: string, b: string)
    ensures ApplyReplacements(a + b, EscapeTable) == Utils.EscapeHtml(a) + Utils.EscapeHtml(b)
  {
    assert SingleCharPatterns(EscapeTable);
    ApplyCharTableConcat(a, b, EscapeTable);
    EscapeTableIsPerChar(a);
    EscapeTableIsPerChar(b);
  }

  /** Escaping leaves a marker free of special characters in place. */
  lemma EscapeAroundMarker(pre: string, m: string, post: string)
    requires EscapeFree(m)
    ensures ApplyReplacements(pre + m + post, EscapeTable) == Utils.EscapeHtml(pre) + m + Utils.EscapeHtml(post)
  {
    EscapeConcat(pre + m, post);
    EscapeConcat(pre, m);
    EscapeTableIsPerChar(pre + m);
    BuiltinRenderers.EscapeHtmlPlain(m);
  }

  /** Putting the anchor back replaces the one marker and nothing else. */
  lemma ReplaceOnlyMarker(x: string, m: string, y: string, anchor: string)
    requires MarkerOnlyBetween(x, m, y)
    ensures ApplyReplacements(x + m + y, [(m, anchor)]) == x + anchor + y
  {
    if m == [] {
      assert StartsWith(y, m);
      assert false;
    }
    ConcatAssoc(x, m, y);
    ReplaceSkip(x, m + y, m, anchor);
    ReplaceMatchHead(m, y, anchor);
    ReplaceAbsent(y, m, anchor);
    ConcatAssoc(x, anchor, y);
  }

  /**
   * A text with one link: the text around it is escaped and has its smilies replaced, the URL
   * becomes its anchor unescaped. The marker must survive escaping and the smiley pass and occur
   * nowhere else.
   */
  lemma LinkRendered(cfg: Config, pre: string, url: string, post: string, smilies: bool)
    requires cfg.table == EscapeTable
    requires UrlMatch(cfg.env, pre + url + post) == Some((|pre|, |pre| + |url|))
    requires UrlMatch(cfg.env, post).None?
    requires EscapeFree(cfg.marker(0, 0))
    requires Smiled(cfg, smilies, Utils.EscapeHtml(pre) + cfg.marker(0, 0) + Utils.EscapeHtml(post))
      == Smiled(cfg, smilies, Utils.EscapeHtml(pre)) + cfg.marker(0, 0) + Smiled(cfg, smilies, Utils.EscapeHtml(post))
    requires MarkerOnlyBetween(Smiled(cfg, smilies, Utils.EscapeHtml(pre)), cfg.marker(0, 0), Smiled(cfg, smilies, Utils.EscapeHtml(post)))
    ensures RenderText(cfg, pre + url + post, true, true, smilies)
      == Smiled(cfg, smilies, Utils.EscapeHtml(pre)) + LinkHtml(url) + Smiled(cfg, smilies, Utils.EscapeHtml(post))
  {
    var m := cfg.marker(0, 0);
    PullOneLink(cfg.env, cfg.marker, pre, url, post);
    EscapeAroundMarker(pre, m, post);
    ReplaceOnlyMarker(Smiled(cfg, smilies, Utils.EscapeHtml(pre)), m, Smiled(cfg, smilies, Utils.EscapeHtml(post)), LinkHtml(url));
  }
}
