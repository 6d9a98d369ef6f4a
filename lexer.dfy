/**
 * The lexer shared by both parser generations (`_parse_tag`, `get_tokens`,
 * `_get_textual_tokens`): a bracketed span becomes a tag token only when it parses as a tag
 * and its name is registered; everything else becomes DATA and NEWLINE tokens.
 */
module Lexer {
  import opened Wrappers
  import opened Text

  datatype TokenKind = StartTag | EndTag | Data | Newline

  /** `BBCodeToken`: its type, tag name and option (absent for text tokens) and original text. */
  datatype Token = Token(kind: TokenKind, tagName: Option<string>, option: Option<string>, text: string)

  function DataToken(s: string): Token { Token(Data, None, None, s) }

  const NewlineToken := Token(Newline, None, None, "\n")

  /** `''.join(tk.text for tk in tokens)`. */
  function Texts(ts: seq<Token>): string
  {
    if ts == [] then [] else ts[0].text + Texts(ts[1..])
  }

  lemma {:induction false} TextsAppend(a: seq<Token>, b: seq<Token>)
    ensures Texts(a + b) == Texts(a) + Texts(b)
  {
    if a == [] {
      assert a + b == b;
    } else {
      assert (a + b)[1..] == a[1..] + b;
      TextsAppend(a[1..], b);
    }
  }

  /** A text token: a non-empty DATA piece without newline, or a NEWLINE token. */
  predicate IsTextToken(t: Token)
  {
    (t.kind == Data && t.tagName.None? && t.option.None? && t.text != [] && '\n' !in t.text) || t == NewlineToken
  }

  /** A DATA token for a piece of text, none for an empty piece. */
  function Piece(s: string): seq<Token>
  {
    if s == [] then [] else [DataToken(s)]
  }

  /**
   * `_get_textual_tokens`: the text split around each '\n' (kept as a NEWLINE token of its own),
   * with the empty pieces dropped.
   */
  function TextualTokens(s: string): seq<Token>
    decreases |s|
  {
    if s == [] then []
    else
      var n := Find(s, '\n', 0);
      if n == -1 then [DataToken(s)]
      else Piece(s[..n]) + [NewlineToken] + TextualTokens(s[n + 1..])
  }

  /** The text of a piece, a NEWLINE and further tokens. */
  lemma TextsAroundNewline(a: string, rest: seq<Token>)
    ensures Texts(Piece(a) + [NewlineToken] + rest) == a + "\n" + Texts(rest)
  {
    TextsAppend(Piece(a) + [NewlineToken], rest);
    TextsAppend(Piece(a), [NewlineToken]);
    assert Texts([NewlineToken]) == "\n" by {
      assert [NewlineToken][1..] == [];
    }
    if a != [] {
      assert Piece(a)[1..] == [];
    }
  }

  /** A text is what comes before an index, the character there, and what follows. */
  lemma SplitAround(s: string, n: nat)
    requires n < |s|
    ensures s == s[..n] + [s[n]] + s[n + 1..]
  {
  }

  /** The textual tokens give back the text they were made from. */
  lemma {:induction false} TextualTokensText(s: string)
    ensures Texts(TextualTokens(s)) == s
    decreases |s|
  {
    if s != [] {
      var n := Find(s, '\n', 0);
      if n != -1 {
        TextualTokensText(s[n + 1..]);
        TextsAroundNewline(s[..n], TextualTokens(s[n + 1..]));
        SplitAround(s, n);
      }
    }
  }

  /** Every textual token is a non-empty DATA piece without newline, or a NEWLINE. */
  lemma {:induction false} TextualTokensAreText(s: string)
    ensures forall t :: t in TextualTokens(s) ==> IsTextToken(t)
    decreases |s|
  {
    if s != [] {
      var n := Find(s, '\n', 0);
      FindFirst(s, '\n', 0);
      if n != -1 {
        TextualTokensAreText(s[n + 1..]);
        assert forall k :: 0 <= k < n ==> s[..n][k] != '\n';
      }
    }
  }

  /** Number of NEWLINE tokens. */
  function NewlineCount(ts: seq<Token>): nat
  {
    if ts == [] then 0 else (if ts[0].kind == Newline then 1 else 0) + NewlineCount(ts[1..])
  }

  lemma {:induction false} NewlineCountAppend(a: seq<Token>, b: seq<Token>)
    ensures NewlineCount(a + b) == NewlineCount(a) + NewlineCount(b)
  {
    if a == [] {
      assert a + b == b;
    } else {
      assert (a + b)[1..] == a[1..] + b;
      NewlineCountAppend(a[1..], b);
    }
  }

  /** The NEWLINE tokens of a piece without line break, a NEWLINE and further tokens. */
  lemma NewlinesAroundNewline(a: string, rest: seq<Token>)
    ensures NewlineCount(Piece(a) + [NewlineToken] + rest) == 1 + NewlineCount(rest)
  {
    NewlineCountAppend(Piece(a) + [NewlineToken], rest);
    NewlineCountAppend(Piece(a), [NewlineToken]);
    assert NewlineCount([NewlineToken]) == 1 by {
      assert [NewlineToken][1..] == [];
    }
    if a != [] {
      assert Piece(a)[1..] == [];
    }
  }

  /** The line breaks of a text split at its first one. */
  lemma CountAroundNewline(s: string, n: nat)
    requires n < |s| && s[n] == '\n' && '\n' !in s[..n]
    ensures Count(s, '\n') == 1 + Count(s[n + 1..], '\n')
  {
    SplitAround(s, n);
    CountAppend(s[..n] + [s[n]], s[n + 1..], '\n');
    CountAppend(s[..n], [s[n]], '\n');
    CountZero(s[..n], '\n');
  }

  /** Each '\n' of the text becomes exactly one NEWLINE token. */
  lemma {:induction false} TextualTokensNewlines(s: string)
    ensures NewlineCount(TextualTokens(s)) == Count(s, '\n')
    decreases |s|
  {
    if s != [] {
      var n := Find(s, '\n', 0);
      FindFirst(s, '\n', 0);
      if n == -1 {
        CountZero(s, '\n');
      } else {
        TextualTokensNewlines(s[n + 1..]);
        NewlinesAroundNewline(s[..n], TextualTokens(s[n + 1..]));
        CountAroundNewline(s, n);
      }
    }
  }

  /** The 4-tuple `(valid, tag_name, closing, option)` returned by `_parse_tag`. */
  datatype ParsedTag = ParsedTag(valid: bool, name: string, closing: bool, option: Option<string>)

  /** Starts with '[', ends with ']', no line break, at most one of each bracket. */
  predicate Bracketed(tag: string)
  {
    StartsWith(tag, "[") && EndsWith(tag, "]") && '\n' !in tag && '\r' !in tag
    && Count(tag, '[') <= 1 && Count(tag, ']') <= 1
  }

  /** The text between the brackets, stripped. */
  function Body(tag: string): string
  {
    if |tag| < 2 then [] else Strip(tag[1..|tag| - 1])
  }

  lemma BracketedLength(tag: string)
    requires StartsWith(tag, "[") && EndsWith(tag, "]")
    ensures |tag| >= 2
  {
    assert tag[0] == tag[..1][0] == '[';
    assert tag[|tag| - 1] == tag[|tag| - 1..][0] == ']';
  }

  /**
   * `_parse_tag`: an invalid span is returned unchanged as the name; otherwise the name is the
   * part of the body before its first '=', stripped and lower-cased, and the option the part after it.
   */
  function ParseTag(tag: string): ParsedTag
  {
    if !Bracketed(tag) then ParsedTag(false, tag, false, None)
    else ParseBody(tag, Strip(tag[1..|tag| - 1]))
  }

  /** `_parse_tag` once the stripped text between the brackets is known. */
  function ParseBody(tag: string, body: string): ParsedTag
  {
    if body == [] then ParsedTag(false, tag, false, None)
    else
      var closing := body[0] == '/';
      var name := if closing then body[1..] else body;
      if '=' in name && closing then ParsedTag(false, tag, false, None)
      else if '=' in name then
        var p := Find(name, '=', 0);
        FindFound(name, '=');
        ParsedTag(true, Lower(Strip(name[..p])), false, Some(name[p + 1..]))
      else ParsedTag(true, Lower(Strip(name)), closing, None)
  }

  /**
   * A span is a valid tag when it is bracketed, its stripped body is not empty, and it is not a
   * closing tag with an option; the name is lower-case and holds no '='.
   */
  lemma ParseTagValid(tag: string)
    ensures var r := ParseTag(tag);
      && (!r.valid ==> r == ParsedTag(false, tag, false, None))
      && (r.valid <==> Bracketed(tag) && Body(tag) != [] && !(Body(tag)[0] == '/' && '=' in Body(tag)))
      && (r.valid ==> r.closing == (Body(tag)[0] == '/'))
      && (r.valid ==> (r.option.Some? <==> '=' in Body(tag)))
      && (r.valid ==> Lower(r.name) == r.name && '=' !in r.name)
  {
    if Bracketed(tag) {
      BracketedLength(tag);
      ParseBodyValid(tag, Strip(tag[1..|tag| - 1]));
    }
  }

  lemma ParseBodyValid(tag: string, body: string)
    ensures var r := ParseBody(tag, body);
      && (!r.valid ==> r == ParsedTag(false, tag, false, None))
      && (r.valid <==> body != [] && !(body[0] == '/' && '=' in body))
      && (r.valid ==> r.closing == (body[0] == '/'))
      && (r.valid ==> (r.option.Some? <==> '=' in body))
      && (r.valid ==> Lower(r.name) == r.name && '=' !in r.name)
  {
    if body != [] {
      var name := if body[0] == '/' then body[1..] else body;
      assert '=' in name <==> '=' in body by {
        if body[0] == '/' {
          assert body == [body[0]] + name;
        }
      }
      if '=' in name {
        FindFirst(name, '=', 0);
        CleanName(name[..Find(name, '=', 0)]);
      } else {
        CleanName(name);
      }
    }
  }

  /** A name without '=' stays without one once stripped and lower-cased, and is then lower-case. */
  lemma CleanName(n: string)
    requires '=' !in n
    ensures Lower(Lower(Strip(n))) == Lower(Strip(n)) && '=' !in Lower(Strip(n))
  {
    StripKeepsAbsent(n, '=');
    LowerKeepsAbsent(Strip(n), '=');
    LowerIdempotent(Strip(n));
  }

  lemma StripKeepsAbsent(s: string, c: char)
    requires c !in s
    ensures c !in Strip(s)
  {
    var r := Strip(s);
    if r != [] {
      assert r == s[LeadLen(s)..TrailStart(s)];
      forall i | 0 <= i < |r| ensures r[i] != c { assert r[i] == s[LeadLen(s) + i]; }
    }
  }

  lemma LowerIdempotent(s: string)
    ensures Lower(Lower(s)) == Lower(s)
  {
  }

  lemma LowerKeepsAbsent(s: string, c: char)
    requires c !in s && !('a' <= c <= 'z')
    ensures c !in Lower(s)
  {
    forall i | 0 <= i < |s| ensures Lower(s)[i] != c { }
  }

  /** A tag name as written in BBCode: lower case, no blank, bracket, '=' or leading '/'. */
  predicate PlainTagName(n: string)
  {
    n != [] && Lower(n) == n && n[0] != '/'
    && forall i :: 0 <= i < |n| ==> !IsSpace(n[i]) && n[i] != '[' && n[i] != ']' && n[i] != '='
  }

  /** An option text: no bracket or line break, and no trailing blank. */
  predicate PlainOption(o: string)
  {
    (o == [] || !IsSpace(o[|o| - 1]))
    && forall i :: 0 <= i < |o| ==> o[i] != '[' && o[i] != ']' && o[i] != '\n' && o[i] != '\r'
  }

  lemma StripPlain(s: string)
    requires s != [] && !IsSpace(s[0]) && !IsSpace(s[|s| - 1])
    ensures Strip(s) == s
  {
    assert LeadLen(s) == 0;
    assert TrailStart(s) == |s|;
  }

  /** The bracket counts and line-break test of a span `"[" + inner + "]"`. */
  lemma BracketedSpan(inner: string)
    requires '[' !in inner && ']' !in inner && '\n' !in inner && '\r' !in inner
    ensures Bracketed("[" + inner + "]")
    ensures ("[" + inner + "]")[1..|inner| + 1] == inner
  {
    var tag := "[" + inner + "]";
    CountAppend("[" + inner, "]", '[');
    CountAppend("[", inner, '[');
    CountZero(inner, '[');
    CountAppend("[" + inner, "]", ']');
    CountAppend("[", inner, ']');
    CountZero(inner, ']');
    assert tag[..1] == "[";
    assert tag[|tag| - 1..] == "]";
  }

  /** A span without inner brackets or line breaks is parsed from its stripped inner text. */
  lemma ParseSpan(inner: string)
    requires '[' !in inner && ']' !in inner && '\n' !in inner && '\r' !in inner
    ensures ParseTag("[" + inner + "]") == ParseBody("[" + inner + "]", Strip(inner))
  {
    BracketedSpan(inner);
  }

  /** `[name]` parses as a valid opening tag without option. */
  lemma ParseOpeningTag(n: string)
    requires PlainTagName(n)
    ensures ParseTag("[" + n + "]") == ParsedTag(true, n, false, None)
  {
    ParseSpan(n);
    StripPlain(n);
  }

  /** `[/name]` parses as a valid closing tag. */
  lemma ParseClosingTag(n: string)
    requires PlainTagName(n)
    ensures ParseTag("[" + ("/" + n) + "]") == ParsedTag(true, n, true, None)
  {
    ParseSpan("/" + n);
    SlashPlain(n);
    ClosingSplit(n);
  }

  /** Stripping `/name` leaves it as it is. */
  lemma SlashPlain(n: string)
    requires PlainTagName(n)
    ensures Strip("/" + n) == "/" + n
  {
    var inner := "/" + n;
    assert inner[0] == '/' && inner[|inner| - 1] == n[|n| - 1];
    StripPlain(inner);
  }

  /** The body `/name` is a closing tag named `name`. */
  lemma ClosingSplit(n: string)
    requires PlainTagName(n)
    ensures ParseBody("[" + ("/" + n) + "]", "/" + n) == ParsedTag(true, n, true, None)
  {
    var inner := "/" + n;
    assert inner[1..] == n;
    StripPlain(n);
  }

  /** `[name=option]` parses as a valid opening tag carrying the option. */
  lemma ParseOptionTag(n: string, o: string)
    requires PlainTagName(n) && PlainOption(o)
    ensures ParseTag("[" + (n + "=" + o) + "]") == ParsedTag(true, n, false, Some(o))
  {
    var inner := n + "=" + o;
    assert inner[|inner| - 1] == if o == [] then '=' else o[|o| - 1];
    assert inner[0] == n[0];
    ParseSpan(inner);
    StripPlain(inner);
    OptionSplit(n, o);
  }

  /** The body `name=option` is split at the '=' that ends the name. */
  lemma OptionSplit(n: string, o: string)
    requires PlainTagName(n)
    ensures ParseBody("[" + (n + "=" + o) + "]", n + "=" + o) == ParsedTag(true, n, false, Some(o))
  {
    var inner := n + "=" + o;
    assert inner[0] == n[0];
    assert inner[|n|] == '=';
    FindAt(inner, '=', 0, |n|);
    assert inner[..|n|] == n && inner[|n| + 1..] == o;
    StripPlain(n);
  }

  /**
   * The tokens of one complete span `[...]`: a tag token when `parse` (the tag parser,
   * `_parse_tag` in `get_tokens`) finds a valid registered tag, text otherwise. The scan below
   * takes the parser as a parameter so that what does not depend on it is proved for any parser.
   */
  function TagTokens(tag: string, names: set<string>, parse: string -> ParsedTag): seq<Token>
  {
    var p := parse(tag);
    if p.valid && p.name in names then
      (if p.closing then [Token(EndTag, Some(p.name), None, tag)] else [Token(StartTag, Some(p.name), p.option, tag)])
    else TextualTokens(tag)
  }

  /**
   * `get_tokens` from position `pos`, with `acc` the tokens emitted so far: text before the
   * next '[' is textual; a '[' followed by another '[' before any ']' is textual up to that '[';
   * a span up to the next ']' is a tag or text; a '[' with no later ']' stops the scan, and
   * everything from `pos` is then tokenised, including the text already emitted before that '['.
   */
  function LexFrom(data: string, pos: nat, names: set<string>, parse: string -> ParsedTag, acc: seq<Token>): seq<Token>
    requires pos <= |data|
    decreases |data| - pos, 2
  {
    if pos == |data| then acc else LexAt(data, pos, Find(data, '[', pos), names, parse, acc)
  }

  /** The scan from `pos` once the next '[' has been looked for, `start` being its index or -1. */
  function LexAt(data: string, pos: nat, start: int, names: set<string>, parse: string -> ParsedTag, acc: seq<Token>): seq<Token>
    requires pos < |data| && start == Find(data, '[', pos)
    decreases |data| - pos, 1
  {
    if start == -1 then acc + TextualTokens(data[pos..])
    else
      var acc' := Before(data, pos, start, acc);
      var end := Find(data, ']', start);
      var next := Find(data, '[', start + 1);
      if next > 0 && next < end then LexFrom(data, next, names, parse, acc' + TextualTokens(data[start..next]))
      else if end > start then LexSpan(data, start, end, names, parse, acc')
      else acc' + TextualTokens(data[pos..])
  }

  /** The tokens emitted before the '[' found at `start`. */
  function Before(d: string, pos: nat, start: int, acc: seq<Token>): seq<Token>
    requires pos <= |d|
  {
    if pos < start <= |d| then acc + TextualTokens(d[pos..start]) else acc
  }

  /** The scan after the complete span `data[start..end + 1]`, once its tokens are emitted. */
  function LexSpan(data: string, start: nat, end: nat, names: set<string>, parse: string -> ParsedTag, acc: seq<Token>): seq<Token>
    requires start < end < |data|
    decreases |data| - start, 0
  {
    LexFrom(data, end + 1, names, parse, acc + TagTokens(data[start..end + 1], names, parse))
  }

  /** With `BBCODE_NORMALIZE_NEWLINES`, "\r\n" and then "\r" become "\n". */
  function Normalize(data: string, normalizeNewlines: bool): string
  {
    if normalizeNewlines then Replace(Replace(data, "\r\n", "\n"), "\r", "\n") else data
  }

  /** The token list `get_tokens` returns. */
  function Lex(data: string, names: set<string>, normalizeNewlines: bool): seq<Token>
  {
    LexFrom(Normalize(data, normalizeNewlines), 0, names, ParseTag, [])
  }

  /** One step of the scan when another '[' comes before the next ']'. */
  lemma LexFromRescan(d: string, pos: nat, names: set<string>, parse: string -> ParsedTag, acc: seq<Token>, start: int, next: int, emitted: seq<Token>)
    requires pos < |d| && start == Find(d, '[', pos) && start != -1
    requires next == Find(d, '[', start + 1) && next > 0 && next < Find(d, ']', start)
    requires emitted == Before(d, pos, start, acc) + TextualTokens(d[start..next])
    ensures LexFrom(d, pos, names, parse, acc) == LexFrom(d, next, names, parse, emitted)
  {
  }

  /** One step of the scan over a complete span `[...]`. */
  lemma LexFromSpan(d: string, pos: nat, names: set<string>, parse: string -> ParsedTag, acc: seq<Token>, start: int, end: int)
    requires pos < |d| && start == Find(d, '[', pos) && start != -1
    requires end == Find(d, ']', start) && end > start
    requires !(Find(d, '[', start + 1) > 0 && Find(d, '[', start + 1) < end)
    ensures LexFrom(d, pos, names, parse, acc) == LexSpan(d, start, end, names, parse, Before(d, pos, start, acc))
  {
  }

  /** The scan when no '[' follows `pos`. */
  lemma LexFromText(d: string, pos: nat, names: set<string>, parse: string -> ParsedTag, acc: seq<Token>)
    requires pos < |d| && Find(d, '[', pos) == -1
    ensures LexFrom(d, pos, names, parse, acc) == acc + TextualTokens(d[pos..])
  {
  }

  /** The scan when the '[' at `start` has no later ']': the text from `pos` is tokenised again. */
  lemma LexFromUnmatched(d: string, pos: nat, names: set<string>, parse: string -> ParsedTag, acc: seq<Token>, start: int)
    requires pos < |d| && start == Find(d, '[', pos) && start != -1
    requires !(Find(d, '[', start + 1) > 0 && Find(d, '[', start + 1) < Find(d, ']', start))
    requires !(Find(d, ']', start) > start)
    ensures LexFrom(d, pos, names, parse, acc) == Before(d, pos, start, acc) + TextualTokens(d[pos..])
  {
  }

  lemma LexFromSpanStep(d: string, pos: nat, names: set<string>, parse: string -> ParsedTag, acc: seq<Token>, start: int, end: int, emitted: seq<Token>)
    requires pos < |d| && start == Find(d, '[', pos) && start != -1
    requires end == Find(d, ']', start) && end > start
    requires !(Find(d, '[', start + 1) > 0 && Find(d, '[', start + 1) < end)
    requires emitted == Before(d, pos, start, acc) + TagTokens(d[start..end + 1], names, parse)
    ensures LexFrom(d, pos, names, parse, acc) == LexFrom(d, end + 1, names, parse, emitted)
  {
    LexFromSpan(d, pos, names, parse, acc, start, end);
    LexSpanUnfold(d, start, end, names, parse, Before(d, pos, start, acc));
  }

  lemma LexSpanUnfold(d: string, start: nat, end: nat, names: set<string>, parse: string -> ParsedTag, acc: seq<Token>)
    requires start < end < |d|
    ensures LexSpan(d, start, end, names, parse, acc) == LexFrom(d, end + 1, names, parse, acc + TagTokens(d[start..end + 1], names, parse))
  {
  }

  /** The tokens of the complete span `d[tagStart..tagEnd + 1]`: a tag when `parse` finds a registered tag, text otherwise. */
  method ScanSpan(d: string, pos: nat, names: set<string>, parse: string -> ParsedTag, ghost tokens: seq<Token>, acc: seq<Token>, tagStart: int, tagEnd: int)
    returns (emitted: seq<Token>)
    requires pos < |d| && tagStart == Find(d, '[', pos) && tagStart != -1
    requires tagEnd == Find(d, ']', tagStart) && tagEnd > tagStart
    requires !(Find(d, '[', tagStart + 1) > 0 && Find(d, '[', tagStart + 1) < tagEnd)
    requires acc == Before(d, pos, tagStart, tokens)
    ensures PassKeeps(d, pos, names, parse, tokens, emitted, tagEnd + 1, false)
  {
    var tag := d[tagStart..tagEnd + 1];
    var p := parse(tag);
    if p.valid && p.name in names {
      if p.closing {
        emitted := acc + [Token(EndTag, Some(p.name), None, tag)];
      } else {
        emitted := acc + [Token(StartTag, Some(p.name), p.option, tag)];
      }
    } else {
      emitted := acc + TextualTokens(tag);
    }
    LexFromSpanStep(d, pos, names, parse, tokens, tagStart, tagEnd, emitted);
    SpanKeeps(d, pos, names, parse, tokens, emitted, tagStart, tagEnd);
  }

  /**
   * One pass of the `while` body of `get_tokens` from `pos`: the tokens it has emitted, the
   * position the scan resumes at, or `stop` when it leaves the loop with `break`.
   */
  method ScanStep(d: string, pos: nat, names: set<string>, parse: string -> ParsedTag, tokens: seq<Token>) returns (emitted: seq<Token>, next: nat, stop: bool)
    requires pos < |d|
    ensures !stop ==> pos < next <= |d| && LexFrom(d, pos, names, parse, tokens) == LexFrom(d, next, names, parse, emitted)
    ensures stop ==> next == pos && LexFrom(d, pos, names, parse, tokens) == emitted + TextualTokens(d[pos..])
  {
    var tagStart := Find(d, '[', pos);
    var posDiff := tagStart - pos;
    if posDiff >= 0 {
      var acc := tokens;
      if posDiff != 0 {
        acc := acc + TextualTokens(d[pos..tagStart]);
      }
      emitted, next, stop := ScanBracket(d, pos, names, parse, tokens, acc, tagStart);
    } else {
      LexFromText(d, pos, names, parse, tokens);
      emitted, next, stop := tokens, pos, true;
    }
  }

  /**
   * What one pass of the loop promises: either it resumes at a later `next` with the scan from
   * there giving the same tokens, or it leaves the loop and the rest is text.
   */
  ghost predicate PassKeeps(d: string, pos: nat, names: set<string>, parse: string -> ParsedTag, tokens: seq<Token>,
                            emitted: seq<Token>, next: nat, stop: bool)
    requires pos <= |d|
  {
    (!stop ==> pos < next <= |d| && LexFrom(d, pos, names, parse, tokens) == LexFrom(d, next, names, parse, emitted))
    && (stop ==> next == pos && LexFrom(d, pos, names, parse, tokens) == emitted + TextualTokens(d[pos..]))
  }

  /** A second '[' before the next ']': the text up to it is emitted and the scan resumes there. */
  lemma RescanKeeps(d: string, pos: nat, names: set<string>, parse: string -> ParsedTag, tokens: seq<Token>, acc: seq<Token>, tagStart: int, newTagStart: int)
    requires pos < |d| && tagStart == Find(d, '[', pos) && tagStart != -1
    requires newTagStart == Find(d, '[', tagStart + 1) && newTagStart > 0 && newTagStart < Find(d, ']', tagStart)
    requires acc == Before(d, pos, tagStart, tokens)
    ensures PassKeeps(d, pos, names, parse, tokens, acc + TextualTokens(d[tagStart..newTagStart]), newTagStart, false)
  {
    LexFromRescan(d, pos, names, parse, tokens, tagStart, newTagStart, acc + TextualTokens(d[tagStart..newTagStart]));
  }

  /** A complete span: the scan resumes after its ']'. */
  lemma SpanKeeps(d: string, pos: nat, names: set<string>, parse: string -> ParsedTag, tokens: seq<Token>, emitted: seq<Token>, tagStart: int, tagEnd: int)
    requires pos < |d| && tagStart == Find(d, '[', pos) && tagStart != -1
    requires tagEnd == Find(d, ']', tagStart) && tagEnd > tagStart
    requires LexFrom(d, pos, names, parse, tokens) == LexFrom(d, tagEnd + 1, names, parse, emitted)
    ensures PassKeeps(d, pos, names, parse, tokens, emitted, tagEnd + 1, false)
  {
  }

  /** A '[' with no later ']': the loop stops and the text from `pos` is tokenised again. */
  lemma UnmatchedKeeps(d: string, pos: nat, names: set<string>, parse: string -> ParsedTag, tokens: seq<Token>, acc: seq<Token>, tagStart: int)
    requires pos < |d| && tagStart == Find(d, '[', pos) && tagStart != -1
    requires !(Find(d, '[', tagStart + 1) > 0 && Find(d, '[', tagStart + 1) < Find(d, ']', tagStart))
    requires !(Find(d, ']', tagStart) > tagStart)
    requires acc == Before(d, pos, tagStart, tokens)
    ensures PassKeeps(d, pos, names, parse, tokens, acc, pos, true)
  {
    LexFromUnmatched(d, pos, names, parse, tokens, tagStart);
  }

  /** The rest of the pass once the '[' at `tagStart` is found and the text before it emitted. */
  method ScanBracket(d: string, pos: nat, names: set<string>, parse: string -> ParsedTag, ghost tokens: seq<Token>, acc: seq<Token>, tagStart: int)
    returns (emitted: seq<Token>, next: nat, stop: bool)
    requires pos < |d| && tagStart == Find(d, '[', pos) && tagStart != -1
    requires acc == Before(d, pos, tagStart, tokens)
    ensures PassKeeps(d, pos, names, parse, tokens, emitted, next, stop)
  {
    var tagEnd := Find(d, ']', tagStart);
    var newTagStart := Find(d, '[', tagStart + 1);
    if newTagStart > 0 && newTagStart < tagEnd {
      emitted, next, stop := acc + TextualTokens(d[tagStart..newTagStart]), newTagStart, false;
      RescanKeeps(d, pos, names, parse, tokens, acc, tagStart, newTagStart);
    } else {
      emitted, next, stop := ScanClose(d, pos, names, parse, tokens, acc, tagStart, tagEnd);
    }
  }

  /** With no second '[' before it, the next ']' closes a span, or there is none and the loop stops. */
  method ScanClose(d: string, pos: nat, names: set<string>, parse: string -> ParsedTag, ghost tokens: seq<Token>, acc: seq<Token>, tagStart: int, tagEnd: int)
    returns (emitted: seq<Token>, next: nat, stop: bool)
    requires pos < |d| && tagStart == Find(d, '[', pos) && tagStart != -1
    requires tagEnd == Find(d, ']', tagStart)
    requires !(Find(d, '[', tagStart + 1) > 0 && Find(d, '[', tagStart + 1) < tagEnd)
    requires acc == Before(d, pos, tagStart, tokens)
    ensures PassKeeps(d, pos, names, parse, tokens, emitted, next, stop)
  {
    if tagEnd > tagStart {
      emitted := ScanSpan(d, pos, names, parse, tokens, acc, tagStart, tagEnd);
      next, stop := tagEnd + 1, false;
    } else {
      emitted, next, stop := acc, pos, true;
      UnmatchedKeeps(d, pos, names, parse, tokens, acc, tagStart);
    }
  }

  /** `get_tokens(data)` with `names` the keys of `bbcodes`. */
  method GetTokens(data: string, names: set<string>, normalizeNewlines: bool) returns (tokens: seq<Token>)
    ensures tokens == Lex(data, names, normalizeNewlines)
  {
    var d := data;
    if normalizeNewlines {
      d := Replace(Replace(d, "\r\n", "\n"), "\r", "\n");
    }
    assert d == Normalize(data, normalizeNewlines);
    tokens := [];
    var pos: nat := 0;
    while pos < |d|
      invariant pos <= |d|
      invariant LexFrom(d, pos, names, ParseTag, tokens) == LexFrom(d, 0, names, ParseTag, [])
      decreases |d| - pos
    {
      var stop;
      tokens, pos, stop := ScanStep(d, pos, names, ParseTag, tokens);
      if stop {
        break;
      }
    }
    if pos < |d| {
      tokens := tokens + TextualTokens(d[pos..]);
    }
  }
}
