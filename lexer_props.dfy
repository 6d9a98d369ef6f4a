/**
 * What `get_tokens` promises about its output: only registered names become tag tokens, the
 * token texts spell the (newline-normalised) input back when every '[' has a later ']', and a
 * '[' without one makes the scan tokenise the text before it a second time.
 */
module LexerProps {
  import opened Wrappers
  import opened Text
  import opened Lexer

  /** A tag token is what its text parses to, and names a registered tag. */
  predicate KnownTag(t: Token, names: set<string>, parse: string -> ParsedTag)
  {
    (t.kind == StartTag || t.kind == EndTag) ==>
      var p := parse(t.text);
      && p.valid && p.name in names && t.tagName == Some(p.name)
      && (t.kind == EndTag <==> p.closing)
      && t.option == (if t.kind == StartTag then p.option else None)
  }

  /** Every token of `ts` satisfies `KnownTag`. */
  predicate AllKnown(ts: seq<Token>, names: set<string>, parse: string -> ParsedTag)
  {
    ts == [] || (KnownTag(ts[0], names, parse) && AllKnown(ts[1..], names, parse))
  }

  lemma {:induction false} AllKnownEach(ts: seq<Token>, names: set<string>, parse: string -> ParsedTag)
    ensures AllKnown(ts, names, parse) <==> forall t :: t in ts ==> KnownTag(t, names, parse)
  {
    if ts != [] {
      AllKnownEach(ts[1..], names, parse);
      assert forall t :: t in ts <==> t == ts[0] || t in ts[1..];
    }
  }

  lemma KnownAppend(a: seq<Token>, b: seq<Token>, names: set<string>, parse: string -> ParsedTag)
    requires AllKnown(a, names, parse) && AllKnown(b, names, parse)
    ensures AllKnown(a + b, names, parse)
  {
    AllKnownEach(a, names, parse);
    AllKnownEach(b, names, parse);
    AllKnownEach(a + b, names, parse);
  }

  lemma TextualKnown(s: string, names: set<string>, parse: string -> ParsedTag)
    ensures AllKnown(TextualTokens(s), names, parse)
  {
    TextualTokensAreText(s);
    AllKnownEach(TextualTokens(s), names, parse);
  }

  lemma TagTokensKnown(tag: string, names: set<string>, parse: string -> ParsedTag)
    ensures AllKnown(TagTokens(tag, names, parse), names, parse)
  {
    var p := parse(tag);
    if !(p.valid && p.name in names) {
      TextualKnown(tag, names, parse);
    } else {
      assert TagTokens(tag, names, parse)[1..] == [];
    }
  }

  lemma BeforeKnown(d: string, pos: nat, start: int, acc: seq<Token>, names: set<string>, parse: string -> ParsedTag)
    requires pos <= |d| && AllKnown(acc, names, parse)
    ensures AllKnown(Before(d, pos, start, acc), names, parse)
  {
    if pos < start <= |d| {
      TextualKnown(d[pos..start], names, parse);
      KnownAppend(acc, TextualTokens(d[pos..start]), names, parse);
    }
  }

  /** Scanning from any position adds only text tokens and tokens of registered, valid tags. */
  lemma {:induction false} LexFromKnown(d: string, pos: nat, names: set<string>, parse: string -> ParsedTag, acc: seq<Token>)
    requires pos <= |d| && AllKnown(acc, names, parse)
    ensures AllKnown(LexFrom(d, pos, names, parse, acc), names, parse)
    decreases |d| - pos, 2
  {
    if pos < |d| {
      var start := Find(d, '[', pos);
      if start == -1 {
        LexFromText(d, pos, names, parse, acc);
        TextualKnown(d[pos..], names, parse);
        KnownAppend(acc, TextualTokens(d[pos..]), names, parse);
      } else {
        BracketKnown(d, pos, names, parse, acc, start);
      }
    }
  }

  /** The scan from `pos` when the next '[' is at `start`. */
  lemma {:induction false} BracketKnown(d: string, pos: nat, names: set<string>, parse: string -> ParsedTag, acc: seq<Token>, start: int)
    requires pos < |d| && AllKnown(acc, names, parse)
    requires start == Find(d, '[', pos) && start != -1
    ensures AllKnown(LexFrom(d, pos, names, parse, acc), names, parse)
    decreases |d| - pos, 1
  {
    var before := Before(d, pos, start, acc);
    BeforeKnown(d, pos, start, acc, names, parse);
    var end := Find(d, ']', start);
    var next := Find(d, '[', start + 1);
    if next > 0 && next < end {
      var emitted := before + TextualTokens(d[start..next]);
      TextualKnown(d[start..next], names, parse);
      KnownAppend(before, TextualTokens(d[start..next]), names, parse);
      LexFromRescan(d, pos, names, parse, acc, start, next, emitted);
      LexFromKnown(d, next, names, parse, emitted);
    } else if end > start {
      SpanKnown(d, pos, names, parse, acc, start, end);
    } else {
      LexFromUnmatched(d, pos, names, parse, acc, start);
      TextualKnown(d[pos..], names, parse);
      KnownAppend(before, TextualTokens(d[pos..]), names, parse);
    }
  }

  lemma {:induction false} SpanKnown(d: string, pos: nat, names: set<string>, parse: string -> ParsedTag, acc: seq<Token>, start: int, end: int)
    requires pos < |d| && start == Find(d, '[', pos) && start != -1
    requires end == Find(d, ']', start) && end > start
    requires !(Find(d, '[', start + 1) > 0 && Find(d, '[', start + 1) < end)
    requires AllKnown(Before(d, pos, start, acc), names, parse)
    ensures AllKnown(LexFrom(d, pos, names, parse, acc), names, parse)
    decreases |d| - pos, 0
  {
    var before := Before(d, pos, start, acc);
    var piece := TagTokens(d[start..end + 1], names, parse);
    TagTokensKnown(d[start..end + 1], names, parse);
    LexFromSpanStep(d, pos, names, parse, acc, start, end, before + piece);
    KnownAppend(before, piece, names, parse);
    LexFromKnown(d, end + 1, names, parse, before + piece);
  }

  /**
   * `get_tokens` emits START and END tokens only for spans that parse as valid tags whose name
   * is registered; the name, closing flag and option are those of the parse.
   */
  lemma LexKnown(data: string, names: set<string>, normalizeNewlines: bool)
    ensures forall t :: t in Lex(data, names, normalizeNewlines) ==> KnownTag(t, names, ParseTag)
  {
    LexFromKnown(Normalize(data, normalizeNewlines), 0, names, ParseTag, []);
    AllKnownEach(Lex(data, names, normalizeNewlines), names, ParseTag);
  }

  /** Every '[' of `d` has a ']' somewhere after it. */
  predicate BracketsClosed(d: string)
  {
    forall i :: 0 <= i < |d| && d[i] == '[' ==> Find(d, ']', i) != -1
  }

  /** `BracketsClosed` from `pos` on, stated along the '[' that the scan finds one after another. */
  predicate ClosedFrom(d: string, pos: nat)
    decreases |d| - pos
  {
    var start := Find(d, '[', pos);
    start == -1 || (Find(d, ']', start) != -1 && ClosedFrom(d, start + 1))
  }

  lemma {:induction false} ClosedEverywhere(d: string, pos: nat)
    requires BracketsClosed(d)
    ensures ClosedFrom(d, pos)
    decreases |d| - pos
  {
    var start := Find(d, '[', pos);
    if start != -1 {
      ClosedEverywhere(d, start + 1);
    }
  }

  /** The search from any `q` between `p` and the first hit from `p` finds that same hit. */
  lemma {:induction false} FindFrom(s: string, c: char, p: nat, q: nat)
    requires p <= q && (Find(s, c, p) == -1 || q <= Find(s, c, p))
    ensures Find(s, c, q) == Find(s, c, p)
    decreases q - p
  {
    if p < q && p < |s| {
      FindFrom(s, c, p + 1, q);
    }
  }

  lemma {:induction false} ClosedSuffix(d: string, p: nat, q: nat)
    requires ClosedFrom(d, p) && p <= q
    ensures ClosedFrom(d, q)
    decreases q - p
  {
    var start := Find(d, '[', p);
    if start == -1 || q <= start {
      FindFrom(d, '[', p, q);
    } else {
      ClosedSuffix(d, start + 1, q);
    }
  }

  lemma ClosedFind(d: string, pos: nat, start: int)
    requires ClosedFrom(d, pos) && start == Find(d, '[', pos) && start != -1
    ensures Find(d, ']', start) > start && ClosedFrom(d, start + 1)
  {
  }

  lemma JoinSlices(d: string, a: nat, b: nat, c: nat)
    requires a <= b <= c <= |d|
    ensures d[a..b] + d[b..c] == d[a..c]
  {
  }

  lemma TagTokensText(tag: string, names: set<string>, parse: string -> ParsedTag)
    ensures Texts(TagTokens(tag, names, parse)) == tag
  {
    var p := parse(tag);
    if !(p.valid && p.name in names) {
      TextualTokensText(tag);
    }
  }

  /** Text tokens appended after tokens spelling `d[..p]` spell `d[..q]` when they spell `d[p..q]`. */
  lemma PrefixText(d: string, p: nat, q: nat, acc: seq<Token>, more: seq<Token>)
    requires p <= q <= |d| && Texts(acc) == d[..p] && Texts(more) == d[p..q]
    ensures Texts(acc + more) == d[..q]
  {
    TextsAppend(acc, more);
    assert d[..p] + d[p..q] == d[..q];
  }

  lemma BeforePrefix(d: string, pos: nat, start: nat, acc: seq<Token>)
    requires pos <= start <= |d| && Texts(acc) == d[..pos]
    ensures Texts(Before(d, pos, start, acc)) == d[..start]
  {
    if pos < start {
      TextualTokensText(d[pos..start]);
      PrefixText(d, pos, start, acc, TextualTokens(d[pos..start]));
    }
  }

  lemma TextualPrefix(d: string, p: nat, q: nat, acc: seq<Token>)
    requires p <= q <= |d| && Texts(acc) == d[..p]
    ensures Texts(acc + TextualTokens(d[p..q])) == d[..q]
  {
    TextualTokensText(d[p..q]);
    PrefixText(d, p, q, acc, TextualTokens(d[p..q]));
  }

  lemma SpanPrefix(d: string, start: nat, end: nat, names: set<string>, parse: string -> ParsedTag, before: seq<Token>)
    requires start < end < |d| && Texts(before) == d[..start]
    ensures Texts(before + TagTokens(d[start..end + 1], names, parse)) == d[..end + 1]
  {
    TagTokensText(d[start..end + 1], names, parse);
    PrefixText(d, start, end + 1, before, TagTokens(d[start..end + 1], names, parse));
  }

  /** When every '[' is followed by a ']', the scan completes tokens spelling `d[..pos]` into tokens spelling `d`. */
  lemma {:induction false} LexFromSpells(d: string, pos: nat, names: set<string>, parse: string -> ParsedTag, acc: seq<Token>)
    requires pos <= |d| && ClosedFrom(d, pos) && Texts(acc) == d[..pos]
    ensures Texts(LexFrom(d, pos, names, parse, acc)) == d
    decreases |d| - pos, 2
  {
    if pos == |d| {
      assert d[..pos] == d;
    } else if Find(d, '[', pos) == -1 {
      TailSpells(d, pos, names, parse, acc);
    } else {
      BracketSpells(d, pos, names, parse, acc, Find(d, '[', pos));
    }
  }

  /** The scan from `pos` when no '[' follows: the rest is text. */
  lemma TailSpells(d: string, pos: nat, names: set<string>, parse: string -> ParsedTag, acc: seq<Token>)
    requires pos < |d| && Find(d, '[', pos) == -1 && Texts(acc) == d[..pos]
    ensures Texts(LexFrom(d, pos, names, parse, acc)) == d
  {
    LexFromText(d, pos, names, parse, acc);
    TextualPrefix(d, pos, |d|, acc);
    assert d[pos..|d|] == d[pos..] && d[..|d|] == d;
  }

  /** The scan from `pos` when the next '[' is at `start`. */
  lemma {:induction false} BracketSpells(d: string, pos: nat, names: set<string>, parse: string -> ParsedTag, acc: seq<Token>, start: int)
    requires pos < |d| && ClosedFrom(d, pos) && Texts(acc) == d[..pos]
    requires start == Find(d, '[', pos) && start != -1
    ensures Texts(LexFrom(d, pos, names, parse, acc)) == d
    decreases |d| - pos, 1
  {
    BeforePrefix(d, pos, start, acc);
    ClosedFind(d, pos, start);
    var end := Find(d, ']', start);
    var next := Find(d, '[', start + 1);
    if next > 0 && next < end {
      RescanSpells(d, pos, names, parse, acc, start, next);
    } else {
      SpanSpells(d, pos, names, parse, acc, start, end);
    }
  }

  /** The scan from `pos` when another '[' comes at `next`, before the next ']'. */
  lemma {:induction false} RescanSpells(d: string, pos: nat, names: set<string>, parse: string -> ParsedTag, acc: seq<Token>, start: int, next: int)
    requires pos < |d| && start == Find(d, '[', pos) && start != -1 && ClosedFrom(d, start + 1)
    requires next == Find(d, '[', start + 1) && next > 0 && next < Find(d, ']', start)
    requires Texts(Before(d, pos, start, acc)) == d[..start]
    ensures Texts(LexFrom(d, pos, names, parse, acc)) == d
    decreases |d| - pos, 0
  {
    var emitted := Before(d, pos, start, acc) + TextualTokens(d[start..next]);
    TextualPrefix(d, start, next, Before(d, pos, start, acc));
    LexFromRescan(d, pos, names, parse, acc, start, next, emitted);
    ClosedSuffix(d, start + 1, next);
    LexFromSpells(d, next, names, parse, emitted);
  }

  /** The scan from `pos` over the complete span `d[start..end + 1]`. */
  lemma {:induction false} SpanSpells(d: string, pos: nat, names: set<string>, parse: string -> ParsedTag, acc: seq<Token>, start: int, end: int)
    requires pos < |d| && start == Find(d, '[', pos) && start != -1 && ClosedFrom(d, start + 1)
    requires end == Find(d, ']', start) && end > start
    requires !(Find(d, '[', start + 1) > 0 && Find(d, '[', start + 1) < end)
    requires Texts(Before(d, pos, start, acc)) == d[..start]
    ensures Texts(LexFrom(d, pos, names, parse, acc)) == d
    decreases |d| - pos, 0
  {
    var emitted := Before(d, pos, start, acc) + TagTokens(d[start..end + 1], names, parse);
    SpanPrefix(d, start, end, names, parse, Before(d, pos, start, acc));
    LexFromSpanStep(d, pos, names, parse, acc, start, end, emitted);
    ClosedSuffix(d, start + 1, end + 1);
    LexFromSpells(d, end + 1, names, parse, emitted);
  }

  /**
   * Concatenating the token texts gives back the newline-normalised input whenever every '[' in
   * it has a later ']'.
   */
  lemma LexPreservesText(data: string, names: set<string>, normalizeNewlines: bool)
    requires BracketsClosed(Normalize(data, normalizeNewlines))
    ensures Texts(Lex(data, names, normalizeNewlines)) == Normalize(data, normalizeNewlines)
  {
    var d := Normalize(data, normalizeNewlines);
    ClosedEverywhere(d, 0);
    LexFromSpells(d, 0, names, ParseTag, []);
  }

  /**
   * A '[' with no later ']' stops the scan with the cursor left before the text that precedes
   * it, so that text is tokenised twice: the texts of `t + "["` spell `t + t + "["`.
   */
  lemma UnmatchedBracketRepeats(t: string, names: set<string>)
    requires '[' !in t
    ensures Texts(Lex(t + "[", names, false)) == t + (t + "[")
  {
    UnmatchedFromStart(t, names, ParseTag);
  }

  /** The closed-bracket condition is not necessary: a lone "[" has no ']' after it and still comes out once. */
  lemma LoneBracketOnce(names: set<string>)
    ensures !BracketsClosed("[") && Texts(Lex("[", names, false)) == "["
  {
    assert Find("[", ']', 0) == -1;
    UnmatchedBracketRepeats("", names);
    assert "" + "[" == "[";
  }

  lemma UnmatchedFromStart(t: string, names: set<string>, parse: string -> ParsedTag)
    requires '[' !in t
    ensures Texts(LexFrom(t + "[", 0, names, parse, [])) == t + (t + "[")
  {
    var d := t + "[";
    UnmatchedFinds(t);
    LexFromUnmatched(d, 0, names, parse, [], |t|);
    UnmatchedTexts(t);
  }

  /** The searches of the scan over `t + "["`: the '[' is the last character, with nothing after it. */
  lemma UnmatchedFinds(t: string)
    requires '[' !in t
    ensures Find(t + "[", '[', 0) == |t|
    ensures Find(t + "[", ']', |t|) == -1 && Find(t + "[", '[', |t| + 1) == -1
  {
    var d := t + "[";
    assert forall k :: 0 <= k < |t| ==> d[k] != '[' by {
      forall k | 0 <= k < |t| ensures d[k] != '[' { assert d[k] == t[k]; }
    }
    FindAt(d, '[', 0, |t|);
  }

  lemma UnmatchedTexts(t: string)
    ensures Texts(Before(t + "[", 0, |t|, []) + TextualTokens(t + "[")) == t + (t + "[")
  {
    var d := t + "[";
    assert Texts([]) == d[..0];
    BeforePrefix(d, 0, |t|, []);
    TextsAppend(Before(d, 0, |t|, []), TextualTokens(d));
    TextualTokensText(d);
    assert d[..|t|] == t;
  }

  /** Normalisation leaves no carriage return. */
  lemma NormalizeNoCR(data: string)
    ensures '\r' !in Normalize(data, true)
  {
    assert "\r" == ['\r'];
    ReplaceCharRemoves(Replace(data, "\r\n", "\n"), '\r', "\n");
  }
}
