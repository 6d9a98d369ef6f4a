/**
 * `_find_closing_token`: where the tag opened just before `pos` ends. A NEWLINE closes it when
 * the tag's options say `newline_closes`, a START token of the same name when they say
 * `same_tag_closes` (that one is not consumed), and otherwise the END token of the same name
 * that balances the START tokens of that name counted in between (counted only when the tag
 * renders its content as BBCode).
 */
module Closing {
  import opened Wrappers
  import opened Lexer
  import opened TagOptions

  /** The answer of the search: the index where the tag ends and whether that token is consumed. */
  datatype Close = Close(end: nat, consume: bool)

  /** The search from `pos`, with `depth` same-name tags opened in between and not yet closed. */
  function ClosingFrom(name: Option<string>, o: BBCodeTagOptions, ts: seq<Token>, pos: nat, depth: nat): (r: Close)
    ensures pos <= |ts| ==> pos <= r.end <= |ts|
    ensures pos <= |ts| && !r.consume ==> r.end < |ts|
    decreases |ts| - pos
  {
    if pos >= |ts| then Close(pos, true)
    else
      var t := ts[pos];
      if t.kind == Newline && o.newlineCloses then Close(pos, true)
      else if t.kind == StartTag && t.tagName == name then
        if o.sameTagCloses then Close(pos, false)
        else ClosingFrom(name, o, ts, pos + 1, if o.renderEmbedded then depth + 1 else depth)
      else if t.kind == EndTag && t.tagName == name then
        if depth > 0 then ClosingFrom(name, o, ts, pos + 1, depth - 1) else Close(pos, true)
      else ClosingFrom(name, o, ts, pos + 1, depth)
  }

  /** `_find_closing_token(tag_name, tag_options, tokens, pos)`. */
  function FindClosing(name: Option<string>, o: BBCodeTagOptions, ts: seq<Token>, pos: nat): Close
  {
    ClosingFrom(name, o, ts, pos, 0)
  }

  /** The loop of `_find_closing_token`, with its `similar_tags_embedded` counter. */
  method FindClosingToken(name: Option<string>, o: BBCodeTagOptions, tokens: seq<Token>, pos: nat)
    returns (r: Close)
    ensures r == FindClosing(name, o, tokens, pos)
  {
    var similar: nat := 0;
    var p := pos;
    while p < |tokens|
      invariant pos <= p
      invariant ClosingFrom(name, o, tokens, p, similar) == FindClosing(name, o, tokens, pos)
      decreases |tokens| - p
    {
      var token := tokens[p];
      if token.kind == Newline && o.newlineCloses {
        return Close(p, true);
      } else if token.kind == StartTag && token.tagName == name {
        if o.sameTagCloses {
          return Close(p, false);
        }
        if o.renderEmbedded {
          similar := similar + 1;
        }
      } else if token.kind == EndTag && token.tagName == name {
        if similar > 0 {
          similar := similar - 1;
        } else {
          return Close(p, true);
        }
      }
      p := p + 1;
    }
    return Close(p, true);
  }

  /** A NEWLINE that closes the tag. */
  predicate NewlineCloser(t: Token, o: BBCodeTagOptions) { t.kind == Newline && o.newlineCloses }

  /** A START token of the tag's own name that closes it. */
  predicate SameStartCloser(t: Token, name: Option<string>, o: BBCodeTagOptions)
  {
    t.kind == StartTag && t.tagName == name && o.sameTagCloses
  }

  predicate SameEnd(t: Token, name: Option<string>) { t.kind == EndTag && t.tagName == name }

  predicate SameStart(t: Token, name: Option<string>) { t.kind == StartTag && t.tagName == name }

  /**
   * The end lies in `[pos, len(tokens)]`; at the end of the list the last token is consumed, and
   * any other end is a closing token of one of the three kinds, consumed unless it is a START token.
   */
  lemma {:induction false} ClosingHit(name: Option<string>, o: BBCodeTagOptions, ts: seq<Token>, pos: nat, depth: nat)
    requires pos <= |ts|
    ensures var r := ClosingFrom(name, o, ts, pos, depth);
      pos <= r.end <= |ts|
      && (r.end == |ts| ==> r.consume)
      && (r.end < |ts| ==>
            (NewlineCloser(ts[r.end], o) && r.consume)
            || (SameStartCloser(ts[r.end], name, o) && !r.consume)
            || (SameEnd(ts[r.end], name) && r.consume))
    decreases |ts| - pos
  {
    if pos < |ts| {
      var t := ts[pos];
      if t.kind == Newline && o.newlineCloses {
      } else if t.kind == StartTag && t.tagName == name {
        if !o.sameTagCloses {
          ClosingHit(name, o, ts, pos + 1, if o.renderEmbedded then depth + 1 else depth);
        }
      } else if t.kind == EndTag && t.tagName == name {
        if depth > 0 {
          ClosingHit(name, o, ts, pos + 1, depth - 1);
        }
      } else {
        ClosingHit(name, o, ts, pos + 1, depth);
      }
    }
  }

  /** No NEWLINE and no START token that would close the tag comes before its end. */
  lemma {:induction false} NoEarlierCloser(name: Option<string>, o: BBCodeTagOptions, ts: seq<Token>, pos: nat, depth: nat)
    ensures var r := ClosingFrom(name, o, ts, pos, depth);
      forall k :: pos <= k < r.end && k < |ts| ==> !NewlineCloser(ts[k], o) && !SameStartCloser(ts[k], name, o)
    decreases |ts| - pos
  {
    if pos < |ts| {
      var t := ts[pos];
      if t.kind == Newline && o.newlineCloses {
      } else if t.kind == StartTag && t.tagName == name {
        if !o.sameTagCloses {
          NoEarlierCloser(name, o, ts, pos + 1, if o.renderEmbedded then depth + 1 else depth);
        }
      } else if t.kind == EndTag && t.tagName == name {
        if depth > 0 {
          NoEarlierCloser(name, o, ts, pos + 1, depth - 1);
        }
      } else {
        NoEarlierCloser(name, o, ts, pos + 1, depth);
      }
    }
  }

  /** When no token from `pos` on can close the tag, the search runs off the end: `(len, True)`. */
  lemma {:induction false} NothingCloses(name: Option<string>, o: BBCodeTagOptions, ts: seq<Token>, pos: nat, depth: nat)
    requires pos <= |ts|
    requires forall k :: pos <= k < |ts| ==>
      !NewlineCloser(ts[k], o) && !SameStartCloser(ts[k], name, o) && !SameEnd(ts[k], name)
    ensures ClosingFrom(name, o, ts, pos, depth) == Close(|ts|, true)
    decreases |ts| - pos
  {
    if pos < |ts| {
      assert !NewlineCloser(ts[pos], o) && !SameStartCloser(ts[pos], name, o) && !SameEnd(ts[pos], name);
      NothingCloses(name, o, ts, pos + 1, if SameStart(ts[pos], name) && o.renderEmbedded then depth + 1 else depth);
    }
  }

  /** The number of tokens in `ts[a..b]` satisfying `same`, counted from the front. */
  function CountIn(ts: seq<Token>, a: nat, b: nat, same: Token -> bool): nat
    requires b <= |ts|
    decreases b - a
  {
    if a >= b then 0 else (if same(ts[a]) then 1 else 0) + CountIn(ts, a + 1, b, same)
  }

  /** The same-name START tokens in `ts[a..b]` that the search counts. */
  function Opened(name: Option<string>, o: BBCodeTagOptions, ts: seq<Token>, a: nat, b: nat): nat
    requires b <= |ts|
  {
    if o.renderEmbedded then CountIn(ts, a, b, t => SameStart(t, name)) else 0
  }

  /** The same-name END tokens in `ts[a..b]`. */
  function Closed(name: Option<string>, ts: seq<Token>, a: nat, b: nat): nat
    requires b <= |ts|
  {
    CountIn(ts, a, b, t => SameEnd(t, name))
  }

  lemma OpenedStep(name: Option<string>, o: BBCodeTagOptions, ts: seq<Token>, a: nat, b: nat)
    requires a < b <= |ts|
    ensures Opened(name, o, ts, a, b) == (if o.renderEmbedded && SameStart(ts[a], name) then 1 else 0) + Opened(name, o, ts, a + 1, b)
    ensures Closed(name, ts, a, b) == (if SameEnd(ts[a], name) then 1 else 0) + Closed(name, ts, a + 1, b)
  {
  }

  /**
   * An END token that ends the tag balances it: the open same-name tags plus those opened in
   * between equal the same-name END tokens in between, and no END token before it did so.
   */
  lemma {:induction false} EndBalances(name: Option<string>, o: BBCodeTagOptions, ts: seq<Token>, pos: nat, depth: nat)
    requires pos <= |ts|
    ensures var r := ClosingFrom(name, o, ts, pos, depth);
      r.end < |ts| && SameEnd(ts[r.end], name) ==>
        depth + Opened(name, o, ts, pos, r.end) == Closed(name, ts, pos, r.end)
    ensures var r := ClosingFrom(name, o, ts, pos, depth);
      forall k :: pos <= k < r.end && k < |ts| && SameEnd(ts[k], name) ==>
        depth + Opened(name, o, ts, pos, k) != Closed(name, ts, pos, k)
    decreases |ts| - pos
  {
    if pos < |ts| {
      var t := ts[pos];
      var r := ClosingFrom(name, o, ts, pos, depth);
      if t.kind == Newline && o.newlineCloses {
      } else if t.kind == StartTag && t.tagName == name && o.sameTagCloses {
      } else if t.kind == EndTag && t.tagName == name && depth == 0 {
      } else {
        var d := if SameStart(t, name) && o.renderEmbedded then depth + 1
                 else if SameEnd(t, name) then depth - 1 else depth;
        assert r == ClosingFrom(name, o, ts, pos + 1, d);
        EndBalances(name, o, ts, pos + 1, d);
        ClosingHit(name, o, ts, pos + 1, d);
        if r.end < |ts| {
          OpenedStep(name, o, ts, pos, r.end);
        }
        forall k | pos <= k < r.end && k < |ts| && SameEnd(ts[k], name)
          ensures depth + Opened(name, o, ts, pos, k) != Closed(name, ts, pos, k)
        {
          if k > pos {
            OpenedStep(name, o, ts, pos, k);
          }
        }
      }
    }
  }

  /**
   * Without `render_embedded` nothing is counted: the tag ends at the first NEWLINE or START token
   * that closes it or at the first END token of its name, whichever comes first.
   */
  lemma FlatFirstEnd(name: Option<string>, o: BBCodeTagOptions, ts: seq<Token>, pos: nat, k: nat)
    requires !o.renderEmbedded && pos <= k < |ts|
    requires NewlineCloser(ts[k], o) || SameStartCloser(ts[k], name, o) || SameEnd(ts[k], name)
    requires forall j :: pos <= j < k ==>
      !NewlineCloser(ts[j], o) && !SameStartCloser(ts[j], name, o) && !SameEnd(ts[j], name)
    ensures FindClosing(name, o, ts, pos).end == k
  {
    FlatFrom(name, o, ts, pos, k);
  }

  lemma {:induction false} FlatFrom(name: Option<string>, o: BBCodeTagOptions, ts: seq<Token>, p: nat, k: nat)
    requires !o.renderEmbedded && p <= k < |ts|
    requires NewlineCloser(ts[k], o) || SameStartCloser(ts[k], name, o) || SameEnd(ts[k], name)
    requires forall j :: p <= j < k ==>
      !NewlineCloser(ts[j], o) && !SameStartCloser(ts[j], name, o) && !SameEnd(ts[j], name)
    ensures ClosingFrom(name, o, ts, p, 0).end == k
    decreases k - p
  {
    if p < k {
      assert !NewlineCloser(ts[p], o) && !SameStartCloser(ts[p], name, o) && !SameEnd(ts[p], name);
      FlatFrom(name, o, ts, p + 1, k);
    }
  }
}
