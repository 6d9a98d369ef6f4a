/**
 * Ordered multi-substitution (`replace` of precise_bbcode/core/utils.py and the parsers' `_replace`)
 * and the default HTML escape table of the settings module.
 */
module Utils {
  import opened Text

  /** A list of `(old, new)` pairs, applied in order. */
  type Replacements = seq<(string, string)>

  /** Each pair, in order, replaces every occurrence of its first text in the current string. */
  function ApplyReplacements(data: string, pairs: Replacements): string
    decreases |pairs|
  {
    if pairs == [] then data else ApplyReplacements(Replace(data, pairs[0].0, pairs[0].1), pairs[1..])
  }

  /** `replace(data, replacements)`: rebinds `data` once per pair. */
  method ReplaceAll(data: string, pairs: Replacements) returns (r: string)
    ensures r == ApplyReplacements(data, pairs)
    ensures pairs == [] ==> r == data
  {
    r := data;
    var k := 0;
    while k < |pairs|
      invariant 0 <= k <= |pairs|
      invariant ApplyReplacements(r, pairs[k..]) == ApplyReplacements(data, pairs)
    {
      assert pairs[k..][1..] == pairs[k + 1..];
      r := Replace(r, pairs[k].0, pairs[k].1);
      k := k + 1;
    }
  }

  /** The default `BBCODE_ESCAPE_HTML` table; '&' comes first. */
  const EscapeTable: Replacements :=
    [("&", "&amp;"), ("<", "&lt;"), (">", "&gt;"), ("\"", "&quot;"), ("'", "&#39;")]

  /** The escape of one character, as an HTML entity when it is special. */
  function EscapeChar(c: char): string
  {
    match c
    case '&' => "&amp;"
    case '<' => "&lt;"
    case '>' => "&gt;"
    case '"' => "&quot;"
    case '\'' => "&#39;"
    case _ => [c]
  }

  /** Character-by-character escaping: the reference the ordered table is compared with. */
  function EscapeHtml(s: string): string
  {
    if s == [] then [] else EscapeChar(s[0]) + EscapeHtml(s[1..])
  }

  predicate SingleCharPatterns(pairs: Replacements)
  {
    forall k :: 0 <= k < |pairs| ==> |pairs[k].0| == 1
  }

  /** A table of one-character patterns distributes over concatenation. */
  lemma {:induction false} ApplyCharTableConcat(a: string, b: string, pairs: Replacements)
    requires SingleCharPatterns(pairs)
    ensures ApplyReplacements(a + b, pairs) == ApplyReplacements(a, pairs) + ApplyReplacements(b, pairs)
    decreases |pairs|
  {
    if pairs != [] {
      var c := pairs[0].0[0];
      assert pairs[0].0 == [c];
      ReplaceCharConcat(a, b, c, pairs[0].1);
      ApplyCharTableConcat(Replace(a, [c], pairs[0].1), Replace(b, [c], pairs[0].1), pairs[1..]);
    }
  }

  /** A table none of whose one-character patterns occurs leaves the string unchanged. */
  lemma {:induction false} ApplyCharTableAbsent(s: string, pairs: Replacements)
    requires SingleCharPatterns(pairs)
    requires forall k :: 0 <= k < |pairs| ==> pairs[k].0[0] !in s
    ensures ApplyReplacements(s, pairs) == s
    decreases |pairs|
  {
    if pairs != [] {
      assert pairs[0].0 == [pairs[0].0[0]];
      ReplaceCharAbsent(s, pairs[0].0[0], pairs[0].1);
      ApplyCharTableAbsent(s, pairs[1..]);
    }
  }

  /**
   * A one-character string meets its own pair at index `k`: the pairs before it do not match it,
   * and no pattern after it occurs in its replacement, so the result is that replacement.
   */
  lemma {:induction false} ApplyToOwnPair(c: char, pairs: Replacements, k: nat)
    requires SingleCharPatterns(pairs) && k < |pairs| && pairs[k].0 == [c]
    requires forall j :: 0 <= j < k ==> pairs[j].0 != [c]
    requires forall j :: k < j < |pairs| ==> pairs[j].0[0] !in pairs[k].1
    ensures ApplyReplacements([c], pairs) == pairs[k].1
    decreases k
  {
    var d := pairs[0].0[0];
    assert pairs[0].0 == [d];
    ReplaceOneChar(c, d, pairs[0].1);
    var tail := pairs[1..];
    assert SingleCharPatterns(tail) by {
      forall j | 0 <= j < |tail| ensures |tail[j].0| == 1 { assert tail[j] == pairs[j + 1]; }
    }
    if k == 0 {
      forall j | 0 <= j < |tail| ensures tail[j].0[0] !in pairs[0].1 { assert tail[j] == pairs[j + 1]; }
      ApplyCharTableAbsent(pairs[0].1, tail);
    } else {
      forall j | 0 <= j < k - 1 ensures tail[j].0 != [c] { assert tail[j] == pairs[j + 1]; }
      forall j | k - 1 < j < |tail| ensures tail[j].0[0] !in tail[k - 1].1 { assert tail[j] == pairs[j + 1]; }
      ApplyToOwnPair(c, tail, k - 1);
    }
  }

  /** The escape table sends each character to its escape. */
  lemma EscapeTableOnChar(c: char)
    ensures ApplyReplacements([c], EscapeTable) == EscapeChar(c)
  {
    var t := EscapeTable;
    assert SingleCharPatterns(t);
    match c
    case '&' => ApplyToOwnPair(c, t, 0);
    case '<' => ApplyToOwnPair(c, t, 1);
    case '>' => ApplyToOwnPair(c, t, 2);
    case '"' => ApplyToOwnPair(c, t, 3);
    case '\'' => ApplyToOwnPair(c, t, 4);
    case _ => ApplyCharTableAbsent([c], t);
  }

  /**
   * Applying the ordered table equals escaping each character on its own: because '&' is
   * replaced first, the entities introduced by later pairs are never escaped again.
   */
  lemma {:induction false} EscapeTableIsPerChar(s: string)
    ensures ApplyReplacements(s, EscapeTable) == EscapeHtml(s)
  {
    if s != [] {
      assert s == [s[0]] + s[1..];
      assert SingleCharPatterns(EscapeTable);
      ApplyCharTableConcat([s[0]], s[1..], EscapeTable);
      EscapeTableOnChar(s[0]);
      EscapeTableIsPerChar(s[1..]);
    }
  }

  lemma {:induction false} EscapeHtmlHasNoSpecials(s: string)
    ensures forall c :: c in EscapeHtml(s) ==> c != '<' && c != '>' && c != '"' && c != '\''
  {
    if s != [] {
      EscapeHtmlHasNoSpecials(s[1..]);
      EscapeCharHasNoSpecials(s[0]);
      var e, rest := EscapeChar(s[0]), EscapeHtml(s[1..]);
      assert EscapeHtml(s) == e + rest;
      forall c | c in e + rest
        ensures c != '<' && c != '>' && c != '"' && c != '\''
      {
        assert c in e || c in rest;
      }
    }
  }

  /** No escape holds '<', '>', '"' or "'". */
  lemma EscapeCharHasNoSpecials(d: char)
    ensures forall c :: c in EscapeChar(d) ==> c != '<' && c != '>' && c != '"' && c != '\''
  {
  }

  /** With the default table the output holds no '<', '>', '"' or "'". */
  lemma EscapedHasNoSpecials(s: string)
    ensures forall c :: c in ApplyReplacements(s, EscapeTable) ==> c != '<' && c != '>' && c != '"' && c != '\''
  {
    EscapeTableIsPerChar(s);
    EscapeHtmlHasNoSpecials(s);
  }

  /** '<' becomes "&lt;" and not "&amp;lt;". */
  lemma LessThanEscapedOnce()
    ensures ApplyReplacements("<", EscapeTable) == "&lt;"
  {
    EscapeTableOnChar('<');
  }
}
