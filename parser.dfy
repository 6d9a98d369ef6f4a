/**
 * The current `BBCodeParser` (precise_bbcode/bbcode/parser.py): its stores of placeholders, tags
 * and smilies, filled by `add_placeholder`, `add_bbcode_tag` and `add_smiley`, and `render`, which
 * lexes the text against the registered tag names, repairs the token list and renders it.
 */
module Parser {
  import opened Wrappers
  import opened Text
  import opened Errors
  import opened Utils
  import opened Matchers
  import opened Lexer
  import opened LexerProps
  import opened TagOptions
  import opened Placeholders
  import opened Tags
  import opened Repair
  import opened Render
  import opened RenderProps

  /** The value stored under `key` in an insertion-ordered dictionary, if any. */
  function Lookup(d: Replacements, key: string): Option<string>
  {
    if d == [] then None else if d[0].0 == key then Some(d[0].1) else Lookup(d[1..], key)
  }

  /** No key is stored twice. */
  predicate UniqueKeys(d: Replacements)
  {
    forall i, j :: 0 <= i < j < |d| ==> d[i].0 != d[j].0
  }

  /**
   * `d[key] = value` on a dictionary kept as its list of items in insertion order: an existing
   * key keeps its place and takes the new value, a new key goes last.
   */
  function DictSet(d: Replacements, key: string, value: string): Replacements
  {
    if d == [] then [(key, value)]
    else if d[0].0 == key then [(key, value)] + d[1..]
    else [d[0]] + DictSet(d[1..], key, value)
  }

  /** After `d[key] = value`, `key` reads `value` and every other key reads what it read before. */
  lemma {:induction false} DictSetLookup(d: Replacements, key: string, value: string, other: string)
    ensures Lookup(DictSet(d, key, value), key) == Some(value)
    ensures other != key ==> Lookup(DictSet(d, key, value), other) == Lookup(d, other)
  {
    if d != [] && d[0].0 != key {
      DictSetLookup(d[1..], key, value, other);
    }
  }

  /** With no key stored twice, the items are a dictionary: a key reads a value exactly when the two are stored together. */
  lemma {:induction false} LookupItems(d: Replacements, key: string, value: string)
    requires UniqueKeys(d)
    ensures (key, value) in d <==> Lookup(d, key) == Some(value)
  {
    if d != [] {
      assert d == [d[0]] + d[1..];
      if d[0].0 != key {
        UniqueTail(d);
        LookupItems(d[1..], key, value);
      }
    }
  }

  /**
   * Setting a key present already keeps the order and the number of items; setting a new key
   * appends it. Either way no key is stored twice.
   */
  lemma {:induction false} DictSetShape(d: Replacements, key: string, value: string)
    requires UniqueKeys(d)
    ensures Lookup(d, key).Some? ==>
      |DictSet(d, key, value)| == |d| && forall i :: 0 <= i < |d| ==> DictSet(d, key, value)[i].0 == d[i].0
    ensures Lookup(d, key).None? ==> DictSet(d, key, value) == d + [(key, value)]
    ensures UniqueKeys(DictSet(d, key, value))
  {
    if d != [] {
      UniqueTail(d);
      if d[0].0 != key {
        DictSetShape(d[1..], key, value);
        DictSetKeys(d[1..], key, value, d[0].0);
        UniqueCons(d[0], DictSet(d[1..], key, value));
      } else {
        SetHeadUnique(d, key, value);
      }
    }
  }

  /** The items after the first of a dictionary hold no key twice either. */
  lemma UniqueTail(d: Replacements)
    requires d != [] && UniqueKeys(d)
    ensures UniqueKeys(d[1..])
  {
    forall i, j | 0 <= i < j < |d[1..]| ensures d[1..][i].0 != d[1..][j].0 {
      assert d[1..][i] == d[i + 1] && d[1..][j] == d[j + 1];
    }
  }

  /** An item put before items without its key, none stored twice, keeps the keys unique. */
  lemma UniqueCons(p: (string, string), rest: Replacements)
    requires UniqueKeys(rest)
    requires !(exists i :: 0 <= i < |rest| && rest[i].0 == p.0)
    ensures UniqueKeys([p] + rest)
  {
    var r := [p] + rest;
    forall i, j | 0 <= i < j < |r| ensures r[i].0 != r[j].0 {
      if i == 0 {
        assert r[j] == rest[j - 1];
      } else {
        assert r[i] == rest[i - 1] && r[j] == rest[j - 1];
      }
    }
  }

  /** Setting the first key changes only its value. */
  lemma SetHeadUnique(d: Replacements, key: string, value: string)
    requires d != [] && d[0].0 == key && UniqueKeys(d)
    ensures Lookup(d, key).Some?
    ensures |DictSet(d, key, value)| == |d| && forall i :: 0 <= i < |d| ==> DictSet(d, key, value)[i].0 == d[i].0
    ensures UniqueKeys(DictSet(d, key, value))
  {
    var r := DictSet(d, key, value);
    forall i, j | 0 <= i < j < |r| ensures r[i].0 != r[j].0 {
      assert r[i].0 == d[i].0 && r[j].0 == d[j].0;
    }
  }

  /** A key other than the one set is stored after setting exactly when it was stored before. */
  lemma {:induction false} DictSetKeys(d: Replacements, key: string, value: string, other: string)
    requires other != key
    ensures (exists i :: 0 <= i < |DictSet(d, key, value)| && DictSet(d, key, value)[i].0 == other)
      <==> (exists i :: 0 <= i < |d| && d[i].0 == other)
  {
    if d != [] {
      var r := DictSet(d, key, value);
      if d[0].0 != key {
        DictSetKeys(d[1..], key, value, other);
        if exists i :: 0 <= i < |r| && r[i].0 == other {
          var i :| 0 <= i < |r| && r[i].0 == other;
          if i > 0 {
            assert r[i] == DictSet(d[1..], key, value)[i - 1];
            var j :| 0 <= j < |d[1..]| && d[1..][j].0 == other;
            assert d[j + 1].0 == other;
          } else {
            assert d[0].0 == other;
          }
        }
        if exists i :: 0 <= i < |d| && d[i].0 == other {
          var i :| 0 <= i < |d| && d[i].0 == other;
          if i > 0 {
            assert d[1..][i - 1].0 == other;
            var j :| 0 <= j < |DictSet(d[1..], key, value)| && DictSet(d[1..], key, value)[j].0 == other;
            assert r[j + 1].0 == other;
          } else {
            assert r[0].0 == other;
          }
        }
      } else {
        assert |r| == |d|;
        assert forall i :: 1 <= i < |d| ==> r[i] == d[i];
      }
    }
  }

  /** The options of each installed tag, by name. */
  function OptionsByName(bbcodes: map<string, TagClass>): (r: Registry)
    ensures r.Keys == bbcodes.Keys
    ensures forall n :: n in r ==> r[n] == bbcodes[n].options
  {
    map n | n in bbcodes :: bbcodes[n].options
  }

  /**
   * `self.bbcodes[tag_name].do_render(self, value, option, parent)`; a name that is not installed
   * raises `KeyError`.
   */
  function DoRenderCall(env: Env, phs: PlaceholderMap, table: Replacements, bbcodes: map<string, TagClass>)
    : (string, Option<string>, Option<string>, Option<BBCodeTagOptions>) -> Result<string, Error>
  {
    (name: string, value: Option<string>, option: Option<string>, parent: Option<BBCodeTagOptions>) =>
      if name in bbcodes then DoRender(env, phs, table, bbcodes[name], value, option, parent) else Err(KeyError(name))
  }

  /** `render(data)`: the tokens of `get_tokens`, repaired, then rendered at top level. */
  function RenderDocument(cfg: Config, data: string, normalizeNewlines: bool): Result<string, Error>
  {
    RenderTokensSpec(cfg, Repair.Repair(Lex(data, cfg.reg.Keys, normalizeNewlines), cfg.reg), None)
  }

  /** `get_tokens` only emits tag tokens for installed names, which `_drop_syntactic_errors` relies on. */
  lemma LexRegistered(data: string, reg: Registry, normalizeNewlines: bool)
    ensures Registered(Lex(data, reg.Keys, normalizeNewlines), reg)
  {
    var ts := Lex(data, reg.Keys, normalizeNewlines);
    LexKnown(data, reg.Keys, normalizeNewlines);
    forall k | 0 <= k < |ts| && IsTag(ts[k]) ensures ts[k].tagName.Some? && ts[k].tagName.value in reg {
      assert ts[k] in ts;
    }
  }

  /**
   * The token list `render` hands to `_render_tokens` spells the newline-normalised input when
   * every '[' has a later ']': lexing and repairing only cut the text into tokens.
   */
  lemma RenderedTokensSpellInput(data: string, reg: Registry, normalizeNewlines: bool)
    requires BracketsClosed(Normalize(data, normalizeNewlines))
    ensures Texts(Repair.Repair(Lex(data, reg.Keys, normalizeNewlines), reg)) == Normalize(data, normalizeNewlines)
  {
    LexPreservesText(data, reg.Keys, normalizeNewlines);
    RepairKeepsTexts(Lex(data, reg.Keys, normalizeNewlines), reg);
  }

  /** A text without '[' lexes into its textual tokens. */
  lemma LexPlain(data: string, names: set<string>, normalizeNewlines: bool)
    requires '[' !in data
    ensures Lex(data, names, normalizeNewlines) == TextualTokens(Normalize(data, normalizeNewlines))
  {
    var d := Normalize(data, normalizeNewlines);
    if normalizeNewlines {
      ReplaceKeepsAbsent(data, "\r\n", "\n", '[');
      ReplaceKeepsAbsent(Replace(data, "\r\n", "\n"), "\r", "\n", '[');
    }
    if d != [] {
      LexFromText(d, 0, names, ParseTag, []);
      assert d[0..] == d;
    }
  }

  /** The repair pass leaves a list of text tokens as it is. */
  lemma RepairText(ts: seq<Token>, reg: Registry)
    requires forall t :: t in ts ==> IsTextToken(t)
    ensures Repair.Repair(ts, reg) == ts
  {
    forall k | 0 <= k < |ts| ensures Repair.Repair(ts, reg)[k] == ts[k] {
      assert ts[k] in ts;
      RepairKeeps(ts, reg, k);
    }
  }

  /**
   * A text without any '[' renders, with the default escape table, no smilies and no link in
   * it, as its escaped pieces with `newline_char` for each newline.
   */
  lemma PlainTextRenders(cfg: Config, data: string, normalizeNewlines: bool)
    requires '[' !in data && cfg.table == EscapeTable && cfg.smilies == []
    requires forall t :: t in TextualTokens(Normalize(data, normalizeNewlines)) && t.kind == Data ==>
      UrlMatch(cfg.env, t.text).None?
    ensures RenderDocument(cfg, data, normalizeNewlines)
      == Ok(SafeOut(TextualTokens(Normalize(data, normalizeNewlines)), cfg.newlineChar))
  {
    var ts := TextualTokens(Normalize(data, normalizeNewlines));
    LexPlain(data, cfg.reg.Keys, normalizeNewlines);
    TextualTokensAreText(Normalize(data, normalizeNewlines));
    RepairText(ts, cfg.reg);
    assert NoStart(ts) by {
      forall k | 0 <= k < |ts| ensures ts[k].kind != StartTag {
        assert ts[k] in ts;
      }
    }
    PlainRender(cfg, ts, None);
    forall k | 0 <= k < |ts| && ts[k].kind == Data ensures UrlMatch(cfg.env, ts[k].text).None? {
      assert ts[k] in ts;
    }
    PlainOutEscapes(cfg, ts);
  }

  /** The parser object. */
  class BBCodeParser {
    /** The regular expressions and the code the model does not see. */
    const env: Env
    /** The names `'-*-bbcode-link-{id(match)}-{pos}-*-'` the link pulling gives its markers. */
    const marker: (nat, nat) -> string
    var newlineChar: string
    var replaceHtml: Replacements
    var normalizeNewlines: bool
    /** Placeholder objects under their upper-cased names. */
    var placeholders: PlaceholderMap
    /** Tag objects under their names. */
    var bbcodes: map<string, TagClass>
    /** Smiley codes and their image HTML, in insertion order. */
    var smilies: Replacements

    /** Every placeholder is stored under its upper-cased name, and no smiley code twice. */
    ghost predicate Valid()
      reads this
    {
      UniqueKeys(smilies) && forall k :: k in placeholders ==> k == Upper(placeholders[k].name)
    }

    /** What the invariant buys: each smiley code stands for the one image stored with it. */
    lemma SmileyImage(code: string, img: string)
      requires Valid()
      ensures (code, img) in smilies <==> Lookup(smilies, code) == Some(img)
    {
      LookupItems(smilies, code, img);
    }

    /** `__init__`: the three settings and empty stores. */
    constructor(env: Env, marker: (nat, nat) -> string, newlineChar: string, replaceHtml: Replacements, normalizeNewlines: bool)
      ensures Valid()
      ensures this.env == env && this.marker == marker && this.newlineChar == newlineChar
      ensures this.replaceHtml == replaceHtml && this.normalizeNewlines == normalizeNewlines
      ensures placeholders == map[] && bbcodes == map[] && smilies == []
    {
      this.env := env;
      this.marker := marker;
      this.newlineChar := newlineChar;
      this.replaceHtml := replaceHtml;
      this.normalizeNewlines := normalizeNewlines;
      placeholders := map[];
      bbcodes := map[];
      smilies := [];
    }

    /** `add_placeholder`: installs the placeholder under its upper-cased name, replacing any there. */
    method AddPlaceholder(p: Placeholder)
      requires Valid()
      modifies this
      ensures Valid()
      ensures placeholders == old(placeholders)[Upper(p.name) := p]
      ensures bbcodes == old(bbcodes) && smilies == old(smilies)
      ensures newlineChar == old(newlineChar) && replaceHtml == old(replaceHtml) && normalizeNewlines == old(normalizeNewlines)
    {
      placeholders := placeholders[Upper(p.name) := p];
    }

    /** `add_bbcode_tag`: installs the tag under its name, replacing any tag of that name. */
    method AddBBCodeTag(tag: TagClass)
      requires Valid()
      modifies this
      ensures Valid()
      ensures bbcodes == old(bbcodes)[tag.name := tag]
      ensures placeholders == old(placeholders) && smilies == old(smilies)
      ensures newlineChar == old(newlineChar) && replaceHtml == old(replaceHtml) && normalizeNewlines == old(normalizeNewlines)
    {
      bbcodes := bbcodes[tag.name := tag];
    }

    /** `add_smiley`: `smilies[code] = img`. */
    method AddSmiley(code: string, img: string)
      requires Valid()
      modifies this
      ensures Valid()
      ensures smilies == DictSet(old(smilies), code, img)
      ensures placeholders == old(placeholders) && bbcodes == old(bbcodes)
      ensures newlineChar == old(newlineChar) && replaceHtml == old(replaceHtml) && normalizeNewlines == old(normalizeNewlines)
    {
      DictSetShape(smilies, code, img);
      smilies := DictSet(smilies, code, img);
    }

    /** What rendering reads from the parser. */
    function Cfg(): Config
      reads this
    {
      Config(env, OptionsByName(bbcodes), DoRenderCall(env, placeholders, replaceHtml, bbcodes),
             replaceHtml, smilies, newlineChar, marker)
    }

    /** `render(data)`. */
    method Render(data: string) returns (r: Result<string, Error>)
      ensures r == RenderDocument(Cfg(), data, normalizeNewlines)
    {
      var cfg := Cfg();
      assert cfg.reg.Keys == bbcodes.Keys;
      var tokens := GetTokens(data, bbcodes.Keys, normalizeNewlines);
      LexRegistered(data, cfg.reg, normalizeNewlines);
      var a := new Token[|tokens|](i requires 0 <= i < |tokens| => tokens[i]);
      assert a[..] == tokens;
      DropSyntacticErrors(a, cfg.reg);
      r := RenderTokens(cfg, a[..], None);
    }
  }
}
