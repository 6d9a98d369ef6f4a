/**
 * The syntax of a tag definition stored in the database (precise_bbcode/parser.py:16-17):
 *   standard:   `^\[(?P<start_name>[A-Za-z0-9]*)(=\{[A-Za-z0-9]*\})?\]\{[A-Za-z0-9]*\}\[/(?P<end_name>[A-Za-z0-9]*)\]$`
 *   standalone: `^\[(?P<start_name>[A-Za-z0-9]*)(=\{[A-Za-z0-9]*\})?\]\{?[A-Za-z0-9]*\}?$`
 * hand-written as a parser whose result spells the input back.
 */
module TagDefinition {
  import opened Wrappers
  import opened Text
  import opened Placeholders

  /** Length of the run of `[A-Za-z0-9]` characters at the head of `t`. */
  function AlnumRun(t: string): (n: nat)
    ensures n <= |t|
  {
    if t == [] || !IsAsciiAlnum(t[0]) then 0 else 1 + AlnumRun(t[1..])
  }

  /** A word of letters and digits only: its run is all of it. */
  predicate IsAlnumWord(w: string) { AlnumRun(w) == |w| }

  /** Every character of a word is a letter or a digit. */
  lemma {:induction false} AlnumWordChars(w: string)
    ensures IsAlnumWord(w) <==> forall i :: 0 <= i < |w| ==> IsAsciiAlnum(w[i])
  {
    if w != [] {
      AlnumWordChars(w[1..]);
      assert forall i :: 1 <= i < |w| ==> w[i] == w[1..][i - 1];
    }
  }

  /** The run is a word, and stops at the first character that is neither a letter nor a digit. */
  lemma {:induction false} AlnumRunSpec(t: string)
    ensures IsAlnumWord(t[..AlnumRun(t)])
    ensures AlnumRun(t) < |t| ==> !IsAsciiAlnum(t[AlnumRun(t)])
  {
    if t != [] && IsAsciiAlnum(t[0]) {
      AlnumRunSpec(t[1..]);
      var n := AlnumRun(t);
      assert t[..n][1..] == t[1..][..n - 1];
    }
  }

  /** The run at the head of a word followed by something else is the word. */
  lemma {:induction false} AlnumRunOf(w: string, rest: string)
    requires IsAlnumWord(w) && (rest == [] || !IsAsciiAlnum(rest[0]))
    ensures AlnumRun(w + rest) == |w|
  {
    if w == [] {
      assert w + rest == rest;
    } else {
      assert (w + rest)[1..] == w[1..] + rest;
      AlnumRunOf(w[1..], rest);
    }
  }

  /**
   * A definition the patterns accept: the start name, the name in the optional `={...}`, the
   * content field with its braces, and the end name (absent for a standalone tag).
   */
  datatype TagDef = TagDef(startName: string, option: Option<string>, openBrace: bool, content: string,
                           closeBrace: bool, endName: Option<string>)

  function OptionPart(option: Option<string>): string
  {
    match option
    case None => ""
    case Some(p) => "={" + p + "}"
  }

  function Head(startName: string, option: Option<string>): string
  {
    "[" + startName + OptionPart(option) + "]"
  }

  function Tail(d: TagDef): string
  {
    (if d.openBrace then "{" else "") + d.content + (if d.closeBrace then "}" else "")
      + match d.endName case None => "" case Some(e) => "[/" + e + "]"
  }

  /** The text of a definition. */
  function Spell(d: TagDef): string
  {
    Head(d.startName, d.option) + Tail(d)
  }

  /** The definitions the pattern of each kind describes. */
  predicate Shaped(d: TagDef, standalone: bool)
  {
    IsAlnumWord(d.startName) && (d.option.Some? ==> IsAlnumWord(d.option.value)) && IsAlnumWord(d.content)
    && (standalone <==> d.endName.None?)
    && (!standalone ==> d.openBrace && d.closeBrace && IsAlnumWord(d.endName.value))
  }

  /** `\[name(=\{word\})?\]` at the head of `t`: the name, the option's word and where the head ends. */
  function MatchHead(t: string): (r: Option<(string, Option<string>, nat)>)
    ensures r.Some? ==> r.value.2 <= |t|
  {
    if t == [] || t[0] != '[' then None
    else
      match MatchNamed(t[1..])
      case None => None
      case Some(m) => Some((m.0, m.1, 1 + m.2))
  }

  /** `name(=\{word\})?\]` at the head of `v`. */
  function MatchNamed(v: string): (r: Option<(string, Option<string>, nat)>)
    ensures r.Some? ==> r.value.2 <= |v|
  {
    var n := AlnumRun(v);
    match CloseHead(v[n..])
    case None => None
    case Some(c) => Some((v[..n], c.0, n + c.1))
  }

  /** `(=\{word\})?\]` at the head of `u`: the option's word and the length of the match. */
  function CloseHead(u: string): (r: Option<(Option<string>, nat)>)
    ensures r.Some? ==> r.value.1 <= |u|
  {
    if u != [] && u[0] == ']' then Some((None, 1))
    else if 1 < |u| && u[0] == '=' && u[1] == '{' then
      var j := 2 + AlnumRun(u[2..]);
      if j + 1 < |u| && u[j] == '}' && u[j + 1] == ']' then Some((Some(u[2..j]), j + 2)) else None
    else None
  }

  /** `\{word\}\[/name\]` making up all of `u`: the content word and the end name. */
  function MatchStandardTail(u: string): Option<(string, string)>
  {
    if u == [] || u[0] != '{' then None
    else
      var j := 1 + AlnumRun(u[1..]);
      if j + 2 < |u| && u[j] == '}' && u[j + 1] == '[' && u[j + 2] == '/' then
        var q := j + 3 + AlnumRun(u[j + 3..]);
        if q + 1 == |u| && u[q] == ']' then Some((u[1..j], u[j + 3..q])) else None
      else None
  }

  /** `\{?word\}?` making up all of `u`: the opening brace, the word and the closing brace. */
  function MatchStandaloneTail(u: string): Option<(bool, string, bool)>
  {
    var a := if u != [] && u[0] == '{' then 1 else 0;
    var j := a + AlnumRun(u[a..]);
    if j == |u| then Some((a == 1, u[a..j], false))
    else if j + 1 == |u| && u[j] == '}' then Some((a == 1, u[a..j], true))
    else None
  }

  /**
   * `re.search(tag_re, definition)`, with the named groups. `$` also matches before a final
   * newline, so the pattern is matched against the text without it.
   */
  function MatchDefinition(s: string, standalone: bool): Option<TagDef>
  {
    var t := Chomp(s);
    match MatchHead(t)
    case None => None
    case Some(h) =>
      match MatchTail(t[h.2..], standalone)
      case None => None
      case Some(x) => Some(TagDef(h.0, h.1, x.0, x.1, x.2, x.3))
  }

  /** What follows the head, for each kind of tag. */
  function MatchTail(u: string, standalone: bool): Option<(bool, string, bool, Option<string>)>
  {
    if standalone then
      match MatchStandaloneTail(u)
      case None => None
      case Some(x) => Some((x.0, x.1, x.2, None))
    else
      match MatchStandardTail(u)
      case None => None
      case Some(x) => Some((true, x.0, true, Some(x.1)))
  }

  /** What the patterns accept is a definition of the right shape, spelled exactly as the input. */
  lemma MatchSound(s: string, standalone: bool)
    ensures MatchDefinition(s, standalone).Some? ==>
      Shaped(MatchDefinition(s, standalone).value, standalone) && Chomp(s) == Spell(MatchDefinition(s, standalone).value)
  {
    var t := Chomp(s);
    var mh := MatchHead(t);
    if mh.Some? {
      var h := mh.value;
      var u := t[h.2..];
      var mt := MatchTail(u, standalone);
      if mt.Some? {
        var x := mt.value;
        var d := TagDef(h.0, h.1, x.0, x.1, x.2, x.3);
        assert MatchDefinition(s, standalone) == Some(d);
        assert t == Head(h.0, h.1) + u && IsAlnumWord(h.0) && (h.1.Some? ==> IsAlnumWord(h.1.value)) by {
          HeadSound(t);
          assert t == t[..h.2] + u;
        }
        TailSound(u, standalone);
        assert u == Tail(d);
      }
    }
  }

  lemma TailSound(u: string, standalone: bool)
    requires MatchTail(u, standalone).Some?
    ensures var x := MatchTail(u, standalone).value;
      var d := TagDef([], None, x.0, x.1, x.2, x.3);
      IsAlnumWord(x.1) && (standalone <==> x.3.None?) && (!standalone ==> x.0 && x.2 && IsAlnumWord(x.3.value))
      && u == Tail(d)
  {
    if standalone {
      StandaloneTailSound(u);
    } else {
      StandardTailSound(u);
    }
  }

  lemma HeadSound(t: string)
    requires MatchHead(t).Some?
    ensures var h := MatchHead(t).value;
      IsAlnumWord(h.0) && (h.1.Some? ==> IsAlnumWord(h.1.value)) && t[..h.2] == Head(h.0, h.1)
  {
    var v := t[1..];
    NamedSound(v);
    var m := MatchNamed(v).value;
    assert MatchHead(t).value == (m.0, m.1, 1 + m.2);
    assert t[..1 + m.2] == "[" + v[..m.2];
    BracketAssoc(m.0, OptionPart(m.1));
  }

  lemma BracketAssoc(name: string, option: string)
    ensures "[" + (name + option + "]") == "[" + name + option + "]"
  {
  }

  lemma NamedSound(v: string)
    requires MatchNamed(v).Some?
    ensures var m := MatchNamed(v).value;
      IsAlnumWord(m.0) && (m.1.Some? ==> IsAlnumWord(m.1.value)) && v[..m.2] == m.0 + OptionPart(m.1) + "]"
  {
    var n := AlnumRun(v);
    AlnumRunSpec(v);
    var u := v[n..];
    CloseHeadSound(u);
    var c := CloseHead(u).value;
    assert v[..n + c.1] == v[..n] + u[..c.1];
  }

  lemma CloseHeadSound(u: string)
    requires CloseHead(u).Some?
    ensures var c := CloseHead(u).value;
      (c.0.Some? ==> IsAlnumWord(c.0.value)) && u[..c.1] == OptionPart(c.0) + "]"
  {
    if !(u != [] && u[0] == ']') {
      var j := 2 + AlnumRun(u[2..]);
      AlnumRunSpec(u[2..]);
      assert u[2..j] == u[2..][..j - 2];
      assert u[..j + 2] == "={" + u[2..j] + "}" + "]";
    }
  }

  lemma StandardTailSound(u: string)
    requires MatchStandardTail(u).Some?
    ensures var x := MatchStandardTail(u).value;
      IsAlnumWord(x.0) && IsAlnumWord(x.1) && u == "{" + x.0 + "}" + "[/" + x.1 + "]"
  {
    var j := 1 + AlnumRun(u[1..]);
    AlnumRunSpec(u[1..]);
    assert u[1..j] == u[1..][..j - 1];
    var q := j + 3 + AlnumRun(u[j + 3..]);
    AlnumRunSpec(u[j + 3..]);
    assert u[j + 3..q] == u[j + 3..][..q - j - 3];
    StandardRebuild(u, j, q);
  }

  lemma StandardRebuild(u: string, j: nat, q: nat)
    requires 1 <= j && j + 3 <= q && q + 1 == |u|
    requires u[0] == '{' && u[j] == '}' && u[j + 1] == '[' && u[j + 2] == '/' && u[q] == ']'
    ensures u == "{" + u[1..j] + "}" + "[/" + u[j + 3..q] + "]"
  {
  }

  lemma StandaloneTailSound(u: string)
    requires MatchStandaloneTail(u).Some?
    ensures var x := MatchStandaloneTail(u).value;
      IsAlnumWord(x.1) && u == (if x.0 then "{" else "") + x.1 + (if x.2 then "}" else "")
  {
    var a := if u != [] && u[0] == '{' then 1 else 0;
    var j := a + AlnumRun(u[a..]);
    AlnumRunSpec(u[a..]);
    assert u[a..j] == u[a..][..j - a];
    if j == |u| {
      assert u == u[..a] + u[a..j];
    } else {
      assert u == u[..a] + u[a..j] + "}";
    }
  }

  /** A head followed by anything parses back to its name and option. */
  lemma HeadComplete(name: string, option: Option<string>, rest: string)
    requires IsAlnumWord(name) && (option.Some? ==> IsAlnumWord(option.value))
    ensures MatchHead(Head(name, option) + rest) == Some((name, option, |Head(name, option)|))
  {
    var close := OptionPart(option) + "]" + rest;
    var n := |name| + |OptionPart(option)| + 1;
    HeadSplit(name, option, rest);
    CloseHeadComplete(option, rest);
    NamedComplete(name, close, option, |OptionPart(option)| + 1, n);
    HeadOf(name + close, name, option, n, |Head(name, option)|);
  }

  lemma HeadSplit(name: string, option: Option<string>, rest: string)
    ensures Head(name, option) + rest == "[" + (name + (OptionPart(option) + "]" + rest))
    ensures |Head(name, option)| == |name| + |OptionPart(option)| + 2
    ensures var close := OptionPart(option) + "]" + rest; close[0] == (if option.Some? then '=' else ']')
  {
  }

  lemma HeadOf(v: string, name: string, option: Option<string>, n: nat, k: nat)
    requires MatchNamed(v) == Some((name, option, n)) && k == n + 1
    ensures MatchHead("[" + v) == Some((name, option, k))
  {
    assert ("[" + v)[1..] == v;
  }

  lemma NamedComplete(name: string, close: string, option: Option<string>, c: nat, n: nat)
    requires IsAlnumWord(name) && (close == [] || !IsAsciiAlnum(close[0])) && CloseHead(close) == Some((option, c))
    requires n == |name| + c
    ensures MatchNamed(name + close) == Some((name, option, n))
  {
    AlnumRunOf(name, close);
    assert (name + close)[..|name|] == name;
    assert (name + close)[|name|..] == close;
  }

  lemma CloseHeadComplete(option: Option<string>, rest: string)
    requires option.Some? ==> IsAlnumWord(option.value)
    ensures CloseHead(OptionPart(option) + "]" + rest) == Some((option, |OptionPart(option)| + 1))
  {
    if option.Some? {
      var p := option.value;
      var u := OptionPart(option) + "]" + rest;
      assert u == "={" + (p + ("}]" + rest));
      assert u[2..] == p + ("}]" + rest);
      AlnumRunOf(p, "}]" + rest);
      assert u[2..2 + |p|] == p;
      assert u[2 + |p|] == '}' && u[3 + |p|] == ']';
    }
  }

  lemma StandardTailComplete(content: string, endName: string)
    requires IsAlnumWord(content) && IsAlnumWord(endName)
    ensures MatchStandardTail("{" + content + "}" + "[/" + endName + "]") == Some((content, endName))
  {
    var u := "{" + content + "}" + "[/" + endName + "]";
    assert u[1..] == content + ("}[/" + endName + "]");
    AlnumRunOf(content, "}[/" + endName + "]");
    var j := 1 + |content|;
    assert u[1..j] == content;
    assert u[j] == '}' && u[j + 1] == '[' && u[j + 2] == '/';
    assert u[j + 3..] == endName + "]";
    AlnumRunOf(endName, "]");
    assert u[j + 3..j + 3 + |endName|] == endName;
  }

  lemma StandaloneTailComplete(openBrace: bool, content: string, closeBrace: bool)
    requires IsAlnumWord(content)
    ensures MatchStandaloneTail((if openBrace then "{" else "") + content + (if closeBrace then "}" else ""))
         == Some((openBrace, content, closeBrace))
  {
    var cb := if closeBrace then "}" else "";
    if openBrace {
      assert "{" + content + cb == "{" + (content + cb);
      OpenedTailComplete(content, cb);
    } else {
      assert "" + content + cb == content + cb;
      BareTailComplete(content, cb);
    }
  }

  lemma OpenedTailComplete(content: string, cb: string)
    requires IsAlnumWord(content) && (cb == "" || cb == "}")
    ensures MatchStandaloneTail("{" + (content + cb)) == Some((true, content, cb != ""))
  {
    var u := "{" + (content + cb);
    assert u[1..] == content + cb;
    AlnumRunOf(content, cb);
    assert u[0] == '{';
    assert u[1..1 + |content|] == content;
    assert cb == "}" ==> u[1 + |content|] == '}';
  }

  lemma BareTailComplete(content: string, cb: string)
    requires IsAlnumWord(content) && (cb == "" || cb == "}")
    ensures MatchStandaloneTail(content + cb) == Some((false, content, cb != ""))
  {
    var u := content + cb;
    if content != [] {
      AlnumWordChars(content);
      assert u[0] == content[0];
    }
    assert u[0..] == u;
    AlnumRunOf(content, cb);
    assert u[..|content|] == content;
  }

  /** No character of a spelled definition is a newline, so it is not changed by dropping one. */
  lemma SpellChomp(d: TagDef, standalone: bool)
    requires Shaped(d, standalone)
    ensures Chomp(Spell(d)) == Spell(d)
  {
    var s := Spell(d);
    var last := s[|s| - 1];
    if d.endName.Some? {
      assert last == ']';
    } else if d.closeBrace {
      assert last == '}';
    } else if d.content != [] {
      AlnumWordChars(d.content);
      assert last == d.content[|d.content| - 1];
    } else if d.openBrace {
      assert last == '{';
    } else {
      assert last == ']';
    }
  }

  /** Every definition of the right shape is accepted, with the names it was written with. */
  lemma MatchComplete(d: TagDef, standalone: bool)
    requires Shaped(d, standalone)
    ensures MatchDefinition(Spell(d), standalone) == Some(d)
  {
    var t := Spell(d);
    SpellChomp(d, standalone);
    HeadComplete(d.startName, d.option, Tail(d));
    var k := |Head(d.startName, d.option)|;
    assert t[k..] == Tail(d);
    TailComplete(d, standalone);
    DefinitionSteps(t, standalone);
  }

  /** `MatchDefinition` on a text with no final newline is the head's match followed by the tail's. */
  lemma DefinitionSteps(t: string, standalone: bool)
    requires Chomp(t) == t && MatchHead(t).Some? && MatchTail(t[MatchHead(t).value.2..], standalone).Some?
    ensures var h := MatchHead(t).value; var x := MatchTail(t[h.2..], standalone).value;
      MatchDefinition(t, standalone) == Some(TagDef(h.0, h.1, x.0, x.1, x.2, x.3))
  {
  }

  lemma TailComplete(d: TagDef, standalone: bool)
    requires Shaped(d, standalone)
    ensures MatchTail(Tail(d), standalone) == Some((d.openBrace, d.content, d.closeBrace, d.endName))
  {
    if standalone {
      assert Tail(d) == (if d.openBrace then "{" else "") + d.content + (if d.closeBrace then "}" else "");
      StandaloneTailComplete(d.openBrace, d.content, d.closeBrace);
    } else {
      assert Tail(d) == "{" + d.content + "}" + "[/" + d.endName.value + "]";
      StandardTailComplete(d.content, d.endName.value);
    }
  }

  /** `[b]{TEXT}[/b]` is a standard definition named `b`. */
  lemma BoldDefinition()
    ensures MatchDefinition("[b]{TEXT}[/b]", false) == Some(TagDef("b", None, true, "TEXT", true, Some("b")))
  {
    var d := TagDef("b", None, true, "TEXT", true, Some("b"));
    assert Spell(d) == "[b]{TEXT}[/b]";
    MatchComplete(d, false);
  }

  /** A standard definition is never accepted as a standalone one: its end tag is not a field. */
  lemma StandardNotStandalone(d: TagDef)
    requires Shaped(d, false)
    ensures MatchDefinition(Spell(d), true).None?
  {
    SpellChomp(d, false);
    HeadComplete(d.startName, d.option, Tail(d));
    var k := |Head(d.startName, d.option)|;
    assert Spell(d)[k..] == Tail(d);
    assert Tail(d) == "{" + d.content + "}" + "[/" + d.endName.value + "]";
    StandaloneRejectsEnd(d.content, d.endName.value);
  }

  lemma StandaloneRejectsEnd(content: string, endName: string)
    requires IsAlnumWord(content)
    ensures MatchStandaloneTail("{" + content + "}" + "[/" + endName + "]").None?
  {
    var u := "{" + content + "}" + "[/" + endName + "]";
    assert u[1..] == content + ("}[/" + endName + "]");
    AlnumRunOf(content, "}[/" + endName + "]");
  }
}
