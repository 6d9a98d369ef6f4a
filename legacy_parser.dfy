/**
 * The legacy `BBCodeParser` (precise_bbcode/parser.py). Tags are installed as a renderer function
 * and its options (`add_renderer`), or as a definition string and a format string
 * (`add_default_renderer`), validated against the module's own table of placeholder patterns.
 * The lexer, the repair pass, the closing search and the renderer are those of the current
 * parser, with no smilies.
 */
module LegacyParser {
  import opened Wrappers
  import opened Text
  import opened Errors
  import opened Utils
  import opened Matchers
  import opened TagOptions
  import opened PyFormat
  import opened Placeholders
  import opened PlaceholderSyntax
  import opened BuiltinRenderers
  import opened Tags
  import opened Lexer
  import opened Repair
  import opened Render
  import opened Parser
  import DefaultTags

  /** Length of the run of word characters (`\w`) at the head of `t`. */
  function WordRun(t: string): (n: nat)
    ensures n <= |t|
  {
    if t == [] || !IsWordChar(t[0]) then 0 else 1 + WordRun(t[1..])
  }

  /** The run is all word characters and stops at the first character that is not one. */
  lemma {:induction false} WordRunSpec(t: string)
    ensures forall i :: 0 <= i < WordRun(t) ==> IsWordChar(t[i])
    ensures WordRun(t) < |t| ==> !IsWordChar(t[WordRun(t)])
  {
    if t != [] && IsWordChar(t[0]) {
      WordRunSpec(t[1..]);
      forall i | 1 <= i < WordRun(t)
        ensures IsWordChar(t[i])
      {
        assert t[i] == t[1..][i - 1];
      }
    }
  }

  predicate IsWord(k: string) { |k| > 0 && forall i :: 0 <= i < |k| ==> IsWordChar(k[i]) }

  /** `re.findall(r'{(\w+)}', s)`: the names of the non-overlapping `{name}` fields, from the left. */
  function WordFields(s: string): seq<string>
    decreases |s|
  {
    if s == [] then []
    else if s[0] == '{' then
      var n := WordRun(s[1..]);
      if n > 0 && n + 1 < |s| && s[n + 1] == '}' then [s[1..n + 1]] + WordFields(s[n + 2..])
      else WordFields(s[1..])
    else WordFields(s[1..])
  }

  /** Every name found is a non-empty run of word characters. */
  lemma {:induction false} WordFieldsAreWords(s: string)
    ensures forall k :: 0 <= k < |WordFields(s)| ==> IsWord(WordFields(s)[k])
    decreases |s|
  {
    if s != [] {
      if s[0] == '{' {
        var n := WordRun(s[1..]);
        if n > 0 && n + 1 < |s| && s[n + 1] == '}' {
          WordRunSpec(s[1..]);
          WordFieldsAreWords(s[n + 2..]);
          var key := s[1..n + 1];
          assert forall i :: 0 <= i < |key| ==> key[i] == s[1..][i];
          forall k | 0 <= k < |WordFields(s)| ensures IsWord(WordFields(s)[k]) {
            if k > 0 {
              assert WordFields(s)[k] == WordFields(s[n + 2..])[k - 1];
            }
          }
        } else {
          WordFieldsAreWords(s[1..]);
        }
      } else {
        WordFieldsAreWords(s[1..]);
      }
    }
  }

  /** `re.sub(r'\d+$', '', name)`: the placeholder type, the name without its trailing digits. */
  function TypeName(key: string): (r: string)
    ensures |r| <= |key| && r == key[..|r|]
    ensures r == [] || !IsAsciiDigit(r[|r| - 1])
    ensures forall i :: |r| <= i < |key| ==> IsAsciiDigit(key[i])
  {
    if key != [] && IsAsciiDigit(key[|key| - 1]) then TypeName(key[..|key| - 1]) else key
  }

  /** The pattern `PLACEHOLDERS_RE` holds under a type name, if any. */
  function KindNamed(t: string): (r: Option<PatternKind>)
    ensures r.Some? ==> t != []
  {
    if t == "URL" then Some(UrlPattern)
    else if t == "EMAIL" then Some(EmailPattern)
    else if t == "TEXT" then Some(TextPattern)
    else if t == "SIMPLETEXT" then Some(SimpleTextPattern)
    else if t == "COLOR" then Some(ColorPattern)
    else if t == "NUMBER" then Some(NumberPattern)
    else None
  }

  /**
   * One iteration of `_validate_format`: an unknown type raises `InvalidBBCodePlaholder`, a `None`
   * content makes `re.search` raise `TypeError`, and otherwise the outcome is whether the pattern
   * is found in the content.
   */
  function LegacyCheckEntry(env: Env, e: (string, Option<string>)): (r: Result<bool, Error>)
  {
    var t := TypeName(e.0);
    match KindNamed(t)
    case None => Err(InvalidPlaceholder(t))
    case Some(kind) => if e.1.None? then Err(TypeError) else Ok(PatternSearch(env, kind, e.1.value))
  }

  /** `_validate_format(format_dict)`: the entries in order, the first that is not valid decides. */
  function LegacyValidateSpec(env: Env, fmt: FormatMap): Result<bool, Error>
    decreases |fmt|
  {
    if fmt == [] then Ok(true)
    else
      var first := LegacyCheckEntry(env, fmt[0]);
      if first == Ok(true) then LegacyValidateSpec(env, fmt[1..]) else first
  }

  /** The loop of `_validate_format`, returning at the first entry that is not valid. */
  method LegacyValidateFormat(env: Env, fmt: FormatMap) returns (r: Result<bool, Error>)
    ensures r == LegacyValidateSpec(env, fmt)
  {
    var k := 0;
    while k < |fmt|
      invariant 0 <= k <= |fmt|
      invariant LegacyValidateSpec(env, fmt[k..]) == LegacyValidateSpec(env, fmt)
    {
      assert fmt[k..][0] == fmt[k] && fmt[k..][1..] == fmt[k + 1..];
      var placeholderType := TypeName(fmt[k].0);
      var kind := KindNamed(placeholderType);
      if kind.None? {
        return Err(InvalidPlaceholder(placeholderType));
      }
      if fmt[k].1.None? {
        return Err(TypeError);
      }
      if !PatternSearch(env, kind.value, fmt[k].1.value) {
        return Ok(false);
      }
      k := k + 1;
    }
    assert fmt[k..] == [];
    return Ok(true);
  }

  /** A valid entry names one of the six types and holds content the type's pattern is found in. */
  lemma LegacyEntryValid(env: Env, e: (string, Option<string>))
    ensures LegacyCheckEntry(env, e) == Ok(true) <==>
      KindNamed(TypeName(e.0)).Some? && e.1.Some? && PatternSearch(env, KindNamed(TypeName(e.0)).value, e.1.value)
  {
  }

  /** The format dictionary is valid exactly when every one of its entries is. */
  lemma {:induction false} LegacyValidIff(env: Env, fmt: FormatMap)
    ensures LegacyValidateSpec(env, fmt) == Ok(true) <==>
      forall i :: 0 <= i < |fmt| ==> LegacyCheckEntry(env, fmt[i]) == Ok(true)
    decreases |fmt|
  {
    if fmt != [] {
      LegacyValidIff(env, fmt[1..]);
      assert forall i :: 1 <= i < |fmt| ==> fmt[i] == fmt[1..][i - 1];
      if forall i :: 1 <= i < |fmt| ==> LegacyCheckEntry(env, fmt[i]) == Ok(true) {
        assert forall i :: 0 <= i < |fmt[1..]| ==> LegacyCheckEntry(env, fmt[1..][i]) == Ok(true);
      }
    }
  }

  /** A name made of digits only has the empty type, which `PLACEHOLDERS_RE` does not hold. */
  lemma DigitsHaveNoType(key: string)
    requires AllDigits(key)
    ensures KindNamed(TypeName(key)).None?
  {
  }

  /** A word that passes validation is a key Python's formatter looks up literally. */
  lemma ValidWordPlain(env: Env, e: (string, Option<string>))
    requires IsWord(e.0) && LegacyCheckEntry(env, e) == Ok(true)
    ensures PlainKey(e.0)
  {
    if AllDigits(e.0) {
      DigitsHaveNoType(e.0);
    }
  }

  /** `_render_default` of `add_default_renderer`, with the dictionary built as the current tags build it. */
  function LegacyRenderDefaultSpec(env: Env, table: Replacements, definition: string, format: string,
                                   value: Option<string>, option: Option<string>): Result<string, Error>
  {
    var fmt := FormatMapOf(WordFields(definition), value, OptionText(option, table));
    match LegacyValidateSpec(env, fmt)
    case Err(e) => Err(e)
    case Ok(false) => if HasOption(option) then Format(definition, fmt) else Format(DropEquals(definition), fmt)
    case Ok(true) => Format(RestoreKeys(EscapeBraces(format), Keys(fmt)), fmt)
  }

  /** `_render_default`, with its loop restoring the fields one key at a time. */
  method LegacyRenderDefault(env: Env, table: Replacements, definition: string, format: string,
                             value: Option<string>, option: Option<string>) returns (r: Result<string, Error>)
    ensures r == LegacyRenderDefaultSpec(env, table, definition, format, value, option)
  {
    var optionText := "";
    if HasOption(option) {
      optionText := ReplaceAll(option.value, table);
    }
    var fmt := FormatMapOf(WordFields(definition), value, optionText);
    var valid := LegacyValidateFormat(env, fmt);
    if valid.Err? {
      return Err(valid.error);
    }
    if !valid.value {
      if HasOption(option) {
        return Format(definition, fmt);
      }
      return Format(DropEquals(definition), fmt);
    }
    var escaped := EscapeBraces(format);
    var keys := Keys(fmt);
    for i := 0 to |keys|
      invariant RestoreKeys(escaped, keys[i..]) == RestoreKeys(EscapeBraces(format), keys)
    {
      assert keys[i..][0] == keys[i] && keys[i..][1..] == keys[i + 1..];
      escaped := Replace(escaped, "{" + keys[i] + "}", keys[i]);
    }
    assert keys[|keys|..] == [];
    return Format(escaped, fmt);
  }

  /**
   * Valid content renders as the format string with each `{name}` of the definition replaced by
   * its value and every other character, braces included, kept literally.
   */
  lemma LegacyRenderDefaultValid(env: Env, table: Replacements, definition: string, format: string,
                                 value: Option<string>, option: Option<string>)
    requires LegacyValidateSpec(env, FormatMapOf(WordFields(definition), value, OptionText(option, table))) == Ok(true)
    ensures LegacyRenderDefaultSpec(env, table, definition, format, value, option)
         == Ok(Substitute(format, FormatMapOf(WordFields(definition), value, OptionText(option, table))))
  {
    var keys := WordFields(definition);
    var fmt := FormatMapOf(keys, value, OptionText(option, table));
    WordFieldsAreWords(definition);
    LegacyValidIff(env, fmt);
    forall i | 0 <= i < |fmt| ensures PlainKey(fmt[i].0) {
      var j :| 0 <= j < |keys| && keys[j] == fmt[i].0;
      ValidWordPlain(env, fmt[i]);
    }
    BraceEscapingFormatsLiterally(format, fmt);
  }

  /**
   * Content a two-field tag rejects is re-emitted as the tag was written: with an option, the
   * escaped option and the content take the places of the two fields; without one, the
   * definition loses its '=' signs and the first field is left empty, so that `[size=]x[/size]`
   * comes back as `[size]x[/size]`.
   */
  lemma LegacyRenderDefaultInvalid(env: Env, table: Replacements, pre: string, k1: string, mid: string,
                                   k2: string, post: string, format: string, v: string, option: Option<string>)
    requires AllLetters(k1) && AllLetters(k2) && k1 != k2
    requires '{' !in pre && '}' !in pre && '{' !in mid && '}' !in mid && '{' !in post && '}' !in post
    requires LegacyValidateSpec(env, [(k2, Some(v)), (k1, Some(OptionText(option, table)))]) == Ok(false)
    ensures HasOption(option) ==>
      LegacyRenderDefaultSpec(env, table, TwoFieldDefinition(pre, k1, mid, k2, post), format, Some(v), option)
        == Ok(pre + OptionText(option, table) + mid + v + post)
    ensures !HasOption(option) ==>
      LegacyRenderDefaultSpec(env, table, TwoFieldDefinition(pre, k1, mid, k2, post), format, Some(v), option)
        == Ok(DropEquals(pre) + DropEquals(mid) + v + DropEquals(post))
  {
    var ot := OptionText(option, table);
    TwoWordFields(pre, k1, mid, k2, post);
    TwoFieldMap(k1, k2, v, ot);
    TwoFieldReemit(pre, k1, mid, k2, post, v, ot);
    if !HasOption(option) {
      EmptyBetween(DropEquals(pre), DropEquals(mid));
    }
  }

  /** The run of word characters of a word followed by a non-word character is the word. */
  lemma {:induction false} WordRunOf(k: string, t: string)
    requires forall i :: 0 <= i < |k| ==> IsWordChar(k[i])
    requires t != [] && !IsWordChar(t[0])
    ensures WordRun(k + t) == |k|
    decreases |k|
  {
    if k == [] {
      assert k + t == t;
    } else {
      assert (k + t)[1..] == k[1..] + t;
      WordRunOf(k[1..], t);
    }
  }

  /** A `{name}` field at the head of a text, its name made of letters, is its first field. */
  lemma LettersFieldFirst(k: string, rest: string)
    requires AllLetters(k)
    ensures WordFields("{" + k + "}" + rest) == [k] + WordFields(rest)
  {
    var s := "{" + k + "}" + rest;
    assert s[1..] == k + ("}" + rest);
    WordRunOf(k, "}" + rest);
    assert s[|k| + 1] == '}';
    assert s[1..|k| + 1] == k;
    assert s[|k| + 2..] == rest;
  }

  /** A definition `pre{k1}mid{k2}post` (no other '{') has the fields k1 and k2, in order. */
  lemma TwoWordFields(pre: string, k1: string, mid: string, k2: string, post: string)
    requires AllLetters(k1) && AllLetters(k2)
    requires '{' !in pre && '{' !in mid && '{' !in post
    ensures WordFields(TwoFieldDefinition(pre, k1, mid, k2, post)) == [k1, k2]
  {
    var t4 := "{" + k2 + "}" + post;
    var t3 := mid + t4;
    var t2 := "{" + k1 + "}" + t3;
    TwoFieldNested(pre, k1, mid, k2, post);
    assert TwoFieldDefinition(pre, k1, mid, k2, post) == pre + t2 by {
      assert t4 == "{" + k2 + "}" + post;
    }
    NoBraceNoFields(post, []);
    assert post + [] == post;
    LettersFieldFirst(k2, post);
    NoBraceNoFields(mid, t4);
    LettersFieldFirst(k1, t3);
    NoBraceNoFields(pre, t2);
  }

  /** A renderer function the legacy parser can hold. */
  datatype LegacyRenderer =
    | DefaultRenderer(definition: string, format: string)  // the closure `add_default_renderer` builds
    | ListRenderer                                          // `_render_list`
    | UrlRenderer                                           // `_render_url`
    | PoolRenderer(key: string)                             // the `render` of a tag from the tag pool

  /** `render_func(tag_name, value, option, parent)`. */
  function CallRenderer(env: Env, table: Replacements, f: LegacyRenderer, name: string,
                        value: Option<string>, option: Option<string>, parent: Option<BBCodeTagOptions>): Result<string, Error>
  {
    match f
    case DefaultRenderer(definition, format) => LegacyRenderDefaultSpec(env, table, definition, format, value, option)
    case ListRenderer => Ok(ListHtml(value, option))
    case UrlRenderer => UrlHtml(env, table, value, option)
    case PoolRenderer(key) => env.customRender(key, value, option, parent)
  }

  /** The options of each installed tag, by name. */
  function LegacyOptions(bbcodes: map<string, (LegacyRenderer, BBCodeTagOptions)>): (r: Registry)
    ensures r.Keys == bbcodes.Keys
    ensures forall n :: n in r ==> r[n] == bbcodes[n].1
  {
    map n | n in bbcodes :: bbcodes[n].1
  }

  /** `self.bbcodes[tag_name]` called; a name that is not installed raises `KeyError`. */
  function LegacyCall(env: Env, table: Replacements, bbcodes: map<string, (LegacyRenderer, BBCodeTagOptions)>)
    : (string, Option<string>, Option<string>, Option<BBCodeTagOptions>) -> Result<string, Error>
  {
    (name: string, value: Option<string>, option: Option<string>, parent: Option<BBCodeTagOptions>) =>
      if name in bbcodes then CallRenderer(env, table, bbcodes[name].0, name, value, option, parent) else Err(KeyError(name))
  }

  /** The renderers `init_renderers` installs over a table `m`, in the order it installs them. */
  function WithDefaults(m: map<string, (LegacyRenderer, BBCodeTagOptions)>): map<string, (LegacyRenderer, BBCodeTagOptions)>
  {
    m["b" := (DefaultRenderer("[b]{TEXT}[/b]", "<strong>{TEXT}</strong>"), Defaults)]
     ["i" := (DefaultRenderer("[i]{TEXT}[/i]", "<em>{TEXT}</em>"), Defaults)]
     ["u" := (DefaultRenderer("[u]{TEXT}[/u]", "<u>{TEXT}</u>"), Defaults)]
     ["s" := (DefaultRenderer("[s]{TEXT}[/s]", "<strike>{TEXT}</strike>"), Defaults)]
     ["list" := (ListRenderer, ApplyKwargs(Defaults, ListKwargs))]
     ["*" := (DefaultRenderer("[*]{TEXT}", "<li>{TEXT}</li>"),
              ApplyKwargs(Defaults, ListItemKwargs))]
     ["quote" := (DefaultRenderer("[quote]{TEXT}[/quote]", "<blockquote>{TEXT}</blockquote>"),
                  ApplyKwargs(Defaults, StripKwargs))]
     ["code" := (DefaultRenderer("[code]{TEXT}[/code]", "<code>{TEXT}</code>"),
                 ApplyKwargs(Defaults, CodeKwargs))]
     ["center" := (DefaultRenderer("[center]{TEXT}[/center]", "<div style=\"text-align:center;\">{TEXT}</div>"), Defaults)]
     ["color" := (DefaultRenderer("[color={COLOR}]{TEXT}[/color]", "<span style=\"color:{COLOR};\">{TEXT}</span>"), Defaults)]
     ["url" := (UrlRenderer, ApplyKwargs(Defaults, NoLinksKwargs))]
     ["img" := (DefaultRenderer("[img]{URL}[/img]", "<img src=\"{URL}\" alt=\"\" />"),
                ApplyKwargs(Defaults, NoLinksKwargs))]
  }

  /** `init_renderers` installs exactly the tags of `DEFAULT_TAGS`. */
  lemma DefaultTagNames()
    ensures WithDefaults(map[]).Keys ==
      {"b", "i", "u", "s", "list", "*", "code", "quote", "center", "color", "url", "img"}
  {
  }

  /** The keyword arguments `init_renderers` passes. */
  const ListKwargs: Kwargs := [("transform_newlines", PyBool(true)), ("strip", PyBool(true))]
  const ListItemKwargs: Kwargs :=
    [("newline_closes", PyBool(true)), ("same_tag_closes", PyBool(true)), ("end_tag_closes", PyBool(true)), ("strip", PyBool(true))]
  const StripKwargs: Kwargs := [("strip", PyBool(true))]
  const CodeKwargs: Kwargs := [("render_embedded", PyBool(false))]
  const NoLinksKwargs: Kwargs := [("replace_links", PyBool(false))]

  /** `list` strips its content; `transform_newlines` is already set by default. */
  lemma LegacyListOptions()
    ensures ApplyKwargs(Defaults, ListKwargs) == Defaults.(strip := true)
  {
    var kw := ListKwargs;
    var o1 := Defaults.(transformNewlines := true);
    DefaultTags.SetNamedAttr(Defaults, TransformNewlines, true);
    DefaultTags.SetNamedAttr(o1, Strip, true);
    assert ApplyKwargs(o1, kw[1..]) == ApplyKwargs(o1.(strip := true), kw[2..]);
    assert ApplyKwargs(Defaults, kw) == ApplyKwargs(o1, kw[1..]);
  }

  /** `[*]` is closed by a newline, by the next `[*]` and by the end of its list, and strips its content. */
  lemma LegacyListItemOptions()
    ensures ApplyKwargs(Defaults, ListItemKwargs)
         == Defaults.(newlineCloses := true, sameTagCloses := true, endTagCloses := true, strip := true)
  {
    var kw := ListItemKwargs;
    var o1 := Defaults.(newlineCloses := true);
    var o2 := o1.(sameTagCloses := true);
    var o3 := o2.(endTagCloses := true);
    var o4 := o3.(strip := true);
    DefaultTags.SetNamedAttr(Defaults, NewlineCloses, true);
    DefaultTags.SetNamedAttr(o1, SameTagCloses, true);
    DefaultTags.SetNamedAttr(o2, EndTagCloses, true);
    DefaultTags.SetNamedAttr(o3, Strip, true);
    assert ApplyKwargs(o3, kw[3..]) == o4 by {
      assert ApplyKwargs(o3, kw[3..]) == ApplyKwargs(o4, kw[4..]);
    }
    assert ApplyKwargs(o2, kw[2..]) == ApplyKwargs(o3, kw[3..]);
    assert ApplyKwargs(o1, kw[1..]) == ApplyKwargs(o2, kw[2..]);
    assert ApplyKwargs(Defaults, kw) == ApplyKwargs(o1, kw[1..]);
  }

  /** `quote` strips its content, `code` leaves it unrendered, `url` and `img` leave links in it alone. */
  lemma LegacyOneFlagOptions()
    ensures ApplyKwargs(Defaults, StripKwargs) == Defaults.(strip := true)
    ensures ApplyKwargs(Defaults, CodeKwargs) == Defaults.(renderEmbedded := false)
    ensures ApplyKwargs(Defaults, NoLinksKwargs) == Defaults.(replaceLinks := false)
  {
    DefaultTags.SetNamedAttr(Defaults, RenderEmbedded, false);
    DefaultTags.SetNamedAttr(Defaults, ReplaceLinks, false);
    DefaultTags.SetNamedAttr(Defaults, Strip, true);
    assert ApplyKwargs(Defaults, CodeKwargs) == ApplyKwargs(Defaults.(renderEmbedded := false), CodeKwargs[1..]);
    assert ApplyKwargs(Defaults, NoLinksKwargs) == ApplyKwargs(Defaults.(replaceLinks := false), NoLinksKwargs[1..]);
    assert ApplyKwargs(Defaults, StripKwargs) == ApplyKwargs(Defaults.(strip := true), StripKwargs[1..]);
  }

  /** Text without a '{' holds no field, and a prefix without one adds none. */
  lemma {:induction false} NoBraceNoFields(pre: string, rest: string)
    requires '{' !in pre
    ensures WordFields(pre + rest) == WordFields(rest)
    decreases |pre|
  {
    if pre != [] {
      assert (pre + rest)[0] == pre[0];
      assert (pre + rest)[1..] == pre[1..] + rest;
      assert '{' !in pre[1..] by {
        assert forall c :: c in pre[1..] ==> c in pre;
      }
      NoBraceNoFields(pre[1..], rest);
      assert WordFields(pre + rest) == WordFields((pre + rest)[1..]);
    } else {
      assert pre + rest == rest;
    }
  }

  /** `{TEXT}` at the head of a text is its first field. */
  lemma TextFieldFirst(rest: string)
    ensures WordFields("{TEXT}" + rest) == ["TEXT"] + WordFields(rest)
  {
    var s := "{TEXT}" + rest;
    assert s[1..] == "TEXT}" + rest;
    assert WordRun(s[1..][4..]) == 0 by {
      assert s[1..][4..][0] == '}';
    }
    assert WordRun(s[1..][3..]) == 1 by {
      assert s[1..][3..][1..] == s[1..][4..];
    }
    assert WordRun(s[1..][2..]) == 2 by {
      assert s[1..][2..][1..] == s[1..][3..];
    }
    assert WordRun(s[1..][1..]) == 3 by {
      assert s[1..][1..][1..] == s[1..][2..];
    }
    assert WordRun(s[1..]) == 4 by {
      assert s[1..][1..] == s[1..][1..];
    }
    assert s[1..5] == "TEXT" && s[6..] == rest;
  }

  /** A definition `pre{TEXT}post` (no other '{') has TEXT as its one field. */
  lemma TextDefinitionFields(dpre: string, dpost: string)
    requires '{' !in dpre && '{' !in dpost
    ensures WordFields(dpre + "{TEXT}" + dpost) == ["TEXT"]
  {
    assert dpre + "{TEXT}" + dpost == dpre + ("{TEXT}" + dpost);
    NoBraceNoFields(dpre, "{TEXT}" + dpost);
    TextFieldFirst(dpost);
    NoBraceNoFields(dpost, []);
    assert dpost + [] == dpost;
  }

  /** The dictionary of a TEXT-only definition is valid exactly when the text matcher accepts the content. */
  lemma LegacyTextValidation(env: Env, v: string)
    ensures LegacyValidateSpec(env, [("TEXT", Some(v))]) == Ok(env.textSearch(v))
  {
    assert TypeName("TEXT") == "TEXT";
    assert [("TEXT", Some(v))][1..] == [];
  }

  /**
   * `add_default_renderer` with `pre{TEXT}post` and `fpre{TEXT}fpost` (no other braces) renders
   * content the text matcher accepts as `fpre`, the content, then `fpost`, and, with no option,
   * other content as the tag was written.
   */
  lemma LegacyTextTagRenders(env: Env, table: Replacements, dpre: string, dpost: string,
                             fpre: string, fpost: string, v: string)
    requires '{' !in dpre && '{' !in dpost && '{' !in fpre && '{' !in fpost
    requires '}' !in dpre && '}' !in dpost && '=' !in dpre && '=' !in dpost
    ensures env.textSearch(v) ==>
      LegacyRenderDefaultSpec(env, table, dpre + "{TEXT}" + dpost, fpre + "{TEXT}" + fpost, Some(v), None)
        == Ok(fpre + v + fpost)
    ensures !env.textSearch(v) ==>
      LegacyRenderDefaultSpec(env, table, dpre + "{TEXT}" + dpost, fpre + "{TEXT}" + fpost, Some(v), None)
        == Ok(dpre + v + dpost)
  {
    var definition := dpre + "{TEXT}" + dpost;
    TextDefinitionFields(dpre, dpost);
    assert FormatMapOf(WordFields(definition), Some(v), OptionText(None, table)) == [("TEXT", Some(v))];
    LegacyTextValidation(env, v);
    if env.textSearch(v) {
      LegacyRenderDefaultValid(env, table, definition, fpre + "{TEXT}" + fpost, Some(v), None);
      DefaultTags.TextSubstitution(fpre, fpost, v);
    } else {
      DefaultTags.NoEqualsKept(dpre, dpost);
      DefaultTags.TextFormatting(dpre, dpost, v);
    }
  }

  /** Some entries of the table `init_renderers` installs. */
  lemma DefaultEntries(m: map<string, (LegacyRenderer, BBCodeTagOptions)>)
    ensures WithDefaults(m)["b"] == (DefaultRenderer("[b]{TEXT}[/b]", "<strong>{TEXT}</strong>"), Defaults)
    ensures WithDefaults(m)["list"] == (ListRenderer, ApplyKwargs(Defaults, ListKwargs))
    ensures WithDefaults(m)["*"] == (DefaultRenderer("[*]{TEXT}", "<li>{TEXT}</li>"), ApplyKwargs(Defaults, ListItemKwargs))
    ensures WithDefaults(m)["url"] == (UrlRenderer, ApplyKwargs(Defaults, NoLinksKwargs))
  {
  }

  /** `b` renders `<strong>v</strong>` for content the text matcher accepts, and `[b]v[/b]` otherwise. */
  lemma LegacyStrongRenders(env: Env, table: Replacements, v: string, parent: Option<BBCodeTagOptions>)
    ensures env.textSearch(v) ==>
      CallRenderer(env, table, DefaultRenderer("[b]{TEXT}[/b]", "<strong>{TEXT}</strong>"), "b", Some(v), None, parent)
        == Ok("<strong>" + v + "</strong>")
    ensures !env.textSearch(v) ==>
      CallRenderer(env, table, DefaultRenderer("[b]{TEXT}[/b]", "<strong>{TEXT}</strong>"), "b", Some(v), None, parent)
        == Ok("[b]" + v + "[/b]")
  {
    assert "[b]{TEXT}[/b]" == "[b]" + "{TEXT}" + "[/b]";
    assert "<strong>{TEXT}</strong>" == "<strong>" + "{TEXT}" + "</strong>";
    LegacyTextTagRenders(env, table, "[b]", "[/b]", "<strong>", "</strong>", v);
  }

  /** The parser object. */
  class LegacyBBCodeParser {
    /** The regular expressions and the code the model does not see. */
    const env: Env
    /** The names `'-*-bbcode-link-{id(match)}-{pos}-*-'` the link pulling gives its markers. */
    const marker: (nat, nat) -> string
    var newlineChar: string
    var replaceHtml: Replacements
    var normalizeNewlines: bool
    /** Each tag's renderer function and options, under its name. */
    var bbcodes: map<string, (LegacyRenderer, BBCodeTagOptions)>

    /** `__init__`: the three settings and the default renderers. */
    constructor(env: Env, marker: (nat, nat) -> string, newlineChar: string, replaceHtml: Replacements, normalizeNewlines: bool)
      ensures this.env == env && this.marker == marker && this.newlineChar == newlineChar
      ensures this.replaceHtml == replaceHtml && this.normalizeNewlines == normalizeNewlines
      ensures bbcodes == WithDefaults(map[])
    {
      this.env := env;
      this.marker := marker;
      this.newlineChar := newlineChar;
      this.replaceHtml := replaceHtml;
      this.normalizeNewlines := normalizeNewlines;
      bbcodes := map[];
      new;
      InitRenderers();
    }

    /** `add_renderer(tag_name, render_func, **kwargs)`: installs or replaces the tag. */
    method AddRenderer(name: string, f: LegacyRenderer, kwargs: Kwargs)
      modifies this
      ensures bbcodes == old(bbcodes)[name := (f, ApplyKwargs(Defaults, kwargs))]
      ensures newlineChar == old(newlineChar) && replaceHtml == old(replaceHtml) && normalizeNewlines == old(normalizeNewlines)
    {
      var options := New(kwargs);
      bbcodes := bbcodes[name := (f, options)];
    }

    /** `add_default_renderer(tag_name, tag_def, format_string, **kwargs)`. */
    method AddDefaultRenderer(name: string, definition: string, format: string, kwargs: Kwargs)
      modifies this
      ensures bbcodes == old(bbcodes)[name := (DefaultRenderer(definition, format), ApplyKwargs(Defaults, kwargs))]
      ensures newlineChar == old(newlineChar) && replaceHtml == old(replaceHtml) && normalizeNewlines == old(normalizeNewlines)
    {
      AddRenderer(name, DefaultRenderer(definition, format), kwargs);
    }

    /** `init_renderers`. */
    method InitRenderers()
      modifies this
      ensures bbcodes == WithDefaults(old(bbcodes))
      ensures newlineChar == old(newlineChar) && replaceHtml == old(replaceHtml) && normalizeNewlines == old(normalizeNewlines)
    {
      AddDefaultRenderer("b", "[b]{TEXT}[/b]", "<strong>{TEXT}</strong>", []);
      AddDefaultRenderer("i", "[i]{TEXT}[/i]", "<em>{TEXT}</em>", []);
      AddDefaultRenderer("u", "[u]{TEXT}[/u]", "<u>{TEXT}</u>", []);
      AddDefaultRenderer("s", "[s]{TEXT}[/s]", "<strike>{TEXT}</strike>", []);
      AddRenderer("list", ListRenderer, ListKwargs);
      AddDefaultRenderer("*", "[*]{TEXT}", "<li>{TEXT}</li>", ListItemKwargs);
      AddDefaultRenderer("quote", "[quote]{TEXT}[/quote]", "<blockquote>{TEXT}</blockquote>", StripKwargs);
      AddDefaultRenderer("code", "[code]{TEXT}[/code]", "<code>{TEXT}</code>", CodeKwargs);
      AddDefaultRenderer("center", "[center]{TEXT}[/center]", "<div style=\"text-align:center;\">{TEXT}</div>", []);
      AddDefaultRenderer("color", "[color={COLOR}]{TEXT}[/color]", "<span style=\"color:{COLOR};\">{TEXT}</span>", []);
      AddRenderer("url", UrlRenderer, NoLinksKwargs);
      AddDefaultRenderer("img", "[img]{URL}[/img]", "<img src=\"{URL}\" alt=\"\" />", NoLinksKwargs);
    }

    /** What rendering reads from the parser: there are no smilies. */
    function Cfg(): Config
      reads this
    {
      Config(env, LegacyOptions(bbcodes), LegacyCall(env, replaceHtml, bbcodes), replaceHtml, [], newlineChar, marker)
    }

    /** `render(data)`. */
    method Render(data: string) returns (r: Result<string, Error>)
      ensures r == RenderDocument(Cfg(), data, normalizeNewlines)
    {
      var cfg := Cfg();
      assert cfg.reg.Keys == bbcodes.Keys;
      var tokens := GetTokens(data, bbcodes.Keys, normalizeNewlines);
      LexRegistered(data, cfg.reg, normalizeNewlines);
      var a := new Token[|tokens|](i requires 0 <= i < |tokens| => tokens[i]);
      assert a[..] == tokens;
      DropSyntacticErrors(a, cfg.reg);
      r := RenderTokens(cfg, a[..], None);
    }
  }
}
