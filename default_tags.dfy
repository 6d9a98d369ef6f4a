/**
 * The built-in tags (precise_bbcode/bbcode/defaults/tag.py) as class bodies, the classes the
 * metaclass makes of them, and what some of them render.
 */
module DefaultTags {
  import opened Wrappers
  import opened Text
  import opened Errors
  import opened Utils
  import opened TagOptions
  import opened PyFormat
  import opened Matchers
  import opened Placeholders
  import opened PlaceholderSyntax
  import opened BuiltinRenderers
  import opened Tags

  function Declarative(name: string, definition: string, format: string, options: Option<seq<ClassMember>>): TagSpec
  {
    TagSpec(PyStr(name), Some(definition), Some(format), options, Inherited)
  }

  function Flag(name: string, b: bool): ClassMember { ClassMember(name, PyBool(b), false) }

  const StrongSpec := Declarative("b", "[b]{TEXT}[/b]", "<strong>{TEXT}</strong>", None)
  const ItalicSpec := Declarative("i", "[i]{TEXT}[/i]", "<em>{TEXT}</em>", None)
  const UnderlineSpec := Declarative("u", "[u]{TEXT}[/u]", "<u>{TEXT}</u>", None)
  const StrikeSpec := Declarative("s", "[s]{TEXT}[/s]", "<strike>{TEXT}</strike>", None)
  const ListSpec := TagSpec(PyStr("list"), None, None,
    Some([Flag("strip", true), Flag("transform_newlines", true)]), ListRender)
  const ListItemSpec := Declarative("*", "[*]{TEXT}", "<li>{TEXT}</li>",
    Some([Flag("end_tag_closes", true), Flag("newline_closes", true), Flag("same_tag_closes", true), Flag("strip", true)]))
  const QuoteSpec := Declarative("quote", "[quote]{TEXT}[/quote]", "<blockquote>{TEXT}</blockquote>",
    Some([Flag("strip", true)]))
  const CodeSpec := Declarative("code", "[code]{TEXT}[/code]", "<code>{TEXT}</code>",
    Some([Flag("render_embedded", false)]))
  const CenterSpec := Declarative("center", "[center]{TEXT}[/center]", "<div style=\"text-align:center;\">{TEXT}</div>", None)
  const ColorSpec := Declarative("color", "[color={COLOR}]{TEXT}[/color]", "<span style=\"color:{COLOR};\">{TEXT}</span>", None)
  const UrlSpec := TagSpec(PyStr("url"), None, None, Some([Flag("replace_links", false)]), UrlRender)
  const ImgSpec := Declarative("img", "[img]{URL}[/img]", "<img src=\"{URL}\" alt=\"\" />",
    Some([Flag("replace_links", false)]))

  /** The built-in tag classes, in the order the module defines them. */
  const BuiltinSpecs: seq<TagSpec> :=
    [StrongSpec, ItalicSpec, UnderlineSpec, StrikeSpec, ListSpec, ListItemSpec, QuoteSpec, CodeSpec,
     CenterSpec, ColorSpec, UrlSpec, ImgSpec]

  /** A class body that passes the checks defines the class its `Options` attributes configure. */
  lemma Defines(spec: TagSpec, options: BBCodeTagOptions)
    requires spec.name.PyStr? && spec.name.s != [] && ValidTagName(spec.name.s)
    requires IsSet(spec.definition) <==> IsSet(spec.format)
    requires spec.optionsClass.None? ==> options == Defaults
    requires spec.optionsClass.Some? ==> ApplyKwargs(Defaults, OptionKwargs(spec.optionsClass.value)) == options
    ensures DefineTag(spec) == Ok(TagClass(spec.name.s, spec.definition, spec.format, options, spec.renderer))
  {
  }

  /** A name of ASCII letters (or the '*' of the list item) is a valid tag name. */
  lemma LetterName(s: string)
    requires |s| > 0 && forall i :: 0 <= i < |s| ==> IsAsciiLetter(s[i]) || s[i] == '*'
    ensures ValidTagName(s)
  {
    assert s[|s| - 1] != '\n';
    assert Chomp(s) == s;
  }

  /** A flag whose name is not a dunder name becomes the first keyword argument. */
  lemma FlagKwarg(name: string, b: bool, rest: seq<ClassMember>)
    requires !IsDunder(name)
    ensures OptionKwargs([Flag(name, b)] + rest) == [(name, PyBool(b))] + OptionKwargs(rest)
  {
    assert ([Flag(name, b)] + rest)[1..] == rest;
  }

  /** Setting a declared attribute by its name sets that attribute. */
  lemma SetNamedAttr(o: BBCodeTagOptions, a: Attribute, b: bool)
    ensures SetNamed(o, AttrName(a), b) == SetAttr(o, a, b)
  {
    AttributeNamedComplete(a);
  }

  /** An `Options` class with one declared flag sets that flag and nothing else. */
  lemma OneFlagOptions(a: Attribute, b: bool)
    ensures ApplyKwargs(Defaults, OptionKwargs([Flag(AttrName(a), b)])) == SetAttr(Defaults, a, b)
  {
    assert !IsDunder(AttrName(a)) by {
      assert AttrName(a)[0] != '_';
    }
    FlagKwarg(AttrName(a), b, []);
    assert [Flag(AttrName(a), b)] + [] == [Flag(AttrName(a), b)];
    SetNamedAttr(Defaults, a, b);
    var kw := [(AttrName(a), PyBool(b))];
    assert ApplyKwargs(Defaults, kw) == ApplyKwargs(SetAttr(Defaults, a, b), kw[1..]);
  }

  lemma StrongDefined()
    ensures DefineTag(StrongSpec) == Ok(TagClass("b", Some("[b]{TEXT}[/b]"), Some("<strong>{TEXT}</strong>"), Defaults, Inherited))
  {
    LetterName("b");
    Defines(StrongSpec, Defaults);
  }

  lemma ListKwargs()
    ensures OptionKwargs(ListSpec.optionsClass.value) == [("strip", PyBool(true)), ("transform_newlines", PyBool(true))]
  {
  }

  /** The two flags of `list` set `strip`; `transform_newlines` is already set by default. */
  lemma ListOptions()
    ensures ApplyKwargs(Defaults, OptionKwargs(ListSpec.optionsClass.value)) == Defaults.(strip := true)
  {
    ListKwargs();
    var kw := [(AttrName(Strip), PyBool(true)), (AttrName(TransformNewlines), PyBool(true))];
    SetNamedAttr(Defaults, Strip, true);
    var o1 := Defaults.(strip := true);
    SetNamedAttr(o1, TransformNewlines, true);
    assert ApplyKwargs(Defaults, kw) == ApplyKwargs(o1, kw[1..]);
    assert ApplyKwargs(o1, kw[1..]) == ApplyKwargs(o1, kw[2..]);
  }

  /** `list` strips its content and keeps transforming newlines; everything else is the default. */
  lemma ListDefined()
    ensures DefineTag(ListSpec) == Ok(TagClass("list", None, None, Defaults.(strip := true), ListRender))
  {
    ListOptions();
    LetterName("list");
    Defines(ListSpec, Defaults.(strip := true));
  }

  lemma ListItemKwargs()
    ensures OptionKwargs(ListItemSpec.optionsClass.value) ==
      [("end_tag_closes", PyBool(true)), ("newline_closes", PyBool(true)), ("same_tag_closes", PyBool(true)), ("strip", PyBool(true))]
  {
  }

  lemma ListItemOptions()
    ensures ApplyKwargs(Defaults, [("end_tag_closes", PyBool(true)), ("newline_closes", PyBool(true)),
                                   ("same_tag_closes", PyBool(true)), ("strip", PyBool(true))])
         == Defaults.(newlineCloses := true, sameTagCloses := true, endTagCloses := true, strip := true)
  {
    var kw := [(AttrName(EndTagCloses), PyBool(true)), (AttrName(NewlineCloses), PyBool(true)),
               (AttrName(SameTagCloses), PyBool(true)), (AttrName(Strip), PyBool(true))];
    var o1 := Defaults.(endTagCloses := true);
    var o2 := o1.(newlineCloses := true);
    var o3 := o2.(sameTagCloses := true);
    var o4 := o3.(strip := true);
    SetNamedAttr(Defaults, EndTagCloses, true);
    SetNamedAttr(o1, NewlineCloses, true);
    SetNamedAttr(o2, SameTagCloses, true);
    SetNamedAttr(o3, Strip, true);
    assert ApplyKwargs(o3, kw[3..]) == o4 by {
      assert ApplyKwargs(o3, kw[3..]) == ApplyKwargs(o4, kw[4..]);
    }
    assert ApplyKwargs(o2, kw[2..]) == ApplyKwargs(o3, kw[3..]);
    assert ApplyKwargs(o1, kw[1..]) == ApplyKwargs(o2, kw[2..]);
    assert ApplyKwargs(Defaults, kw) == ApplyKwargs(o1, kw[1..]);
  }

  /** `[*]` is closed by a newline, by the next `[*]` and by the end of its list, and strips its content. */
  lemma ListItemDefined()
    ensures DefineTag(ListItemSpec) == Ok(TagClass("*", Some("[*]{TEXT}"), Some("<li>{TEXT}</li>"),
      Defaults.(newlineCloses := true, sameTagCloses := true, endTagCloses := true, strip := true), Inherited))
  {
    ListItemKwargs();
    ListItemOptions();
    LetterName("*");
    Defines(ListItemSpec, Defaults.(newlineCloses := true, sameTagCloses := true, endTagCloses := true, strip := true));
  }

  lemma QuoteDefined()
    ensures DefineTag(QuoteSpec) == Ok(TagClass("quote", Some("[quote]{TEXT}[/quote]"),
      Some("<blockquote>{TEXT}</blockquote>"), Defaults.(strip := true), Inherited))
  {
    OneFlagOptions(Strip, true);
    LetterName("quote");
    Defines(QuoteSpec, Defaults.(strip := true));
  }

  /** `code` does not render what it embeds. */
  lemma CodeDefined()
    ensures DefineTag(CodeSpec) == Ok(TagClass("code", Some("[code]{TEXT}[/code]"), Some("<code>{TEXT}</code>"),
      Defaults.(renderEmbedded := false), Inherited))
  {
    OneFlagOptions(RenderEmbedded, false);
    LetterName("code");
    Defines(CodeSpec, Defaults.(renderEmbedded := false));
  }

  /** `url` does not turn the links it contains into anchors. */
  lemma UrlDefined()
    ensures DefineTag(UrlSpec) == Ok(TagClass("url", None, None, Defaults.(replaceLinks := false), UrlRender))
  {
    OneFlagOptions(ReplaceLinks, false);
    LetterName("url");
    Defines(UrlSpec, Defaults.(replaceLinks := false));
  }

  /** `img` does not turn the links it contains into anchors. */
  lemma ImgDefined()
    ensures DefineTag(ImgSpec) == Ok(TagClass("img", Some("[img]{URL}[/img]"), Some("<img src=\"{URL}\" alt=\"\" />"),
      Defaults.(replaceLinks := false), Inherited))
  {
    OneFlagOptions(ReplaceLinks, false);
    LetterName("img");
    Defines(ImgSpec, Defaults.(replaceLinks := false));
  }

  /** The key TEXT names the TEXT placeholder, which accepts what the text matcher finds. */
  lemma TextEntry(env: Env, phs: PlaceholderMap, v: string)
    requires "TEXT" in phs && phs["TEXT"] == TextPlaceholder
    ensures CheckEntry(env, phs, ("TEXT", Some(v))) == Ok(env.textSearch(v))
  {
    TextKeySplits();
    TextKeyUpper();
  }

  lemma TextKeyUpper()
    ensures Upper("TEXT") == "TEXT"
  {
    UpperOfUpper("TEXT");
  }

  /** The key TEXT splits into the type name TEXT with no digits and no context. */
  lemma TextKeySplits()
    ensures SplitKey("TEXT") == Some(KeyParts("TEXT", "", ""))
  {
    assert AllLetters("TEXT");
    SplitKeyParts(KeyParts("TEXT", "", ""));
    assert "TEXT" + "" + "" == "TEXT";
  }

  /** Upper-casing a text without lower-case letters leaves it unchanged. */
  lemma UpperOfUpper(s: string)
    requires forall i :: 0 <= i < |s| ==> !('a' <= s[i] <= 'z')
    ensures Upper(s) == s
  {
  }

  /** A definition with the single key TEXT builds the dictionary mapping TEXT to the value. */
  lemma TextDictionary(dpre: string, dpost: string, v: Option<string>, optionText: string)
    requires '{' !in dpre && '{' !in dpost
    ensures FindPlaceholders(dpre + "{TEXT}" + dpost) == ["TEXT"]
    ensures FormatMapOf(FindPlaceholders(dpre + "{TEXT}" + dpost), v, optionText) == [("TEXT", v)]
  {
    assert AllLetters("TEXT");
    ValidBodyLetters("TEXT");
    assert dpre + "{" + "TEXT" + "}" + dpost == dpre + "{TEXT}" + dpost;
    FieldThen(dpre, "TEXT", dpost);
    NoField(dpost);
  }

  /** The dictionary of a TEXT-only tag is valid exactly when the text matcher accepts the content. */
  lemma TextValidation(env: Env, phs: PlaceholderMap, v: string)
    requires "TEXT" in phs && phs["TEXT"] == TextPlaceholder
    ensures ValidateSpec(env, phs, [("TEXT", Some(v))]) == Ok(env.textSearch(v))
  {
    TextEntry(env, phs, v);
    assert [("TEXT", Some(v))][1..] == [];
  }

  lemma TextKeyPlain()
    ensures NoSeparatorKeys(["TEXT"])
  {
  }

  lemma TextSubstitution(fpre: string, fpost: string, v: string)
    requires '{' !in fpre && '{' !in fpost
    ensures Substitute(fpre + "{TEXT}" + fpost, [("TEXT", Some(v))]) == fpre + v + fpost
  {
    var fmt := [("TEXT", Some(v))];
    assert fpre + "{" + "TEXT" + "}" + fpost == fpre + "{TEXT}" + fpost;
    assert fmt[0].0 == "TEXT";
    SubstituteOneField(fpre, "TEXT", fpost, fmt);
  }

  /**
   * A tag `pre{TEXT}post` with HTML `fpre{TEXT}fpost` (no other braces) renders content the text
   * matcher accepts as `fpre`, the content, then `fpost`.
   */
  lemma TextTagRenders(env: Env, phs: PlaceholderMap, table: Replacements, dpre: string, dpost: string,
                       fpre: string, fpost: string, v: string, option: Option<string>)
    requires '{' !in dpre && '{' !in dpost && '{' !in fpre && '{' !in fpost
    requires "TEXT" in phs && phs["TEXT"] == TextPlaceholder && env.textSearch(v)
    ensures RenderDefaultSpec(env, phs, table, dpre + "{TEXT}" + dpost, fpre + "{TEXT}" + fpost, Some(v), option)
         == Ok(fpre + v + fpost)
  {
    var definition := dpre + "{TEXT}" + dpost;
    TextDictionary(dpre, dpost, Some(v), OptionText(option, table));
    TextValidation(env, phs, v);
    TextKeyPlain();
    RenderDefaultValid(env, phs, table, definition, fpre + "{TEXT}" + fpost, Some(v), option);
    TextSubstitution(fpre, fpost, v);
  }

  lemma TextFormatting(dpre: string, dpost: string, v: string)
    requires '{' !in dpre && '{' !in dpost && '}' !in dpre && '}' !in dpost
    ensures Format(dpre + "{TEXT}" + dpost, [("TEXT", Some(v))]) == Ok(dpre + v + dpost)
  {
    var fmt := [("TEXT", Some(v))];
    assert dpre + "{" + "TEXT" + "}" + dpost == dpre + "{TEXT}" + dpost;
    assert !IsAsciiDigit("TEXT"[0]);
    assert PlainKey("TEXT");
    assert fmt[0].0 == "TEXT";
    FormatOneField(dpre, "TEXT", dpost, fmt);
  }

  lemma NoEqualsKept(dpre: string, dpost: string)
    requires '=' !in dpre && '=' !in dpost
    ensures DropEquals(dpre + "{TEXT}" + dpost) == dpre + "{TEXT}" + dpost
  {
    var definition := dpre + "{TEXT}" + dpost;
    assert definition == dpre + "{" + "TEXT" + "}" + dpost;
    assert '=' !in definition;
    NoCharNoContains(definition, '=');
    ReplaceAbsent(definition, "=", "");
  }

  /**
   * Content the text matcher rejects, with no option, re-emits the tag as written: `pre`, the
   * content, `post` (when the definition holds no '=' or '}' of its own).
   */
  lemma TextTagRejects(env: Env, phs: PlaceholderMap, table: Replacements, dpre: string, dpost: string,
                       format: string, v: string)
    requires '{' !in dpre && '{' !in dpost && '}' !in dpre && '}' !in dpost && '=' !in dpre && '=' !in dpost
    requires "TEXT" in phs && phs["TEXT"] == TextPlaceholder && !env.textSearch(v)
    ensures RenderDefaultSpec(env, phs, table, dpre + "{TEXT}" + dpost, format, Some(v), None) == Ok(dpre + v + dpost)
  {
    TextDictionary(dpre, dpost, Some(v), "");
    TextValidation(env, phs, v);
    NoEqualsKept(dpre, dpost);
    TextFormatting(dpre, dpost, v);
  }

  /** `[b]v[/b]` renders `<strong>v</strong>` when the TEXT placeholder accepts `v`, and as written otherwise. */
  lemma StrongRenders(env: Env, phs: PlaceholderMap, table: Replacements, v: string, parent: Option<BBCodeTagOptions>)
    requires "TEXT" in phs && phs["TEXT"] == TextPlaceholder
    ensures DefineTag(StrongSpec).Ok?
    ensures env.textSearch(v) ==>
      DoRender(env, phs, table, DefineTag(StrongSpec).value, Some(v), None, parent) == Ok("<strong>" + v + "</strong>")
    ensures !env.textSearch(v) ==>
      DoRender(env, phs, table, DefineTag(StrongSpec).value, Some(v), None, parent) == Ok("[b]" + v + "[/b]")
  {
    StrongDefined();
    assert "[b]{TEXT}[/b]" == "[b]" + "{TEXT}" + "[/b]";
    assert "<strong>{TEXT}</strong>" == "<strong>" + "{TEXT}" + "</strong>";
    if env.textSearch(v) {
      TextTagRenders(env, phs, table, "[b]", "[/b]", "<strong>", "</strong>", v, None);
    } else {
      TextTagRejects(env, phs, table, "[b]", "[/b]", "<strong>{TEXT}</strong>", v);
    }
  }

  lemma {:induction false} NoCharNoContains(s: string, c: char)
    requires c !in s
    ensures !Contains(s, [c])
    decreases |s|
  {
    if s != [] {
      assert s[..1] == [s[0]];
      NoCharNoContains(s[1..], c);
    }
  }
}
