/**
 * Tag classes of the current pipeline (precise_bbcode/bbcode/tag.py): the checks the metaclass
 * makes when a tag class is defined, the `do_render` dispatch, and the generic renderer of a tag
 * given by a definition string and a format string (`_render_default`, `_validate_format`).
 */
module Tags {
  import opened Wrappers
  import opened Text
  import opened Errors
  import opened Utils
  import opened TagOptions
  import opened PyFormat
  import opened Matchers
  import opened Placeholders
  import opened PlaceholderSyntax
  import opened BuiltinRenderers

  /** The placeholders a parser knows, under their upper-cased names. */
  type PlaceholderMap = map<string, Placeholder>

  /** `extra_context[1:]`: the context without its leading '='. */
  function Context(extra: string): string
  {
    if extra == [] then [] else extra[1..]
  }

  /**
   * One iteration of `_validate_format`: `Ok(true)` to go on, `Ok(false)` when the key does not
   * split or the content is rejected, and an error when the placeholder type is unknown (or its
   * `validate` raises `KeyError`) or `validate` raises anything else.
   */
  function CheckEntry(env: Env, phs: PlaceholderMap, e: (string, Option<string>)): Result<bool, Error>
  {
    match SplitKey(e.0)
    case None => Ok(false)
    case Some(parts) =>
      var t := Upper(parts.name);
      if t !in phs then Err(InvalidPlaceholder(parts.name))
      else match Validate(env, phs[t], e.1, Context(parts.extra))
        case Err(KeyError(_)) => Err(InvalidPlaceholder(parts.name))
        case Err(err) => Err(err)
        case Ok(b) => Ok(b)
  }

  /** `_validate_format(parser, fmt)`: the entries are checked in order and the first failure decides. */
  function ValidateSpec(env: Env, phs: PlaceholderMap, fmt: FormatMap): Result<bool, Error>
    decreases |fmt|
  {
    if fmt == [] then Ok(true)
    else
      var first := CheckEntry(env, phs, fmt[0]);
      if first == Ok(true) then ValidateSpec(env, phs, fmt[1..]) else first
  }

  /** The check of the entry at `k`, then the rest of the dictionary when that entry is valid. */
  lemma ValidateAt(env: Env, phs: PlaceholderMap, fmt: FormatMap, k: nat)
    requires k < |fmt|
    ensures ValidateSpec(env, phs, fmt[k..])
      == if CheckEntry(env, phs, fmt[k]) == Ok(true) then ValidateSpec(env, phs, fmt[k + 1..]) else CheckEntry(env, phs, fmt[k])
  {
    assert fmt[k..][0] == fmt[k] && fmt[k..][1..] == fmt[k + 1..];
  }

  /** The loop of `_validate_format`, returning at the first entry that is not valid. */
  method ValidateFormat(env: Env, phs: PlaceholderMap, fmt: FormatMap) returns (r: Result<bool, Error>)
    ensures r == ValidateSpec(env, phs, fmt)
  {
    var k := 0;
    while k < |fmt|
      invariant 0 <= k <= |fmt|
      invariant ValidateSpec(env, phs, fmt[k..]) == ValidateSpec(env, phs, fmt)
    {
      ValidateAt(env, phs, fmt, k);
      var (key, content) := fmt[k];
      var parts := SplitKey(key);
      if parts.None? {
        return Ok(false);
      }
      var t := Upper(parts.value.name);
      if t !in phs {
        return Err(InvalidPlaceholder(parts.value.name));
      }
      var valid := Validate(env, phs[t], content, Context(parts.value.extra));
      if valid.Err? {
        if valid.error.KeyError? {
          return Err(InvalidPlaceholder(parts.value.name));
        }
        return Err(valid.error);
      }
      if !valid.value {
        return Ok(false);
      }
      k := k + 1;
    }
    assert fmt[k..] == [];
    return Ok(true);
  }

  /**
   * What one entry's check means: the entry is valid exactly when its key splits, its type is
   * known and the placeholder accepts the content. A key that does not split, or content the
   * placeholder rejects, gives False; an unknown type, or a `KeyError` from the validation,
   * raises `InvalidBBCodePlaholder` naming the type; any other exception passes through.
   */
  lemma CheckEntryCases(env: Env, phs: PlaceholderMap, e: (string, Option<string>))
    ensures CheckEntry(env, phs, e) == Ok(true) <==>
      SplitKey(e.0).Some? && Upper(SplitKey(e.0).value.name) in phs
      && Validate(env, phs[Upper(SplitKey(e.0).value.name)], e.1, Context(SplitKey(e.0).value.extra)) == Ok(true)
    ensures SplitKey(e.0).None? ==> CheckEntry(env, phs, e) == Ok(false)
    ensures SplitKey(e.0).Some? && Upper(SplitKey(e.0).value.name) !in phs ==>
      CheckEntry(env, phs, e) == Err(InvalidPlaceholder(SplitKey(e.0).value.name))
    ensures SplitKey(e.0).Some? && Upper(SplitKey(e.0).value.name) in phs ==>
      var v := Validate(env, phs[Upper(SplitKey(e.0).value.name)], e.1, Context(SplitKey(e.0).value.extra));
      (v == Ok(false) ==> CheckEntry(env, phs, e) == Ok(false))
      && (v.Err? && v.error.KeyError? ==> CheckEntry(env, phs, e) == Err(InvalidPlaceholder(SplitKey(e.0).value.name)))
      && (v.Err? && !v.error.KeyError? ==> CheckEntry(env, phs, e) == v)
  {
  }

  /** Every suffix of a valid format dictionary is valid. */
  lemma {:induction false} ValidSuffix(env: Env, phs: PlaceholderMap, fmt: FormatMap, k: nat)
    requires k <= |fmt| && ValidateSpec(env, phs, fmt) == Ok(true)
    ensures ValidateSpec(env, phs, fmt[k..]) == Ok(true)
    decreases k
  {
    if k == 0 {
      assert fmt[0..] == fmt;
    } else {
      ValidSuffix(env, phs, fmt, k - 1);
      ValidateAt(env, phs, fmt, k - 1);
    }
  }

  /** A valid format dictionary has every entry valid. */
  lemma ValidEntryOfValid(env: Env, phs: PlaceholderMap, fmt: FormatMap, i: nat)
    requires i < |fmt| && ValidateSpec(env, phs, fmt) == Ok(true)
    ensures CheckEntry(env, phs, fmt[i]) == Ok(true)
  {
    ValidSuffix(env, phs, fmt, i);
    ValidateAt(env, phs, fmt, i);
  }

  /** A format dictionary whose every entry is valid is valid. */
  lemma {:induction false} ValidOfValidEntries(env: Env, phs: PlaceholderMap, fmt: FormatMap)
    requires forall i :: 0 <= i < |fmt| ==> CheckEntry(env, phs, fmt[i]) == Ok(true)
    ensures ValidateSpec(env, phs, fmt) == Ok(true)
    decreases |fmt|
  {
    if fmt != [] {
      var tail := fmt[1..];
      forall i | 0 <= i < |tail|
        ensures CheckEntry(env, phs, tail[i]) == Ok(true)
      {
        assert tail[i] == fmt[i + 1];
      }
      ValidOfValidEntries(env, phs, tail);
    }
  }

  /** The format dictionary is valid exactly when every one of its entries is. */
  lemma ValidateAllEntries(env: Env, phs: PlaceholderMap, fmt: FormatMap)
    ensures ValidateSpec(env, phs, fmt) == Ok(true) <==>
      forall i :: 0 <= i < |fmt| ==> CheckEntry(env, phs, fmt[i]) == Ok(true)
  {
    if ValidateSpec(env, phs, fmt) == Ok(true) {
      forall i | 0 <= i < |fmt|
        ensures CheckEntry(env, phs, fmt[i]) == Ok(true)
      {
        ValidEntryOfValid(env, phs, fmt, i);
      }
    }
    if forall i :: 0 <= i < |fmt| ==> CheckEntry(env, phs, fmt[i]) == Ok(true) {
      ValidOfValidEntries(env, phs, fmt);
    }
  }

  /**
   * Validation raises nothing when every key that splits names a known placeholder validated by
   * a pattern and every content is a string: the outcome is then `True` or `False`.
   */
  lemma {:induction false} ValidatePatternsRaiseNothing(env: Env, phs: PlaceholderMap, fmt: FormatMap)
    requires forall i :: 0 <= i < |fmt| ==> fmt[i].1.Some?
    requires forall i :: 0 <= i < |fmt| ==> SplitKey(fmt[i].0).Some? ==>
      Upper(SplitKey(fmt[i].0).value.name) in phs && phs[Upper(SplitKey(fmt[i].0).value.name)].rule.Pattern?
    ensures ValidateSpec(env, phs, fmt).Ok?
    decreases |fmt|
  {
    if fmt != [] {
      assert fmt[0] == fmt[0];
      ValidatePatternsRaiseNothing(env, phs, fmt[1..]);
    }
  }

  /** `replace(option, BBCODE_ESCAPE_HTML) if option else ''`. */
  function OptionText(option: Option<string>, table: Replacements): string
  {
    if HasOption(option) then ApplyReplacements(option.value, table) else ""
  }

  /**
   * The `fmt` dictionary of `_render_default`: one placeholder receives the value; with two, the
   * second receives the value and the first the escaped option, and when both are the same key
   * the later entry of the dictionary display (the option) wins; any other count gives `{}`.
   */
  function FormatMapOf(keys: seq<string>, value: Option<string>, optionText: string): (r: FormatMap)
    ensures DistinctKeys(r)
    ensures |keys| == 0 || |keys| > 2 ==> r == []
    ensures |keys| == 1 ==> HasKey(r, keys[0]) && ValueOf(r, keys[0]) == value
    ensures |keys| == 2 ==> HasKey(r, keys[0]) && ValueOf(r, keys[0]) == Some(optionText)
    ensures |keys| == 2 && keys[0] != keys[1] ==> HasKey(r, keys[1]) && ValueOf(r, keys[1]) == value
    ensures |keys| == 2 && keys[0] != keys[1] ==> Keys(r) == [keys[1], keys[0]]
    ensures forall i :: 0 <= i < |r| ==> r[i].0 in keys
  {
    if |keys| == 1 then
      var r := [(keys[0], value)];
      assert r[0].0 == keys[0];
      r
    else if |keys| == 2 then
      if keys[0] == keys[1] then
        var r := [(keys[1], Some(optionText))];
        assert r[0].0 == keys[0];
        r
      else
        var r := [(keys[1], value), (keys[0], Some(optionText))];
        assert r[0].0 == keys[1] && r[1].0 == keys[0];
        assert r[1..][1..] == [];
        assert Keys(r[1..]) == [keys[0]] + Keys(r[1..][1..]);
        r
    else []
  }

  /** `self.definition_string.replace('=', '')`, used when validation fails and there is no option. */
  function DropEquals(definition: string): string
  {
    Replace(definition, "=", "")
  }

  /**
   * `_render_default`: the keys of the definition string build the dictionary; a validation
   * error is raised as it is; invalid content re-emits the definition string (without its '='
   * signs when there is no option) formatted with the dictionary; valid content formats the
   * format string after doubling its braces and restoring every `{key}`.
   */
  function RenderDefaultSpec(env: Env, phs: PlaceholderMap, table: Replacements, definition: string, format: string,
                             value: Option<string>, option: Option<string>): Result<string, Error>
  {
    var fmt := FormatMapOf(FindPlaceholders(definition), value, OptionText(option, table));
    match ValidateSpec(env, phs, fmt)
    case Err(e) => Err(e)
    case Ok(false) => if HasOption(option) then Format(definition, fmt) else Format(DropEquals(definition), fmt)
    case Ok(true) => Format(RestoreKeys(EscapeBraces(format), Keys(fmt)), fmt)
  }

  /** `_render_default`, with its loop restoring the fields one key at a time. */
  method RenderDefault(env: Env, phs: PlaceholderMap, table: Replacements, definition: string, format: string,
                       value: Option<string>, option: Option<string>) returns (r: Result<string, Error>)
    ensures r == RenderDefaultSpec(env, phs, table, definition, format, value, option)
  {
    var optionText := "";
    if HasOption(option) {
      optionText := ReplaceAll(option.value, table);
    }
    var fmt := FormatMapOf(FindPlaceholders(definition), value, optionText);
    var valid := ValidateFormat(env, phs, fmt);
    if valid.Err? {
      return Err(valid.error);
    }
    if !valid.value {
      if HasOption(option) {
        return Format(definition, fmt);
      }
      return Format(DropEquals(definition), fmt);
    }
    var escaped := EscapeBraces(format);
    var keys := Keys(fmt);
    for i := 0 to |keys|
      invariant RestoreKeys(escaped, keys[i..]) == RestoreKeys(EscapeBraces(format), keys)
    {
      assert keys[i..][0] == keys[i] && keys[i..][1..] == keys[i + 1..];
      escaped := Replace(escaped, "{" + keys[i] + "}", keys[i]);
    }
    assert keys[|keys|..] == [];
    return Format(escaped, fmt);
  }

  /** No key holds '.', '!' or ':', the characters that end a field name for Python's formatter. */
  predicate NoSeparatorKeys(keys: seq<string>)
  {
    forall j, i :: 0 <= j < |keys| && 0 <= i < |keys[j]| ==> !IsFieldSeparator(keys[j][i])
  }

  /** The keys of a format dictionary built from a definition string are plain when none holds '.', '!' or ':'. */
  lemma FormatMapPlain(definition: string, value: Option<string>, optionText: string)
    requires NoSeparatorKeys(FindPlaceholders(definition))
    ensures PlainMap(FormatMapOf(FindPlaceholders(definition), value, optionText))
  {
    var keys := FindPlaceholders(definition);
    var fmt := FormatMapOf(keys, value, optionText);
    PlaceholdersValid(definition);
    forall i | 0 <= i < |fmt|
      ensures PlainKey(fmt[i].0)
    {
      var j :| 0 <= j < |keys| && keys[j] == fmt[i].0;
      ValidBodyPlain(keys[j]);
    }
  }

  /**
   * Valid content renders as the format string with each `{key}` of the definition replaced by
   * its value and every other character, braces included, kept literally.
   */
  lemma RenderDefaultValid(env: Env, phs: PlaceholderMap, table: Replacements, definition: string, format: string,
                           value: Option<string>, option: Option<string>)
    requires NoSeparatorKeys(FindPlaceholders(definition))
    requires ValidateSpec(env, phs, FormatMapOf(FindPlaceholders(definition), value, OptionText(option, table))) == Ok(true)
    ensures RenderDefaultSpec(env, phs, table, definition, format, value, option)
         == Ok(Substitute(format, FormatMapOf(FindPlaceholders(definition), value, OptionText(option, table))))
  {
    var fmt := FormatMapOf(FindPlaceholders(definition), value, OptionText(option, table));
    FormatMapPlain(definition, value, OptionText(option, table));
    BraceEscapingFormatsLiterally(format, fmt);
  }

  /** A definition with two fields, `pre{k1}mid{k2}post`, such as `[url={URL}]{LINKTEXT}[/url]`. */
  function TwoFieldDefinition(pre: string, k1: string, mid: string, k2: string, post: string): string
  {
    pre + "{" + k1 + "}" + mid + "{" + k2 + "}" + post
  }

  /** Names made of letters are plain format keys and valid placeholder names, without '='. */
  lemma LettersKey(k: string)
    requires AllLetters(k)
    ensures PlainKey(k) && ValidBody(k) && '=' !in k
  {
    ValidBodyLetters(k);
    assert !IsAsciiDigit(k[0]);
  }

  lemma TwoFieldNested(pre: string, k1: string, mid: string, k2: string, post: string)
    ensures TwoFieldDefinition(pre, k1, mid, k2, post) == pre + ("{" + k1 + "}" + (mid + ("{" + k2 + "}" + post)))
  {
  }

  /** Dropping the '=' signs of a two-field definition leaves its fields in place. */
  lemma DropEqualsTwoFields(pre: string, k1: string, mid: string, k2: string, post: string)
    requires '=' !in k1 && '=' !in k2
    ensures DropEquals(TwoFieldDefinition(pre, k1, mid, k2, post))
         == TwoFieldDefinition(DropEquals(pre), k1, DropEquals(mid), k2, DropEquals(post))
  {
    var f1, f2 := "{" + k1 + "}", "{" + k2 + "}";
    assert '=' !in f1 && '=' !in f2;
    ReplaceCharAbsent(f1, '=', "");
    ReplaceCharAbsent(f2, '=', "");
    var t4 := f2 + post;
    ReplaceCharConcat(f2, post, '=', "");
    assert DropEquals(t4) == f2 + DropEquals(post);
    var t3 := mid + t4;
    ReplaceCharConcat(mid, t4, '=', "");
    assert DropEquals(t3) == DropEquals(mid) + (f2 + DropEquals(post));
    var t2 := f1 + t3;
    ReplaceCharConcat(f1, t3, '=', "");
    assert DropEquals(t2) == f1 + (DropEquals(mid) + (f2 + DropEquals(post)));
    ReplaceCharConcat(pre, t2, '=', "");
    TwoFieldNested(pre, k1, mid, k2, post);
    TwoFieldNested(DropEquals(pre), k1, DropEquals(mid), k2, DropEquals(post));
  }

  /** Dropping '=' signs adds no brace. */
  lemma DropEqualsNoBraces(s: string)
    requires '{' !in s && '}' !in s
    ensures '{' !in DropEquals(s) && '}' !in DropEquals(s)
  {
    ReplaceKeepsAbsent(s, "=", "", '{');
    ReplaceKeepsAbsent(s, "=", "", '}');
  }

  /**
   * The dictionary of a two-field definition formats it back into the tag as written: the first
   * field becomes the option text and the second the content, and the same holds once the '='
   * signs are dropped.
   */
  lemma TwoFieldReemit(pre: string, k1: string, mid: string, k2: string, post: string, v: string, ot: string)
    requires AllLetters(k1) && AllLetters(k2) && k1 != k2
    requires '{' !in pre && '}' !in pre && '{' !in mid && '}' !in mid && '{' !in post && '}' !in post
    ensures Format(TwoFieldDefinition(pre, k1, mid, k2, post), [(k2, Some(v)), (k1, Some(ot))])
         == Ok(pre + ot + mid + v + post)
    ensures Format(DropEquals(TwoFieldDefinition(pre, k1, mid, k2, post)), [(k2, Some(v)), (k1, Some(ot))])
         == Ok(DropEquals(pre) + ot + DropEquals(mid) + v + DropEquals(post))
  {
    var m := [(k2, Some(v)), (k1, Some(ot))];
    LettersKey(k1);
    LettersKey(k2);
    assert m[0].0 == k2 && m[1].0 == k1;
    assert HasKey(m, k1) && HasKey(m, k2);
    assert ValueOf(m, k2) == Some(v);
    assert ValueOf(m, k1) == Some(ot);
    FormatTwoFields(pre, k1, mid, k2, post, m);
    DropEqualsTwoFields(pre, k1, mid, k2, post);
    DropEqualsNoBraces(pre);
    DropEqualsNoBraces(mid);
    DropEqualsNoBraces(post);
    FormatTwoFields(DropEquals(pre), k1, DropEquals(mid), k2, DropEquals(post), m);
  }

  /**
   * Content a two-field tag rejects is re-emitted as the tag was written: with an option, the
   * escaped option and the content take the places of the two fields; without one, the
   * definition loses its '=' signs and the first field is left empty, so that an invalid
   * `[url]x[/url]` comes back from `[url={URL}]{LINKTEXT}[/url]` as `[url]x[/url]`.
   */
  lemma RenderDefaultInvalid(env: Env, phs: PlaceholderMap, table: Replacements, pre: string, k1: string, mid: string,
                             k2: string, post: string, format: string, v: string, option: Option<string>)
    requires AllLetters(k1) && AllLetters(k2) && k1 != k2
    requires '{' !in pre && '}' !in pre && '{' !in mid && '}' !in mid && '{' !in post && '}' !in post
    requires ValidateSpec(env, phs, [(k2, Some(v)), (k1, Some(OptionText(option, table)))]) == Ok(false)
    ensures HasOption(option) ==>
      RenderDefaultSpec(env, phs, table, TwoFieldDefinition(pre, k1, mid, k2, post), format, Some(v), option)
        == Ok(pre + OptionText(option, table) + mid + v + post)
    ensures !HasOption(option) ==>
      RenderDefaultSpec(env, phs, table, TwoFieldDefinition(pre, k1, mid, k2, post), format, Some(v), option)
        == Ok(DropEquals(pre) + DropEquals(mid) + v + DropEquals(post))
  {
    var ot := OptionText(option, table);
    LettersKey(k1);
    LettersKey(k2);
    TwoFields(pre, k1, mid, k2, post);
    TwoFieldMap(k1, k2, v, ot);
    TwoFieldReemit(pre, k1, mid, k2, post, v, ot);
    if !HasOption(option) {
      EmptyBetween(DropEquals(pre), DropEquals(mid));
    }
  }

  lemma TwoFieldMap(k1: string, k2: string, v: string, ot: string)
    requires k1 != k2
    ensures FormatMapOf([k1, k2], Some(v), ot) == [(k2, Some(v)), (k1, Some(ot))]
  {
  }

  lemma EmptyBetween(a: string, b: string)
    ensures a + [] + b == a + b
  {
  }

  /** Whether a class attribute holds a non-empty string. */
  predicate IsSet(s: Option<string>) { s.Some? && s.value != [] }

  /** How a tag class renders when it has no definition: by an inherited `render` or its own. */
  datatype Renderer = Inherited | ListRender | UrlRender | CustomRender(key: string)

  /** A defined tag class: its name, its two strings, its options and its `render`. */
  datatype TagClass = TagClass(name: string, definition: Option<string>, format: Option<string>,
                               options: BBCodeTagOptions, renderer: Renderer)

  /**
   * `tag.do_render(parser, value, option, parent)`: the generic renderer when both strings are
   * set, otherwise the class's `render`; the inherited one raises `NotImplementedError`.
   */
  function DoRender(env: Env, phs: PlaceholderMap, table: Replacements, tag: TagClass,
                    value: Option<string>, option: Option<string>, parent: Option<BBCodeTagOptions>): (r: Result<string, Error>)
    ensures IsSet(tag.definition) && IsSet(tag.format) ==>
      r == RenderDefaultSpec(env, phs, table, tag.definition.value, tag.format.value, value, option)
    ensures !(IsSet(tag.definition) && IsSet(tag.format)) && tag.renderer.Inherited? ==> r == Err(NotImplemented)
  {
    if IsSet(tag.definition) && IsSet(tag.format) then
      RenderDefaultSpec(env, phs, table, tag.definition.value, tag.format.value, value, option)
    else match tag.renderer
      case Inherited => Err(NotImplemented)
      case ListRender => Ok(ListHtml(value, option))
      case UrlRender => UrlHtml(env, table, value, option)
      case CustomRender(key) => env.customRender(key, value, option, parent)
  }

  /** An attribute of the inner `Options` class as `inspect.getmembers` lists it. */
  datatype ClassMember = ClassMember(name: string, value: PyValue, routine: bool)

  /**
   * The body of a tag subclass: `name` (`None` when neither the class nor a base sets it), the two
   * strings, the inner `Options` class if any, and its `render`.
   */
  datatype TagSpec = TagSpec(name: PyValue, definition: Option<string>, format: Option<string>,
                             optionsClass: Option<seq<ClassMember>>, renderer: Renderer)

  predicate IsDunder(name: string) { StartsWith(name, "__") && EndsWith(name, "__") }

  /** The keyword arguments built from the `Options` class: its data attributes that are not dunder names. */
  function OptionKwargs(members: seq<ClassMember>): (r: Kwargs)
    ensures |r| <= |members|
    ensures forall i :: 0 <= i < |r| ==> !IsDunder(r[i].0)
  {
    if members == [] then []
    else if !members[0].routine && !IsDunder(members[0].name) then
      [(members[0].name, members[0].value)] + OptionKwargs(members[1..])
    else OptionKwargs(members[1..])
  }

  /** The member `inspect.getmembers` lists that becomes a keyword argument: a data attribute, not a dunder. */
  predicate IsOptionMember(m: ClassMember) { !m.routine && !IsDunder(m.name) }

  /** The keyword arguments are exactly the names and values of the data attributes that are not dunders. */
  lemma {:induction false} OptionKwargsMembers(members: seq<ClassMember>, p: (string, PyValue))
    ensures p in OptionKwargs(members) <==> exists m :: m in members && IsOptionMember(m) && p == (m.name, m.value)
    decreases |members|
  {
    if members != [] {
      OptionKwargsMembers(members[1..], p);
      assert members == [members[0]] + members[1..];
    }
  }

  /** The members keep their `getmembers` order: the arguments of two runs of members are those of each run, in turn. */
  lemma {:induction false} OptionKwargsConcat(a: seq<ClassMember>, b: seq<ClassMember>)
    ensures OptionKwargs(a + b) == OptionKwargs(a) + OptionKwargs(b)
    decreases |a|
  {
    if a == [] {
      assert a + b == b;
    } else {
      assert (a + b)[0] == a[0];
      assert (a + b)[1..] == a[1..] + b;
      OptionKwargsConcat(a[1..], b);
    }
  }

  /** `re.match('^[^\s=]+$', name)`: non-empty, without white space or '=', up to one final newline. */
  predicate ValidTagName(s: string)
  {
    var t := Chomp(s);
    |t| > 0 && forall i :: 0 <= i < |t| ==> !IsSpace(t[i]) && t[i] != '='
  }

  /**
   * `BBCodeTagBase.__new__` for a subclass: the name must be set and truthy, a string (a regex
   * match on anything else raises `TypeError`) and a valid tag name; the definition and format
   * strings are set together or not at all; the options come from the `Options` class.
   */
  function DefineTag(spec: TagSpec): (r: Result<TagClass, Error>)
    ensures r.Ok? <==> Truthy(spec.name) && spec.name.PyStr? && ValidTagName(spec.name.s)
                       && (IsSet(spec.definition) <==> IsSet(spec.format))
    ensures !Truthy(spec.name) ==> r.Err? && r.error.ImproperlyConfigured?
    ensures Truthy(spec.name) && !spec.name.PyStr? ==> r == Err(TypeError)
    ensures r.Err? ==> r.error.ImproperlyConfigured? || r.error == TypeError
    ensures r.Ok? ==> r.value.name == spec.name.s && r.value.renderer == spec.renderer
    ensures r.Ok? && spec.optionsClass.None? ==> r.value.options == Defaults
  {
    if !Truthy(spec.name) then Err(ImproperlyConfigured("name cannot be None"))
    else if !spec.name.PyStr? then Err(TypeError)
    else if !ValidTagName(spec.name.s) then Err(ImproperlyConfigured("a tag name must be strictly composed of non-white-space characters"))
    else if IsSet(spec.definition) != IsSet(spec.format) then
      Err(ImproperlyConfigured("the definition string cannot be specified without the format string"))
    else
      var options := match spec.optionsClass
        case None => Defaults
        case Some(members) => ApplyKwargs(Defaults, OptionKwargs(members));
      Ok(TagClass(spec.name.s, spec.definition, spec.format, options, spec.renderer))
  }

  /**
   * Every flag of a defined tag is the truth value of the last `Options` attribute naming it, or
   * its class default when no attribute does.
   */
  lemma DefinedFlags(spec: TagSpec, a: Attribute)
    requires DefineTag(spec).Ok? && spec.optionsClass.Some?
    ensures Attr(DefineTag(spec).value.options, a) ==
      match LastValue(OptionKwargs(spec.optionsClass.value), AttrName(a))
      case Some(v) => Some(Truthy(v))
      case None => Attr(Defaults, a)
  {
    ApplyKwargsAttr(Defaults, OptionKwargs(spec.optionsClass.value), a);
  }
}
