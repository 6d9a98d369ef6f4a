/**
 * The `BBCodeTag` model of the legacy application: the validation of a user-written tag
 * (`clean`), the derivation of its name when it is saved (`save`) and the arguments it hands to
 * the parser (`parser_args`). The database row is the object's fields; the parser `clean` consults
 * is represented by the names it has installed.
 */
module Models {
  import opened Wrappers
  import opened Errors
  import opened TagOptions
  import opened PySort
  import opened TagDefinition
  import opened Matchers
  import opened PyFormat
  import opened Tags
  import opened LegacyParser

  const NotValid := "The BBCode definition you provided is not valid"
  const NamesDiffer := "This BBCode tag dit not validate because the start tag and the tag names are not the same"
  const AlreadyExists := "A BBCode tag with this name appears to already exist"
  const PlaceholdersDiffer := "The placeholders defined in the tag definition must be present in the HTML replacement code!"
  const NotUnique := "The placeholders defined in the tag definition must be strictly uniques"
  const UnknownType := "You can only use placeholder names among: URL, EMAIL, TEXT, SIMPLETEXT, COLOR, NUMBER"

  /** `[re.sub('\d+$', '', p) for p in placeholders]`. */
  function TypeNames(ps: seq<string>): (r: seq<string>)
    ensures |r| == |ps|
    ensures forall i :: 0 <= i < |ps| ==> r[i] == TypeName(ps[i])
  {
    if ps == [] then [] else [TypeName(ps[0])] + TypeNames(ps[1..])
  }

  /** `[t for t in types if t in PLACEHOLDERS_RE.keys()]`. */
  function KnownTypes(types: seq<string>): seq<string>
  {
    if types == [] then []
    else if KindNamed(types[0]).Some? then [types[0]] + KnownTypes(types[1..])
    else KnownTypes(types[1..])
  }

  /** Filtering the known types keeps the list as it is exactly when every type is known. */
  lemma {:induction false} KnownTypesAll(types: seq<string>)
    ensures |KnownTypes(types)| <= |types|
    ensures KnownTypes(types) == types <==> forall i :: 0 <= i < |types| ==> KindNamed(types[i]).Some?
  {
    if types != [] {
      KnownTypesAll(types[1..]);
      assert forall i :: 1 <= i < |types| ==> types[i] == types[1..][i - 1];
      if KindNamed(types[0]).Some? && KnownTypes(types[1..]) != types[1..] {
        assert KnownTypes(types)[1..] == KnownTypes(types[1..]);
      }
    }
  }

  /**
   * `BBCodeTag.clean` on the tag's definition, HTML replacement and standalone flag; `installed`
   * holds the names the global parser has installed. The checks run in order and the first that
   * fails raises `ValidationError`.
   */
  function Clean(definition: string, html: string, standalone: bool, installed: set<string>): (r: Result<(), Error>)
    ensures r.Err? ==> r.error.ValidationError?
  {
    match MatchDefinition(definition, standalone)
    case None => Err(ValidationError(NotValid))
    case Some(d) =>
      if !standalone && d.endName != Some(d.startName) then Err(ValidationError(NamesDiffer))
      else if d.startName in installed then Err(ValidationError(AlreadyExists))
      else CheckPlaceholders(WordFields(definition), WordFields(html))
  }

  /** The last three checks of `clean`, on the placeholders of the definition and of the replacement. */
  function CheckPlaceholders(defPlaceholders: seq<string>, htmlPlaceholders: seq<string>): (r: Result<(), Error>)
    ensures r.Err? ==> r.error.ValidationError?
  {
    if Elems(defPlaceholders) != Elems(htmlPlaceholders) then Err(ValidationError(PlaceholdersDiffer))
    else if defPlaceholders != SortedUnique(defPlaceholders) then Err(ValidationError(NotUnique))
    else
      var types := TypeNames(defPlaceholders);
      if KnownTypes(types) != types then Err(ValidationError(UnknownType)) else Ok(())
  }

  /**
   * Valid placeholders: the definition and the replacement use the same ones, the definition's are
   * distinct and in increasing order, and each names one of the known types, optionally followed
   * by digits.
   */
  predicate ValidPlaceholders(defPlaceholders: seq<string>, htmlPlaceholders: seq<string>)
  {
    Elems(defPlaceholders) == Elems(htmlPlaceholders)
    && StrictlyIncreasing(defPlaceholders)
    && forall i :: 0 <= i < |defPlaceholders| ==> KindNamed(TypeName(defPlaceholders[i])).Some?
  }

  lemma PlaceholdersAccepted(defPlaceholders: seq<string>, htmlPlaceholders: seq<string>)
    ensures CheckPlaceholders(defPlaceholders, htmlPlaceholders) == Ok(()) <==> ValidPlaceholders(defPlaceholders, htmlPlaceholders)
  {
    SortedUniqueFixed(defPlaceholders);
    var types := TypeNames(defPlaceholders);
    KnownTypesAll(types);
  }

  /**
   * What a valid custom tag is: its definition has the shape of its kind, a standard tag closes
   * with its own name, the name is not taken, and its placeholders are valid.
   */
  predicate ValidTag(definition: string, html: string, standalone: bool, installed: set<string>)
  {
    var m := MatchDefinition(definition, standalone);
    m.Some?
    && (standalone || m.value.endName == Some(m.value.startName))
    && m.value.startName !in installed
    && ValidPlaceholders(WordFields(definition), WordFields(html))
  }

  /** `clean` accepts exactly the valid tags. */
  lemma CleanAccepts(definition: string, html: string, standalone: bool, installed: set<string>)
    ensures Clean(definition, html, standalone, installed) == Ok(()) <==> ValidTag(definition, html, standalone, installed)
  {
    PlaceholdersAccepted(WordFields(definition), WordFields(html));
  }

  /** A placeholder named twice in the definition makes `clean` fail. */
  lemma CleanRejectsRepeats(definition: string, html: string, standalone: bool, installed: set<string>, i: nat, j: nat)
    requires i < j < |WordFields(definition)| && WordFields(definition)[i] == WordFields(definition)[j]
    ensures Clean(definition, html, standalone, installed).Err?
  {
    CleanAccepts(definition, html, standalone, installed);
    if ValidTag(definition, html, standalone, installed) {
      IncreasingDistinct(WordFields(definition));
    }
  }

  /**
   * Validation of a dictionary whose every key has a known type never raises
   * `InvalidBBCodePlaholder`.
   */
  lemma {:induction false} KnownKeysNoInvalid(env: Env, fmt: FormatMap)
    requires forall i :: 0 <= i < |fmt| ==> KindNamed(TypeName(fmt[i].0)).Some?
    ensures LegacyValidateSpec(env, fmt).Err? ==> !LegacyValidateSpec(env, fmt).error.InvalidPlaceholder?
    decreases |fmt|
  {
    if fmt != [] {
      assert forall i :: 1 <= i < |fmt| ==> fmt[i] == fmt[1..][i - 1];
      KnownKeysNoInvalid(env, fmt[1..]);
    }
  }

  /**
   * A tag that passed `clean`, once installed with `add_default_renderer`, never fails on an
   * unknown placeholder type, whatever the content and the option.
   */
  lemma CleanedNeverInvalidPlaceholder(env: Env, definition: string, html: string, standalone: bool,
                                       installed: set<string>, value: Option<string>, optionText: string)
    requires Clean(definition, html, standalone, installed) == Ok(())
    ensures var fmt := FormatMapOf(WordFields(definition), value, optionText);
      LegacyValidateSpec(env, fmt).Err? ==> !LegacyValidateSpec(env, fmt).error.InvalidPlaceholder?
  {
    CleanAccepts(definition, html, standalone, installed);
    var ps := WordFields(definition);
    var fmt := FormatMapOf(ps, value, optionText);
    forall i | 0 <= i < |fmt|
      ensures KindNamed(TypeName(fmt[i].0)).Some?
    {
      var k :| 0 <= k < |ps| && ps[k] == fmt[i].0;
    }
    KnownKeysNoInvalid(env, fmt);
  }

  /** The option fields of a row, in field order: those whose name `BBCodeTagOptions` declares. */
  function OptionFields(fields: seq<(string, PyValue)>): (r: Kwargs)
    ensures forall i :: 0 <= i < |r| ==> AttributeNamed(r[i].0).Some? && r[i] in fields
  {
    if fields == [] then []
    else if AttributeNamed(fields[0].0).Some? then [fields[0]] + OptionFields(fields[1..])
    else OptionFields(fields[1..])
  }

  /** The attributes of `BBCodeTagOptions` that are columns of the table, in declaration order. */
  const ColumnAttrs: seq<Attribute> := [Helpline, DisplayOnEditor, NewlineCloses, SameTagCloses, EndTagCloses,
    Standalone, TransformNewlines, RenderEmbedded, EscapeHtml, ReplaceLinks, Strip, SwallowTrailingNewline]

  /** The value a column holds: `h` for `helpline`, the flag of `o` for the others. */
  function ColumnValue(h: PyValue, o: BBCodeTagOptions, a: Attribute): PyValue
  {
    if a == Helpline then h else PyBool(Attr(o, a) == Some(true))
  }

  /** The option columns of a row, named after their attributes. */
  function ColumnsOf(h: PyValue, o: BBCodeTagOptions): (r: Kwargs)
    ensures |r| == |ColumnAttrs|
    ensures forall i :: 0 <= i < |r| ==> r[i] == (AttrName(ColumnAttrs[i]), ColumnValue(h, o, ColumnAttrs[i]))
  {
    seq(|ColumnAttrs|, i requires 0 <= i < |ColumnAttrs| => (AttrName(ColumnAttrs[i]), ColumnValue(h, o, ColumnAttrs[i])))
  }

  /** A row of the `BBCodeTag` table. */
  class BBCodeTag {
    /** The primary key; `None` until the row is saved. */
    var id: Option<int>
    var tagName: string
    var tagDefinition: string
    var htmlReplacement: string
    var helpline: Option<string>
    var displayOnEditor: bool
    var newlineCloses: bool
    var sameTagCloses: bool
    var endTagCloses: bool
    var standalone: bool
    var transformNewlines: bool
    var renderEmbedded: bool
    var escapeHtml: bool
    var replaceLinks: bool
    var strip: bool
    var swallowTrailingNewline: bool

    /** A new row with the given definition and replacement and every other column at its default. */
    constructor(tagDefinition: string, htmlReplacement: string)
      ensures this.tagDefinition == tagDefinition && this.htmlReplacement == htmlReplacement
      ensures id.None? && tagName == [] && helpline.None? && displayOnEditor
      ensures !newlineCloses && !sameTagCloses && !endTagCloses && !standalone
      ensures transformNewlines && renderEmbedded && escapeHtml && replaceLinks
      ensures !strip && !swallowTrailingNewline
    {
      id := None;
      tagName := [];
      this.tagDefinition := tagDefinition;
      this.htmlReplacement := htmlReplacement;
      helpline := None;
      displayOnEditor := true;
      newlineCloses := false;
      sameTagCloses := false;
      endTagCloses := false;
      standalone := false;
      transformNewlines := true;
      renderEmbedded := true;
      escapeHtml := true;
      replaceLinks := true;
      strip := false;
      swallowTrailingNewline := false;
    }

    /** `_meta.fields` with `value_from_object`, in declaration order. */
    function Fields(): seq<(string, PyValue)>
      reads this
    {
      [("id", if id.Some? then PyInt(id.value) else PyNone),
       ("tag_name", PyStr(tagName)),
       ("tag_definition", PyStr(tagDefinition)),
       ("html_replacement", PyStr(htmlReplacement))]
      + OptionColumns()
    }

    /** The fields from `helpline` on, each named after an attribute of `BBCodeTagOptions`. */
    function OptionColumns(): seq<(string, PyValue)>
      reads this
    {
      ColumnsOf(if helpline.Some? then PyStr(helpline.value) else PyNone, Options())
    }

    /** The options the row stands for: each flag column, and whether a help line is set. */
    function Options(): BBCodeTagOptions
      reads this
    {
      BBCodeTagOptions(newlineCloses, sameTagCloses, endTagCloses, standalone, renderEmbedded, transformNewlines,
                       escapeHtml, replaceLinks, strip, swallowTrailingNewline,
                       Some(helpline.Some? && helpline.value != []), displayOnEditor)
    }

    /**
     * `save`: the tag name becomes the start name of the definition. A definition the pattern does
     * not match makes `re.search` return `None`, and `.groupdict()` on it raises `AttributeError`.
     * Only `tag_name` is written.
     */
    method Save() returns (r: Result<(), Error>)
      modifies this`tagName
      ensures var m := MatchDefinition(old(tagDefinition), old(standalone));
        if m.Some? then r == Ok(()) && tagName == m.value.startName
        else r == Err(AttributeError) && tagName == old(tagName)
    {
      var m := MatchDefinition(tagDefinition, standalone);
      if m.None? {
        r := Err(AttributeError);
      } else {
        tagName := m.value.startName;
        r := Ok(());
      }
    }

    /**
     * `parser_args`: the positional arguments for `add_default_renderer` and, as keyword
     * arguments, every field whose name is an attribute of `BBCodeTagOptions`.
     */
    method ParserArgs() returns (args: seq<string>, kwargs: Kwargs)
      ensures args == [tagName, tagDefinition, htmlReplacement]
      ensures kwargs == OptionFields(Fields())
    {
      args := [tagName, tagDefinition, htmlReplacement];
      var fields := Fields();
      kwargs := [];
      for k := 0 to |fields|
        invariant kwargs + OptionFields(fields[k..]) == OptionFields(fields)
      {
        assert fields[k..][0] == fields[k] && fields[k..][1..] == fields[k + 1..];
        if AttributeNamed(fields[k].0).Some? {
          kwargs := kwargs + [fields[k]];
        }
      }
      assert fields[|fields|..] == [];
    }
  }

  /** The option fields of a row are its option columns. */
  lemma OptionFieldsOfRow(t: BBCodeTag)
    ensures OptionFields(t.Fields()) == t.OptionColumns()
  {
    var keys := t.Fields()[..4];
    assert t.Fields() == keys + t.OptionColumns();
    OptionFieldsConcat(keys, t.OptionColumns());
    KeyColumnsNotOptions(keys);
    OptionColumnsAreOptions(if t.helpline.Some? then PyStr(t.helpline.value) else PyNone, t.Options());
  }

  lemma {:induction false} OptionFieldsConcat(a: seq<(string, PyValue)>, b: seq<(string, PyValue)>)
    ensures OptionFields(a + b) == OptionFields(a) + OptionFields(b)
    decreases |a|
  {
    if a == [] {
      assert a + b == b;
    } else {
      assert (a + b)[0] == a[0] && (a + b)[1..] == a[1..] + b;
      OptionFieldsConcat(a[1..], b);
    }
  }

  lemma KeyColumnsNotOptions(keys: seq<(string, PyValue)>)
    requires |keys| == 4 && keys[0].0 == "id" && keys[1].0 == "tag_name"
    requires keys[2].0 == "tag_definition" && keys[3].0 == "html_replacement"
    ensures OptionFields(keys) == []
  {
    assert AttributeNamed("id").None? && AttributeNamed("tag_name").None?;
    assert AttributeNamed("tag_definition").None? && AttributeNamed("html_replacement").None?;
    assert OptionFields(keys[3..]) == [] by {
      assert keys[3..][1..] == [];
    }
    assert OptionFields(keys[2..]) == [] by {
      assert keys[2..][1..] == keys[3..];
    }
    assert OptionFields(keys[1..]) == [] by {
      assert keys[1..][1..] == keys[2..];
    }
  }

  lemma OptionColumnsAreOptions(h: PyValue, o: BBCodeTagOptions)
    ensures OptionFields(ColumnsOf(h, o)) == ColumnsOf(h, o)
  {
    var cols := ColumnsOf(h, o);
    forall i | 0 <= i < |cols|
      ensures AttributeNamed(cols[i].0).Some?
    {
      AttributeNamedComplete(ColumnAttrs[i]);
    }
    AllOptionFields(cols);
  }

  lemma {:induction false} AllOptionFields(fields: seq<(string, PyValue)>)
    requires forall i :: 0 <= i < |fields| ==> AttributeNamed(fields[i].0).Some?
    ensures OptionFields(fields) == fields
  {
    if fields != [] {
      assert forall i :: 1 <= i < |fields| ==> fields[i] == fields[1..][i - 1];
      AllOptionFields(fields[1..]);
    }
  }

  /** One step of the keyword loop of `BBCodeTagOptions.__init__`. */
  lemma ApplyKwargsFrom(o: BBCodeTagOptions, kwargs: Kwargs, i: nat)
    requires i < |kwargs|
    ensures ApplyKwargs(o, kwargs[i..]) == ApplyKwargs(SetNamed(o, kwargs[i].0, Truthy(kwargs[i].1)), kwargs[i + 1..])
  {
    assert kwargs[i..][0] == kwargs[i] && kwargs[i..][1..] == kwargs[i + 1..];
  }

  /** Two names of attributes are the same only for the same attribute. */
  lemma AttrNameInjective(a: Attribute, b: Attribute)
    ensures AttrName(a) == AttrName(b) ==> a == b
  {
    AttributeNamedComplete(a);
    AttributeNamedComplete(b);
  }

  /** Options agreeing on every attribute are the same. */
  lemma AttrsDetermine(o1: BBCodeTagOptions, o2: BBCodeTagOptions)
    requires forall a :: Attr(o1, a) == Attr(o2, a)
    ensures o1 == o2
  {
    assert Attr(o1, NewlineCloses) == Attr(o2, NewlineCloses) && Attr(o1, SameTagCloses) == Attr(o2, SameTagCloses);
    assert Attr(o1, EndTagCloses) == Attr(o2, EndTagCloses) && Attr(o1, Standalone) == Attr(o2, Standalone);
    assert Attr(o1, RenderEmbedded) == Attr(o2, RenderEmbedded) && Attr(o1, TransformNewlines) == Attr(o2, TransformNewlines);
    assert Attr(o1, EscapeHtml) == Attr(o2, EscapeHtml) && Attr(o1, ReplaceLinks) == Attr(o2, ReplaceLinks);
    assert Attr(o1, Strip) == Attr(o2, Strip) && Attr(o1, SwallowTrailingNewline) == Attr(o2, SwallowTrailingNewline);
    assert Attr(o1, Helpline) == Attr(o2, Helpline) && Attr(o1, DisplayOnEditor) == Attr(o2, DisplayOnEditor);
  }

  /** Every attribute is a column, and no two columns share an attribute. */
  lemma ColumnAttrsIndex(a: Attribute) returns (k: nat)
    ensures k < |ColumnAttrs| && ColumnAttrs[k] == a
    ensures forall j :: 0 <= j < |ColumnAttrs| && j != k ==> ColumnAttrs[j] != a
  {
    k := match a
      case Helpline => 0
      case DisplayOnEditor => 1
      case NewlineCloses => 2
      case SameTagCloses => 3
      case EndTagCloses => 4
      case Standalone => 5
      case TransformNewlines => 6
      case RenderEmbedded => 7
      case EscapeHtml => 8
      case ReplaceLinks => 9
      case Strip => 10
      case SwallowTrailingNewline => 11;
  }

  /** The truth value of a column is the attribute it was taken from. */
  lemma ColumnValueTruthy(h: PyValue, o: BBCodeTagOptions, a: Attribute)
    requires o.helpline == Some(Truthy(h))
    ensures Some(Truthy(ColumnValue(h, o, a))) == Attr(o, a)
  {
  }

  /** Keyword arguments spelling out every column rebuild the options they were taken from. */
  lemma ColumnsRebuild(h: PyValue, o: BBCodeTagOptions)
    requires o.helpline == Some(Truthy(h))
    ensures ApplyKwargs(Defaults, ColumnsOf(h, o)) == o
  {
    var kw := ColumnsOf(h, o);
    forall a
      ensures Attr(ApplyKwargs(Defaults, kw), a) == Attr(o, a)
    {
      var k := ColumnAttrsIndex(a);
      forall j | 0 <= j < |kw| && j != k
        ensures kw[j].0 != AttrName(a)
      {
        AttrNameInjective(ColumnAttrs[j], a);
      }
      LastValueOnly(kw, AttrName(a), k);
      ApplyKwargsAttr(Defaults, kw, a);
      ColumnValueTruthy(h, o, a);
      assert kw[k].1 == ColumnValue(h, o, a);
    }
    AttrsDetermine(ApplyKwargs(Defaults, kw), o);
  }

  /**
   * The parser builds `BBCodeTagOptions(**kwargs)` from these keyword arguments: it gets exactly
   * the row's options.
   */
  lemma ParserArgsRebuildOptions(t: BBCodeTag)
    ensures ApplyKwargs(Defaults, OptionFields(t.Fields())) == t.Options()
  {
    OptionFieldsOfRow(t);
    ColumnsRebuild(if t.helpline.Some? then PyStr(t.helpline.value) else PyNone, t.Options());
  }
}
