/**
 * `BBCodeTagOptions`: the rendering flags of one tag. The class attributes are the defaults and
 * the constructor stores `bool(value)` for every keyword argument. The current tag module and the
 * legacy parser carry identical copies of the class.
 */
module TagOptions {
  import opened Wrappers

  /** The Python values a keyword argument or class attribute can hold in this model. */
  datatype PyValue = PyNone | PyBool(b: bool) | PyInt(i: int) | PyStr(s: string)

  /** Python's `bool(value)`. */
  predicate Truthy(v: PyValue)
  {
    match v
    case PyNone => false
    case PyBool(b) => b
    case PyInt(i) => i != 0
    case PyStr(s) => s != []
  }

  datatype BBCodeTagOptions = BBCodeTagOptions(
    newlineCloses: bool,
    sameTagCloses: bool,
    endTagCloses: bool,
    standalone: bool,
    renderEmbedded: bool,
    transformNewlines: bool,
    escapeHtml: bool,
    replaceLinks: bool,
    strip: bool,
    swallowTrailingNewline: bool,
    /** `None` until a keyword argument sets it. */
    helpline: Option<bool>,
    displayOnEditor: bool)

  /** The class-level defaults. */
  const Defaults := BBCodeTagOptions(false, false, false, false, true, true, true, true, false, false, None, true)

  /** The attributes the class declares (its non-dunder `vars`). */
  datatype Attribute = NewlineCloses | SameTagCloses | EndTagCloses | Standalone | RenderEmbedded | TransformNewlines | EscapeHtml | ReplaceLinks | Strip | SwallowTrailingNewline | Helpline | DisplayOnEditor

  function AttrName(a: Attribute): string
  {
    match a
    case NewlineCloses => "newline_closes"
    case SameTagCloses => "same_tag_closes"
    case EndTagCloses => "end_tag_closes"
    case Standalone => "standalone"
    case RenderEmbedded => "render_embedded"
    case TransformNewlines => "transform_newlines"
    case EscapeHtml => "escape_html"
    case ReplaceLinks => "replace_links"
    case Strip => "strip"
    case SwallowTrailingNewline => "swallow_trailing_newline"
    case Helpline => "helpline"
    case DisplayOnEditor => "display_on_editor"
  }

  /** The declared attribute a name denotes, if any. */
  function AttributeNamed(name: string): (r: Option<Attribute>)
    ensures r.Some? ==> AttrName(r.value) == name
  {
    match name
    case "newline_closes" => Some(NewlineCloses)
    case "same_tag_closes" => Some(SameTagCloses)
    case "end_tag_closes" => Some(EndTagCloses)
    case "standalone" => Some(Standalone)
    case "render_embedded" => Some(RenderEmbedded)
    case "transform_newlines" => Some(TransformNewlines)
    case "escape_html" => Some(EscapeHtml)
    case "replace_links" => Some(ReplaceLinks)
    case "strip" => Some(Strip)
    case "swallow_trailing_newline" => Some(SwallowTrailingNewline)
    case "helpline" => Some(Helpline)
    case "display_on_editor" => Some(DisplayOnEditor)
    case _ => None
  }

  lemma AttributeNamedComplete(a: Attribute)
    ensures AttributeNamed(AttrName(a)) == Some(a)
  {
  }

  /** The value of an attribute; `None` for `helpline` while it is unset. */
  function Attr(o: BBCodeTagOptions, a: Attribute): Option<bool>
  {
    match a
    case NewlineCloses => Some(o.newlineCloses)
    case SameTagCloses => Some(o.sameTagCloses)
    case EndTagCloses => Some(o.endTagCloses)
    case Standalone => Some(o.standalone)
    case RenderEmbedded => Some(o.renderEmbedded)
    case TransformNewlines => Some(o.transformNewlines)
    case EscapeHtml => Some(o.escapeHtml)
    case ReplaceLinks => Some(o.replaceLinks)
    case Strip => Some(o.strip)
    case SwallowTrailingNewline => Some(o.swallowTrailingNewline)
    case Helpline => o.helpline
    case DisplayOnEditor => Some(o.displayOnEditor)
  }

  function SetAttr(o: BBCodeTagOptions, a: Attribute, b: bool): (r: BBCodeTagOptions)
    ensures Attr(r, a) == Some(b)
  {
    match a
    case NewlineCloses => o.(newlineCloses := b)
    case SameTagCloses => o.(sameTagCloses := b)
    case EndTagCloses => o.(endTagCloses := b)
    case Standalone => o.(standalone := b)
    case RenderEmbedded => o.(renderEmbedded := b)
    case TransformNewlines => o.(transformNewlines := b)
    case EscapeHtml => o.(escapeHtml := b)
    case ReplaceLinks => o.(replaceLinks := b)
    case Strip => o.(strip := b)
    case SwallowTrailingNewline => o.(swallowTrailingNewline := b)
    case Helpline => o.(helpline := Some(b))
    case DisplayOnEditor => o.(displayOnEditor := b)
  }

  /** Setting one attribute leaves every other attribute as it was. */
  lemma SetAttrOther(o: BBCodeTagOptions, a: Attribute, b: bool, other: Attribute)
    requires other != a
    ensures Attr(SetAttr(o, a, b), other) == Attr(o, other)
  {
    match a
    case NewlineCloses =>
    case SameTagCloses =>
    case EndTagCloses =>
    case Standalone =>
    case RenderEmbedded =>
    case TransformNewlines =>
    case EscapeHtml =>
    case ReplaceLinks =>
    case Strip =>
    case SwallowTrailingNewline =>
    case Helpline =>
    case DisplayOnEditor =>
  }

  /**
   * `setattr(self, name, b)`. A name the class does not declare becomes an instance attribute that
   * nothing reads, so the flags are unchanged.
   */
  function SetNamed(o: BBCodeTagOptions, name: string, b: bool): BBCodeTagOptions
  {
    match AttributeNamed(name)
    case Some(a) => SetAttr(o, a, b)
    case None => o
  }

  /** Keyword arguments, in order. */
  type Kwargs = seq<(string, PyValue)>

  /** The constructor's loop, as a fold from the left. */
  function ApplyKwargs(o: BBCodeTagOptions, kwargs: Kwargs): BBCodeTagOptions
    decreases |kwargs|
  {
    if kwargs == [] then o else ApplyKwargs(SetNamed(o, kwargs[0].0, Truthy(kwargs[0].1)), kwargs[1..])
  }

  /** `BBCodeTagOptions(**kwargs)`. */
  method New(kwargs: Kwargs) returns (o: BBCodeTagOptions)
    ensures o == ApplyKwargs(Defaults, kwargs)
    ensures kwargs == [] ==> o == Defaults
  {
    o := Defaults;
    for k := 0 to |kwargs|
      invariant ApplyKwargs(o, kwargs[k..]) == ApplyKwargs(Defaults, kwargs)
    {
      assert kwargs[k..][1..] == kwargs[k + 1..];
      o := SetNamed(o, kwargs[k].0, Truthy(kwargs[k].1));
    }
    assert kwargs[|kwargs|..] == [];
  }

  /** The value the last keyword argument named `name` carries, if any. */
  function LastValue(kwargs: Kwargs, name: string): Option<PyValue>
  {
    if kwargs == [] then None
    else match LastValue(kwargs[1..], name)
      case Some(v) => Some(v)
      case None => if kwargs[0].0 == name then Some(kwargs[0].1) else None
  }

  /** The value of the only keyword argument with a given name is the last one. */
  lemma {:induction false} LastValueOnly(kwargs: Kwargs, name: string, k: nat)
    requires k < |kwargs| && kwargs[k].0 == name
    requires forall j :: 0 <= j < |kwargs| && j != k ==> kwargs[j].0 != name
    ensures LastValue(kwargs, name) == Some(kwargs[k].1)
    decreases |kwargs|
  {
    var rest := kwargs[1..];
    if k == 0 {
      NoLastValue(rest, name);
    } else {
      assert forall j :: 0 <= j < |rest| && j != k - 1 ==> rest[j].0 == kwargs[j + 1].0;
      LastValueOnly(rest, name, k - 1);
    }
  }

  lemma {:induction false} NoLastValue(kwargs: Kwargs, name: string)
    requires forall j :: 0 <= j < |kwargs| ==> kwargs[j].0 != name
    ensures LastValue(kwargs, name).None?
    decreases |kwargs|
  {
    if kwargs != [] {
      assert forall j :: 0 <= j < |kwargs[1..]| ==> kwargs[1..][j] == kwargs[j + 1];
      NoLastValue(kwargs[1..], name);
    }
  }

  /**
   * Every declared attribute ends up as the truth value of the last keyword argument naming it,
   * and keeps its previous value when no keyword argument names it.
   */
  lemma {:induction false} ApplyKwargsAttr(o: BBCodeTagOptions, kwargs: Kwargs, a: Attribute)
    ensures Attr(ApplyKwargs(o, kwargs), a) ==
      match LastValue(kwargs, AttrName(a))
      case Some(v) => Some(Truthy(v))
      case None => Attr(o, a)
    decreases |kwargs|
  {
    if kwargs != [] {
      var o1 := SetNamed(o, kwargs[0].0, Truthy(kwargs[0].1));
      ApplyKwargsAttr(o1, kwargs[1..], a);
      if kwargs[0].0 == AttrName(a) {
        AttributeNamedComplete(a);
      } else if AttributeNamed(kwargs[0].0).Some? {
        SetAttrOther(o, AttributeNamed(kwargs[0].0).value, Truthy(kwargs[0].1), a);
      }
    }
  }

  /**
   * The defaults: `render_embedded`, `transform_newlines`, `escape_html`, `replace_links` and
   * `display_on_editor` are true, `helpline` is unset and every other flag is false.
   */
  lemma DefaultAttrs(a: Attribute)
    ensures Attr(Defaults, a) ==
      if a == Helpline then None
      else Some(a in {RenderEmbedded, TransformNewlines, EscapeHtml, ReplaceLinks, DisplayOnEditor})
  {
  }
}
