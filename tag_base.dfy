/**
 * The legacy tag base class (precise_bbcode/tag_base.py): the checks its metaclass makes when a
 * subclass is defined, and `_options`, the keyword arguments a tag class hands to the legacy
 * parser's `add_renderer`.
 */
module TagBase {
  import opened Wrappers
  import opened Errors
  import opened Text
  import opened TagOptions
  import opened Placeholders
  import opened TagDefinition

  /**
   * A class statement whose metaclass is `TagBaseMetaclass`: its name, whether one of its bases
   * was built by the metaclass too, what `tag_name` resolves to on the new class (`None` when it
   * has no such attribute) and the class's own attributes, `vars(cls)`, in definition order.
   */
  datatype ClassStatement = ClassStatement(name: string, hasTagParent: bool, tagName: Option<PyValue>,
                                           attrs: Kwargs)

  /** `re.match('^[A-Za-z0-9]+$', s)`: `$` also matches before one final newline. */
  predicate AlnumTagName(s: string)
  {
    var t := Chomp(s);
    |t| > 0 && IsAlnumWord(t)
  }

  const NoTagName := "TagBase subclasses must have a tag_name attribute"
  const EmptyTagName := "The tag_name attribute associated with TagBase subclasses cannot be None"
  const BadTagName := "a tag name must be strictly composed of letters and numbers"

  /**
   * `TagBaseMetaclass.__new__`: `TagBase` itself is created unchecked; a subclass needs a truthy
   * `tag_name` (`ImproperlyConfigured` otherwise), a string (the regex match raises `TypeError`
   * on anything else) made of letters and digits (`ValueError` otherwise).
   */
  function NewTagClass(c: ClassStatement): (r: Result<(), Error>)
    ensures r.Ok? <==> !c.hasTagParent
                       || (c.tagName.Some? && c.tagName.value.PyStr? && AlnumTagName(c.tagName.value.s))
    ensures c.hasTagParent && (c.tagName.None? || !Truthy(c.tagName.value)) ==>
      r.Err? && r.error.ImproperlyConfigured?
    ensures c.hasTagParent && c.tagName.Some? && Truthy(c.tagName.value) && !c.tagName.value.PyStr? ==>
      r == Err(TypeError)
    ensures (c.hasTagParent && c.tagName.Some? && c.tagName.value.PyStr? && c.tagName.value.s != []
             && !AlnumTagName(c.tagName.value.s)) ==> r.Err? && r.error.ValueError?
  {
    if !c.hasTagParent then Ok(())
    else if c.tagName.None? then Err(ImproperlyConfigured(NoTagName))
    else if !Truthy(c.tagName.value) then
      Err(ImproperlyConfigured(EmptyTagName))
    else if !c.tagName.value.PyStr? then Err(TypeError)
    else if !AlnumTagName(c.tagName.value.s) then
      Err(ValueError(BadTagName))
    else Ok(())
  }

  /** The first `n` characters of `s` are letters or digits, and at most a newline follows. */
  predicate AcceptedLength(s: string, n: nat)
  {
    0 < n <= |s| && (n == |s| || (n == |s| - 1 && s[n] == '\n'))
    && forall i :: 0 <= i < n ==> IsAsciiAlnum(s[i])
  }

  /**
   * The accepted names are the non-empty runs of ASCII letters and digits, each optionally
   * followed by one newline.
   */
  lemma AlnumTagNameChars(s: string)
    ensures AlnumTagName(s) <==> exists n: nat :: AcceptedLength(s, n)
  {
    var t := Chomp(s);
    AlnumWordChars(t);
    if AlnumTagName(s) {
      assert forall i :: 0 <= i < |t| ==> s[i] == t[i];
      assert AcceptedLength(s, |t|);
    }
    if exists n: nat :: AcceptedLength(s, n) {
      var n: nat :| AcceptedLength(s, n);
      if n == |s| {
        assert IsAsciiAlnum(s[n - 1]) && !IsAsciiAlnum('\n');
        assert t == s;
      } else {
        assert t == s[..n];
      }
      assert forall i :: 0 <= i < |t| ==> t[i] == s[i];
      assert IsAlnumWord(t);
    }
  }

  /** The dunder entries `vars()` holds for the legacy `BBCodeTagOptions` class. */
  const OptionClassDunders: set<string> := {"__module__", "__init__", "__dict__", "__weakref__", "__doc__"}

  /** `key in vars(BBCodeTagOptions)`: an option attribute or one of the class's dunder entries. */
  predicate IsOptionClassVar(key: string)
  {
    AttributeNamed(key).Some? || key in OptionClassDunders
  }

  /** The test `_options` makes on each attribute name. */
  predicate IsOptionKey(key: string)
  {
    IsOptionClassVar(key) && !StartsWith(key, "__")
  }

  lemma DundersStartWithUnderscores(key: string)
    requires key in OptionClassDunders
    ensures StartsWith(key, "__")
  {
  }

  lemma AttrNameNoUnderscores(a: Attribute)
    ensures !StartsWith(AttrName(a), "__")
  {
    var n := AttrName(a);
    assert n[0] != '_';
  }

  /** The test keeps exactly the names of the options. */
  lemma OptionKeyIff(key: string)
    ensures IsOptionKey(key) <==> AttributeNamed(key).Some?
  {
    if key in OptionClassDunders {
      DundersStartWithUnderscores(key);
    }
    if AttributeNamed(key).Some? {
      AttrNameNoUnderscores(AttributeNamed(key).value);
    }
  }

  /** The attributes `_options` keeps, in order. */
  function OwnOptions(attrs: Kwargs): Kwargs
    decreases |attrs|
  {
    if attrs == [] then []
    else
      var last := attrs[|attrs| - 1];
      OwnOptions(attrs[..|attrs| - 1]) + (if IsOptionKey(last.0) then [last] else [])
  }

  /** No two attributes share a name, as in a class's `__dict__`. */
  predicate UniqueNames(attrs: Kwargs)
  {
    forall i, j :: 0 <= i < j < |attrs| ==> attrs[i].0 != attrs[j].0
  }

  /**
   * `TagBase._options()`: the class's own attributes named like a tag option, the dunder
   * entries left aside.
   */
  method Options(c: ClassStatement) returns (options: Kwargs)
    requires UniqueNames(c.attrs)
    ensures options == OwnOptions(c.attrs)
  {
    options := [];
    var i := 0;
    while i < |c.attrs|
      invariant 0 <= i <= |c.attrs|
      invariant options == OwnOptions(c.attrs[..i])
    {
      var (key, value) := c.attrs[i];
      assert c.attrs[..i + 1][..i] == c.attrs[..i];
      if IsOptionClassVar(key) && !StartsWith(key, "__") {
        options := options + [(key, value)];
      }
      i := i + 1;
    }
    assert c.attrs[..i] == c.attrs;
  }

  /** An entry is kept exactly when it is an attribute of the class named like an option. */
  lemma {:induction false} OwnOptionsMembers(attrs: Kwargs, p: (string, PyValue))
    ensures p in OwnOptions(attrs) <==> p in attrs && AttributeNamed(p.0).Some?
    decreases |attrs|
  {
    OptionKeyIff(p.0);
    if attrs != [] {
      var init := attrs[..|attrs| - 1];
      OwnOptionsMembers(init, p);
      assert attrs == init + [attrs[|attrs| - 1]];
    }
  }

  /** Distinct names stay distinct: the result is a dictionary's items. */
  lemma {:induction false} OwnOptionsUnique(attrs: Kwargs)
    requires UniqueNames(attrs)
    ensures UniqueNames(OwnOptions(attrs))
    decreases |attrs|
  {
    if attrs != [] {
      var init := attrs[..|attrs| - 1];
      var last := attrs[|attrs| - 1];
      assert UniqueNames(init);
      OwnOptionsUnique(init);
      forall q | q in OwnOptions(init)
        ensures q.0 != last.0
      {
        OwnOptionsMembers(init, q);
        var k :| 0 <= k < |init| && init[k] == q;
      }
    }
  }

  /**
   * A tag class that sets an option attribute itself installs the truth value of that attribute
   * in the legacy parser (`add_renderer(name, render, **_options())`).
   */
  lemma OptionsSet(c: ClassStatement, a: Attribute, i: nat)
    requires UniqueNames(c.attrs) && i < |c.attrs| && c.attrs[i].0 == AttrName(a)
    ensures Attr(ApplyKwargs(Defaults, OwnOptions(c.attrs)), a) == Some(Truthy(c.attrs[i].1))
  {
    var kw := OwnOptions(c.attrs);
    AttributeNamedComplete(a);
    OwnOptionsMembers(c.attrs, c.attrs[i]);
    OwnOptionsUnique(c.attrs);
    var k :| 0 <= k < |kw| && kw[k] == c.attrs[i];
    LastValueOnly(kw, AttrName(a), k);
    ApplyKwargsAttr(Defaults, kw, a);
  }

  /** An option the class does not set itself keeps the parser's default. */
  lemma OptionsUnset(c: ClassStatement, a: Attribute)
    requires forall i :: 0 <= i < |c.attrs| ==> c.attrs[i].0 != AttrName(a)
    ensures Attr(ApplyKwargs(Defaults, OwnOptions(c.attrs)), a) == Attr(Defaults, a)
  {
    var kw := OwnOptions(c.attrs);
    forall j | 0 <= j < |kw|
      ensures kw[j].0 != AttrName(a)
    {
      OwnOptionsMembers(c.attrs, kw[j]);
    }
    NoLastValue(kw, AttrName(a));
    ApplyKwargsAttr(Defaults, kw, a);
  }
}
