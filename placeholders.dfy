/**
 * Placeholders: the types a value inside a tag definition must satisfy (`BBCodePlaceholder` and
 * the six built-in placeholder classes). COLOR, NUMBER and SIMPLETEXT are hand-coded; URL, EMAIL
 * and TEXT use the abstract matchers.
 */
module Placeholders {
  import opened Wrappers
  import opened Text
  import opened Errors
  import opened Matchers

  /**
   * The string an anchored pattern `^...$` must match in full: Python's `$` also matches just
   * before a single trailing newline, so that newline is ignored.
   */
  function Chomp(s: string): (r: string)
    ensures r == s || (s == r + "\n")
  {
    if |s| > 0 && s[|s| - 1] == '\n' then s[..|s| - 1] else s
  }

  predicate IsLowerLetter(c: char) { 'a' <= c <= 'z' }

  predicate IsHexDigit(c: char) { IsAsciiDigit(c) || 'a' <= c <= 'f' || 'A' <= c <= 'F' }

  /** `[a-z]+|#[0-9abcdefABCDEF]{3,6}` matched in full. */
  predicate ColorBody(t: string)
  {
    (|t| > 0 && forall i :: 0 <= i < |t| ==> IsLowerLetter(t[i]))
    || (4 <= |t| <= 7 && t[0] == '#' && forall i :: 1 <= i < |t| ==> IsHexDigit(t[i]))
  }

  /** `re.search(_color_re, s)` succeeds. */
  predicate IsColor(s: string) { ColorBody(Chomp(s)) }

  /** Length of the run of ASCII digits at the head of `t`. */
  function DigitRun(t: string): (n: nat)
    ensures n <= |t|
  {
    if t == [] || !IsAsciiDigit(t[0]) then 0 else 1 + DigitRun(t[1..])
  }

  /** The run is all digits and stops at the first character that is not one. */
  lemma {:induction false} DigitRunSpec(t: string)
    ensures forall i :: 0 <= i < DigitRun(t) ==> IsAsciiDigit(t[i])
    ensures DigitRun(t) < |t| ==> !IsAsciiDigit(t[DigitRun(t)])
  {
    if t != [] && IsAsciiDigit(t[0]) {
      DigitRunSpec(t[1..]);
      forall i | 1 <= i < DigitRun(t)
        ensures IsAsciiDigit(t[i])
      {
        assert t[i] == t[1..][i - 1];
      }
    }
  }

  predicate AllAsciiDigits(t: string) { forall i :: 0 <= i < |t| ==> IsAsciiDigit(t[i]) }

  /** `\d+(?:(\.|,)\d+)?` matched in full. */
  predicate UnsignedNumber(t: string)
  {
    var n := DigitRun(t);
    n > 0 && (n == |t| || ((t[n] == '.' || t[n] == ',') && n + 1 < |t| && AllAsciiDigits(t[n + 1..])))
  }

  /** `[+-]?\d+(?:(\.|,)\d+)?` matched in full. */
  predicate NumberBody(t: string)
  {
    if |t| > 0 && (t[0] == '+' || t[0] == '-') then UnsignedNumber(t[1..]) else UnsignedNumber(t)
  }

  /** `re.search(_number_re, s)` succeeds. */
  predicate IsNumber(s: string) { NumberBody(Chomp(s)) }

  /** The class `[a-zA-Z0-9-+.,_ ]`. */
  predicate IsSimpleTextChar(c: char)
  {
    IsAsciiAlnum(c) || c == '-' || c == '+' || c == '.' || c == ',' || c == '_' || c == ' '
  }

  /** `re.search(_simpletext_re, s)` succeeds. */
  predicate IsSimpleText(s: string)
  {
    var t := Chomp(s);
    |t| > 0 && forall i :: 0 <= i < |t| ==> IsSimpleTextChar(t[i])
  }

  datatype PatternKind = UrlPattern | EmailPattern | TextPattern | SimpleTextPattern | ColorPattern | NumberPattern

  /** How a placeholder validates: by its `pattern`, by nothing, or by a user-written `validate`. */
  datatype Rule = Pattern(kind: PatternKind) | NoPattern | CustomValidate(key: string)

  datatype Placeholder = Placeholder(name: string, rule: Rule)

  /** `re.search(pattern, content)` returned a match. */
  predicate PatternSearch(env: Env, kind: PatternKind, s: string)
  {
    match kind
    case UrlPattern => UrlMatch(env, s).Some?
    case EmailPattern => env.emailSearch(s)
    case TextPattern => env.textSearch(s)
    case SimpleTextPattern => IsSimpleText(s)
    case ColorPattern => IsColor(s)
    case NumberPattern => IsNumber(s)
  }

  /**
   * `placeholder.validate(content, extra_context)`. A pattern is searched for in the content, so
   * a `None` content is a `TypeError`; without a pattern `NotImplementedError` is raised.
   */
  function Validate(env: Env, p: Placeholder, content: Option<string>, extra: string): (r: Result<bool, Error>)
    ensures p.rule.Pattern? ==> (r.Err? <==> content.None?)
    ensures p.rule.Pattern? && r.Err? ==> r.error == TypeError
    ensures p.rule.Pattern? && content.Some? ==> (r == Ok(true) <==> PatternSearch(env, p.rule.kind, content.value))
    ensures p.rule.NoPattern? ==> r == Err(NotImplemented)
  {
    match p.rule
    case Pattern(kind) => if content.None? then Err(TypeError) else Ok(PatternSearch(env, kind, content.value))
    case NoPattern => Err(NotImplemented)
    case CustomValidate(key) => env.customValidate(key, content, extra)
  }

  const UrlPlaceholder := Placeholder("url", Pattern(UrlPattern))
  const EmailPlaceholder := Placeholder("email", Pattern(EmailPattern))
  const TextPlaceholder := Placeholder("text", Pattern(TextPattern))
  const SimpleTextPlaceholder := Placeholder("simpletext", Pattern(SimpleTextPattern))
  const ColorPlaceholder := Placeholder("color", Pattern(ColorPattern))
  const NumberPlaceholder := Placeholder("number", Pattern(NumberPattern))

  const DefaultPlaceholders: seq<Placeholder> :=
    [UrlPlaceholder, EmailPlaceholder, TextPlaceholder, SimpleTextPlaceholder, ColorPlaceholder, NumberPlaceholder]

  lemma {:induction false} DigitRunOfDigits(a: string, rest: string)
    requires AllAsciiDigits(a)
    requires rest == [] || !IsAsciiDigit(rest[0])
    ensures DigitRun(a + rest) == |a|
    decreases |a|
  {
    if a == [] {
      assert a + rest == rest;
    } else {
      assert (a + rest)[1..] == a[1..] + rest;
      DigitRunOfDigits(a[1..], rest);
    }
  }

  lemma UnsignedAccepts(a: string, sep: string, b: string)
    requires |a| > 0 && AllAsciiDigits(a)
    requires (sep == "" && b == "") || ((sep == "." || sep == ",") && |b| > 0 && AllAsciiDigits(b))
    ensures UnsignedNumber(a + (sep + b))
  {
    var u := a + (sep + b);
    DigitRunOfDigits(a, sep + b);
    if sep != "" {
      assert u[|a|] == sep[0];
      assert u[|a| + 1..] == b;
    }
  }

  /** The unsigned part starts and ends with a digit. */
  lemma UnsignedEnds(a: string, sep: string, b: string)
    requires |a| > 0 && AllAsciiDigits(a)
    requires (sep == "" && b == "") || ((sep == "." || sep == ",") && |b| > 0 && AllAsciiDigits(b))
    ensures IsAsciiDigit((a + (sep + b))[0])
    ensures IsAsciiDigit((a + (sep + b))[|a + (sep + b)| - 1])
  {
    var u := a + (sep + b);
    assert u[0] == a[0];
    if b == [] {
      assert u[|u| - 1] == a[|a| - 1];
    } else {
      assert u[|u| - 1] == b[|b| - 1];
    }
  }

  /** An unsigned number that ends with a digit, with an optional sign in front, is a NUMBER. */
  lemma SignedNumber(sign: string, u: string)
    requires sign == "" || sign == "+" || sign == "-"
    requires UnsignedNumber(u) && IsAsciiDigit(u[0]) && IsAsciiDigit(u[|u| - 1])
    ensures IsNumber(sign + u)
  {
    var s := sign + u;
    assert s[|s| - 1] == u[|u| - 1];
    assert Chomp(s) == s;
    if sign == "" {
      assert s == u;
    } else {
      assert s[0] == sign[0] && s[1..] == u;
    }
  }

  /** The parts of a NUMBER: an optional sign, digits, and optionally '.' or ',' and more digits. */
  predicate NumberParts(sign: string, a: string, sep: string, b: string)
  {
    (sign == "" || sign == "+" || sign == "-")
    && |a| > 0 && AllAsciiDigits(a)
    && ((sep == "" && b == "") || ((sep == "." || sep == ",") && |b| > 0 && AllAsciiDigits(b)))
  }

  /**
   * NUMBER accepts an optional sign, a run of digits, and optionally a '.' or ',' followed by a
   * second run of digits.
   */
  lemma NumberAccepts(sign: string, a: string, sep: string, b: string)
    requires NumberParts(sign, a, sep, b)
    ensures IsNumber(sign + a + sep + b)
  {
    var u := a + (sep + b);
    assert sign + a + sep + b == sign + u;
    UnsignedAccepts(a, sep, b);
    UnsignedEnds(a, sep, b);
    SignedNumber(sign, u);
  }

  /** An unsigned number splits into its digits and its optional separator and second digits. */
  lemma UnsignedParts(u: string) returns (a: string, sep: string, b: string)
    requires UnsignedNumber(u)
    ensures NumberParts("", a, sep, b) && u == a + sep + b
  {
    var n := DigitRun(u);
    DigitRunSpec(u);
    a := u[..n];
    assert AllAsciiDigits(a) by {
      forall i | 0 <= i < |a| ensures IsAsciiDigit(a[i]) {
        assert a[i] == u[i];
      }
    }
    if n == |u| {
      sep, b := "", "";
      assert u == a + sep + b;
    } else {
      sep, b := [u[n]], u[n + 1..];
      assert sep == "." || sep == ",";
      assert u == a + sep + b;
    }
  }

  lemma SignAssoc(sign: string, a: string, sep: string, b: string)
    ensures sign + a + sep + b == sign + (a + sep + b)
  {
  }

  /** A text split after its first character. */
  lemma SplitFirst(t: string)
    requires |t| > 0
    ensures t == t[..1] + t[1..]
  {
  }

  /** Every string NUMBER accepts is, up to one final newline, an optional sign and the number's parts. */
  lemma NumberShape(s: string) returns (sign: string, a: string, sep: string, b: string)
    requires IsNumber(s)
    ensures NumberParts(sign, a, sep, b) && Chomp(s) == sign + a + sep + b
  {
    var t := Chomp(s);
    if |t| > 0 && (t[0] == '+' || t[0] == '-') {
      sign := t[..1];
      a, sep, b := UnsignedParts(t[1..]);
      SplitFirst(t);
    } else {
      sign := "";
      a, sep, b := UnsignedParts(t);
    }
    SignAssoc(sign, a, sep, b);
  }

  /** The parts of a NUMBER end with a digit. */
  lemma PartsEndWithDigit(sign: string, a: string, sep: string, b: string)
    requires NumberParts(sign, a, sep, b)
    ensures var t := sign + a + sep + b; |t| > 0 && IsAsciiDigit(t[|t| - 1])
  {
    var u := a + (sep + b);
    UnsignedEnds(a, sep, b);
    assert sign + a + sep + b == sign + u;
  }

  /** A text that ends with a digit has no final newline to ignore. */
  lemma ChompDigitEnd(t: string)
    requires |t| > 0 && IsAsciiDigit(t[|t| - 1])
    ensures Chomp(t) == t
  {
  }

  /** The parts of a NUMBER, with at most a final newline after them, are accepted. */
  lemma NumberOfParts(s: string, sign: string, a: string, sep: string, b: string)
    requires NumberParts(sign, a, sep, b) && Chomp(s) == sign + a + sep + b
    ensures IsNumber(s)
  {
    var t := sign + a + sep + b;
    NumberAccepts(sign, a, sep, b);
    PartsEndWithDigit(sign, a, sep, b);
    ChompDigitEnd(t);
    assert NumberBody(t);
  }

  /** NUMBER accepts exactly the strings made of its parts, with at most one final newline after them. */
  lemma NumberExactly(s: string)
    ensures IsNumber(s) <==> exists sign, a, sep, b :: NumberParts(sign, a, sep, b) && Chomp(s) == sign + a + sep + b
  {
    if IsNumber(s) {
      var sign, a, sep, b := NumberShape(s);
    }
    if exists sign, a, sep, b :: NumberParts(sign, a, sep, b) && Chomp(s) == sign + a + sep + b {
      var sign, a, sep, b :| NumberParts(sign, a, sep, b) && Chomp(s) == sign + a + sep + b;
      NumberOfParts(s, sign, a, sep, b);
    }
  }

  /** Integer NUMBER values of the placeholder tests. */
  lemma NumberIntegerExample()
    ensures IsNumber("12")
  {
    NumberAccepts("", "12", "", "");
    assert "" + "12" + "" + "" == "12";
  }

  lemma NumberNegativeExample()
    ensures IsNumber("-121")
  {
    NumberAccepts("-", "121", "", "");
    assert "-" + "121" + "" + "" == "-121";
  }

  /** NUMBER values with a decimal part, with either separator. */
  lemma NumberDecimalExample()
    ensures IsNumber("89.12")
  {
    NumberAccepts("", "89", ".", "12");
    assert "" + "89" + "." + "12" == "89.12";
  }

  /** The test value `-12,1990000000000000001`, written as its sign, runs and separator. */
  lemma NumberCommaExample()
    ensures IsNumber("-" + "12" + "," + "1990000000000000001")
  {
    NumberAccepts("-", "12", ",", "1990000000000000001");
  }

  /** A NUMBER needs at least one digit, and two separators are never accepted. */
  lemma NumberRejects()
    ensures !IsNumber("") && !IsNumber("hello") && !IsNumber("-") && !IsNumber("1.2.3")
  {
    assert DigitRun("hello") == 0;
    assert DigitRun("1.2.3") == 1 by { assert !IsAsciiDigit("1.2.3"[1]); }
    assert !AllAsciiDigits("1.2.3"[2..]) by { assert "1.2.3"[2..][1] == '.'; }
  }

  /** The COLOR names of the placeholder tests. */
  lemma ColorNameExamples()
    ensures IsColor("red") && IsColor("blue")
  {
  }

  /** The six-digit COLOR values of the placeholder tests. */
  lemma ColorHexExamples()
    ensures IsColor("#FFFFFF") && IsColor("#fff000") && IsColor("#3089a2")
  {
    assert IsColor("#FFFFFF") && IsColor("#fff000");
  }

  /** The three-digit COLOR value of the placeholder tests. */
  lemma ColorShortHexExample()
    ensures IsColor("#FFF")
  {
  }

  /** A value carrying extra CSS, an upper-case name and hex runs of the wrong length are rejected. */
  lemma ColorRejects()
    ensures !IsColor("#ff0000;font-size:100px;") && !IsColor("Red") && !IsColor("#FF") && !IsColor("#FFFFFFF")
  {
    assert !IsColor("#ff0000;font-size:100px;") by {
      assert !IsHexDigit("#ff0000;font-size:100px;"[7]);
    }
    assert !IsColor("Red") by {
      assert !IsLowerLetter("Red"[0]);
    }
    assert !IsColor("#FF") && !IsColor("#FFFFFFF");
  }

  /** Because of `$`, a single trailing newline does not make a value invalid. */
  lemma TrailingNewlineAccepted(s: string)
    requires ColorBody(s)
    ensures IsColor(s) && IsColor(s + "\n")
  {
    assert Chomp(s + "\n") == s;
  }

  /** SIMPLETEXT accepts the test value and rejects '!' and '#~'. */
  lemma SimpleTextExamples()
    ensures IsSimpleText("hello world") && IsSimpleText("slugify-u-21")
    ensures !IsSimpleText("hello world!") && !IsSimpleText("hello #~ world") && !IsSimpleText("")
  {
    assert !IsSimpleTextChar("hello world!"[11]);
    assert !IsSimpleTextChar("hello #~ world"[6]);
  }
}
