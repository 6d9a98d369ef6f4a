/**
 * The part of Python's `str.format(**kwargs)` the tag renderers use, and the brace-escaping
 * scheme of `_render_default`: double every brace of the format string, turn each mapped
 * `{{key}}` back into a replacement field, then format.
 */
module PyFormat {
  import opened Wrappers
  import opened Text
  import opened Errors

  /** A format dictionary in insertion order; `None` is Python's `None`, which formats as "None". */
  type FormatMap = seq<(string, Option<string>)>

  function Keys(m: FormatMap): seq<string>
  {
    if m == [] then [] else [m[0].0] + Keys(m[1..])
  }

  predicate HasKey(m: FormatMap, k: string)
  {
    exists i :: 0 <= i < |m| && m[i].0 == k
  }

  predicate DistinctKeys(m: FormatMap)
  {
    forall i, j :: 0 <= i < j < |m| ==> m[i].0 != m[j].0
  }

  /** The value stored under `k`. */
  function ValueOf(m: FormatMap, k: string): Option<string>
    requires HasKey(m, k)
  {
    if m[0].0 == k then m[0].1 else ValueOf(m[1..], k)
  }

  /** `format(value)` of a string or of `None`. */
  function Show(v: Option<string>): string
  {
    match v
    case Some(s) => s
    case None => "None"
  }

  function Prepend(p: string, r: Result<string, Error>): Result<string, Error>
  {
    match r
    case Ok(s) => Ok(p + s)
    case Err(e) => Err(e)
  }

  predicate IsFieldSeparator(c: char) { c == '.' || c == '[' || c == '!' || c == ':' }

  /** Length of the argument name at the head of a replacement field. */
  function ArgNameLen(field: string): (n: nat)
    ensures n <= |field|
    ensures forall i :: 0 <= i < n ==> !IsFieldSeparator(field[i])
    ensures n < |field| ==> IsFieldSeparator(field[n])
  {
    if field == [] || IsFieldSeparator(field[0]) then 0 else 1 + ArgNameLen(field[1..])
  }

  predicate AllDigits(s: string) { forall i :: 0 <= i < |s| ==> IsAsciiDigit(s[i]) }

  /**
   * One replacement field: an empty or numeric name refers to a positional argument (there are
   * none), a missing name raises `KeyError`, and attribute, index, conversion or format-spec
   * syntax after a known name is outside the model.
   */
  function FieldValue(field: string, m: FormatMap): Result<string, Error>
  {
    var n := ArgNameLen(field);
    var arg := field[..n];
    if AllDigits(arg) then Err(IndexError)
    else if !HasKey(m, arg) then Err(KeyError(arg))
    else if n < |field| then Err(FormatUnsupported(field))
    else Ok(Show(ValueOf(m, arg)))
  }

  /** `s.format(**m)`: "{{" and "}}" are literal braces, `{name}` is replaced, anything else is an error. */
  function Format(s: string, m: FormatMap): Result<string, Error>
    decreases |s|
  {
    if s == [] then Ok([])
    else if s[0] == '{' then
      if |s| >= 2 && s[1] == '{' then Prepend("{", Format(s[2..], m))
      else
        var j := Find(s, '}', 1);
        if j < 0 then Err(ValueError("expected '}' before end of string"))
        else if '{' in s[1..j] then Err(FormatUnsupported(s[1..j]))
        else match FieldValue(s[1..j], m)
          case Err(e) => Err(e)
          case Ok(v) => Prepend(v, Format(s[j + 1..], m))
    else if s[0] == '}' then
      if |s| >= 2 && s[1] == '}' then Prepend("}", Format(s[2..], m))
      else Err(ValueError("Single '}' encountered in format string"))
    else Prepend([s[0]], Format(s[1..], m))
  }

  /** `s.replace('{', '{{').replace('}', '}}')`. */
  function EscapeBraces(s: string): string
  {
    Replace(Replace(s, "{", "{{"), "}", "}}")
  }

  /** The restoring loop: `s = s.replace('{' + key + '}', key)` for each key in order. */
  function RestoreKeys(s: string, keys: seq<string>): string
    decreases |keys|
  {
    if keys == [] then s else RestoreKeys(Replace(s, "{" + keys[0] + "}", keys[0]), keys[1..])
  }

  /** A key Python's formatter reads back as exactly that name. */
  predicate PlainKey(k: string)
  {
    |k| > 0 && !AllDigits(k) && forall i :: 0 <= i < |k| ==> k[i] != '{' && k[i] != '}' && !IsFieldSeparator(k[i])
  }

  predicate PlainMap(m: FormatMap)
  {
    DistinctKeys(m) && forall i :: 0 <= i < |m| ==> PlainKey(m[i].0)
  }

  /** The key whose literal field `{key}` starts `s`, if any. */
  function KeyAt(s: string, m: FormatMap): (r: Option<string>)
    ensures r.Some? ==> |r.value| + 2 <= |s| && s[..|r.value| + 2] == "{" + r.value + "}" && HasKey(m, r.value)
  {
    if s == [] || s[0] != '{' then None
    else
      var j := Find(s, '}', 1);
      if j > 0 && HasKey(m, s[1..j]) then
        assert s[..j + 1] == "{" + s[1..j] + "}";
        Some(s[1..j])
      else None
  }

  /**
   * The reference meaning of a format string: scanning from the left, every literal `{key}` of a
   * mapped key is replaced by its value and every other character is kept as it is.
   */
  function Substitute(s: string, m: FormatMap): string
    decreases |s|
  {
    if s == [] then []
    else match KeyAt(s, m)
      case Some(k) => Show(ValueOf(m, k)) + Substitute(s[|k| + 2..], m)
      case None => [s[0]] + Substitute(s[1..], m)
  }

  // The proof that escaping, restoring and formatting computes Substitute goes through pieces:
  // a string is cut into literal characters and literal fields of mapped keys.

  datatype Piece = Lit(c: char) | Field(k: string)

  function Tokenize(s: string, m: FormatMap): seq<Piece>
    decreases |s|
  {
    if s == [] then []
    else match KeyAt(s, m)
      case Some(k) => [Field(k)] + Tokenize(s[|k| + 2..], m)
      case None => [Lit(s[0])] + Tokenize(s[1..], m)
  }

  /** The text a piece was cut from. */
  function RawPiece(p: Piece): string
  {
    match p
    case Lit(c) => [c]
    case Field(k) => "{" + k + "}"
  }

  function Raw(ps: seq<Piece>): string
  {
    if ps == [] then []
    else RawPiece(ps[0]) + Raw(ps[1..])
  }

  /** The text of the pieces once braces are doubled and the keys in `restored` are turned back into fields. */
  function ShowPiece(p: Piece, restored: set<string>): string
  {
    match p
    case Lit(c) => if c == '{' then "{{" else if c == '}' then "}}" else [c]
    case Field(k) => if k in restored then "{" + k + "}" else "{{" + k + "}}"
  }

  function Shown(ps: seq<Piece>, restored: set<string>): string
  {
    if ps == [] then [] else ShowPiece(ps[0], restored) + Shown(ps[1..], restored)
  }

  /** What a piece stands for once formatted. */
  function PieceValue(p: Piece, m: FormatMap): string
  {
    match p
    case Lit(c) => [c]
    case Field(k) => if HasKey(m, k) then Show(ValueOf(m, k)) else ""
  }

  function Values(ps: seq<Piece>, m: FormatMap): string
  {
    if ps == [] then [] else PieceValue(ps[0], m) + Values(ps[1..], m)
  }

  predicate PieceKeysMapped(ps: seq<Piece>, m: FormatMap)
  {
    forall i :: 0 <= i < |ps| ==> ps[i].Field? ==> HasKey(m, ps[i].k) && PlainKey(ps[i].k)
  }

  lemma HasKeyPlain(m: FormatMap, k: string)
    requires PlainMap(m) && HasKey(m, k)
    ensures PlainKey(k)
  {
  }

  lemma TokenizeFacts(s: string, m: FormatMap)
    requires PlainMap(m)
    ensures Raw(Tokenize(s, m)) == s
    ensures Values(Tokenize(s, m), m) == Substitute(s, m)
    ensures PieceKeysMapped(Tokenize(s, m), m)
  {
    TokenizeRaw(s, m);
    TokenizeValues(s, m);
    TokenizeKeys(s, m);
  }

  /** The pieces spell out the text they were cut from. */
  lemma {:induction false} TokenizeRaw(s: string, m: FormatMap)
    ensures Raw(Tokenize(s, m)) == s
    decreases |s|
  {
    if s != [] {
      match KeyAt(s, m)
      case Some(k) =>
        TokenizeRaw(s[|k| + 2..], m);
        SplitAfter(s, |k| + 2);
      case None =>
        TokenizeRaw(s[1..], m);
        SplitAfter(s, 1);
    }
  }

  /** The values of the pieces are the substitution of the text. */
  lemma {:induction false} TokenizeValues(s: string, m: FormatMap)
    ensures Values(Tokenize(s, m), m) == Substitute(s, m)
    decreases |s|
  {
    if s != [] {
      match KeyAt(s, m)
      case Some(k) =>
        TokenizeValues(s[|k| + 2..], m);
      case None =>
        TokenizeValues(s[1..], m);
    }
  }

  /** Every field piece names a mapped, plain key. */
  lemma {:induction false} TokenizeKeys(s: string, m: FormatMap)
    requires PlainMap(m)
    ensures PieceKeysMapped(Tokenize(s, m), m)
    decreases |s|
  {
    if s != [] {
      match KeyAt(s, m)
      case Some(k) =>
        TokenizeKeys(s[|k| + 2..], m);
        HasKeyPlain(m, k);
      case None =>
        TokenizeKeys(s[1..], m);
    }
  }

  /** Doubling braces works character by character. */
  lemma EscapeBracesConcat(a: string, b: string)
    ensures EscapeBraces(a + b) == EscapeBraces(a) + EscapeBraces(b)
  {
    ReplaceCharConcat(a, b, '{', "{{");
    ReplaceCharConcat(Replace(a, "{", "{{"), Replace(b, "{", "{{"), '}', "}}");
  }

  lemma EscapeBracesFree(k: string)
    requires forall i :: 0 <= i < |k| ==> k[i] != '{' && k[i] != '}'
    ensures EscapeBraces(k) == k
  {
    ReplaceCharAbsent(k, '{', "{{");
    ReplaceCharAbsent(k, '}', "}}");
  }

  lemma EscapeBracesChar(c: char)
    ensures EscapeBraces([c]) == ShowPiece(Lit(c), {})
  {
    ReplaceOneChar(c, '{', "{{");
    if c == '{' {
      ReplaceCharAbsent("{{", '}', "}}");
    } else {
      ReplaceOneChar(c, '}', "}}");
    }
  }

  lemma {:induction false} EscapeBracesPieces(ps: seq<Piece>, m: FormatMap)
    requires PieceKeysMapped(ps, m)
    ensures EscapeBraces(Raw(ps)) == Shown(ps, {})
  {
    if ps == [] {
      ReplaceCharAbsent([], '{', "{{");
      ReplaceCharAbsent([], '}', "}}");
    } else {
      EscapeBracesConcat(RawPiece(ps[0]), Raw(ps[1..]));
      PieceKeysTail(ps, m);
      EscapeBracesPieces(ps[1..], m);
      EscapeBracesPiece(ps[0], m);
    }
  }

  lemma PieceKeysTail(ps: seq<Piece>, m: FormatMap)
    requires ps != [] && PieceKeysMapped(ps, m)
    ensures PieceKeysMapped(ps[1..], m)
    ensures ps[0].Field? ==> PlainKey(ps[0].k)
  {
    forall i | 0 <= i < |ps[1..]| && ps[1..][i].Field?
      ensures HasKey(m, ps[1..][i].k) && PlainKey(ps[1..][i].k)
    {
      assert ps[1..][i] == ps[i + 1];
    }
  }

  /** Doubling the braces of one piece gives its shown form with nothing restored. */
  lemma EscapeBracesPiece(p: Piece, m: FormatMap)
    requires p.Field? ==> PlainKey(p.k)
    ensures EscapeBraces(RawPiece(p)) == ShowPiece(p, {})
  {
    match p
    case Lit(c) => EscapeBracesChar(c);
    case Field(k) =>
      EscapeBracesConcat("{", k + "}");
      EscapeBracesConcat(k, "}");
      EscapeBracesChar('{');
      EscapeBracesChar('}');
      EscapeBracesFree(k);
      assert "{" + k + "}" == "{" + (k + "}");
  }

  /** Replace leaves a prefix alone when no occurrence of the pattern starts inside it. */
  lemma {:induction false} ReplaceSkip(x: string, t: string, pat: string, rep: string)
    requires |pat| > 0
    requires forall i :: 0 <= i < |x| ==> !MatchAt(x + t, pat, i)
    ensures Replace(x + t, pat, rep) == x + Replace(t, pat, rep)
    decreases |x|
  {
    if x == [] {
      assert x + t == t;
    } else {
      SkipHead(x, t, pat, rep);
      SkipTail(x, t, pat);
      ReplaceSkip(x[1..], t, pat, rep);
      ConsAppend(x, Replace(t, pat, rep));
    }
  }

  lemma SkipHead(x: string, t: string, pat: string, rep: string)
    requires |pat| > 0 && x != [] && !MatchAt(x + t, pat, 0)
    ensures Replace(x + t, pat, rep) == [x[0]] + Replace(x[1..] + t, pat, rep)
  {
    var s := x + t;
    assert s[0..] == s;
    ReplaceKeepsHead(s, pat, rep);
    assert s[1..] == x[1..] + t;
  }

  lemma SkipTail(x: string, t: string, pat: string)
    requires x != [] && forall i :: 0 <= i < |x| ==> !MatchAt(x + t, pat, i)
    ensures forall i :: 0 <= i < |x[1..]| ==> !MatchAt(x[1..] + t, pat, i)
  {
    forall i | 0 <= i < |x[1..]|
      ensures !MatchAt(x[1..] + t, pat, i)
    {
      assert !MatchAt(x + t, pat, i + 1);
      assert (x[1..] + t)[i..] == (x + t)[i + 1..];
    }
  }

  /** The first '}' after an opening brace closes the brace-free name that follows it. */
  lemma FirstClose(s: string, k: string)
    requires forall i :: 0 <= i < |k| ==> k[i] != '}'
    requires StartsWith(s, "{" + k + "}")
    ensures Find(s, '}', 1) == |k| + 1
  {
    assert s[..|k| + 2] == "{" + k + "}";
    assert s[|k| + 1] == '}';
    assert forall i :: 1 <= i < |k| + 1 ==> s[i] == k[i - 1];
    FindAt(s, '}', 1, |k| + 1);
  }

  /** Two literal fields of brace-free names only overlap at their start when the names are equal. */
  lemma FieldStartsUnique(k: string, k2: string, y: string)
    requires forall i :: 0 <= i < |k| ==> k[i] != '}'
    requires forall i :: 0 <= i < |k2| ==> k2[i] != '}'
    requires StartsWith("{" + k2 + "}" + y, "{" + k + "}")
    ensures k == k2
  {
    var a := "{" + k2 + "}" + y;
    FirstClose(a, k);
    assert StartsWith(a, "{" + k2 + "}") by { assert a[..|k2| + 2] == "{" + k2 + "}"; }
    FirstClose(a, k2);
    assert a[..|k| + 2] == "{" + k + "}";
    assert k == a[1..|k| + 1] == k2;
  }

  /** When the shown pieces start with a brace-free name and '}', so does the raw text. */
  lemma {:induction false} ShownPrefix(ps: seq<Piece>, restored: set<string>, k: string)
    requires forall i :: 0 <= i < |k| ==> k[i] != '{' && k[i] != '}'
    requires StartsWith(Shown(ps, restored), k + "}")
    ensures StartsWith(Raw(ps), k + "}")
    decreases |k|
  {
    var sh := Shown(ps, restored);
    assert sh[0] == (k + "}")[0];
    if ps != [] {
      assert sh == ShowPiece(ps[0], restored) + Shown(ps[1..], restored);
      match ps[0]
      case Field(k2) =>
      case Lit(c) =>
        if k == [] {
          assert c == '}';
          assert Raw(ps) == "}" + Raw(ps[1..]);
        } else {
          assert c == k[0];
          assert sh == [c] + Shown(ps[1..], restored);
          assert StartsWith(Shown(ps[1..], restored), k[1..] + "}") by {
            assert (k + "}")[1..] == k[1..] + "}";
          }
          ShownPrefix(ps[1..], restored, k[1..]);
          assert Raw(ps) == [c] + Raw(ps[1..]);
          assert k + "}" == [c] + (k[1..] + "}");
        }
    }
  }

  /** The field of a mapped key at the head of the input is always taken as a field. */
  lemma KeyAtFindsField(s: string, m: FormatMap, k: string)
    requires PlainMap(m) && HasKey(m, k)
    requires |s| > 0 && s[0] == '{' && StartsWith(s[1..], k + "}")
    ensures KeyAt(s, m) == Some(k)
  {
    HasKeyPlain(m, k);
    assert s[..|k| + 2] == "{" + k + "}" by {
      assert s[1..][..|k| + 1] == k + "}";
    }
    FirstClose(s, k);
    assert s[1..|k| + 1] == k;
  }

  /** A field already restored is skipped by the pass of another key. */
  lemma RestoreRestoredField(k: string, k2: string, t: string)
    requires PlainKey(k) && PlainKey(k2) && k != k2
    ensures Replace("{" + k2 + "}" + t, "{" + k + "}", k) == "{" + k2 + "}" + Replace(t, "{" + k + "}", k)
  {
    var pat := "{" + k + "}";
    var x := "{" + k2 + "}";
    forall i | 0 <= i < |x|
      ensures !MatchAt(x + t, pat, i)
    {
      if i == 0 {
        assert (x + t)[0..] == "{" + k2 + "}" + t;
        if StartsWith((x + t)[i..], pat) { FieldStartsUnique(k, k2, t); }
      } else {
        assert (x + t)[i] != '{';
      }
    }
    ReplaceSkip(x, t, pat, k);
  }

  /** The pass of `k` turns its doubled field into a replacement field. */
  lemma RestoreOwnField(k: string, t: string)
    requires PlainKey(k)
    ensures Replace("{{" + k + "}}" + t, "{" + k + "}", k) == "{" + k + "}" + Replace(t, "{" + k + "}", k)
  {
    var pat := "{" + k + "}";
    var z := "}" + t;
    DoubledFieldShape(k, t);
    BraceBeforeField(k, z);
    ReplaceSkip("{", pat + z, pat, k);
    ReplaceMatchHead(pat, z, k);
    MismatchAt(z, pat, 0, 0);
    ReplaceSkip("}", t, pat, k);
    FieldShape(k, Replace(t, pat, k));
  }

  lemma DoubledFieldShape(k: string, t: string)
    ensures "{{" + k + "}}" + t == "{" + (("{" + k + "}") + ("}" + t))
  {
  }

  lemma FieldShape(k: string, r: string)
    ensures "{" + (k + ("}" + r)) == "{" + k + "}" + r
  {
  }

  /** No field of a plain key starts at a '{' that is followed by another '{'. */
  lemma BraceBeforeField(k: string, z: string)
    requires PlainKey(k)
    ensures forall i :: 0 <= i < |"{"| ==> !MatchAt("{" + (("{" + k + "}") + z), "{" + k + "}", i)
  {
    MismatchAt("{" + (("{" + k + "}") + z), "{" + k + "}", 0, 1);
  }

  /** The doubled field of another key is skipped. */
  lemma RestoreOtherField(k: string, k2: string, t: string)
    requires PlainKey(k) && PlainKey(k2) && k != k2
    ensures Replace("{{" + k2 + "}}" + t, "{" + k + "}", k) == "{{" + k2 + "}}" + Replace(t, "{" + k + "}", k)
  {
    var pat := "{" + k + "}";
    var x := "{{" + k2 + "}}";
    forall i | 0 <= i < |x|
      ensures !MatchAt(x + t, pat, i)
    {
      if i == 0 {
        assert (x + t)[1] == '{';
      } else if i == 1 {
        assert (x + t)[1..] == "{" + k2 + "}" + ("}" + t);
        if StartsWith((x + t)[i..], pat) { FieldStartsUnique(k, k2, "}" + t); }
      } else {
        assert (x + t)[i] != '{';
      }
    }
    ReplaceSkip(x, t, pat, k);
  }

  /** The restoring step on a field piece followed by text `t`. */
  lemma RestoreFieldStep(k: string, k2: string, t: string, restored: set<string>)
    requires PlainKey(k) && PlainKey(k2) && k !in restored
    ensures Replace(ShowPiece(Field(k2), restored) + t, "{" + k + "}", k)
         == ShowPiece(Field(k2), restored + {k}) + Replace(t, "{" + k + "}", k)
  {
    if k2 in restored {
      RestoreRestoredField(k, k2, t);
    } else if k2 == k {
      RestoreOwnField(k, t);
    } else {
      RestoreOtherField(k, k2, t);
    }
  }

  /** The restoring step on a literal character that does not start a mapped field. */
  lemma RestoreLitStep(s: string, m: FormatMap, restored: set<string>, k: string)
    requires PlainMap(m) && HasKey(m, k) && |s| > 0 && KeyAt(s, m).None?
    ensures Replace(ShowPiece(Lit(s[0]), restored) + Shown(Tokenize(s[1..], m), restored), "{" + k + "}", k)
         == ShowPiece(Lit(s[0]), restored) + Replace(Shown(Tokenize(s[1..], m), restored), "{" + k + "}", k)
  {
    var pat := "{" + k + "}";
    var t := Shown(Tokenize(s[1..], m), restored);
    var x := ShowPiece(Lit(s[0]), restored);
    HasKeyPlain(m, k);
    if s[0] == '{' {
      OpenBraceNoField(s, m, restored, k);
    }
    LitNoMatch(s[0], restored, t, k);
    ReplaceSkip(x, t, pat, k);
  }

  /**
   * No field of a plain key starts inside the shown form of a literal character, given that
   * none starts at the second brace of a doubled '{'.
   */
  lemma LitNoMatch(c: char, restored: set<string>, t: string, k: string)
    requires PlainKey(k)
    requires c == '{' ==> !MatchAt(ShowPiece(Lit(c), restored) + t, "{" + k + "}", 1)
    ensures forall i :: 0 <= i < |ShowPiece(Lit(c), restored)| ==> !MatchAt(ShowPiece(Lit(c), restored) + t, "{" + k + "}", i)
  {
    var x := ShowPiece(Lit(c), restored);
    var pat := "{" + k + "}";
    forall i | 0 <= i < |x|
      ensures !MatchAt(x + t, pat, i)
    {
      if c != '{' {
        assert (x + t)[i] == x[i] != '{';
        MismatchAt(x + t, pat, i, 0);
      } else if i == 0 {
        assert (x + t)[1] == '{' != pat[1];
        MismatchAt(x + t, pat, 0, 1);
      }
    }
  }

  /** A '{' that does not start a mapped field is not followed, once shown, by such a field's name and '}'. */
  lemma OpenBraceNoField(s: string, m: FormatMap, restored: set<string>, k: string)
    requires PlainMap(m) && HasKey(m, k) && |s| > 0 && KeyAt(s, m).None? && s[0] == '{'
    ensures !MatchAt(ShowPiece(Lit(s[0]), restored) + Shown(Tokenize(s[1..], m), restored), "{" + k + "}", 1)
  {
    var pat := "{" + k + "}";
    var t := Shown(Tokenize(s[1..], m), restored);
    assert ShowPiece(Lit(s[0]), restored) == "{{";
    if MatchAt("{{" + t, pat, 1) {
      HasKeyPlain(m, k);
      BraceMatch(t, k);
      TokenizeFacts(s[1..], m);
      ShownPrefix(Tokenize(s[1..], m), restored, k);
      KeyAtFindsField(s, m, k);
    }
  }

  /** A field found just after a first '{' means the text after "{{" starts with the name and '}'. */
  lemma BraceMatch(t: string, k: string)
    requires MatchAt("{{" + t, "{" + k + "}", 1)
    ensures StartsWith(t, k + "}")
  {
    var pat := "{" + k + "}";
    var u := ("{{" + t)[1..];
    assert u == "{" + t;
    assert |k| + 1 <= |t|;
    forall j | 0 <= j < |k| + 1
      ensures t[j] == (k + "}")[j]
    {
      assert u[..|pat|][j + 1] == pat[j + 1];
    }
    assert t[..|k| + 1] == k + "}";
  }

  /** One pass of the restoring loop turns the doubled field of `k` back into a replacement field. */
  lemma {:induction false} RestorePass(s: string, m: FormatMap, restored: set<string>, k: string)
    requires PlainMap(m) && HasKey(m, k) && k !in restored
    ensures Replace(Shown(Tokenize(s, m), restored), "{" + k + "}", k) == Shown(Tokenize(s, m), restored + {k})
    decreases |s|
  {
    if s != [] {
      HasKeyPlain(m, k);
      match KeyAt(s, m)
      case Some(k2) =>
        var rest := s[|k2| + 2..];
        RestorePass(rest, m, restored, k);
        HasKeyPlain(m, k2);
        RestoreFieldStep(k, k2, Shown(Tokenize(rest, m), restored), restored);
      case None =>
        RestorePass(s[1..], m, restored, k);
        RestoreLitStep(s, m, restored, k);
    }
  }

  function KeySet(keys: seq<string>): (r: set<string>)
    ensures forall k :: k in r <==> k in keys
  {
    if keys == [] then {} else {keys[0]} + KeySet(keys[1..])
  }

  lemma {:induction false} KeysFacts(m: FormatMap)
    ensures |Keys(m)| == |m| && forall i :: 0 <= i < |m| ==> Keys(m)[i] == m[i].0
  {
    if m != [] {
      KeysFacts(m[1..]);
    }
  }

  /** The whole restoring loop, over distinct mapped keys none of which is restored yet. */
  lemma {:induction false} RestoreAll(s: string, m: FormatMap, keys: seq<string>, restored: set<string>)
    requires PlainMap(m)
    requires forall i :: 0 <= i < |keys| ==> HasKey(m, keys[i]) && keys[i] !in restored
    requires forall i, j :: 0 <= i < j < |keys| ==> keys[i] != keys[j]
    ensures RestoreKeys(Shown(Tokenize(s, m), restored), keys) == Shown(Tokenize(s, m), restored + KeySet(keys))
    decreases |keys|
  {
    if keys != [] {
      var k := keys[0];
      RestorePass(s, m, restored, k);
      assert forall i :: 0 <= i < |keys[1..]| ==> keys[1..][i] == keys[i + 1];
      RestoreAll(s, m, keys[1..], restored + {k});
      assert RestoreKeys(Shown(Tokenize(s, m), restored), keys)
          == RestoreKeys(Shown(Tokenize(s, m), restored + {k}), keys[1..]);
      assert restored + {k} + KeySet(keys[1..]) == restored + KeySet(keys);
    } else {
      assert restored + KeySet(keys) == restored;
    }
  }

  /** Formatting one shown piece. */
  lemma FormatPiece(p: Piece, rest: string, m: FormatMap, restored: set<string>)
    requires PlainMap(m)
    requires p.Field? ==> HasKey(m, p.k) && p.k in restored
    ensures Format(ShowPiece(p, restored) + rest, m)
         == Prepend(PieceValue(p, m), Format(rest, m))
  {
    var s := ShowPiece(p, restored) + rest;
    match p
    case Lit(c) =>
      if c == '{' {
        assert s[2..] == rest;
      } else if c == '}' {
        assert s[2..] == rest;
      } else {
        assert s[1..] == rest;
      }
    case Field(k) =>
      HasKeyPlain(m, k);
      assert s == "{" + k + "}" + rest;
      assert s[1] == k[0];
      FirstClose(s, k) by { assert s[..|k| + 2] == "{" + k + "}"; }
      assert s[1..|k| + 1] == k;
      assert s[|k| + 2..] == rest;
      assert ArgNameLen(k) == |k|;
      assert k[..|k|] == k;
  }

  /** Formatting pieces whose fields are all restored replaces each field by its value. */
  lemma {:induction false} FormatShownAll(ps: seq<Piece>, m: FormatMap, restored: set<string>)
    requires PlainMap(m) && PieceKeysMapped(ps, m)
    requires forall i :: 0 <= i < |ps| ==> ps[i].Field? ==> ps[i].k in restored
    ensures Format(Shown(ps, restored), m) == Ok(Values(ps, m))
  {
    if ps != [] {
      assert PieceKeysMapped(ps[1..], m) by {
        forall i | 0 <= i < |ps[1..]| && ps[1..][i].Field?
          ensures HasKey(m, ps[1..][i].k) && PlainKey(ps[1..][i].k)
        {
          assert ps[1..][i] == ps[i + 1];
        }
      }
      assert forall i :: 0 <= i < |ps[1..]| ==> ps[1..][i] == ps[i + 1];
      FormatShownAll(ps[1..], m, restored);
      assert ps[0].Field? ==> HasKey(m, ps[0].k) && ps[0].k in restored;
      FormatPiece(ps[0], Shown(ps[1..], restored), m, restored);
    }
  }

  /**
   * The brace-escaping scheme is sound: for a dictionary of plain, distinct keys, doubling the
   * braces of a format string, restoring `{key}` for every key in order and formatting yields
   * exactly the literal substitution of the keys' values, whatever other braces the string holds.
   */
  lemma BraceEscapingFormatsLiterally(s: string, m: FormatMap)
    requires PlainMap(m)
    ensures Format(RestoreKeys(EscapeBraces(s), Keys(m)), m) == Ok(Substitute(s, m))
  {
    var ps := Tokenize(s, m);
    TokenizeFacts(s, m);
    EscapeBracesPieces(ps, m);
    KeysFacts(m);
    assert {} + KeySet(Keys(m)) == KeySet(Keys(m));
    forall i | 0 <= i < |Keys(m)|
      ensures HasKey(m, Keys(m)[i])
    {
      assert Keys(m)[i] == m[i].0;
    }
    RestoreAll(s, m, Keys(m), {});
    forall i | 0 <= i < |ps| && ps[i].Field?
      ensures ps[i].k in KeySet(Keys(m))
    {
      var j :| 0 <= j < |m| && m[j].0 == ps[i].k;
      assert Keys(m)[j] == ps[i].k;
    }
    FormatShownAll(ps, m, KeySet(Keys(m)));
  }

  // Concrete strings: substitution and formatting of text around single fields.

  /** Text without '{' is its own substitution. */
  lemma {:induction false} SubstituteConcatPlain(pre: string, rest: string, m: FormatMap)
    requires '{' !in pre
    ensures Substitute(pre + rest, m) == pre + Substitute(rest, m)
    decreases |pre|
  {
    if pre == [] {
      assert pre + rest == rest;
    } else {
      assert (pre + rest)[0] == pre[0];
      assert (pre + rest)[1..] == pre[1..] + rest;
      SubstituteConcatPlain(pre[1..], rest, m);
    }
  }

  /** Text without braces formats to itself. */
  lemma {:induction false} FormatConcatPlain(pre: string, rest: string, m: FormatMap)
    requires '{' !in pre && '}' !in pre
    ensures Format(pre + rest, m) == Prepend(pre, Format(rest, m))
    decreases |pre|
  {
    if pre == [] {
      assert pre + rest == rest;
      match Format(rest, m)
      case Ok(v) => assert [] + v == v;
      case Err(_) =>
    } else {
      assert (pre + rest)[0] == pre[0];
      assert (pre + rest)[1..] == pre[1..] + rest;
      FormatConcatPlain(pre[1..], rest, m);
      match Format(rest, m)
      case Ok(v) => assert [pre[0]] + (pre[1..] + v) == pre + v;
      case Err(_) =>
    }
  }

  /** A literal field of a mapped brace-free key is replaced by its value. */
  lemma SubstituteField(k: string, rest: string, m: FormatMap)
    requires HasKey(m, k) && '}' !in k && '{' !in k
    ensures Substitute("{" + k + "}" + rest, m) == Show(ValueOf(m, k)) + Substitute(rest, m)
  {
    var s := "{" + k + "}" + rest;
    assert StartsWith(s, "{" + k + "}") by { assert s[..|k| + 2] == "{" + k + "}"; }
    FirstClose(s, k);
    assert s[1..|k| + 1] == k;
    assert s[|k| + 2..] == rest;
  }

  /** A replacement field of a plain key formats to the key's value. */
  lemma FormatField(k: string, rest: string, m: FormatMap)
    requires HasKey(m, k) && PlainKey(k)
    ensures Format("{" + k + "}" + rest, m) == Prepend(Show(ValueOf(m, k)), Format(rest, m))
  {
    var s := "{" + k + "}" + rest;
    assert StartsWith(s, "{" + k + "}") by { assert s[..|k| + 2] == "{" + k + "}"; }
    FirstClose(s, k);
    assert s[1] == k[0];
    assert s[1..|k| + 1] == k;
    assert s[|k| + 2..] == rest;
    assert ArgNameLen(k) == |k|;
    assert k[..|k|] == k;
  }

  /** `pre{k}post` substitutes to `pre`, the value of `k`, then `post`. */
  lemma SubstituteOneField(pre: string, k: string, post: string, m: FormatMap)
    requires HasKey(m, k) && '}' !in k && '{' !in k && '{' !in pre && '{' !in post
    ensures Substitute(pre + "{" + k + "}" + post, m) == pre + Show(ValueOf(m, k)) + post
  {
    var field := "{" + k + "}" + post;
    var v := Show(ValueOf(m, k));
    assert pre + "{" + k + "}" + post == pre + field;
    assert Substitute(pre + field, m) == pre + Substitute(field, m) by {
      SubstituteConcatPlain(pre, field, m);
    }
    assert Substitute(field, m) == v + post by {
      SubstituteField(k, post, m);
      SubstitutePlain(post, m);
    }
    assert pre + (v + post) == pre + v + post;
  }

  lemma SubstitutePlain(s: string, m: FormatMap)
    requires '{' !in s
    ensures Substitute(s, m) == s
  {
    SubstituteConcatPlain(s, [], m);
    assert s + [] == s;
  }

  /** `pre{k}post` formats to `pre`, the value of `k`, then `post`, when `pre` and `post` hold no braces. */
  lemma FormatOneField(pre: string, k: string, post: string, m: FormatMap)
    requires HasKey(m, k) && PlainKey(k)
    requires '{' !in pre && '}' !in pre && '{' !in post && '}' !in post
    ensures Format(pre + "{" + k + "}" + post, m) == Ok(pre + Show(ValueOf(m, k)) + post)
  {
    var field := "{" + k + "}" + post;
    var v := Show(ValueOf(m, k));
    assert pre + "{" + k + "}" + post == pre + field;
    assert Format(post, m) == Ok(post) by {
      FormatConcatPlain(post, [], m);
      assert post + [] == post;
    }
    FormatField(k, post, m);
    assert Format(field, m) == Ok(v + post);
    FormatConcatPlain(pre, field, m);
    assert pre + (v + post) == pre + v + post;
  }

  lemma FieldsAssoc(pre: string, k1: string, mid: string, k2: string, post: string)
    ensures pre + "{" + k1 + "}" + mid + "{" + k2 + "}" + post == pre + ("{" + k1 + "}" + (mid + "{" + k2 + "}" + post))
  {
  }

  lemma PiecesAssoc(pre: string, v1: string, mid: string, v2: string, post: string)
    ensures pre + (v1 + (mid + v2 + post)) == pre + v1 + mid + v2 + post
  {
  }

  /** `pre{k1}mid{k2}post` formats to the text with both fields replaced by their values, when the literal parts hold no braces. */
  lemma FormatTwoFields(pre: string, k1: string, mid: string, k2: string, post: string, m: FormatMap)
    requires HasKey(m, k1) && PlainKey(k1) && HasKey(m, k2) && PlainKey(k2)
    requires '{' !in pre && '}' !in pre && '{' !in mid && '}' !in mid && '{' !in post && '}' !in post
    ensures Format(pre + "{" + k1 + "}" + mid + "{" + k2 + "}" + post, m)
         == Ok(pre + Show(ValueOf(m, k1)) + mid + Show(ValueOf(m, k2)) + post)
  {
    var tail := mid + "{" + k2 + "}" + post;
    var v1, v2 := Show(ValueOf(m, k1)), Show(ValueOf(m, k2));
    FormatOneField(mid, k2, post, m);
    FormatField(k1, tail, m);
    FormatConcatPlain(pre, "{" + k1 + "}" + tail, m);
    FieldsAssoc(pre, k1, mid, k2, post);
    PiecesAssoc(pre, v1, mid, v2, post);
  }
}
