/**
 * The two placeholder regexes of the current tag module, hand-coded: `placeholder_re`, which
 * finds the `{KEY}` fields of a definition string, and `placeholder_content_re`, which splits a
 * key into its type name, its digits and its `=extra` context.
 */
module PlaceholderSyntax {
  import opened Wrappers
  import opened Text
  import opened PyFormat
  import opened Placeholders

  /** The class `[^\s\[\]\{\}=]`. */
  predicate IsKeyChar(c: char)
  {
    !IsSpace(c) && c != '[' && c != ']' && c != '{' && c != '}' && c != '='
  }

  /** Length of the run of ASCII letters at the head of `t`. */
  function LetterRun(t: string): (n: nat)
    ensures n <= |t|
  {
    if t == [] || !IsAsciiLetter(t[0]) then 0 else 1 + LetterRun(t[1..])
  }

  /** The run is all letters and stops at the first character that is not one. */
  lemma {:induction false} LetterRunSpec(t: string)
    ensures forall i :: 0 <= i < LetterRun(t) ==> IsAsciiLetter(t[i])
    ensures LetterRun(t) < |t| ==> !IsAsciiLetter(t[LetterRun(t)])
  {
    if t != [] && IsAsciiLetter(t[0]) {
      LetterRunSpec(t[1..]);
      forall i | 1 <= i < LetterRun(t)
        ensures IsAsciiLetter(t[i])
      {
        assert t[i] == t[1..][i - 1];
      }
    }
  }

  predicate AllKeyChars(t: string) { forall i :: 0 <= i < |t| ==> IsKeyChar(t[i]) }

  /**
   * `[a-zA-Z]+\d*=?[^\s\[\]\{\}=]*` matched in full: letters, digits, then either key characters
   * only, or one '=' followed by key characters.
   */
  predicate ValidBody(b: string)
  {
    var n := LetterRun(b);
    var d := n + DigitRun(b[n..]);
    n > 0 && (AllKeyChars(b[d..]) || (d < |b| && b[d] == '=' && AllKeyChars(b[d + 1..])))
  }

  /** `placeholder_re.findall(s)`: non-overlapping `{body}` fields, scanning from the left. */
  function FindPlaceholders(s: string): seq<string>
    decreases |s|
  {
    if s == [] then []
    else if s[0] == '{' then
      var j := Find(s, '}', 1);
      if j > 0 && ValidBody(s[1..j]) then [s[1..j]] + FindPlaceholders(s[j + 1..])
      else FindPlaceholders(s[1..])
    else FindPlaceholders(s[1..])
  }

  /** Every key found is a complete match of the field body pattern. */
  lemma {:induction false} PlaceholdersValid(s: string)
    ensures forall k :: 0 <= k < |FindPlaceholders(s)| ==> ValidBody(FindPlaceholders(s)[k])
    decreases |s|
  {
    if s != [] {
      var j := Find(s, '}', 1);
      if s[0] == '{' && j > 0 && ValidBody(s[1..j]) {
        PlaceholdersValid(s[j + 1..]);
      } else {
        PlaceholdersValid(s[1..]);
      }
    }
  }

  /** A found key cannot contain a brace, and starting with a letter it is not numeric. */
  lemma ValidBodyNoBraces(b: string)
    requires ValidBody(b)
    ensures |b| > 0 && IsAsciiLetter(b[0])
    ensures forall i :: 0 <= i < |b| ==> b[i] != '{' && b[i] != '}' && !IsSpace(b[i])
  {
    var n := LetterRun(b);
    var d := n + DigitRun(b[n..]);
    LetterRunSpec(b);
    DigitRunSpec(b[n..]);
    forall i | 0 <= i < |b|
      ensures b[i] != '{' && b[i] != '}' && !IsSpace(b[i])
    {
      if i < n {
      } else if i < d {
        assert b[n..][i - n] == b[i];
      } else if AllKeyChars(b[d..]) {
        assert b[d..][i - d] == b[i];
      } else if i > d {
        assert b[d + 1..][i - d - 1] == b[i];
      }
    }
  }

  /** A found key without '.', '!' or ':' is one Python's formatter reads back verbatim. */
  lemma ValidBodyPlain(b: string)
    requires ValidBody(b)
    requires forall i :: 0 <= i < |b| ==> !IsFieldSeparator(b[i])
    ensures PlainKey(b)
  {
    ValidBodyNoBraces(b);
    assert !IsAsciiDigit(b[0]);
  }

  /** The three groups of `placeholder_content_re`. */
  datatype KeyParts = KeyParts(name: string, digits: string, extra: string)

  /** The shape of the `(=...)?` group: empty, or '=' followed by key characters. */
  predicate ExtraGroup(e: string)
  {
    e == [] || (e[0] == '=' && AllKeyChars(e[1..]))
  }

  predicate WellFormedParts(p: KeyParts)
  {
    AllLetters(p.name) && AllAsciiDigits(p.digits) && ExtraGroup(p.extra)
  }

  predicate AllLetters(s: string)
  {
    |s| > 0 && forall i :: 0 <= i < |s| ==> IsAsciiLetter(s[i])
  }

  /**
   * `placeholder_content_re.findall(key)[0]`: the anchored match splits the key into its maximal
   * letter run, its maximal digit run and the rest, which must be empty or '=' plus key
   * characters; `None` when the key does not match (the list is empty).
   */
  function SplitKey(key: string): Option<KeyParts>
  {
    SplitChomped(Chomp(key))
  }

  /** The anchored match on the key once a trailing newline is dropped. */
  function SplitChomped(t: string): Option<KeyParts>
  {
    var n := LetterRun(t);
    var d := n + DigitRun(t[n..]);
    if n > 0 && ExtraGroup(t[d..]) then Some(KeyParts(t[..n], t[n..d], t[d..])) else None
  }

  /** A split consists of well-formed parts that make up the whole text. */
  lemma SplitChompedShape(t: string)
    ensures SplitChomped(t).Some? ==> WellFormedParts(SplitChomped(t).value)
    ensures SplitChomped(t).Some? ==> t == SplitChomped(t).value.name + SplitChomped(t).value.digits + SplitChomped(t).value.extra
  {
    var n := LetterRun(t);
    var d := n + DigitRun(t[n..]);
    if n > 0 && ExtraGroup(t[d..]) {
      RunsWellFormed(t);
      ThreeSlices(t, n, d);
    }
  }

  /** The letter run and the digit run after it are made of letters and of digits. */
  lemma RunsWellFormed(t: string)
    ensures LetterRun(t) > 0 ==> AllLetters(t[..LetterRun(t)])
    ensures AllAsciiDigits(t[LetterRun(t)..LetterRun(t) + DigitRun(t[LetterRun(t)..])])
  {
    var n := LetterRun(t);
    var u := t[n..];
    LetterRunSpec(t);
    DigitRunSpec(u);
    assert t[n..n + DigitRun(u)] == u[..DigitRun(u)];
  }

  /** A text is the concatenation of its three slices at `n` and `d`. */
  lemma ThreeSlices(t: string, n: nat, d: nat)
    requires n <= d <= |t|
    ensures t == t[..n] + t[n..d] + t[d..]
  {
  }

  /** A key that splits consists of its well-formed parts, up to the trailing newline `$` skips. */
  lemma SplitKeyShape(key: string)
    ensures SplitKey(key).Some? ==> WellFormedParts(SplitKey(key).value)
    ensures SplitKey(key).Some? ==> Chomp(key) == SplitKey(key).value.name + SplitKey(key).value.digits + SplitKey(key).value.extra
  {
    SplitChompedShape(Chomp(key));
  }

  lemma {:induction false} LetterRunOf(a: string, rest: string)
    requires forall i :: 0 <= i < |a| ==> IsAsciiLetter(a[i])
    requires rest == [] || !IsAsciiLetter(rest[0])
    ensures LetterRun(a + rest) == |a|
  {
    if a == [] {
      assert a + rest == rest;
    } else {
      assert (a + rest)[1..] == a[1..] + rest;
      LetterRunOf(a[1..], rest);
    }
  }

  /** A key assembled from well-formed parts has no trailing newline for `$` to skip. */
  lemma PartsChomp(p: KeyParts)
    requires WellFormedParts(p)
    ensures Chomp(p.name + p.digits + p.extra) == p.name + p.digits + p.extra
  {
    var key := p.name + p.digits + p.extra;
    if p.extra != [] {
      assert key[|key| - 1] == p.extra[|p.extra| - 1];
      if |p.extra| > 1 {
        assert p.extra[|p.extra| - 1] == p.extra[1..][|p.extra| - 2];
      }
    } else if p.digits != [] {
      assert key[|key| - 1] == p.digits[|p.digits| - 1];
    } else {
      assert key[|key| - 1] == p.name[|p.name| - 1];
    }
  }

  /**
   * The split is the only one: a key assembled from well-formed parts splits back into exactly
   * those parts.
   */
  lemma SplitKeyParts(p: KeyParts)
    requires WellFormedParts(p)
    ensures SplitKey(p.name + p.digits + p.extra) == Some(p)
  {
    var key := p.name + p.digits + p.extra;
    var rest := p.digits + p.extra;
    var n := |p.name|;
    var d := n + |p.digits|;
    assert key == p.name + rest;
    assert LetterRun(key) == n by {
      assert rest == [] || !IsAsciiLetter(rest[0]) by {
        if p.digits != [] {
          assert rest[0] == p.digits[0];
        } else if p.extra != [] {
          assert rest == p.extra;
        }
      }
      LetterRunOf(p.name, rest);
    }
    assert key[n..] == rest;
    assert DigitRun(key[n..]) == |p.digits| by {
      DigitRunOfDigits(p.digits, p.extra);
    }
    assert key[d..] == p.extra;
    assert key[..n] == p.name;
    assert key[n..d] == p.digits;
    PartsChomp(p);
  }

  /** A name of letters only is a valid key. */
  lemma ValidBodyLetters(k: string)
    requires AllLetters(k)
    ensures ValidBody(k)
  {
    LetterRunOf(k, []);
    assert k + [] == k;
    assert k[|k|..] == [];
  }

  /** Text without '{' holds no field. */
  lemma {:induction false} NoField(s: string)
    requires '{' !in s
    ensures FindPlaceholders(s) == []
    decreases |s|
  {
    if s != [] {
      assert s[0] != '{';
      NoField(s[1..]);
    }
  }

  /** The scan passes over text without '{'. */
  lemma {:induction false} SkipPlain(pre: string, rest: string)
    requires '{' !in pre
    ensures FindPlaceholders(pre + rest) == FindPlaceholders(rest)
    decreases |pre|
  {
    if pre == [] {
      assert pre + rest == rest;
    } else {
      assert (pre + rest)[0] == pre[0];
      assert (pre + rest)[1..] == pre[1..] + rest;
      SkipPlain(pre[1..], rest);
    }
  }

  /** A field `{k}` with a valid body is found, and the scan goes on after it. */
  lemma FieldFound(k: string, rest: string)
    requires ValidBody(k)
    ensures FindPlaceholders("{" + k + "}" + rest) == [k] + FindPlaceholders(rest)
  {
    ValidBodyNoBraces(k);
    var s := "{" + k + "}" + rest;
    var j := |k| + 1;
    assert s[j] == '}';
    forall m | 1 <= m < j
      ensures s[m] != '}'
    {
      assert s[m] == k[m - 1];
    }
    FindAt(s, '}', 1, j);
    assert s[1..j] == k;
    assert s[j + 1..] == rest;
  }

  /** A field `{k}` preceded by text without '{' is the first key found, and the scan goes on after it. */
  lemma FieldThen(pre: string, k: string, rest: string)
    requires '{' !in pre && ValidBody(k)
    ensures FindPlaceholders(pre + "{" + k + "}" + rest) == [k] + FindPlaceholders(rest)
  {
    var field := "{" + k + "}" + rest;
    ConcatAssoc(pre, "{", k);
    ConcatAssoc(pre, "{" + k, "}");
    ConcatAssoc(pre, "{" + k + "}", rest);
    assert pre + "{" + k + "}" + rest == pre + field;
    assert FindPlaceholders(pre + field) == FindPlaceholders(field) by {
      SkipPlain(pre, field);
    }
    FieldFound(k, rest);
  }

  /** The built-in bold definition has the single key TEXT. */
  lemma BoldDefinitionKeys()
    ensures FindPlaceholders("[b]{TEXT}[/b]") == ["TEXT"]
  {
    var d := "[b]" + "{" + "TEXT" + "}" + "[/b]";
    assert d == "[b]{TEXT}[/b]";
    BoldKeys(d);
  }

  lemma BoldKeys(d: string)
    requires d == "[b]" + "{" + "TEXT" + "}" + "[/b]"
    ensures FindPlaceholders(d) == ["TEXT"]
  {
    assert AllLetters("TEXT");
    ValidBodyLetters("TEXT");
    FieldThen("[b]", "TEXT", "[/b]");
    NoField("[/b]");
  }

  /** A definition with two fields and no other '{' yields both keys in order. */
  lemma TwoFields(pre: string, k1: string, mid: string, k2: string, post: string)
    requires '{' !in pre && '{' !in mid && '{' !in post && ValidBody(k1) && ValidBody(k2)
    ensures FindPlaceholders(pre + "{" + k1 + "}" + mid + "{" + k2 + "}" + post) == [k1, k2]
  {
    var rest := mid + "{" + k2 + "}" + post;
    assert FindPlaceholders(rest) == [k2] by {
      NoField(post);
      FieldThen(mid, k2, post);
    }
    assert pre + "{" + k1 + "}" + mid + "{" + k2 + "}" + post == pre + "{" + k1 + "}" + rest;
    FieldThen(pre, k1, rest);
  }

  /** The built-in color definition has the keys COLOR and TEXT, in that order. */
  lemma ColorDefinitionKeys()
    ensures FindPlaceholders("[color={COLOR}]{TEXT}[/color]") == ["COLOR", "TEXT"]
  {
    var d := "[color=" + "{" + "COLOR" + "}" + "]" + "{" + "TEXT" + "}" + "[/color]";
    assert d == "[color={COLOR}]{TEXT}[/color]";
    ColorKeys(d);
  }

  lemma ColorKeys(d: string)
    requires d == "[color=" + "{" + "COLOR" + "}" + "]" + "{" + "TEXT" + "}" + "[/color]"
    ensures FindPlaceholders(d) == ["COLOR", "TEXT"]
  {
    assert ValidBody("TEXT") by {
      assert AllLetters("TEXT");
      ValidBodyLetters("TEXT");
    }
    assert ValidBody("COLOR") by {
      assert AllLetters("COLOR");
      ValidBodyLetters("COLOR");
    }
    ColorTextsPlain();
    TwoFields("[color=", "COLOR", "]", "TEXT", "[/color]");
  }

  /** The literal text around the fields of the color definition holds no '{'. */
  lemma ColorTextsPlain()
    ensures '{' !in "[color=" && '{' !in "]" && '{' !in "[/color]"
  {
    assert '{' !in "[color=";
  }

  /** `{TEXT1=4,3}` splits into the type "TEXT", the digits "1" and the context "=4,3". */
  lemma SplitKeyExample()
    ensures SplitKey("TEXT1=4,3") == Some(KeyParts("TEXT", "1", "=4,3"))
  {
    var key := "TEXT" + "1" + "=4,3";
    assert key == "TEXT1=4,3";
    SplitKeyOfParts(key);
  }

  lemma SplitKeyOfParts(key: string)
    requires key == "TEXT" + "1" + "=4,3"
    ensures SplitKey(key) == Some(KeyParts("TEXT", "1", "=4,3"))
  {
    var p := KeyParts("TEXT", "1", "=4,3");
    assert AllLetters(p.name);
    assert AllAsciiDigits(p.digits);
    assert AllKeyChars("4,3");
    assert p.extra[1..] == "4,3";
    SplitKeyParts(p);
  }

  /** A key such as `TEXT1a` matches the field pattern but does not split. */
  lemma UnsplittableKey()
    ensures SplitKey("TEXT1a") == None
  {
    var k := "TEXT1a";
    assert k[5] != '\n';
    assert Chomp(k) == k;
    assert AllLetters("TEXT");
    LetterRunOf("TEXT", "1a");
    assert "TEXT" + "1a" == k;
    assert k[4..] == "1a";
    assert AllAsciiDigits("1");
    DigitRunOfDigits("1", "a");
    assert "1" + "a" == "1a";
    assert k[5..] == "a";
    assert !ExtraGroup("a");
  }
}
