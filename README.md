# django-precise-bbcode, modelled in Dafny

This project models the BBCode text processor of django-precise-bbcode and proves properties of
that model. The processor turns forum markup such as `[b]bold[/b]` or `[url=example.com]site[/url]`
into HTML. It works in three stages:

1. **The lexer** (`get_tokens`, `_parse_tag`, `_get_textual_tokens`) cuts the text into START, END,
   DATA and NEWLINE tokens. Only brackets that name a registered tag become tag tokens.
2. **The repair pass** (`_drop_syntactic_errors`) walks the token list with a stack of open tags.
   It turns every tag token that does not fit the tree back into DATA, in place.
3. **The renderer** (`_find_closing_token`, `_render_tokens`, `_render_textual_content`) renders
   each tag's content under the tag's option flags. Text is HTML-escaped, links are made
   clickable and smilies become images.

Around the pipeline sit:
- the declarative tag class (`BBCodeTag` with a definition string such as `[b]{TEXT}[/b]` and a
  format string such as `<strong>{TEXT}</strong>`), which builds a placeholder dictionary,
  validates each placeholder and substitutes it safely;
- the built-in tags and placeholders (COLOR, NUMBER and SIMPLETEXT are hand-coded here);
- the ordered `replace` helper used for escaping;
- the tag and placeholder registries (`TagPool`, `PlaceholderPool`).

The legacy generation of the same processor (`precise_bbcode/parser.py`) is modelled as well.
It stores a renderer function and its options per tag, with a fixed table of placeholder types.
Also modelled are the validation and argument building of user-defined tags stored in the
database (`BBCodeTag.clean`, `save` and `parser_args` in `precise_bbcode/models.py`) and the
legacy tag base class (`precise_bbcode/tag_base.py`).

Code that changes state step by step is modelled as methods and classes:
- the parser objects;
- the registries;
- the in-place repair of a token array;
- the scanning and rendering loops.

Each of these is proved equal to a recursive specification function, and the properties are
proved about those functions. Pure code is modelled as functions and lemmas.

**Where the code and its documented intent differ, the model follows the code.** The documented
intent of `get_tokens` is that concatenating the token texts gives back the input. The code keeps
that promise when every '[' has a later ']'. It breaks the promise when some text lies between the
cursor and a '[' that no ']' follows. It emits that text, stops with its cursor still before it, and
then tokenises the text again from that cursor. A lone "[" with nothing before it comes out once
(`LexerProps.LoneBracketOnce`).
The model keeps this behaviour:
- `LexerProps.LexPreservesText` proves the promise under its condition;
- `LexerProps.UnmatchedBracketRepeats` shows the repetition: `t + "["` spells `t + t + "["`, so text
  is repeated exactly when `t` is not empty.

## Model

| member | source | states |
|---|---|---|
| Text.Replace | precise_bbcode/core/utils.py:16 | Python's `str.replace`: every non-overlapping occurrence, from the left; `Text.ReplaceAbsent`, `Text.ReplaceMatchHead` and `Text.ReplaceCharConcat` state it |
| Text.Strip | precise_bbcode/bbcode/parser.py:328 | `str.strip()`: the result is a slice `s[i..j]` with only white space before `i` and after `j`, and it neither starts nor ends with white space, so it is the text with the white space at both ends cut off |
| Text.Lower | precise_bbcode/bbcode/parser.py:115 | `str.lower()` on ASCII: the same length, each character lower-cased |
| Text.Upper | precise_bbcode/bbcode/tag.py:151 | `str.upper()` on ASCII: the same length, each character upper-cased |
| Utils.ReplaceAll | precise_bbcode/core/utils.py:10-17 | the result is the data after each `(old, new)` pair, in order, has replaced every occurrence of its old text; no pairs leave the data unchanged |
| Utils.EscapeTableIsPerChar | precise_bbcode/conf/settings.py:12-19 | the default escape table, applied in order with '&' first, escapes every character on its own: no entity is escaped twice |
| Utils.EscapedHasNoSpecials | precise_bbcode/conf/settings.py:12-19 | text escaped with the default table holds no '<', '>', '"' or "'" |
| Utils.LessThanEscapedOnce | precise_bbcode/conf/settings.py:13-14 | "<" becomes "&lt;", not "&amp;lt;" |
| TagOptions.AttributeNamedComplete | precise_bbcode/bbcode/tag.py:160-184 | every option attribute is found back from its Python name |
| TagOptions.SetAttrOther | precise_bbcode/bbcode/tag.py:186-188 | `setattr` of one option leaves every other option as it was |
| TagOptions.New | precise_bbcode/bbcode/tag.py:186-188 | `BBCodeTagOptions(**kwargs)` is the defaults with the keyword arguments applied in order; no arguments give the defaults |
| TagOptions.ApplyKwargsAttr | precise_bbcode/bbcode/tag.py:186-188 | each option ends up as the truth value (`bool`) of the last keyword argument naming it, and keeps its previous value when none does |
| TagOptions.DefaultAttrs | precise_bbcode/bbcode/tag.py:160-184 | the class defaults: `render_embedded`, `transform_newlines`, `escape_html`, `replace_links` and `display_on_editor` true, `helpline` unset, every other flag false |
| Tags.ValidateFormat | precise_bbcode/bbcode/tag.py:140-157 | the loop returns the first entry's False or exception, and True when every entry passes |
| Tags.CheckEntry | precise_bbcode/bbcode/tag.py:147-156 | one entry of the format dictionary: the key's type and its content checked by that placeholder (row `Tags.CheckEntryCases` states each case) |
| Tags.CheckEntryCases | precise_bbcode/bbcode/tag.py:147-156 | an entry passes exactly when its key splits, its type is installed and the placeholder accepts the content; a key that does not split gives False, an unknown type raises `InvalidBBCodePlaholder`, a placeholder's False is returned, its `KeyError` becomes `InvalidBBCodePlaholder` and any other exception propagates |
| Tags.ValidateSpec | precise_bbcode/bbcode/tag.py:140-157 | `_validate_format`: the first entry that does not pass decides, True when none fails (proved against the loop in `Tags.ValidateFormat` and by `Tags.ValidateAllEntries`) |
| Tags.ValidateAllEntries | precise_bbcode/bbcode/tag.py:146-157 | the format dictionary is valid exactly when every entry is |
| Tags.ValidatePatternsRaiseNothing | precise_bbcode/bbcode/tag.py:146-157 | when every key names a known pattern placeholder and every content is a string, validation raises nothing |
| Tags.FormatMapOf | precise_bbcode/bbcode/tag.py:117-123 | one placeholder gets the value; with two, the second gets the value and the first the escaped option (or '' without one), the option winning when both keys are equal; any other count gives an empty dictionary |
| Tags.RenderDefaultSpec | precise_bbcode/bbcode/tag.py:116-138 | `_render_default`: the dictionary built from the definition, then the re-emitted definition when the check fails and the formatted HTML when it passes (rows `Tags.RenderDefaultValid` and `Tags.RenderDefaultInvalid`) |
| Tags.RenderDefault | precise_bbcode/bbcode/tag.py:116-138 | the loop that escapes the braces and restores each `{key}` computes the generic rendering |
| Tags.RenderDefaultValid | precise_bbcode/bbcode/tag.py:132-138 | valid content renders as the format string with each `{key}` replaced by its value and every other character, braces included, kept as written |
| Tags.RenderDefaultInvalid | precise_bbcode/bbcode/tag.py:125-130 | for a definition `pre{k1}mid{k2}post` whose placeholder check fails, the output is the definition with each field replaced by its dictionary value (the content for `k2`, the option or the empty text for `k1`): with an option the literal text is kept as written, without one every '=' is dropped from the literal text first |
| Tags.DoRender | precise_bbcode/bbcode/tag.py:83-114 | a tag with both strings set renders generically; otherwise its `render` runs, and the inherited one raises `NotImplementedError` |
| Tags.OptionKwargs | precise_bbcode/bbcode/tag.py:68-70 | the keyword arguments are no more than the members and hold no dunder name |
| Tags.OptionKwargsMembers | precise_bbcode/bbcode/tag.py:68-70 | a pair is a keyword argument exactly when some member that is not a routine and not a dunder has that name and value: routines and dunders are dropped, every other member is kept |
| Tags.OptionKwargsConcat | precise_bbcode/bbcode/tag.py:68-70 | members are taken in `getmembers` order: the arguments of two runs of members are those of the first run followed by those of the second |
| Tags.DefineTag | precise_bbcode/bbcode/tag.py:26-75 | a tag class is created exactly when its name is a truthy string without white space or '=' (one final newline allowed) and the definition and format strings are set together; a missing name raises `ImproperlyConfigured`, a non-string `TypeError`; without an `Options` class the options are the defaults |
| Tags.DefinedFlags | precise_bbcode/bbcode/tag.py:67-73 | each option of a defined tag is the truth value of the last `Options` attribute naming it, or the default |
| PyFormat.EscapeBracesPieces | precise_bbcode/bbcode/tag.py:133 | doubling every brace of the format string shows every piece of it literally |
| PyFormat.RestorePass | precise_bbcode/bbcode/tag.py:134-135 | one pass of the restoring loop turns the doubled field of its key back into a replacement field and changes nothing else |
| PyFormat.RestoreAll | precise_bbcode/bbcode/tag.py:134-135 | the whole loop over distinct keys restores exactly the fields of those keys |
| PyFormat.BraceEscapingFormatsLiterally | precise_bbcode/bbcode/tag.py:132-138 | escaping the braces, restoring `{key}` for each key and formatting gives the format string with each field of a key replaced by its value and every other brace kept |
| PyFormat.Format | precise_bbcode/bbcode/tag.py:127-138 | `str.format(**fmt)`: each `{key}` becomes the value of the key, a doubled brace one brace, a key not in the map a `KeyError` and a stray brace a `ValueError`; `PyFormat.FormatTwoFields` and `PyFormat.FormatShownAll` state it on definitions |
| PyFormat.Substitute | precise_bbcode/bbcode/tag.py:133-138 | the reference meaning of the format string: each literal `{key}` of a mapped key becomes its value, every other character is kept; `PyFormat.BraceEscapingFormatsLiterally` proves escaping, restoring and formatting give it |
| PyFormat.FormatTwoFields | precise_bbcode/bbcode/tag.py:127-130 | a brace-free text with two plain fields of mapped keys formats to the text with the two values in place |
| Matchers.UrlMatch | precise_bbcode/bbcode/defaults/placeholder.py:22 | a URL match is a non-empty span inside the searched text |
| Placeholders.Chomp | precise_bbcode/bbcode/defaults/placeholder.py:25-27 | an anchored pattern ending in `$` matches the text with at most one final newline dropped |
| Placeholders.Validate | precise_bbcode/bbcode/placeholder.py:15-46 | with a pattern, the content is accepted exactly when the pattern is found in it, and a missing content raises `TypeError`; without a pattern `NotImplementedError` is raised |
| Placeholders.NumberAccepts | precise_bbcode/bbcode/defaults/placeholder.py:27 | a sign (empty, '+' or '-'), digits, and optionally '.' or ',' followed by digits, with at most one final newline, is accepted |
| Placeholders.NumberExactly | precise_bbcode/bbcode/defaults/placeholder.py:27 | NUMBER accepts a text exactly when, without one final newline, it is an optional sign, digits, and optionally '.' or ',' followed by digits: both directions of the pattern |
| Placeholders.IsNumber | precise_bbcode/bbcode/defaults/placeholder.py:27 | the NUMBER pattern as a predicate on the text without one final newline; its meaning is proved in `Placeholders.NumberExactly` |
| Placeholders.IsColor | precise_bbcode/bbcode/defaults/placeholder.py:26 | the COLOR pattern: without one final newline, lower-case letters, or '#' and three to six hexadecimal digits; `Placeholders.ColorRejects` and the examples pin it down |
| Placeholders.IsSimpleText | precise_bbcode/bbcode/defaults/placeholder.py:25 | the SIMPLETEXT pattern: without one final newline, a non-empty run of ASCII letters, digits, '-', '+', '.', ',', '_' and spaces |
| Placeholders.NumberIntegerExample | tests/unit/test_placeholders.py:112 | "12" is a NUMBER |
| Placeholders.NumberNegativeExample | tests/unit/test_placeholders.py:114 | "-121" is a NUMBER |
| Placeholders.NumberDecimalExample | tests/unit/test_placeholders.py:115 | "89.12" is a NUMBER |
| Placeholders.NumberCommaExample | tests/unit/test_placeholders.py:118 | "-12,1990000000000000001" is a NUMBER |
| Placeholders.NumberRejects | precise_bbcode/bbcode/defaults/placeholder.py:27 | the empty text, a word, a bare sign and two separators are not NUMBERs |
| Placeholders.ColorNameExamples | tests/unit/test_placeholders.py:100-101 | "red" and "blue" are COLORs |
| Placeholders.ColorHexExamples | tests/unit/test_placeholders.py:103-106 | "#FFFFFF", "#fff000" and "#3089a2" are COLORs |
| Placeholders.ColorShortHexExample | tests/unit/test_placeholders.py:105 | "#FFF" is a COLOR |
| Placeholders.ColorRejects | precise_bbcode/bbcode/defaults/placeholder.py:26 | a colour followed by CSS, an upper-case name and hex runs of two or seven digits are rejected |
| Placeholders.TrailingNewlineAccepted | precise_bbcode/bbcode/defaults/placeholder.py:26 | a COLOR followed by one newline is still accepted |
| Placeholders.SimpleTextExamples | tests/unit/test_placeholders.py:34-40 | SIMPLETEXT accepts "hello world" and "slugify-u-21" and rejects '!', '#~' and the empty text |
| PlaceholderSyntax.PlaceholdersValid | precise_bbcode/bbcode/regexes.py:16 | every key `re.findall(placeholder_re, ...)` returns is a complete match of the field body pattern |
| PlaceholderSyntax.ValidBodyNoBraces | precise_bbcode/bbcode/regexes.py:16 | a found key starts with a letter and holds no brace and no white space |
| PlaceholderSyntax.SplitKeyShape | precise_bbcode/bbcode/regexes.py:17 | a key that matches `placeholder_content_re` is its type letters, its digits and its `=context`, up to the final newline `$` skips |
| PlaceholderSyntax.SplitKeyParts | precise_bbcode/bbcode/regexes.py:17 | a key assembled from well-formed parts splits back into exactly those parts |
| PlaceholderSyntax.ValidBodyLetters | precise_bbcode/bbcode/regexes.py:16 | a name made of letters only is a valid key |
| PlaceholderSyntax.NoField | precise_bbcode/bbcode/regexes.py:16 | text without '{' holds no placeholder |
| PlaceholderSyntax.FieldThen | precise_bbcode/bbcode/regexes.py:16 | a field `{key}` after text without '{' is the first key found, and the search goes on after it |
| PlaceholderSyntax.TwoFields | precise_bbcode/bbcode/regexes.py:16 | a definition with two fields and no other '{' yields both keys in order |
| PlaceholderSyntax.BoldDefinitionKeys | precise_bbcode/bbcode/defaults/tag.py:16 | the bold definition `[b]{TEXT}[/b]` has the single key TEXT |
| PlaceholderSyntax.ColorDefinitionKeys | precise_bbcode/bbcode/defaults/tag.py:95 | the color definition has the keys COLOR and TEXT, in that order |
| PlaceholderSyntax.SplitKeyExample | precise_bbcode/bbcode/placeholder.py:30-33 | `TEXT1=4,3` splits into the type TEXT, the digits 1 and the context `=4,3` |
| PlaceholderSyntax.UnsplittableKey | precise_bbcode/bbcode/regexes.py:16-17 | `TEXT1a` is found as a key but does not split, so its validation gives False |
| BuiltinRenderers.ListStyle | precise_bbcode/bbcode/defaults/tag.py:46-52 | the CSS list style of an option among `1`, `01`, `a`, `A`, `i`, `I`, and none otherwise; `BuiltinRenderers.ListStyleKeys` states it |
| BuiltinRenderers.ListHtml | precise_bbcode/bbcode/defaults/tag.py:45-54 | an ordered list with its style for a known option, an unordered one otherwise, around the value; `BuiltinRenderers.ListOrderedIff` and `BuiltinRenderers.ListWrapsValue` state it |
| BuiltinRenderers.ListStyleKeys | precise_bbcode/bbcode/defaults/tag.py:46-50 | exactly the six options of the table ('1', '01', 'a', 'A', 'i', 'I') have a list style |
| BuiltinRenderers.ListOrderedIff | precise_bbcode/bbcode/defaults/tag.py:51-53 | the list is an ordered `<ol>` exactly when the option has a style, and an unordered `<ul>` otherwise |
| BuiltinRenderers.ListWrapsValue | precise_bbcode/bbcode/defaults/tag.py:53 | the rendered list ends with the value followed by the closing tag of its kind |
| BuiltinRenderers.Href | precise_bbcode/bbcode/defaults/tag.py:108-110 | the link target is the escaped option when there is one and the value otherwise; "http://" is prepended exactly when the target holds no "://" and matches the domain pattern; no option and no value raise `TypeError` |
| BuiltinRenderers.UrlHtml | precise_bbcode/bbcode/defaults/tag.py:107-113 | the anchor's text is the value when an option gave the target and the target otherwise, falling back to the target when empty |
| BuiltinRenderers.UrlWithDomainOption | src/precise_bbcode/tests/test_parser.py:37 | `[url=google.com]goto google[/url]` links "http://google.com" with the text "goto google" |
| BuiltinRenderers.SchemeKept | precise_bbcode/bbcode/defaults/tag.py:109-113 | a target that already holds "://" is kept as it is and is also the link text |
| DefaultTags.Defines | precise_bbcode/bbcode/tag.py:26-75 | a class body that passes the checks defines the tag class its `Options` attributes configure |
| DefaultTags.LetterName | precise_bbcode/bbcode/tag.py:51 | names of letters, and the '*' of the list item, are valid tag names |
| DefaultTags.OneFlagOptions | precise_bbcode/bbcode/tag.py:68-71 | an `Options` class with one option sets that option and nothing else |
| DefaultTags.StrongDefined | precise_bbcode/bbcode/defaults/tag.py:14-17 | `b` is defined with its two strings and the default options |
| DefaultTags.ListOptions | precise_bbcode/bbcode/defaults/tag.py:41-43 | the `Options` of `list` set `strip`; `transform_newlines` is already on by default |
| DefaultTags.ListDefined | precise_bbcode/bbcode/defaults/tag.py:38-54 | `list` strips its content, renders by its own `render` and keeps every other default |
| DefaultTags.ListItemDefined | precise_bbcode/bbcode/defaults/tag.py:57-66 | `*` is closed by a newline, by the next `[*]` and by the end of its list, and strips its content |
| DefaultTags.QuoteDefined | precise_bbcode/bbcode/defaults/tag.py:69-75 | `quote` strips its content |
| DefaultTags.CodeDefined | precise_bbcode/bbcode/defaults/tag.py:78-84 | `code` does not render the tags it embeds |
| DefaultTags.UrlDefined | precise_bbcode/bbcode/defaults/tag.py:99-105 | `url` does not turn the links it holds into anchors |
| DefaultTags.ImgDefined | precise_bbcode/bbcode/defaults/tag.py:116-122 | `img` does not turn the links it holds into anchors |
| DefaultTags.TextDictionary | precise_bbcode/bbcode/tag.py:117-121 | a definition whose only field is `{TEXT}` builds the dictionary mapping TEXT to the value |
| DefaultTags.TextValidation | precise_bbcode/bbcode/tag.py:146-157 | that dictionary is valid exactly when the TEXT placeholder's pattern is found in the content |
| DefaultTags.TextTagRenders | precise_bbcode/bbcode/tag.py:116-138 | a TEXT-only tag renders accepted content as its format string with the content in place of `{TEXT}` |
| DefaultTags.TextTagRejects | precise_bbcode/bbcode/tag.py:129-130 | rejected content without an option is re-emitted inside the definition string |
| DefaultTags.StrongRenders | precise_bbcode/bbcode/defaults/tag.py:14-17 | `[b]v[/b]` renders `<strong>v</strong>` when the TEXT placeholder accepts `v`, and `[b]v[/b]` otherwise |
| Lexer.TextualTokens | precise_bbcode/bbcode/parser.py:179-192 | `_get_textual_tokens`: each newline is a NEWLINE token and each run between newlines a DATA token; `Lexer.TextualTokensText`, `Lexer.TextualTokensAreText` and `Lexer.TextualTokensNewlines` state what it gives |
| Lexer.TextualTokensText | precise_bbcode/bbcode/parser.py:179-192 | the textual tokens give back the text they were made from |
| Lexer.TextualTokensAreText | precise_bbcode/bbcode/parser.py:179-192 | every textual token is a non-empty DATA piece without a line break, or a NEWLINE |
| Lexer.TextualTokensNewlines | precise_bbcode/bbcode/parser.py:185-191 | each '\n' of the text becomes exactly one NEWLINE token |
| Lexer.ParseTag | precise_bbcode/bbcode/parser.py:90-115 | `_parse_tag`: a bracketed text without newline and with one '[' and one ']' is a tag when its stripped body is non-empty; a leading '/' marks a closing tag, which may not hold '='; the text after the first '=' is the option; the name is stripped and lower-cased; the four rows below state its cases |
| Lexer.ParseTagValid | precise_bbcode/bbcode/parser.py:90-115 | a span is a valid tag exactly when it is bracketed once, holds no line break, its stripped body is not empty and it is not a closing tag with an option; the name is lower-case and holds no '='; an invalid span comes back as `(False, tag, False, None)` |
| Lexer.ParseOpeningTag | precise_bbcode/bbcode/parser.py:99-115 | `[name]` parses as a valid opening tag without option |
| Lexer.ParseClosingTag | precise_bbcode/bbcode/parser.py:105-107 | `[/name]` parses as a valid closing tag |
| Lexer.ParseOptionTag | precise_bbcode/bbcode/parser.py:111-114 | `[name=option]` parses as an opening tag carrying the text after the first '=' as its option |
| Lexer.ScanSpan | precise_bbcode/bbcode/parser.py:157-168 | a complete span becomes a tag token when it parses as a registered tag, and textual tokens otherwise; the scan resumes after its ']' with the same tokens as `Lexer.LexFrom` (`Lexer.PassKeeps`) |
| Lexer.ScanClose | precise_bbcode/bbcode/parser.py:156-170 | with no second '[' before it, a ']' after the '[' closes a span that is tokenized, and no ']' stops the loop with the rest as text; either way `Lexer.PassKeeps` holds |
| Lexer.ScanBracket | precise_bbcode/bbcode/parser.py:139-170 | one pass at a '[': a second '[' before the next ']' makes the text up to it DATA and the scan resumes there; a complete span is tokenized and the scan resumes after it; an unmatched '[' stops the loop with the rest as text; each case keeps the scan equal to `Lexer.LexFrom` |
| Lexer.ScanStep | precise_bbcode/bbcode/parser.py:137-173 | one pass of the loop emits what the scan specification emits from its position and resumes further on, or leaves the loop |
| Lexer.LexFrom | precise_bbcode/bbcode/parser.py:137-176 | the `while` loop of `get_tokens` from a position with the tokens so far, as a function; `Lexer.ScanStep` and `Lexer.GetTokens` are proved against it |
| Lexer.Normalize | precise_bbcode/bbcode/parser.py:135-136 | with `normalize_newlines`, "\r\n" and then "\r" become "\n"; `LexerProps.NormalizeNoCR` proves no "\r" is left |
| Lexer.Lex | precise_bbcode/bbcode/parser.py:117-177 | `get_tokens(data)`: the loop over the normalized text; `LexerProps.LexPreservesText` and `LexerProps.LexKnown` state its properties |
| Lexer.GetTokens | precise_bbcode/bbcode/parser.py:117-177 | the loop computes the lexer's specification of the (newline-normalised) input |
| LexerProps.LexKnown | precise_bbcode/bbcode/parser.py:157-167 | START and END tokens are emitted only for spans that parse as valid tags whose name is registered, with the name, closing flag and option of that parse |
| LexerProps.LexPreservesText | precise_bbcode/bbcode/parser.py:117-177 | when every '[' has a later ']', the token texts concatenate to the newline-normalised input |
| LexerProps.UnmatchedBracketRepeats | precise_bbcode/bbcode/parser.py:142-176 | a final '[' with no ']' after it stops the loop with the cursor before the text already emitted, so that text is emitted twice: `t + "["` spells `t + t + "["` |
| LexerProps.LoneBracketOnce | precise_bbcode/bbcode/parser.py:137-176 | the closed-bracket condition is sufficient but not necessary: "[" has no ']' after it and its tokens still spell "[" once |
| LexerProps.NormalizeNoCR | precise_bbcode/bbcode/parser.py:135-136 | normalisation leaves no carriage return |
| Repair.StartStep | precise_bbcode/bbcode/parser.py:202-207 | a START token first closes the innermost open tag when that tag has its name and it has `same_tag_closes`, then is pushed unless standalone; `Repair.OnStart` is proved against it |
| Repair.Unwind | precise_bbcode/bbcode/parser.py:223-230 | the stack is popped down to the nearest tag of the name, each tag above it demoted to DATA; `Repair.UnwindTo`, `Repair.UnwindDemotes` and `Repair.EndUnwinds` state it |
| Repair.EndStep | precise_bbcode/bbcode/parser.py:208-236 | an END token: with no tag open it becomes DATA; `end_tag_closes` first closes the innermost tag; then it closes a matching innermost tag, unwinds to a deeper one under `render_embedded`, or becomes DATA; `Repair.OnEnd` and the `Repair.End*` rows state its cases |
| Repair.Run | precise_bbcode/bbcode/parser.py:201-245 | the `for` loop of `_drop_syntactic_errors` over the tokens, as a function; `Repair.DropSyntacticErrors` is proved against it and `Repair.RepairKeeps`, `Repair.RepairDemotes` state what it keeps and demotes |
| Repair.Repair | precise_bbcode/bbcode/parser.py:194-250 | the repaired list has the input's length (content stated by the Repair lemmas below) |
| Repair.DropSyntacticErrors | precise_bbcode/bbcode/parser.py:194-250 | updating the token array in place leaves exactly `Repair` of the old tokens |
| Repair.OnStart | precise_bbcode/bbcode/parser.py:202-207 | the START branch pops a same-named top entry when `same_tag_closes` and pushes non-standalone tags, as the step function says, keeping every stacked index below the next one |
| Repair.OnEnd | precise_bbcode/bbcode/parser.py:208-236 | the END branch, on the array and the stack, agrees with the step function |
| Repair.UnwindTo | precise_bbcode/bbcode/parser.py:223-230 | the reversed walk demotes and pops every entry above the nearest one of the END tag's name, then pops that one, as `Unwind` says |
| Repair.RepairDemotes | precise_bbcode/bbcode/parser.py:194-250 | every output token is the input token or, for an END token or the START token of a non-standalone tag, a DATA token of the same text |
| Repair.RepairKeepsTexts | precise_bbcode/bbcode/parser.py:194-199 | no text is swallowed: the token texts, one by one and joined, are unchanged |
| Repair.RepairKeeps | precise_bbcode/bbcode/parser.py:201-245 | DATA and NEWLINE tokens and START tokens of standalone tags come out unchanged |
| Repair.EndOnEmptyStack | precise_bbcode/bbcode/parser.py:235-236 | an END token met with no tag open becomes DATA |
| Repair.EndWithoutOpener | precise_bbcode/bbcode/parser.py:208-236 | an END token with no START token before it becomes DATA |
| Repair.EndEmptiedStackKept | precise_bbcode/bbcode/parser.py:213-217 | an END token after which `end_tag_closes` empties the stack is kept |
| Repair.EndMatchKept | precise_bbcode/bbcode/parser.py:233-234 | an END token matching the innermost open tag is kept |
| Repair.EndMismatchDemoted | precise_bbcode/bbcode/parser.py:231-232 | an END token matching neither the innermost open tag nor, with `render_embedded`, a deeper one becomes DATA |
| Repair.EndUnwinds | precise_bbcode/bbcode/parser.py:219-230 | with `render_embedded`, an END token whose tag is open deeper down turns every tag opened above its nearest opener into DATA and is itself kept |
| Repair.UnwindDemotes | precise_bbcode/bbcode/parser.py:223-230 | unwinding pops the stack down to below the nearest entry of the name and demotes every entry above it |
| Repair.UnclosedDemoted | precise_bbcode/bbcode/parser.py:246-249 | every tag still open when the loop ends becomes DATA |
| Repair.Settled | precise_bbcode/bbcode/parser.py:201-249 | once the loop has passed an index, its token is final except that a START token may still become DATA |
| Closing.FindClosing | precise_bbcode/bbcode/parser.py:268-290 | `_find_closing_token` from the token after the tag; `Closing.ClosingHit`, `Closing.NoEarlierCloser`, `Closing.NothingCloses` and `Closing.EndBalances` state its result |
| Closing.ClosingFrom | precise_bbcode/bbcode/parser.py:268-290 | the search ends inside `[pos, len(tokens)]`, and an end it does not consume is a token of the list |
| Closing.FindClosingToken | precise_bbcode/bbcode/parser.py:268-290 | the `similar_tags_embedded` loop returns the (end, consume) pair of the recursive search from `pos` with no tag counted |
| Closing.ClosingHit | precise_bbcode/bbcode/parser.py:275-290 | the end is the list's length (consumed) or a NEWLINE under `newline_closes` (consumed), a same-name START under `same_tag_closes` (not consumed) or a same-name END (consumed) |
| Closing.NoEarlierCloser | precise_bbcode/bbcode/parser.py:277-281 | no NEWLINE or START token that would close the tag comes before the end found |
| Closing.NothingCloses | precise_bbcode/bbcode/parser.py:289-290 | when no token from `pos` on can close the tag the answer is `(len(tokens), True)` |
| Closing.EndBalances | precise_bbcode/bbcode/parser.py:282-288 | an END token that ends the tag is the first one at which the same-name END tokens balance the same-name START tokens counted since `pos` |
| Closing.FlatFirstEnd | precise_bbcode/bbcode/parser.py:274-290 | without `render_embedded` the tag ends at the first closing NEWLINE, closing START or same-name END token |
| Render.LinkHtml | precise_bbcode/bbcode/parser.py:383-391 | `_link_replace`: an anchor to the URL with `http://` put in front when it holds no `://`, with the URL as written for its text; `RenderProps.LinkHrefScheme` proves the target names a scheme |
| Render.PullLinks | precise_bbcode/bbcode/parser.py:361-373 | the links of the text replaced one by one by their markers, with the `(marker, anchor)` pairs in order; `Render.PullLinksLoop` is proved against it and `RenderProps.PullOneLink` computes it for one link |
| Render.PullLinksLoop | precise_bbcode/bbcode/parser.py:361-373 | the `while True` loop that swaps each URL match for a marker returns the text and the (marker, link HTML) pairs of the recursive definition |
| Render.PullOnce | precise_bbcode/bbcode/parser.py:364-373 | one pass keeps the loop invariant; when the search fails the result is final, otherwise the text left to search shrinks |
| Render.PullStep | precise_bbcode/bbcode/parser.py:365-373 | one pulled link puts its (marker, link) pair first and replaces the match by the marker in the text searched on |
| Render.RenderText | precise_bbcode/bbcode/parser.py:355-381 | `_render_textual_content` as a function: links pulled, text escaped, smilies replaced, links put back, each under its flag; `RenderProps.RenderTextOrder`, `RenderProps.RenderTextEscapes` and `RenderProps.LinkRendered` state what it gives |
| Render.RenderTextualContent | precise_bbcode/bbcode/parser.py:355-381 | links are pulled out, then the text is escaped, then smilies are replaced, then the links are put back, each step only under its flag |
| Render.RenderStep | precise_bbcode/bbcode/parser.py:299-352 | one pass of the loop moves `itk` forward and never past one beyond the end |
| Render.RenderFrom | precise_bbcode/bbcode/parser.py:292-353 | the `_render_tokens` loop from an index, as the joined outputs of its passes; `Render.RenderTokens` is proved against it and `RenderProps.PlainRender` states it for lists without tags |
| Render.RenderTokens | precise_bbcode/bbcode/parser.py:292-353 | the `itk` loop joins the pieces the recursive definition of the rendering gives, and raises what a tag's renderer raises |
| Render.RenderTag | precise_bbcode/bbcode/parser.py:304-342 | the START branch (standalone tag; otherwise the closing search, content, strip, transform, swallow of a trailing newline) agrees with the step function |
| Render.RenderContent | precise_bbcode/bbcode/parser.py:313-324 | the embedded tokens are rendered as BBCode under the tag's options when it renders embedded tags, else their joined text is rendered as text |
| Render.SwallowNewline | precise_bbcode/bbcode/parser.py:335-339 | with `swallow_trailing_newline`, a NEWLINE token right after the closing token is taken too |
| RenderProps.LinkHrefScheme | precise_bbcode/bbcode/parser.py:383-391 | the link target always contains `://`, and equals the URL exactly when the URL contains `://` already |
| RenderProps.RenderTextOrder | precise_bbcode/bbcode/parser.py:374-377 | without links, escaping comes first and smilies are replaced in the escaped text |
| RenderProps.RenderTextEscapes | precise_bbcode/bbcode/parser.py:374-375 | with the default table and nothing else to replace, rendering text is the character-by-character HTML escape |
| RenderProps.SmileyNotEscaped | precise_bbcode/bbcode/parser.py:374-377 | a smiley's image HTML is not escaped, since smilies are replaced after escaping |
| RenderProps.PullOneLink | precise_bbcode/bbcode/parser.py:361-373 | a text whose only URL match is one span has that span replaced by marker 0, with the pair of the marker and the anchor of the URL |
| RenderProps.LinkRendered | precise_bbcode/bbcode/parser.py:355-381 | a text with one link renders as the text before it escaped (and with its smilies replaced), the link's anchor unescaped, then the text after it escaped, provided the marker survives escaping and the smiley pass and occurs nowhere else |
| RenderProps.PlainRender | precise_bbcode/bbcode/parser.py:343-352 | without START tokens, DATA renders as text under the parent's options, NEWLINE as `newline_char` at top level and as itself inside a tag, END as nothing |
| RenderProps.PlainOutEscapes | precise_bbcode/bbcode/parser.py:343-349 | at top level, with the default table and no smiley or link, the output is the escaped text with `newline_char` for each newline |
| RenderProps.SameTagReread | precise_bbcode/bbcode/parser.py:316-318 | when the closing START token is not consumed, the next pass starts on it |
| RenderProps.StripWrapped | precise_bbcode/bbcode/parser.py:327-328 | whitespace around a text disappears when it is stripped |
| RenderProps.StripBeforeTransform | precise_bbcode/bbcode/parser.py:326-330 | with `strip`, newlines around a tag's content are removed before `transform_newlines` could turn them into `newline_char` |
| RenderProps.LiteralContent | precise_bbcode/bbcode/parser.py:320-324 | a tag that does not render embedded tags gets the escaped text of everything up to its closing token, tags included, without smilies |
| Parser.LookupItems | precise_bbcode/bbcode/parser.py:49 | a list of items with no key stored twice is a dictionary: a code reads an image exactly when the pair is stored |
| Parser.BBCodeParser.SmileyImage | precise_bbcode/bbcode/parser.py:84-88 | the parser's invariant means each smiley code stands for the one image stored with it |
| Parser.DictSetLookup | precise_bbcode/bbcode/parser.py:84-88 | after `smilies[code] = img`, the code reads the image and every other code reads what it read before |
| Parser.DictSetShape | precise_bbcode/bbcode/parser.py:84-88 | an existing code keeps its place and the dictionary its size; a new code is appended; no code is stored twice |
| Parser.DictSetKeys | precise_bbcode/bbcode/parser.py:84-88 | the codes other than the one set are stored after exactly when they were before |
| Parser.OptionsByName | precise_bbcode/bbcode/parser.py:203 | the options looked up by tag name are those of the installed tag of that name, for exactly the installed names |
| Parser.DoRenderCall | precise_bbcode/bbcode/parser.py:65-82 | the installed tag's `do_render` under its name; a name that is not installed raises `KeyError` |
| Parser.RenderDocument | precise_bbcode/bbcode/parser.py:402-408 | `render(data)`: the tokens of `get_tokens`, repaired by `_drop_syntactic_errors`, rendered at top level; `Parser.BBCodeParser.Render` is proved against it |
| Parser.LexRegistered | precise_bbcode/bbcode/parser.py:157-167 | every tag token `get_tokens` emits names an installed tag, so the lookups of `_drop_syntactic_errors` succeed |
| Parser.RenderedTokensSpellInput | precise_bbcode/bbcode/parser.py:402-408 | when every '[' has a later ']', the tokens handed to `_render_tokens` spell the newline-normalised input |
| Parser.LexPlain | precise_bbcode/bbcode/parser.py:137-177 | a text without '[' lexes into its textual tokens |
| Parser.RepairText | precise_bbcode/bbcode/parser.py:201-250 | the repair pass leaves a list of DATA and NEWLINE tokens as it is |
| Parser.PlainTextRenders | precise_bbcode/bbcode/parser.py:402-408 | a text without '[' and without smilies or links renders as its escaped pieces with `newline_char` for each newline |
| Parser.BBCodeParser.constructor | precise_bbcode/bbcode/parser.py:40-49 | the three settings are taken and the three stores start empty |
| Parser.BBCodeParser.AddPlaceholder | precise_bbcode/bbcode/parser.py:51-63 | the placeholder is stored under its upper-cased name, replacing any there, and nothing else changes |
| Parser.BBCodeParser.AddBBCodeTag | precise_bbcode/bbcode/parser.py:65-82 | the tag is stored under its name, replacing any there, and nothing else changes |
| Parser.BBCodeParser.AddSmiley | precise_bbcode/bbcode/parser.py:84-88 | the smiley dictionary gets `smilies[code] = img` and nothing else changes |
| Parser.BBCodeParser.Render | precise_bbcode/bbcode/parser.py:402-408 | `render` is `_render_tokens` of `_drop_syntactic_errors` of `get_tokens`, under the parser's stores and settings |
| LegacyParser.WordFields | precise_bbcode/parser.py:21 | `re.findall(placeholder_re, s)`: the word runs between braces, in order; `LegacyParser.WordFieldsAreWords` and `LegacyParser.TwoWordFields` state it |
| LegacyParser.WordRunSpec | precise_bbcode/parser.py:21 | the run is made of word characters and stops at the first character that is not one |
| LegacyParser.WordFieldsAreWords | precise_bbcode/parser.py:21 | every name `re.findall(placeholder_re, ...)` finds is a non-empty run of word characters |
| LegacyParser.TypeName | precise_bbcode/parser.py:208 | the placeholder type is a prefix of the name that does not end in a digit, and only digits were dropped |
| LegacyParser.LegacyCheckEntry | precise_bbcode/parser.py:207-215 | one entry: its type (the key without trailing digits) must be in `PLACEHOLDERS_RE` or `InvalidBBCodePlaholder` is raised, and its pattern must match the content or the result is False |
| LegacyParser.LegacyValidateSpec | precise_bbcode/parser.py:201-216 | the first entry that does not pass decides, True when none fails; `LegacyParser.LegacyValidateFormat` and `LegacyParser.LegacyValidIff` are proved against it |
| LegacyParser.LegacyValidateFormat | precise_bbcode/parser.py:201-216 | the loop over the dictionary returns what the recursive definition gives: the first invalid entry's outcome, else `True` |
| LegacyParser.LegacyEntryValid | precise_bbcode/parser.py:207-215 | an entry is valid exactly when its type has a pattern, its content is given and the pattern is found in it |
| LegacyParser.LegacyValidIff | precise_bbcode/parser.py:201-216 | the dictionary is valid exactly when every entry is |
| LegacyParser.DigitsHaveNoType | precise_bbcode/parser.py:208-213 | a name made of digits only has the empty type, which has no pattern |
| LegacyParser.ValidWordPlain | precise_bbcode/parser.py:155-160 | a name that passes validation is one `str.format` looks up literally |
| LegacyParser.LegacyRenderDefaultSpec | precise_bbcode/parser.py:138-160 | `_render_default`: the dictionary from the definition's fields, then the re-emitted definition when the check fails and the formatted HTML when it passes (rows `LegacyRenderDefaultValid` and `LegacyRenderDefaultInvalid`) |
| LegacyParser.LegacyRenderDefault | precise_bbcode/parser.py:138-160 | `_render_default`, with its loop restoring the fields key by key, returns what the spec function gives |
| LegacyParser.LegacyRenderDefaultValid | precise_bbcode/parser.py:154-160 | valid content renders as the format string with each `{name}` of the definition replaced by its value and every other character, braces included, kept |
| LegacyParser.LegacyRenderDefaultInvalid | precise_bbcode/parser.py:148-152 | for a definition `pre{k1}mid{k2}post` whose placeholder check fails, the output is the definition with its two fields replaced by the content and the option text, keeping the literal text with an option and dropping its '=' signs without one |
| LegacyParser.CallRenderer | precise_bbcode/parser.py:138-186 | the installed renderer called by name: the default renderer of a definition and format, `_render_list`, `_render_url`, or a pool tag's `render` |
| LegacyParser.LegacyOptions | precise_bbcode/parser.py:129-130 | the options looked up by name are those stored with each installed renderer, for exactly the installed names |
| LegacyParser.WithDefaults | precise_bbcode/parser.py:188-199 | the twelve renderers `init_renderers` installs, in order, with their keyword options; `LegacyParser.DefaultTagNames` and `LegacyParser.DefaultEntries` state its keys and entries |
| LegacyParser.DefaultTagNames | precise_bbcode/parser.py:87 | `init_renderers` installs exactly the names of `DEFAULT_TAGS` |
| LegacyParser.LegacyListOptions | precise_bbcode/parser.py:192 | `list` gets the default options with `strip` set (`transform_newlines` is already on by default) |
| LegacyParser.LegacyListItemOptions | precise_bbcode/parser.py:193 | `[*]` is closed by a newline, the next `[*]` and the end of its list, and strips its content |
| LegacyParser.LegacyOneFlagOptions | precise_bbcode/parser.py:194-199 | `quote` strips, `code` does not render embedded tags, `url` and `img` leave links alone |
| LegacyParser.TextDefinitionFields | precise_bbcode/parser.py:139 | a definition `pre{TEXT}post` with no other '{' has TEXT as its only field |
| LegacyParser.LegacyTextValidation | precise_bbcode/parser.py:207-215 | a TEXT-only dictionary is valid exactly when the text pattern is found in the content |
| LegacyParser.LegacyTextTagRenders | precise_bbcode/parser.py:138-160 | a TEXT-only tag renders accepted content into the format string and, with no option, other content as the tag was written |
| LegacyParser.DefaultEntries | precise_bbcode/parser.py:188-199 | the `b`, `list`, `*` and `url` entries of the table hold the renderer and options `init_renderers` gives them |
| LegacyParser.LegacyStrongRenders | precise_bbcode/parser.py:188 | `b` renders `<strong>v</strong>` for accepted content and `[b]v[/b]` otherwise |
| LegacyParser.LegacyBBCodeParser.constructor | precise_bbcode/parser.py:103-109 | the three settings are taken and the default renderers installed |
| LegacyParser.LegacyBBCodeParser.AddRenderer | precise_bbcode/parser.py:111-130 | the tag's entry becomes the renderer with the defaults updated by the keyword arguments; the settings are unchanged |
| LegacyParser.LegacyBBCodeParser.AddDefaultRenderer | precise_bbcode/parser.py:132-161 | the tag's entry becomes the `_render_default` closure over the two strings, with its options |
| LegacyParser.LegacyBBCodeParser.InitRenderers | precise_bbcode/parser.py:163-199 | the twelve default tags are installed over the table, in order |
| LegacyParser.LegacyBBCodeParser.Render | precise_bbcode/parser.py:526-532 | `render` is `_render_tokens` of `_drop_syntactic_errors` of `get_tokens`, with the parser's renderers and no smilies |
| TagDefinition.AlnumWordChars | precise_bbcode/parser.py:16-17 | a `[A-Za-z0-9]` word is exactly a text of letters and digits |
| TagDefinition.AlnumRunSpec | precise_bbcode/parser.py:16-17 | the run at the head of a text is a word and stops at the first character that is neither a letter nor a digit |
| TagDefinition.MatchSound | precise_bbcode/parser.py:16-17 | what the standard or standalone definition pattern accepts is a definition of that shape, spelled exactly as the input without a final newline |
| TagDefinition.MatchComplete | precise_bbcode/parser.py:16-17 | every definition of the right shape is accepted, with the names, option and content it was written with |
| TagDefinition.SpellChomp | precise_bbcode/parser.py:16-17 | a spelled definition holds no newline, so `$` has nothing to drop |
| TagDefinition.MatchDefinition | precise_bbcode/parser.py:16-17 | `bbcodde_standard_re` / `bbcodde_standalone_re` as a matcher; `TagDefinition.MatchSound` and `TagDefinition.MatchComplete` prove it matches exactly the texts the patterns describe |
| TagDefinition.BoldDefinition | precise_bbcode/parser.py:16 | `[b]{TEXT}[/b]` is a standard definition named `b` with content TEXT |
| TagDefinition.StandardNotStandalone | precise_bbcode/parser.py:16-17 | a standard definition is never accepted by the standalone pattern |
| PySort.StrLessIrreflexive | precise_bbcode/models.py:103 | no string sorts before itself |
| PySort.StrLessTransitive | precise_bbcode/models.py:103 | the order of Python strings is transitive |
| PySort.StrLessTotal | precise_bbcode/models.py:103 | of two different strings one sorts before the other |
| PySort.SortedUniqueSpec | precise_bbcode/models.py:102-103 | `sorted(list(set(l)))` is strictly increasing and holds the elements of `l` |
| PySort.IncreasingUnique | precise_bbcode/models.py:102-103 | two strictly increasing lists with the same elements are equal |
| PySort.SortedUniqueFixed | precise_bbcode/models.py:102-104 | a list equals `sorted(list(set(l)))` exactly when it is strictly increasing |
| Models.TypeNames | precise_bbcode/models.py:108 | each type name is its placeholder's name without trailing digits, position by position |
| Models.KnownTypes | precise_bbcode/models.py:109 | the placeholder types found among the keys of `PLACEHOLDERS_RE`, in order; `Models.KnownTypesAll` states when all are |
| Models.KnownTypesAll | precise_bbcode/models.py:109-110 | filtering the known types leaves the list unchanged exactly when every type is known |
| Models.Clean | precise_bbcode/models.py:77-114 | every failure `clean` reports is a `ValidationError` |
| Models.CheckPlaceholders | precise_bbcode/models.py:95-112 | the placeholder checks fail only with `ValidationError` |
| Models.PlaceholdersAccepted | precise_bbcode/models.py:95-112 | the placeholder checks pass exactly when both texts use the same names, the definition's are strictly increasing and every type is known |
| Models.ValidTag | precise_bbcode/models.py:77-114 | what `clean` accepts: a definition of its kind's shape, a standard tag closing with its own name, a name not installed, valid placeholders; `Models.CleanAccepts` proves `clean` accepts exactly these |
| Models.CleanAccepts | precise_bbcode/models.py:77-114 | `clean` passes exactly when the definition matches its pattern, standard tags close with their own name, the name is not installed and the placeholder checks hold |
| Models.CleanRejectsRepeats | precise_bbcode/models.py:101-104 | a placeholder named twice in the definition makes `clean` fail |
| Models.KnownKeysNoInvalid | precise_bbcode/parser.py:207-213 | validating a dictionary whose keys all have known types never raises `InvalidBBCodePlaholder` |
| Models.CleanedNeverInvalidPlaceholder | precise_bbcode/models.py:106-112 | a tag that passed `clean`, once installed, never fails on an unknown placeholder type, whatever its content and option |
| Models.OptionFields | precise_bbcode/models.py:135-138 | only fields named like an attribute of `BBCodeTagOptions` are kept, each one a field of the row |
| Models.ColumnsOf | precise_bbcode/models.py:27-67 | one column per tag option, named after it and holding its value |
| Models.BBCodeTag.constructor | precise_bbcode/models.py:21-67 | a new row has the given definition and replacement and every other column at its declared default |
| Models.BBCodeTag.Save | precise_bbcode/models.py:116-122 | the tag name becomes the definition's start name; a definition the pattern does not match raises `AttributeError`; its frame lets it write `tag_name` only, so every other column is kept |
| Models.BBCodeTag.ParserArgs | precise_bbcode/models.py:124-140 | the arguments are name, definition and replacement, and the keyword arguments are the option fields in field order |
| Models.OptionFieldsOfRow | precise_bbcode/models.py:135-138 | the option fields of a row are exactly its option columns |
| Models.ColumnsRebuild | precise_bbcode/parser.py:129 | keyword arguments spelling out every column rebuild the options they were taken from |
| Models.ParserArgsRebuildOptions | precise_bbcode/parser.py:129 | the options `add_default_renderer` builds from `parser_args` are exactly the row's options |
| TagBase.NewTagClass | precise_bbcode/tag_base.py:19-42 | a subclass is created exactly when its `tag_name` is a string of letters and digits (one final newline allowed); a missing or falsy name raises `ImproperlyConfigured`, another type `TypeError`, other text `ValueError` |
| TagBase.AlnumTagNameChars | precise_bbcode/tag_base.py:36 | the accepted names are the non-empty runs of ASCII letters and digits, optionally followed by one newline |
| TagBase.OptionKeyIff | precise_bbcode/tag_base.py:68-75 | the test on each attribute keeps exactly the names of the tag options |
| TagBase.Options | precise_bbcode/tag_base.py:68-75 | the loop over the class's own attributes returns those named like an option, in order |
| TagBase.OwnOptionsMembers | precise_bbcode/tag_base.py:68-75 | an entry is kept exactly when it is an attribute of the class named like an option |
| TagBase.OwnOptionsUnique | precise_bbcode/tag_base.py:68-75 | no option name is returned twice |
| TagBase.OptionsSet | precise_bbcode/parser.py:557 | an option the class sets itself reaches the legacy parser as the truth value of the attribute |
| TagBase.OptionsUnset | precise_bbcode/parser.py:557 | an option the class does not set keeps the parser's default |
| TagPool.Register | precise_bbcode/tag_pool.py:43-69 | registration succeeds exactly for a `BBCodeTag` subclass whose name is neither registered nor stored with custom tags allowed, raising `ImproperlyConfigured`, `TagAlreadyRegistered` or `TagAlreadyCreated` otherwise; on success one entry is added and the others kept |
| TagPool.Unregister | precise_bbcode/tag_pool.py:71-81 | unregistration succeeds exactly for a registered name, raising `AttributeError` or `TagNotRegistered` otherwise; on success that one entry is removed |
| TagPool.TagPool.constructor | precise_bbcode/tag_pool.py:33-35 | the pool starts empty and not yet discovered |
| TagPool.TagPool.DiscoverTags | precise_bbcode/tag_pool.py:37-41 | the first call performs the discovered registrations in order up to the first exception; later calls change nothing |
| TagPool.TagPool.RegisterTag | precise_bbcode/tag_pool.py:43-69 | the pool becomes what `Register` gives, or stays as it was when it raises |
| TagPool.TagPool.UnregisterTag | precise_bbcode/tag_pool.py:71-81 | the pool becomes what `Unregister` gives, or stays as it was when it raises |
| TagPool.TagPool.GetTags | precise_bbcode/tag_pool.py:83-85 | after discovery, the registered classes are returned, or the exception discovery raised |
| TagPool.RegisterUnregister | precise_bbcode/tag_pool.py:43-81 | unregistering a tag just registered gives the pool back |
| TagPool.UnregisterRegister | precise_bbcode/tag_pool.py:43-81 | registering again a tag just unregistered gives the pool back, unless the database now holds its name |
| TagPool.RegisterTwice | precise_bbcode/tag_pool.py:55-59 | a name cannot be registered twice |
| TagPool.RegisterAll | precise_bbcode/tag_pool.py:37-69 | the registrations of the discovered modules, in order, stopping at the first exception; `TagPool.RegisterAllKeeps` states what it keeps |
| TagPool.RegisterAllKeeps | precise_bbcode/tag_pool.py:37-69 | loading keeps every registered tag, and a load that raises nothing registers every tag found under its name |
| PlaceholderPool.Register | precise_bbcode/placeholder_pool.py:35-57 | registration succeeds exactly for a `BBCodePlaceholder` subclass whose name is not registered, raising `ImproperlyConfigured` or `PlaceholderAlreadyRegistered` otherwise; on success one entry is added and the others kept |
| PlaceholderPool.Unregister | precise_bbcode/placeholder_pool.py:59-70 | unregistration succeeds exactly for a registered name, raising `AttributeError` or `PlaceholderNotRegistered` otherwise; on success that one entry is removed |
| PlaceholderPool.PlaceholderPool.constructor | precise_bbcode/placeholder_pool.py:25-27 | the pool starts empty and not yet discovered |
| PlaceholderPool.PlaceholderPool.DiscoverPlaceholders | precise_bbcode/placeholder_pool.py:29-33 | the first call performs the discovered registrations in order up to the first exception; later calls change nothing |
| PlaceholderPool.PlaceholderPool.RegisterPlaceholder | precise_bbcode/placeholder_pool.py:35-57 | the pool becomes what `Register` gives, or stays as it was when it raises |
| PlaceholderPool.PlaceholderPool.UnregisterPlaceholder | precise_bbcode/placeholder_pool.py:59-70 | the pool becomes what `Unregister` gives, or stays as it was when it raises |
| PlaceholderPool.PlaceholderPool.GetPlaceholders | precise_bbcode/placeholder_pool.py:72-74 | after discovery, the registered classes are returned, or the exception discovery raised |
| PlaceholderPool.RegisterUnregister | precise_bbcode/placeholder_pool.py:35-70 | unregistering a placeholder just registered gives the pool back |
| PlaceholderPool.UnregisterRegister | precise_bbcode/placeholder_pool.py:35-70 | registering again a placeholder just unregistered gives the pool back |
| PlaceholderPool.RegisterAllKeeps | precise_bbcode/placeholder_pool.py:29-57 | loading keeps every registered placeholder, and a load that raises nothing registers every placeholder found under its name |

## Left out

- The regular expressions `url_re`, `_email_re`, `_text_re` and `_domain_re` are too large to hand-code. They are parameters of the model (`Matchers.Env`), so every property is proved for any matcher. A URL match the supplied function reports outside the text is read as no match.
- The `validate` of user-written placeholder classes and the `render` of user-written tag classes are code the model cannot see. They are parameters too (`Env.customValidate`, `Env.customRender`).
- Character classes are ASCII: `\w` and `\d` in patterns stand for ASCII letters, digits and '_'. Python would also accept other Unicode letters and digits. `lower`/`upper` map only ASCII letters. `isspace` and `\s` follow Python's full set.
- The RANGE and CHOICE placeholders used by some tests are not defined in the modelled files. RANGE also parses floats. Neither is modelled.
- The link markers `'-*-bbcode-link-{id(match)}-{pos}-*-'` depend on object identity. They are a parameter of the model and are taken to be absent from the text and never matched by the URL pattern. `RenderProps.LinkRendered` makes these assumptions explicit: the marker survives escaping and the smiley pass and occurs only where it was put.
- Render.PullLinksLoop: the URL search after a replacement resumes after the inserted marker rather than at its start. The two agree because a marker ends in non-word characters and cannot start or hold a match.
- `str.format` is modelled only for plain `{key}` fields and doubled braces. A field with a conversion, a format spec, an attribute or an index gives `FormatUnsupported` instead of Python's own result or exception.
- Repair.OptionsOf stands for `self.bbcodes[token.tag_name]._options`. A name that is not installed falls back to the default options where Python raises `KeyError`. `Parser.LexRegistered` proves that the lexer only hands installed names to the repair pass, so the fallback is never used by `render`.
- Django persistence is left out: the model fields as columns, `super().clean()`, `super().save()` and the database queries. The database lookup in `register_tag` is the `Store` parameter: the stored names and the `BBCODE_ALLOW_CUSTOM_TAGS` setting.
- Module discovery (`load('bbcode_tags')` and `load('bbcode_placeholders')`) is modelled as the sequence of registrations the discovered modules make. The first exception ends the load.
- TagPool.TagArg, PlaceholderPool.PlaceholderArg: only classes are passed. `issubclass` on an argument that is not a class raises `TypeError`, which is not modelled.
- TagPool.TagPool.GetTags, PlaceholderPool.PlaceholderPool.GetPlaceholders: the pools are maps, so the result is the set of registered classes. The insertion order of the dictionary's `values()` is not kept.
- The error messages of `ImproperlyConfigured` and `ValidationError` keep their meaning, not their exact text. Messages built with `{!r}` are not modelled.
- TagBase.Options: the class's own attributes `vars(cls)` are given in definition order with distinct names. Attributes inherited from a base class are not seen by `vars` and are not modelled.
- The global singletons (`get_parser`, `_load_parser`, the `tag_pool` and `placeholder_pool` instances) are left out. So are `BBCodeParserLoader` and the `_init_bbcode_tags` and `_init_custom_bbcode_tags` glue. The options those glue functions pass are modelled (`TagBase.OptionsSet`, `Models.ParserArgsRebuildOptions`).
- The printing debug helper `_print_lexical_token_stream`, `__repr__`/`__unicode__`, template tags, form fields, admin and settings modules are not part of this model.
- URL quoting and XSS filtering of the `url` tag, and the `InvalidBBCodeTag` definition-syntax checks, are not implemented in the modelled files. They are not modelled.
