/**
 * The parts of Python's `str` that the BBCode processor relies on, over `seq<char>`:
 * `isspace`, `strip`, ASCII `lower`/`upper`, `find` of one character, `count`,
 * `startswith`, the `in` operator and `replace`, plus `''.join`.
 */
module Text {

  /** Python's `str.isspace` (also the class `\s` of `re` on `str` patterns). */
  predicate IsSpace(c: char) {
    c == ' ' || ('\t' <= c <= '\r') || ('\U{1c}' <= c <= '\U{1f}') || c == '\U{85}' || c == '\U{a0}'
    || c == '\U{1680}' || ('\U{2000}' <= c <= '\U{200a}') || c == '\U{2028}' || c == '\U{2029}'
    || c == '\U{202f}' || c == '\U{205f}' || c == '\U{3000}'
  }

  predicate IsAsciiLetter(c: char) { 'a' <= c <= 'z' || 'A' <= c <= 'Z' }

  predicate IsAsciiDigit(c: char) { '0' <= c <= '9' }

  predicate IsAsciiAlnum(c: char) { IsAsciiLetter(c) || IsAsciiDigit(c) }

  /** The class `\w` restricted to ASCII. */
  predicate IsWordChar(c: char) { IsAsciiAlnum(c) || c == '_' }

  function LowerChar(c: char): char {
    if 'A' <= c <= 'Z' then (c as int + 32) as char else c
  }

  function UpperChar(c: char): char {
    if 'a' <= c <= 'z' then (c as int - 32) as char else c
  }

  function Lower(s: string): (r: string)
    ensures |r| == |s| && forall i :: 0 <= i < |s| ==> r[i] == LowerChar(s[i])
  {
    if s == [] then [] else [LowerChar(s[0])] + Lower(s[1..])
  }

  function Upper(s: string): (r: string)
    ensures |r| == |s| && forall i :: 0 <= i < |s| ==> r[i] == UpperChar(s[i])
  {
    if s == [] then [] else [UpperChar(s[0])] + Upper(s[1..])
  }

  predicate StartsWith(s: string, p: string) {
    |p| <= |s| && s[..|p|] == p
  }

  predicate EndsWith(s: string, p: string) {
    |p| <= |s| && s[|s| - |p|..] == p
  }

  /** Python's `sub in s`. */
  predicate Contains(s: string, sub: string)
    decreases |s|
  {
    StartsWith(s, sub) || (|s| > 0 && Contains(s[1..], sub))
  }

  /** Python's `s.find(c, start)` for a one-character needle: the first index at or after `start`, or -1. */
  function Find(s: string, c: char, start: nat): (r: int)
    ensures r == -1 || (start <= r < |s| && s[r] == c)
    decreases |s| - start
  {
    if start >= |s| then -1 else if s[start] == c then start else Find(s, c, start + 1)
  }

  /** `find` returns the first occurrence: no `c` lies between `start` and the result. */
  lemma {:induction false} FindFirst(s: string, c: char, start: nat)
    ensures Find(s, c, start) == -1 ==> forall k :: start <= k < |s| ==> s[k] != c
    ensures Find(s, c, start) != -1 ==> forall k :: start <= k < Find(s, c, start) ==> s[k] != c
    decreases |s| - start
  {
    if start < |s| && s[start] != c {
      FindFirst(s, c, start + 1);
    }
  }

  /** `find` from the start succeeds when `c` occurs. */
  lemma FindFound(s: string, c: char)
    requires c in s
    ensures Find(s, c, 0) >= 0
  {
    FindFirst(s, c, 0);
  }

  /** An index holding `c` with no earlier `c` since `start` is what `find` returns. */
  lemma FindAt(s: string, c: char, start: nat, j: nat)
    requires start <= j < |s| && s[j] == c
    requires forall k :: start <= k < j ==> s[k] != c
    ensures Find(s, c, start) == j
  {
    FindFirst(s, c, start);
  }

  /** Python's `s.count(c)` for a one-character needle. */
  function Count(s: string, c: char): nat
  {
    if s == [] then 0 else (if s[0] == c then 1 else 0) + Count(s[1..], c)
  }

  /** `count` adds up over a concatenation. */
  lemma {:induction false} CountAppend(a: string, b: string, c: char)
    ensures Count(a + b, c) == Count(a, c) + Count(b, c)
  {
    if a == [] {
      assert a + b == b;
    } else {
      assert (a + b)[1..] == a[1..] + b;
      CountAppend(a[1..], b, c);
    }
  }

  /** `s.count(c)` is zero exactly when `c` does not occur. */
  lemma {:induction false} CountZero(s: string, c: char)
    ensures Count(s, c) == 0 <==> c !in s
  {
    if s != [] {
      CountZero(s[1..], c);
      assert s == [s[0]] + s[1..];
    }
  }

  /** An occurrence of a non-empty text starts with an occurrence of its first character. */
  lemma {:induction false} ContainsHead(s: string, sub: string)
    requires sub != [] && Contains(s, sub)
    ensures sub[0] in s
    decreases |s|
  {
    if !StartsWith(s, sub) {
      ContainsHead(s[1..], sub);
    } else {
      assert s[0] == sub[0];
    }
  }

  /** Number of leading whitespace characters. */
  function LeadLen(s: string): (n: nat)
    ensures n <= |s|
    ensures forall k :: 0 <= k < n ==> IsSpace(s[k])
    ensures n < |s| ==> !IsSpace(s[n])
  {
    if s == [] || !IsSpace(s[0]) then 0 else 1 + LeadLen(s[1..])
  }

  /** Index where the trailing whitespace starts. */
  function TrailStart(s: string): (n: nat)
    ensures n <= |s|
    ensures forall k :: n <= k < |s| ==> IsSpace(s[k])
    ensures n > 0 ==> !IsSpace(s[n - 1])
  {
    if s == [] || !IsSpace(s[|s| - 1]) then |s| else TrailStart(s[..|s| - 1])
  }

  /**
   * Python's `s.strip()`: the slice of `s` left once the white space at both ends is cut off,
   * which neither starts nor ends with white space.
   */
  function Strip(s: string): (r: string)
    ensures exists i, j :: (0 <= i <= j <= |s| && r == s[i..j]
                            && (forall k :: 0 <= k < i ==> IsSpace(s[k])) && (forall k :: j <= k < |s| ==> IsSpace(s[k])))
    ensures r == [] || (!IsSpace(r[0]) && !IsSpace(r[|r| - 1]))
    ensures |r| <= |s|
  {
    var i := LeadLen(s);
    if i == |s| then
      assert s[i..i] == [];
      []
    else
      var j := TrailStart(s);
      assert i < j by {
        assert !IsSpace(s[i]);
      }
      s[i..j]
  }

  /** Python's `''.join(ss)`. */
  function Concat(ss: seq<string>): string
  {
    if ss == [] then [] else ss[0] + Concat(ss[1..])
  }

  lemma {:induction false} ConcatAppend(a: seq<string>, b: seq<string>)
    ensures Concat(a + b) == Concat(a) + Concat(b)
  {
    if a == [] {
      assert a + b == b;
    } else {
      assert (a + b)[1..] == a[1..] + b;
      ConcatAppend(a[1..], b);
    }
  }

  /**
   * Python's `s.replace(old, new)`: every non-overlapping occurrence of `old`, scanned from
   * the left, is replaced; an empty `old` inserts `new` around every character.
   */
  function Replace(s: string, pat: string, rep: string): string
    decreases |s|
  {
    if |pat| == 0 then
      (if |s| == 0 then rep else rep + [s[0]] + Replace(s[1..], pat, rep))
    else if StartsWith(s, pat) then rep + Replace(s[|pat|..], pat, rep)
    else if |s| == 0 then []
    else [s[0]] + Replace(s[1..], pat, rep)
  }

  /** An occurrence of `pat` starts at index `i` of `s`. */
  predicate MatchAt(s: string, pat: string, i: nat)
  {
    i <= |s| && StartsWith(s[i..], pat)
  }

  /** No occurrence starts at `i` when one of its characters differs. */
  lemma MismatchAt(s: string, pat: string, i: nat, j: nat)
    requires j < |pat| && i + j < |s| && s[i + j] != pat[j]
    ensures !MatchAt(s, pat, i)
  {
    if i <= |s| && |pat| <= |s[i..]| {
      assert s[i..][..|pat|][j] == s[i + j];
    }
  }

  /** A text is its first `n` characters followed by the rest. */
  lemma SplitAfter(s: string, n: nat)
    requires n <= |s|
    ensures s == s[..n] + s[n..]
  {
  }

  lemma ConcatAssoc(h: string, p: string, q: string)
    ensures h + (p + q) == (h + p) + q
  {
  }

  /** A non-empty text is its first character followed by the rest. */
  lemma ConsAppend(x: string, r: string)
    requires x != []
    ensures [x[0]] + (x[1..] + r) == x + r
  {
  }

  /** An occurrence at the head is replaced and the scan goes on after it. */
  lemma ReplaceMatchHead(pat: string, z: string, rep: string)
    requires |pat| > 0
    ensures Replace(pat + z, pat, rep) == rep + Replace(z, pat, rep)
  {
    assert (pat + z)[..|pat|] == pat;
    assert (pat + z)[|pat|..] == z;
  }

  /** Where the pattern does not start, the first character is kept. */
  lemma ReplaceKeepsHead(s: string, pat: string, rep: string)
    requires |pat| > 0 && |s| > 0 && !StartsWith(s, pat)
    ensures Replace(s, pat, rep) == [s[0]] + Replace(s[1..], pat, rep)
  {
  }

  /** Replacing a text that does not occur leaves the string unchanged. */
  lemma {:induction false} ReplaceAbsent(s: string, pat: string, rep: string)
    requires pat != [] && !Contains(s, pat)
    ensures Replace(s, pat, rep) == s
  {
    if |s| > 0 {
      ReplaceAbsent(s[1..], pat, rep);
    }
  }

  /** A character absent from both the input and the replacement text is absent from the result. */
  lemma {:induction false} ReplaceKeepsAbsent(s: string, pat: string, rep: string, c: char)
    requires c !in s && c !in rep
    ensures c !in Replace(s, pat, rep)
    decreases |s|
  {
    if |pat| == 0 {
      if |s| > 0 { ReplaceKeepsAbsent(s[1..], pat, rep, c); }
    } else if StartsWith(s, pat) {
      ReplaceKeepsAbsent(s[|pat|..], pat, rep, c);
    } else if |s| > 0 {
      ReplaceKeepsAbsent(s[1..], pat, rep, c);
    }
  }

  /** Replacing one character by a text that does not contain it removes the character. */
  lemma {:induction false} ReplaceCharRemoves(s: string, c: char, rep: string)
    requires c !in rep
    ensures c !in Replace(s, [c], rep)
    decreases |s|
  {
    if |s| > 0 {
      ReplaceCharRemoves(s[1..], c, rep);
      if StartsWith(s, [c]) {
        assert s[1..] == s[|[c]|..];
      }
    }
  }

  /** Replacing one character distributes over concatenation. */
  lemma {:induction false} ReplaceCharConcat(a: string, b: string, c: char, rep: string)
    ensures Replace(a + b, [c], rep) == Replace(a, [c], rep) + Replace(b, [c], rep)
    decreases |a|
  {
    if a == [] {
      assert a + b == b;
    } else {
      var x := a[0];
      ReplaceCharConcat(a[1..], b, c, rep);
      assert a == [x] + a[1..];
      assert a + b == [x] + (a[1..] + b);
      ReplaceCharHead(x, a[1..], c, rep);
      ReplaceCharHead(x, a[1..] + b, c, rep);
      ConcatAssoc(if x == c then rep else [x], Replace(a[1..], [c], rep), Replace(b, [c], rep));
    }
  }

  /** A one-character pattern at the head is replaced or kept, and the scan goes on with the rest. */
  lemma ReplaceCharHead(x: char, z: string, c: char, rep: string)
    ensures Replace([x] + z, [c], rep) == (if x == c then rep else [x]) + Replace(z, [c], rep)
  {
    if x == c {
      ReplaceMatchHead([c], z, rep);
    } else {
      assert ([x] + z)[0] == x;
      assert ([x] + z)[1..] == z;
      MismatchAt([x] + z, [c], 0, 0);
      assert !StartsWith(([x] + z)[0..], [c]);
      assert ([x] + z)[0..] == [x] + z;
    }
  }

  /** A one-character pattern that does not occur leaves the string unchanged. */
  lemma {:induction false} ReplaceCharAbsent(s: string, d: char, rep: string)
    requires d !in s
    ensures Replace(s, [d], rep) == s
    decreases |s|
  {
    if |s| > 0 {
      assert s[0] != d;
      assert !StartsWith(s, [d]);
      ReplaceCharAbsent(s[1..], d, rep);
    }
  }

  /** On a one-character string a one-character pattern either matches entirely or not at all. */
  lemma ReplaceOneChar(c: char, d: char, rep: string)
    ensures Replace([c], [d], rep) == if c == d then rep else [c]
  {
    assert [c][1..] == [];
    assert [c][|[d]|..] == [];
  }
}
