/**
 * Python's ordering of `str` values (lexicographic by code point) and `sorted(list(set(l)))` on a
 * list of strings.
 */
module PySort {

  /** `a < b` on Python strings. */
  predicate StrLess(a: string, b: string)
    decreases |a|
  {
    if b == [] then false
    else if a == [] then true
    else if a[0] != b[0] then a[0] < b[0]
    else StrLess(a[1..], b[1..])
  }

  lemma {:induction false} StrLessIrreflexive(a: string)
    ensures !StrLess(a, a)
    decreases |a|
  {
    if a != [] {
      StrLessIrreflexive(a[1..]);
    }
  }

  lemma {:induction false} StrLessTransitive(a: string, b: string, c: string)
    requires StrLess(a, b) && StrLess(b, c)
    ensures StrLess(a, c)
    decreases |a|
  {
    if a != [] && a[0] == b[0] && b[0] == c[0] {
      StrLessTransitive(a[1..], b[1..], c[1..]);
    }
  }

  lemma {:induction false} StrLessTotal(a: string, b: string)
    requires a != b
    ensures StrLess(a, b) || StrLess(b, a)
    decreases |a|
  {
    if a != [] && b != [] && a[0] == b[0] {
      assert a == [a[0]] + a[1..] && b == [b[0]] + b[1..];
      StrLessTotal(a[1..], b[1..]);
    }
  }

  /** The elements of a list, as `set(l)`. */
  function Elems(l: seq<string>): set<string>
  {
    set x | x in l
  }

  /** Each element is smaller than every later one: sorted, without repetitions. */
  predicate StrictlyIncreasing(l: seq<string>)
  {
    forall i, j :: 0 <= i < j < |l| ==> StrLess(l[i], l[j])
  }

  /** A strictly increasing list repeats no element. */
  lemma IncreasingDistinct(l: seq<string>)
    requires StrictlyIncreasing(l)
    ensures forall i, j :: 0 <= i < |l| && 0 <= j < |l| && i != j ==> l[i] != l[j]
  {
    forall i, j | 0 <= i < |l| && 0 <= j < |l| && i != j
      ensures l[i] != l[j]
    {
      if i < j {
        StrLessIrreflexive(l[i]);
      } else {
        StrLessIrreflexive(l[j]);
      }
    }
  }

  /** `x` placed in a strictly increasing list, unless it is there already. */
  function Insert(x: string, s: seq<string>): seq<string>
    decreases |s|
  {
    if s == [] then [x]
    else if x == s[0] then s
    else if StrLess(x, s[0]) then [x] + s
    else [s[0]] + Insert(x, s[1..])
  }

  /** `sorted(list(set(l)))`. */
  function SortedUnique(l: seq<string>): seq<string>
    decreases |l|
  {
    if l == [] then [] else Insert(l[0], SortedUnique(l[1..]))
  }

  /** A first element below every element of a strictly increasing rest keeps the list increasing. */
  lemma ConsIncreasing(x: string, s: seq<string>)
    requires StrictlyIncreasing(s)
    requires forall y :: y in s ==> StrLess(x, y)
    ensures StrictlyIncreasing([x] + s)
  {
    var l := [x] + s;
    forall i, j | 0 <= i < j < |l|
      ensures StrLess(l[i], l[j])
    {
      assert l[j] == s[j - 1];
      if i > 0 {
        assert l[i] == s[i - 1];
      }
    }
  }

  lemma {:induction false} InsertSpec(x: string, s: seq<string>)
    requires StrictlyIncreasing(s)
    ensures StrictlyIncreasing(Insert(x, s))
    ensures Elems(Insert(x, s)) == Elems(s) + {x}
    decreases |s|
  {
    if s == [] {
    } else if x == s[0] {
    } else if StrLess(x, s[0]) {
      forall y | y in s
        ensures StrLess(x, y)
      {
        var k :| 0 <= k < |s| && s[k] == y;
        if k > 0 {
          StrLessTransitive(x, s[0], y);
        }
      }
      ConsIncreasing(x, s);
      assert Elems([x] + s) == Elems(s) + {x};
    } else {
      StrLessTotal(x, s[0]);
      var t := s[1..];
      assert StrictlyIncreasing(t) by {
        forall i, j | 0 <= i < j < |t|
          ensures StrLess(t[i], t[j])
        {
          assert t[i] == s[i + 1] && t[j] == s[j + 1];
        }
      }
      InsertSpec(x, t);
      forall y | y in Insert(x, t)
        ensures StrLess(s[0], y)
      {
        assert y in Elems(Insert(x, t));
        if y != x {
          var k :| 0 <= k < |t| && t[k] == y;
          assert s[k + 1] == y;
        }
      }
      ConsIncreasing(s[0], Insert(x, t));
      assert s == [s[0]] + t;
      assert Elems([s[0]] + Insert(x, t)) == {s[0]} + Elems(Insert(x, t));
      assert Elems(s) == {s[0]} + Elems(t);
    }
  }

  /** `sorted(list(set(l)))` is strictly increasing and holds the elements of `l`. */
  lemma {:induction false} SortedUniqueSpec(l: seq<string>)
    ensures StrictlyIncreasing(SortedUnique(l))
    ensures Elems(SortedUnique(l)) == Elems(l)
    decreases |l|
  {
    if l != [] {
      SortedUniqueSpec(l[1..]);
      InsertSpec(l[0], SortedUnique(l[1..]));
      assert l == [l[0]] + l[1..];
      assert Elems(l) == {l[0]} + Elems(l[1..]);
    }
  }

  /** The first element of a strictly increasing list is below every other element. */
  lemma HeadLeast(l: seq<string>, y: string)
    requires StrictlyIncreasing(l) && l != [] && y in l && y != l[0]
    ensures StrLess(l[0], y)
  {
    var k :| 0 <= k < |l| && l[k] == y;
  }

  lemma FirstInElems(l: seq<string>)
    ensures l != [] ==> l[0] in Elems(l)
  {
  }

  /** Two strictly increasing lists with the same elements are the same list. */
  lemma {:induction false} IncreasingUnique(a: seq<string>, b: seq<string>)
    requires StrictlyIncreasing(a) && StrictlyIncreasing(b) && Elems(a) == Elems(b)
    ensures a == b
    decreases |a|
  {
    if a == [] {
      FirstInElems(b);
    } else {
      assert a[0] in Elems(a);
      assert b != [];
      assert b[0] in Elems(b);
      if a[0] != b[0] {
        HeadLeast(a, b[0]);
        HeadLeast(b, a[0]);
        StrLessTransitive(a[0], b[0], a[0]);
        StrLessIrreflexive(a[0]);
      }
      var a', b' := a[1..], b[1..];
      assert StrictlyIncreasing(a') by {
        forall i, j | 0 <= i < j < |a'| ensures StrLess(a'[i], a'[j]) {
          assert a'[i] == a[i + 1] && a'[j] == a[j + 1];
        }
      }
      assert StrictlyIncreasing(b') by {
        forall i, j | 0 <= i < j < |b'| ensures StrLess(b'[i], b'[j]) {
          assert b'[i] == b[i + 1] && b'[j] == b[j + 1];
        }
      }
      IncreasingDistinct(a);
      IncreasingDistinct(b);
      assert Elems(a') == Elems(a) - {a[0]} by {
        assert a == [a[0]] + a';
        forall y | y in a' ensures y != a[0] {
          var k :| 0 <= k < |a'| && a'[k] == y;
          assert a[k + 1] == y;
        }
      }
      assert Elems(b') == Elems(b) - {b[0]} by {
        assert b == [b[0]] + b';
        forall y | y in b' ensures y != b[0] {
          var k :| 0 <= k < |b'| && b'[k] == y;
          assert b[k + 1] == y;
        }
      }
      IncreasingUnique(a', b');
      assert a == [a[0]] + a' && b == [b[0]] + b';
    }
  }

  /** A list equals `sorted(list(set(l)))` exactly when it is strictly increasing. */
  lemma SortedUniqueFixed(l: seq<string>)
    ensures l == SortedUnique(l) <==> StrictlyIncreasing(l)
  {
    SortedUniqueSpec(l);
    if StrictlyIncreasing(l) {
      IncreasingUnique(l, SortedUnique(l));
    }
  }
}
