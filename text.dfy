/** String operations the subscriber relies on: Python's str.lower(), the
    substring test `pattern in name`, and the code-point order that NumPy
    uses when it sorts an array of strings. */
module Text {

  /** str.lower() restricted to ASCII letters. */
  function LowerChar(c: char): char
  {
    if 'A' <= c <= 'Z' then (c as int + 32) as char else c
  }

  function Lower(s: string): (r: string)
    ensures |r| == |s|
  {
    seq(|s|, i requires 0 <= i < |s| => LowerChar(s[i]))
  }

  /** Python's `needle in hay` for strings; the empty needle is in every string. */
  predicate Contains(hay: string, needle: string)
  {
    exists i | 0 <= i <= |hay| - |needle| :: OccursAt(hay, needle, i)
  }

  predicate OccursAt(hay: string, needle: string, i: int)
  {
    0 <= i <= |hay| - |needle| && hay[i..i + |needle|] == needle
  }

  /** The case-insensitive name test of subscribe and unsubscribe:
      the lowered pattern occurs in the lowered playlist name. */
  predicate Matches(name: string, pattern: string)
  {
    Contains(Lower(name), Lower(pattern))
  }

  predicate AnyMatch(name: string, patterns: seq<string>)
  {
    exists p | p in patterns :: Matches(name, p)
  }

  lemma EmptyPatternMatches(name: string)
    ensures Matches(name, "")
  {
    assert OccursAt(Lower(name), Lower(""), 0);
  }

  /** Lexicographic order on code points, a proper prefix coming first. */
  predicate Less(a: string, b: string)
    decreases |a|
  {
    if |a| == 0 then |b| > 0
    else if |b| == 0 then false
    else if a[0] != b[0] then a[0] < b[0]
    else Less(a[1..], b[1..])
  }

  lemma {:induction false} LessIrreflexive(a: string)
    ensures !Less(a, a)
    decreases |a|
  {
    if |a| > 0 {
      LessIrreflexive(a[1..]);
    }
  }

  lemma {:induction false} LessTransitive(a: string, b: string, c: string)
    requires Less(a, b) && Less(b, c)
    ensures Less(a, c)
    decreases |a|
  {
    if |a| > 0 && |b| > 0 && |c| > 0 && a[0] == b[0] && b[0] == c[0] {
      LessTransitive(a[1..], b[1..], c[1..]);
    }
  }

  lemma {:induction false} LessTotal(a: string, b: string)
    requires a != b
    ensures Less(a, b) || Less(b, a)
    decreases |a|
  {
    if |a| > 0 && |b| > 0 && a[0] == b[0] {
      assert a == [a[0]] + a[1..] && b == [b[0]] + b[1..];
      LessTotal(a[1..], b[1..]);
    }
  }

  lemma LessAsymmetric(a: string, b: string)
    requires Less(a, b)
    ensures !Less(b, a)
  {
    if Less(b, a) {
      LessTransitive(a, b, a);
      LessIrreflexive(a);
    }
  }

  /** The set of elements of a sequence of strings. */
  function Elems(s: seq<string>): set<string>
  {
    set x | x in s
  }

  lemma ElemsConcat(a: seq<string>, b: seq<string>)
    ensures Elems(a + b) == Elems(a) + Elems(b)
  {
    assert forall x :: x in a + b <==> x in a || x in b;
  }

  lemma ElemsCons(a: string, s: seq<string>)
    ensures Elems([a] + s) == {a} + Elems(s)
  {
    assert forall x :: x in [a] + s <==> x == a || x in s;
  }

  /** The elements of a prefix grow by one element at a time. */
  lemma ElemsSnoc(s: seq<string>, i: nat)
    requires i < |s|
    ensures Elems(s[..i + 1]) == Elems(s[..i]) + {s[i]}
  {
    assert s[..i + 1] == s[..i] + [s[i]];
    ElemsConcat(s[..i], [s[i]]);
    assert Elems([s[i]]) == {s[i]};
  }

  /** No string occurs twice. */
  predicate Distinct(s: seq<string>)
  {
    forall i, j | 0 <= i < j < |s| :: s[i] != s[j]
  }

  /** Strictly increasing, hence without duplicates. */
  predicate StrictlySorted(s: seq<string>)
  {
    forall i, j | 0 <= i < j < |s| :: Less(s[i], s[j])
  }
}
