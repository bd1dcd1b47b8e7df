/** The two NumPy calls of the feed commit, specified by what they return:
    np.unique(ids) is the ascending sequence of the distinct ids, and
    np.array_split(a, k) cuts a into k consecutive sections whose sizes
    differ by at most one, the longer sections first. */
module Batching {
  import opened Common
  import opened Text

  /** The provider's limit on ids per add-tracks request. */
  const MaxBatch: nat := 100

  /** The least string of a non-empty sequence. */
  function Least(s: seq<string>): (m: string)
    requires |s| > 0
    ensures m in s
    ensures forall x | x in s :: m == x || Less(m, x)
  {
    if |s| == 1 then s[0]
    else
      var m := Least(s[1..]);
      assert s == [s[0]] + s[1..];
      if Less(s[0], m) then
        LessBelowAll(s[0], m, s[1..]);
        s[0]
      else
        (if s[0] != m then LessTotal(s[0], m); m else m)
  }

  lemma LessBelowAll(a: string, b: string, s: seq<string>)
    requires Less(a, b)
    requires forall x | x in s :: b == x || Less(b, x)
    ensures forall x | x in s :: Less(a, x)
  {
    forall x | x in s
      ensures Less(a, x)
    {
      if b != x {
        LessTransitive(a, b, x);
      }
    }
  }

  /** s with every occurrence of m removed. */
  function Without(s: seq<string>, m: string): (r: seq<string>)
    ensures Elems(r) == Elems(s) - {m}
    ensures |r| <= |s|
    ensures m in s ==> |r| < |s|
  {
    if s == [] then []
    else
      var rest := Without(s[1..], m);
      ElemsCons(s[0], s[1..]);
      assert s == [s[0]] + s[1..];
      if s[0] == m then rest
      else
        ElemsCons(s[0], rest);
        [s[0]] + rest
  }

  /** np.unique on an array of ids: sort and remove duplicates. */
  function Unique(s: seq<string>): (r: seq<string>)
    ensures StrictlySorted(r)
    ensures Elems(r) == Elems(s)
    decreases |s|
  {
    if s == [] then []
    else
      var m := Least(s);
      var rest := Unique(Without(s, m));
      assert forall j | 0 <= j < |rest| :: Less(m, rest[j]) by {
        forall j | 0 <= j < |rest|
          ensures Less(m, rest[j])
        {
          assert rest[j] in Elems(rest);
          assert rest[j] in s && rest[j] != m;
        }
      }
      ElemsCons(m, rest);
      [m] + rest
  }

  /** A strictly sorted sequence is determined by its set of elements, so
      the result of np.unique does not depend on the order of its input. */
  lemma {:induction false} SortedBySet(a: seq<string>, b: seq<string>)
    requires StrictlySorted(a) && StrictlySorted(b)
    requires Elems(a) == Elems(b)
    ensures a == b
    decreases |a|
  {
    if a == [] {
      assert forall i | 0 <= i < |b| :: b[i] in Elems(b);
    } else {
      assert a[0] in Elems(a);
      assert a[0] in Elems(b);
      assert b != [];
      assert b[0] in Elems(b);
      assert b[0] in Elems(a);
      assert b[0] in a && a[0] in b;
      var i :| 0 <= i < |a| && a[i] == b[0];
      var j :| 0 <= j < |b| && b[j] == a[0];
      if i > 0 && j > 0 {
        LessAsymmetric(a[0], a[i]);
      }
      if i > 0 && j == 0 {
        LessIrreflexive(a[0]);
      }
      if i == 0 && j > 0 {
        LessIrreflexive(b[0]);
      }
      assert a[0] == b[0];
      SortedTail(a);
      SortedTail(b);
      SortedBySet(a[1..], b[1..]);
      assert a == [a[0]] + a[1..] && b == [b[0]] + b[1..];
    }
  }

  lemma SortedTail(a: seq<string>)
    requires StrictlySorted(a) && a != []
    ensures StrictlySorted(a[1..])
    ensures Elems(a[1..]) == Elems(a) - {a[0]}
  {
    assert a == [a[0]] + a[1..];
    forall j | 0 <= j < |a[1..]|
      ensures a[1..][j] != a[0]
    {
      LessIrreflexive(a[0]);
    }
  }

  /** A strictly sorted sequence has as many elements as its set. */
  lemma {:induction false} SortedCardinality(a: seq<string>)
    requires StrictlySorted(a)
    ensures |Elems(a)| == |a|
    decreases |a|
  {
    if a != [] {
      SortedTail(a);
      SortedCardinality(a[1..]);
      assert Elems(a) == Elems(a[1..]) + {a[0]};
    }
  }

  function Ceil(n: nat, d: nat): nat
    requires d > 0
  {
    (n + d - 1) / d
  }

  /** k sections of s: the first r of length q + 1, the others of length q
      (the section-size rule of np.array_split). */
  function Sections<T>(s: seq<T>, q: nat, r: nat, k: nat): (parts: seq<seq<T>>)
    requires r <= k && |s| == q * k + r
    ensures |parts| == k
    ensures Flatten(parts) == s
    ensures forall i | 0 <= i < k :: |parts[i]| == if i < r then q + 1 else q
    decreases k
  {
    if k == 0 then []
    else
      var n := if r > 0 then q + 1 else q;
      assert q * k == q * (k - 1) + q;
      var rest := Sections(s[n..], q, if r > 0 then r - 1 else 0, k - 1);
      assert s == s[..n] + s[n..];
      [s[..n]] + rest
  }

  /** np.array_split(s, k). */
  function ArraySplit<T>(s: seq<T>, k: nat): seq<seq<T>>
    requires k > 0
  {
    Sections(s, |s| / k, |s| % k, k)
  }

  /** The add-tracks requests for the sorted distinct ids u: one request
      when there are at most 100 ids, otherwise np.array_split into
      ceil(n / 100) sections. */
  function FeedBatches<T>(u: seq<T>): seq<seq<T>>
  {
    if |u| <= MaxBatch then [u] else ArraySplit(u, Ceil(|u|, MaxBatch))
  }

  /** Batching loses and reorders nothing, needs ceil(n / 100) requests and
      never exceeds the provider limit; no request is empty. */
  lemma FeedBatchesSound<T>(u: seq<T>)
    requires |u| > 0
    ensures Flatten(FeedBatches(u)) == u
    ensures |FeedBatches(u)| == Ceil(|u|, MaxBatch)
    ensures forall b | b in FeedBatches(u) :: 0 < |b| <= MaxBatch
  {
    var n := |u|;
    if n <= MaxBatch {
      assert Flatten([u]) == u + Flatten([]);
    } else {
      var k := Ceil(n, MaxBatch);
      SplitBounds(n, k);
      var q, r := n / k, n % k;
      var parts := ArraySplit(u, k);
      forall b | b in parts
        ensures 0 < |b| <= MaxBatch
      {
        var i :| 0 <= i < |parts| && parts[i] == b;
      }
    }
  }

  /** With k = ceil(n / 100) sections each section has between 1 and 100
      elements. */
  lemma SplitBounds(n: nat, k: nat)
    requires n > MaxBatch && k == Ceil(n, MaxBatch)
    ensures 0 < k <= n
    ensures 1 <= n / k <= MaxBatch
    ensures n % k > 0 ==> n / k < MaxBatch
  {
    var q, r := n / k, n % k;
    assert 100 * k <= n + 99;
    assert n <= 100 * k;
    assert k <= n;
    assert n == q * k + r && r < k;
    assert q * k == n - r && n - r > 0;
    assert q >= 1;
    if q > 100 {
      MulGrows(101, q, k);
    }
    if r > 0 {
      assert q * k < 100 * k;
    }
  }

  lemma MulGrows(a: nat, b: nat, c: nat)
    requires a <= b
    ensures a * c <= b * c
  {
  }

  /** 250 new ids go out in three requests of 84, 83 and 83 ids. */
  lemma SplitOf250<T>(u: seq<T>)
    requires |u| == 250
    ensures |FeedBatches(u)| == 3
    ensures |FeedBatches(u)[0]| == 84 && |FeedBatches(u)[1]| == 83 && |FeedBatches(u)[2]| == 83
  {
    assert Ceil(250, MaxBatch) == 3;
    assert 250 / 3 == 83 && 250 % 3 == 1;
  }
}
