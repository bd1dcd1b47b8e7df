/** Small shared vocabulary: an optional value and the concatenation of a
    sequence of sequences (API result pages, feed request batches). */
module Common {

  datatype Option<T> = None | Some(value: T)

  /** Concatenation of all parts, in order. */
  function Flatten<T>(parts: seq<seq<T>>): seq<T>
  {
    if parts == [] then [] else parts[0] + Flatten(parts[1..])
  }

  lemma {:induction false} FlattenAppend<T>(a: seq<seq<T>>, b: seq<seq<T>>)
    ensures Flatten(a + b) == Flatten(a) + Flatten(b)
  {
    if a != [] {
      assert (a + b)[1..] == a[1..] + b;
      FlattenAppend(a[1..], b);
    } else {
      assert a + b == b;
    }
  }

  /** Flattening the first i + 1 parts adds part i at the end. */
  lemma FlattenSnoc<T>(parts: seq<seq<T>>, i: nat)
    requires i < |parts|
    ensures Flatten(parts[..i + 1]) == Flatten(parts[..i]) + parts[i]
  {
    assert parts[..i + 1] == parts[..i] + [parts[i]];
    FlattenAppend(parts[..i], [parts[i]]);
    assert Flatten([parts[i]]) == parts[i] + Flatten([]);
  }

  /** Everything in the flattening of a prefix of the parts, followed by a
      prefix of the next part, is in the flattening of all parts. */
  lemma FlattenPrefixMembers<T>(parts: seq<seq<T>>, i: nat, j: nat)
    requires i < |parts| && j <= |parts[i]|
    ensures forall x | x in Flatten(parts[..i]) + parts[i][..j] :: x in Flatten(parts)
  {
    assert parts == parts[..i] + [parts[i]] + parts[i + 1..];
    FlattenAppend(parts[..i] + [parts[i]], parts[i + 1..]);
    FlattenSnoc(parts, i);
    assert parts[..i + 1] == parts[..i] + [parts[i]];
    var whole := Flatten(parts[..i]) + parts[i] + Flatten(parts[i + 1..]);
    assert Flatten(parts) == whole;
    var pre := Flatten(parts[..i]) + parts[i][..j];
    assert pre == whole[..|pre|];
  }
}
