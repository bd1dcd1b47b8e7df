/** The bookkeeping of the subscription registry stated on values: how the
    playlist listing splits into owned and followed playlists, which
    playlists a subscribe or unsubscribe call touches, and what the
    unsubscribe code does as written. */
module Registry {
  import opened Common
  import opened Text
  import opened Remote

  datatype Failure =
    | NotFollowed(playlistId: string)      // subscribe: the user owns or does not follow the id
    | NotSubscribed(playlistId: string)    // unsubscribe: the id is not subscribed
    | NotSubscriptable                     // TypeError: a SubscribedPlaylist indexed as a dict
    | MissingKey(playlistId: string)       // KeyError: a subscription deleted twice

  // ---------------------------------------------------------------------
  // refresh_user_playlists

  /** The user's playlists split into the ones the user owns and the ones
      followed for updates. */
  datatype Catalog = Catalog(owned: map<string, PlaylistRecord>, followed: map<string, PlaylistRecord>)

  /** Someone else's playlist, or a collaborative one of the user's own. */
  predicate IsFollowed(p: PlaylistRecord, userId: string)
  {
    p.ownerId != userId || p.collaborative
  }

  /** The catalog after inserting the listed playlists one by one; a later
      item overwrites an earlier one with the same id. */
  function Classify(items: seq<PlaylistRecord>, userId: string): Catalog
    decreases |items|
  {
    if items == [] then Catalog(map[], map[])
    else
      var c := Classify(items[..|items| - 1], userId);
      var p := items[|items| - 1];
      if IsFollowed(p, userId) then Catalog(c.owned, c.followed[p.id := p])
      else Catalog(c.owned[p.id := p], c.followed)
  }

  /** An id is followed iff some listed playlist with that id is followed,
      owned iff some listed playlist with that id is not, and each map
      sends an id to a listed playlist with that id. */
  lemma {:induction false} ClassifyKeys(items: seq<PlaylistRecord>, userId: string)
    ensures forall k :: k in Classify(items, userId).followed <==> exists p | p in items :: p.id == k && IsFollowed(p, userId)
    ensures forall k :: k in Classify(items, userId).owned <==> exists p | p in items :: p.id == k && !IsFollowed(p, userId)
    ensures forall k | k in Classify(items, userId).followed ::
              Classify(items, userId).followed[k].id == k && Classify(items, userId).followed[k] in items && IsFollowed(Classify(items, userId).followed[k], userId)
    ensures forall k | k in Classify(items, userId).owned ::
              Classify(items, userId).owned[k].id == k && Classify(items, userId).owned[k] in items && !IsFollowed(Classify(items, userId).owned[k], userId)
    decreases |items|
  {
    if items != [] {
      var init := items[..|items| - 1];
      var last := items[|items| - 1];
      var c0 := Classify(init, userId);
      var c := Classify(items, userId);
      ClassifyKeys(init, userId);
      assert items == init + [last];
      assert forall p :: p in items <==> p in init || p == last;
      if IsFollowed(last, userId) {
        assert c.owned == c0.owned && c.followed == c0.followed[last.id := last];
      } else {
        assert c.followed == c0.followed && c.owned == c0.owned[last.id := last];
      }
      forall k
        ensures k in c.followed <==> exists p | p in items :: p.id == k && IsFollowed(p, userId)
      {
        if k in c.followed && !(IsFollowed(last, userId) && k == last.id) {
          var p :| p in init && p.id == k && IsFollowed(p, userId);
          assert p in items;
        }
      }
      forall k
        ensures k in c.owned <==> exists p | p in items :: p.id == k && !IsFollowed(p, userId)
      {
        if k in c.owned && !(!IsFollowed(last, userId) && k == last.id) {
          var p :| p in init && p.id == k && !IsFollowed(p, userId);
          assert p in items;
        }
      }
    }
  }

  predicate DistinctIds(items: seq<PlaylistRecord>)
  {
    forall i, j | 0 <= i < j < |items| :: items[i].id != items[j].id
  }

  /** With distinct ids the listing is partitioned: the two maps are
      disjoint, together hold every listed id, and each playlist is in
      the followed map iff its owner is someone else or it is
      collaborative. */
  lemma ClassifyPartition(items: seq<PlaylistRecord>, userId: string)
    requires DistinctIds(items)
    ensures var c := Classify(items, userId);
            && c.followed.Keys !! c.owned.Keys
            && c.followed.Keys + c.owned.Keys == (set p | p in items :: p.id)
            && (forall p | p in items && IsFollowed(p, userId) :: p.id in c.followed && c.followed[p.id] == p)
            && (forall p | p in items && !IsFollowed(p, userId) :: p.id in c.owned && c.owned[p.id] == p)
  {
    var c := Classify(items, userId);
    ClassifyKeys(items, userId);
    forall p, q | p in items && q in items && p.id == q.id
      ensures p == q
    {
      var i :| 0 <= i < |items| && items[i] == p;
      var j :| 0 <= j < |items| && items[j] == q;
      assert i == j;
    }
  }

  // ---------------------------------------------------------------------
  // subscribe_to_playlists

  /** The index of the first explicit id that is not followed (|ids| if
      there is none): subscribe raises there. */
  function FirstUnfollowed(ids: seq<string>, followed: set<string>): (i: nat)
    ensures i <= |ids|
    ensures forall j | 0 <= j < i :: ids[j] in followed
    ensures i < |ids| ==> ids[i] !in followed
    decreases |ids|
  {
    if ids == [] || ids[0] !in followed then 0 else 1 + FirstUnfollowed(ids[1..], followed)
  }

  /** The followed playlists whose name contains one of the patterns,
      case-insensitively. */
  function PatternMatches(followed: map<string, PlaylistRecord>, contains: seq<string>): set<string>
  {
    set k | k in followed && AnyMatch(followed[k].name, contains)
  }

  /** The playlists a subscribe call adds: the explicit ids up to the first
      one that raises; when none raises, all explicit ids and all pattern
      matches; in both cases minus what is already subscribed. */
  function SubscribeTargets(followed: map<string, PlaylistRecord>, subscribed: set<string>, ids: seq<string>, contains: seq<string>): set<string>
  {
    var bad := FirstUnfollowed(ids, followed.Keys);
    (if bad < |ids| then Elems(ids[..bad]) else Elems(ids) + PatternMatches(followed, contains)) - subscribed
  }

  /** The followed playlists among `keys` whose name contains the pattern. */
  function MatchesAmong(followed: map<string, PlaylistRecord>, keys: set<string>, pattern: string): set<string>
  {
    set k | k in keys && k in followed && Matches(followed[k].name, pattern)
  }

  lemma AnyMatchSnoc(name: string, patterns: seq<string>, pattern: string)
    ensures AnyMatch(name, patterns + [pattern]) <==> AnyMatch(name, patterns) || Matches(name, pattern)
  {
    assert forall q :: q in patterns + [pattern] <==> q in patterns || q == pattern;
  }

  /** Pattern matching one pattern at a time, over the followed playlists. */
  lemma PatternMatchesSnoc(followed: map<string, PlaylistRecord>, patterns: seq<string>, pattern: string)
    ensures PatternMatches(followed, patterns + [pattern])
         == PatternMatches(followed, patterns) + MatchesAmong(followed, followed.Keys, pattern)
  {
    forall k | k in followed
      ensures AnyMatch(followed[k].name, patterns + [pattern]) <==> AnyMatch(followed[k].name, patterns) || Matches(followed[k].name, pattern)
    {
      AnyMatchSnoc(followed[k].name, patterns, pattern);
    }
  }

  /** Subscribing only adds followed playlists that were not subscribed,
      and repeating the same call adds nothing. */
  lemma SubscribeTargetsSound(followed: map<string, PlaylistRecord>, subscribed: set<string>, ids: seq<string>, contains: seq<string>)
    ensures var targets := SubscribeTargets(followed, subscribed, ids, contains);
            && targets <= followed.Keys
            && targets !! subscribed
            && SubscribeTargets(followed, subscribed + targets, ids, contains) == {}
  {
    var bad := FirstUnfollowed(ids, followed.Keys);
    assert bad == |ids| ==> ids[..bad] == ids;
    forall x | x in ids[..bad]
      ensures x in followed
    {
      var j :| 0 <= j < bad && ids[j] == x;
    }
  }

  /** The ids that subscribing seeds the ledger with: the tracks of every
      entry added after the epoch. */
  function SeedIds(rp: RemotePlaylist): set<string>
    requires ReadableAfter(Flatten(rp.pages), 0)
  {
    set t | t in Fetched(rp, None, None) :: t.id
  }

  /** Every entry present at subscribe time (added after the epoch) has its
      track id in the seed, and the seed holds nothing else. */
  lemma SeedCoversEntries(rp: RemotePlaylist)
    requires ReadableAfter(Flatten(rp.pages), 0)
    ensures forall e | e in Flatten(rp.pages) && e.addedAt > 0 :: e.track.value.id in SeedIds(rp)
    ensures forall id | id in SeedIds(rp) :: exists e | e in Flatten(rp.pages) :: e.addedAt > 0 && Readable(e) && e.track.value.id == id
  {
    var es := Flatten(rp.pages);
    forall e | e in es && e.addedAt > 0
      ensures e.track.value.id in SeedIds(rp)
    {
      AddedAfterMembers(es, 0, Normalize(e));
    }
    forall id | id in SeedIds(rp)
      ensures exists e | e in es :: e.addedAt > 0 && Readable(e) && e.track.value.id == id
    {
      var t :| t in AddedAfter(es, 0) && t.id == id;
      AddedAfterMembers(es, 0, t);
    }
  }

  // ---------------------------------------------------------------------
  // unsubscribe_from_playlists

  /** The index of the first explicit id that is not subscribed when its
      turn comes (|ids| if there is none); earlier ids are removed one by
      one, so a repeated id counts as not subscribed. */
  function FirstNotSubscribed(ids: seq<string>, keys: set<string>): (i: nat)
    ensures i <= |ids|
    ensures forall j | 0 <= j < i :: ids[j] in keys
    ensures Distinct(ids[..i])
    ensures i < |ids| ==> ids[i] !in keys || ids[i] in ids[..i]
    decreases |ids|
  {
    if ids == [] || ids[0] !in keys then 0
    else
      var rest := FirstNotSubscribed(ids[1..], keys - {ids[0]});
      assert ids[..rest + 1] == [ids[0]] + ids[1..][..rest];
      rest + 1
  }

  /** Distinct subscribed ids are all removed without an error. */
  lemma DistinctSubscribedIdsRemoved(ids: seq<string>, keys: set<string>)
    requires forall j | 0 <= j < |ids| :: ids[j] in keys
    requires Distinct(ids)
    ensures FirstNotSubscribed(ids, keys) == |ids|
  {
  }

  /** The subscribed playlists (by id, with their names) that some pattern
      matches: the corrected pattern removal deletes exactly these. */
  function PatternRemoval(names: map<string, string>, contains: seq<string>): set<string>
  {
    set k | k in names && AnyMatch(names[k], contains)
  }

  /** The subscriptions among `keys` whose name contains the pattern. */
  function NamesMatching(names: map<string, string>, keys: set<string>, pattern: string): set<string>
  {
    set k | k in keys && k in names && Matches(names[k], pattern)
  }

  /** Pattern removal one pattern at a time, over the subscriptions. */
  lemma PatternRemovalSnoc(names: map<string, string>, patterns: seq<string>, pattern: string)
    ensures PatternRemoval(names, patterns + [pattern])
         == PatternRemoval(names, patterns) + NamesMatching(names, names.Keys, pattern)
  {
    forall k | k in names
      ensures AnyMatch(names[k], patterns + [pattern]) <==> AnyMatch(names[k], patterns) || Matches(names[k], pattern)
    {
      AnyMatchSnoc(names[k], patterns, pattern);
    }
  }

  /** Explicit-id unsubscribe as written: the first id raises, either
      because it is not subscribed or because the record is then indexed
      as a dictionary; nothing is removed. */
  function UnsubscribeIdsAsWritten(keys: set<string>, ids: seq<string>): (r: (set<string>, Option<Failure>))
    ensures r.0 == keys
    ensures r.1.None? <==> ids == []
  {
    if ids == [] then (keys, None)
    else if ids[0] !in keys then (keys, Some(NotSubscribed(ids[0])))
    else (keys, Some(NotSubscriptable))
  }

  /** Any explicit-id unsubscribe raises and removes nothing, while the
      evidently intended removal (FirstNotSubscribed) deletes a subscribed
      id without an error. */
  lemma ExplicitUnsubscribeRaises(keys: set<string>, id: string)
    requires id in keys
    ensures UnsubscribeIdsAsWritten(keys, [id]) == (keys, Some(NotSubscriptable))
    ensures FirstNotSubscribed([id], keys) == 1
  {
    DistinctSubscribedIdsRemoved([id], keys);
  }

  /** One pattern of the as-written removal loop over the snapshot `order`
      of subscribed ids: a match deletes its key and raises KeyError when
      the key is already gone. */
  function RemoveMatchingAsWritten(names: map<string, string>, order: seq<string>, keys: set<string>, pattern: string): (r: Option<set<string>>)
    requires forall k | k in order :: k in names
    ensures r.Some? ==> r.value <= keys && keys - r.value <= Elems(order)
    decreases |order|
  {
    if order == [] then Some(keys)
    else
      var k := order[0];
      assert order == [k] + order[1..];
      ElemsCons(k, order[1..]);
      if Matches(names[k], pattern) then
        if k in keys then RemoveMatchingAsWritten(names, order[1..], keys - {k}, pattern) else None
      else RemoveMatchingAsWritten(names, order[1..], keys, pattern)
  }

  /** The as-written pattern removal: every pattern in turn over the same
      snapshot; None stands for the KeyError. */
  function PatternRemovalAsWritten(names: map<string, string>, order: seq<string>, keys: set<string>, contains: seq<string>): (r: Option<set<string>>)
    requires forall k | k in order :: k in names
    ensures r.Some? ==> r.value <= keys && keys - r.value <= Elems(order)
    decreases |contains|
  {
    if contains == [] then Some(keys)
    else
      match RemoveMatchingAsWritten(names, order, keys, contains[0])
      case None => None
      case Some(keys') => PatternRemovalAsWritten(names, order, keys', contains[1..])
  }

  function MatchedBy(names: map<string, string>, order: seq<string>, pattern: string): set<string>
    requires forall k | k in order :: k in names
  {
    set k | k in order && Matches(names[k], pattern)
  }

  /** One pattern succeeds iff all its matches are still present, and then
      removes exactly them. */
  lemma {:induction false} RemoveMatchingExact(names: map<string, string>, order: seq<string>, keys: set<string>, pattern: string)
    requires forall k | k in order :: k in names
    requires Distinct(order)
    ensures RemoveMatchingAsWritten(names, order, keys, pattern)
         == if MatchedBy(names, order, pattern) <= keys then Some(keys - MatchedBy(names, order, pattern)) else None
    decreases |order|
  {
    if order != [] {
      var k := order[0];
      var rest := order[1..];
      DistinctTail(order);
      MatchedByCons(names, order, pattern);
      var m := MatchedBy(names, order, pattern);
      var m' := MatchedBy(names, rest, pattern);
      if Matches(names[k], pattern) {
        if k in keys {
          RemoveMatchingExact(names, rest, keys - {k}, pattern);
          assert RemoveMatchingAsWritten(names, order, keys, pattern) == RemoveMatchingAsWritten(names, rest, keys - {k}, pattern);
          assert (m' <= keys - {k}) == (m <= keys);
          assert (keys - {k}) - m' == keys - m;
        } else {
          assert RemoveMatchingAsWritten(names, order, keys, pattern) == None;
          assert !(m <= keys);
        }
      } else {
        assert m == m';
        RemoveMatchingExact(names, rest, keys, pattern);
        assert RemoveMatchingAsWritten(names, order, keys, pattern) == RemoveMatchingAsWritten(names, rest, keys, pattern);
      }
    } else {
      assert MatchedBy(names, order, pattern) == {};
      assert keys - {} == keys;
    }
  }

  lemma DistinctTail(order: seq<string>)
    requires Distinct(order) && order != []
    ensures order[0] !in order[1..] && Distinct(order[1..])
  {
    assert forall j | 0 <= j < |order| - 1 :: order[1..][j] == order[j + 1];
  }

  /** The matches of a list are those of its tail, plus its head when it matches. */
  lemma MatchedByCons(names: map<string, string>, order: seq<string>, pattern: string)
    requires forall k | k in order :: k in names
    requires order != [] && order[0] !in order[1..]
    ensures order[0] !in MatchedBy(names, order[1..], pattern)
    ensures MatchedBy(names, order, pattern)
         == MatchedBy(names, order[1..], pattern) + (if Matches(names[order[0]], pattern) then {order[0]} else {})
  {
    assert order == [order[0]] + order[1..];
  }

  /** A playlist that is gone and matched by a pattern makes the removal raise. */
  lemma {:induction false} MissingRaises(names: map<string, string>, order: seq<string>, keys: set<string>, contains: seq<string>, k: string, b: nat)
    requires forall x | x in order :: x in names
    requires Distinct(order)
    requires k in order && k !in keys
    requires b < |contains| && Matches(names[k], contains[b])
    ensures PatternRemovalAsWritten(names, order, keys, contains) == None
    decreases |contains|
  {
    RemoveMatchingExact(names, order, keys, contains[0]);
    if b > 0 && RemoveMatchingAsWritten(names, order, keys, contains[0]).Some? {
      var keys' := RemoveMatchingAsWritten(names, order, keys, contains[0]).value;
      MissingRaises(names, order, keys', contains[1..], k, b - 1);
    }
  }

  /** As written, a playlist matched by two of the patterns is deleted by
      the first and makes the second raise KeyError. */
  lemma {:induction false} OverlappingPatternsRaise(names: map<string, string>, order: seq<string>, keys: set<string>, contains: seq<string>, k: string, a: nat, b: nat)
    requires forall x | x in order :: x in names
    requires Distinct(order)
    requires k in order
    requires a < b < |contains| && Matches(names[k], contains[a]) && Matches(names[k], contains[b])
    ensures PatternRemovalAsWritten(names, order, keys, contains) == None
    decreases |contains|
  {
    RemoveMatchingExact(names, order, keys, contains[0]);
    var r := RemoveMatchingAsWritten(names, order, keys, contains[0]);
    if r.Some? {
      if a == 0 {
        MissingRaises(names, order, r.value, contains[1..], k, b - 1);
      } else {
        OverlappingPatternsRaise(names, order, r.value, contains[1..], k, a - 1, b - 1);
      }
    }
  }

  /** No subscribed name is matched by two different patterns. */
  predicate NoOverlap(names: map<string, string>, contains: seq<string>)
  {
    forall k, a, b | k in names && 0 <= a < b < |contains| :: !(Matches(names[k], contains[a]) && Matches(names[k], contains[b]))
  }

  /** The patterns' removal set is the first pattern's matches plus the
      rest's. */
  lemma PatternRemovalCons(names: map<string, string>, contains: seq<string>)
    requires contains != []
    ensures PatternRemoval(names, contains)
         == (set k | k in names && Matches(names[k], contains[0])) + PatternRemoval(names, contains[1..])
  {
    assert contains == [contains[0]] + contains[1..];
    assert forall k | k in names :: AnyMatch(names[k], contains) <==> Matches(names[k], contains[0]) || AnyMatch(names[k], contains[1..]);
  }

  lemma NoOverlapTail(names: map<string, string>, contains: seq<string>)
    requires contains != [] && NoOverlap(names, contains)
    ensures NoOverlap(names, contains[1..])
    ensures forall k | k in PatternRemoval(names, contains[1..]) :: !Matches(names[k], contains[0])
  {
    var rest := contains[1..];
    forall k, a, b | k in names && 0 <= a < b < |rest|
      ensures !(Matches(names[k], rest[a]) && Matches(names[k], rest[b]))
    {
      assert rest[a] == contains[a + 1] && rest[b] == contains[b + 1];
    }
    forall k | k in PatternRemoval(names, rest)
      ensures !Matches(names[k], contains[0])
    {
      var q :| q in rest && Matches(names[k], q);
      var j :| 0 <= j < |rest| && rest[j] == q;
      assert contains[j + 1] == q;
    }
  }

  /** When no name is matched twice, the as-written removal succeeds and
      deletes exactly the corrected PatternRemoval set. */
  lemma {:induction false} DisjointPatternsAgree(names: map<string, string>, order: seq<string>, keys: set<string>, contains: seq<string>)
    requires Distinct(order) && (set x | x in order) == names.Keys
    requires PatternRemoval(names, contains) <= keys
    requires NoOverlap(names, contains)
    ensures PatternRemovalAsWritten(names, order, keys, contains) == Some(keys - PatternRemoval(names, contains))
    decreases |contains|
  {
    if contains != [] {
      var p := contains[0];
      var rest := contains[1..];
      var m := MatchedBy(names, order, p);
      var tail := PatternRemoval(names, rest);
      assert m == set k | k in names && Matches(names[k], p);
      PatternRemovalCons(names, contains);
      NoOverlapTail(names, contains);
      RemoveMatchingExact(names, order, keys, p);
      assert tail <= keys - m;
      DisjointPatternsAgree(names, order, keys - m, rest);
      assert (keys - m) - tail == keys - PatternRemoval(names, contains);
    } else {
      assert PatternRemoval(names, contains) == {};
      assert keys - {} == keys;
    }
  }
}
