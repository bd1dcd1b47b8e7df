/** The SpotifySubscriber object: the user's playlist catalog, the
    subscriptions with their ledgers, the feed and the feed log, and the
    operations that update them. The Spotify API is the immutable `World`
    value passed to each operation; `now` stands for datetime.utcnow(). */
module Subscriber {
  import opened Common
  import opened Text
  import opened Batching
  import opened Remote
  import opened Classes
  import opened Registry

  /** Every id in any of the map's sets. */
  function Union(a: map<string, set<string>>): set<string>
  {
    set k, id | k in a && id in a[k] :: id
  }

  lemma UnionInsert(a: map<string, set<string>>, k: string, v: set<string>)
    requires k !in a
    ensures Union(a[k := v]) == Union(a) + v
  {
    var b := a[k := v];
    forall id | id in Union(b)
      ensures id in Union(a) + v
    {
      var j :| j in b && id in b[j];
      if j != k {
        assert j in a && id in a[j];
      }
    }
    forall id | id in Union(a) + v
      ensures id in Union(b)
    {
      if id in v {
        assert k in b && id in b[k];
      } else {
        var j :| j in a && id in a[j];
        assert j in b && id in b[j];
      }
    }
  }

  /** A subscription just made from a followed playlist's record: its
      name, id, owner and snapshot come from the record, and its ledger
      holds every track present at subscribe time, stamped now. */
  ghost predicate IsNewSubscription(sp: SubscribedPlaylist, playlist: PlaylistRecord, rp: RemotePlaylist, now: int)
    requires ReadableAfter(Flatten(rp.pages), 0)
    reads sp
  {
    && sp.name == playlist.name && sp.id == playlist.id && sp.ownerId == playlist.ownerId
    && sp.snapshotId == playlist.snapshotId && sp.subscribeStamp == now
    && sp.trackIds == Stamp(SeedIds(rp), now)
  }

  /** The tracks present when a playlist is subscribed seed its ledger, so
      none of them is ever accepted from it by an update. */
  lemma SeededNeverAccepted(rp: RemotePlaylist, now: int, found: seq<FoundTrack>, userId: string, addOwn: bool)
    requires ReadableAfter(Flatten(rp.pages), 0)
    ensures AcceptedIds(found, userId, addOwn, Stamp(SeedIds(rp), now).Keys) !! SeedIds(rp)
  {
  }

  /** The first unfollowed index is determined by the followed prefix. */
  lemma FirstUnfollowedIs(ids: seq<string>, followed: set<string>, i: nat)
    requires i <= |ids|
    requires forall j | 0 <= j < i :: ids[j] in followed
    requires i < |ids| ==> ids[i] !in followed
    ensures FirstUnfollowed(ids, followed) == i
  {
  }

  lemma FirstUnfollowedAfter(ids: seq<string>, followed: set<string>, i: nat)
    requires i < |ids|
    requires forall j | 0 <= j <= i :: ids[j] in followed
    ensures i < FirstUnfollowed(ids, followed)
  {
  }

  lemma PatternMatchesMono(followed: map<string, PlaylistRecord>, contains: seq<string>, n: nat)
    requires n <= |contains|
    ensures PatternMatches(followed, contains[..n]) <= PatternMatches(followed, contains)
  {
    forall k | k in PatternMatches(followed, contains[..n])
      ensures k in PatternMatches(followed, contains)
    {
      var p :| p in contains[..n] && Matches(followed[k].name, p);
      assert p in contains;
    }
  }

  /** The ids update_feed accepts from one subscription with the given
      stored snapshot and ledger: the tracks the playlist returns for the
      feed's last update, filtered by adder and by the ledger. */
  function Accepts(world: World, id: string, snapshot: string, ledger: set<string>, lastUpdate: int, userId: string, addOwn: bool): set<string>
    requires Fetchable(world, id, Some(lastUpdate), Some(snapshot))
  {
    AcceptedIds(Fetched(world.playlists[id], Some(lastUpdate), Some(snapshot)), userId, addOwn, ledger)
  }

  lemma FirstNotSubscribedStep(ids: seq<string>, keys: set<string>, i: nat)
    requires i < |ids| && i <= FirstNotSubscribed(ids, keys)
    requires ids[i] in keys && ids[i] !in Elems(ids[..i])
    ensures i < FirstNotSubscribed(ids, keys)
  {
  }

  lemma FirstNotSubscribedStop(ids: seq<string>, keys: set<string>, i: nat)
    requires i <= |ids| && i <= FirstNotSubscribed(ids, keys)
    requires i < |ids| ==> ids[i] !in keys - Elems(ids[..i])
    ensures FirstNotSubscribed(ids, keys) == i
  {
  }

  /** Every entry of the first p + 1 pages past the cutoff is readable
      when every entry of all pages is. */
  lemma ReadablePages(pages: seq<seq<Entry>>, p: nat, cutoff: int)
    requires p < |pages| && ReadableAfter(Flatten(pages), cutoff)
    ensures Flatten(pages[..p + 1]) == Flatten(pages[..p]) + pages[p]
    ensures ReadableAfter(Flatten(pages[..p]) + pages[p], cutoff)
  {
    FlattenPrefixMembers(pages, p, |pages[p]|);
    assert pages[p][..|pages[p]|] == pages[p];
    FlattenSnoc(pages, p);
  }

  class SpotifySubscriber {
    const userId: string
    /** Playlists the user owns and that are not collaborative, by id. */
    var userPlaylists: map<string, PlaylistRecord>
    /** Playlists of other users, and collaborative ones, by id. */
    var followedPlaylists: map<string, PlaylistRecord>
    var subscribedPlaylists: map<string, SubscribedPlaylist>
    const subscriptionFeed: SubscriptionFeed
    /** The feed log: the ids added to the feed and when, side by side. */
    var feedLogIds: seq<string>
    var feedLogStamps: seq<int>

    /** Every map is keyed by the id of its value, and the two columns of
        the feed log have the same length. */
    ghost predicate Valid()
      reads this
    {
      && (forall k {:trigger userPlaylists[k]} | k in userPlaylists :: userPlaylists[k].id == k)
      && (forall k {:trigger followedPlaylists[k]} | k in followedPlaylists :: followedPlaylists[k].id == k)
      && (forall k {:trigger subscribedPlaylists[k]} | k in subscribedPlaylists :: subscribedPlaylists[k].id == k)
      && |feedLogIds| == |feedLogStamps|
    }

    /** First run without a save file: create the feed playlist, fetch the
        catalog; nothing is subscribed and the log is empty. */
    constructor (userId: string, world: World, feedId: string, feedName: string, now: int)
      ensures Valid()
      ensures this.userId == userId
      ensures fresh(subscriptionFeed)
      ensures subscriptionFeed.id == feedId && subscriptionFeed.name == feedName && subscriptionFeed.lastUpdate == now
      ensures userPlaylists == Classify(Flatten(world.listing), userId).owned
      ensures followedPlaylists == Classify(Flatten(world.listing), userId).followed
      ensures subscribedPlaylists == map[] && feedLogIds == [] && feedLogStamps == []
    {
      this.userId := userId;
      subscriptionFeed := new SubscriptionFeed(feedId, feedName, now);
      userPlaylists := map[];
      followedPlaylists := map[];
      subscribedPlaylists := map[];
      feedLogIds := [];
      feedLogStamps := [];
      new;
      RefreshUserPlaylists(world);
    }

    /** Rebuild both catalog maps from the listing, page by page. */
    method RefreshUserPlaylists(world: World)
      requires Valid()
      modifies this
      ensures Valid()
      ensures userPlaylists == Classify(Flatten(world.listing), userId).owned
      ensures followedPlaylists == Classify(Flatten(world.listing), userId).followed
      ensures subscribedPlaylists == old(subscribedPlaylists)
      ensures feedLogIds == old(feedLogIds) && feedLogStamps == old(feedLogStamps)
    {
      userPlaylists := map[];
      followedPlaylists := map[];
      for p := 0 to |world.listing|
        invariant Catalog(userPlaylists, followedPlaylists) == Classify(Flatten(world.listing[..p]), userId)
        invariant subscribedPlaylists == old(subscribedPlaylists)
        invariant feedLogIds == old(feedLogIds) && feedLogStamps == old(feedLogStamps)
      {
        AddListingPage(Flatten(world.listing[..p]), world.listing[p]);
        FlattenSnoc(world.listing, p);
      }
      assert world.listing[..|world.listing|] == world.listing;
      ClassifyKeys(Flatten(world.listing), userId);
    }

    /** The inner loop of _refresh_user_playlists over one page of the
        listing: file each playlist as followed (owned by someone else, or
        collaborative) or as the user's own. */
    method AddListingPage(ghost listed: seq<PlaylistRecord>, page: seq<PlaylistRecord>)
      requires Catalog(userPlaylists, followedPlaylists) == Classify(listed, userId)
      modifies this
      ensures Catalog(userPlaylists, followedPlaylists) == Classify(listed + page, userId)
      ensures subscribedPlaylists == old(subscribedPlaylists)
      ensures feedLogIds == old(feedLogIds) && feedLogStamps == old(feedLogStamps)
    {
      assert listed + page[..0] == listed;
      for j := 0 to |page|
        invariant Catalog(userPlaylists, followedPlaylists) == Classify(listed + page[..j], userId)
        invariant subscribedPlaylists == old(subscribedPlaylists)
        invariant feedLogIds == old(feedLogIds) && feedLogStamps == old(feedLogStamps)
      {
        var playlist := page[j];
        assert listed + page[..j + 1] == (listed + page[..j]) + [playlist];
        if playlist.ownerId != userId || playlist.collaborative {
          followedPlaylists := followedPlaylists[playlist.id := playlist];
        } else {
          userPlaylists := userPlaylists[playlist.id := playlist];
        }
      }
      assert page[..|page|] == page;
    }

    /** Fetch a playlist and return the tracks added strictly after the
        cutoff (the epoch when absent), in playlist order, with the current
        snapshot id; nothing when the comparison snapshot is non-empty and
        unchanged. */
    method GetPlaylistTracks(world: World, ownerId: string, playlistId: string, minTimestamp: Option<int> := None, compareSnapshot: Option<string> := None)
      returns (tracks: seq<FoundTrack>, snapshot: string)
      requires Fetchable(world, playlistId, minTimestamp, compareSnapshot)
      ensures snapshot == world.playlists[playlistId].snapshotId
      ensures tracks == Fetched(world.playlists[playlistId], minTimestamp, compareSnapshot)
    {
      var data := world.playlists[playlistId];
      var cutoff := Cutoff(minTimestamp);
      snapshot := data.snapshotId;
      if compareSnapshot.Some? && compareSnapshot.value != "" && data.snapshotId == compareSnapshot.value {
        return [], snapshot;
      }
      tracks := [];
      var pages := data.pages;
      for p := 0 to |pages|
        invariant ReadableAfter(Flatten(pages[..p]), cutoff)
        invariant tracks == AddedAfter(Flatten(pages[..p]), cutoff)
      {
        ReadablePages(pages, p, cutoff);
        AddedAfterAppend(Flatten(pages[..p]), pages[p], cutoff);
        tracks := ScanPage(pages[p], cutoff, tracks);
      }
      assert pages[..|pages|] == pages;
    }

    /** The inner loop of _get_playlist_tracks over one page: append the
        page's entries added after the cutoff, normalized, in order. */
    method ScanPage(page: seq<Entry>, cutoff: int, found: seq<FoundTrack>) returns (tracks: seq<FoundTrack>)
      requires ReadableAfter(page, cutoff)
      ensures tracks == found + AddedAfter(page, cutoff)
    {
      tracks := found;
      for j := 0 to |page|
        invariant ReadableAfter(page[..j], cutoff)
        invariant tracks == found + AddedAfter(page[..j], cutoff)
      {
        var entry := page[j];
        assert page[..j + 1][..j] == page[..j];
        assert forall e | e in page[..j + 1] :: e in page;
        if entry.addedAt > cutoff {
          tracks := tracks + [Normalize(entry)];
        }
      }
      assert page[..|page|] == page;
    }

    /** Every subscription in `before` is kept as the same object, and every
        other one was made from its followed record and the playlist as
        fetched now. */
    ghost predicate ExtendsWithNew(world: World, now: int, before: map<string, SubscribedPlaylist>)
      reads this, subscribedPlaylists.Values
    {
      && (forall k {:trigger before[k]} | k in before :: k in subscribedPlaylists && subscribedPlaylists[k] == before[k])
      && (forall k {:trigger subscribedPlaylists[k]} | k in subscribedPlaylists && k !in before ::
            && k in followedPlaylists && k in world.playlists
            && ReadableAfter(Flatten(world.playlists[k].pages), 0)
            && IsNewSubscription(subscribedPlaylists[k], followedPlaylists[k], world.playlists[k], now))
    }

    /** Fetch a followed playlist's tracks and record the subscription. */
    method AddSubscription(world: World, playlist: PlaylistRecord, now: int, ghost base: map<string, SubscribedPlaylist>)
      returns (sp: SubscribedPlaylist)
      requires Valid() && ExtendsWithNew(world, now, base)
      requires playlist.id in followedPlaylists && followedPlaylists[playlist.id] == playlist
      requires playlist.id !in subscribedPlaylists
      requires Fetchable(world, playlist.id, None, None)
      modifies this
      ensures Valid() && ExtendsWithNew(world, now, base)
      ensures fresh(sp)
      ensures subscribedPlaylists == old(subscribedPlaylists)[playlist.id := sp]
      ensures IsNewSubscription(sp, playlist, world.playlists[playlist.id], now)
      ensures userPlaylists == old(userPlaylists) && followedPlaylists == old(followedPlaylists)
      ensures feedLogIds == old(feedLogIds) && feedLogStamps == old(feedLogStamps)
    {
      var tracks, _ := GetPlaylistTracks(world, playlist.ownerId, playlist.id, None, None);
      sp := new SubscribedPlaylist(playlist, tracks, now);
      assert sp.trackIds == Stamp(SeedIds(world.playlists[playlist.id]), now);
      subscribedPlaylists := subscribedPlaylists[playlist.id := sp];
    }

    /** One pattern of subscribe_to_playlists: subscribe to every followed
        playlist whose name contains it and that is not yet subscribed. */
    method SubscribeMatching(world: World, pattern: string, now: int, ghost base: map<string, SubscribedPlaylist>)
      requires Valid() && ExtendsWithNew(world, now, base)
      requires forall k | k in MatchesAmong(followedPlaylists, followedPlaylists.Keys, pattern) && k !in subscribedPlaylists ::
                 Fetchable(world, k, None, None)
      modifies this
      ensures Valid()
      ensures subscribedPlaylists.Keys == old(subscribedPlaylists.Keys) + MatchesAmong(followedPlaylists, followedPlaylists.Keys, pattern)
      ensures ExtendsWithNew(world, now, base)
      ensures userPlaylists == old(userPlaylists) && followedPlaylists == old(followedPlaylists)
      ensures feedLogIds == old(feedLogIds) && feedLogStamps == old(feedLogStamps)
    {
      var todo := followedPlaylists.Keys;
      while todo != {}
        invariant todo <= followedPlaylists.Keys
        invariant subscribedPlaylists.Keys
               == old(subscribedPlaylists.Keys) + MatchesAmong(followedPlaylists, followedPlaylists.Keys - todo, pattern)
        invariant Valid()
        invariant ExtendsWithNew(world, now, base)
        invariant userPlaylists == old(userPlaylists) && followedPlaylists == old(followedPlaylists)
        invariant feedLogIds == old(feedLogIds) && feedLogStamps == old(feedLogStamps)
        decreases todo
      {
        var k :| k in todo;
        var playlist := followedPlaylists[k];
        assert MatchesAmong(followedPlaylists, followedPlaylists.Keys - (todo - {k}), pattern)
            == MatchesAmong(followedPlaylists, followedPlaylists.Keys - todo, pattern)
               + (if Matches(playlist.name, pattern) then {k} else {});
        if Matches(playlist.name, pattern) && playlist.id !in subscribedPlaylists {
          var _ := AddSubscription(world, playlist, now, base);
        }
        todo := todo - {k};
      }
    }

    /** One followed id of subscribe_to_playlists: subscribe unless it is
        already subscribed. */
    method SubscribeId(world: World, playlistId: string, now: int, ghost base: map<string, SubscribedPlaylist>)
      requires Valid() && ExtendsWithNew(world, now, base)
      requires playlistId in followedPlaylists
      requires playlistId !in subscribedPlaylists ==> Fetchable(world, playlistId, None, None)
      modifies this
      ensures Valid() && ExtendsWithNew(world, now, base)
      ensures subscribedPlaylists.Keys == old(subscribedPlaylists.Keys) + {playlistId}
      ensures userPlaylists == old(userPlaylists) && followedPlaylists == old(followedPlaylists)
      ensures feedLogIds == old(feedLogIds) && feedLogStamps == old(feedLogStamps)
    {
      if playlistId !in subscribedPlaylists {
        var _ := AddSubscription(world, followedPlaylists[playlistId], now, base);
      }
    }

    /** The explicit ids of subscribe_to_playlists, in order: raise at the
        first one that is not followed, subscribe to each followed one that
        is not yet subscribed. */
    method SubscribeIds(world: World, ids: seq<string>, now: int, ghost base: map<string, SubscribedPlaylist>)
      returns (err: Option<Failure>)
      requires Valid() && ExtendsWithNew(world, now, base)
      requires forall j | 0 <= j < FirstUnfollowed(ids, followedPlaylists.Keys) && ids[j] !in subscribedPlaylists ::
                 Fetchable(world, ids[j], None, None)
      modifies this
      ensures Valid() && ExtendsWithNew(world, now, base)
      ensures var bad := FirstUnfollowed(ids, followedPlaylists.Keys);
              && err == (if bad < |ids| then Some(NotFollowed(ids[bad])) else None)
              && subscribedPlaylists.Keys == old(subscribedPlaylists.Keys) + Elems(ids[..bad])
      ensures userPlaylists == old(userPlaylists) && followedPlaylists == old(followedPlaylists)
      ensures feedLogIds == old(feedLogIds) && feedLogStamps == old(feedLogStamps)
    {
      ghost var done: set<string> := {};
      var i := 0;
      while i < |ids| && ids[i] in followedPlaylists
        invariant i <= |ids|
        invariant forall j | 0 <= j < i :: ids[j] in followedPlaylists
        invariant done == Elems(ids[..i])
        invariant subscribedPlaylists.Keys == old(subscribedPlaylists.Keys) + done
        invariant Valid() && ExtendsWithNew(world, now, base)
        invariant userPlaylists == old(userPlaylists) && followedPlaylists == old(followedPlaylists)
        invariant feedLogIds == old(feedLogIds) && feedLogStamps == old(feedLogStamps)
      {
        var playlistId := ids[i];
        ElemsSnoc(ids, i);
        FirstUnfollowedAfter(ids, followedPlaylists.Keys, i);
        SubscribeId(world, playlistId, now, base);
        done := done + {playlistId};
        i := i + 1;
      }
      FirstUnfollowedIs(ids, followedPlaylists.Keys, i);
      if i < |ids| {
        return Some(NotFollowed(ids[i]));
      }
      return None;
    }

    /** The patterns of subscribe_to_playlists, one after the other. */
    method SubscribePatterns(world: World, contains: seq<string>, now: int, ghost base: map<string, SubscribedPlaylist>)
      requires Valid() && ExtendsWithNew(world, now, base)
      requires forall k | k in PatternMatches(followedPlaylists, contains) && k !in subscribedPlaylists :: Fetchable(world, k, None, None)
      modifies this
      ensures Valid() && ExtendsWithNew(world, now, base)
      ensures subscribedPlaylists.Keys == old(subscribedPlaylists.Keys) + PatternMatches(followedPlaylists, contains)
      ensures userPlaylists == old(userPlaylists) && followedPlaylists == old(followedPlaylists)
      ensures feedLogIds == old(feedLogIds) && feedLogStamps == old(feedLogStamps)
    {
      for pi := 0 to |contains|
        invariant subscribedPlaylists.Keys == old(subscribedPlaylists.Keys) + PatternMatches(followedPlaylists, contains[..pi])
        invariant Valid() && ExtendsWithNew(world, now, base)
        invariant userPlaylists == old(userPlaylists) && followedPlaylists == old(followedPlaylists)
        invariant feedLogIds == old(feedLogIds) && feedLogStamps == old(feedLogStamps)
      {
        var pattern := contains[pi];
        assert contains[..pi + 1] == contains[..pi] + [pattern];
        PatternMatchesSnoc(followedPlaylists, contains[..pi], pattern);
        PatternMatchesMono(followedPlaylists, contains, pi + 1);
        SubscribeMatching(world, pattern, now, base);
      }
      assert contains[..|contains|] == contains;
    }

    /** Subscribe to each explicit id (raising at the first one that is not
        followed) and then to every followed playlist whose name contains a
        pattern; already subscribed playlists are left as they are. Saves
        iff something was added and nothing raised. */
    method SubscribeToPlaylists(world: World, ids: seq<string>, contains: seq<string>, now: int)
      returns (err: Option<Failure>, saved: bool)
      requires Valid()
      requires forall k | k in SubscribeTargets(followedPlaylists, subscribedPlaylists.Keys, ids, contains) :: Fetchable(world, k, None, None)
      modifies this
      ensures Valid()
      ensures var bad := FirstUnfollowed(ids, followedPlaylists.Keys);
              err == if bad < |ids| then Some(NotFollowed(ids[bad])) else None
      ensures subscribedPlaylists.Keys
           == old(subscribedPlaylists.Keys) + SubscribeTargets(followedPlaylists, old(subscribedPlaylists.Keys), ids, contains)
      ensures ExtendsWithNew(world, now, old(subscribedPlaylists))
      ensures saved <==> err.None? && subscribedPlaylists.Keys != old(subscribedPlaylists.Keys)
      ensures userPlaylists == old(userPlaylists) && followedPlaylists == old(followedPlaylists)
      ensures feedLogIds == old(feedLogIds) && feedLogStamps == old(feedLogStamps)
    {
      var before := subscribedPlaylists.Keys;
      assert forall j | 0 <= j < FirstUnfollowed(ids, followedPlaylists.Keys) && ids[j] !in subscribedPlaylists ::
               ids[j] in Elems(ids[..FirstUnfollowed(ids, followedPlaylists.Keys)]);
      err := SubscribeIds(world, ids, now, old(subscribedPlaylists));
      if err.Some? {
        return err, false;
      }
      assert ids[..|ids|] == ids;
      SubscribePatterns(world, contains, now, old(subscribedPlaylists));
      // The source sets its flag whenever a subscription is added.
      return None, subscribedPlaylists.Keys != before;
    }

    /** The explicit ids of unsubscribe_from_playlists, in order: raise at
        the first one that is not (or no longer) subscribed, remove the
        others. */
    method UnsubscribeIds(ids: seq<string>) returns (err: Option<Failure>)
      requires Valid()
      modifies this
      ensures Valid()
      ensures var bad := FirstNotSubscribed(ids, old(subscribedPlaylists.Keys));
              && err == (if bad < |ids| then Some(NotSubscribed(ids[bad])) else None)
              && subscribedPlaylists == old(subscribedPlaylists) - Elems(ids[..bad])
      ensures userPlaylists == old(userPlaylists) && followedPlaylists == old(followedPlaylists)
      ensures feedLogIds == old(feedLogIds) && feedLogStamps == old(feedLogStamps)
    {
      ghost var keys := subscribedPlaylists.Keys;
      ghost var done: set<string> := {};
      var i := 0;
      while i < |ids| && ids[i] in subscribedPlaylists
        invariant i <= |ids| && i <= FirstNotSubscribed(ids, keys)
        invariant done == Elems(ids[..i])
        invariant subscribedPlaylists == old(subscribedPlaylists) - done
        invariant Valid()
        invariant userPlaylists == old(userPlaylists) && followedPlaylists == old(followedPlaylists)
        invariant feedLogIds == old(feedLogIds) && feedLogStamps == old(feedLogStamps)
      {
        var playlistId := ids[i];
        ElemsSnoc(ids, i);
        FirstNotSubscribedStep(ids, keys, i);
        subscribedPlaylists := subscribedPlaylists - {playlistId};
        done := done + {playlistId};
        i := i + 1;
      }
      FirstNotSubscribedStop(ids, keys, i);
      if i < |ids| {
        return Some(NotSubscribed(ids[i]));
      }
      return None;
    }

    /** One pattern of unsubscribe_from_playlists over the snapshot taken
        after the explicit ids: remove every subscription of the snapshot
        whose name contains the pattern, skipping one that an earlier
        pattern already removed. */
    method UnsubscribeMatching(pattern: string, snapshot: map<string, SubscribedPlaylist>)
      requires Valid()
      requires forall k | k in snapshot :: snapshot[k].id == k
      modifies this
      ensures Valid()
      ensures subscribedPlaylists == old(subscribedPlaylists) - NamesMatching(Names(snapshot), snapshot.Keys, pattern)
      ensures userPlaylists == old(userPlaylists) && followedPlaylists == old(followedPlaylists)
      ensures feedLogIds == old(feedLogIds) && feedLogStamps == old(feedLogStamps)
    {
      var names := Names(snapshot);
      var todo := snapshot.Keys;
      while todo != {}
        invariant todo <= snapshot.Keys
        invariant subscribedPlaylists == old(subscribedPlaylists) - NamesMatching(names, snapshot.Keys - todo, pattern)
        invariant Valid()
        invariant userPlaylists == old(userPlaylists) && followedPlaylists == old(followedPlaylists)
        invariant feedLogIds == old(feedLogIds) && feedLogStamps == old(feedLogStamps)
        decreases todo
      {
        var k :| k in todo;
        var playlist := snapshot[k];
        assert NamesMatching(names, snapshot.Keys - (todo - {k}), pattern)
            == NamesMatching(names, snapshot.Keys - todo, pattern) + (if Matches(playlist.name, pattern) then {k} else {});
        if Matches(playlist.name, pattern) && playlist.id in subscribedPlaylists {
          subscribedPlaylists := subscribedPlaylists - {playlist.id};
        }
        todo := todo - {k};
      }
    }

    /** The patterns of unsubscribe_from_playlists, one after the other,
        all over the same snapshot. */
    method UnsubscribePatterns(contains: seq<string>, snapshot: map<string, SubscribedPlaylist>)
      requires Valid()
      requires forall k | k in snapshot :: snapshot[k].id == k
      modifies this
      ensures Valid()
      ensures subscribedPlaylists == old(subscribedPlaylists) - PatternRemoval(Names(snapshot), contains)
      ensures userPlaylists == old(userPlaylists) && followedPlaylists == old(followedPlaylists)
      ensures feedLogIds == old(feedLogIds) && feedLogStamps == old(feedLogStamps)
    {
      var names := Names(snapshot);
      for pi := 0 to |contains|
        invariant subscribedPlaylists == old(subscribedPlaylists) - PatternRemoval(names, contains[..pi])
        invariant Valid()
        invariant userPlaylists == old(userPlaylists) && followedPlaylists == old(followedPlaylists)
        invariant feedLogIds == old(feedLogIds) && feedLogStamps == old(feedLogStamps)
      {
        var pattern := contains[pi];
        assert contains[..pi + 1] == contains[..pi] + [pattern];
        PatternRemovalSnoc(names, contains[..pi], pattern);
        UnsubscribeMatching(pattern, snapshot);
      }
      assert contains[..|contains|] == contains;
    }

    /** Remove each explicit id (raising at the first one that is not
        subscribed), then every remaining subscription whose name contains
        a pattern. Saves iff something was removed and nothing raised. */
    method UnsubscribeFromPlaylists(ids: seq<string>, contains: seq<string>) returns (err: Option<Failure>, saved: bool)
      requires Valid()
      modifies this
      ensures Valid()
      ensures var bad := FirstNotSubscribed(ids, old(subscribedPlaylists.Keys));
              && err == (if bad < |ids| then Some(NotSubscribed(ids[bad])) else None)
              && subscribedPlaylists
                 == if bad < |ids| then old(subscribedPlaylists) - Elems(ids[..bad])
                    else var rest := old(subscribedPlaylists) - Elems(ids);
                         rest - PatternRemoval(Names(rest), contains)
      ensures saved <==> err.None? && subscribedPlaylists.Keys != old(subscribedPlaylists.Keys)
      ensures userPlaylists == old(userPlaylists) && followedPlaylists == old(followedPlaylists)
      ensures feedLogIds == old(feedLogIds) && feedLogStamps == old(feedLogStamps)
    {
      var before := subscribedPlaylists.Keys;
      err := UnsubscribeIds(ids);
      if err.Some? {
        return err, false;
      }
      assert ids[..|ids|] == ids;
      var rest := subscribedPlaylists;
      UnsubscribePatterns(contains, rest);
      // The source sets its flag whenever a subscription is removed.
      return None, subscribedPlaylists.Keys != before;
    }

    /** Every subscription can be fetched and read for the next update. */
    ghost predicate CanUpdate(world: World)
      reads this, subscriptionFeed, subscribedPlaylists.Values
    {
      forall k | k in subscribedPlaylists ::
        Fetchable(world, k, Some(subscriptionFeed.lastUpdate), Some(subscribedPlaylists[k].snapshotId))
    }

    /** The ids accepted from each subscription, by subscription id. */
    ghost function AcceptedMap(world: World, addOwn: bool): map<string, set<string>>
      requires Valid() && CanUpdate(world)
      reads this, subscriptionFeed, subscribedPlaylists.Values
    {
      map k | k in subscribedPlaylists ::
        Accepts(world, k, subscribedPlaylists[k].snapshotId, subscribedPlaylists[k].trackIds.Keys, subscriptionFeed.lastUpdate, userId, addOwn)
    }

    /** The ids the next update adds to the feed. */
    ghost function PendingIds(world: World, addOwn: bool): set<string>
      requires Valid() && CanUpdate(world)
      reads this, subscriptionFeed, subscribedPlaylists.Values
    {
      Union(AcceptedMap(world, addOwn))
    }

    /** One iteration of update_feed's loop: fetch the subscription's
        tracks since the last update (nothing when its snapshot is
        unchanged), store its new snapshot and accept its new tracks. */
    method CheckPlaylist(world: World, sp: SubscribedPlaylist, lastUpdate: int, addOwn: bool, now: int)
      returns (accepted: seq<string>)
      requires Fetchable(world, sp.id, Some(lastUpdate), Some(sp.snapshotId))
      modifies sp
      ensures sp.snapshotId == world.playlists[sp.id].snapshotId
      ensures sp.trackIds
           == old(sp.trackIds) + Stamp(Accepts(world, sp.id, old(sp.snapshotId), old(sp.trackIds).Keys, lastUpdate, userId, addOwn), now)
      ensures Elems(accepted) == Accepts(world, sp.id, old(sp.snapshotId), old(sp.trackIds).Keys, lastUpdate, userId, addOwn)
    {
      var newTracks, snapshot := GetPlaylistTracks(world, sp.ownerId, sp.id, Some(lastUpdate), Some(sp.snapshotId));
      accepted := sp.AcceptNewTracks(newTracks, snapshot, userId, addOwn, now);
    }

    /** The loop of update_feed over the subscriptions; the result collects
        every accepted id. */
    method CheckPlaylists(world: World, addOwn: bool, now: int) returns (trackIds: seq<string>)
      requires Valid() && CanUpdate(world)
      modifies subscribedPlaylists.Values
      ensures forall k | k in subscribedPlaylists ::
                && subscribedPlaylists[k].snapshotId == world.playlists[k].snapshotId
                && subscribedPlaylists[k].trackIds
                   == old(subscribedPlaylists[k].trackIds) + Stamp(old(AcceptedMap(world, addOwn))[k], now)
      ensures Elems(trackIds) == old(PendingIds(world, addOwn))
    {
      var lastUpdate := subscriptionFeed.lastUpdate;
      ghost var acc: map<string, set<string>> := map[];
      trackIds := [];
      var todo := subscribedPlaylists.Keys;
      while todo != {}
        invariant todo <= subscribedPlaylists.Keys
        invariant acc.Keys == subscribedPlaylists.Keys - todo
        invariant forall k {:trigger subscribedPlaylists[k]} | k in todo ::
                    && subscribedPlaylists[k].snapshotId == old(subscribedPlaylists[k].snapshotId)
                    && subscribedPlaylists[k].trackIds == old(subscribedPlaylists[k].trackIds)
        invariant forall k {:trigger acc[k]} | k in acc ::
                    && acc[k] == Accepts(world, k, old(subscribedPlaylists[k].snapshotId), old(subscribedPlaylists[k].trackIds).Keys, lastUpdate, userId, addOwn)
                    && subscribedPlaylists[k].snapshotId == world.playlists[k].snapshotId
                    && subscribedPlaylists[k].trackIds == old(subscribedPlaylists[k].trackIds) + Stamp(acc[k], now)
        invariant Elems(trackIds) == Union(acc)
        decreases todo
      {
        var k :| k in todo;
        var sp := subscribedPlaylists[k];
        var accepted := CheckPlaylist(world, sp, lastUpdate, addOwn, now);
        ElemsConcat(trackIds, accepted);
        UnionInsert(acc, k, Elems(accepted));
        acc := acc[k := Elems(accepted)];
        trackIds := trackIds + accepted;
        todo := todo - {k};
      }
      assert forall k | k in subscribedPlaylists :: k in acc;
      assert acc == old(AcceptedMap(world, addOwn));
    }

    /** _log_feed_updates: append the ids to the log, each stamped now. */
    method LogFeedUpdates(ids: seq<string>, now: int)
      requires Valid()
      modifies this
      ensures Valid()
      ensures feedLogIds == old(feedLogIds) + ids
      ensures feedLogStamps == old(feedLogStamps) + seq(|ids|, _ => now)
      ensures subscribedPlaylists == old(subscribedPlaylists)
      ensures userPlaylists == old(userPlaylists) && followedPlaylists == old(followedPlaylists)
    {
      feedLogStamps := feedLogStamps + seq(|ids|, _ => now);
      feedLogIds := feedLogIds + ids;
    }

    /** The commit half of update_feed: the distinct ids, in sorted order,
        go to the feed in requests of at most 100 ids and are logged with
        the given time; nothing is sent or logged when there are none. The
        feed's last update moves to the given time in either case. */
    method CommitFeed(trackIds: seq<string>, now: int) returns (numAdded: nat, requests: seq<seq<string>>)
      requires Valid()
      modifies this, subscriptionFeed
      ensures Valid()
      ensures subscriptionFeed.lastUpdate == now
      ensures subscribedPlaylists == old(subscribedPlaylists)
      ensures userPlaylists == old(userPlaylists) && followedPlaylists == old(followedPlaylists)
      ensures numAdded == |Elems(trackIds)|
      ensures |feedLogIds| == |old(feedLogIds)| + numAdded
      ensures feedLogIds[..|old(feedLogIds)|] == old(feedLogIds)
      ensures StrictlySorted(feedLogIds[|old(feedLogIds)|..])
      ensures Elems(feedLogIds[|old(feedLogIds)|..]) == Elems(trackIds)
      ensures feedLogStamps == old(feedLogStamps) + seq(numAdded, _ => now)
      ensures requests == if numAdded == 0 then [] else FeedBatches(feedLogIds[|old(feedLogIds)|..])
      ensures Flatten(requests) == feedLogIds[|old(feedLogIds)|..]
      ensures forall r | r in requests :: 0 < |r| <= MaxBatch
    {
      numAdded := 0;
      requests := [];
      if |trackIds| > 0 {
        var uniqueIds := Unique(trackIds);
        SortedCardinality(uniqueIds);
        requests := FeedBatches(uniqueIds);
        FeedBatchesSound(uniqueIds);
        numAdded := |uniqueIds|;
        LogFeedUpdates(uniqueIds, now);
        assert feedLogIds[|old(feedLogIds)|..] == uniqueIds;
      } else {
        assert Elems(trackIds) == {};
        assert feedLogIds[|old(feedLogIds)|..] == [];
        assert seq(0, _ => now) == [];
      }
      subscriptionFeed.lastUpdate := now;
    }

    /** Collect the new tracks of every subscription, add their distinct
        ids to the feed in sorted order (in requests of at most 100 ids),
        log them, and move the feed's last update to now. Returns how many
        ids were added and the add-track requests sent. */
    method UpdateFeed(world: World, addOwn: bool := false, now: int) returns (numAdded: nat, requests: seq<seq<string>>)
      requires Valid() && CanUpdate(world)
      modifies this, subscriptionFeed, subscribedPlaylists.Values
      ensures Valid()
      ensures subscribedPlaylists == old(subscribedPlaylists)
      ensures userPlaylists == old(userPlaylists) && followedPlaylists == old(followedPlaylists)
      ensures forall k | k in subscribedPlaylists ::
                && subscribedPlaylists[k].snapshotId == world.playlists[k].snapshotId
                && subscribedPlaylists[k].trackIds
                   == old(subscribedPlaylists[k].trackIds) + Stamp(old(AcceptedMap(world, addOwn))[k], now)
      ensures numAdded == |old(PendingIds(world, addOwn))|
      ensures |feedLogIds| == |old(feedLogIds)| + numAdded
      ensures feedLogIds[..|old(feedLogIds)|] == old(feedLogIds)
      ensures StrictlySorted(feedLogIds[|old(feedLogIds)|..])
      ensures Elems(feedLogIds[|old(feedLogIds)|..]) == old(PendingIds(world, addOwn))
      ensures feedLogStamps == old(feedLogStamps) + seq(numAdded, _ => now)
      ensures requests == if numAdded == 0 then [] else FeedBatches(feedLogIds[|old(feedLogIds)|..])
      ensures Flatten(requests) == feedLogIds[|old(feedLogIds)|..]
      ensures forall r | r in requests :: 0 < |r| <= MaxBatch
      ensures subscriptionFeed.lastUpdate == now
    {
      var trackIds := CheckPlaylists(world, addOwn, now);
      numAdded, requests := CommitFeed(trackIds, now);
    }
  }
}
