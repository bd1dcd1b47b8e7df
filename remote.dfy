/** What the Spotify Web API answers, as an immutable value, and the
    filter that _get_playlist_tracks applies to a playlist's entries.
    Timestamps are integers (seconds since the Unix epoch). */
module Remote {
  import opened Common

  /** The nested `track` object of a playlist entry (artists by name). */
  datatype TrackInfo = TrackInfo(name: string, id: string, album: string, artists: seq<string>)

  /** One playlist entry: the track (null for some entries), `added_at`
      and the id of the `added_by` user. */
  datatype Entry = Entry(track: Option<TrackInfo>, addedAt: int, addedBy: string)

  /** A playlist as fetched: its current snapshot id and its entries, page by page. */
  datatype RemotePlaylist = RemotePlaylist(snapshotId: string, pages: seq<seq<Entry>>)

  /** One item of the user's playlist listing. */
  datatype PlaylistRecord = PlaylistRecord(id: string, name: string, ownerId: string, collaborative: bool, snapshotId: string)

  /** The provider: the pages of the user's playlist listing, and every
      playlist that can be fetched, by id. */
  datatype World = World(listing: seq<seq<PlaylistRecord>>, playlists: map<string, RemotePlaylist>)

  /** The dictionary that _get_playlist_tracks builds for an entry it returns. */
  datatype FoundTrack = FoundTrack(name: string, id: string, mainArtistName: string, addedBy: string)

  /** The entry has a track with at least one artist, so that reading
      `track['track']['name']` and `artists[0]` does not raise. */
  predicate Readable(e: Entry)
  {
    e.track.Some? && |e.track.value.artists| > 0
  }

  /** Every entry later than the cutoff can be read (earlier ones are
      never dereferenced). */
  predicate ReadableAfter(es: seq<Entry>, cutoff: int)
  {
    forall e | e in es && e.addedAt > cutoff :: Readable(e)
  }

  function Normalize(e: Entry): FoundTrack
    requires Readable(e)
  {
    FoundTrack(e.track.value.name, e.track.value.id, e.track.value.artists[0], e.addedBy)
  }

  /** The entries added strictly after the cutoff, normalized, in order. */
  function AddedAfter(es: seq<Entry>, cutoff: int): seq<FoundTrack>
    requires ReadableAfter(es, cutoff)
  {
    if es == [] then []
    else
      var init := AddedAfter(es[..|es| - 1], cutoff);
      var e := es[|es| - 1];
      if e.addedAt > cutoff then init + [Normalize(e)] else init
  }

  /** `min_timestamp` absent means the epoch. */
  function Cutoff(minTimestamp: Option<int>): int
  {
    if minTimestamp.None? then 0 else minTimestamp.value
  }

  /** The snapshot shortcut: a non-empty comparison snapshot equal to the
      current one. */
  predicate Skips(compareSnapshot: Option<string>, current: string)
  {
    compareSnapshot.Some? && compareSnapshot.value != "" && current == compareSnapshot.value
  }

  /** The tracks _get_playlist_tracks returns for this playlist. */
  function Fetched(rp: RemotePlaylist, minTimestamp: Option<int>, compareSnapshot: Option<string>): seq<FoundTrack>
    requires Skips(compareSnapshot, rp.snapshotId) || ReadableAfter(Flatten(rp.pages), Cutoff(minTimestamp))
  {
    if Skips(compareSnapshot, rp.snapshotId) then [] else AddedAfter(Flatten(rp.pages), Cutoff(minTimestamp))
  }

  /** _get_playlist_tracks can run: the playlist can be fetched (it is
      fetched even when the shortcut then applies) and, unless the shortcut
      applies, every entry past the cutoff can be read. */
  predicate Fetchable(world: World, id: string, minTimestamp: Option<int>, compareSnapshot: Option<string>)
  {
    && id in world.playlists
    && (Skips(compareSnapshot, world.playlists[id].snapshotId)
        || ReadableAfter(Flatten(world.playlists[id].pages), Cutoff(minTimestamp)))
  }

  /** A track is returned iff some entry added strictly after the cutoff
      normalizes to it. */
  lemma {:induction false} AddedAfterMembers(es: seq<Entry>, cutoff: int, t: FoundTrack)
    requires ReadableAfter(es, cutoff)
    ensures t in AddedAfter(es, cutoff) <==> exists e | e in es :: e.addedAt > cutoff && Readable(e) && Normalize(e) == t
    decreases |es|
  {
    if es != [] {
      var init := es[..|es| - 1];
      AddedAfterMembers(init, cutoff, t);
      assert es == init + [es[|es| - 1]];
    }
  }

  /** The filter works entry by entry, so it distributes over concatenation. */
  lemma {:induction false} AddedAfterAppend(a: seq<Entry>, b: seq<Entry>, cutoff: int)
    requires ReadableAfter(a + b, cutoff)
    ensures ReadableAfter(a, cutoff) && ReadableAfter(b, cutoff)
    ensures AddedAfter(a + b, cutoff) == AddedAfter(a, cutoff) + AddedAfter(b, cutoff)
    decreases |b|
  {
    assert forall e | e in a :: e in a + b;
    assert forall e | e in b :: e in a + b;
    if b == [] {
      assert a + b == a;
    } else {
      var b' := b[..|b| - 1];
      assert (a + b)[..|a + b| - 1] == a + b';
      assert forall e | e in b' :: e in b;
      AddedAfterAppend(a, b', cutoff);
    }
  }

  /** The result follows page order: the tracks of page 0, then of page 1, ... */
  lemma {:induction false} AddedAfterPages(pages: seq<seq<Entry>>, cutoff: int)
    requires ReadableAfter(Flatten(pages), cutoff)
    ensures pages != [] ==> ReadableAfter(pages[0], cutoff) && ReadableAfter(Flatten(pages[1..]), cutoff)
    ensures pages != [] ==> AddedAfter(Flatten(pages), cutoff) == AddedAfter(pages[0], cutoff) + AddedAfter(Flatten(pages[1..]), cutoff)
    ensures pages == [] ==> AddedAfter(Flatten(pages), cutoff) == []
  {
    if pages != [] {
      AddedAfterAppend(pages[0], Flatten(pages[1..]), cutoff);
    }
  }

  /** Nothing newer than the cutoff: nothing is returned. */
  lemma {:induction false} AddedAfterNothingNew(es: seq<Entry>, cutoff: int)
    requires forall e | e in es :: e.addedAt <= cutoff
    ensures ReadableAfter(es, cutoff) && AddedAfter(es, cutoff) == []
    decreases |es|
  {
    if es != [] {
      assert forall e | e in es[..|es| - 1] :: e in es;
      AddedAfterNothingNew(es[..|es| - 1], cutoff);
    }
  }
}
