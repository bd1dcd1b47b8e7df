/** The record classes: Track (an entry normalized), SubscribedPlaylist
    (one subscription with its seen-track ledger) and SubscriptionFeed (the
    destination playlist). */
module Classes {
  import opened Common
  import opened Remote
  import opened Text

  /** The Track record of the refactored classes. */
  datatype Track = Track(
    name: string,
    id: string,
    album: string,
    artists: seq<string>,
    mainArtistName: string,
    playlistId: string,
    addedBy: string)

  /** Track(entry, playlist_id="-1"). */
  function TrackOf(entry: Entry, playlistId: string := "-1"): (t: Track)
    requires Readable(entry)
    ensures t.name == entry.track.value.name && t.id == entry.track.value.id
    ensures t.album == entry.track.value.album && t.artists == entry.track.value.artists
    ensures t.mainArtistName == t.artists[0]
    ensures t.playlistId == playlistId && t.addedBy == entry.addedBy
  {
    var info := entry.track.value;
    Track(info.name, info.id, info.album, info.artists, info.artists[0], playlistId, entry.addedBy)
  }

  /** The refactored Track carries the same name, id, main artist and
      adder as the dictionary _get_playlist_tracks builds for the entry. */
  lemma TrackAgreesWithFoundTrack(entry: Entry, playlistId: string)
    requires Readable(entry)
    ensures var t := TrackOf(entry, playlistId);
            var f := Normalize(entry);
            t.name == f.name && t.id == f.id && t.mainArtistName == f.mainArtistName && t.addedBy == f.addedBy
  {
  }

  /** The ids update_feed accepts from the tracks a playlist returned:
      tracks added by someone else (or by anyone when addOwn holds) whose
      id is not yet in the playlist's ledger. */
  function AcceptedIds(found: seq<FoundTrack>, userId: string, addOwn: bool, ledger: set<string>): set<string>
  {
    set t | t in found && (addOwn || t.addedBy != userId) && t.id !in ledger :: t.id
  }

  /** Every id of the set, stamped with the same time. */
  function Stamp(ids: set<string>, stamp: int): (m: map<string, int>)
    ensures m.Keys == ids
    ensures forall id | id in m :: m[id] == stamp
  {
    map id | id in ids :: stamp
  }

  /** Accepting adds exactly the accepted ids, stamped now, and keeps every
      earlier id with its earlier stamp: a seen id is never accepted again. */
  lemma LedgerGrows(ledger: map<string, int>, found: seq<FoundTrack>, userId: string, addOwn: bool, now: int)
    ensures var accepted := AcceptedIds(found, userId, addOwn, ledger.Keys);
            var ledger' := ledger + Stamp(accepted, now);
            && accepted !! ledger.Keys
            && ledger'.Keys == ledger.Keys + accepted
            && (forall id | id in ledger :: ledger'[id] == ledger[id])
            && (forall id | id in accepted :: ledger'[id] == now)
  {
  }

  /** Once accepted into the ledger, an id is not accepted again from that
      playlist, whatever tracks a later update returns. */
  lemma AcceptedOnce(ledger: set<string>, found: seq<FoundTrack>, later: seq<FoundTrack>, userId: string, addOwn: bool)
    ensures AcceptedIds(later, userId, addOwn, ledger + AcceptedIds(found, userId, addOwn, ledger))
            !! (ledger + AcceptedIds(found, userId, addOwn, ledger))
  {
  }

  class SubscribedPlaylist {
    const name: string
    const id: string
    const ownerId: string
    var snapshotId: string
    const subscribeStamp: int
    /** Seen-track ledger: track id -> time first seen. */
    var trackIds: map<string, int>

    /** Copies the playlist record and seeds the ledger with the id of
        every given track, all stamped with the subscribe time. */
    constructor (playlist: PlaylistRecord, tracks: seq<FoundTrack>, now: int)
      ensures name == playlist.name && id == playlist.id && ownerId == playlist.ownerId
      ensures snapshotId == playlist.snapshotId && subscribeStamp == now
      ensures trackIds.Keys == set t | t in tracks :: t.id
      ensures forall k | k in trackIds :: trackIds[k] == subscribeStamp
    {
      name := playlist.name;
      id := playlist.id;
      ownerId := playlist.ownerId;
      snapshotId := playlist.snapshotId;
      subscribeStamp := now;
      trackIds := map[];
      new;
      for i := 0 to |tracks|
        invariant snapshotId == playlist.snapshotId
        invariant trackIds.Keys == set t | t in tracks[..i] :: t.id
        invariant forall k | k in trackIds :: trackIds[k] == subscribeStamp
      {
        assert tracks[..i + 1] == tracks[..i] + [tracks[i]];
        trackIds := trackIds[tracks[i].id := subscribeStamp];
      }
      assert tracks[..|tracks|] == tracks;
    }

    /** The body of update_feed's per-playlist loop: store the returned
        snapshot, then accept the eligible unseen tracks into the ledger. */
    method AcceptNewTracks(found: seq<FoundTrack>, snapshot: string, userId: string, addOwn: bool, now: int)
      returns (accepted: seq<string>)
      modifies this
      ensures snapshotId == snapshot
      ensures trackIds == old(trackIds) + Stamp(AcceptedIds(found, userId, addOwn, old(trackIds).Keys), now)
      ensures Elems(accepted) == AcceptedIds(found, userId, addOwn, old(trackIds).Keys)
    {
      snapshotId := snapshot;
      accepted := [];
      ghost var ledger := old(trackIds);
      ghost var acc: set<string> := {};
      for i := 0 to |found|
        invariant snapshotId == snapshot
        invariant acc == AcceptedIds(found[..i], userId, addOwn, ledger.Keys)
        invariant trackIds == ledger + Stamp(acc, now)
        invariant Elems(accepted) == acc
      {
        var track := found[i];
        assert found[..i + 1] == found[..i] + [track];
        AcceptedIdsSnoc(found[..i], track, userId, addOwn, ledger.Keys);
        if addOwn || track.addedBy != userId {
          if track.id !in trackIds {
            StampInsert(ledger, acc, track.id, now);
            ElemsConcat(accepted, [track.id]);
            assert Elems([track.id]) == {track.id};
            accepted := accepted + [track.id];
            trackIds := trackIds[track.id := now];
            acc := acc + {track.id};
          }
        }
      }
      assert found[..|found|] == found;
    }
  }

  lemma AcceptedIdsSnoc(found: seq<FoundTrack>, t: FoundTrack, userId: string, addOwn: bool, ledger: set<string>)
    ensures AcceptedIds(found + [t], userId, addOwn, ledger)
         == AcceptedIds(found, userId, addOwn, ledger) + (if (addOwn || t.addedBy != userId) && t.id !in ledger then {t.id} else {})
  {
    assert forall u :: u in found + [t] <==> u in found || u == t;
  }

  lemma StampInsert(ledger: map<string, int>, ids: set<string>, id: string, now: int)
    ensures (ledger + Stamp(ids, now))[id := now] == ledger + Stamp(ids + {id}, now)
  {
  }

  /** The name of every subscription, by id. */
  function Names(subscribed: map<string, SubscribedPlaylist>): (names: map<string, string>)
    ensures names.Keys == subscribed.Keys
    ensures forall k | k in names :: names[k] == subscribed[k].name
  {
    map k | k in subscribed :: subscribed[k].name
  }

  class SubscriptionFeed {
    const id: string
    const name: string
    var lastUpdate: int

    /** The feed playlist just created by the provider, stamped now. */
    constructor (id: string, name: string, now: int)
      ensures this.id == id && this.name == name && lastUpdate == now
    {
      this.id := id;
      this.name := name;
      lastUpdate := now;
    }
  }
}
