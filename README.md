# SpotifySubscriber in Dafny

SpotifySubscriber lets a user subscribe to playlists they follow and collects
the tracks newly added to those playlists into one "feed" playlist. This
project models the bookkeeping at its core, the `SpotifySubscriber` object of
`src/SpotifySubscriber.py` and the record classes of `src/classes.py`:

- **Catalog.** `refresh_user_playlists` splits the user's playlist listing
  into owned playlists and followed ones. A followed playlist is owned by
  someone else, or is collaborative.
- **Subscribing and unsubscribing.** Both work by explicit id and by
  case-insensitive substring patterns. Each new subscription seeds a
  ledger of track ids ("seen tracks") with every track present at
  subscribe time.
- **Fetching a playlist.** `_get_playlist_tracks` has a snapshot shortcut,
  then keeps only entries added strictly after a cutoff, across all pages.
- **Updating the feed.** `update_feed` filters each subscription's new
  tracks by adder and by its ledger, and extends the ledger. It then
  de-duplicates and sorts the accepted ids (`np.unique`), sends them in
  requests of at most 100 ids (`np.array_split`), appends them to the feed
  log, and advances the feed's last-update time.

The Spotify Web API is an immutable `World` value passed to each operation.
It holds the listing pages and every playlist with its snapshot id and
pages of entries. Each call of `datetime.utcnow()` becomes a `now` parameter.
Timestamps are integers.

Files and modules:

| file | module | contents |
|---|---|---|
| common.dfy | Common | `Option`, and `Flatten` for pages and batches |
| text.dfy | Text | ASCII lower-casing, substring test, code-point string order |
| batching.dfy | Batching | `np.unique` as sort-and-dedup, `np.array_split`, the feed batches |
| remote.dfy | Remote | the API as a value, and the track filter of `_get_playlist_tracks` |
| classes.dfy | Classes | `Track`, class `SubscribedPlaylist` with its ledger, class `SubscriptionFeed` |
| registry.dfy | Registry | value-level specifications of refresh, subscribe and unsubscribe; the as-written unsubscribe code |
| subscriber.dfy | Subscriber | class `SpotifySubscriber` and its operations |

`SpotifySubscriber` is a class whose methods update its fields in place:

- the catalog maps;
- `subscribedPlaylists`, a map of `SubscribedPlaylist` objects;
- the two feed-log columns.

`update_feed` mutates each subscription's `snapshotId` and `trackIds`
through `modifies subscribedPlaylists.Values`. Every loop of the source is
a loop here, with its invariants, except the request loop of `update_feed`
(src/SpotifySubscriber.py:335-336). That loop makes one
`user_playlist_add_tracks` call per section, and the model returns the
sections as the value `requests := FeedBatches(uniqueIds)`. Each method is proved against a
specification function over the state before the call:

- `Classify` for the catalog;
- `SubscribeTargets` and `FirstUnfollowed` for subscribe;
- `FirstNotSubscribed` and `PatternRemoval` for unsubscribe;
- `AddedAfter` and `Fetched` for the track filter;
- `AcceptedIds`, `AcceptedMap` and `PendingIds` for the update.

## Model

| member | source | states |
|---|---|---|
| Classes.TrackOf | src/classes.py:39-46 | name, id, album and artists come from the nested track record; the main artist is the first artist; the playlist id is the argument, "-1" by default; the adder is the entry's `added_by` |
| Classes.TrackAgreesWithFoundTrack | src/SpotifySubscriber.py:370-380 | the dictionary `_get_playlist_tracks` builds for an entry has the same name, id, main artist and adder as the `Track` of that entry |
| Classes.SubscribedPlaylist.constructor | src/classes.py:13-24 | name, id, owner and snapshot are copied from the playlist record; the ledger's keys are exactly the ids of the given tracks (duplicates collapse); every value is the subscribe stamp |
| Classes.SubscriptionFeed.constructor | src/SpotifySubscriber.py:63-74 | the feed keeps the created playlist's id and name, and its last update is the creation time |
| Classes.LedgerGrows | src/SpotifySubscriber.py:313-321 | the accepted ids are disjoint from the old ledger; the new ledger's keys are the old keys plus the accepted ids; old ids keep their stamps; accepted ids get `now` |
| Classes.AcceptedOnce | src/SpotifySubscriber.py:316-320 | once accepted, an id is never accepted again from that playlist, whatever a later fetch returns (removing a track and adding it back adds nothing) |
| Classes.SubscribedPlaylist.AcceptNewTracks | src/SpotifySubscriber.py:311-321 | the snapshot becomes the returned one; the ledger grows by exactly `AcceptedIds` of the returned tracks, stamped now; the returned ids are exactly those accepted |
| Remote.Normalize | src/SpotifySubscriber.py:370-382 | the dictionary built for a returned entry: the track's name and id, the name of its first artist, and the id of the user who added the entry |
| Remote.AddedAfterMembers | src/SpotifySubscriber.py:363-384 | a track is returned iff some entry added strictly after the cutoff normalizes to it |
| Remote.AddedAfterAppend | src/SpotifySubscriber.py:363-390 | the filter works entry by entry, so it distributes over concatenation |
| Remote.AddedAfterPages | src/SpotifySubscriber.py:363-390 | the result is in page order: page 0's tracks, then the rest's |
| Remote.AddedAfterNothingNew | src/SpotifySubscriber.py:370 | when no entry is later than the cutoff, nothing is returned |
| Registry.ClassifyKeys | src/SpotifySubscriber.py:192-211 | an id is followed iff a listed playlist with that id is owned by another user or collaborative, and owned iff a listed one is neither; each map sends an id to a listed playlist with that id |
| Registry.ClassifyPartition | src/SpotifySubscriber.py:192-211 | with distinct ids, the two maps are disjoint and together cover every listed playlist, each in the map its owner and collaborative flag select |
| Registry.FirstUnfollowed | src/SpotifySubscriber.py:218-220 | the index where subscribe raises: every earlier explicit id is followed, and this one (if any) is not |
| Registry.SubscribeTargetsSound | src/SpotifySubscriber.py:215-241 | subscribe only adds followed playlists that were not subscribed, and repeating the same call adds nothing (idempotence) |
| Registry.SeedCoversEntries | src/SpotifySubscriber.py:222-225 | the seed holds the track id of every entry present at subscribe time (added after the epoch), and nothing else |
| Registry.FirstNotSubscribed | src/SpotifySubscriber.py:248-255 | corrected (see ## Findings): the index where explicit-id unsubscribe raises: earlier ids are subscribed and distinct; this one is not subscribed, or was already removed earlier in the call |
| Registry.DistinctSubscribedIdsRemoved | src/SpotifySubscriber.py:248-255 | corrected (see ## Findings): distinct subscribed ids are all removed without an error |
| Registry.UnsubscribeIdsAsWritten | src/SpotifySubscriber.py:248-255 | as written: the explicit-id loop removes nothing, and raises at the first id whenever any id is given (not subscribed, or TypeError on `playlist['name']`) |
| Registry.ExplicitUnsubscribeRaises | src/SpotifySubscriber.py:252-255 | as written, unsubscribing a subscribed id raises TypeError and removes nothing, while the intended removal succeeds |
| Registry.RemoveMatchingAsWritten | src/SpotifySubscriber.py:260-265 | as written, one pattern over the list taken before the loop: when it does not raise, it removes only subscribed ids from that list |
| Registry.PatternRemovalAsWritten | src/SpotifySubscriber.py:257-265 | as written, every pattern in turn over the same list; when no `del` raises, only subscribed ids from that list are removed |
| Registry.RemoveMatchingExact | src/SpotifySubscriber.py:258-265 | as written, one pattern succeeds iff every snapshot entry it matches is still subscribed, and then removes exactly those entries |
| Registry.MissingRaises | src/SpotifySubscriber.py:258-265 | as written, a snapshot entry that is already gone and matched by a later pattern raises KeyError |
| Registry.OverlappingPatternsRaise | src/SpotifySubscriber.py:258-265 | as written, a subscription matched by two patterns raises KeyError at the second |
| Registry.DisjointPatternsAgree | src/SpotifySubscriber.py:258-265 | when no name is matched by two patterns, the as-written loop succeeds and removes exactly `PatternRemoval` |
| Text.EmptyPatternMatches | src/SpotifySubscriber.py:231-233 | the empty pattern matches every name |
| Batching.Unique | src/SpotifySubscriber.py:328 | `np.unique`: the result is strictly sorted and has exactly the input's elements |
| Batching.SortedBySet | src/SpotifySubscriber.py:328 | a strictly sorted sequence is determined by its elements, so the result does not depend on dictionary iteration order |
| Batching.SortedCardinality | src/SpotifySubscriber.py:338 | the number of ids added is the number of distinct accepted ids |
| Batching.Sections | src/SpotifySubscriber.py:335 | `np.array_split`'s sections: k consecutive parts whose concatenation is the input; the first `n mod k` parts are one longer |
| Batching.FeedBatches | src/SpotifySubscriber.py:331-336 | the add-tracks requests: one request holding all ids when there are at most 100, otherwise `np.array_split` into ceil(n/100) sections (its properties are `FeedBatchesSound`) |
| Batching.FeedBatchesSound | src/SpotifySubscriber.py:331-336 | the requests concatenate to the sorted ids; there are ceil(n/100) of them; each holds between 1 and 100 ids |
| Batching.SplitBounds | src/SpotifySubscriber.py:335 | with ceil(n/100) sections, every section holds between 1 and 100 ids |
| Batching.SplitOf250 | src/SpotifySubscriber.py:331-336 | 250 ids go out as 84, 83 and 83 |
| Subscriber.SeededNeverAccepted | src/SpotifySubscriber.py:222-225 | no track present at subscribe time is ever accepted from that subscription |
| Subscriber.SpotifySubscriber.constructor | src/SpotifySubscriber.py:84-131 | first run: the feed is created with the given id, name and time; the catalog is the classification of the listing; nothing is subscribed and the log is empty |
| Subscriber.SpotifySubscriber.RefreshUserPlaylists | src/SpotifySubscriber.py:192-211 | both maps are rebuilt from empty and equal `Classify` of the flattened listing; subscriptions and the log are unchanged |
| Subscriber.SpotifySubscriber.AddListingPage | src/SpotifySubscriber.py:200-205 | one listing page extends the catalog exactly as `Classify` does |
| Subscriber.SpotifySubscriber.GetPlaylistTracks | src/SpotifySubscriber.py:350-392 | returns the current snapshot; with a non-empty, unchanged comparison snapshot no tracks; otherwise exactly the entries added strictly after the cutoff (the epoch by default), normalized, in page order |
| Subscriber.SpotifySubscriber.ScanPage | src/SpotifySubscriber.py:365-384 | one page appends exactly its entries added after the cutoff, in order |
| Subscriber.SpotifySubscriber.AddSubscription | src/SpotifySubscriber.py:222-226 | a fresh subscription is added under the playlist's id, built from the record, with its ledger seeded from the tracks now present; nothing else changes |
| Subscriber.SpotifySubscriber.SubscribeId | src/SpotifySubscriber.py:221-226 | a followed id ends up subscribed; an existing subscription is left as it is |
| Subscriber.SpotifySubscriber.SubscribeIds | src/SpotifySubscriber.py:218-227 | raises at the first unfollowed id; every earlier id ends up subscribed |
| Subscriber.SpotifySubscriber.SubscribeMatching | src/SpotifySubscriber.py:231-237 | one pattern adds exactly the followed playlists whose lowered name contains the lowered pattern |
| Subscriber.SpotifySubscriber.SubscribePatterns | src/SpotifySubscriber.py:230-237 | the patterns together add exactly `PatternMatches` |
| Subscriber.SpotifySubscriber.SubscribeToPlaylists | src/SpotifySubscriber.py:215-241 | the error is at `FirstUnfollowed`; the keys become the old keys plus `SubscribeTargets`; existing subscriptions are the same objects, unchanged; new ones are seeded; a save happens iff nothing raised and something was added |
| Subscriber.SpotifySubscriber.UnsubscribeIds | src/SpotifySubscriber.py:248-255 | corrected (see ## Findings): removes the explicit ids up to the first one that is not (or no longer) subscribed, and raises there |
| Subscriber.SpotifySubscriber.UnsubscribeMatching | src/SpotifySubscriber.py:260-265 | corrected (see ## Findings): removes exactly the snapshot's subscriptions whose lowered name contains the lowered pattern |
| Subscriber.SpotifySubscriber.UnsubscribePatterns | src/SpotifySubscriber.py:257-265 | corrected (see ## Findings): the patterns together remove exactly `PatternRemoval` of the snapshot |
| Subscriber.SpotifySubscriber.UnsubscribeFromPlaylists | src/SpotifySubscriber.py:245-269 | corrected (see ## Findings): the error is at `FirstNotSubscribed`; what remains is the old map minus the removed ids, minus the pattern matches among what is left; a save happens iff nothing raised and something was removed |
| Subscriber.SpotifySubscriber.CheckPlaylist | src/SpotifySubscriber.py:306-321 | one subscription gets the current snapshot, and its ledger grows by exactly its accepted ids, stamped now |
| Subscriber.SpotifySubscriber.CheckPlaylists | src/SpotifySubscriber.py:304-325 | every subscription gets its playlist's snapshot and its `AcceptedMap` ids; the collected ids are exactly `PendingIds` |
| Subscriber.SpotifySubscriber.LogFeedUpdates | src/SpotifySubscriber.py:396-419 | the log is append-only: the ids are appended, each with a stamp of `now`, and the two columns stay the same length |
| Subscriber.SpotifySubscriber.CommitFeed | src/SpotifySubscriber.py:327-342 | the distinct accepted ids, strictly sorted, are appended to the log and sent in non-empty requests of at most 100 whose concatenation is exactly them; with no ids, nothing is sent or logged; the last update becomes now |
| Subscriber.SpotifySubscriber.UpdateFeed | src/SpotifySubscriber.py:293-345 | returns the number of distinct pending ids; the ledgers grow by the accepted ids; the snapshots are refreshed; the log gains exactly the pending ids, sorted, after the old log; the requests are the batches of those ids; the last update becomes now |

## Behaviour of the code worth knowing

- **Feed log not consulted.** `update_feed` never reads the feed log
  (src/SpotifySubscriber.py:327-339), so `UpdateFeed` submits every pending
  id, whether it was logged before or not.
- **Batch sizes.** More than 100 ids are split by `np.array_split` into
  ceil(n/100) near-equal sections, so 250 ids go out as 84/83/83
  (`Batching.SplitOf250`), not as 100/100/50.
- **Null tracks.** Every entry newer than the cutoff is dereferenced
  (src/SpotifySubscriber.py:370-375), so an entry with a null track, or
  with no artist, raises. The model requires every entry past the cutoff
  to have a track with an artist (`Remote.ReadableAfter`, used in
  `Remote.Fetchable`).
- **Fetch before shortcut.** The playlist is fetched before the snapshot
  comparison (src/SpotifySubscriber.py:351-359), so `Fetchable` requires
  the playlist to exist even when the shortcut applies.
- **Last update always advances.** `update_feed` sets `last_update` to the
  current time unconditionally, also when nothing was added and no request
  was sent (src/SpotifySubscriber.py:342).
- **Save after update.** `update_feed` always saves. There is no flag to
  model, and `UpdateFeed` returns none.

## Left out

- Token handling, client secrets, the storage directory, and pickle
  `_save`/`_load` (src/SpotifySubscriber.py:95-189): file, OAuth and browser
  I/O. `_save` is the `saved` result of subscribe and unsubscribe.
  Loading a saved object is not modelled; the constructor models the
  first-run path only.
- `_follow_user`, `print_playlists`, `print_feed_log`, `safe_print` and the
  `__repr__` methods: network calls or console output.
- The HTTP calls:
  - `user_playlist_create` becomes the `feedId` and `feedName` arguments
    of the constructor.
  - `user_playlist_add_tracks` becomes the `requests` result of
    `UpdateFeed`.
  - `sp.next` pagination becomes the pages of the `World` value.
- The feed log file: `_log_feed_updates` reads and rewrites `feed_log.npy`.
  The model keeps the log in two fields, `feedLogIds` and `feedLogStamps`,
  which start empty on the first run.
- `datetime.strptime`, `utcnow` and `fromtimestamp(0)`. Timestamps are
  integers, and the epoch is 0. Within one call, every `utcnow()` is the
  same `now`; the source reads the clock for each accepted track.
- Text.Lower: only ASCII letters are lowered, not Unicode `str.lower()`.
- Dictionary iteration order. The loops over subscriptions and followed
  playlists pick keys in an unspecified order. Every proved result is
  independent of that order: `np.unique` sorts, and the registry results
  are sets.
- The exception type and message of `raise Exception(...)`. They are the
  `Failure` values `NotFollowed` and `NotSubscribed`. After an error, the
  state keeps the changes made before it, as the source does in memory.
- Entries whose `added_by` is null: `_get_playlist_tracks` reads
  `track['added_by']['id']` and parses `added_at` for every entry, before
  the cutoff test (src/SpotifySubscriber.py:366-369), so such an entry
  raises even when it is older than the cutoff. `Entry.addedBy` is a
  string and `addedAt` an integer, so the model has no null adder and no
  malformed date, and does not capture this failure.
- Tracks whose `id` is null: ids are strings. `np.unique` over a mix of
  None and strings is not modelled.

## Findings

| source | as written | input that shows it | evidently intended | confidence | as-written member | corrected member |
|---|---|---|---|---|---|---|
| src/SpotifySubscriber.py:252-255 | after the membership check, the code reads `playlist['name']` on a `SubscribedPlaylist` object, which raises TypeError before the `del` | any explicit id that is subscribed, e.g. `unsubscribe_from_playlists(playlist_ids=[k])` with `k` in `subscribed_playlists` | remove the subscription (and report it), then go on with the next id | high, not executed | Registry.ExplicitUnsubscribeRaises | Subscriber.SpotifySubscriber.UnsubscribeIds |
| src/SpotifySubscriber.py:258-265 | every pattern runs over the same list of subscriptions taken before the loop, and each match is deleted with `del`, so a subscription matched by two patterns is deleted twice and the second `del` raises KeyError | a subscription named "Rock Mix" with `contains=["rock", "mix"]` | remove every subscription matched by any pattern, each once | high, not executed | Registry.OverlappingPatternsRaise | Subscriber.SpotifySubscriber.UnsubscribePatterns |
