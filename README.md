# Shared watchlist: a verified model of the turn-based core

The application lets two partners keep one shared queue of films and TV shows.
Each partner adds an item in turn, one item of each kind is promoted to "now
playing", and a playing item is finished or moved back to the queue. Partners
join a watchlist by email invitation. This project models that core in Dafny:

- `records.dfy` (`Records`): the stored and client-side records. This covers
  the watchlist document with its two now-playing slots and three turn
  pointers (`lastAddedBy`, `lastMovieAddedBy`, `lastTvShowAddedBy`), the item
  documents, user records, pending invites and the reducer's `MediaItem`.
- `text.dfy` (`Text`): the string operations the core relies on. These are
  ECMAScript `trim`, lower-casing of invitation addresses, and the decimal
  rendering of a numeric search-result id.
- `watchlist_service.dfy` (`WatchlistService`): the service operations of
  `src/services/watchlist.ts`. They are methods of a `Store` class holding
  the four collections (`watchlists`, `watchlistItems`, `users`,
  `pendingInvites`) as maps from document id to record. Each method states
  the whole new state and every error case. Each also keeps the store's
  invariant: a user's active watchlist exists and lists that user as a
  member. The file also holds the pure
  mapping that reads an item document back (`subscribeToWatchlistItems`).
- `media_list.dfy` (`MediaList`): the queue view's turn check, the
  disabled-button rule, the remove-button ownership rule (`OffersRemove`),
  and the promote and remove handlers as sequences of service calls.
- `now_playing.dfy` (`NowPlaying`): conversion of a slot item for display,
  and the finish, move-back and delete handlers.
- `add_media_modal.dfy` (`AddMediaModal`): the add dialog's `isMyTurn` gate,
  its guards, and the record it builds from a search result.
- `media_slice.dfy` (`MediaSlice`): the local queue reducer as a `Slice`
  class whose methods change its fields in place. Each method is specified
  by a function on the state's value, and lemmas state what the reducers
  promise: the same adder never appends twice in a row, removal deletes the
  first match only, finishing advances the queue, moving back preserves the
  items.

Generated document ids, server timestamps and `Date.now()` are parameters. A
fresh id must not already be a key of its collection. The UI handlers decide
on the client's cached copy of the watchlist and its item list, which are
passed in, and then call the service methods on the `Store`.

Some behaviours a reader might expect are not what the code does, and the
model follows the code:

- `acceptInvitation` appends the user to the members even when already
  present. It does not delete a pending invite, and it checks no email or
  watchlist match.
- `markAsFinished` writes a new item document copied from the playing item.
  It does not stamp the original queue document, since that document was
  deleted on promotion.
- The removal reset counts every item document of the watchlist before the
  delete, finished records included. The reset therefore happens only when
  the removed document is the watchlist's only one, not when one pending
  item would remain.
- The add dialog gates on the overall `lastAddedBy`. The queue's promote
  gate uses the per-kind pointer. `AddMediaModal.GatesDisagree` exhibits a
  state where the two gates disagree.
- `removeItemFromWatchlist` makes no ownership check. Ownership is only
  enforced by which remove buttons the queue view shows.

## Model

| member | source | states |
|---|---|---|
| Records.WithSlot | src/services/watchlist.ts:384-393 | setting a slot sets exactly that kind's slot and pointer; the other kind's slot and pointer, `lastAddedBy`, the members, name and creation time are unchanged |
| Records.Occupied | src/services/watchlist.ts:378 | a slot counts as playing only when it holds an item with a non-empty id (`currentlyPlaying && currentlyPlaying.id`) |
| Records.ResetTurns | src/services/watchlist.ts:347-351 | helper: all three turn pointers set to null; covered by the `Store.RemoveItemFromWatchlist` row |
| Records.WithAdder | src/services/watchlist.ts:314-320 | recording an adder sets `lastAddedBy` and the pointer of the item's kind to the adder, and leaves the other kind's pointer and both slots unchanged |
| Text.TrimStart | src/services/watchlist.ts:35-36 | the result is a suffix of the input, starts with a non-white-space character (or is empty), and everything dropped is white space |
| Text.TrimEnd | src/services/watchlist.ts:35-36 | the result is a prefix of the input, ends with a non-white-space character (or is empty), and everything dropped is white space |
| Text.BlankIffAllWhitespace | src/services/watchlist.ts:35-36 | `!s.trim()` holds exactly when every character of `s` is white space |
| Text.ToLower | src/services/watchlist.ts:137 | lower-casing keeps the length and maps each character through the same per-character rule |
| Text.ToLowerIdempotent | src/services/watchlist.ts:156 | lower-casing a lower-cased address changes nothing, so a stored lower-cased address matches later lookups |
| Text.Decimal | src/components/media/AddMediaModal.tsx:94 | the rendering of a number is a non-empty digit string with no leading zero |
| Text.DecimalRoundTrip | src/components/media/AddMediaModal.tsx:94 | reading the decimal rendering of a number gives the number back |
| Text.DecimalInjective | src/components/media/AddMediaModal.tsx:94 | different numbers have different renderings |
| MediaSlice.IndexOf | src/store/slices/mediaSlice.ts:48 | `findIndex` returns the first position holding the id, or -1 exactly when no entry has it |
| MediaSlice.MayAppend | src/store/slices/mediaSlice.ts:39 | helper: the append gate, no last adder or a different one; covered by `AddAdmitsIffOtherAdder` |
| MediaSlice.Apply | src/store/slices/mediaSlice.ts:85 | helper: `Object.assign` of a patch, each named field replaced; covered by `UpdateTouchesFirstMatchOnly` and `EmptyPatchIsIdentity` |
| MediaSlice.Slice.constructor | src/store/slices/mediaSlice.ts:23-28 | the initial state: nothing playing, empty queue and finished list, no last adder |
| MediaSlice.Slice.SetCurrentlyWatching | src/store/slices/mediaSlice.ts:34-36 | only the playing item changes, to the payload |
| MediaSlice.Slice.AddToWatchlist | src/store/slices/mediaSlice.ts:37-46 | the new state is the gated append: the stamped item is appended and its adder recorded iff the last adder is null or someone else |
| MediaSlice.Slice.RemoveFromWatchlist | src/store/slices/mediaSlice.ts:47-56 | the new state deletes the first entry with the id, clearing the last adder iff the queue had one item; no-op for an absent id |
| MediaSlice.Slice.MarkAsFinished | src/store/slices/mediaSlice.ts:57-73 | the new state appends the stamped playing item to the finished list and promotes the queue head (or empties the slot) |
| MediaSlice.Slice.MoveBackToWatchlist | src/store/slices/mediaSlice.ts:74-80 | the new state has the playing item at the queue front and nothing playing |
| MediaSlice.Slice.UpdateMediaItem | src/store/slices/mediaSlice.ts:81-87 | the new state applies the patch to the first entry with the id only |
| MediaSlice.AddAdmitsIffOtherAdder | src/store/slices/mediaSlice.ts:39-45 | the queue grows by one iff the last adder is not the item's adder; on growth exactly the stamped item is appended and its adder recorded; otherwise nothing changes |
| MediaSlice.SameAdderNeverTwiceInARow | src/store/slices/mediaSlice.ts:39-45 | right after an admitted add, a second add by the same user changes nothing |
| MediaSlice.AddKeepsTurnsTracked | src/store/slices/mediaSlice.ts:39-45 | an add keeps the queue alternating between adders and keeps `lastAddedBy` naming the adder of the last entry |
| MediaSlice.AddsAlternate | src/store/slices/mediaSlice.ts:37-46 | from a tracked state, any run of adds leaves a queue in which no two neighbours share an adder |
| MediaSlice.RemoveAbsentIsNoOp | src/store/slices/mediaSlice.ts:48-49 | removing an id that is not queued changes nothing |
| MediaSlice.RemoveDeletesFirstMatch | src/store/slices/mediaSlice.ts:48-54 | removal deletes exactly the first entry with the id: one shorter, earlier entries in place, later ones shifted up by one, the same bag minus that entry |
| MediaSlice.RemoveResetsOnlyLastItem | src/store/slices/mediaSlice.ts:51-53 | the last adder is cleared when the removal empties a one-item queue and kept otherwise |
| MediaSlice.FinishAdvancesQueue | src/store/slices/mediaSlice.ts:57-73 | with nothing playing nothing changes; otherwise the finished list grows by exactly the stamped playing item and the queue head becomes the playing item and leaves the queue |
| MediaSlice.MoveBackPreservesItems | src/store/slices/mediaSlice.ts:74-80 | moving back prepends the playing item, clears the slot, is a no-op with nothing playing, and keeps the bag of queued plus playing items |
| MediaSlice.UpdateTouchesFirstMatchOnly | src/store/slices/mediaSlice.ts:81-87 | an update changes only the first entry with the id, keeps the length and every other entry, and is a no-op for an absent id |
| MediaSlice.EmptyPatchIsIdentity | src/store/slices/mediaSlice.ts:85 | assigning an empty patch leaves an item as it is |
| WatchlistService.ActiveMembership | src/services/watchlist.ts:201-213 | the store invariant every service method keeps: a user's active watchlist is stored and lists the user among its members |
| WatchlistService.NewItemRecord | src/services/watchlist.ts:288-307 | the document an add writes: the item's fields, the watchlist id, a server timestamp as `addedAt`, optional fields only when present; partnered by `NewItemReadsBack` |
| WatchlistService.FinishedRecord | src/services/watchlist.ts:419-429 | the document a finish writes: the playing item spread in with its numeric `addedAt` and `id`, a server `finishedAt`, the watchlist id and `status: 'finished'`; partnered by `FinishedRecordBreaksRead` and `FinishedRecordReadsBack` |
| WatchlistService.ItemsOf | src/services/watchlist.ts:341 | helper: the documents of the query on `watchlistId`, pending and finished alike; covered by the `Store.RemoveItemFromWatchlist` and `LastItemMeansOnlyItem` rows |
| WatchlistService.InviterName | src/services/watchlist.ts:160 | helper: the display name, or 'A user' when it is missing or empty; covered by the `Store.InviteToWatchlist` row |
| WatchlistService.HasPendingInvite | src/services/watchlist.ts:165-169 | helper: some pending invite has this lower-cased address and watchlist id; covered by the `Store.InviteToWatchlist` row |
| WatchlistService.Without | src/services/watchlist.ts:212 | filtering removes every occurrence of the id, adds nothing, and leaves a list without the id unchanged |
| WatchlistService.WithoutSingle | src/services/watchlist.ts:212 | a one-entry list loses its entry exactly when it is the filtered id |
| WatchlistService.WithoutAppend | src/services/watchlist.ts:212 | filtering a concatenation is the concatenation of the filtered parts, so the kept invites stay in their order |
| WatchlistService.WithoutKeepsOthers | src/services/watchlist.ts:212 | every other id occurs as often after filtering as before |
| WatchlistService.WithoutDropsOnlyTarget | src/services/watchlist.ts:212 | the list shrinks by exactly the number of occurrences of the filtered id |
| WatchlistService.Store.CreateWatchlist | src/services/watchlist.ts:30-116 | blank name, blank creator id and missing creator are refused in that order with nothing written; otherwise a fresh watchlist with the creator as sole member, empty slots and pointers, and the creator's record pointing at it as its creator |
| WatchlistService.Store.InviteToWatchlist | src/services/watchlist.ts:119-186 | missing watchlist, then no signed-in user, are refused; an account with the lower-cased address gets the watchlist appended to its invites unless already there; otherwise one pending invite per address and watchlist is recorded, with the inviter's name defaulting to 'A user' |
| WatchlistService.Store.AcceptInvitation | src/services/watchlist.ts:189-218 | a missing watchlist is refused; otherwise the user is appended to the members; then a missing user record fails, or the user's active watchlist is set and the watchlist filtered out of its invites |
| WatchlistService.Store.AddItemToWatchlist | src/services/watchlist.ts:281-325 | an empty id is refused; otherwise one new item document with a server timestamp is written, then a missing watchlist fails, or `lastAddedBy` and the item kind's pointer name the adder; no turn check |
| WatchlistService.Store.RemoveItemFromWatchlist | src/services/watchlist.ts:328-360 | a missing item fails; when its watchlist holds at most this document, all three pointers are cleared first (failing with nothing deleted if the watchlist is missing); the item is deleted |
| WatchlistService.Store.UpdateCurrentlyWatching | src/services/watchlist.ts:363-399 | a missing watchlist fails; setting an occupied slot fails; otherwise the slot and its kind's pointer are set (or cleared) and nothing else changes |
| WatchlistService.Store.MarkAsFinished | src/services/watchlist.ts:402-437 | missing watchlist and empty slot fail with nothing written; otherwise one new finished document copied from the playing item is written and that slot and pointer are cleared |
| WatchlistService.LastItemMeansOnlyItem | src/services/watchlist.ts:341-345 | the item being removed is among its watchlist's documents, so "at most one document" means "only this document" |
| WatchlistService.SerializeAsWritten | src/services/watchlist.ts:252-269 | the mapping as written throws exactly when `addedAt` is a non-zero plain number; otherwise it carries the document id, watchlist id and finish time, reads a server timestamp as milliseconds and a zero `addedAt` as the clock reading |
| WatchlistService.SerializeItem | src/services/watchlist.ts:252-269 | the corrected read-back agrees with the as-written mapping wherever that succeeds, and carries the document id, watchlist id and finish time |
| WatchlistService.NewItemReadsBack | src/services/watchlist.ts:252-269 | a document written by an add reads back as the item's fields with the watchlist id and the server write time |
| WatchlistService.FinishedRecordBreaksRead | src/services/watchlist.ts:260 | every finished document whose playing item has a non-zero `addedAt` makes the as-written read-back throw |
| WatchlistService.FinishedMovieExample | src/services/watchlist.ts:260 | a concrete finished movie document that the as-written read-back cannot read |
| WatchlistService.FinishedRecordReadsBack | src/services/watchlist.ts:419-429 | with the corrected read-back, a finished document reads back as the playing item under the document's id, stamped with its finish time |
| MediaList.IsUsersTurn | src/components/media/MediaList.tsx:24 | the promote turn check: at most one item listed, or the kind's last adder missing, empty or someone else; characterised by `NotTurnMeansUserActedLast` |
| MediaList.IsDisabled | src/components/media/MediaList.tsx:70-73 | the promote button's disabled rule: the slot is playing, or more items than one are listed and the user is the kind's last adder; related to the turn check by `DisabledIffOccupiedOrNotTurn` |
| MediaList.OffersRemove | src/components/media/MediaList.tsx:112 | the remove button is shown on an item exactly when the user added it; a plain definition, the only ownership guard (see `HandleRemove`) |
| MediaList.DisabledIffOccupiedOrNotTurn | src/components/media/MediaList.tsx:70-73 | for a user with a non-empty id, the promote button is disabled exactly when the slot is taken or the turn check fails |
| MediaList.EmptyUserIdSplitsTheRules | src/components/media/MediaList.tsx:70-73 | for the empty user id the button is disabled while the turn check passes |
| MediaList.NotTurnMeansUserActedLast | src/components/media/MediaList.tsx:24 | the turn check fails exactly when more than one item is listed and the user (non-empty id) is the kind's last adder |
| MediaList.HandleMoveToNowPlaying | src/components/media/MediaList.tsx:15-43 | refusals (no id, occupied slot, not the user's turn) are reported and write nothing; on success the slot holds the item, its kind's pointer names the item's adder, and the queued document is gone, with all pointers cleared when it was the watchlist's only document; on a failed move either the placement failed and nothing is written, or the removal failed (item gone, or no watchlist for the reset) and the slot stays set |
| MediaList.HandleRemove | src/components/media/MediaList.tsx:45-51 | the service removal with failures swallowed: absent item changes nothing; otherwise the item is deleted (with the last-document reset) unless the reset finds no watchlist; the deletion does not depend on the stored `addedBy`, so ownership rests on `OffersRemove` in the view alone |
| NowPlaying.ConvertToSerializedItem | src/components/media/NowPlaying.tsx:120-128 | no item gives nothing; an item keeps every field but gets the watchlist id, the current time as `addedAt` and an empty adder |
| NowPlaying.HandleMarkFinished | src/components/media/NowPlaying.tsx:135-142 | without a watchlist id nothing happens; otherwise the finished document is written and only the finished kind's slot and pointer are cleared, `lastAddedBy` kept |
| NowPlaying.HandleMoveBack | src/components/media/NowPlaying.tsx:144-162 | without an id, user or playing item nothing happens; otherwise one new queue document added by the mover, then the slot and its pointer cleared, leaving `lastAddedBy` naming the mover and the other kind untouched |
| NowPlaying.HandleDelete | src/components/media/NowPlaying.tsx:164-171 | only the slot and its kind's pointer are cleared; no item document is written or removed |
| AddMediaModal.DisplayTitle | src/components/media/AddMediaModal.tsx:95 | the title falls back from `title` to `name` to the empty string, and is empty exactly when neither is truthy |
| AddMediaModal.PosterOf | src/components/media/AddMediaModal.tsx:96 | the poster path falls back to the empty string, exactly when `poster_path` is missing or empty |
| AddMediaModal.IsMyTurn | src/components/media/AddMediaModal.tsx:55 | the dialog's gate on the overall `lastAddedBy`, with JavaScript truthiness and `user?.id`; characterised by `NotMyTurnIff` |
| AddMediaModal.NotMyTurnIff | src/components/media/AddMediaModal.tsx:55 | the gate refuses exactly a signed-in user (non-empty id) who is the overall last adder while items are listed |
| AddMediaModal.RecordFor | src/components/media/AddMediaModal.tsx:93-101 | the record's id is a digit string that reads back as the numeric id; title and poster fall back as above; kind is the media type; adder is the user; no rating, comment or finish time |
| AddMediaModal.DistinctHitsDistinctIds | src/components/media/AddMediaModal.tsx:94 | search results with different ids give records with different ids |
| AddMediaModal.AddPassesTurn | src/components/media/AddMediaModal.tsx:55 | after a user adds, with items listed, the gate refuses that user and admits every other user, whatever kind was added |
| AddMediaModal.GatesDisagree | src/components/media/AddMediaModal.tsx:55 | a state where the dialog refuses a user whom the queue's per-kind check for shows admits |
| AddMediaModal.HandleAddToWatchlist | src/components/media/AddMediaModal.tsx:76-110 | no user, no watchlist id and not-my-turn are reported in that order with nothing written; otherwise the built record is added, reported as added exactly when the watchlist exists |

## Left out

- Persistence, real-time sync and authentication: each service operation is one atomic step on maps, with no interleaving between its awaits and no concurrency between clients.
- Subscriptions (`subscribeToWatchlist`, the query and callback plumbing of `subscribeToWatchlistItems`): only the per-document mapping is modelled.
- Error messages, logging and re-thrown wrapper messages: errors are the constants of `ServiceError` and the feedback datatypes.
- `createWatchlist`: a failing user-document fetch (a network error wrapped as "Failed to verify user") is not modelled.
- `WatchlistService.Store.InviteToWatchlist`: states that some account with the address is updated, not which one; the ordering of `docs[0]` is not modelled.
- `inviteToWatchlist`: the `Array.isArray` fallback is implicit, since a stored invite list is always a sequence. The invitation email is outside the core.
- `acceptInvitation`: a user document with a non-array `watchlistInvites` is not modelled; a missing user document is the `UserRecordMissing` failure.
- `Text.ToLower`: lower-cases ASCII letters only, whereas `toLowerCase` follows full Unicode case mapping.
- Timestamps are whole milliseconds, and server timestamps are the clock parameter. A rating is a whole number; the rating display divides by two in floating point and is not modelled.
- `AddMediaModal.RecordFor`: search-result ids are non-negative whole numbers, so `toString` of a fractional or negative number is not modelled.
- `MediaList.HandleMoveToNowPlaying`: the item stored in the slot drops the queued item's `watchlistId` field, which is never read back from a slot.
- `updateMediaItem`: a patch that sets a required field to `undefined` is not modelled; optional fields may be patched to absent.
- Search (`handleSearch`, the TMDB client), `getYear`, modal state, alerts, snackbars, `onClose` and all rendering are presentation or network.
- The finished list view, the other components, the serverless email function and the Redux watchlist slice setters are not part of this model.

## Findings

| source | as written | input that shows it | evidently intended | confidence | as-written member | corrected member |
|---|---|---|---|---|---|---|
| src/services/watchlist.ts:260 | `markAsFinished` (419-429) spreads the playing item, whose `addedAt` is a plain number, into the finished document; the read-back then calls `data.addedAt.toMillis()`, which a number does not have, so the mapping throws | a movie promoted with `addedAt` 1700000000000 and then finished; the next snapshot of its watchlist's items | a numeric `addedAt` is read as milliseconds, and the finished record reads back as the playing item | not executed | WatchlistService.FinishedRecordBreaksRead | WatchlistService.FinishedRecordReadsBack |
