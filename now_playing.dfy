/**
 * The "now playing" view: finishing the playing item of a kind, moving it
 * back to the queue, deleting it from the slot, and the conversion of a slot
 * item into the serialised form the view renders. The handlers read the
 * playing item from the client's cached copy of the watchlist and swallow
 * service errors.
 */
module NowPlaying {
  import opened Records
  import opened WatchlistService

  /**
   * `convertToSerializedItem`: `None` stays `None`; an item gets the given
   * watchlist id, the clock reading as `addedAt` and an empty `addedBy`,
   * everything else as it was.
   */
  function ConvertToSerializedItem(item: Option<MediaItem>, watchlistId: string, now: int): (r: Option<SerializedItem>)
    ensures r == None <==> item == None
    ensures item.Some? ==>
      && r.value.watchlistId == watchlistId
      && AsMediaItem(r.value) == item.value.(addedBy := "", addedAt := now)
  {
    match item
    case None => None
    case Some(m) =>
      Some(SerializedItem(m.id, watchlistId, m.title, m.posterPath, m.overview, m.kind, "", now,
                          m.rating, m.comment, m.finishedAt))
  }

  /**
   * `handleMarkFinished`: without an active watchlist id nothing happens;
   * otherwise the service finishes the playing item of kind `kind` only,
   * leaving the other kind's slot and pointer and `lastAddedBy` alone.
   */
  method HandleMarkFinished(store: Store, active: Option<ActiveWatchlist>, kind: Kind, newId: string, now: int)
    requires store.Valid() && newId !in store.items
    modifies store
    ensures store.Valid()
    ensures store.users == old(store.users) && store.pendingInvites == old(store.pendingInvites)
    ensures !HasActiveId(active) ==> store.watchlists == old(store.watchlists) && store.items == old(store.items)
    ensures HasActiveId(active) ==>
      var wid := active.value.id;
      if wid in old(store.watchlists) && Slot(old(store.watchlists)[wid], kind) != None then
        var ow := old(store.watchlists)[wid];
        && store.items == old(store.items)[newId := FinishedRecord(Slot(ow, kind).value, wid, now)]
        && store.watchlists == old(store.watchlists)[wid := WithSlot(ow, kind, None, None)]
        && Slot(store.watchlists[wid], Other(kind)) == Slot(ow, Other(kind))
        && KindPointer(store.watchlists[wid], Other(kind)) == KindPointer(ow, Other(kind))
        && store.watchlists[wid].lastAddedBy == ow.lastAddedBy
      else
        store.watchlists == old(store.watchlists) && store.items == old(store.items)
  {
    if !HasActiveId(active) {
      return;
    }
    var _ := store.MarkAsFinished(active.value.id, kind, newId, now);
  }

  /**
   * `handleMoveBack`: with a watchlist id, a signed-in user and an item in the
   * cached slot, the item is re-added to the queue as added by the mover,
   * then the slot is cleared. The final state has one more item document, an
   * empty slot, `lastAddedBy` naming the mover and that kind's pointer
   * cleared. If the re-add fails on a missing watchlist the slot is left alone.
   */
  method HandleMoveBack(store: Store, active: Option<ActiveWatchlist>, user: Option<AppUser>, kind: Kind,
                        newId: string, now: int)
    requires store.Valid() && newId !in store.items
    modifies store
    ensures store.Valid()
    ensures store.users == old(store.users) && store.pendingInvites == old(store.pendingInvites)
    ensures !HasActiveId(active) || user == None || Slot(active.value.doc, kind) == None ==>
      store.watchlists == old(store.watchlists) && store.items == old(store.items)
    ensures HasActiveId(active) && user.Some? && Slot(active.value.doc, kind) != None ==>
      var wid := active.value.id;
      var cur := Slot(active.value.doc, kind).value;
      var moved := cur.(addedBy := user.value.id, addedAt := now);
      && store.items == old(store.items)[newId := NewItemRecord(wid, moved, now)]
      && |store.items| == |old(store.items)| + 1
      && (wid !in old(store.watchlists) ==> store.watchlists == old(store.watchlists))
      && (wid in old(store.watchlists) ==>
            store.watchlists == old(store.watchlists)[wid := WithSlot(WithAdder(old(store.watchlists)[wid], cur.kind, user.value.id), kind, None, None)])
      && (wid in old(store.watchlists) && cur.kind == kind ==>
            var w := store.watchlists[wid];
            var ow := old(store.watchlists)[wid];
            && Slot(w, kind) == None && KindPointer(w, kind) == None
            && w.lastAddedBy == Some(user.value.id)
            && Slot(w, Other(kind)) == Slot(ow, Other(kind))
            && KindPointer(w, Other(kind)) == KindPointer(ow, Other(kind)))
  {
    if !HasActiveId(active) || user == None {
      return;
    }
    var current := Slot(active.value.doc, kind);
    if current == None {
      return;
    }
    var added := store.AddItemToWatchlist(active.value.id, current.value.(addedBy := user.value.id, addedAt := now), newId, now);
    if added.Fail? {
      return;
    }
    var _ := store.UpdateCurrentlyWatching(active.value.id, None, kind);
  }

  /**
   * `handleDelete`: clears the slot of kind `kind` and that kind's pointer;
   * no item document is written or deleted.
   */
  method HandleDelete(store: Store, active: Option<ActiveWatchlist>, kind: Kind)
    requires store.Valid()
    modifies store
    ensures store.Valid()
    ensures store.items == old(store.items) && store.users == old(store.users)
    ensures store.pendingInvites == old(store.pendingInvites)
    ensures !HasActiveId(active) || active.value.id !in old(store.watchlists) ==> store.watchlists == old(store.watchlists)
    ensures HasActiveId(active) && active.value.id in old(store.watchlists) ==>
      store.watchlists == old(store.watchlists)[active.value.id := WithSlot(old(store.watchlists)[active.value.id], kind, None, None)]
  {
    if !HasActiveId(active) {
      return;
    }
    var _ := store.UpdateCurrentlyWatching(active.value.id, None, kind);
  }
}
