/**
 * The queue view's rules: when a queued item may be promoted to "now
 * playing", when its promote button is disabled, who may remove it, and the
 * promotion itself (set the slot, then delete the queued document). Every
 * decision is taken on the client's cached copy of the watchlist and its
 * item list; the service calls then act on the store.
 */
module MediaList {
  import opened Records
  import opened WatchlistService

  /**
   * `isUsersTurn`: at most one item listed, or no one (or the empty id)
   * recorded as last to act on this kind, or someone other than the user.
   */
  predicate IsUsersTurn(active: ActiveWatchlist, items: seq<SerializedItem>, user: AppUser, kind: Kind) {
    var last := KindPointer(active.doc, kind);
    |items| <= 1 || last == None || last.value == "" || last.value != user.id
  }

  /** `isDisabled` of an item's promote button. */
  predicate IsDisabled(active: ActiveWatchlist, items: seq<SerializedItem>, user: AppUser, kind: Kind) {
    Occupied(Slot(active.doc, kind)) || (|items| > 1 && KindPointer(active.doc, kind) == Some(user.id))
  }

  /** The remove button is offered only on the user's own items. */
  predicate OffersRemove(item: SerializedItem, user: AppUser) {
    item.addedBy == user.id
  }

  /** For a user with a non-empty id, the button is disabled exactly when the slot is taken or it is not the user's turn. */
  lemma DisabledIffOccupiedOrNotTurn(active: ActiveWatchlist, items: seq<SerializedItem>, user: AppUser, kind: Kind)
    requires user.id != ""
    ensures IsDisabled(active, items, user, kind) <==> Occupied(Slot(active.doc, kind)) || !IsUsersTurn(active, items, user, kind)
  {
  }

  /** With the empty user id the two rules part: the button is disabled although the turn check would let the user through. */
  lemma EmptyUserIdSplitsTheRules(active: ActiveWatchlist, items: seq<SerializedItem>, user: AppUser, kind: Kind)
    requires user.id == "" && |items| > 1 && KindPointer(active.doc, kind) == Some("")
    ensures IsDisabled(active, items, user, kind) && IsUsersTurn(active, items, user, kind)
  {
  }

  /** The turn check fails only when the user is recorded as last to act on this kind and more than one item is listed. */
  lemma NotTurnMeansUserActedLast(active: ActiveWatchlist, items: seq<SerializedItem>, user: AppUser, kind: Kind)
    ensures !IsUsersTurn(active, items, user, kind) <==>
      |items| > 1 && user.id != "" && KindPointer(active.doc, kind) == Some(user.id)
  {
  }

  /** What the user is told; `Promoted` when both service calls succeeded. */
  datatype PromoteResult = NoActiveWatchlist | AlreadyPlayingAlert | NotYourTurnAlert | MoveFailed | Promoted

  /**
   * `handleMoveToNowPlaying`: refused (with no service call) on a missing
   * watchlist id, an occupied slot (checked first) or a failed turn check;
   * otherwise puts the item in its kind's slot and then removes its queued
   * document. On success the slot holds the item and the kind's pointer names
   * the item's adder, unless the removal found the item alone in its
   * watchlist, in which case all three pointers are cleared. When the
   * placement succeeds but the removal fails, the slot stays set.
   */
  method HandleMoveToNowPlaying(store: Store, active: ActiveWatchlist, items: seq<SerializedItem>,
                                user: AppUser, item: SerializedItem)
    returns (o: PromoteResult)
    requires store.Valid()
    modifies store
    ensures store.Valid()
    ensures store.users == old(store.users) && store.pendingInvites == old(store.pendingInvites)
    ensures o == NoActiveWatchlist <==> active.id == ""
    ensures o == AlreadyPlayingAlert <==> active.id != "" && Occupied(Slot(active.doc, item.kind))
    ensures o == NotYourTurnAlert <==>
      active.id != "" && !Occupied(Slot(active.doc, item.kind)) && !IsUsersTurn(active, items, user, item.kind)
    ensures o in {NoActiveWatchlist, AlreadyPlayingAlert, NotYourTurnAlert} ==>
      store.watchlists == old(store.watchlists) && store.items == old(store.items)
    ensures o == MoveFailed ==>
      var placedOk := active.id in old(store.watchlists) && !Occupied(Slot(old(store.watchlists)[active.id], item.kind));
      && store.items == old(store.items)
      && (!placedOk ==> store.watchlists == old(store.watchlists))
      && (placedOk ==>
            && store.watchlists == old(store.watchlists)[active.id := WithSlot(old(store.watchlists)[active.id], item.kind,
                                                                            Some(AsMediaItem(item)), Some(item.addedBy))]
            && (item.id !in old(store.items) ||
                var wid := old(store.items)[item.id].watchlistId;
                |ItemsOf(old(store.items), wid)| <= 1 && wid != active.id && wid !in old(store.watchlists)))
    ensures o == Promoted ==>
      var m := AsMediaItem(item);
      && active.id in old(store.watchlists) && item.id in old(store.items)
      && store.items == old(store.items) - {item.id}
      && var promoted := old(store.watchlists)[active.id := WithSlot(old(store.watchlists)[active.id], item.kind, Some(m), Some(m.addedBy))];
         var wid := old(store.items)[item.id].watchlistId;
         && (|ItemsOf(old(store.items), wid)| <= 1 ==> wid in promoted)
         && store.watchlists == if |ItemsOf(old(store.items), wid)| <= 1 then promoted[wid := ResetTurns(promoted[wid])] else promoted
    ensures o == Promoted && old(store.items)[item.id].watchlistId == active.id ==>
      var w := store.watchlists[active.id];
      var ow := old(store.watchlists)[active.id];
      && Slot(w, item.kind) == Some(AsMediaItem(item))
      && Slot(w, Other(item.kind)) == Slot(ow, Other(item.kind))
      && (|ItemsOf(old(store.items), active.id)| <= 1 ==>
            w.lastAddedBy == None && KindPointer(w, Movie) == None && KindPointer(w, Tv) == None)
      && (|ItemsOf(old(store.items), active.id)| > 1 ==>
            && KindPointer(w, item.kind) == Some(item.addedBy)
            && KindPointer(w, Other(item.kind)) == KindPointer(ow, Other(item.kind))
            && w.lastAddedBy == ow.lastAddedBy)
  {
    if active.id == "" {
      return NoActiveWatchlist;
    }
    if Occupied(Slot(active.doc, item.kind)) {
      return AlreadyPlayingAlert;
    }
    if !IsUsersTurn(active, items, user, item.kind) {
      return NotYourTurnAlert;
    }
    var placed := store.UpdateCurrentlyWatching(active.id, Some(AsMediaItem(item)), item.kind);
    if placed.Fail? {
      return MoveFailed;
    }
    var removed := store.RemoveItemFromWatchlist(item.id);
    if removed.Fail? {
      return MoveFailed;
    }
    o := Promoted;
  }

  /**
   * `handleRemove`: the service removal with its failures swallowed. No
   * ownership check is made here or in the service: the document is deleted
   * whoever its stored `addedBy` names, so `OffersRemove` is the only guard.
   */
  method HandleRemove(store: Store, itemId: string)
    requires store.Valid()
    modifies store
    ensures store.Valid()
    ensures store.users == old(store.users) && store.pendingInvites == old(store.pendingInvites)
    ensures itemId !in old(store.items) ==> store.items == old(store.items) && store.watchlists == old(store.watchlists)
    ensures itemId in old(store.items) ==>
      var wid := old(store.items)[itemId].watchlistId;
      var last := |ItemsOf(old(store.items), wid)| <= 1;
      if last && wid !in old(store.watchlists) then
        store.items == old(store.items) && store.watchlists == old(store.watchlists)
      else
        && store.items == old(store.items) - {itemId}
        && store.watchlists == if last then old(store.watchlists)[wid := ResetTurns(old(store.watchlists)[wid])] else old(store.watchlists)
    ensures itemId in old(store.items) ==>
      var wid := old(store.items)[itemId].watchlistId;
      (wid in old(store.watchlists) || |ItemsOf(old(store.items), wid)| > 1) ==> itemId !in store.items
  {
    var _ := store.RemoveItemFromWatchlist(itemId);
  }
}
