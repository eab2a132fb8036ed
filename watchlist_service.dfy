/**
 * The watchlist service: guarded read-then-update operations on the four
 * stored collections (`watchlists`, `watchlistItems`, `users`,
 * `pendingInvites`), kept here as maps from document id to record. Document
 * ids the store generates and server timestamps are parameters: `newId` must
 * be an id the collection does not hold yet, `now` is the clock reading.
 * Each operation runs to completion; where the source writes one document and
 * then fails on the next, the model keeps the first write.
 */
module WatchlistService {
  import opened Records
  import opened Text

  /** Why an operation was refused. */
  datatype ServiceError =
    | NameEmpty
    | CreatorIdEmpty
    | CreatorNotFound
    | WatchlistNotFound
    | NotSignedIn
    | UserAlreadyInvited
    | EmailAlreadyInvited
    | UserRecordMissing
    | WatchlistIdRequired
    | ItemNotFound
    | AlreadyPlaying(kind: Kind)
    | NothingPlaying

  /**
   * Every user's `activeWatchlist`, when set, names a stored watchlist whose
   * members include that user: `createWatchlist` makes the creator the sole
   * member, `acceptInvitation` appends the user before pointing the user at it.
   */
  predicate ActiveMembership(watchlists: map<string, Watchlist>, users: map<string, UserRecord>) {
    forall u :: u in users && users[u].activeWatchlist.Some? ==>
      users[u].activeWatchlist.value in watchlists && u in watchlists[users[u].activeWatchlist.value].users
  }

  /** The ids of the documents the query `where('watchlistId', '==', wid)` returns: pending and finished alike. */
  function ItemsOf(items: map<string, WatchlistItem>, wid: string): set<string> {
    set k | k in items && items[k].watchlistId == wid
  }

  /** The document `addItemToWatchlist` writes: optional fields only when the item has them. */
  function NewItemRecord(watchlistId: string, item: MediaItem, now: int): WatchlistItem {
    WatchlistItem(watchlistId, item.title, item.posterPath, item.overview, item.kind, item.addedBy,
                  Stamp(now), item.rating, item.comment, item.finishedAt, None, None)
  }

  /**
   * The document `markAsFinished` writes: the playing item spread in (its
   * `id` and its numeric `addedAt` included), a server `finishedAt`, the
   * watchlist id and `status: 'finished'`.
   */
  function FinishedRecord(current: MediaItem, watchlistId: string, now: int): WatchlistItem {
    WatchlistItem(watchlistId, current.title, current.posterPath, current.overview, current.kind, current.addedBy,
                  Number(current.addedAt), current.rating, current.comment, Some(now), Some(current.id), Some("finished"))
  }

  /** `list.filter(id => id !== x)`. */
  function Without(list: seq<string>, x: string): (r: seq<string>)
    ensures x !in r
    ensures forall y :: y in r ==> y in list
    ensures |r| <= |list|
    ensures x !in list ==> r == list
  {
    if list == [] then []
    else if list[0] == x then Without(list[1..], x)
    else [list[0]] + Without(list[1..], x)
  }

  /** Filtering keeps every other entry as often as it occurs. */
  lemma {:induction false} WithoutKeepsOthers(list: seq<string>, x: string, y: string)
    requires y != x
    ensures multiset(Without(list, x))[y] == multiset(list)[y]
  {
    if list != [] {
      WithoutKeepsOthers(list[1..], x, y);
      assert list == [list[0]] + list[1..];
    }
  }

  /** The list shrinks by exactly the number of `x`s. */
  lemma {:induction false} WithoutDropsOnlyTarget(list: seq<string>, x: string)
    ensures |list| - |Without(list, x)| == multiset(list)[x]
  {
    if list != [] {
      WithoutDropsOnlyTarget(list[1..], x);
      assert list == [list[0]] + list[1..];
    }
  }

  /** Filtering a single entry drops it exactly when it is `x`. */
  lemma WithoutSingle(y: string, x: string)
    ensures Without([y], x) == if y == x then [] else [y]
  {
    assert [y][1..] == [];
  }

  /** Filtering distributes over concatenation, so the kept entries stay in their order. */
  lemma {:induction false} WithoutAppend(a: seq<string>, b: seq<string>, x: string)
    ensures Without(a + b, x) == Without(a, x) + Without(b, x)
  {
    if a != [] {
      assert (a + b)[0] == a[0];
      assert (a + b)[1..] == a[1..] + b;
      WithoutAppend(a[1..], b, x);
    } else {
      assert a + b == b;
    }
  }

  /** The inviter's name on a pending invite: the display name, or `'A user'` when it is missing or empty. */
  function InviterName(u: AuthUser): string {
    if u.displayName.Some? && u.displayName.value != "" then u.displayName.value else "A user"
  }

  predicate HasPendingInvite(invites: map<string, PendingInvite>, email: string, watchlistId: string) {
    exists k :: k in invites && invites[k].email == email && invites[k].watchlistId == watchlistId
  }

  /** The four collections, updated in place by the service operations. */
  class Store {
    var watchlists: map<string, Watchlist>
    var items: map<string, WatchlistItem>
    var users: map<string, UserRecord>
    var pendingInvites: map<string, PendingInvite>

    predicate Valid()
      reads this
    {
      ActiveMembership(watchlists, users)
    }

    constructor (ws: map<string, Watchlist>, its: map<string, WatchlistItem>,
                 us: map<string, UserRecord>, ps: map<string, PendingInvite>)
      requires ActiveMembership(ws, us)
      ensures Valid()
      ensures watchlists == ws && items == its && users == us && pendingInvites == ps
    {
      watchlists, items, users, pendingInvites := ws, its, us, ps;
    }

    /** `createWatchlist`: a fresh one-member watchlist with empty slots and turn pointers, made the creator's active one. */
    method CreateWatchlist(name: string, creatorId: string, newId: string, now: int)
      returns (r: Result<string, ServiceError>)
      requires Valid() && newId !in watchlists
      modifies this
      ensures Valid()
      ensures items == old(items) && pendingInvites == old(pendingInvites)
      ensures IsBlank(name) ==> r == Failure(NameEmpty)
      ensures !IsBlank(name) && IsBlank(creatorId) ==> r == Failure(CreatorIdEmpty)
      ensures !IsBlank(name) && !IsBlank(creatorId) && creatorId !in old(users) ==> r == Failure(CreatorNotFound)
      ensures r.Failure? ==> watchlists == old(watchlists) && users == old(users)
      ensures r.Success? <==> !IsBlank(name) && !IsBlank(creatorId) && creatorId in old(users)
      ensures r.Success? ==>
        && r.value == newId
        && watchlists == old(watchlists)[newId := Watchlist(name, [creatorId], None, None, None, None, None, now)]
        && users == old(users)[creatorId := old(users)[creatorId].(activeWatchlist := Some(newId), isWatchlistCreator := true)]
    {
      if IsBlank(name) {
        return Failure(NameEmpty);
      }
      if IsBlank(creatorId) {
        return Failure(CreatorIdEmpty);
      }
      if creatorId !in users {
        return Failure(CreatorNotFound);
      }
      watchlists := watchlists[newId := Watchlist(name, [creatorId], None, None, None, None, None, now)];
      users := users[creatorId := users[creatorId].(activeWatchlist := Some(newId), isWatchlistCreator := true)];
      r := Success(newId);
    }

    /**
     * `inviteToWatchlist`: an account with the lower-cased address gets the
     * watchlist appended to its invites (once); otherwise one pending invite
     * per address and watchlist is recorded.
     */
    method InviteToWatchlist(email: string, watchlistId: string, currentUser: Option<AuthUser>, newId: string, now: int)
      returns (r: Outcome<ServiceError>)
      requires Valid() && newId !in pendingInvites
      modifies this
      ensures Valid()
      ensures watchlists == old(watchlists) && items == old(items)
      ensures watchlistId !in old(watchlists) ==>
        r == Fail(WatchlistNotFound) && users == old(users) && pendingInvites == old(pendingInvites)
      ensures watchlistId in old(watchlists) && currentUser == None ==>
        r == Fail(NotSignedIn) && users == old(users) && pendingInvites == old(pendingInvites)
      ensures watchlistId in old(watchlists) && currentUser.Some? && (exists u :: u in old(users) && old(users)[u].email == ToLower(email)) ==>
        && pendingInvites == old(pendingInvites)
        && exists u :: u in old(users) && old(users)[u].email == ToLower(email) &&
             var invites := old(users)[u].watchlistInvites;
             if watchlistId in invites then r == Fail(UserAlreadyInvited) && users == old(users)
             else r == Pass && users == old(users)[u := old(users)[u].(watchlistInvites := invites + [watchlistId])]
      ensures watchlistId in old(watchlists) && currentUser.Some? && !(exists u :: u in old(users) && old(users)[u].email == ToLower(email)) ==>
        && users == old(users)
        && (HasPendingInvite(old(pendingInvites), ToLower(email), watchlistId) ==>
              r == Fail(EmailAlreadyInvited) && pendingInvites == old(pendingInvites))
        && (!HasPendingInvite(old(pendingInvites), ToLower(email), watchlistId) ==>
              r == Pass && pendingInvites == old(pendingInvites)[newId := PendingInvite(
                ToLower(email), watchlistId, old(watchlists)[watchlistId].name,
                currentUser.value.uid, InviterName(currentUser.value), now)])
    {
      if watchlistId !in watchlists {
        return Fail(WatchlistNotFound);
      }
      if currentUser == None {
        return Fail(NotSignedIn);
      }
      var lowered := ToLower(email);
      if exists u :: u in users && users[u].email == lowered {
        var u :| u in users && users[u].email == lowered;
        var invites := users[u].watchlistInvites;
        if watchlistId in invites {
          return Fail(UserAlreadyInvited);
        }
        users := users[u := users[u].(watchlistInvites := invites + [watchlistId])];
        r := Pass;
      } else {
        if HasPendingInvite(pendingInvites, lowered, watchlistId) {
          return Fail(EmailAlreadyInvited);
        }
        pendingInvites := pendingInvites[newId := PendingInvite(
          lowered, watchlistId, watchlists[watchlistId].name,
          currentUser.value.uid, InviterName(currentUser.value), now)];
        r := Pass;
      }
    }

    /**
     * `acceptInvitation`: the user is appended to the members (again, if
     * already there), the watchlist becomes the user's active one and is
     * dropped from the user's invites. A missing user document fails after
     * the members were already extended.
     */
    method AcceptInvitation(userId: string, watchlistId: string) returns (r: Outcome<ServiceError>)
      requires Valid()
      modifies this
      ensures Valid()
      ensures items == old(items) && pendingInvites == old(pendingInvites)
      ensures watchlistId !in old(watchlists) ==>
        r == Fail(WatchlistNotFound) && watchlists == old(watchlists) && users == old(users)
      ensures watchlistId in old(watchlists) ==>
        watchlists == old(watchlists)[watchlistId := old(watchlists)[watchlistId].(users := old(watchlists)[watchlistId].users + [userId])]
      ensures watchlistId in old(watchlists) && userId !in old(users) ==>
        r == Fail(UserRecordMissing) && users == old(users)
      ensures watchlistId in old(watchlists) && userId in old(users) ==>
        r == Pass && users == old(users)[userId := old(users)[userId].(
          activeWatchlist := Some(watchlistId),
          watchlistInvites := Without(old(users)[userId].watchlistInvites, watchlistId))]
    {
      if watchlistId !in watchlists {
        return Fail(WatchlistNotFound);
      }
      var w := watchlists[watchlistId];
      watchlists := watchlists[watchlistId := w.(users := w.users + [userId])];
      if userId !in users {
        return Fail(UserRecordMissing);
      }
      var u := users[userId];
      users := users[userId := u.(activeWatchlist := Some(watchlistId), watchlistInvites := Without(u.watchlistInvites, watchlistId))];
      r := Pass;
    }

    /**
     * `addItemToWatchlist`: one new item document, then `lastAddedBy` and the
     * pointer of the item's kind set to its adder. No turn is checked here. A
     * missing watchlist document fails after the item was written.
     */
    method AddItemToWatchlist(watchlistId: string, item: MediaItem, newId: string, now: int)
      returns (r: Outcome<ServiceError>)
      requires Valid() && newId !in items
      modifies this
      ensures Valid()
      ensures users == old(users) && pendingInvites == old(pendingInvites)
      ensures watchlistId == "" ==>
        r == Fail(WatchlistIdRequired) && items == old(items) && watchlists == old(watchlists)
      ensures watchlistId != "" ==> items == old(items)[newId := NewItemRecord(watchlistId, item, now)]
      ensures watchlistId != "" && watchlistId !in old(watchlists) ==>
        r == Fail(WatchlistNotFound) && watchlists == old(watchlists)
      ensures watchlistId != "" && watchlistId in old(watchlists) ==>
        r == Pass && watchlists == old(watchlists)[watchlistId := WithAdder(old(watchlists)[watchlistId], item.kind, item.addedBy)]
    {
      if watchlistId == "" {
        return Fail(WatchlistIdRequired);
      }
      items := items[newId := NewItemRecord(watchlistId, item, now)];
      if watchlistId !in watchlists {
        return Fail(WatchlistNotFound);
      }
      watchlists := watchlists[watchlistId := WithAdder(watchlists[watchlistId], item.kind, item.addedBy)];
      r := Pass;
    }

    /**
     * `removeItemFromWatchlist`: deletes the item; when the item's watchlist
     * holds at most this one document (finished ones counted), all three
     * turn pointers are cleared first.
     */
    method RemoveItemFromWatchlist(itemId: string) returns (r: Outcome<ServiceError>)
      requires Valid()
      modifies this
      ensures Valid()
      ensures users == old(users) && pendingInvites == old(pendingInvites)
      ensures itemId !in old(items) ==>
        r == Fail(ItemNotFound) && items == old(items) && watchlists == old(watchlists)
      ensures itemId in old(items) ==>
        var wid := old(items)[itemId].watchlistId;
        var last := |ItemsOf(old(items), wid)| <= 1;
        && (last && wid !in old(watchlists) ==>
              r == Fail(WatchlistNotFound) && items == old(items) && watchlists == old(watchlists))
        && (!(last && wid !in old(watchlists)) ==>
              && r == Pass
              && items == old(items) - {itemId}
              && watchlists == if last then old(watchlists)[wid := ResetTurns(old(watchlists)[wid])] else old(watchlists))
    {
      if itemId !in items {
        return Fail(ItemNotFound);
      }
      var wid := items[itemId].watchlistId;
      var count := |ItemsOf(items, wid)|;
      if count <= 1 {
        if wid !in watchlists {
          return Fail(WatchlistNotFound);
        }
        watchlists := watchlists[wid := ResetTurns(watchlists[wid])];
      }
      items := items - {itemId};
      r := Pass;
    }

    /**
     * `updateCurrentlyWatching`: sets (or, with `None`, clears) the slot of
     * kind `kind` and that kind's pointer. Setting fails while the slot holds
     * an item with an id; clearing never does.
     */
    method UpdateCurrentlyWatching(watchlistId: string, item: Option<MediaItem>, kind: Kind)
      returns (r: Outcome<ServiceError>)
      requires Valid()
      modifies this
      ensures Valid()
      ensures items == old(items) && users == old(users) && pendingInvites == old(pendingInvites)
      ensures watchlistId !in old(watchlists) ==> r == Fail(WatchlistNotFound) && watchlists == old(watchlists)
      ensures watchlistId in old(watchlists) && item.Some? && Occupied(Slot(old(watchlists)[watchlistId], kind)) ==>
        r == Fail(AlreadyPlaying(kind)) && watchlists == old(watchlists)
      ensures watchlistId in old(watchlists) && !(item.Some? && Occupied(Slot(old(watchlists)[watchlistId], kind))) ==>
        && r == Pass
        && watchlists == old(watchlists)[watchlistId := WithSlot(old(watchlists)[watchlistId], kind, item,
                                                                 if item.Some? then Some(item.value.addedBy) else None)]
    {
      if watchlistId !in watchlists {
        return Fail(WatchlistNotFound);
      }
      var w := watchlists[watchlistId];
      if item.Some? && Occupied(Slot(w, kind)) {
        return Fail(AlreadyPlaying(kind));
      }
      watchlists := watchlists[watchlistId := WithSlot(w, kind, item, if item.Some? then Some(item.value.addedBy) else None)];
      r := Pass;
    }

    /**
     * `markAsFinished`: writes a new finished record of the playing item of
     * kind `kind`, then clears that slot and that kind's pointer.
     */
    method MarkAsFinished(watchlistId: string, kind: Kind, newId: string, now: int)
      returns (r: Outcome<ServiceError>)
      requires Valid() && newId !in items
      modifies this
      ensures Valid()
      ensures users == old(users) && pendingInvites == old(pendingInvites)
      ensures watchlistId !in old(watchlists) ==>
        r == Fail(WatchlistNotFound) && items == old(items) && watchlists == old(watchlists)
      ensures watchlistId in old(watchlists) && Slot(old(watchlists)[watchlistId], kind) == None ==>
        r == Fail(NothingPlaying) && items == old(items) && watchlists == old(watchlists)
      ensures watchlistId in old(watchlists) && Slot(old(watchlists)[watchlistId], kind) != None ==>
        && r == Pass
        && items == old(items)[newId := FinishedRecord(Slot(old(watchlists)[watchlistId], kind).value, watchlistId, now)]
        && watchlists == old(watchlists)[watchlistId := WithSlot(old(watchlists)[watchlistId], kind, None, None)]
    {
      if watchlistId !in watchlists {
        return Fail(WatchlistNotFound);
      }
      var current := Slot(watchlists[watchlistId], kind);
      if current == None {
        return Fail(NothingPlaying);
      }
      items := items[newId := FinishedRecord(current.value, watchlistId, now)];
      r := UpdateCurrentlyWatching(watchlistId, None, kind);
    }
  }

  /** The item a removal looks at is itself among its watchlist's documents, so "at most one" means "only this one". */
  lemma LastItemMeansOnlyItem(items: map<string, WatchlistItem>, itemId: string)
    requires itemId in items
    ensures var wid := items[itemId].watchlistId;
      itemId in ItemsOf(items, wid) && (|ItemsOf(items, wid)| <= 1 <==> ItemsOf(items, wid) == {itemId})
  {
    var s := ItemsOf(items, items[itemId].watchlistId);
    assert itemId in s;
    assert |s - {itemId}| == |s| - 1;
    if |s| <= 1 {
      assert s - {itemId} == {};
    }
  }

  // ---------------------------------------------------------------------------
  // Reading items back (`subscribeToWatchlistItems`).

  /** What reading a stored document can raise. */
  datatype ReadError = ToMillisNotAFunction

  /** The serialised item with the given `addedAt`; optional fields copied only when present. */
  function ReadBack(docId: string, data: WatchlistItem, addedAt: int): SerializedItem {
    SerializedItem(docId, data.watchlistId, data.title, data.posterPath, data.overview, data.kind,
                   data.addedBy, addedAt, data.rating, data.comment, data.finishedAt)
  }

  /**
   * The mapping as written: `addedAt` is read with `toMillis()`, falling
   * back to the clock when it is missing or falsy. A stored plain number
   * other than 0 has no `toMillis`, and the mapping throws.
   */
  function SerializeAsWritten(docId: string, data: WatchlistItem, now: int): (r: Result<SerializedItem, ReadError>)
    ensures r.Failure? <==> data.addedAt.Number? && data.addedAt.n != 0
    ensures r.Success? ==>
      && r.value.id == docId && r.value.watchlistId == data.watchlistId && r.value.finishedAt == data.finishedAt
      && (data.addedAt.Stamp? ==> r.value.addedAt == data.addedAt.millis)
      && (data.addedAt == Number(0) ==> r.value.addedAt == now)
  {
    match data.addedAt
    case Stamp(ms) => Success(ReadBack(docId, data, ms))
    case Number(n) => if n == 0 then Success(ReadBack(docId, data, now)) else Failure(ToMillisNotAFunction)
  }

  /** The mapping as evidently intended: a numeric `addedAt` is already milliseconds. */
  function SerializeItem(docId: string, data: WatchlistItem, now: int): (r: SerializedItem)
    ensures SerializeAsWritten(docId, data, now).Success? ==> SerializeAsWritten(docId, data, now).value == r
    ensures r.id == docId && r.watchlistId == data.watchlistId && r.finishedAt == data.finishedAt
  {
    match data.addedAt
    case Stamp(ms) => ReadBack(docId, data, ms)
    case Number(n) => ReadBack(docId, data, if n == 0 then now else n)
  }

  /** Adding an item and reading it back gives its fields, the watchlist id and the server time it was written at. */
  lemma NewItemReadsBack(docId: string, watchlistId: string, item: MediaItem, writtenAt: int, now: int)
    ensures SerializeAsWritten(docId, NewItemRecord(watchlistId, item, writtenAt), now)
         == Success(SerializedItem(docId, watchlistId, item.title, item.posterPath, item.overview, item.kind,
                                   item.addedBy, writtenAt, item.rating, item.comment, item.finishedAt))
  {
  }

  /** As written, every finished record whose playing item had a non-zero `addedAt` breaks the read. */
  lemma FinishedRecordBreaksRead(docId: string, current: MediaItem, watchlistId: string, finishedAt: int, now: int)
    requires current.addedAt != 0
    ensures SerializeAsWritten(docId, FinishedRecord(current, watchlistId, finishedAt), now) == Failure(ToMillisNotAFunction)
  {
  }

  /** A concrete instance: a movie promoted at time 1700000000000 and finished later cannot be read back. */
  lemma FinishedMovieExample()
    ensures SerializeAsWritten("f1", FinishedRecord(
              MediaItem("m1", "Heat", "/p.jpg", "", Movie, "alice", 1700000000000, None, None, None),
              "w1", 1700000500000), 1700000600000).Failure?
  {
  }

  /**
   * With the corrected mapping a finished record reads back as the playing
   * item itself (under the record's document id), stamped with its finish time.
   */
  lemma FinishedRecordReadsBack(docId: string, current: MediaItem, watchlistId: string, finishedAt: int, now: int)
    requires current.addedAt != 0
    ensures var r := SerializeItem(docId, FinishedRecord(current, watchlistId, finishedAt), now);
      && r.watchlistId == watchlistId
      && AsMediaItem(r) == current.(id := docId, finishedAt := Some(finishedAt))
  {
  }
}
