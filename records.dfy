/**
 * The record shapes shared by the watchlist service, the client store and the
 * media components: the queued media item, the four stored collections'
 * documents, and the client's cached copy of the active watchlist.
 */
module Records {

  datatype Option<T> = None | Some(value: T)

  /** A value or the reason it could not be produced. */
  datatype Result<T, E> = Success(value: T) | Failure(error: E)

  /** Success without a value, or the reason for failure. */
  datatype Outcome<E> = Pass | Fail(error: E)

  /** The media kind: `'movie' | 'tv'`. */
  datatype Kind = Movie | Tv

  /**
   * A queued or playing item as the client handles it (`MediaItem`).
   * Timestamps are milliseconds; `rating` is kept as a whole number because
   * it is only ever copied.
   */
  datatype MediaItem = MediaItem(
    id: string,
    title: string,
    posterPath: string,
    overview: string,
    kind: Kind,
    addedBy: string,
    addedAt: int,
    rating: Option<int>,
    comment: Option<string>,
    finishedAt: Option<int>)

  /** An item read back from the items collection (`SerializedWatchlistItem`). */
  datatype SerializedItem = SerializedItem(
    id: string,
    watchlistId: string,
    title: string,
    posterPath: string,
    overview: string,
    kind: Kind,
    addedBy: string,
    addedAt: int,
    rating: Option<int>,
    comment: Option<string>,
    finishedAt: Option<int>)

  /**
   * A time value as it sits in a stored document: either a server timestamp
   * (which has `toMillis`) or a plain number written by the client.
   */
  datatype StoredTime = Stamp(millis: int) | Number(n: int)

  /** A document of the `watchlists` collection; its id is the map key. */
  datatype Watchlist = Watchlist(
    name: string,
    users: seq<string>,
    currentTvShow: Option<MediaItem>,
    currentMovie: Option<MediaItem>,
    lastTvShowAddedBy: Option<string>,
    lastMovieAddedBy: Option<string>,
    lastAddedBy: Option<string>,
    createdAt: int)

  /**
   * A document of the `watchlistItems` collection. `mediaId` and `status` are
   * only present on the records that finishing an item writes, which spread
   * the playing item (and its `id` field) into the new document.
   */
  datatype WatchlistItem = WatchlistItem(
    watchlistId: string,
    title: string,
    posterPath: string,
    overview: string,
    kind: Kind,
    addedBy: string,
    addedAt: StoredTime,
    rating: Option<int>,
    comment: Option<string>,
    finishedAt: Option<int>,
    mediaId: Option<string>,
    status: Option<string>)

  /** A document of the `users` collection; its id is the map key. */
  datatype UserRecord = UserRecord(
    email: string,
    displayName: string,
    activeWatchlist: Option<string>,
    watchlistInvites: seq<string>,
    isWatchlistCreator: bool)

  /** A document of the `pendingInvites` collection. */
  datatype PendingInvite = PendingInvite(
    email: string,
    watchlistId: string,
    watchlistName: string,
    invitedBy: string,
    invitedByName: string,
    createdAt: int)

  /** The identity provider's signed-in user (`auth.currentUser`). */
  datatype AuthUser = AuthUser(uid: string, displayName: Option<string>)

  /** The signed-in user as the client store keeps it. */
  datatype AppUser = AppUser(id: string, email: string, displayName: string)

  /** The client's cached copy of the active watchlist, with its id. */
  datatype ActiveWatchlist = ActiveWatchlist(id: string, doc: Watchlist)

  /** The client holds a watchlist with a non-empty id (`activeWatchlist?.id` is truthy). */
  predicate HasActiveId(active: Option<ActiveWatchlist>) {
    active.Some? && active.value.id != ""
  }

  /** The now-playing slot for a kind. */
  function Slot(w: Watchlist, k: Kind): Option<MediaItem> {
    match k
    case Movie => w.currentMovie
    case Tv => w.currentTvShow
  }

  /** The per-kind turn pointer: who last added (or promoted) an item of kind `k`. */
  function KindPointer(w: Watchlist, k: Kind): Option<string> {
    match k
    case Movie => w.lastMovieAddedBy
    case Tv => w.lastTvShowAddedBy
  }

  function Other(k: Kind): Kind {
    match k
    case Movie => Tv
    case Tv => Movie
  }

  /** `w` with the slot and the pointer of kind `k` replaced; the other kind and `lastAddedBy` untouched. */
  function WithSlot(w: Watchlist, k: Kind, item: Option<MediaItem>, pointer: Option<string>): (r: Watchlist)
    ensures Slot(r, k) == item && KindPointer(r, k) == pointer
    ensures Slot(r, Other(k)) == Slot(w, Other(k)) && KindPointer(r, Other(k)) == KindPointer(w, Other(k))
    ensures r.lastAddedBy == w.lastAddedBy && r.users == w.users && r.name == w.name && r.createdAt == w.createdAt
  {
    match k
    case Movie => w.(currentMovie := item, lastMovieAddedBy := pointer)
    case Tv => w.(currentTvShow := item, lastTvShowAddedBy := pointer)
  }

  /** `w` with the pointer of kind `k` and `lastAddedBy` set to `who`. */
  function WithAdder(w: Watchlist, k: Kind, who: string): (r: Watchlist)
    ensures r.lastAddedBy == Some(who) && KindPointer(r, k) == Some(who)
    ensures KindPointer(r, Other(k)) == KindPointer(w, Other(k))
    ensures Slot(r, Movie) == Slot(w, Movie) && Slot(r, Tv) == Slot(w, Tv)
    ensures r.users == w.users && r.name == w.name && r.createdAt == w.createdAt
  {
    match k
    case Movie => w.(lastAddedBy := Some(who), lastMovieAddedBy := Some(who))
    case Tv => w.(lastAddedBy := Some(who), lastTvShowAddedBy := Some(who))
  }

  /** `w` with all three turn pointers cleared. */
  function ResetTurns(w: Watchlist): Watchlist {
    w.(lastAddedBy := None, lastMovieAddedBy := None, lastTvShowAddedBy := None)
  }

  /** A slot holds an item with an id (`currentlyPlaying && currentlyPlaying.id`). */
  predicate Occupied(slot: Option<MediaItem>) {
    slot.Some? && slot.value.id != ""
  }

  /** A queued item handed on as a `MediaItem` (its `watchlistId` field is never read back from a slot). */
  function AsMediaItem(s: SerializedItem): MediaItem {
    MediaItem(s.id, s.title, s.posterPath, s.overview, s.kind, s.addedBy, s.addedAt, s.rating, s.comment, s.finishedAt)
  }
}
