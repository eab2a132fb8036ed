/**
 * The add-to-queue dialog: its turn gate (`isMyTurn`), the guards of
 * `handleAddToWatchlist`, and the record it hands to the service for a
 * search result. The gate reads the client's cached watchlist and item list.
 */
module AddMediaModal {
  import opened Records
  import opened Text
  import opened WatchlistService
  import MediaList

  /** A search hit: `title` for films, `name` for shows, `poster_path` possibly null. */
  datatype SearchResult = SearchResult(
    id: nat,
    title: Option<string>,
    name: Option<string>,
    posterPath: Option<string>,
    overview: string,
    mediaType: Kind)

  /** JavaScript truthiness of a possibly missing string. */
  predicate Truthy(s: Option<string>) {
    s.Some? && s.value != ""
  }

  /** `media.title || media.name || ''`. */
  function DisplayTitle(m: SearchResult): (r: string)
    ensures Truthy(m.title) ==> r == m.title.value
    ensures !Truthy(m.title) && Truthy(m.name) ==> r == m.name.value
    ensures r == "" <==> !Truthy(m.title) && !Truthy(m.name)
  {
    if Truthy(m.title) then m.title.value else if Truthy(m.name) then m.name.value else ""
  }

  /** `media.poster_path || ''`. */
  function PosterOf(m: SearchResult): (r: string)
    ensures Truthy(m.posterPath) ==> r == m.posterPath.value
    ensures r == "" <==> !Truthy(m.posterPath)
  {
    if Truthy(m.posterPath) then m.posterPath.value else ""
  }

  /**
   * `isMyTurn`: no items listed, no watchlist, no (or an empty) overall
   * `lastAddedBy`, or one that is not the user's id. When no user is signed
   * in, `user?.id` is undefined and differs from any recorded adder.
   */
  predicate IsMyTurn(items: seq<SerializedItem>, active: Option<ActiveWatchlist>, user: Option<AppUser>) {
    |items| == 0 || active == None || !Truthy(active.value.doc.lastAddedBy) ||
    user == None || active.value.doc.lastAddedBy.value != user.value.id
  }

  /** The gate refuses exactly a signed-in user named as the overall last adder while items are listed. */
  lemma NotMyTurnIff(items: seq<SerializedItem>, active: Option<ActiveWatchlist>, user: Option<AppUser>)
    ensures !IsMyTurn(items, active, user) <==>
      |items| > 0 && active.Some? && user.Some? && user.value.id != "" &&
      active.value.doc.lastAddedBy == Some(user.value.id)
  {
  }

  /**
   * The record built for a search hit: the decimal rendering of its numeric
   * id (which reads back as that number), the fallback title and poster, its
   * media type, the user as adder, the clock reading as `addedAt`, and no
   * rating, comment or finish time.
   */
  function RecordFor(media: SearchResult, user: AppUser, now: int): (r: MediaItem)
    ensures r.id != [] && (forall i :: 0 <= i < |r.id| ==> IsDigit(r.id[i]))
    ensures ParseDecimal(r.id) == media.id
    ensures r.title == DisplayTitle(media) && r.posterPath == PosterOf(media)
    ensures r.overview == media.overview && r.kind == media.mediaType
    ensures r.addedBy == user.id && r.addedAt == now
    ensures r.rating == None && r.comment == None && r.finishedAt == None
  {
    DecimalRoundTrip(media.id);
    MediaItem(Decimal(media.id), DisplayTitle(media), PosterOf(media), media.overview, media.mediaType,
              user.id, now, None, None, None)
  }

  /** Search hits with different numeric ids give records with different ids. */
  lemma DistinctHitsDistinctIds(a: SearchResult, b: SearchResult, u: AppUser, v: AppUser, t1: int, t2: int)
    requires a.id != b.id
    ensures RecordFor(a, u, t1).id != RecordFor(b, v, t2).id
  {
  }

  /**
   * Once `u` (with a non-empty id) has added to a watchlist with items listed,
   * the gate refuses `u` and admits every other user, whatever the kind added.
   */
  lemma AddPassesTurn(items: seq<SerializedItem>, active: ActiveWatchlist, kind: Kind, u: AppUser, v: AppUser)
    requires |items| > 0 && u.id != ""
    ensures var after := Some(active.(doc := WithAdder(active.doc, kind, u.id)));
      && !IsMyTurn(items, after, Some(u))
      && (v.id != u.id ==> IsMyTurn(items, after, Some(v)))
  {
  }

  /**
   * The dialog's gate reads the overall `lastAddedBy`, the queue's promote
   * gate the per-kind pointer, so they can disagree: here the user last
   * added a film, a show was last added by someone else, and the dialog
   * refuses the user while the per-kind check for shows admits them.
   */
  lemma GatesDisagree()
    ensures var w := Watchlist("ours", ["a", "b"], None, None, Some("b"), Some("a"), Some("a"), 0);
      var active := ActiveWatchlist("w1", w);
      var user := AppUser("a", "a@example.org", "A");
      var items := [SerializedItem("1", "w1", "x", "", "", Movie, "a", 0, None, None, None),
                    SerializedItem("2", "w1", "y", "", "", Tv, "b", 0, None, None, None)];
      && !IsMyTurn(items, Some(active), Some(user))
      && MediaList.IsUsersTurn(active, items, user, Tv)
  {
  }

  /** What the dialog tells the user. */
  datatype Feedback = SignInRequired | NoActiveWatchlist | NotYourTurn | Added | AddFailed

  /**
   * `handleAddToWatchlist`: refuses (without a service call) when no user is
   * signed in, then when no watchlist id is held, then when the gate says it
   * is not the user's turn; otherwise asks the service to add
   * `RecordFor(media, user, now)`, reporting any failure.
   */
  method HandleAddToWatchlist(store: Store, user: Option<AppUser>, active: Option<ActiveWatchlist>,
                              items: seq<SerializedItem>, media: SearchResult, newId: string, now: int)
    returns (f: Feedback)
    requires store.Valid() && newId !in store.items
    modifies store
    ensures store.Valid()
    ensures store.users == old(store.users) && store.pendingInvites == old(store.pendingInvites)
    ensures f == SignInRequired <==> user == None
    ensures f == NoActiveWatchlist <==> user.Some? && !HasActiveId(active)
    ensures f == NotYourTurn <==> user.Some? && HasActiveId(active) && !IsMyTurn(items, active, user)
    ensures f in {SignInRequired, NoActiveWatchlist, NotYourTurn} ==>
      store.watchlists == old(store.watchlists) && store.items == old(store.items)
    ensures f in {Added, AddFailed} ==>
      store.items == old(store.items)[newId := NewItemRecord(active.value.id, RecordFor(media, user.value, now), now)]
    ensures f == Added <==>
      user.Some? && HasActiveId(active) && IsMyTurn(items, active, user) && active.value.id in old(store.watchlists)
    ensures f == Added ==>
      store.watchlists == old(store.watchlists)[active.value.id :=
        WithAdder(old(store.watchlists)[active.value.id], media.mediaType, user.value.id)]
    ensures f == AddFailed ==> store.watchlists == old(store.watchlists)
  {
    if user == None {
      return SignInRequired;
    }
    if !HasActiveId(active) {
      return NoActiveWatchlist;
    }
    if !IsMyTurn(items, active, user) {
      return NotYourTurn;
    }
    var r := store.AddItemToWatchlist(active.value.id, RecordFor(media, user.value, now), newId, now);
    f := if r.Pass? then Added else AddFailed;
  }
}
