/**
 * The client-side single-queue reducer: one "currently watching" item, a queue
 * whose appends alternate between users, and a list of finished items.
 * `Slice` holds the reducer state and changes it in place, one method per
 * reducer; each method is specified by the matching `After…` function on the
 * state's value, and the lemmas below state what those functions promise.
 */
module MediaSlice {
  import opened Records

  datatype SliceState = SliceState(
    currentlyWatching: Option<MediaItem>,
    watchlist: seq<MediaItem>,
    finishedList: seq<MediaItem>,
    lastAddedBy: Option<string>)

  const Initial := SliceState(None, [], [], None)

  /** A partial update of an item (`Partial<MediaItem>`): `None` leaves a field as it is. */
  datatype MediaPatch = MediaPatch(
    id: Option<string>,
    title: Option<string>,
    posterPath: Option<string>,
    overview: Option<string>,
    kind: Option<Kind>,
    addedBy: Option<string>,
    addedAt: Option<int>,
    rating: Option<Option<int>>,
    comment: Option<Option<string>>,
    finishedAt: Option<Option<int>>)

  const NoChange := MediaPatch(None, None, None, None, None, None, None, None, None, None)

  function Pick<T>(update: Option<T>, current: T): T {
    if update.Some? then update.value else current
  }

  /** `Object.assign(item, updates)`. */
  function Apply(item: MediaItem, p: MediaPatch): MediaItem {
    MediaItem(
      Pick(p.id, item.id), Pick(p.title, item.title), Pick(p.posterPath, item.posterPath),
      Pick(p.overview, item.overview), Pick(p.kind, item.kind), Pick(p.addedBy, item.addedBy),
      Pick(p.addedAt, item.addedAt), Pick(p.rating, item.rating), Pick(p.comment, item.comment),
      Pick(p.finishedAt, item.finishedAt))
  }

  /** `findIndex(item => item.id === id)`: the first position holding `id`, or -1. */
  function IndexOf(s: seq<MediaItem>, id: string): (r: int)
    ensures -1 <= r < |s|
    ensures r >= 0 ==> s[r].id == id && forall j :: 0 <= j < r ==> s[j].id != id
    ensures r == -1 <==> forall j :: 0 <= j < |s| ==> s[j].id != id
  {
    if s == [] then -1
    else if s[0].id == id then 0
    else
      var k := IndexOf(s[1..], id);
      if k == -1 then -1 else k + 1
  }

  predicate HasId(s: seq<MediaItem>, id: string) {
    exists j :: 0 <= j < |s| && s[j].id == id
  }

  /** The append gate: the first add, or an add by someone other than the last adder. */
  predicate MayAppend(lastAddedBy: Option<string>, addedBy: string) {
    lastAddedBy == None || lastAddedBy.value != addedBy
  }

  function AfterSetCurrent(s: SliceState, item: Option<MediaItem>): SliceState {
    s.(currentlyWatching := item)
  }

  function AfterAdd(s: SliceState, item: MediaItem, now: int): SliceState {
    if MayAppend(s.lastAddedBy, item.addedBy) then
      s.(watchlist := s.watchlist + [item.(addedAt := now)], lastAddedBy := Some(item.addedBy))
    else s
  }

  function AfterRemove(s: SliceState, id: string): SliceState {
    var i := IndexOf(s.watchlist, id);
    if i == -1 then s
    else
      s.(lastAddedBy := if |s.watchlist| == 1 then None else s.lastAddedBy,
         watchlist := s.watchlist[..i] + s.watchlist[i + 1..])
  }

  function AfterFinish(s: SliceState, now: int): SliceState {
    match s.currentlyWatching
    case None => s
    case Some(cur) =>
      var s' := s.(finishedList := s.finishedList + [cur.(finishedAt := Some(now))]);
      if |s.watchlist| > 0 then s'.(currentlyWatching := Some(s.watchlist[0]), watchlist := s.watchlist[1..])
      else s'.(currentlyWatching := None)
  }

  function AfterMoveBack(s: SliceState): SliceState {
    match s.currentlyWatching
    case None => s
    case Some(cur) => s.(watchlist := [cur] + s.watchlist, currentlyWatching := None)
  }

  function AfterUpdate(s: SliceState, id: string, p: MediaPatch): SliceState {
    var i := IndexOf(s.watchlist, id);
    if i == -1 then s else s.(watchlist := s.watchlist[i := Apply(s.watchlist[i], p)])
  }

  /** The reducer state, changed in place by one method per reducer. */
  class Slice {
    var currentlyWatching: Option<MediaItem>
    var watchlist: seq<MediaItem>
    var finishedList: seq<MediaItem>
    var lastAddedBy: Option<string>

    function State(): SliceState
      reads this
    {
      SliceState(currentlyWatching, watchlist, finishedList, lastAddedBy)
    }

    constructor ()
      ensures State() == Initial
    {
      currentlyWatching := None;
      watchlist := [];
      finishedList := [];
      lastAddedBy := None;
    }

    method SetCurrentlyWatching(item: Option<MediaItem>)
      modifies this
      ensures State() == AfterSetCurrent(old(State()), item)
    {
      currentlyWatching := item;
    }

    /** Appends `item`, stamped with the clock reading `now`, when the gate admits its adder. */
    method AddToWatchlist(item: MediaItem, now: int)
      modifies this
      ensures State() == AfterAdd(old(State()), item, now)
    {
      if lastAddedBy == None || lastAddedBy.value != item.addedBy {
        watchlist := watchlist + [item.(addedAt := now)];
        lastAddedBy := Some(item.addedBy);
      }
    }

    method RemoveFromWatchlist(id: string)
      modifies this
      ensures State() == AfterRemove(old(State()), id)
    {
      var index := IndexOf(watchlist, id);
      if index != -1 {
        if |watchlist| == 1 {
          lastAddedBy := None;
        }
        watchlist := watchlist[..index] + watchlist[index + 1..];
      }
    }

    method MarkAsFinished(now: int)
      modifies this
      ensures State() == AfterFinish(old(State()), now)
    {
      if currentlyWatching.Some? {
        finishedList := finishedList + [currentlyWatching.value.(finishedAt := Some(now))];
        if |watchlist| > 0 {
          currentlyWatching := Some(watchlist[0]);
          watchlist := watchlist[1..];
        } else {
          currentlyWatching := None;
        }
      }
    }

    method MoveBackToWatchlist()
      modifies this
      ensures State() == AfterMoveBack(old(State()))
    {
      if currentlyWatching.Some? {
        watchlist := [currentlyWatching.value] + watchlist;
        currentlyWatching := None;
      }
    }

    method UpdateMediaItem(id: string, updates: MediaPatch)
      modifies this
      ensures State() == AfterUpdate(old(State()), id, updates)
    {
      var index := IndexOf(watchlist, id);
      if index != -1 {
        watchlist := watchlist[index := Apply(watchlist[index], updates)];
      }
    }
  }

  // ---------------------------------------------------------------------------
  // What the reducers promise.

  /** An add appends exactly the stamped item and records its adder iff the gate admits it; otherwise nothing changes. */
  lemma AddAdmitsIffOtherAdder(s: SliceState, item: MediaItem, now: int)
    ensures var r := AfterAdd(s, item, now);
      && (s.lastAddedBy != Some(item.addedBy) <==> |r.watchlist| == |s.watchlist| + 1)
      && (s.lastAddedBy != Some(item.addedBy) ==>
            r.watchlist == s.watchlist + [item.(addedAt := now)] && r.lastAddedBy == Some(item.addedBy)
            && r.currentlyWatching == s.currentlyWatching && r.finishedList == s.finishedList)
      && (s.lastAddedBy == Some(item.addedBy) ==> r == s)
  {
  }

  /** Right after a user's add is admitted, a second add by the same user is refused. */
  lemma SameAdderNeverTwiceInARow(s: SliceState, first: MediaItem, second: MediaItem, t1: int, t2: int)
    requires MayAppend(s.lastAddedBy, first.addedBy)
    requires second.addedBy == first.addedBy
    ensures AfterAdd(AfterAdd(s, first, t1), second, t2) == AfterAdd(s, first, t1)
  {
  }

  /** No two neighbouring queue entries share an adder. */
  predicate Alternating(q: seq<MediaItem>) {
    forall i :: 0 < i < |q| ==> q[i - 1].addedBy != q[i].addedBy
  }

  /** The queue alternates and `lastAddedBy` names the adder of its last entry. */
  predicate TurnsTracked(s: SliceState) {
    Alternating(s.watchlist) && (s.watchlist != [] ==> s.lastAddedBy == Some(s.watchlist[|s.watchlist| - 1].addedBy))
  }

  /** A run of adds, all at clock reading `now` (the clock does not affect admission). */
  function AddAll(s: SliceState, items: seq<MediaItem>, now: int): SliceState
    decreases |items|
  {
    if items == [] then s else AddAll(AfterAdd(s, items[0], now), items[1..], now)
  }

  lemma AddKeepsTurnsTracked(s: SliceState, item: MediaItem, now: int)
    requires TurnsTracked(s)
    ensures TurnsTracked(AfterAdd(s, item, now))
  {
  }

  /** Starting from a tracked state (the initial one, say), any run of adds leaves a queue whose adders alternate. */
  lemma {:induction false} AddsAlternate(s: SliceState, items: seq<MediaItem>, now: int)
    requires TurnsTracked(s)
    ensures TurnsTracked(AddAll(s, items, now))
    ensures Alternating(AddAll(s, items, now).watchlist)
    decreases |items|
  {
    if items != [] {
      AddKeepsTurnsTracked(s, items[0], now);
      AddsAlternate(AfterAdd(s, items[0], now), items[1..], now);
    }
  }

  /** Removing an id that is not queued changes nothing. */
  lemma RemoveAbsentIsNoOp(s: SliceState, id: string)
    requires !HasId(s.watchlist, id)
    ensures AfterRemove(s, id) == s
  {
  }

  /**
   * Removing a queued id deletes exactly its first entry: the queue is one
   * shorter, the entries before it are unchanged, those after it move up by
   * one, and nothing else is lost.
   */
  lemma RemoveDeletesFirstMatch(s: SliceState, id: string)
    requires HasId(s.watchlist, id)
    ensures var r := AfterRemove(s, id); var k := IndexOf(s.watchlist, id);
      && 0 <= k < |s.watchlist| && s.watchlist[k].id == id
      && (forall j :: 0 <= j < k ==> s.watchlist[j].id != id)
      && |r.watchlist| == |s.watchlist| - 1
      && (forall j :: 0 <= j < k ==> r.watchlist[j] == s.watchlist[j])
      && (forall j :: k <= j < |r.watchlist| ==> r.watchlist[j] == s.watchlist[j + 1])
      && multiset(r.watchlist) + multiset{s.watchlist[k]} == multiset(s.watchlist)
      && r.currentlyWatching == s.currentlyWatching && r.finishedList == s.finishedList
  {
    var k := IndexOf(s.watchlist, id);
    var q := s.watchlist;
    assert q == q[..k] + [q[k]] + q[k + 1..];
  }

  /** A removal clears `lastAddedBy` only when it empties a one-item queue; otherwise the pointer is kept. */
  lemma RemoveResetsOnlyLastItem(s: SliceState, id: string)
    ensures var r := AfterRemove(s, id);
      && (HasId(s.watchlist, id) && |s.watchlist| == 1 ==> r.lastAddedBy == None)
      && (!(HasId(s.watchlist, id) && |s.watchlist| == 1) ==> r.lastAddedBy == s.lastAddedBy)
  {
  }

  /**
   * Finishing with nothing playing changes nothing; otherwise the playing item,
   * stamped with `now`, is appended to the finished list, and the queue's head
   * (if any) becomes the playing item and leaves the queue.
   */
  lemma FinishAdvancesQueue(s: SliceState, now: int)
    ensures var r := AfterFinish(s, now);
      && (s.currentlyWatching == None ==> r == s)
      && (s.currentlyWatching != None ==>
            && r.finishedList == s.finishedList + [s.currentlyWatching.value.(finishedAt := Some(now))]
            && |r.finishedList| == |s.finishedList| + 1
            && r.lastAddedBy == s.lastAddedBy
            && (s.watchlist == [] ==> r.currentlyWatching == None && r.watchlist == [])
            && (s.watchlist != [] ==>
                  r.currentlyWatching == Some(s.watchlist[0]) && [s.watchlist[0]] + r.watchlist == s.watchlist))
  {
  }

  /** The playing item, or nothing, as a bag. */
  function PlayingBag(s: SliceState): multiset<MediaItem> {
    if s.currentlyWatching.Some? then multiset{s.currentlyWatching.value} else multiset{}
  }

  /**
   * Moving back puts the playing item at the front of the queue and empties the
   * slot; it is a no-op with nothing playing, and the items in the queue and
   * the slot together are the same before and after.
   */
  lemma MoveBackPreservesItems(s: SliceState)
    ensures var r := AfterMoveBack(s);
      && multiset(r.watchlist) + PlayingBag(r) == multiset(s.watchlist) + PlayingBag(s)
      && r.currentlyWatching == None
      && (s.currentlyWatching == None ==> r == s)
      && (s.currentlyWatching != None ==>
            r.watchlist[0] == s.currentlyWatching.value && r.watchlist[1..] == s.watchlist)
      && r.finishedList == s.finishedList && r.lastAddedBy == s.lastAddedBy
  {
  }

  /**
   * An update rewrites only the first entry with the given id, applying the
   * patch to it; the length and every other entry are unchanged, and an absent
   * id changes nothing.
   */
  lemma UpdateTouchesFirstMatchOnly(s: SliceState, id: string, p: MediaPatch)
    ensures var r := AfterUpdate(s, id, p);
      && |r.watchlist| == |s.watchlist|
      && r.currentlyWatching == s.currentlyWatching && r.finishedList == s.finishedList
      && r.lastAddedBy == s.lastAddedBy
      && (!HasId(s.watchlist, id) ==> r == s)
      && (HasId(s.watchlist, id) ==>
            var k := IndexOf(s.watchlist, id);
            && 0 <= k < |s.watchlist| && s.watchlist[k].id == id
            && (forall j :: 0 <= j < k ==> s.watchlist[j].id != id)
            && r.watchlist[k] == Apply(s.watchlist[k], p)
            && (forall j :: 0 <= j < |s.watchlist| && j != k ==> r.watchlist[j] == s.watchlist[j]))
  {
  }

  /** A patch that names no field leaves the item as it is. */
  lemma EmptyPatchIsIdentity(item: MediaItem)
    ensures Apply(item, NoChange) == item
  {
  }
}
