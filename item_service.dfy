/**
 * The item catalog behind the database: items keyed by their identity id,
 * the comment table, owner-only update and delete, item views with the last
 * and next booking, text search and the comment gate.
 */
module ItemService {
  import opened Common
  import opened Text
  import opened Ordering
  import opened Users
  import opened Items
  import opened Bookings
  import opened CommentMapper

  /** An item as shown to a user: its last and next booking, and its comments. */
  datatype ItemView = ItemView(item: Item, lastBooking: Option<Booking>, nextBooking: Option<Booking>, comments: seq<CommentDto>)

  /** `commentRepository.findAllByItemId`, mapped to dtos. */
  function CommentsOf(comments: seq<Comment>, itemId: Id): (r: seq<CommentDto>)
    ensures forall d :: d in r ==> d.itemId == Some(itemId)
    ensures forall c :: c in comments && c.itemId == itemId ==> ToCommentDto(c) in r
    ensures forall d :: d in r ==> exists c :: c in comments && c.itemId == itemId && d == ToCommentDto(c)
  {
    var rows := Filter(comments, (c: Comment) => c.itemId == itemId);
    var r := seq(|rows|, i requires 0 <= i < |rows| => ToCommentDto(rows[i]));
    assert forall c :: c in comments && c.itemId == itemId ==> ToCommentDto(c) in r by {
      forall c | c in comments && c.itemId == itemId ensures ToCommentDto(c) in r {
        FilterSelects(comments, (c: Comment) => c.itemId == itemId, c);
        var j :| 0 <= j < |rows| && rows[j] == c;
        assert r[j] == ToCommentDto(c);
      }
    }
    assert forall i :: 0 <= i < |r| ==> rows[i] in comments && rows[i].itemId == itemId && r[i] == ToCommentDto(rows[i]);
    r
  }

  /** The view with its item's last and next booking attached. */
  function WithBookings(item: Item, bookings: seq<Booking>, comments: seq<Comment>, now: Timestamp): (r: ItemView)
    ensures r.item == item && r.comments == CommentsOf(comments, item.id)
    ensures r.lastBooking == LastBooking(bookings, item.id, now) && r.nextBooking == NextBooking(bookings, item.id, now)
  {
    ItemView(item, LastBooking(bookings, item.id, now), NextBooking(bookings, item.id, now), CommentsOf(comments, item.id))
  }

  /**
   * `addComment`: the author must exist (`NotFound`, checked first); the author
   * must have a booking of the item that ended before now, of any status
   * (`Unavailable`). The comment is stamped `now` and saved under `newId`.
   */
  function PlanComment(users: map<Id, User>, bookings: seq<Booking>, dto: CommentDto, itemId: Id, userId: Id, now: Timestamp, newId: Id): (r: Result<Comment>)
    ensures userId !in users ==> r == Err(NotFound)
    ensures userId in users ==> (r == Err(Unavailable) <==> forall b :: b in bookings ==> !(b.booker.id == userId && b.item.id == itemId && b.end < now))
    ensures r.Ok? <==> userId in users && exists b :: b in bookings && b.booker.id == userId && b.item.id == itemId && b.end < now
    ensures r.Ok? ==> r.value == Comment(Some(newId), dto.text, users[userId], itemId, Some(now))
  {
    if userId !in users then Err(NotFound)
    else
      var comment := ToComment(dto, users[userId], itemId).(created := Some(now));
      if FinishedBooking(bookings, userId, itemId, now).None? then Err(Unavailable)
      else Ok(comment.(id := Some(newId)))
  }

  /** The `peek` steps of a listing: each row with its bookings and comments attached. */
  function ViewsOf(rows: seq<Item>, bookings: seq<Booking>, comments: seq<Comment>, now: Timestamp): (r: seq<ItemView>)
    ensures |r| == |rows|
    ensures forall i :: 0 <= i < |r| ==> r[i] == WithBookings(rows[i], bookings, comments, now)
  {
    seq(|rows|, i requires 0 <= i < |rows| => WithBookings(rows[i], bookings, comments, now))
  }

  lemma ViewsOfMembers(rows: seq<Item>, bookings: seq<Booking>, comments: seq<Comment>, now: Timestamp)
    ensures forall x :: x in rows ==> WithBookings(x, bookings, comments, now) in ViewsOf(rows, bookings, comments, now)
  {
    forall x | x in rows ensures WithBookings(x, bookings, comments, now) in ViewsOf(rows, bookings, comments, now) {
      var i :| 0 <= i < |rows| && rows[i] == x;
      assert ViewsOf(rows, bookings, comments, now)[i] == WithBookings(x, bookings, comments, now);
    }
  }

  class ItemCatalog {
    var items: map<Id, Item>
    var nextId: Id
    var comments: seq<Comment>

    /** Items sit under their identity ids; comment row `i` has id `i + 1`. */
    ghost predicate Valid()
      reads this
    {
      && nextId >= 1
      && KeyedById(items, nextId)
      && forall i :: 0 <= i < |comments| ==> comments[i].id == Some(i + 1)
    }

    constructor ()
      ensures Valid()
      ensures items == map[] && nextId == 1 && comments == []
    {
      items := map[];
      nextId := 1;
      comments := [];
    }

    /** Fails `NotFound` for an unknown user; otherwise saves the item with the user as owner. */
    method AddItem(users: map<Id, User>, userId: Id, item: Item) returns (r: Result<Item>)
      requires Valid()
      modifies this
      ensures Valid()
      ensures comments == old(comments)
      ensures r.Err? <==> userId !in users
      ensures r.Err? ==> r.error == NotFound && items == old(items) && nextId == old(nextId)
      ensures r.Ok? ==> r.value == item.(id := old(nextId), owner := userId)
      ensures r.Ok? ==> items == old(items)[old(nextId) := r.value] && nextId == old(nextId) + 1
    {
      if userId !in users {
        return Err(NotFound);
      }
      var stored := item.(id := nextId, owner := userId);
      items := items[nextId := stored];
      nextId := nextId + 1;
      r := Ok(stored);
    }

    /** Owner-only patch of the stored item; on failure nothing changes. */
    method UpdateItem(itemId: Id, userId: Id, patch: ItemPatch) returns (r: Result<Item>)
      requires Valid()
      modifies this
      ensures Valid()
      ensures nextId == old(nextId) && comments == old(comments)
      ensures CheckItemOwner(old(items), itemId, userId).Err? ==>
        r == Err(CheckItemOwner(old(items), itemId, userId).error) && items == old(items)
      ensures CheckItemOwner(old(items), itemId, userId).Ok? ==>
        r == Ok(PatchItem(old(items)[itemId], patch)) && items == old(items)[itemId := r.value]
    {
      var checked := CheckItemOwner(items, itemId, userId);
      if checked.Err? {
        return Err(checked.error);
      }
      var updated := PatchItem(checked.value, patch);
      items := items[itemId := updated];
      r := Ok(updated);
    }

    /** Owner-only removal of that item; on failure nothing changes. */
    method DeleteItem(itemId: Id, userId: Id) returns (r: Outcome)
      requires Valid()
      modifies this
      ensures Valid()
      ensures nextId == old(nextId) && comments == old(comments)
      ensures CheckItemOwner(old(items), itemId, userId).Err? ==>
        r == Fail(CheckItemOwner(old(items), itemId, userId).error) && items == old(items)
      ensures CheckItemOwner(old(items), itemId, userId).Ok? ==>
        r == Pass && items == old(items) - {itemId}
    {
      var checked := CheckItemOwner(items, itemId, userId);
      if checked.Err? {
        return Fail(checked.error);
      }
      items := items - {itemId};
      r := Pass;
    }

    /** `checkItemExistence`: the stored item, or `NotFound`. */
    function GetItemById(itemId: Id): (r: Result<Item>)
      reads this
      ensures r.Ok? <==> itemId in items
      ensures r.Ok? ==> r.value == items[itemId]
      ensures r.Err? ==> r.error == NotFound
    {
      if itemId in items then Ok(items[itemId]) else Err(NotFound)
    }

    /**
     * `getItemDtoById`: the item with its comments; only its owner also sees
     * its last and next booking.
     */
    function GetItemDtoById(bookings: seq<Booking>, itemId: Id, userId: Id, now: Timestamp): (r: Result<ItemView>)
      reads this
      requires Valid()
      ensures r.Err? <==> itemId !in items
      ensures r.Err? ==> r.error == NotFound
      ensures r.Ok? ==> r.value.item == items[itemId] && r.value.comments == CommentsOf(comments, itemId)
      ensures r.Ok? && items[itemId].owner == userId ==>
        r.value.lastBooking == LastBooking(bookings, itemId, now) && r.value.nextBooking == NextBooking(bookings, itemId, now)
      ensures r.Ok? && items[itemId].owner != userId ==> r.value.lastBooking.None? && r.value.nextBooking.None?
    {
      if itemId !in items then Err(NotFound)
      else
        var item := items[itemId];
        if item.owner == userId then Ok(WithBookings(item, bookings, comments, now))
        else Ok(ItemView(item, None, None, CommentsOf(comments, itemId)))
    }

    /**
     * `getAllItemsByUserId`: fails `NotFound` for an unknown user; otherwise
     * every item the user owns, each once, by ascending id, with its last and
     * next booking and its comments.
     */
    function GetAllItemsByUserId(users: map<Id, User>, bookings: seq<Booking>, userId: Id, now: Timestamp): (r: Result<seq<ItemView>>)
      reads this
      requires Valid()
      ensures r.Err? <==> userId !in users
      ensures r.Err? ==> r.error == NotFound
      ensures r.Ok? ==> forall k :: k in items && items[k].owner == userId ==>
        WithBookings(items[k], bookings, comments, now) in r.value
      ensures r.Ok? ==> forall i :: 0 <= i < |r.value| ==>
        && r.value[i].item.owner == userId
        && r.value[i].item.id in items && items[r.value[i].item.id] == r.value[i].item
        && r.value[i] == WithBookings(r.value[i].item, bookings, comments, now)
      ensures r.Ok? ==> forall i, j :: 0 <= i < j < |r.value| ==> r.value[i].item.id < r.value[j].item.id
    {
      if userId !in users then Err(NotFound)
      else
        var owned := Filter(Rows(items, nextId), (i: Item) => i.owner == userId);
        FilterRows(items, nextId, (i: Item) => i.owner == userId);
        var views := ViewsOf(owned, bookings, comments, now);
        ViewsOfMembers(owned, bookings, comments, now);
        Ok(views)
    }

    /**
     * `getItemsByText`: empty for blank text, without a query; otherwise every
     * stored available item whose name or description contains the text,
     * ignoring case, each once; the query has no `ORDER BY`.
     */
    function GetItemsByText(text: string): (r: seq<Item>)
      reads this
      requires Valid()
      ensures IsBlank(text) ==> r == []
      ensures !IsBlank(text) ==> forall k :: k in items && MatchesText(items[k], text) ==> items[k] in r
      ensures forall i :: 0 <= i < |r| ==> MatchesText(r[i], text) && r[i].id in items && items[r[i].id] == r[i]
      ensures forall i, j :: 0 <= i < j < |r| ==> r[i].id != r[j].id
    {
      if IsBlank(text) then []
      else
        FilterRows(items, nextId, (i: Item) => MatchesText(i, text));
        Filter(Rows(items, nextId), (i: Item) => MatchesText(i, text))
    }

    /** `getAllItemsByRequestId`: the stored items offered for that request, each once; the query has no `ORDER BY`. */
    function GetAllItemsByRequestId(requestId: Option<Id>): (r: seq<Item>)
      reads this
      requires Valid()
      ensures forall k :: k in items && items[k].requestId == requestId ==> items[k] in r
      ensures forall i :: 0 <= i < |r| ==> r[i].requestId == requestId && r[i].id in items && items[r[i].id] == r[i]
      ensures forall i, j :: 0 <= i < j < |r| ==> r[i].id != r[j].id
    {
      FilterRows(items, nextId, (i: Item) => i.requestId == requestId);
      Filter(Rows(items, nextId), (i: Item) => i.requestId == requestId)
    }

    /** Saves the planned comment under the next identity id and returns it as a dto. */
    method AddComment(users: map<Id, User>, bookings: seq<Booking>, dto: CommentDto, itemId: Id, userId: Id, now: Timestamp)
      returns (r: Result<CommentDto>)
      requires Valid()
      modifies this
      ensures Valid()
      ensures items == old(items) && nextId == old(nextId)
      ensures var plan := PlanComment(users, bookings, dto, itemId, userId, now, |old(comments)| + 1);
        && (plan.Err? ==> r == Err(plan.error) && comments == old(comments))
        && (plan.Ok? ==> r == Ok(ToCommentDto(plan.value)) && comments == old(comments) + [plan.value])
    {
      var plan := PlanComment(users, bookings, dto, itemId, userId, now, |comments| + 1);
      if plan.Err? {
        return Err(plan.error);
      }
      comments := comments + [plan.value];
      r := Ok(ToCommentDto(plan.value));
    }
  }
}
