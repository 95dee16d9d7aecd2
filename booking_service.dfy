/**
 * The booking engine: creation guards, the status state machine driven by the
 * owner's approve flag, read visibility, and the state-keyword listings in
 * both the unpaginated and the paginated revision.
 */
module BookingService {
  import opened Common
  import opened Ordering
  import opened Paging
  import opened Users
  import opened Items
  import opened Bookings

  /**
   * `addBooking`, checks in source order: the item must exist (`NotFound`) and
   * be available (`Unavailable`); the booker must not own it (`ForbiddenAccess`);
   * the end must not be strictly before the start (`Validation`); the booker
   * must exist (`NotFound`). The new booking waits for the owner's decision.
   */
  function PlanBooking(items: map<Id, Item>, users: map<Id, User>, dto: BookingDto, userId: Id, newId: Id): (r: Result<Booking>)
    ensures dto.itemId !in items ==> r == Err(NotFound)
    ensures dto.itemId in items && !items[dto.itemId].available ==> r == Err(Unavailable)
    ensures dto.itemId in items && items[dto.itemId].available && items[dto.itemId].owner == userId ==>
      r == Err(ForbiddenAccess)
    ensures dto.itemId in items && items[dto.itemId].available && items[dto.itemId].owner != userId ==>
      (r == Err(Validation) <==> dto.end < dto.start)
    ensures r.Ok? <==>
      dto.itemId in items && items[dto.itemId].available && items[dto.itemId].owner != userId &&
      dto.start <= dto.end && userId in users
    ensures r.Ok? ==> r.value == Booking(newId, dto.start, dto.end, items[dto.itemId], users[userId], Waiting)
  {
    if dto.itemId !in items then Err(NotFound)
    else if !items[dto.itemId].available then Err(Unavailable)
    else if items[dto.itemId].owner == userId then Err(ForbiddenAccess)
    else if dto.end < dto.start then Err(Validation)
    else if userId !in users then Err(NotFound)
    else Ok(Booking(newId, dto.start, dto.end, items[dto.itemId], users[userId], Waiting))
  }

  /**
   * The status change for the owner's decision: approving a waiting booking
   * approves it; approving an approved one is an `IllegalArgument`; a refusal
   * always ends rejected; a rejected booking stays rejected.
   */
  function Transition(status: Status, approve: bool): (r: Result<Status>)
    ensures r.Err? <==> status == Approved && approve
    ensures r.Err? ==> r.error == IllegalArgument
    ensures !approve ==> r == Ok(Rejected)
    ensures r == Ok(Approved) <==> status == Waiting && approve
    ensures status == Rejected ==> r == Ok(Rejected)
  {
    match status
    case Waiting => Ok(if approve then Approved else Rejected)
    case Approved => if approve then Err(IllegalArgument) else Ok(Rejected)
    case Rejected => Ok(Rejected)
  }

  /** An approval that approves cannot be repeated: the second one fails. */
  lemma ApproveTwiceFails(status: Status)
    ensures Replay(status, [true, true]) == if status == Rejected then Ok(Rejected) else Err(IllegalArgument)
  {
    assert [true, true][1..] == [true];
  }

  /** Once rejected, no decision changes the status. */
  lemma {:induction false} RejectedIsFinal(status: Status, decisions: seq<bool>)
    requires status == Rejected
    ensures Replay(status, decisions) == Ok(Rejected)
  {
    if decisions != [] {
      RejectedIsFinal(Transition(status, decisions[0]).value, decisions[1..]);
    }
  }

  /** The status after the owner's decisions in order, or the first error. */
  function Replay(status: Status, decisions: seq<bool>): Result<Status>
    decreases |decisions|
  {
    if decisions == [] then Ok(status)
    else
      match Transition(status, decisions[0])
      case Err(e) => Err(e)
      case Ok(next) => Replay(next, decisions[1..])
  }

  /**
   * `updateBooking`: the acting user must exist, then the booking (`NotFound`
   * for either); only the item's owner may decide (`ForbiddenAccess`, whatever
   * the status); the decision is `Transition`, and only the status changes.
   */
  function DecideUpdate(users: map<Id, User>, bookings: seq<Booking>, bookingId: Id, userId: Id, approve: bool): (r: Result<Booking>)
    ensures userId !in users ==> r == Err(NotFound)
    ensures userId in users && FindBooking(bookings, bookingId).None? ==> r == Err(NotFound)
    ensures (userId in users && FindBooking(bookings, bookingId).Some? &&
             FindBooking(bookings, bookingId).value.item.owner != userId) ==> r == Err(ForbiddenAccess)
    ensures r.Ok? ==>
      var b := FindBooking(bookings, bookingId).value;
      && userId in users && b.item.owner == userId
      && r.value == b.(status := r.value.status)
      && Transition(b.status, approve) == Ok(r.value.status)
    ensures (userId in users && FindBooking(bookings, bookingId).Some? &&
             FindBooking(bookings, bookingId).value.item.owner == userId) ==>
      (r.Err? <==> Transition(FindBooking(bookings, bookingId).value.status, approve).Err?)
  {
    if userId !in users then Err(NotFound)
    else match FindBooking(bookings, bookingId)
      case None => Err(NotFound)
      case Some(b) =>
        if b.item.owner != userId then Err(ForbiddenAccess)
        else match Transition(b.status, approve)
          case Err(e) => Err(e)
          case Ok(s) => Ok(b.(status := s))
  }

  /**
   * `getBookingById`: the acting user must exist, then the booking, then its
   * item, re-fetched from the catalog (`NotFound` for each); the booking is
   * visible exactly to its booker and to the current owner of its item.
   */
  function GetBookingById(users: map<Id, User>, items: map<Id, Item>, bookings: seq<Booking>, bookingId: Id, userId: Id): (r: Result<Booking>)
    ensures r.Ok? <==>
      && userId in users && FindBooking(bookings, bookingId).Some?
      && FindBooking(bookings, bookingId).value.item.id in items
      && (FindBooking(bookings, bookingId).value.booker.id == userId ||
          items[FindBooking(bookings, bookingId).value.item.id].owner == userId)
    ensures r.Ok? ==> r == Ok(FindBooking(bookings, bookingId).value)
    ensures r.Err? ==> r.error == NotFound || r.error == ForbiddenAccess
    ensures userId !in users ==> r == Err(NotFound)
    ensures (userId in users && (FindBooking(bookings, bookingId).None? ||
             FindBooking(bookings, bookingId).value.item.id !in items)) ==> r == Err(NotFound)
    ensures r == Err(ForbiddenAccess) ==>
      && userId in users
      && FindBooking(bookings, bookingId).Some?
      && FindBooking(bookings, bookingId).value.item.id in items
      && FindBooking(bookings, bookingId).value.booker.id != userId
      && items[FindBooking(bookings, bookingId).value.item.id].owner != userId
  {
    if userId !in users then Err(NotFound)
    else match FindBooking(bookings, bookingId)
      case None => Err(NotFound)
      case Some(b) =>
        if b.item.id !in items then Err(NotFound)
        else if b.booker.id == userId || items[b.item.id].owner == userId then Ok(b)
        else Err(ForbiddenAccess)
  }

  /** Which side of the booking a listing is for. */
  datatype Side = BookerSide | OwnerSide

  function Query(side: Side, bookings: seq<Booking>, userId: Id, state: BookingState, now: Timestamp): seq<Booking> {
    match side
    case BookerSide => ByBooker(bookings, userId, state, now)
    case OwnerSide => ByOwner(bookings, userId, state, now)
  }

  /** A stored booking in the state, booked by the user or of an item the user owns. */
  predicate Listed(side: Side, b: Booking, bookings: seq<Booking>, userId: Id, state: BookingState, now: Timestamp) {
    && b in bookings
    && InState(b, state, now)
    && (if side == BookerSide then b.booker.id == userId else b.item.owner == userId)
  }

  /**
   * `getAllBookingsByUserId` / `getAllBookingsByOwnerId`, unpaginated: the user
   * must exist (`NotFound`), then the keyword must name a state
   * (`UnsupportedState`); the result is that state's query.
   */
  function ListBookings(side: Side, users: map<Id, User>, bookings: seq<Booking>, userId: Id, state: string, now: Timestamp): (r: Result<seq<Booking>>)
    ensures userId !in users ==> r == Err(NotFound)
    ensures userId in users && ParseState(state).None? ==> r == Err(UnsupportedState)
    ensures r.Ok? <==> userId in users && ParseState(state).Some?
    ensures r.Ok? ==> forall b :: b in r.value <==> Listed(side, b, bookings, userId, ParseState(state).value, now)
    ensures r.Ok? ==> forall b {:trigger multiset(r.value)[b]} ::
      multiset(r.value)[b] == if Listed(side, b, bookings, userId, ParseState(state).value, now) then multiset(bookings)[b] else 0
    ensures r.Ok? && (side == BookerSide || ParseState(state).value !in {WaitingBookings, RejectedBookings}) ==>
      SortedDesc(r.value, StartOf)
  {
    if userId !in users then Err(NotFound)
    else match ParseState(state)
      case None => Err(UnsupportedState)
      case Some(st) =>
        var rows := Query(side, bookings, userId, st, now);
        assert forall b :: b in rows <==> Listed(side, b, bookings, userId, st, now) by {
          forall b ensures b in rows <==> Listed(side, b, bookings, userId, st, now) {
            if side == BookerSide {
              ByBookerMembers(bookings, userId, st, now, b);
            } else {
              ByOwnerMembers(bookings, userId, st, now, b);
            }
          }
        }
        assert forall b {:trigger multiset(rows)[b]} ::
          multiset(rows)[b] == if Listed(side, b, bookings, userId, st, now) then multiset(bookings)[b] else 0 by {
          forall b ensures multiset(rows)[b] == if Listed(side, b, bookings, userId, st, now) then multiset(bookings)[b] else 0 {
            if b !in bookings {
              assert multiset(bookings)[b] == 0;
            }
          }
        }
        Ok(rows)
  }

  /**
   * The paginated revision: user (`NotFound`), then keyword
   * (`UnsupportedState`), then the page arguments (`IllegalArgument`); the
   * result is the requested page of the query's rows.
   */
  function ListBookingsPaged(side: Side, users: map<Id, User>, bookings: seq<Booking>, userId: Id, state: string, from: int, size: int, now: Timestamp): (r: Result<seq<Booking>>)
    ensures userId !in users ==> r == Err(NotFound)
    ensures userId in users && ParseState(state).None? ==> r == Err(UnsupportedState)
    ensures userId in users && ParseState(state).Some? && (from < 0 || size < 1) ==> r == Err(IllegalArgument)
    ensures r.Ok? <==> userId in users && ParseState(state).Some? && from >= 0 && size >= 1
    ensures r.Ok? ==> |r.value| <= size
  {
    if userId !in users then Err(NotFound)
    else match ParseState(state)
      case None => Err(UnsupportedState)
      case Some(st) =>
        match MakePage(from, size)
        case Err(e) => Err(e)
        case Ok(page) => Ok(Slice(Query(side, bookings, userId, st, now), page))
  }

  /**
   * Pagination changes nothing but the window: the paginated listing fails
   * exactly as the unpaginated one does, or on bad page arguments, and
   * otherwise returns a page of the unpaginated rows.
   */
  lemma PagedIsPageOfUnpaged(side: Side, users: map<Id, User>, bookings: seq<Booking>, userId: Id, state: string, from: int, size: int, now: Timestamp)
    ensures ListBookings(side, users, bookings, userId, state, now).Err? ==>
      ListBookingsPaged(side, users, bookings, userId, state, from, size, now) == ListBookings(side, users, bookings, userId, state, now)
    ensures ListBookings(side, users, bookings, userId, state, now).Ok? ==>
      ListBookingsPaged(side, users, bookings, userId, state, from, size, now) ==
        (match MakePage(from, size)
         case Err(e) => Err(e)
         case Ok(page) => Ok(Slice(ListBookings(side, users, bookings, userId, state, now).value, page)))
  {
  }

  /** The first page of a size larger than the listing is the whole listing. */
  lemma FirstLargePageIsAll(side: Side, users: map<Id, User>, bookings: seq<Booking>, userId: Id, state: string, size: int, now: Timestamp)
    requires ListBookings(side, users, bookings, userId, state, now).Ok?
    requires size >= 1 && size >= |ListBookings(side, users, bookings, userId, state, now).value|
    ensures ListBookingsPaged(side, users, bookings, userId, state, 0, size, now) == ListBookings(side, users, bookings, userId, state, now)
  {
    PagedIsPageOfUnpaged(side, users, bookings, userId, state, 0, size, now);
    FirstPageIsAll(ListBookings(side, users, bookings, userId, state, now).value, size);
  }

  /**
   * The booking table. Each row is the booking entity with its identity id;
   * `save` appends, and the status update is written in place at commit.
   */
  class BookingTable {
    var bookings: seq<Booking>

    ghost predicate Valid()
      reads this
    {
      IsTable(bookings)
    }

    constructor ()
      ensures Valid() && bookings == []
    {
      bookings := [];
    }

    /** Saves the planned booking under the next identity id, or fails and saves nothing. */
    method AddBooking(items: map<Id, Item>, users: map<Id, User>, dto: BookingDto, userId: Id) returns (r: Result<Booking>)
      requires Valid()
      modifies this
      ensures Valid()
      ensures r == PlanBooking(items, users, dto, userId, |old(bookings)| + 1)
      ensures bookings == if r.Ok? then old(bookings) + [r.value] else old(bookings)
    {
      r := PlanBooking(items, users, dto, userId, |bookings| + 1);
      if r.Ok? {
        bookings := bookings + [r.value];
      }
    }

    /** Applies the owner's decision to the stored row; on failure the table is unchanged. */
    method UpdateBooking(users: map<Id, User>, bookingId: Id, userId: Id, approve: bool) returns (r: Result<Booking>)
      requires Valid()
      modifies this
      ensures Valid()
      ensures r == DecideUpdate(users, old(bookings), bookingId, userId, approve)
      ensures r.Ok? ==> 1 <= bookingId <= |old(bookings)| && bookings == old(bookings)[bookingId - 1 := r.value]
      ensures r.Err? ==> bookings == old(bookings)
    {
      r := DecideUpdate(users, bookings, bookingId, userId, approve);
      if r.Ok? {
        FindInTable(bookings, bookingId);
        bookings := bookings[bookingId - 1 := r.value];
      }
    }
  }

  /**
   * The owner approves a waiting booking, approving again fails and leaves it
   * approved, a refusal then rejects it, and a second refusal is accepted with
   * the booking still rejected.
   */
  method ApprovalScenario() returns (first: Result<Booking>, again: Result<Booking>, refused: Result<Booking>, final: Result<Booking>)
    ensures first.Ok? && first.value.status == Approved
    ensures again == Err(IllegalArgument)
    ensures refused.Ok? && refused.value.status == Rejected
    ensures final.Ok? && final.value.status == Rejected && final.value == refused.value
  {
    var owner := User(1, "owner", "owner@mail");
    var booker := User(2, "booker", "booker@mail");
    var users := map[1 := owner, 2 := booker];
    var items := map[1 := Item(1, "drill", "cordless drill", true, 1, None)];
    var table := new BookingTable();
    var added := table.AddBooking(items, users, BookingDto(10, 20, 1), 2);
    FindInTable(table.bookings, 1);
    first := table.UpdateBooking(users, 1, 1, true);
    FindInTable(table.bookings, 1);
    again := table.UpdateBooking(users, 1, 1, true);
    refused := table.UpdateBooking(users, 1, 1, false);
    FindInTable(table.bookings, 1);
    final := table.UpdateBooking(users, 1, 1, false);
  }
}
