/**
 * Bookings and the derived queries of the booking repository, as filters and
 * orderings over the booking table. A booking carries the item and booker rows
 * it references; neither an item's id nor its owner ever changes, so every
 * owner and booker check reads the same values as the live rows.
 */
module Bookings {
  import opened Common
  import opened Ordering
  import opened Users
  import opened Items

  datatype Status = Waiting | Approved | Rejected

  datatype Booking = Booking(id: Id, start: Timestamp, end: Timestamp, item: Item, booker: User, status: Status)

  /** A booking request: the period and the item's id. */
  datatype BookingDto = BookingDto(start: Timestamp, end: Timestamp, itemId: Id)

  /** The `state` keyword of a listing. */
  datatype BookingState =
    | AllBookings | CurrentBookings | FutureBookings | PastBookings | WaitingBookings | RejectedBookings

  /** The enum constant's name, as `BookingState.valueOf` expects it. */
  function StateName(st: BookingState): string {
    match st
    case AllBookings => "ALL"
    case CurrentBookings => "CURRENT"
    case FutureBookings => "FUTURE"
    case PastBookings => "PAST"
    case WaitingBookings => "WAITING"
    case RejectedBookings => "REJECTED"
  }

  /** `BookingState.valueOf`: the constant with exactly that name, or none (case-sensitive). */
  function ParseState(s: string): (r: Option<BookingState>)
    ensures r.Some? ==> StateName(r.value) == s
    ensures r.None? ==> forall st :: StateName(st) != s
  {
    if s == "ALL" then Some(AllBookings)
    else if s == "CURRENT" then Some(CurrentBookings)
    else if s == "FUTURE" then Some(FutureBookings)
    else if s == "PAST" then Some(PastBookings)
    else if s == "WAITING" then Some(WaitingBookings)
    else if s == "REJECTED" then Some(RejectedBookings)
    else None
  }

  /** Every state is recovered from its name. */
  lemma ParseStateName(st: BookingState)
    ensures ParseState(StateName(st)) == Some(st)
  {
  }

  /**
   * The time or status condition of each state's query: CURRENT is
   * `StartBefore(now) AndEndAfter(now)`, both strict; FUTURE `StartAfter(now)`;
   * PAST `EndBefore(now)`; WAITING and REJECTED `StatusEquals`.
   */
  predicate InState(b: Booking, state: BookingState, now: Timestamp) {
    match state
    case AllBookings => true
    case CurrentBookings => b.start < now && b.end > now
    case FutureBookings => b.start > now
    case PastBookings => b.end < now
    case WaitingBookings => b.status == Waiting
    case RejectedBookings => b.status == Rejected
  }

  function StartOf(b: Booking): int {
    b.start
  }

  predicate BookedBy(b: Booking, userId: Id, state: BookingState, now: Timestamp) {
    b.booker.id == userId && InState(b, state, now)
  }

  predicate OwnedBy(b: Booking, userId: Id, state: BookingState, now: Timestamp) {
    b.item.owner == userId && InState(b, state, now)
  }

  /** The booker-side `findAllByBookerId...OrderByStartDesc` queries. */
  function ByBooker(bookings: seq<Booking>, userId: Id, state: BookingState, now: Timestamp): (r: seq<Booking>)
    ensures forall b {:trigger multiset(r)[b]} ::
      multiset(r)[b] == if BookedBy(b, userId, state, now) then multiset(bookings)[b] else 0
    ensures SortedDesc(r, StartOf)
  {
    SortDesc(Filter(bookings, (b: Booking) => BookedBy(b, userId, state, now)), StartOf)
  }

  /**
   * The owner-side `findAllByItemOwner...` queries: ordered by start
   * descending, except the two status queries, which have no `OrderBy` and
   * keep table order.
   */
  function ByOwner(bookings: seq<Booking>, userId: Id, state: BookingState, now: Timestamp): (r: seq<Booking>)
    ensures forall b {:trigger multiset(r)[b]} ::
      multiset(r)[b] == if OwnedBy(b, userId, state, now) then multiset(bookings)[b] else 0
    ensures state != WaitingBookings && state != RejectedBookings ==> SortedDesc(r, StartOf)
  {
    var rows := Filter(bookings, (b: Booking) => OwnedBy(b, userId, state, now));
    if state == WaitingBookings || state == RejectedBookings then rows else SortDesc(rows, StartOf)
  }

  /** A query returns exactly the rows satisfying its condition. */
  lemma ByBookerMembers(bookings: seq<Booking>, userId: Id, state: BookingState, now: Timestamp, b: Booking)
    ensures b in ByBooker(bookings, userId, state, now) <==> b in bookings && BookedBy(b, userId, state, now)
  {
    assert b in ByBooker(bookings, userId, state, now) <==> multiset(ByBooker(bookings, userId, state, now))[b] > 0;
  }

  lemma ByOwnerMembers(bookings: seq<Booking>, userId: Id, state: BookingState, now: Timestamp, b: Booking)
    ensures b in ByOwner(bookings, userId, state, now) <==> b in bookings && OwnedBy(b, userId, state, now)
  {
    assert b in ByOwner(bookings, userId, state, now) <==> multiset(ByOwner(bookings, userId, state, now))[b] > 0;
  }

  /** CURRENT, FUTURE and PAST never share a booking: the three periods are disjoint. */
  lemma TimeStatesDisjoint(b: Booking, now: Timestamp)
    ensures !(InState(b, CurrentBookings, now) && InState(b, FutureBookings, now))
    ensures !(InState(b, CurrentBookings, now) && InState(b, PastBookings, now))
    ensures b.start <= b.end ==> !(InState(b, FutureBookings, now) && InState(b, PastBookings, now))
  {
  }

  /** `findById` on the booking table. */
  function FindBooking(bookings: seq<Booking>, bookingId: Id): (r: Option<Booking>)
    ensures r.Some? ==> r.value in bookings && r.value.id == bookingId
    ensures r.None? ==> forall b :: b in bookings ==> b.id != bookingId
  {
    FirstMatch(bookings, (b: Booking) => b.id == bookingId)
  }

  /** An identity-keyed table: row `i` has id `i + 1`. */
  ghost predicate IsTable(bookings: seq<Booking>) {
    forall i :: 0 <= i < |bookings| ==> bookings[i].id == i + 1
  }

  /** In an identity-keyed table, id `k` is found at row `k - 1`. */
  lemma FindInTable(bookings: seq<Booking>, bookingId: Id)
    requires IsTable(bookings)
    ensures FindBooking(bookings, bookingId) == if 1 <= bookingId <= |bookings| then Some(bookings[bookingId - 1]) else None
  {
    if 1 <= bookingId <= |bookings| {
      FirstMatchAt(bookings, (b: Booking) => b.id == bookingId, bookingId - 1);
    }
  }

  /** `findByItemIdAndEndBeforeAndStatusNot(itemId, now, REJECTED)`: the item's last booking. */
  function LastBooking(bookings: seq<Booking>, itemId: Id, now: Timestamp): (r: Option<Booking>)
    ensures r.Some? ==> r.value in bookings && r.value.item.id == itemId && r.value.end < now && r.value.status != Rejected
    ensures r.None? ==> forall b :: b in bookings ==> !(b.item.id == itemId && b.end < now && b.status != Rejected)
  {
    FirstMatch(bookings, (b: Booking) => b.item.id == itemId && b.end < now && b.status != Rejected)
  }

  /** `findByItemIdAndStartAfterAndStatus(itemId, now, APPROVED)`: the item's next booking. */
  function NextBooking(bookings: seq<Booking>, itemId: Id, now: Timestamp): (r: Option<Booking>)
    ensures r.Some? ==> r.value in bookings && r.value.item.id == itemId && r.value.start > now && r.value.status == Approved
    ensures r.None? ==> forall b :: b in bookings ==> !(b.item.id == itemId && b.start > now && b.status == Approved)
  {
    FirstMatch(bookings, (b: Booking) => b.item.id == itemId && b.start > now && b.status == Approved)
  }

  /** `findByBookerIdAndItemIdAndEndIsBefore(userId, itemId, now)`, of any status. */
  function FinishedBooking(bookings: seq<Booking>, userId: Id, itemId: Id, now: Timestamp): (r: Option<Booking>)
    ensures r.Some? ==> r.value in bookings && r.value.booker.id == userId && r.value.item.id == itemId && r.value.end < now
    ensures r.None? ==> forall b :: b in bookings ==> !(b.booker.id == userId && b.item.id == itemId && b.end < now)
  {
    FirstMatch(bookings, (b: Booking) => b.booker.id == userId && b.item.id == itemId && b.end < now)
  }

  /** A booking that is the last one ended before it could be the next one. */
  lemma LastAndNextDiffer(bookings: seq<Booking>, itemId: Id, now: Timestamp)
    requires forall b :: b in bookings ==> b.start <= b.end
    ensures LastBooking(bookings, itemId, now).Some? && NextBooking(bookings, itemId, now).Some? ==>
      LastBooking(bookings, itemId, now).value != NextBooking(bookings, itemId, now).value
  {
  }
}
