/**
 * The unpaginated revision of the booking engine compares boxed `Long` ids
 * with `==` and `!=`, which in Java compare references. Two separately boxed
 * equal values are the same object only inside the `Long.valueOf` cache,
 * -128 to 127. The members here are that revision as written; the engine in
 * `BookingService` uses value equality, which is what the code evidently means.
 */
module BookingLegacy {
  import opened Common
  import opened Users
  import opened Items
  import opened Bookings
  import opened BookingService

  /** Reference equality of two separately boxed `Long` values. */
  predicate BoxedSame(a: Id, b: Id) {
    a == b && -128 <= a <= 127
  }

  /** `addBooking` with the self-booking check `getOwner() == userId`. */
  function PlanBookingAsWritten(items: map<Id, Item>, users: map<Id, User>, dto: BookingDto, userId: Id, newId: Id): (r: Result<Booking>)
    ensures -128 <= userId <= 127 ==> r == PlanBooking(items, users, dto, userId, newId)
    ensures r != PlanBooking(items, users, dto, userId, newId) ==>
      && dto.itemId in items && items[dto.itemId].owner == userId
      && PlanBooking(items, users, dto, userId, newId) == Err(ForbiddenAccess)
  {
    if dto.itemId !in items then Err(NotFound)
    else if !items[dto.itemId].available then Err(Unavailable)
    else if BoxedSame(items[dto.itemId].owner, userId) then Err(ForbiddenAccess)
    else if dto.end < dto.start then Err(Validation)
    else if userId !in users then Err(NotFound)
    else Ok(Booking(newId, dto.start, dto.end, items[dto.itemId], users[userId], Waiting))
  }

  /** `updateBooking` with the owner check `getOwner() != userId`. */
  function DecideUpdateAsWritten(users: map<Id, User>, bookings: seq<Booking>, bookingId: Id, userId: Id, approve: bool): (r: Result<Booking>)
    ensures -128 <= userId <= 127 ==> r == DecideUpdate(users, bookings, bookingId, userId, approve)
    ensures r != DecideUpdate(users, bookings, bookingId, userId, approve) ==>
      && r == Err(ForbiddenAccess)
      && FindBooking(bookings, bookingId).Some?
      && FindBooking(bookings, bookingId).value.item.owner == userId
  {
    if userId !in users then Err(NotFound)
    else match FindBooking(bookings, bookingId)
      case None => Err(NotFound)
      case Some(b) =>
        if !BoxedSame(b.item.owner, userId) then Err(ForbiddenAccess)
        else match Transition(b.status, approve)
          case Err(e) => Err(e)
          case Ok(s) => Ok(b.(status := s))
  }

  /**
   * `getBookingById` with the visibility test `getId() == userId || getOwner() == userId`.
   * The booker is the user entity that `getUserById(userId)` loaded into the same
   * persistence context, so its id is the caller's own box and the first test
   * behaves as value equality; the owner is a column boxed on read, so the second
   * compares two boxes.
   */
  function GetBookingByIdAsWritten(users: map<Id, User>, items: map<Id, Item>, bookings: seq<Booking>, bookingId: Id, userId: Id): (r: Result<Booking>)
    ensures -128 <= userId <= 127 ==> r == GetBookingById(users, items, bookings, bookingId, userId)
    ensures r != GetBookingById(users, items, bookings, bookingId, userId) ==>
      && r == Err(ForbiddenAccess)
      && GetBookingById(users, items, bookings, bookingId, userId).Ok?
      && GetBookingById(users, items, bookings, bookingId, userId).value.booker.id != userId
  {
    if userId !in users then Err(NotFound)
    else match FindBooking(bookings, bookingId)
      case None => Err(NotFound)
      case Some(b) =>
        if b.item.id !in items then Err(NotFound)
        else if b.booker.id == userId || BoxedSame(items[b.item.id].owner, userId) then Ok(b)
        else Err(ForbiddenAccess)
  }

  /** The stores behind the three examples: user 200 owns item 1, user 300 booked it. */
  function ExampleUsers(): map<Id, User> {
    map[200 := User(200, "owner", "owner@mail"), 300 := User(300, "booker", "booker@mail")]
  }

  function ExampleItems(): map<Id, Item> {
    map[1 := Item(1, "drill", "cordless drill", true, 200, None)]
  }

  function ExampleBookings(): seq<Booking> {
    [Booking(1, 10, 20, ExampleItems()[1], ExampleUsers()[300], Waiting)]
  }

  /** User 200 books their own item: the as-written check lets it through. */
  lemma SelfBookingAccepted()
    ensures PlanBookingAsWritten(ExampleItems(), ExampleUsers(), BookingDto(10, 20, 1), 200, 2).Ok?
    ensures PlanBooking(ExampleItems(), ExampleUsers(), BookingDto(10, 20, 1), 200, 2) == Err(ForbiddenAccess)
  {
  }

  /** The owner, user 200, cannot approve a booking of their own item as written. */
  lemma OwnerCannotApprove()
    ensures DecideUpdateAsWritten(ExampleUsers(), ExampleBookings(), 1, 200, true) == Err(ForbiddenAccess)
    ensures DecideUpdate(ExampleUsers(), ExampleBookings(), 1, 200, true) == Ok(ExampleBookings()[0].(status := Approved))
  {
    FindInTable(ExampleBookings(), 1);
  }

  /** The owner, user 200, cannot read a booking of their own item as written; the booker can. */
  lemma OwnerCannotRead()
    ensures GetBookingByIdAsWritten(ExampleUsers(), ExampleItems(), ExampleBookings(), 1, 200) == Err(ForbiddenAccess)
    ensures GetBookingById(ExampleUsers(), ExampleItems(), ExampleBookings(), 1, 200) == Ok(ExampleBookings()[0])
    ensures GetBookingByIdAsWritten(ExampleUsers(), ExampleItems(), ExampleBookings(), 1, 300) == Ok(ExampleBookings()[0])
  {
    FindInTable(ExampleBookings(), 1);
  }
}
