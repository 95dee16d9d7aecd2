# ShareIt core, modelled in Dafny

ShareIt is an item-sharing backend. Users list items; other users book them for a
period; the owner approves or rejects each booking. Users can also comment on items they
have rented, and post requests for items nobody offers yet. This project models the
decision logic of that backend and proves its properties. It covers:

- **The booking engine**, in both revisions: the paginated `server` one and the older
  unpaginated `src` one. This means the creation guards in source order and the status
  state machine driven by the owner's approve flag. It also covers who may read a booking,
  and the state-keyword listings with their time and status filters.
- **The catalog**: the database-backed item service and the early in-memory item
  repository. It models owner-only update and delete, the patch rule for partial updates,
  and case-insensitive search over available items. It also models attaching the last and
  next booking to an item, and the rule that only a past renter may comment.
- **The identity store**: the in-memory user repository and the user service. Both keep
  emails unique and assign sequential ids. The repository applies a name change even when
  the email check that follows it fails.
- **The request board**: each request is shown with the items offered for it.
- **Pagination arithmetic** (`PageableMaker`), and the comment and request mappers.

Persistence becomes state in the model. The in-memory repositories are classes that hold
a `map` and an id counter, as the source does. A database table whose rows are never
deleted (bookings, comments, requests) is a `seq` whose row `i` has identity id `i + 1`.
A table whose rows can be deleted (items, users) is a `map` plus the next identity id.
Each derived query method of a Spring Data repository becomes a function over that state:

- a `WHERE` clause becomes `Ordering.Filter`;
- `OrderBy...Desc` becomes `Ordering.SortDesc`;
- a single-result `findBy...` becomes `Ordering.FirstMatch`.

The model enumerates a map in ascending key order (`Ordering.Rows`). Where the source
fixes no order, the contracts do not promise one. This covers a `HashMap`'s `values()`,
which follow bucket order, and a query without `ORDER BY`. In those cases the contracts
promise only that each matching row appears exactly once.

Each decision is a pure function returning a `Result`: the value, or the kind of exception
the source throws (`Common.Error`). The mutating operations are class methods. Each one
ensures that its result is the decision applied to the old state, and states the whole new
state.

The clock (`LocalDateTime.now()`) is an integer parameter `now`. Timestamps and ids are
unbounded integers.

### Behaviour worth knowing

- **State CURRENT** is strict at both ends: `start < now && end > now`
  (`StartBeforeAndEndAfter`, server BookingRepository.java:20 and 34).
- **Double approval:** approving an approved booking throws `IllegalArgumentException`
  (`Error.IllegalArgument`), server BookingServiceImpl.java:58-59.
- **Bad paging arguments** throw `IllegalArgumentException` (PageableMaker.java:10-12).
- **Owner-side ordering:** the WAITING and REJECTED owner listings call
  `findAllByItemOwnerAndStatusEquals`, which has no `OrderBy` (BookingRepository.java:36).
  Their order is unspecified; the model keeps table order. Every other booking listing is
  ordered by start, descending.
- **updateBooking** looks up the acting user before the booking, so an unknown user fails
  `NotFound` first (server BookingServiceImpl.java:50).

## Model

| member | source | states |
|---|---|---|
| Paging.MakePage | src/main/java/ru/practicum/shareit/util/PageableMaker.java:9-15 | fails `IllegalArgument` exactly when `from < 0` or `size < 1`; otherwise the page has the given size and its row range `[number*size, (number+1)*size)` contains `from` |
| Paging.PageNumberUnique | src/main/java/ru/practicum/shareit/util/PageableMaker.java:13 | the page number is `from / size`: any page whose range contains `from` is the one returned |
| Paging.RoundsDownExample | src/main/java/ru/practicum/shareit/util/PageableMaker.java:13 | an offset inside a page rounds down to that page: from 5, size 10 gives page 0; from 25 gives page 2 |
| Paging.Slice | server/src/main/java/ru/practicum/shareit/booking/dao/BookingRepository.java:18-36 | a page of an ordered result holds at most `size` rows, is row-for-row the result from offset `number*size`, and is full whenever enough rows remain |
| Paging.FirstPageIsAll | server/src/main/java/ru/practicum/shareit/booking/dao/BookingRepository.java:18 | page 0 with a size no smaller than the result is the whole result |
| Text.IsBlank | src/main/java/ru/practicum/shareit/item/dao/impl/ItemRepositoryImpl.java:71 | `String.isBlank`: empty or whitespace only (a predicate; `Text.TextExamples` gives its cases) |
| Text.ContainsIgnoreCase | src/main/java/ru/practicum/shareit/item/dao/impl/ItemRepositoryImpl.java:75-76 | `s.toLowerCase().contains(t.toLowerCase())`: the lowered text occurs at some offset of the lowered string (a predicate) |
| Text.TextExamples | src/main/java/ru/practicum/shareit/item/dao/impl/ItemRepositoryImpl.java:71-76 | the empty string and whitespace are blank, " a " is not; "DRILL" is found in "Cordless Drill", "saw" is not found in "drill" |
| Text.LowerIdempotent | src/main/java/ru/practicum/shareit/item/dao/impl/ItemRepositoryImpl.java:75-76 | lowering an already lowered string changes nothing |
| Text.LowerKeepsBlank | src/main/java/ru/practicum/shareit/item/dao/impl/ItemRepositoryImpl.java:71-76 | a string is blank exactly when its lowered form is |
| Text.IgnoreCaseEitherSide | src/main/java/ru/practicum/shareit/item/dao/impl/ItemRepositoryImpl.java:75-76 | for all strings, the search gives the same answer whether the text or the searched field is lowered first |
| Text.ContainsBounds | src/main/java/ru/practicum/shareit/item/dao/impl/ItemRepositoryImpl.java:75-76 | the empty pattern occurs in every string, and a non-empty pattern never occurs in the empty string |
| Text.Lower | src/main/java/ru/practicum/shareit/item/dao/impl/ItemRepositoryImpl.java:75-76 | `toLowerCase` keeps the length and lowers each ASCII letter |
| Ordering.Filter | server/src/main/java/ru/practicum/shareit/booking/dao/BookingRepository.java:18-36 | a `WHERE` clause: each row occurs as often as in the table if it matches and not at all otherwise; every returned row matches |
| Ordering.FilterKeepsIncreasing | src/main/java/ru/practicum/shareit/item/service/impl/ItemServiceImpl.java:86-97 | filtering rows that are in ascending id order leaves them in ascending id order, which gives the owner listing its `sorted` by id |
| Ordering.SortDesc | server/src/main/java/ru/practicum/shareit/booking/dao/BookingRepository.java:18 | `OrderBy...Desc`: a permutation of the rows, greatest key first |
| Ordering.FirstMatch | server/src/main/java/ru/practicum/shareit/booking/dao/BookingRepository.java:12-16 | a single-result query: a row of the table that matches, or none only when no row matches |
| Ordering.AscendingKeys | src/main/java/ru/practicum/shareit/user/dao/impl/UserRepositoryImpl.java:56 | the keys of a map below a bound, each exactly once, strictly ascending |
| Ordering.Rows | src/main/java/ru/practicum/shareit/user/dao/impl/UserRepositoryImpl.java:56 | the model's enumeration of a keyed table's `values()`: one row per key, in ascending key order, every stored value included; callers whose source order is not by id promise no order |
| Users.Rename | src/main/java/ru/practicum/shareit/user/dao/impl/UserRepositoryImpl.java:30-32 | the name changes only to a present, non-blank name, which always applies; no other field changes |
| Users.StoreFreshEmailKeepsUnique | src/main/java/ru/practicum/shareit/user/dao/impl/UserRepositoryImpl.java:65-72 | storing a user whose email nobody holds keeps all emails unique |
| Users.RenameKeepsUnique | src/main/java/ru/practicum/shareit/user/dao/impl/UserRepositoryImpl.java:30-32 | a rename keeps all emails unique |
| Users.RenameIdempotent | src/main/java/ru/practicum/shareit/user/dao/impl/UserRepositoryImpl.java:30-32 | the same name patch applied twice has the effect of applying it once |
| UserRepository.InMemoryUsers.constructor | src/main/java/ru/practicum/shareit/user/dao/impl/UserRepositoryImpl.java:15-16 | an empty store whose id counter starts at 1 |
| UserRepository.InMemoryUsers.AddUser | src/main/java/ru/practicum/shareit/user/dao/impl/UserRepositoryImpl.java:19-25 | fails `AlreadyExists` exactly when some stored user has the email, changing nothing and consuming no id; otherwise stores the user under the next id and advances the counter; keeps emails unique |
| UserRepository.InMemoryUsers.UpdateUser | src/main/java/ru/practicum/shareit/user/dao/impl/UserRepositoryImpl.java:28-39 | `NotFound` for an absent id; otherwise the name patch is stored first; a present email held by any stored user (the user's own included) then fails `AlreadyExists` with the new name kept; a free email is stored; keeps emails unique |
| UserRepository.InMemoryUsers.DeleteUser | src/main/java/ru/practicum/shareit/user/dao/impl/UserRepositoryImpl.java:42-46 | removes exactly that user, or fails `NotFound` when it is absent |
| UserRepository.InMemoryUsers.GetUserById | src/main/java/ru/practicum/shareit/user/dao/impl/UserRepositoryImpl.java:49-52 | the stored user, or `NotFound` exactly when the id is absent |
| UserRepository.InMemoryUsers.GetAllUsers | src/main/java/ru/practicum/shareit/user/dao/impl/UserRepositoryImpl.java:55-57 | every stored user, each exactly once (distinct ids, each a stored user, none missing); no order promised |
| UserRepository.SequentialIdsScenario | src/main/java/ru/practicum/shareit/user/dao/impl/UserRepositoryImpl.java:74-76 | successful adds receive ids 1, 2, 3 in call order; a duplicate email in between is refused and consumes no id |
| UserRepository.PartialUpdateScenario | src/main/java/ru/practicum/shareit/user/dao/impl/UserRepositoryImpl.java:30-36 | an update whose email is taken fails, yet the stored user carries the new name |
| UserService.GetUserById | src/main/java/ru/practicum/shareit/user/service/impl/UserServiceImpl.java:67-70 | the stored user, or `NotFound` exactly when the id is absent |
| UserService.DecideUserUpdate | src/main/java/ru/practicum/shareit/user/service/impl/UserServiceImpl.java:45-56 | a present email held by any stored user fails `AlreadyExists` before the id is looked up (even for an unknown id, even the user's own email); then an unknown id fails `NotFound`; success exactly otherwise, keeping the id, applying the name rule and replacing the email when one is given |
| UserService.UpdateKeepsUnique | src/main/java/ru/practicum/shareit/user/service/impl/UserServiceImpl.java:78-82 | storing a successful update keeps all emails unique |
| UserService.UserTable.constructor | src/main/java/ru/practicum/shareit/user/service/impl/UserServiceImpl.java:19 | an empty table whose identity column starts at 1 |
| UserService.UserTable.AddUser | src/main/java/ru/practicum/shareit/user/service/impl/UserServiceImpl.java:23-33 | a duplicate email fails `AlreadyExists` with the table unchanged, but the identity column advances on every insert, failed or not; otherwise the user is stored under the generated id |
| UserService.UserTable.UpdateUser | src/main/java/ru/practicum/shareit/user/service/impl/UserServiceImpl.java:45-56 | the result is the update decision on the old table; the row is replaced only on success; emails stay unique |
| UserService.UserTable.DeleteUser | src/main/java/ru/practicum/shareit/user/service/impl/UserServiceImpl.java:60-63 | `NotFound` for an absent id, otherwise removes exactly that user |
| Items.PatchItem | src/main/java/ru/practicum/shareit/item/service/impl/ItemServiceImpl.java:53-66 | name and description change only to present, non-blank values, which always apply; availability takes any present value; id, owner and request never change |
| Items.PatchIdempotent | src/main/java/ru/practicum/shareit/item/service/impl/ItemServiceImpl.java:55-63 | the same patch applied twice has the effect of applying it once |
| Items.EmptyPatchIsIdentity | src/main/java/ru/practicum/shareit/item/service/impl/ItemServiceImpl.java:55-63 | a patch with every field null leaves the item unchanged |
| Items.CheckItemOwner | src/main/java/ru/practicum/shareit/item/service/impl/ItemServiceImpl.java:145-157 | `NotFound` for an absent item, `IllegalEntityAccess` for another user's item, otherwise the stored item; success exactly when the item exists and the user owns it |
| Items.MatchesText | src/main/java/ru/practicum/shareit/item/dao/impl/ItemRepositoryImpl.java:75-77 | the search clause: the item is available and its name or description contains the text, ignoring case (a predicate) |
| Items.RowsAreStored | src/main/java/ru/practicum/shareit/item/dao/impl/ItemRepositoryImpl.java:64 | listing a keyed item table yields stored items only, in strictly ascending id order |
| Items.FilterRows | src/main/java/ru/practicum/shareit/item/dao/impl/ItemRepositoryImpl.java:62-79 | filtering the table yields exactly the matching stored items, each under its own id, in ascending id order |
| ItemRepository.InMemoryItems.constructor | src/main/java/ru/practicum/shareit/item/dao/impl/ItemRepositoryImpl.java:19-20 | an empty store whose id counter starts at 1 |
| ItemRepository.InMemoryItems.AddItem | src/main/java/ru/practicum/shareit/item/dao/impl/ItemRepositoryImpl.java:23-29 | stores the item under the next id with the adding user as owner, whatever owner it carried, and advances the counter |
| ItemRepository.InMemoryItems.UpdateItem | src/main/java/ru/practicum/shareit/item/dao/impl/ItemRepositoryImpl.java:32-46 | `NotFound` or `IllegalEntityAccess` from the owner check with the map unchanged; otherwise stores and returns the patched item |
| ItemRepository.InMemoryItems.DeleteItem | src/main/java/ru/practicum/shareit/item/dao/impl/ItemRepositoryImpl.java:49-54 | after the existence and owner checks removes exactly that key; on failure nothing changes |
| ItemRepository.InMemoryItems.GetItemById | src/main/java/ru/practicum/shareit/item/dao/impl/ItemRepositoryImpl.java:57-60 | the stored item, or `NotFound` exactly when the key is absent |
| ItemRepository.InMemoryItems.GetAllItemsByUserId | src/main/java/ru/practicum/shareit/item/dao/impl/ItemRepositoryImpl.java:63-67 | exactly the stored items owned by the user, each once; no order promised |
| ItemRepository.InMemoryItems.GetItemsByText | src/main/java/ru/practicum/shareit/item/dao/impl/ItemRepositoryImpl.java:70-79 | empty for blank text; otherwise exactly the stored available items whose lower-cased name or description contains the lower-cased text, each once; no order promised |
| ItemRepository.SequentialIdsScenario | src/main/java/ru/practicum/shareit/item/dao/impl/ItemRepositoryImpl.java:94-96 | items receive ids 1, 2, 3 in call order, each owned by the user who added it |
| Bookings.ParseState | server/src/main/java/ru/practicum/shareit/booking/service/impl/BookingServiceImpl.java:155-161 | `valueOf`: a keyword parses exactly when it is the name of a state, and then to that state; `ParseStateName` proves the converse |
| Bookings.ParseStateName | server/src/main/java/ru/practicum/shareit/booking/service/impl/BookingServiceImpl.java:157 | every state's name parses back to that state |
| Bookings.InState | server/src/main/java/ru/practicum/shareit/booking/dao/BookingRepository.java:18-36 | each state's window: ALL any; CURRENT `start < now && end > now`; FUTURE `start > now`; PAST `end < now`; WAITING and REJECTED by status (a predicate; `Bookings.TimeStatesDisjoint` relates the windows) |
| Bookings.ByBooker | server/src/main/java/ru/practicum/shareit/booking/dao/BookingRepository.java:18-26 | the booker's bookings in the state's time or status window, each as often as stored, ordered by start descending |
| Bookings.ByOwner | server/src/main/java/ru/practicum/shareit/booking/dao/BookingRepository.java:28-36 | the bookings of the owner's items in the state's window, each as often as stored, ordered by start descending except for the two status queries |
| Bookings.ByBookerMembers | server/src/main/java/ru/practicum/shareit/booking/dao/BookingRepository.java:18-26 | a booking is listed for the booker exactly when it is stored, booked by that user and in the state |
| Bookings.ByOwnerMembers | server/src/main/java/ru/practicum/shareit/booking/dao/BookingRepository.java:28-36 | a booking is listed for the owner exactly when it is stored, of an item that user owns and in the state |
| Bookings.TimeStatesDisjoint | server/src/main/java/ru/practicum/shareit/booking/dao/BookingRepository.java:20-24 | no booking is both CURRENT and FUTURE, or CURRENT and PAST, or FUTURE and PAST when its end is not before its start |
| Bookings.FindBooking | server/src/main/java/ru/practicum/shareit/booking/service/impl/BookingServiceImpl.java:51-52 | `findById`: a stored booking with that id, or none only when no booking has it |
| Bookings.FindInTable | server/src/main/java/ru/practicum/shareit/booking/service/impl/BookingServiceImpl.java:51-52 | in the identity-keyed table, id `k` is the row `k - 1` and ids outside the table are absent |
| Bookings.LastBooking | server/src/main/java/ru/practicum/shareit/booking/dao/BookingRepository.java:14 | a stored booking of the item that ended before now and was not rejected, or none only when no such booking exists |
| Bookings.NextBooking | server/src/main/java/ru/practicum/shareit/booking/dao/BookingRepository.java:16 | a stored approved booking of the item starting after now, or none only when no such booking exists |
| Bookings.FinishedBooking | server/src/main/java/ru/practicum/shareit/booking/dao/BookingRepository.java:12 | a stored booking by the user of the item that ended before now, of any status, or none only when no such booking exists |
| Bookings.LastAndNextDiffer | server/src/main/java/ru/practicum/shareit/booking/dao/BookingRepository.java:14-16 | when bookings end no earlier than they start, an item's last and next booking are never the same booking |
| BookingService.PlanBooking | server/src/main/java/ru/practicum/shareit/booking/service/impl/BookingServiceImpl.java:35-45 | checks in order: item `NotFound`, `Unavailable` for an unavailable item before any other check, `ForbiddenAccess` for self-booking whatever the dates, `Validation` exactly when end is strictly before start (equal is accepted), booker `NotFound`; on success the booking has the given period, the looked-up item and booker, and status WAITING |
| BookingService.Transition | server/src/main/java/ru/practicum/shareit/booking/service/impl/BookingServiceImpl.java:54-62 | fails `IllegalArgument` exactly when approving an approved booking; a refusal always ends REJECTED; the result is APPROVED exactly for approving a waiting booking; REJECTED stays REJECTED |
| BookingService.ApproveTwiceFails | server/src/main/java/ru/practicum/shareit/booking/service/impl/BookingServiceImpl.java:54-59 | two approvals in a row fail on the second, unless the booking was already rejected |
| BookingService.RejectedIsFinal | server/src/main/java/ru/practicum/shareit/booking/service/impl/BookingServiceImpl.java:54-62 | from REJECTED, any sequence of decisions succeeds and leaves the booking REJECTED |
| BookingService.DecideUpdate | server/src/main/java/ru/practicum/shareit/booking/service/impl/BookingServiceImpl.java:49-65 | acting user `NotFound` first, then booking `NotFound`, then `ForbiddenAccess` for anyone but the item's owner whatever the status; otherwise it fails exactly when the transition does, and on success only the status changes, to the transition's result |
| BookingService.GetBookingById | server/src/main/java/ru/practicum/shareit/booking/service/impl/BookingServiceImpl.java:69-80 | the booking is returned exactly when the user, the booking and its re-fetched item exist and the user is its booker or the item's owner; otherwise `NotFound` for a missing entity or `ForbiddenAccess` for anyone else |
| BookingService.ListBookings | src/main/java/ru/practicum/shareit/booking/service/impl/BookingServiceImpl.java:80-122 | unknown user `NotFound`, then unknown keyword `UnsupportedState`, success exactly otherwise; the result holds exactly the stored bookings of the booker (or of the owner's items) in the state, each as often as stored, ordered by start descending except for the owner's status listings |
| BookingService.ListBookingsPaged | server/src/main/java/ru/practicum/shareit/booking/service/impl/BookingServiceImpl.java:84-128 | unknown user `NotFound`, then unknown keyword `UnsupportedState`, then bad page arguments `IllegalArgument`; success exactly otherwise, with at most `size` rows |
| BookingService.PagedIsPageOfUnpaged | server/src/main/java/ru/practicum/shareit/booking/service/impl/BookingServiceImpl.java:85-90 | the paginated listing fails as the unpaginated one does, or on bad page arguments, and otherwise is the requested page of the unpaginated rows |
| BookingService.FirstLargePageIsAll | server/src/main/java/ru/practicum/shareit/booking/service/impl/BookingServiceImpl.java:84-90 | the first page of a size at least the listing's length is the whole unpaginated listing |
| BookingService.BookingTable.constructor | server/src/main/java/ru/practicum/shareit/booking/service/impl/BookingServiceImpl.java:29 | an empty booking table |
| BookingService.BookingTable.AddBooking | server/src/main/java/ru/practicum/shareit/booking/service/impl/BookingServiceImpl.java:35-45 | the result is the creation decision with the next identity id; only a successful booking is appended |
| BookingService.BookingTable.UpdateBooking | server/src/main/java/ru/practicum/shareit/booking/service/impl/BookingServiceImpl.java:49-65 | the result is the update decision on the old table; on success that row is replaced in place, otherwise the table is unchanged |
| BookingService.ApprovalScenario | server/src/main/java/ru/practicum/shareit/booking/service/impl/BookingServiceImpl.java:54-62 | the owner approves a waiting booking, a second approval fails `IllegalArgument`, a refusal rejects it, and a further refusal leaves it rejected |
| BookingLegacy.BoxedSame | src/main/java/ru/practicum/shareit/booking/service/impl/BookingServiceImpl.java:125 | `==` on two separately boxed `Long` values: true only for equal values inside the `Long.valueOf` cache -128..127 (a predicate) |
| BookingLegacy.PlanBookingAsWritten | src/main/java/ru/practicum/shareit/booking/service/impl/BookingServiceImpl.java:33-42 | as written, with `==` on boxed ids: agrees with the value-equality engine whenever the booker's id lies in -128..127, and differs only by accepting a self-booking |
| BookingLegacy.DecideUpdateAsWritten | src/main/java/ru/practicum/shareit/booking/service/impl/BookingServiceImpl.java:46-61 | as written: agrees with the value-equality engine for acting ids in -128..127, and differs only by refusing the item's own owner with `ForbiddenAccess` |
| BookingLegacy.GetBookingByIdAsWritten | src/main/java/ru/practicum/shareit/booking/service/impl/BookingServiceImpl.java:65-76 | as written, with the owner test comparing boxes and the booker test, whose id is the caller's own box, by value: agrees with the value-equality engine for acting ids in -128..127, and differs only by refusing the item's owner (not the booker) with `ForbiddenAccess` |
| BookingLegacy.SelfBookingAccepted | src/main/java/ru/practicum/shareit/booking/service/impl/BookingServiceImpl.java:132 | user 200 books their own item: accepted as written, `ForbiddenAccess` with value equality |
| BookingLegacy.OwnerCannotApprove | src/main/java/ru/practicum/shareit/booking/service/impl/BookingServiceImpl.java:125 | owner 200 approving a booking of their item: `ForbiddenAccess` as written, approved with value equality |
| BookingLegacy.OwnerCannotRead | src/main/java/ru/practicum/shareit/booking/service/impl/BookingServiceImpl.java:70 | owner 200 reading booking 1 of their item 1: `ForbiddenAccess` as written, the booking with value equality; booker 300 reads it under both |
| CommentMapper.ToCommentDto | server/src/main/java/ru/practicum/shareit/comment/util/CommentMapper.java:10-18 | copies id, text, item id and creation time, and sets the author name from the author |
| CommentMapper.ToComment | server/src/main/java/ru/practicum/shareit/comment/util/CommentMapper.java:20-28 | copies id, text and creation time from the dto; author and item come from the arguments |
| CommentMapper.DtoRoundTrip | server/src/main/java/ru/practicum/shareit/comment/util/CommentMapper.java:10-28 | a dto mapped in and back keeps id, text and time and gains the given author's name and item id |
| CommentMapper.CommentRoundTrip | server/src/main/java/ru/practicum/shareit/comment/util/CommentMapper.java:10-28 | a comment mapped out and back with its own author and item is the same comment |
| CommentMapper.ToCommentIgnoresDtoAuthorAndItem | server/src/main/java/ru/practicum/shareit/comment/util/CommentMapper.java:20-28 | the dto's author name and item id have no effect on the comment built from it |
| ItemRequestMapper.ToItemRequest | src/main/java/ru/practicum/shareit/request/util/ItemRequestMapper.java:14-21 | copies id and description, leaves the requester unset, and stamps the current time |
| ItemRequestMapper.ToItemRequestDtoWithItems | src/main/java/ru/practicum/shareit/request/util/ItemRequestMapper.java:23-30 | copies id, description and creation time, with an empty item list |
| ItemRequestMapper.ToItemRequestDtoResponse | src/main/java/ru/practicum/shareit/request/util/ItemRequestMapper.java:32-38 | copies id, description and creation time |
| ItemRequestMapper.MappersAgree | src/main/java/ru/practicum/shareit/request/util/ItemRequestMapper.java:23-38 | both views of one request agree on id, description and creation time |
| ItemRequestMapper.RequestRoundTrip | src/main/java/ru/practicum/shareit/request/util/ItemRequestMapper.java:14-38 | a request body mapped in and out keeps its id and description, stamped with the time of mapping |
| ItemRequestMapper.ViewsIgnoreRequester | src/main/java/ru/practicum/shareit/request/util/ItemRequestMapper.java:23-38 | neither view depends on the requester |
| ItemService.CommentsOf | src/main/java/ru/practicum/shareit/item/service/impl/ItemServiceImpl.java:105-107 | every comment of the item appears as its dto, and every listed dto is the dto of a stored comment of the item |
| ItemService.WithBookings | src/main/java/ru/practicum/shareit/item/service/impl/ItemServiceImpl.java:88-96 | an item view with the item's last and next booking and its comments |
| ItemService.PlanComment | src/main/java/ru/practicum/shareit/item/service/impl/ItemServiceImpl.java:129-137 | unknown author `NotFound` first; then `Unavailable` exactly when the author has no booking of the item that ended before now; success exactly otherwise, with the dto's text, the author, the item and the current time |
| ItemService.ViewsOf | src/main/java/ru/practicum/shareit/item/service/impl/ItemServiceImpl.java:87-96 | one view per listed item, in the same order |
| ItemService.ViewsOfMembers | src/main/java/ru/practicum/shareit/item/service/impl/ItemServiceImpl.java:87-96 | every listed item's view is in the listing |
| ItemService.ItemCatalog.constructor | src/main/java/ru/practicum/shareit/item/service/impl/ItemServiceImpl.java:37-39 | an empty catalog and comment table |
| ItemService.ItemCatalog.AddItem | src/main/java/ru/practicum/shareit/item/service/impl/ItemServiceImpl.java:44-49 | `NotFound` exactly for an unknown user, changing nothing; otherwise stores the item under the next identity id with the user as owner, overriding the owner it carried |
| ItemService.ItemCatalog.UpdateItem | src/main/java/ru/practicum/shareit/item/service/impl/ItemServiceImpl.java:53-66 | `NotFound` or `IllegalEntityAccess` from the owner check with the catalog unchanged; otherwise stores and returns the patched item |
| ItemService.ItemCatalog.DeleteItem | src/main/java/ru/practicum/shareit/item/service/impl/ItemServiceImpl.java:70-74 | removes exactly that item after the owner check passes; on failure nothing changes |
| ItemService.ItemCatalog.GetItemById | src/main/java/ru/practicum/shareit/item/service/impl/ItemServiceImpl.java:78-80 | the stored item, or `NotFound` exactly when it is absent |
| ItemService.ItemCatalog.GetItemDtoById | src/main/java/ru/practicum/shareit/item/service/impl/ItemServiceImpl.java:103-116 | `NotFound` exactly for an absent item; otherwise the item with its comments, plus its last and next booking exactly when the user is the owner, both none for anyone else |
| ItemService.ItemCatalog.GetAllItemsByUserId | src/main/java/ru/practicum/shareit/item/service/impl/ItemServiceImpl.java:84-99 | `NotFound` exactly for an unknown user; otherwise every item the user owns, each a stored item, with its last and next booking and comments, in strictly ascending id order |
| ItemService.ItemCatalog.GetItemsByText | src/main/java/ru/practicum/shareit/item/service/impl/ItemServiceImpl.java:120-125 | empty for blank text; otherwise exactly the stored available items whose name or description contains the text ignoring case, each once; no order promised |
| ItemService.ItemCatalog.GetAllItemsByRequestId | src/main/java/ru/practicum/shareit/item/service/impl/ItemServiceImpl.java:141-143 | exactly the stored items offered for that request, each once; no order promised |
| ItemService.ItemCatalog.AddComment | src/main/java/ru/practicum/shareit/item/service/impl/ItemServiceImpl.java:129-137 | the comment decision with the next identity id; only an accepted comment is appended, and it is returned as a dto |
| ItemRequestService.OwnRequests | src/main/java/ru/practicum/shareit/request/dao/ItemRequestRepository.java:10 | exactly the user's own requests, each as often as stored, newest first |
| ItemRequestService.OthersRequests | src/main/java/ru/practicum/shareit/request/dao/ItemRequestRepository.java:12 | exactly the requests of other users, each as often as stored, newest first |
| ItemRequestService.OwnAndOthersPartition | src/main/java/ru/practicum/shareit/request/dao/ItemRequestRepository.java:10-12 | a stored request with a requester is in exactly one of the user's two listings |
| ItemRequestService.FindRequest | server/src/main/java/ru/practicum/shareit/request/service/impl/ItemRequestServiceImpl.java:67-68 | `findById`: a stored request with that id, or none only when no request has it |
| ItemRequestService.WithItems | server/src/main/java/ru/practicum/shareit/request/service/impl/ItemRequestServiceImpl.java:69-71 | the request's view: every catalog item offered for the request is listed, and every listed item is a stored catalog item offered for it |
| ItemRequestService.AttachItems | server/src/main/java/ru/practicum/shareit/request/service/impl/ItemRequestServiceImpl.java:43-47 | the `forEach` loop: one view per request, in order, each with its matching items |
| ItemRequestService.RequestBoard.constructor | server/src/main/java/ru/practicum/shareit/request/service/impl/ItemRequestServiceImpl.java:26 | an empty request table |
| ItemRequestService.RequestBoard.AddRequest | server/src/main/java/ru/practicum/shareit/request/service/impl/ItemRequestServiceImpl.java:32-37 | `NotFound` exactly for an unknown user, saving nothing; otherwise saves the request under the next identity id with that user as requester and returns its id, description and creation time |
| ItemRequestService.RequestBoard.GetAllRequestsByUserId | server/src/main/java/ru/practicum/shareit/request/service/impl/ItemRequestServiceImpl.java:41-49 | `NotFound` exactly for an unknown user; otherwise the user's own requests, newest first, each with its items |
| ItemRequestService.RequestBoard.GetAllRequests | server/src/main/java/ru/practicum/shareit/request/service/impl/ItemRequestServiceImpl.java:53-61 | unknown user `NotFound`, then bad page arguments `IllegalArgument`; otherwise the requested page of the other users' requests, newest first, each with its items |
| ItemRequestService.RequestBoard.GetRequestById | server/src/main/java/ru/practicum/shareit/request/service/impl/ItemRequestServiceImpl.java:65-73 | `NotFound` exactly when the user is unknown or the request does not exist; otherwise that request with exactly its matching items |
| ItemRequestService.RequestBoard.FindRequestInTable | server/src/main/java/ru/practicum/shareit/request/service/impl/ItemRequestServiceImpl.java:67-68 | in the identity-keyed table, request `k` is row `k - 1` and ids outside the table are absent |

## Left out

- HTTP controllers and gateway clients are not modelled: header extraction, proxy
  forwarding, bean validation of request bodies, and logging.
- Mapping exceptions to HTTP statuses is left out (`ErrorHandler`). Note that the `src`
  handler maps `ForbiddenAccessException` to 404 (lines 75-80) but
  `IllegalEntityAccessException` to 403 (lines 40-45).
- The clock is the `now` parameter. The source calls `LocalDateTime.now()` once per
  argument: the CURRENT queries call it twice (server BookingServiceImpl.java:92 and 116),
  and so does `addComment` (src ItemServiceImpl.java:131-132). The model uses a single
  instant for each operation.
- Text handling is ASCII only. `Text.Lower` lowers ASCII letters only. `Text.IsBlank`
  treats as whitespace the ASCII tab to carriage-return range, space, and U+001C to
  U+001F. Java's `isBlank` also accepts other Unicode space separators.
- Ids, timestamps and the in-memory `int` counters are unbounded integers. Overflow of the
  `int` id counter at 2^31 is left out.
- The in-memory repositories store the caller's object and return it, so later setter
  calls through that reference would change the store. The model works on values and does
  not capture this aliasing.
- JPA `save` of an entity that already carries an id would merge into that row. The model
  always inserts under the next identity id. This affects `AddItem`, `AddBooking`,
  `AddComment` and `AddRequest` in the database-backed services, and
  `UserService.UserTable.AddUser`.
- Foreign keys are not modelled. A booking or comment keeps its item and author as it was
  when attached, and deleting an item that has bookings is not refused.
  `BookingService.GetBookingById` re-fetches the item and fails `NotFound` if the item is
  gone.
- A single-result query that matches several rows would throw in Spring Data. The model
  returns the first match in table order.
- An item's `available` flag is a `bool`. A `null` flag would make the in-memory search
  throw, and that case is not modelled.
- Transactions, isolation and concurrent status updates are left out.
- The `default` branches of the state switches cannot be reached: the keyword is parsed
  into the six states first.
- `PageableFactory` (used by the item listings and search) is not part of this model.
- `BookingMapper` and `ItemMapper` are not part of this model. Bookings are returned as
  booking rows and items as item rows.
- `UserServiceImpl.getAllUsers` returns `findAll` in an unspecified order. It is not
  modelled.
- ItemService.ItemCatalog.GetAllItemsByUserId: leaves out the paging of
  `findAllByOwner`, because `PageableFactory` is not part of this model. It returns every
  page at once.
- ItemService.ItemCatalog.GetItemsByText: leaves out the paging of `findByText`, for the
  same reason. It also treats `%` and `_` in the search text literally, where the JPQL
  `LIKE` pattern treats them as wildcards. It compares lower-cased text where the query
  compares `UPPER`; the two agree for ASCII letters.
- ItemService.ItemCatalog.GetItemDtoById and GetItemById: require the catalog's table
  invariant (items stored under their own ids). Without that invariant the database
  state would be impossible.
- UserService.UserTable.AddUser: does not model a user body that carries an id. The mapper
  copies the dto's id, and `save` would then update that row instead of inserting one. The
  contract always inserts under the next identity id.
- UserRepository.InMemoryUsers.GetAllUsers: promises each stored user exactly once but no
  order. The source's order is `HashMap` bucket order, which differs from id order once ids
  reach the table's capacity. The model's own list happens to be ascending.
- ItemRepository.InMemoryItems.GetAllItemsByUserId and GetItemsByText: promise each
  matching item exactly once but no order, for the same reason.
- ItemService.ItemCatalog.GetItemsByText and GetAllItemsByRequestId: the queries have no
  `ORDER BY`, so the contracts promise no order.
- BookingLegacy.GetBookingByIdAsWritten: models the booker test at line 70 with value
  equality. The booker is the entity `getUserById(userId)` loaded in the same read-only
  transaction, so its id is plausibly the caller's own `Long` object. Only the owner test
  is modelled by reference.
- UserService.UserTable: unique emails come from the database's unique constraint on the
  email column, which the insert in `addUser` depends on. The constraint itself is not
  part of the sources.

## Findings

| source | as written | input that shows it | evidently intended | confidence | as-written member | corrected member |
|---|---|---|---|---|---|---|
| src/main/java/ru/practicum/shareit/booking/service/impl/BookingServiceImpl.java:132 | `getOwner() == userId` compares two boxed `Long` references, equal only inside the cache -128..127 | user 200 books item 1, which user 200 owns | value equality: a self-booking is refused with `ForbiddenAccess` | not executed | BookingLegacy.PlanBookingAsWritten, BookingLegacy.SelfBookingAccepted | BookingService.PlanBooking |
| src/main/java/ru/practicum/shareit/booking/service/impl/BookingServiceImpl.java:125 | `getOwner() != userId` compares references | owner 200 approves booking 1 of their item 1 | value equality: the owner may decide | not executed | BookingLegacy.DecideUpdateAsWritten, BookingLegacy.OwnerCannotApprove | BookingService.DecideUpdate |
| src/main/java/ru/practicum/shareit/booking/service/impl/BookingServiceImpl.java:70 | `item.getOwner() == userId` compares references | owner 200 reads booking 1 of their item 1 | value equality: the owner may read | not executed | BookingLegacy.GetBookingByIdAsWritten, BookingLegacy.OwnerCannotRead | BookingService.GetBookingById |
