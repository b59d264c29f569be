# Room reservation engine

A model of the in-memory room-reservation server in `index.js`: an
Express app that keeps three arrays (`rooms`, `bookings`, `customers`)
and a booking id counter, accepts new rooms, accepts or refuses booking
requests with an interval-overlap check, and serves three read-only
views.

- `entities.dfy` (module `Entities`): rooms, bookings, customer records.
  Times are integers (minutes since midnight). Dates are text compared
  only for equality. The creation instant is an integer that the caller
  supplies.
- `conflict.dfy` (module `Conflict`): the double-booking test exactly as
  written (`Conflicts`), the `some` over all bookings (`IsRoomBooked`),
  and lemmas that say what the test catches and what it misses.
- `queries.dfy` (module `Queries`): `filter`, `find` and the three GET
  views as functions. A room lookup that finds nothing is `None`. A view
  that would dereference that `undefined` is `None` as a whole, because
  the request fails.
- `store.dfy` (module `Store`): class `ReservationStore` with the four
  module-level variables as fields. `CreateRoom` and `Reserve` modify it,
  and `Valid()` is the invariant they keep:
  - room `i` has id `i + 1`;
  - booking `i` has id `i + 1`, and the counter is one more than the
    number of bookings;
  - customer record `i` is `{name, bookingId}` of booking `i`;
  - every booking is `"confirmed"`;
  - every booking passed the conflict test against all earlier ones.
- `scenarios.dfy` (module `Scenarios`): short runs from an empty store,
  with their outcomes proved from the method contracts.
- `wrappers.dfy` (module `Wrappers`): `Option` and `Result`.

The overlap test is modelled as written, not repaired. For a request of
positive length, it flags exactly the half-open overlaps in which the
request does not strictly contain the stored booking
(`ConflictCharacterised`). As a result, a request that swallows a stored
booking is accepted (`ContainmentNotFlagged`, `ContainmentAccepted`). The
test is also not symmetric between the stored and the new booking
(`ConflictNotSymmetric`). So two stored bookings of one room and date can
overlap. What the store does keep is that each booking passed the test
against earlier ones (`EachPassedCheck`). Hence, when two stored bookings
of one room and date overlap and the later one has positive length, the
later one strictly contains the earlier one
(`CheckedOverlapsAreContainments`).

`Reserve` does not check that the room exists, which is also what the
code does. So "every booking's room exists" is not an invariant. The
customer views are `None` exactly when a listed booking names a missing
room (`CustomersViewDefined`, `MissingRoomBreaksCustomersView`).

## Model

| member | source | states |
|---|---|---|
| Conflict.IsRoomBooked | index.js:47-51 | true exactly when some stored booking conflicts with the request |
| Conflict.ConflictCharacterised | index.js:48-50 | for a request with start < end, a conflict is exactly: same room, same date, the half-open intervals overlap, and the request does not strictly contain the stored booking |
| Conflict.ContainmentNotFlagged | index.js:49-50 | a request strictly containing a stored booking of the same room and date is not flagged, though the two overlap |
| Conflict.BackToBackAccepted | index.js:49-50 | a request of positive length that starts when a booking ends, or ends when it starts, is not flagged |
| Conflict.EmptyCandidateFlagged | index.js:49-50 | a zero-length request anywhere in the closed interval of a stored booking of positive length is flagged, at both endpoints |
| Conflict.ConflictNotSymmetric | index.js:47-51 | with one booking strictly inside another, the inner request is refused against the outer, but the outer request is accepted against the inner |
| Queries.Filter | index.js:79 | the result holds exactly the kept elements and is no longer than the input |
| Queries.FilterAppend | index.js:79 | appending an element appends it to the filtered result exactly when it is kept (insertion order) |
| Queries.FilterKeepsIdOrder | index.js:121 | filtering bookings with increasing ids keeps the ids increasing |
| Queries.BookingsOfRoom | index.js:79 | exactly the stored bookings with the given room id |
| Queries.BookingsOfCustomer | index.js:99 | exactly the stored bookings under the given customer name |
| Queries.FindRoom | index.js:103 | None exactly when no room has the id; otherwise the first room with that id |
| Queries.ResolveRoomNames | index.js:102-103 | None exactly when some booking's room is missing; otherwise one name per booking, namely that of the room `find` returns |
| Queries.RoomsWithBookings | index.js:78-89 | one entry per room, same length and order as the rooms |
| Queries.RoomEntryContents | index.js:79-87 | each booking of a room is shown under it, and everything shown under a room is one of its bookings |
| Queries.RoomsWithoutBookings | index.js:78-89 | with no bookings, every room lists none |
| Queries.RoomsAfterBooking | index.js:79-87 | a new booking is appended to its own room's list and to no other |
| Queries.RoomsAfterNewRoom | index.js:78-89 | a new room is listed last, and earlier entries are unchanged |
| Queries.CustomerBookingsOf | index.js:102-107 | None exactly when a booking's room is missing; otherwise one entry per booking, carrying the name of the room `find` returns and the booking's date, start and end |
| Queries.CustomersWithBookings | index.js:98-109 | None exactly when some record's bookings cannot be resolved; otherwise one entry per customer record, in order, under that record's name |
| Queries.RepeatedNamesRepeatEntries | index.js:98-109 | two records with the same name get identical entries (no merging) |
| Queries.CustomerHistory | index.js:120-133 | carries the asked name; a name with no bookings gives an empty list, not an error; None exactly when one of its bookings names a missing room; one entry per booking of that name |
| Queries.HistoryEntries | index.js:123-131 | entry k is booking k of that name, with its room's name, id, creation instant and status |
| Queries.HistoryInIdOrder | index.js:121-131 | when booking ids increase in store order, a history lists them in increasing id order |
| Queries.CustomerEntryIsHistory | index.js:98-109 | a record's customers-view entry is that name's history without id, creation instant and status |
| Store.ReservationStore.constructor | index.js:8-11 | starts with no rooms, bookings or customer records, the counter at 1, and the invariant holding |
| Store.ReservationStore.CreateRoom | index.js:21-32 | the new room has id = number of rooms + 1 and the given fields; it is appended and nothing else changes; the invariant is kept |
| Store.ReservationStore.Reserve | index.js:43-72 | refused exactly when `IsRoomBooked` holds, and then nothing changes; otherwise the new booking has the old counter as id and status confirmed, one booking and one linked customer record are appended, the counter grows by 1, rooms are unchanged, and the invariant is kept |
| Store.BookingIdsIncrease | index.js:57-58 | under the invariant, booking ids strictly increase in commit order (so they are unique) |
| Store.FindRoomById | index.js:23-24 | under the invariant, room ids are unique, and lookup by id gives room id - 1 exactly when 1 <= id <= number of rooms |
| Store.CheckedOverlapsAreContainments | index.js:47-53 | under the invariant, if two bookings of one room and date overlap and the later has positive length, the later strictly contains the earlier |
| Store.CustomersViewDefined | index.js:97-109 | under the invariant, the customers view exists exactly when every booking's room exists |
| Store.CustomerEntryListsOwnBooking | index.js:98-99 | under the invariant, each record's entry includes the booking that record was made for |
| Store.HistoryAllConfirmed | index.js:65 | every history entry has status confirmed |
| Scenarios.OverlapRefused | index.js:43-72 | first room gets id 1; first booking gets id 1 and is confirmed; an overlapping request is refused |
| Scenarios.BackToBackBookings | index.js:47-51 | back-to-back bookings are both accepted with consecutive ids, and the room lists both in order |
| Scenarios.UnknownCustomerHistory | index.js:119-134 | the history of a name that never booked is that name with an empty list |
| Scenarios.ContainmentAccepted | index.js:47-51 | a request strictly containing a stored booking is accepted, leaving two overlapping bookings of one room |
| Scenarios.MissingRoomBreaksCustomersView | index.js:44-69 | a booking for a missing room is accepted, after which the customers view is undefined while the rooms view still lists room 1 with no bookings |

## Left out

- HTTP transport is not modelled: Express setup, routing, JSON parsing, status codes, `res.send`, `app.listen` and logging.
- `new Date()` is not modelled. The creation instant is a parameter of `Reserve`.
- JavaScript's dynamic typing is not modelled. Ids are integers, times are integers ordered numerically, and dates are text compared for equality. That leaves out string-vs-number `===` on `roomId`, missing or `undefined` fields, and mixed string/number time comparison.
- `numberOfSeats` and `pricePerHour` are modelled as integers. The server stores them as sent and never inspects them.
- Concurrency is not modelled. Each endpoint is one atomic method, matching Node's run-to-completion handlers. Two simultaneous requests for the same slot are therefore not covered.
- A failed view lookup is modelled as `None` for the whole view. The exact `TypeError` and the error response are not modelled.
