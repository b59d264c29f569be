/** Runs of the endpoints from an empty store, with their outcomes proved
    from the contracts of the store's methods alone. Times are minutes
    since midnight: 540 is "09:00", 600 is "10:00". */
module Scenarios {
  import opened Wrappers
  import opened Entities
  import opened Conflict
  import opened Queries
  import opened Store

  /** A first booking gets id 1 and is confirmed; an overlapping request
      for the same room and date is refused. */
  method OverlapRefused() returns (room: Room, first: Result<Booking, ReserveError>,
                                   second: Result<Booking, ReserveError>)
    ensures room.id == 1 && room.roomName == "Alpha"
    ensures first.Success? && first.value.id == 1 && first.value.bookingStatus == CONFIRMED
    ensures second == Failure(RoomAlreadyBooked)
  {
    var store := new ReservationStore();
    room := store.CreateRoom(4, ["tv"], 10, "Alpha");
    first := store.Reserve("Ann", "2024-01-01", 540, 600, room.id, 0);
    second := store.Reserve("Bo", "2024-01-01", 570, 630, room.id, 1);
    assert Conflicts(store.bookings[0], room.id, "2024-01-01", 570, 630);
  }

  /** A booking that starts exactly when another ends is accepted and gets
      the next id; the room then lists both, in booking order. */
  method BackToBackBookings() returns (first: Result<Booking, ReserveError>,
                                       second: Result<Booking, ReserveError>,
                                       view: seq<RoomWithBookings>)
    ensures first.Success? && second.Success?
    ensures second.value.id == first.value.id + 1
    ensures |view| == 1 && view[0].bookings ==
      [RoomBooking("Ann", "2024-01-01", 540, 600), RoomBooking("Ann", "2024-01-01", 600, 660)]
  {
    var store := new ReservationStore();
    var room := store.CreateRoom(4, ["tv"], 10, "Alpha");
    first := store.Reserve("Ann", "2024-01-01", 540, 600, room.id, 0);
    second := store.Reserve("Ann", "2024-01-01", 600, 660, room.id, 1);
    RoomsAfterNewRoom([], [], room);
    RoomsAfterBooking([room], [], first.value, 0);
    RoomsAfterBooking([room], [first.value], second.value, 0);
    RoomsWithoutBookings([room], 0);
    view := RoomsWithBookings(store.rooms, store.bookings);
  }

  /** The history of a name that never booked is that name with no
      bookings, not an error. */
  method UnknownCustomerHistory() returns (h: Option<History>)
    ensures h == Some(History("Zoe", []))
  {
    var store := new ReservationStore();
    var room := store.CreateRoom(4, ["tv"], 10, "Alpha");
    var first := store.Reserve("Ann", "2024-01-01", 540, 600, room.id, 0);
    h := CustomerHistory(store.rooms, store.bookings, "Zoe");
  }

  /** A request that strictly contains a stored booking of the same room
      and date is accepted, so the store ends up holding two overlapping
      bookings of one room. */
  method ContainmentAccepted() returns (inner: Result<Booking, ReserveError>,
                                        outer: Result<Booking, ReserveError>)
    ensures inner.Success? && outer.Success?
    ensures inner.value.roomId == outer.value.roomId && inner.value.date == outer.value.date
    ensures Overlap(outer.value.startTime, outer.value.endTime, inner.value.startTime, inner.value.endTime)
  {
    var store := new ReservationStore();
    var room := store.CreateRoom(4, ["tv"], 10, "Alpha");
    inner := store.Reserve("Ann", "2024-01-01", 600, 660, room.id, 0);
    outer := store.Reserve("Bo", "2024-01-01", 540, 1020, room.id, 1);
  }

  /** A booking for a room that does not exist is accepted; afterwards the
      customers view is undefined, while the rooms view still lists the
      existing room, with no bookings. */
  method MissingRoomBreaksCustomersView() returns (booked: Result<Booking, ReserveError>,
                                                   customersView: Option<seq<CustomerWithBookings>>,
                                                   roomsView: seq<RoomWithBookings>)
    ensures booked.Success? && booked.value.roomId == 7
    ensures customersView == None
    ensures |roomsView| == 1 && roomsView[0].room.id == 1 && roomsView[0].bookings == []
  {
    var store := new ReservationStore();
    var room := store.CreateRoom(4, ["tv"], 10, "Alpha");
    booked := store.Reserve("Ann", "2024-01-01", 540, 600, 7, 0);
    CustomersViewDefined(store.rooms, store.bookings, store.customers);
    RoomsWithoutBookings([room], 0);
    RoomsAfterBooking([room], [], booked.value, 0);
    customersView := CustomersWithBookings(store.rooms, store.bookings, store.customers);
    roomsView := RoomsWithBookings(store.rooms, store.bookings);
  }
}
