/** The server's in-memory state (`rooms`, `bookings`, `customers` and the
    booking id counter) as one object, with the two endpoints that change
    it: room creation and reservation. */
module Store {
  import opened Wrappers
  import opened Entities
  import opened Conflict
  import opened Queries

  // ---------------------------------------------------------------------
  // The invariant every operation keeps
  // ---------------------------------------------------------------------

  /** Room `i` (in creation order) has id `i + 1`. */
  predicate RoomIdsSequential(rooms: seq<Room>) {
    forall i :: 0 <= i < |rooms| ==> rooms[i].id == i + 1
  }

  /** Booking `i` (in commit order) has id `i + 1`. */
  predicate BookingIdsSequential(bookings: seq<Booking>) {
    forall i :: 0 <= i < |bookings| ==> bookings[i].id == i + 1
  }

  /** The customer index is in lockstep with the bookings: record `i` names
      booking `i` and its customer. */
  predicate CustomersLinked(bookings: seq<Booking>, customers: seq<CustomerRecord>) {
    && |customers| == |bookings|
    && forall i :: 0 <= i < |bookings| ==>
         customers[i] == CustomerRecord(bookings[i].customerName, bookings[i].id)
  }

  predicate AllConfirmed(bookings: seq<Booking>) {
    forall i :: 0 <= i < |bookings| ==> bookings[i].bookingStatus == CONFIRMED
  }

  /** Each booking passed the conflict check against every booking made
      before it. */
  predicate EachPassedCheck(bookings: seq<Booking>) {
    forall i, j :: 0 <= i < j < |bookings| ==> !ConflictsWith(bookings[i], bookings[j])
  }

  predicate Consistent(rooms: seq<Room>, bookings: seq<Booking>, customers: seq<CustomerRecord>, counter: int) {
    && RoomIdsSequential(rooms)
    && BookingIdsSequential(bookings)
    && CustomersLinked(bookings, customers)
    && AllConfirmed(bookings)
    && EachPassedCheck(bookings)
    && counter == |bookings| + 1
  }

  /** Why a reservation is refused. */
  datatype ReserveError = RoomAlreadyBooked

  class ReservationStore {
    var rooms: seq<Room>
    var bookings: seq<Booking>
    var customers: seq<CustomerRecord>
    var bookingIdCounter: int

    ghost predicate Valid()
      reads this
    {
      Consistent(rooms, bookings, customers, bookingIdCounter)
    }

    /** The state the server starts with. */
    constructor ()
      ensures Valid()
      ensures rooms == [] && bookings == [] && customers == [] && bookingIdCounter == 1
    {
      rooms, bookings, customers, bookingIdCounter := [], [], [], 1;
    }

    /** POST /rooms: store a room under the next id and return it. */
    method CreateRoom(numberOfSeats: int, amenities: seq<string>, pricePerHour: int, roomName: string)
      returns (room: Room)
      requires Valid()
      modifies this
      ensures Valid()
      ensures room == Room(|old(rooms)| + 1, numberOfSeats, amenities, pricePerHour, roomName)
      ensures rooms == old(rooms) + [room]
      ensures bookings == old(bookings) && customers == old(customers)
      ensures bookingIdCounter == old(bookingIdCounter)
    {
      room := Room(|rooms| + 1, numberOfSeats, amenities, pricePerHour, roomName);
      rooms := rooms + [room];
    }

    /** POST /bookings: refuse the request if it conflicts with a stored
        booking; otherwise commit a confirmed booking under the next id,
        index it under the customer's name and return it. The room id is
        not checked against the stored rooms. */
    method Reserve(customerName: string, date: Date, startTime: Time, endTime: Time, roomId: int,
                   bookingDate: Timestamp)
      returns (result: Result<Booking, ReserveError>)
      requires Valid()
      modifies this
      ensures Valid()
      ensures rooms == old(rooms)
      ensures result.Failure? <==> IsRoomBooked(old(bookings), roomId, date, startTime, endTime)
      ensures result.Failure? ==>
        && result.error == RoomAlreadyBooked
        && bookings == old(bookings)
        && customers == old(customers)
        && bookingIdCounter == old(bookingIdCounter)
      ensures result.Success? ==>
        && result.value == Booking(old(bookingIdCounter), customerName, date, startTime, endTime,
                                   roomId, bookingDate, CONFIRMED)
        && bookings == old(bookings) + [result.value]
        && customers == old(customers) + [CustomerRecord(customerName, result.value.id)]
        && bookingIdCounter == old(bookingIdCounter) + 1
    {
      if IsRoomBooked(bookings, roomId, date, startTime, endTime) {
        return Failure(RoomAlreadyBooked);
      }
      var booking := Booking(bookingIdCounter, customerName, date, startTime, endTime,
                             roomId, bookingDate, CONFIRMED);
      bookingIdCounter := bookingIdCounter + 1;
      bookings := bookings + [booking];
      customers := customers + [CustomerRecord(customerName, booking.id)];
      result := Success(booking);
    }
  }

  // ---------------------------------------------------------------------
  // What the invariant gives
  // ---------------------------------------------------------------------

  /** What the conflict test does guarantee about the stored bookings: when
      two bookings of one room and date overlap and the later one has
      positive length, the later one strictly contains the earlier one. */
  lemma CheckedOverlapsAreContainments(bookings: seq<Booking>, i: int, j: int)
    requires EachPassedCheck(bookings)
    requires 0 <= i < j < |bookings|
    requires bookings[i].roomId == bookings[j].roomId && bookings[i].date == bookings[j].date
    requires bookings[j].startTime < bookings[j].endTime
    requires Overlap(bookings[j].startTime, bookings[j].endTime, bookings[i].startTime, bookings[i].endTime)
    ensures bookings[j].startTime < bookings[i].startTime && bookings[i].endTime < bookings[j].endTime
  {
    var b, c := bookings[i], bookings[j];
    assert !ConflictsWith(b, c);
    ConflictCharacterised(b, c.roomId, c.date, c.startTime, c.endTime);
  }

  /** Booking ids are unique and strictly increase in commit order. */
  lemma BookingIdsIncrease(bookings: seq<Booking>)
    requires BookingIdsSequential(bookings)
    ensures IdsIncreasing(bookings)
  {
  }

  /** Room ids are unique, and looking a room up by id finds room `id - 1`
      exactly when `id` is between 1 and the number of rooms. */
  lemma FindRoomById(rooms: seq<Room>, id: int)
    requires RoomIdsSequential(rooms)
    ensures forall i, j :: 0 <= i < j < |rooms| ==> rooms[i].id != rooms[j].id
    ensures FindRoom(rooms, id) == if 1 <= id <= |rooms| then Some(rooms[id - 1]) else None
  {
  }

  /** Under the invariant the customers view exists exactly when every
      stored booking names an existing room: each booking is listed under
      its own customer record. */
  lemma CustomersViewDefined(rooms: seq<Room>, bookings: seq<Booking>, customers: seq<CustomerRecord>)
    requires CustomersLinked(bookings, customers)
    ensures CustomersWithBookings(rooms, bookings, customers).Some? <==>
            forall k :: 0 <= k < |bookings| ==> HasRoom(rooms, bookings[k].roomId)
  {
    if CustomersWithBookings(rooms, bookings, customers).Some? {
      forall k | 0 <= k < |bookings| ensures HasRoom(rooms, bookings[k].roomId) {
        var mine := BookingsOfCustomer(bookings, customers[k].name);
        assert bookings[k] in mine;
        var j :| 0 <= j < |mine| && mine[j] == bookings[k];
        assert CustomerBookingsOf(rooms, mine).Some?;
      }
    } else {
      var i :| 0 <= i < |customers| &&
        CustomerBookingsOf(rooms, BookingsOfCustomer(bookings, customers[i].name)).None?;
      var mine := BookingsOfCustomer(bookings, customers[i].name);
      var j :| 0 <= j < |mine| && !HasRoom(rooms, mine[j].roomId);
      assert mine[j] in mine;
      var k :| 0 <= k < |bookings| && bookings[k] == mine[j];
    }
  }

  /** Under the invariant every customer record's entry lists at least the
      booking that record was made for. */
  lemma CustomerEntryListsOwnBooking(rooms: seq<Room>, bookings: seq<Booking>, customers: seq<CustomerRecord>, i: int)
    requires CustomersLinked(bookings, customers)
    requires 0 <= i < |customers|
    requires CustomersWithBookings(rooms, bookings, customers).Some?
    ensures |CustomersWithBookings(rooms, bookings, customers).value[i].bookings| > 0
    ensures bookings[i] in BookingsOfCustomer(bookings, customers[i].name)
  {
  }

  /** Every stored booking is confirmed, so every history entry is too. */
  lemma HistoryAllConfirmed(rooms: seq<Room>, bookings: seq<Booking>, name: string)
    requires AllConfirmed(bookings)
    requires CustomerHistory(rooms, bookings, name).Some?
    ensures forall e :: e in CustomerHistory(rooms, bookings, name).value.bookings ==> e.bookingStatus == CONFIRMED
  {
  }
}
