/** The three read-only views the server offers over its collections:
    every room with its bookings, every customer record with that name's
    bookings, and one customer's booking history. */
module Queries {
  import opened Wrappers
  import opened Entities

  // ---------------------------------------------------------------------
  // Building blocks: `filter` and `find` over the stored sequences
  // ---------------------------------------------------------------------

  /** The elements of `s` that satisfy `keep`, in their order in `s`. */
  function Filter<T(!new)>(s: seq<T>, keep: T -> bool): (r: seq<T>)
    ensures |r| <= |s|
    ensures forall x :: x in r <==> x in s && keep(x)
  {
    if |s| == 0 then []
    else (if keep(s[0]) then [s[0]] else []) + Filter(s[1..], keep)
  }

  /** Appending one element to the filtered sequence appends it to the
      result exactly when it is kept: filtering preserves insertion order. */
  lemma {:induction false} FilterAppend<T(!new)>(s: seq<T>, x: T, keep: T -> bool)
    ensures Filter(s + [x], keep) == Filter(s, keep) + (if keep(x) then [x] else [])
  {
    var last := if keep(x) then [x] else [];
    if |s| == 0 {
      assert s + [x] == [x];
      assert Filter([x], keep) == last + Filter([], keep);
    } else {
      var head := if keep(s[0]) then [s[0]] else [];
      assert (s + [x])[0] == s[0];
      assert (s + [x])[1..] == s[1..] + [x];
      assert Filter(s + [x], keep) == head + Filter(s[1..] + [x], keep);
      FilterAppend(s[1..], x, keep);
      assert head + (Filter(s[1..], keep) + last) == (head + Filter(s[1..], keep)) + last;
    }
  }

  /** Booking ids strictly increase along `bookings`. */
  predicate IdsIncreasing(bookings: seq<Booking>) {
    forall i, j :: 0 <= i < j < |bookings| ==> bookings[i].id < bookings[j].id
  }

  /** Filtering keeps bookings in increasing id order. */
  lemma {:induction false} FilterKeepsIdOrder(bookings: seq<Booking>, keep: Booking -> bool)
    requires IdsIncreasing(bookings)
    ensures IdsIncreasing(Filter(bookings, keep))
  {
    if |bookings| > 0 {
      var tail := bookings[1..];
      assert IdsIncreasing(tail) by {
        forall i, j | 0 <= i < j < |tail| ensures tail[i].id < tail[j].id {
          assert tail[i] == bookings[i + 1] && tail[j] == bookings[j + 1];
        }
      }
      FilterKeepsIdOrder(tail, keep);
      var rest := Filter(tail, keep);
      forall b | b in rest ensures bookings[0].id < b.id {
        var k :| 0 <= k < |tail| && tail[k] == b;
        assert b == bookings[k + 1];
      }
    }
  }

  /** The bookings made for room `roomId`. */
  function BookingsOfRoom(bookings: seq<Booking>, roomId: int): (r: seq<Booking>)
    ensures forall b :: b in r <==> b in bookings && b.roomId == roomId
  {
    Filter(bookings, (b: Booking) => b.roomId == roomId)
  }

  /** The bookings made under the customer name `name`. */
  function BookingsOfCustomer(bookings: seq<Booking>, name: string): (r: seq<Booking>)
    ensures forall b :: b in r <==> b in bookings && b.customerName == name
  {
    Filter(bookings, (b: Booking) => b.customerName == name)
  }

  /** Whether some room has id `id`. */
  predicate HasRoom(rooms: seq<Room>, id: int) {
    exists i :: 0 <= i < |rooms| && rooms[i].id == id
  }

  /** The first room with id `id`, or None where the server's `find` gives
      `undefined`. */
  function FindRoom(rooms: seq<Room>, id: int): (r: Option<Room>)
    ensures r.None? <==> !HasRoom(rooms, id)
    ensures r.Some? ==> exists i :: 0 <= i < |rooms| && rooms[i] == r.value && r.value.id == id &&
                                    forall k :: 0 <= k < i ==> rooms[k].id != id
  {
    if |rooms| == 0 then None
    else if rooms[0].id == id then Some(rooms[0])
    else
      var r := FindRoom(rooms[1..], id);
      assert forall i :: 1 <= i < |rooms| ==> rooms[i] == rooms[1..][i - 1];
      r
  }

  /** The name of the room of every booking in `bs`, in order; None as soon
      as one booking names a room that does not exist, where the server
      dereferences `undefined` and the whole request fails. */
  function ResolveRoomNames(rooms: seq<Room>, bs: seq<Booking>): (r: Option<seq<string>>)
    ensures r.None? <==> exists k :: 0 <= k < |bs| && !HasRoom(rooms, bs[k].roomId)
    ensures r.Some? ==> |r.value| == |bs|
    ensures r.Some? ==> forall k :: 0 <= k < |bs| ==>
      FindRoom(rooms, bs[k].roomId).Some? && r.value[k] == FindRoom(rooms, bs[k].roomId).value.roomName
  {
    if |bs| == 0 then Some([])
    else
      assert forall k :: 1 <= k < |bs| ==> bs[k] == bs[1..][k - 1];
      match FindRoom(rooms, bs[0].roomId)
      case None => None
      case Some(room) =>
        match ResolveRoomNames(rooms, bs[1..])
        case None => None
        case Some(names) => Some([room.roomName] + names)
  }

  // ---------------------------------------------------------------------
  // GET /rooms
  // ---------------------------------------------------------------------

  /** What the rooms view shows of one booking. */
  datatype RoomBooking = RoomBooking(customerName: string, date: Date, startTime: Time, endTime: Time)

  /** A room with the bookings made for it. */
  datatype RoomWithBookings = RoomWithBookings(room: Room, bookings: seq<RoomBooking>)

  function RoomBookingOf(b: Booking): RoomBooking {
    RoomBooking(b.customerName, b.date, b.startTime, b.endTime)
  }

  function RoomBookingsOf(bs: seq<Booking>): (r: seq<RoomBooking>)
    ensures |r| == |bs|
  {
    seq(|bs|, k requires 0 <= k < |bs| => RoomBookingOf(bs[k]))
  }

  /** The rooms view: one entry per room, in the order the rooms were
      created, each with the room's own bookings. */
  function RoomsWithBookings(rooms: seq<Room>, bookings: seq<Booking>): (r: seq<RoomWithBookings>)
    ensures |r| == |rooms|
    ensures forall i :: 0 <= i < |rooms| ==> r[i].room == rooms[i]
  {
    seq(|rooms|, i requires 0 <= i < |rooms| =>
      RoomWithBookings(rooms[i], RoomBookingsOf(BookingsOfRoom(bookings, rooms[i].id))))
  }

  /** Every booking of a room is shown under that room, and everything shown
      under a room is a booking made for it. */
  lemma RoomEntryContents(rooms: seq<Room>, bookings: seq<Booking>, i: int)
    requires 0 <= i < |rooms|
    ensures forall b :: b in bookings && b.roomId == rooms[i].id ==>
      RoomBookingOf(b) in RoomsWithBookings(rooms, bookings)[i].bookings
    ensures forall v :: v in RoomsWithBookings(rooms, bookings)[i].bookings ==>
      exists b :: b in bookings && b.roomId == rooms[i].id && v == RoomBookingOf(b)
  {
    var mine := BookingsOfRoom(bookings, rooms[i].id);
    var shown := RoomsWithBookings(rooms, bookings)[i].bookings;
    forall b | b in bookings && b.roomId == rooms[i].id ensures RoomBookingOf(b) in shown {
      var k :| 0 <= k < |mine| && mine[k] == b;
      assert shown[k] == RoomBookingOf(b);
    }
    forall v | v in shown ensures exists b :: b in bookings && b.roomId == rooms[i].id && v == RoomBookingOf(b) {
      var k :| 0 <= k < |shown| && shown[k] == v;
      assert mine[k] in mine;
    }
  }

  /** With no bookings, every room is listed with an empty booking list. */
  lemma RoomsWithoutBookings(rooms: seq<Room>, i: int)
    requires 0 <= i < |rooms|
    ensures RoomsWithBookings(rooms, [])[i].bookings == []
  {
  }

  /** A new booking shows up at the end of its room's list and nowhere
      else; so each room's list is in booking order. */
  lemma RoomsAfterBooking(rooms: seq<Room>, bookings: seq<Booking>, b: Booking, i: int)
    requires 0 <= i < |rooms|
    ensures RoomsWithBookings(rooms, bookings + [b])[i].bookings ==
      RoomsWithBookings(rooms, bookings)[i].bookings + (if b.roomId == rooms[i].id then [RoomBookingOf(b)] else [])
  {
    var keep := (x: Booking) => x.roomId == rooms[i].id;
    FilterAppend(bookings, b, keep);
    assert BookingsOfRoom(bookings + [b], rooms[i].id) ==
      BookingsOfRoom(bookings, rooms[i].id) + (if b.roomId == rooms[i].id then [b] else []);
  }

  /** A new room is listed last; the entries of the earlier rooms stay as
      they were. */
  lemma RoomsAfterNewRoom(rooms: seq<Room>, bookings: seq<Booking>, room: Room)
    ensures RoomsWithBookings(rooms + [room], bookings) ==
      RoomsWithBookings(rooms, bookings) +
      [RoomWithBookings(room, RoomBookingsOf(BookingsOfRoom(bookings, room.id)))]
  {
  }

  // ---------------------------------------------------------------------
  // GET /customers
  // ---------------------------------------------------------------------

  /** What the customers view shows of one booking. */
  datatype CustomerBooking = CustomerBooking(roomName: string, date: Date, startTime: Time, endTime: Time)

  /** One customer record with all bookings made under its name. */
  datatype CustomerWithBookings = CustomerWithBookings(customerName: string, bookings: seq<CustomerBooking>)

  /** The customers view of `bs`, or None if a room cannot be resolved. */
  function CustomerBookingsOf(rooms: seq<Room>, bs: seq<Booking>): (r: Option<seq<CustomerBooking>>)
    ensures r.None? <==> exists k :: 0 <= k < |bs| && !HasRoom(rooms, bs[k].roomId)
    ensures r.Some? ==> |r.value| == |bs|
    ensures r.Some? ==> forall k :: 0 <= k < |bs| ==>
      r.value[k] == CustomerBooking(FindRoom(rooms, bs[k].roomId).value.roomName,
                                    bs[k].date, bs[k].startTime, bs[k].endTime)
  {
    match ResolveRoomNames(rooms, bs)
    case None => None
    case Some(names) =>
      Some(seq(|bs|, k requires 0 <= k < |bs| =>
        CustomerBooking(names[k], bs[k].date, bs[k].startTime, bs[k].endTime)))
  }

  /** The customers view: one entry per customer record, in order, with no
      merging of repeated names; None when any listed booking names a
      missing room. */
  function CustomersWithBookings(rooms: seq<Room>, bookings: seq<Booking>, customers: seq<CustomerRecord>)
    : (r: Option<seq<CustomerWithBookings>>)
    ensures r.None? <==>
      exists i :: 0 <= i < |customers| && CustomerBookingsOf(rooms, BookingsOfCustomer(bookings, customers[i].name)).None?
    ensures r.Some? ==> |r.value| == |customers|
    ensures r.Some? ==> forall i :: 0 <= i < |customers| ==>
      r.value[i].customerName == customers[i].name &&
      CustomerBookingsOf(rooms, BookingsOfCustomer(bookings, customers[i].name)) == Some(r.value[i].bookings)
  {
    if |customers| == 0 then Some([])
    else
      assert forall i :: 1 <= i < |customers| ==> customers[i] == customers[1..][i - 1];
      var name := customers[0].name;
      match CustomerBookingsOf(rooms, BookingsOfCustomer(bookings, name))
      case None => None
      case Some(first) =>
        match CustomersWithBookings(rooms, bookings, customers[1..])
        case None => None
        case Some(rest) => Some([CustomerWithBookings(name, first)] + rest)
  }

  /** Two records with the same name get identical entries. */
  lemma RepeatedNamesRepeatEntries(rooms: seq<Room>, bookings: seq<Booking>, customers: seq<CustomerRecord>, i: int, j: int)
    requires 0 <= i < |customers| && 0 <= j < |customers|
    requires customers[i].name == customers[j].name
    requires CustomersWithBookings(rooms, bookings, customers).Some?
    ensures CustomersWithBookings(rooms, bookings, customers).value[i] ==
            CustomersWithBookings(rooms, bookings, customers).value[j]
  {
  }

  // ---------------------------------------------------------------------
  // GET /customers/:name/bookings
  // ---------------------------------------------------------------------

  /** What the history shows of one booking. */
  datatype HistoryEntry = HistoryEntry(
    roomName: string,
    date: Date,
    startTime: Time,
    endTime: Time,
    bookingId: int,
    bookingDate: Timestamp,
    bookingStatus: string)

  /** A customer's history: the name asked for and its bookings. */
  datatype History = History(customerName: string, bookings: seq<HistoryEntry>)

  /** The booking history of `name`, or None if a room cannot be resolved. */
  function CustomerHistory(rooms: seq<Room>, bookings: seq<Booking>, name: string): (r: Option<History>)
    ensures r.None? <==> exists b :: b in bookings && b.customerName == name && !HasRoom(rooms, b.roomId)
    ensures r.Some? ==> r.value.customerName == name
    ensures (forall b :: b in bookings ==> b.customerName != name) ==> r == Some(History(name, []))
    ensures r.Some? ==> |r.value.bookings| == |BookingsOfCustomer(bookings, name)|
  {
    var mine := BookingsOfCustomer(bookings, name);
    assert forall b :: b in mine <==> exists k :: 0 <= k < |mine| && mine[k] == b;
    assert |mine| > 0 ==> mine[0] in mine;
    match ResolveRoomNames(rooms, mine)
    case None => None
    case Some(names) =>
      var entries := seq(|mine|, k requires 0 <= k < |mine| =>
        HistoryEntry(names[k], mine[k].date, mine[k].startTime, mine[k].endTime,
                     mine[k].id, mine[k].bookingDate, mine[k].bookingStatus));
      assert |mine| == 0 ==> entries == [];
      Some(History(name, entries))
  }

  /** Every history entry describes one `name` booking, in booking order,
      with its id, creation instant and status and its room's name. */
  lemma HistoryEntries(rooms: seq<Room>, bookings: seq<Booking>, name: string, k: int)
    requires CustomerHistory(rooms, bookings, name).Some?
    requires 0 <= k < |CustomerHistory(rooms, bookings, name).value.bookings|
    ensures var b := BookingsOfCustomer(bookings, name)[k];
            var e := CustomerHistory(rooms, bookings, name).value.bookings[k];
            && b in bookings && b.customerName == name
            && FindRoom(rooms, b.roomId).Some?
            && e == HistoryEntry(FindRoom(rooms, b.roomId).value.roomName, b.date, b.startTime,
                                 b.endTime, b.id, b.bookingDate, b.bookingStatus)
  {
  }

  /** When ids increase along `bookings`, they increase along a history. */
  lemma HistoryInIdOrder(rooms: seq<Room>, bookings: seq<Booking>, name: string)
    requires IdsIncreasing(bookings)
    requires CustomerHistory(rooms, bookings, name).Some?
    ensures var h := CustomerHistory(rooms, bookings, name).value.bookings;
            forall i, j :: 0 <= i < j < |h| ==> h[i].bookingId < h[j].bookingId
  {
    FilterKeepsIdOrder(bookings, (b: Booking) => b.customerName == name);
  }

  /** What the customers view keeps of a history entry. */
  function WithoutBookingDetails(e: HistoryEntry): CustomerBooking {
    CustomerBooking(e.roomName, e.date, e.startTime, e.endTime)
  }

  /** The customers view's entry for a record is that name's history with
      the id, creation instant and status dropped. */
  lemma CustomerEntryIsHistory(rooms: seq<Room>, bookings: seq<Booking>, customers: seq<CustomerRecord>, i: int)
    requires 0 <= i < |customers|
    requires CustomersWithBookings(rooms, bookings, customers).Some?
    ensures var h := CustomerHistory(rooms, bookings, customers[i].name);
            var v := CustomersWithBookings(rooms, bookings, customers).value[i];
            && h.Some?
            && v.customerName == h.value.customerName
            && |v.bookings| == |h.value.bookings|
            && forall k :: 0 <= k < |v.bookings| ==> v.bookings[k] == WithoutBookingDetails(h.value.bookings[k])
  {
  }
}
