/** The three kinds of record the reservation service keeps in memory:
    rooms, bookings and the customer index, as the server builds them. */
module Entities {

  /** A booking's calendar date. The server only ever compares dates with
      `===`, so any type with equality will do; the client sends text such
      as "2024-01-01". */
  type Date = string

  /** A time of day. The server compares times with `>=`, `<`, `>`, `<=`;
      for zero-padded "HH:MM" text that order coincides with the order of
      minutes since midnight, which is what this integer stands for. */
  type Time = int

  /** The creation instant stamped on a booking (the value of `new Date()`),
      supplied by the caller. */
  type Timestamp = int

  /** The status every booking receives when it is created. */
  const CONFIRMED: string := "confirmed"

  /** A bookable room. `id` is assigned by the store; the other fields are
      stored exactly as the client sent them. */
  datatype Room = Room(
    id: int,
    numberOfSeats: int,
    amenities: seq<string>,
    pricePerHour: int,
    roomName: string)

  /** A committed booking of one room for one interval of one date. */
  datatype Booking = Booking(
    id: int,
    customerName: string,
    date: Date,
    startTime: Time,
    endTime: Time,
    roomId: int,
    bookingDate: Timestamp,
    bookingStatus: string)

  /** One entry of the customer index: appended once per successful
      booking, so a name appears as often as it has booked. */
  datatype CustomerRecord = CustomerRecord(name: string, bookingId: int)
}
