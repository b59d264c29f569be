/** The double-booking check that the reservation endpoint runs before it
    commits a booking, reproduced clause for clause, together with what it
    does and does not catch. */
module Conflict {
  import opened Entities

  /** The test applied to one existing booking `b` for a candidate asking
      for room `roomId` on `date` from `s` to `e`: same room, same date, and
      either the candidate's start lies in `[b.startTime, b.endTime)` or its
      end lies in `(b.startTime, b.endTime]`. */
  predicate Conflicts(b: Booking, roomId: int, date: Date, s: Time, e: Time) {
    && b.roomId == roomId
    && b.date == date
    && ((s >= b.startTime && s < b.endTime) || (e > b.startTime && e <= b.endTime))
  }

  /** The same test with the candidate given as a booking. */
  predicate ConflictsWith(existing: Booking, candidate: Booking) {
    Conflicts(existing, candidate.roomId, candidate.date, candidate.startTime, candidate.endTime)
  }

  /** Whether some booking in `bookings` conflicts with the candidate: the
      `some` the endpoint evaluates over every stored booking. */
  function IsRoomBooked(bookings: seq<Booking>, roomId: int, date: Date, s: Time, e: Time): (r: bool)
    ensures r <==> exists i :: 0 <= i < |bookings| && Conflicts(bookings[i], roomId, date, s, e)
  {
    if |bookings| == 0 then false
    else if Conflicts(bookings[0], roomId, date, s, e) then true
    else
      var rest := IsRoomBooked(bookings[1..], roomId, date, s, e);
      assert forall i :: 1 <= i < |bookings| ==> bookings[i] == bookings[1..][i - 1];
      rest
  }

  /** The usual overlap of the half-open intervals `[s, e)` and `[bs, be)`. */
  predicate Overlap(s: Time, e: Time, bs: Time, be: Time) {
    s < be && bs < e
  }

  /** For a candidate of positive length the check is exactly "same room,
      same date, the half-open intervals overlap, and the candidate does not
      strictly contain the existing booking". So every flagged conflict is a
      real overlap, and the only overlaps it misses are strict
      containments; this holds for any existing booking, even a
      zero-length or reversed one, which the check never flags. */
  lemma ConflictCharacterised(b: Booking, roomId: int, date: Date, s: Time, e: Time)
    requires s < e
    ensures Conflicts(b, roomId, date, s, e) <==>
      && b.roomId == roomId
      && b.date == date
      && Overlap(s, e, b.startTime, b.endTime)
      && !(s < b.startTime && b.endTime < e)
  {
  }

  /** A candidate that strictly contains an existing booking of the same
      room and date is not flagged, although the two overlap. */
  lemma ContainmentNotFlagged(b: Booking, s: Time, e: Time)
    requires s < b.startTime && b.endTime < e
    ensures !Conflicts(b, b.roomId, b.date, s, e)
    ensures b.startTime < b.endTime ==> Overlap(s, e, b.startTime, b.endTime)
  {
  }

  /** Back-to-back bookings are accepted in both directions: a candidate of
      positive length that starts exactly when `b` ends, or ends exactly
      when `b` starts, is not flagged. */
  lemma BackToBackAccepted(b: Booking, s: Time, e: Time)
    requires s < e
    requires s == b.endTime || e == b.startTime
    ensures !Conflicts(b, b.roomId, b.date, s, e)
  {
  }

  /** A zero-length candidate anywhere in the closed interval of an existing
      booking of positive length is flagged, at either endpoint: the start
      clause catches it at `b.startTime`, the end clause at `b.endTime`. */
  lemma EmptyCandidateFlagged(b: Booking, t: Time)
    requires b.startTime < b.endTime
    requires b.startTime <= t <= b.endTime
    ensures Conflicts(b, b.roomId, b.date, t, t)
  {
  }

  /** The check is not symmetric between the stored and the new booking:
      when `inner` lies strictly inside `outer`, asking for `inner` while
      `outer` is stored is refused, but asking for `outer` while `inner` is
      stored is accepted. */
  lemma ConflictNotSymmetric(outer: Booking, inner: Booking)
    requires outer.roomId == inner.roomId && outer.date == inner.date
    requires outer.startTime < inner.startTime < inner.endTime < outer.endTime
    ensures ConflictsWith(outer, inner)
    ensures !ConflictsWith(inner, outer)
  {
  }
}
