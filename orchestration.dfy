/**
 * The booking orchestrator as functions over the contents of the three record stores.
 * Each operation yields its result, the new contents of the stores and the store calls it
 * made, in order; the class in module Service runs the same steps one store call at a time.
 */
module Orchestration {
  import opened Wrappers
  import opened Models
  import opened Pricing

  /** The failures of the booking service, each an IllegalArgumentException in the source. */
  datatype BookingError =
    | PassengerNotFound(passengerId: int)
    | ActivityNotFound(activityId: int)
    | CapacityFull(activityId: int)
    | InsufficientBalance(activityId: int)
    | BookingNotFound(bookingId: int)

  /**
   * The contents of the passenger, activity and booking stores, keyed by id, and the
   * booking-id sequence: `nextBookingId` is the id the sequence hands out next.
   */
  datatype Db = Db(
    passengers: map<int, Passenger>,
    activities: map<int, Activity>,
    bookings: map<int, Booking>,
    nextBookingId: int)

  /** One call into a record store. */
  datatype Call =
    | PassengerRead(passengerId: int)
    | ActivityRead(activityId: int)
    | BookingRead(bookingId: int)
    | BookingIdGenerated(bookingId: int)
    | BookingSaved(booking: Booking)
    | BookingUpdated(booking: Booking)
    | PassengerUpdated(passenger: Passenger)
    | ActivityUpdated(activity: Activity)

  predicate IsWrite(c: Call) {
    c.BookingSaved? || c.BookingUpdated? || c.PassengerUpdated? || c.ActivityUpdated?
  }

  predicate NoWrites(calls: seq<Call>) {
    forall k :: 0 <= k < |calls| ==> !IsWrite(calls[k])
  }

  /** What an operation returns, the store contents it leaves and the store calls it made. */
  datatype Outcome<T> = Outcome(result: Result<T, BookingError>, db: Db, calls: seq<Call>)

  /**
   * What the stores guarantee: a record is stored under its own id, every booking id is below
   * the next id of the sequence, and a passenger's booking list names stored bookings only.
   */
  predicate Consistent(db: Db) {
    && (forall id :: id in db.passengers ==> db.passengers[id].passengerId == id)
    && (forall id :: id in db.activities ==> db.activities[id].activityId == id)
    && (forall id :: id in db.bookings ==> db.bookings[id].bookingId == id && id < db.nextBookingId)
    && (forall id :: id in db.passengers ==> AllStored(db.passengers[id].bookingList, db.bookings))
  }

  predicate AllStored(bookingIds: seq<int>, bookings: map<int, Booking>) {
    forall k :: 0 <= k < |bookingIds| ==> bookingIds[k] in bookings
  }

  /** Java's `List.remove(Object)` on a list of booking ids: drops the first occurrence of `x`, if any. */
  function RemoveFirst(s: seq<int>, x: int): (r: seq<int>)
    ensures x !in s ==> r == s
    ensures x in s ==> |r| == |s| - 1
    ensures forall k :: 0 <= k < |r| ==> r[k] in s
  {
    if s == [] then []
    else if s[0] == x then s[1..]
    else [s[0]] + RemoveFirst(s[1..], x)
  }

  /** RemoveFirst takes away exactly one occurrence of `x`, when there is one, and nothing else. */
  lemma {:induction false} RemoveFirstDropsOne(s: seq<int>, x: int)
    ensures multiset(RemoveFirst(s, x)) == multiset(s) - multiset{x}
  {
    if s != [] {
      assert s == [s[0]] + s[1..];
      RemoveFirstDropsOne(s[1..], x);
    }
  }

  /** RemoveFirst keeps the order of the ids it leaves: they are the list with one position cut out. */
  lemma {:induction false} RemoveFirstCutsFirstOccurrence(s: seq<int>, x: int, k: nat)
    requires k < |s| && s[k] == x && x !in s[..k]
    ensures RemoveFirst(s, x) == s[..k] + s[k + 1..]
  {
    if k > 0 {
      assert s[0] in s[..k];
      assert s[1..][..k - 1] == s[1..k];
      RemoveFirstCutsFirstOccurrence(s[1..], x, k - 1);
      assert s[..k] == [s[0]] + s[1..k];
    }
  }

  /** Removing an id that was just appended, and occurs nowhere else, gives back the list before the append. */
  lemma {:induction false} RemoveFirstAppended(s: seq<int>, x: int)
    requires x !in s
    ensures RemoveFirst(s + [x], x) == s
  {
    if s != [] {
      assert (s + [x])[1..] == s[1..] + [x];
      RemoveFirstAppended(s[1..], x);
    }
  }

  /**
   * BookingService.createBooking: look up the passenger, then the activity; refuse a full activity,
   * then an insufficient balance; only then take a fresh id, save a PENDING booking,
   * debit the passenger and append the booking, and take one place off the activity.
   */
  function Create(db: Db, passengerId: int, activityId: int, destinationId: int): (o: Outcome<Booking>)
    requires Consistent(db)
    ensures passengerId !in db.passengers ==> o.result == Failure(PassengerNotFound(passengerId))
    ensures passengerId in db.passengers && activityId !in db.activities ==>
              o.result == Failure(ActivityNotFound(activityId))
    ensures passengerId in db.passengers && activityId in db.activities && db.activities[activityId].capacity <= 0 ==>
              o.result == Failure(CapacityFull(activityId))
    ensures passengerId in db.passengers && activityId in db.activities && db.activities[activityId].capacity > 0 &&
            db.passengers[passengerId].balance < DiscountedCost(db.passengers[passengerId], db.activities[activityId]) ==>
              o.result == Failure(InsufficientBalance(activityId))
    // every failure happens before the first write: nothing changes
    ensures o.result.Failure? ==> o.db == db && NoWrites(o.calls)
    ensures o.result.Success? <==>
              && passengerId in db.passengers && activityId in db.activities
              && db.activities[activityId].capacity > 0
              && db.passengers[passengerId].balance >= DiscountedCost(db.passengers[passengerId], db.activities[activityId])
    ensures o.result.Success? ==>
              var p := db.passengers[passengerId];
              var a := db.activities[activityId];
              var b := o.result.value;
              && b.bookingId !in db.bookings
              && o.db.nextBookingId == db.nextBookingId + 1
              && b == Booking(b.bookingId, passengerId, destinationId, activityId, PENDING)
              && o.db.bookings == db.bookings[b.bookingId := b]
              && o.db.passengers == db.passengers[passengerId := p.(
                   balance := p.balance - DiscountedCost(p, a),
                   bookingList := p.bookingList + [b.bookingId])]
              && o.db.activities == db.activities[activityId := a.(capacity := a.capacity - 1)]
              && o.db.passengers[passengerId].balance >= 0.0
              && o.db.activities[activityId].capacity >= 0
              // the booking is saved first, then the passenger, then the activity
              && o.calls == [PassengerRead(passengerId), ActivityRead(activityId), BookingIdGenerated(b.bookingId),
                             BookingSaved(b), PassengerUpdated(o.db.passengers[passengerId]),
                             ActivityUpdated(o.db.activities[activityId])]
    ensures Consistent(o.db)
  {
    if passengerId !in db.passengers then
      Outcome(Failure(PassengerNotFound(passengerId)), db, [PassengerRead(passengerId)])
    else
      var passenger := db.passengers[passengerId];
      if activityId !in db.activities then
        Outcome(Failure(ActivityNotFound(activityId)), db, [PassengerRead(passengerId), ActivityRead(activityId)])
      else
        var activity := db.activities[activityId];
        var lookups := [PassengerRead(passengerId), ActivityRead(activityId)];
        if activity.capacity <= 0 then
          Outcome(Failure(CapacityFull(activityId)), db, lookups)
        else
          var bookingCost := DiscountedCost(passenger, activity);
          if passenger.balance < bookingCost then
            Outcome(Failure(InsufficientBalance(activityId)), db, lookups)
          else
            var id := db.nextBookingId;
            var booking := Booking(id, passengerId, destinationId, activityId, PENDING);
            var passenger' := passenger.(balance := passenger.balance - bookingCost,
                                         bookingList := passenger.bookingList + [booking.bookingId]);
            var activity' := activity.(capacity := activity.capacity - 1);
            Outcome(
              Success(booking),
              Db(db.passengers[passenger'.passengerId := passenger'],
                 db.activities[activity'.activityId := activity'],
                 db.bookings[booking.bookingId := booking],
                 id + 1),
              lookups + [BookingIdGenerated(id), BookingSaved(booking), PassengerUpdated(passenger'),
                       ActivityUpdated(activity')])
  }

  /**
   * The CANCELLED branch of BookingService.updateBookingStatus, run after the booking's new status
   * is written: look up the booking's passenger and activity, credit the refund at the activity's
   * current cost, drop the booking from the passenger's list, and give the place back.
   */
  function Cancel(db: Db, booking: Booking): (o: Outcome<()>)
    requires Consistent(db)
    ensures o.db.bookings == db.bookings && o.db.nextBookingId == db.nextBookingId
    ensures booking.passengerId !in db.passengers ==>
              o.result == Failure(PassengerNotFound(booking.passengerId)) && o.db == db
    ensures booking.passengerId in db.passengers && booking.activityId !in db.activities ==>
              o.result == Failure(ActivityNotFound(booking.activityId)) && o.db == db
    ensures o.result.Failure? ==> o.db == db && NoWrites(o.calls)
    ensures o.result.Success? <==> booking.passengerId in db.passengers && booking.activityId in db.activities
    ensures o.result.Success? ==>
              var p := db.passengers[booking.passengerId];
              var a := db.activities[booking.activityId];
              && o.db.passengers == db.passengers[booking.passengerId := p.(
                   balance := p.balance + RefundAmount(p, a),
                   bookingList := RemoveFirst(p.bookingList, booking.bookingId))]
              && o.db.activities == db.activities[booking.activityId := a.(capacity := Increment(a.capacity))]
              && o.calls == [PassengerRead(booking.passengerId), ActivityRead(booking.activityId),
                             PassengerUpdated(o.db.passengers[booking.passengerId]),
                             ActivityUpdated(o.db.activities[booking.activityId])]
    ensures Consistent(o.db)
  {
    if booking.passengerId !in db.passengers then
      Outcome(Failure(PassengerNotFound(booking.passengerId)), db, [PassengerRead(booking.passengerId)])
    else
      var passenger := db.passengers[booking.passengerId];
      if booking.activityId !in db.activities then
        Outcome(Failure(ActivityNotFound(booking.activityId)), db,
                [PassengerRead(booking.passengerId), ActivityRead(booking.activityId)])
      else
        var activity := db.activities[booking.activityId];
        var refundAmount := RefundAmount(passenger, activity);
        var passenger' := passenger.(balance := passenger.balance + refundAmount,
                                     bookingList := RemoveFirst(passenger.bookingList, booking.bookingId));
        var activity' := activity.(capacity := Increment(activity.capacity));
        Outcome(
          Success(()),
          db.(passengers := db.passengers[passenger'.passengerId := passenger'],
              activities := db.activities[activity'.activityId := activity']),
          [PassengerRead(booking.passengerId), ActivityRead(booking.activityId),
           PassengerUpdated(passenger'), ActivityUpdated(activity')])
  }

  /**
   * BookingService.updateBookingStatus: look up the booking and write the new status; only for
   * CANCELLED, go on to refund and release the place. Nothing checks the previous status.
   */
  function UpdateStatus(db: Db, bookingId: int, newStatus: BookingStatus): (o: Outcome<()>)
    requires Consistent(db)
    ensures bookingId !in db.bookings ==>
              o.result == Failure(BookingNotFound(bookingId)) && o.db == db && o.calls == [BookingRead(bookingId)]
    // the new status is written whatever happens afterwards
    ensures bookingId in db.bookings ==>
              var b := db.bookings[bookingId].(bookingStatus := newStatus);
              && o.db.bookings == db.bookings[bookingId := b]
              && o.db.nextBookingId == db.nextBookingId
              && |o.calls| >= 2 && o.calls[..2] == [BookingRead(bookingId), BookingUpdated(b)]
    // any status but CANCELLED: passengers and activities are neither read nor changed
    ensures bookingId in db.bookings && newStatus != CANCELLED ==>
              && o.result.Success?
              && o.db.passengers == db.passengers && o.db.activities == db.activities
              && |o.calls| == 2
    ensures bookingId in db.bookings && newStatus == CANCELLED ==>
              var b := db.bookings[bookingId].(bookingStatus := newStatus);
              var c := Cancel(db.(bookings := db.bookings[bookingId := b]), b);
              o.result == c.result && o.db.passengers == c.db.passengers && o.db.activities == c.db.activities &&
              o.calls[2..] == c.calls
    ensures Consistent(o.db)
  {
    if bookingId !in db.bookings then
      Outcome(Failure(BookingNotFound(bookingId)), db, [BookingRead(bookingId)])
    else
      var booking := db.bookings[bookingId].(bookingStatus := newStatus);
      var db1 := db.(bookings := db.bookings[booking.bookingId := booking]);
      var calls1 := [BookingRead(bookingId), BookingUpdated(booking)];
      if newStatus != CANCELLED then
        Outcome(Success(()), db1, calls1)
      else
        var c := Cancel(db1, booking);
        Outcome(c.result, c.db, calls1 + c.calls)
  }

  /** BookingService.getBookingDetails: the stored booking, unchanged, or BookingNotFound. */
  function Lookup(db: Db, bookingId: int): (r: Result<Booking, BookingError>)
    ensures r.Success? <==> bookingId in db.bookings
    ensures r.Success? ==> r.value == db.bookings[bookingId]
    ensures Consistent(db) && r.Success? ==> r.value.bookingId == bookingId
    ensures r.Failure? ==> r.error == BookingNotFound(bookingId)
  {
    if bookingId in db.bookings then Success(db.bookings[bookingId]) else Failure(BookingNotFound(bookingId))
  }
}
