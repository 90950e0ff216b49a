/**
 * BookingService as a class over in-memory stores. The three maps stand for the passenger,
 * activity and booking stores, `nextBookingId` for the booking-id sequence, and `calls` records
 * every store call in the order the service makes it.
 */
module Service {
  import opened Wrappers
  import opened Models
  import opened Pricing
  import opened Orchestration

  class BookingService {
    var passengers: map<int, Passenger>
    var activities: map<int, Activity>
    var bookings: map<int, Booking>
    var nextBookingId: int
    var calls: seq<Call>

    /** The contents of the stores. */
    function Contents(): Db
      reads this
    {
      Db(passengers, activities, bookings, nextBookingId)
    }

    predicate Valid()
      reads this
    {
      Consistent(Contents())
    }

    constructor (db: Db)
      requires Consistent(db)
      ensures Valid() && Contents() == db && calls == []
    {
      passengers, activities, bookings, nextBookingId := db.passengers, db.activities, db.bookings, db.nextBookingId;
      calls := [];
    }

    // The store calls the service makes.

    method LoadPassenger(id: int) returns (p: Option<Passenger>)
      modifies this`calls
      ensures calls == old(calls) + [PassengerRead(id)]
      ensures p == if id in passengers then Some(passengers[id]) else None
    {
      calls := calls + [PassengerRead(id)];
      p := if id in passengers then Some(passengers[id]) else None;
    }

    method LoadActivity(id: int) returns (a: Option<Activity>)
      modifies this`calls
      ensures calls == old(calls) + [ActivityRead(id)]
      ensures a == if id in activities then Some(activities[id]) else None
    {
      calls := calls + [ActivityRead(id)];
      a := if id in activities then Some(activities[id]) else None;
    }

    method LoadBooking(id: int) returns (b: Option<Booking>)
      modifies this`calls
      ensures calls == old(calls) + [BookingRead(id)]
      ensures b == if id in bookings then Some(bookings[id]) else None
    {
      calls := calls + [BookingRead(id)];
      b := if id in bookings then Some(bookings[id]) else None;
    }

    /** The booking-id sequence: hands out its next value, which no stored booking has. */
    method GenerateBookingId() returns (id: int)
      requires Valid()
      modifies this`nextBookingId, this`calls
      ensures id == old(nextBookingId) && nextBookingId == id + 1 && id !in bookings
      ensures calls == old(calls) + [BookingIdGenerated(id)]
    {
      id := nextBookingId;
      nextBookingId := nextBookingId + 1;
      calls := calls + [BookingIdGenerated(id)];
    }

    method SaveBooking(b: Booking)
      modifies this`bookings, this`calls
      ensures bookings == old(bookings)[b.bookingId := b]
      ensures calls == old(calls) + [BookingSaved(b)]
    {
      bookings := bookings[b.bookingId := b];
      calls := calls + [BookingSaved(b)];
    }

    method UpdateBooking(b: Booking)
      modifies this`bookings, this`calls
      ensures bookings == old(bookings)[b.bookingId := b]
      ensures calls == old(calls) + [BookingUpdated(b)]
    {
      bookings := bookings[b.bookingId := b];
      calls := calls + [BookingUpdated(b)];
    }

    method UpdatePassenger(p: Passenger)
      modifies this`passengers, this`calls
      ensures passengers == old(passengers)[p.passengerId := p]
      ensures calls == old(calls) + [PassengerUpdated(p)]
    {
      passengers := passengers[p.passengerId := p];
      calls := calls + [PassengerUpdated(p)];
    }

    method UpdateActivity(a: Activity)
      modifies this`activities, this`calls
      ensures activities == old(activities)[a.activityId := a]
      ensures calls == old(calls) + [ActivityUpdated(a)]
    {
      activities := activities[a.activityId := a];
      calls := calls + [ActivityUpdated(a)];
    }

    // The service's operations.

    method CreateBooking(passengerId: int, activityId: int, destinationId: int) returns (r: Result<Booking, BookingError>)
      requires Valid()
      modifies this
      ensures Valid()
      ensures var o := Create(old(Contents()), passengerId, activityId, destinationId);
              r == o.result && Contents() == o.db && calls == old(calls) + o.calls
    {
      var p := LoadPassenger(passengerId);
      if p.None? {
        return Failure(PassengerNotFound(passengerId));
      }
      var passenger := p.value;
      var a := LoadActivity(activityId);
      if a.None? {
        return Failure(ActivityNotFound(activityId));
      }
      var activity := a.value;
      if activity.capacity <= 0 {
        return Failure(CapacityFull(activityId));
      }
      var bookingCost := DiscountedCost(passenger, activity);
      if passenger.balance < bookingCost {
        return Failure(InsufficientBalance(activityId));
      }
      r := RecordBooking(passenger, activity, destinationId, bookingCost);
    }

    /** The write phase of createBooking, once every check has passed. */
    method RecordBooking(passenger: Passenger, activity: Activity, destinationId: int, bookingCost: real)
      returns (r: Result<Booking, BookingError>)
      requires Valid()
      requires passenger.passengerId in passengers && passengers[passenger.passengerId] == passenger
      requires activity.activityId in activities && activities[activity.activityId] == activity
      requires activity.capacity > 0
      modifies this
      ensures var id := old(nextBookingId);
              var booking := Booking(id, passenger.passengerId, destinationId, activity.activityId, PENDING);
              var passenger' := passenger.(balance := passenger.balance - bookingCost,
                                           bookingList := passenger.bookingList + [id]);
              var activity' := activity.(capacity := activity.capacity - 1);
              && r == Success(booking)
              && passengers == old(passengers)[passenger.passengerId := passenger']
              && activities == old(activities)[activity.activityId := activity']
              && bookings == old(bookings)[id := booking]
              && nextBookingId == id + 1
              && calls == old(calls) + [BookingIdGenerated(id), BookingSaved(booking),
                                        PassengerUpdated(passenger'), ActivityUpdated(activity')]
    {
      var id := GenerateBookingId();
      var booking := Booking(id, passenger.passengerId, destinationId, activity.activityId, PENDING);
      SaveBooking(booking);
      var passenger' := passenger.(balance := passenger.balance - bookingCost,
                                   bookingList := passenger.bookingList + [booking.bookingId]);
      UpdatePassenger(passenger');
      var activity' := activity.(capacity := activity.capacity - 1);
      UpdateActivity(activity');
      r := Success(booking);
    }

    /** The CANCELLED branch of updateBookingStatus, once the new status is written. */
    method CancelBooking(booking: Booking) returns (r: Result<(), BookingError>)
      requires Valid()
      modifies this
      ensures Valid()
      ensures var o := Cancel(old(Contents()), booking);
              r == o.result && Contents() == o.db && calls == old(calls) + o.calls
    {
      var p := LoadPassenger(booking.passengerId);
      if p.None? {
        r := Failure(PassengerNotFound(booking.passengerId));
      } else {
        var passenger := p.value;
        var a := LoadActivity(booking.activityId);
        if a.None? {
          r := Failure(ActivityNotFound(booking.activityId));
        } else {
          var activity := a.value;
          ghost var db := Contents();
          var refundAmount := RefundAmount(passenger, activity);

          passenger := passenger.(balance := passenger.balance + refundAmount,
                                  bookingList := RemoveFirst(passenger.bookingList, booking.bookingId));
          UpdatePassenger(passenger);

          activity := activity.(capacity := Increment(activity.capacity));
          UpdateActivity(activity);
          r := Success(());
          assert calls == old(calls) + [PassengerRead(booking.passengerId), ActivityRead(booking.activityId),
                                        PassengerUpdated(passenger), ActivityUpdated(activity)];
          assert Contents() == db.(passengers := db.passengers[passenger.passengerId := passenger],
                                   activities := db.activities[activity.activityId := activity]);
        }
      }
    }

    method UpdateBookingStatus(bookingId: int, newStatus: BookingStatus) returns (r: Result<(), BookingError>)
      requires Valid()
      modifies this
      ensures Valid()
      ensures var o := UpdateStatus(old(Contents()), bookingId, newStatus);
              r == o.result && Contents() == o.db && calls == old(calls) + o.calls
    {
      var b := LoadBooking(bookingId);
      if b.None? {
        return Failure(BookingNotFound(bookingId));
      }
      var booking := b.value.(bookingStatus := newStatus);
      UpdateBooking(booking);

      if newStatus == CANCELLED {
        r := CancelBooking(booking);
      } else {
        r := Success(());
      }
    }

    method GetBookingDetails(bookingId: int) returns (r: Result<Booking, BookingError>)
      requires Valid()
      modifies this`calls
      ensures r == Lookup(Contents(), bookingId)
      ensures calls == old(calls) + [BookingRead(bookingId)]
    {
      var b := LoadBooking(bookingId);
      if b.None? {
        return Failure(BookingNotFound(bookingId));
      }
      r := Success(b.value);
    }
  }
}
