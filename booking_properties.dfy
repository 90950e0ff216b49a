/**
 * Properties that relate several booking operations, and the service's test scenarios
 * restated over the model.
 */
module BookingProperties {
  import opened Wrappers
  import opened Models
  import opened Pricing
  import opened Orchestration

  /**
   * Cancelling a booking straight after creating it gives the passenger and the activity back
   * exactly as they were: the refund equals the charge, the booking leaves the list it was
   * appended to, and the place taken is returned. The booking itself stays, as CANCELLED.
   */
  lemma CreateThenCancelRestores(db: Db, passengerId: int, activityId: int, destinationId: int)
    requires Consistent(db)
    requires Create(db, passengerId, activityId, destinationId).result.Success?
    ensures var c := Create(db, passengerId, activityId, destinationId);
            var b := c.result.value;
            var u := UpdateStatus(c.db, b.bookingId, CANCELLED);
            && u.result == Success(())
            && u.db.passengers == db.passengers
            && u.db.activities == db.activities
            && u.db.bookings == db.bookings[b.bookingId := b.(bookingStatus := CANCELLED)]
            && u.db.nextBookingId == db.nextBookingId + 1
  {
    var c := Create(db, passengerId, activityId, destinationId);
    var b := c.result.value;
    var p, a := db.passengers[passengerId], db.activities[activityId];
    var p1, a1 := c.db.passengers[passengerId], c.db.activities[activityId];
    var b' := b.(bookingStatus := CANCELLED);
    var db1 := c.db.(bookings := c.db.bookings[b.bookingId := b']);
    var u := UpdateStatus(c.db, b.bookingId, CANCELLED);
    var k := Cancel(db1, b');
    assert b.bookingId !in p.bookingList by {
      assert AllStored(p.bookingList, db.bookings);
    }
    RemoveFirstAppended(p.bookingList, b.bookingId);
    ChargeDependsOnTierAndCost(p1, a1, p, a);
    assert k.db.passengers[passengerId] == p;
    assert k.db.activities[activityId] == a;
    assert k.db.passengers == db.passengers;
    assert k.db.activities == db.activities;
  }

  /**
   * The refund is priced at the activity's cost when the booking is cancelled, not at the cost
   * that was charged: if the cost changes in between, the passenger ends up with the difference.
   */
  lemma RefundAtCurrentCost(db: Db, passengerId: int, activityId: int, destinationId: int, newCost: real)
    requires Consistent(db)
    requires Create(db, passengerId, activityId, destinationId).result.Success?
    ensures var c := Create(db, passengerId, activityId, destinationId);
            var b := c.result.value;
            var p, a := db.passengers[passengerId], db.activities[activityId];
            var repriced := c.db.(activities := c.db.activities[activityId := c.db.activities[activityId].(cost := newCost)]);
            && Consistent(repriced)
            && var u := UpdateStatus(repriced, b.bookingId, CANCELLED);
               && u.result == Success(())
               && u.db.passengers[passengerId].balance ==
                    p.balance - DiscountedCost(p, a) + DiscountedCost(p, a.(cost := newCost))
  {
    var c := Create(db, passengerId, activityId, destinationId);
    var p := db.passengers[passengerId];
    var a1 := c.db.activities[activityId];
    var repriced := c.db.(activities := c.db.activities[activityId := a1.(cost := newCost)]);
    assert Consistent(repriced);
    ChargeDependsOnTierAndCost(c.db.passengers[passengerId], a1.(cost := newCost), p, db.activities[activityId].(cost := newCost));
  }

  /**
   * Nothing checks a booking's previous status: cancelling the same booking twice refunds the
   * passenger twice and gives the activity two places back.
   */
  lemma CancelTwiceRefundsTwice(db: Db, bookingId: int)
    requires Consistent(db)
    requires bookingId in db.bookings
    requires db.bookings[bookingId].passengerId in db.passengers
    requires db.bookings[bookingId].activityId in db.activities
    ensures var b := db.bookings[bookingId];
            var p, a := db.passengers[b.passengerId], db.activities[b.activityId];
            var u1 := UpdateStatus(db, bookingId, CANCELLED);
            var u2 := UpdateStatus(u1.db, bookingId, CANCELLED);
            && u1.result.Success? && u2.result.Success?
            && u2.db.bookings == db.bookings[bookingId := b.(bookingStatus := CANCELLED)]
            && u2.db.passengers[b.passengerId].balance == p.balance + 2.0 * RefundAmount(p, a)
            && u2.db.passengers[b.passengerId].bookingList == RemoveFirst(RemoveFirst(p.bookingList, bookingId), bookingId)
            && u2.db.activities[b.activityId].capacity == Increment(Increment(a.capacity))
  {
    var b := db.bookings[bookingId];
    var p, a := db.passengers[b.passengerId], db.activities[b.activityId];
    var u1 := UpdateStatus(db, bookingId, CANCELLED);
    var b' := b.(bookingStatus := CANCELLED);
    assert u1.db.bookings[bookingId] == b';
    var p1, a1 := u1.db.passengers[b.passengerId], u1.db.activities[b.activityId];
    assert p1.balance == p.balance + RefundAmount(p, a);
    assert a1.capacity == Increment(a.capacity);
    ChargeDependsOnTierAndCost(p1, a1, p, a);
  }

  // The service's test scenarios: passenger 1, activity 2 at cost 100, booking ids from 101.

  function TestPassenger(passengerType: PassengerType, balance: real): Passenger {
    Passenger(1, "name", "1234", passengerType, balance, [])
  }

  function TestActivity(capacity: int32): Activity {
    Activity(2, "aName", "aDescription", 100.0, capacity, None)
  }

  function TestDb(passengerType: PassengerType, balance: real, capacity: int32): Db {
    Db(map[1 := TestPassenger(passengerType, balance)], map[2 := TestActivity(capacity)], map[], 101)
  }

  /** A STANDARD passenger with 500 books an activity of cost 100 with 5 places: 400 left, 4 places. */
  lemma CreateBookingScenario()
    ensures Consistent(TestDb(STANDARD, 500.0, 5))
    ensures var o := Create(TestDb(STANDARD, 500.0, 5), 1, 2, 3);
            var booking := Booking(101, 1, 3, 2, PENDING);
            && o.result == Success(booking)
            && o.db.passengers[1].balance == 400.0 && o.db.passengers[1].bookingList == [101]
            && o.db.activities[2].capacity == 4
            && o.db.bookings == map[101 := booking]
  {
  }

  /** Cancelling that booking brings the balance back to 500 and the places back to 5. */
  lemma CancelScenario()
    ensures Consistent(TestDb(STANDARD, 500.0, 5))
    ensures var c := Create(TestDb(STANDARD, 500.0, 5), 1, 2, 3);
            var u := UpdateStatus(c.db, 101, CANCELLED);
            && u.result == Success(())
            && u.db.passengers[1].balance == 500.0 && u.db.passengers[1].bookingList == []
            && u.db.activities[2].capacity == 5
  {
    CreateThenCancelRestores(TestDb(STANDARD, 500.0, 5), 1, 2, 3);
  }

  /** A GOLD passenger with 50 cannot afford 90: refused, and nothing is written. */
  lemma InsufficientBalanceScenario()
    ensures Consistent(TestDb(GOLD, 50.0, 5))
    ensures var o := Create(TestDb(GOLD, 50.0, 5), 1, 2, 3);
            o.result == Failure(InsufficientBalance(2)) && o.db == TestDb(GOLD, 50.0, 5) && NoWrites(o.calls)
  {
  }

  /** An activity with no places left is refused before the balance is looked at. */
  lemma FullCapacityScenario()
    ensures Consistent(TestDb(GOLD, 400.0, 0))
    ensures var o := Create(TestDb(GOLD, 400.0, 0), 1, 2, 3);
            o.result == Failure(CapacityFull(2)) && o.db == TestDb(GOLD, 400.0, 0) && NoWrites(o.calls)
  {
  }

  /** The stores with booking 101 of passenger 1 for activity 2, in the given status. */
  function BookedDb(status: BookingStatus): Db {
    Db(map[1 := TestPassenger(GOLD, 400.0)], map[2 := TestActivity(4)], map[101 := Booking(101, 1, 2, 2, status)], 102)
  }

  /** Cancelling an already CANCELLED booking still refunds (90 for GOLD) and frees a place. */
  lemma CancelledBookingScenario()
    ensures Consistent(BookedDb(CANCELLED))
    ensures var u := UpdateStatus(BookedDb(CANCELLED), 101, CANCELLED);
            && u.result == Success(())
            && u.db.passengers[1].balance == 490.0
            && u.db.activities[2].capacity == 5
            && |u.calls| == 6 && u.calls[2..4] == [PassengerRead(1), ActivityRead(2)]
  {
  }

  /** Any other status is written without reading a passenger or an activity. */
  lemma NonCancelledBookingScenario()
    ensures Consistent(BookedDb(CONFIRMED))
    ensures var u := UpdateStatus(BookedDb(CONFIRMED), 101, CONFIRMED);
            && u.result == Success(())
            && u.calls == [BookingRead(101), BookingUpdated(Booking(101, 1, 2, 2, CONFIRMED))]
  {
  }

  /** An unknown booking id is refused after the one lookup. */
  lemma BookingNotFoundScenario()
    ensures Consistent(TestDb(GOLD, 400.0, 4))
    ensures var u := UpdateStatus(TestDb(GOLD, 400.0, 4), 101, CANCELLED);
            u.result == Failure(BookingNotFound(101)) && u.calls == [BookingRead(101)]
  {
  }

  /** getBookingDetails returns the stored booking, or refuses an unknown id. */
  lemma BookingDetailsScenario()
    ensures Lookup(BookedDb(CONFIRMED), 101) == Success(Booking(101, 1, 2, 2, CONFIRMED))
    ensures Lookup(TestDb(GOLD, 400.0, 4), 101) == Failure(BookingNotFound(101))
  {
  }
}
