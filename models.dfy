/** The records of the travel agency: passengers, activities, destinations, bookings, packages. */
module Models {
  import opened Wrappers

  /** Java's 32-bit `int`, used for capacities, which the orchestrator adds to. */
  newtype int32 = x: int | -0x8000_0000 <= x < 0x8000_0000

  const INT32_MAX: int32 := 0x7fff_ffff

  /** Java's `x + 1` on an `int`: two's-complement wrap-around at the top of the range. */
  function Increment(x: int32): (r: int32)
    ensures r as int == (x as int + 1 + 0x8000_0000) % 0x1_0000_0000 - 0x8000_0000
    ensures x < INT32_MAX ==> r as int == x as int + 1
  {
    if x == INT32_MAX then -0x8000_0000 else x + 1
  }

  /** The passenger tier; it decides the discount and the refund. */
  datatype PassengerType = STANDARD | GOLD | PREMIUM

  datatype BookingStatus = CONFIRMED | PENDING | CANCELLED

  /**
   * A passenger. The booking list holds booking ids: the passenger store keeps only the ids
   * of a passenger's bookings and rebuilds the list from the current booking records.
   */
  datatype Passenger = Passenger(
    passengerId: int,
    passengerName: string,
    passengerMobile: string,
    passengerType: PassengerType,
    balance: real,
    bookingList: seq<int>)

  /** An activity; `cost` is the undiscounted price, `capacity` the remaining places. */
  datatype Activity = Activity(
    activityId: int,
    name: string,
    description: string,
    cost: real,
    capacity: int32,
    destination: Option<Destination>)

  /** A destination; `activities` is `None` where the source leaves the list null. */
  datatype Destination = Destination(
    destinationId: int,
    name: string,
    activities: Option<seq<Activity>>)

  datatype Booking = Booking(
    bookingId: int,
    passengerId: int,
    destinationId: int,
    activityId: int,
    bookingStatus: BookingStatus)

  /** A travel package; `destinations` is `None` where the source leaves the list null. */
  datatype TravelPackage = TravelPackage(
    packageId: int,
    name: string,
    description: string,
    capacity: int32,
    destinations: Option<seq<Destination>>)
}
