/** The pricing policy of the booking service: what a tier pays, and what it gets back. */
module Pricing {
  import opened Models

  /** What `passenger` is charged for `activity`: STANDARD pays the cost, GOLD 10% less, PREMIUM nothing. */
  function DiscountedCost(passenger: Passenger, activity: Activity): (charge: real)
    ensures passenger.passengerType == STANDARD ==> charge == activity.cost
    ensures passenger.passengerType == GOLD ==> charge == activity.cost * 9.0 / 10.0
    ensures passenger.passengerType == PREMIUM ==> charge == 0.0
    ensures activity.cost >= 0.0 ==> 0.0 <= charge <= activity.cost
  {
    if passenger.passengerType == STANDARD then
      activity.cost
    else if passenger.passengerType == GOLD then
      var discount := activity.cost * 0.10;
      activity.cost - discount
    else
      0.0
  }

  /** What `passenger` gets back when a booking of `activity` is cancelled: the same table as the charge. */
  function RefundAmount(passenger: Passenger, activity: Activity): (refund: real)
    ensures refund == DiscountedCost(passenger, activity)
  {
    if passenger.passengerType == STANDARD then
      activity.cost
    else if passenger.passengerType == GOLD then
      var discount := activity.cost * 0.10;
      activity.cost - discount
    else
      0.0
  }

  /** The charge depends on the passenger only through the tier and on the activity only through the cost. */
  lemma ChargeDependsOnTierAndCost(p1: Passenger, a1: Activity, p2: Passenger, a2: Activity)
    requires p1.passengerType == p2.passengerType && a1.cost == a2.cost
    ensures DiscountedCost(p1, a1) == DiscountedCost(p2, a2)
  {
  }

  /** For a non-negative cost, a higher tier never pays more: PREMIUM <= GOLD <= STANDARD. */
  lemma TiersOrdered(p: Passenger, a: Activity)
    requires a.cost >= 0.0
    ensures DiscountedCost(p.(passengerType := PREMIUM), a) <= DiscountedCost(p.(passengerType := GOLD), a)
    ensures DiscountedCost(p.(passengerType := GOLD), a) <= DiscountedCost(p.(passengerType := STANDARD), a)
  {
  }
}
