# Travel agency booking core, in Dafny

This project models two parts of a travel agency's back end.

First, the **booking orchestrator**, `BookingService`. It keeps three records in step:
- a passenger's balance and booking list;
- an activity's remaining capacity;
- a booking's status.

It covers creating a booking, changing a booking's status (cancellation refunds and frees a place), looking a booking up, and the pricing table (STANDARD pays the cost, GOLD 10% less, PREMIUM nothing; the refund uses the same table).

Second, the **row-folding loop of the travel-package lookup** in `TravelPackageDao.getById`. It folds the flat rows of one LEFT JOIN into one package. That package's destinations are de-duplicated, and each destination carries its activities.

Files:
- `wrappers.dfy`: `Option` (Java's `Optional` and `null`) and `Result` (a value, or the exception the source throws).
- `models.dfy`: the records as datatypes, and Java's 32-bit `int` for capacities, with an explicit wrap-around increment.
- `pricing.dfy`: the discounted charge and the refund.
- `orchestration.dfy`: the three service operations as functions over the store contents (`Db`). Each operation returns its result, the new contents and the ordered list of store calls it made (`Call`). `Consistent` is what the stores guarantee: every record sits under its own id, every booking id is below the id sequence's next value, and booking lists name stored bookings only.
- `service.dfy`: class `BookingService`. Its map fields are the stores and `calls` is the call log. Its methods run the source's steps one store call at a time. Each method is proved equal to the function in `orchestration.dfy`, for the result, the new store contents and the calls appended, and each keeps `Valid()`.
- `booking_properties.dfy`: properties that span several calls, such as create-then-cancel restoring the passenger and the activity, and the service's test scenarios restated over the model.
- `package_rows.dfy`: the join row, the fold `Fold`, and the loop `GetById`, which is proved equal to the fold. The fold takes as a parameter the activity list a newly built destination starts with. `None` is the source's behaviour: the list is left null and the first `add` to it fails. `Some([])` is the evident intent.
- `package_properties.dfy`: what the lookup guarantees, proved about the fold, and `PackageOf`, the corrected lookup.

## Model

| member | source | states |
|---|---|---|
| Models.Increment | src/main/java/com/travelagencies/services/BookingService.java:83 | the capacity increment is Java's 32-bit `+ 1`: two's-complement wrap at the top of the range, exact below it |
| Pricing.DiscountedCost | src/main/java/com/travelagencies/services/BookingService.java:93-103 | STANDARD is charged the cost, GOLD nine tenths of it, PREMIUM nothing; for a non-negative cost the charge lies between 0 and the cost |
| Pricing.RefundAmount | src/main/java/com/travelagencies/services/BookingService.java:105-114 | the refund equals the charge for every tier and cost |
| Pricing.ChargeDependsOnTierAndCost | src/main/java/com/travelagencies/services/BookingService.java:93-114 | the charge depends on the passenger only through its tier and on the activity only through its cost |
| Pricing.TiersOrdered | src/main/java/com/travelagencies/services/BookingService.java:93-103 | for a non-negative cost, PREMIUM pays no more than GOLD and GOLD no more than STANDARD |
| Orchestration.RemoveFirst | src/main/java/com/travelagencies/services/BookingService.java:79 | `List.remove` of a booking: an absent id leaves the list alone; a present one shortens it by one and leaves only ids that were there |
| Orchestration.RemoveFirstDropsOne | src/main/java/com/travelagencies/services/BookingService.java:79 | as multisets, the list after removal is the list before minus one occurrence of the id |
| Orchestration.RemoveFirstCutsFirstOccurrence | src/main/java/com/travelagencies/services/BookingService.java:79 | removal cuts out exactly the first position holding the id and keeps the rest in order |
| Orchestration.RemoveFirstAppended | src/main/java/com/travelagencies/services/BookingService.java:54-79 | removing an id that was just appended, and occurs nowhere else, gives back the list before the append |
| Orchestration.Create | src/main/java/com/travelagencies/services/BookingService.java:28-59 | a missing passenger, then a missing activity, then capacity <= 0, then balance < charge fail with that error, leave the stores unchanged and issue no write. Success happens exactly when all checks pass, and then: one new PENDING booking with a fresh id and the given passenger, activity and destination; the balance debited by exactly the charge; the id appended to the booking list; capacity down by exactly one; the writes in the order booking, passenger, activity; the stores still consistent |
| Orchestration.Cancel | src/main/java/com/travelagencies/services/BookingService.java:68-85 | a missing passenger or activity fails with no write and no change. Otherwise: the balance is credited by the refund at the activity's current cost, the booking is removed from the list, the capacity is incremented, the passenger is written before the activity, bookings are untouched, and the stores stay consistent |
| Orchestration.UpdateStatus | src/main/java/com/travelagencies/services/BookingService.java:61-86 | an unknown booking fails after the one read and changes nothing. Otherwise the new status is written first, whatever follows. Any status but CANCELLED succeeds without touching passengers or activities; CANCELLED continues as `Cancel` on the updated booking. The stores stay consistent |
| Orchestration.Lookup | src/main/java/com/travelagencies/services/BookingService.java:88-91 | succeeds exactly when the booking is stored, returning it unchanged and under its own id; otherwise fails with BookingNotFound |
| Service.BookingService.constructor | src/main/java/com/travelagencies/services/BookingService.java:22-26 | the service starts over consistent stores with an empty call log |
| Service.BookingService.GenerateBookingId | src/main/java/com/travelagencies/dao/BookingDao.java:140-158 | the id sequence hands out its next value, which no stored booking has, and advances |
| Service.BookingService.CreateBooking | src/main/java/com/travelagencies/services/BookingService.java:28-59 | the result, the new stores and the calls made are those of `Orchestration.Create`; the stores stay consistent |
| Service.BookingService.RecordBooking | src/main/java/com/travelagencies/services/BookingService.java:44-58 | once the checks pass: the sequence's id, a PENDING booking saved, the passenger debited with the id appended, the capacity decremented, the four store calls in source order |
| Service.BookingService.CancelBooking | src/main/java/com/travelagencies/services/BookingService.java:68-85 | the result, the new stores and the calls made are those of `Orchestration.Cancel` |
| Service.BookingService.UpdateBookingStatus | src/main/java/com/travelagencies/services/BookingService.java:61-86 | the result, the new stores and the calls made are those of `Orchestration.UpdateStatus` |
| Service.BookingService.GetBookingDetails | src/main/java/com/travelagencies/services/BookingService.java:88-91 | returns `Orchestration.Lookup` of the stores, changes no store and logs one read |
| BookingProperties.CreateThenCancelRestores | src/main/java/com/travelagencies/services/BookingService.java:44-85 | a successful create followed by cancelling that booking gives back exactly the original passengers and activities (balance, booking list, capacity); the booking stays, as CANCELLED |
| BookingProperties.RefundAtCurrentCost | src/main/java/com/travelagencies/services/BookingService.java:72-78 | if the activity's cost changes between create and cancel, the passenger's balance ends at the original balance minus the charge plus the refund at the new cost |
| BookingProperties.CancelTwiceRefundsTwice | src/main/java/com/travelagencies/services/BookingService.java:61-86 | nothing checks the prior status: cancelling a booking twice credits two refunds, increments the capacity twice and applies the list removal twice |
| BookingProperties.CreateBookingScenario | src/test/java/com/travelagencies/services/BookingServiceTest.java:39-63 | STANDARD with 500 books the activity of cost 100 with 5 places: booking 101 PENDING, balance 400, capacity 4 |
| BookingProperties.CancelScenario | src/main/java/com/travelagencies/services/BookingService.java:68-85 | cancelling that booking brings the balance back to 500, the list back to empty and the capacity back to 5 |
| BookingProperties.InsufficientBalanceScenario | src/test/java/com/travelagencies/services/BookingServiceTest.java:65-85 | GOLD with 50 cannot pay 90: InsufficientBalance, no write, stores unchanged |
| BookingProperties.FullCapacityScenario | src/test/java/com/travelagencies/services/BookingServiceTest.java:87-106 | no places left: CapacityFull, no write, stores unchanged |
| BookingProperties.CancelledBookingScenario | src/test/java/com/travelagencies/services/BookingServiceTest.java:108-131 | cancelling a CANCELLED booking still reads the passenger and activity, refunds 90 to GOLD and frees a place |
| BookingProperties.NonCancelledBookingScenario | src/test/java/com/travelagencies/services/BookingServiceTest.java:133-148 | a CONFIRMED update makes only the booking read and the booking write |
| BookingProperties.BookingNotFoundScenario | src/test/java/com/travelagencies/services/BookingServiceTest.java:150-162 | an unknown booking fails with BookingNotFound after only the booking read |
| BookingProperties.BookingDetailsScenario | src/test/java/com/travelagencies/services/BookingServiceTest.java:164-185 | the stored booking is returned as stored; an unknown id fails with BookingNotFound |
| PackageRows.FindIndex | src/main/java/com/travelagencies/dao/TravelPackageDao.java:148-150 | the first position with the id, or the list's length; it is below the length exactly when the id is listed |
| PackageRows.AttachActivity | src/main/java/com/travelagencies/dao/TravelPackageDao.java:177-182 | appends the activity to the first destination with the id and changes nothing else; no such destination leaves the list as it is; a null activity list there fails with NullActivities |
| PackageRows.StepRow | src/main/java/com/travelagencies/dao/TravelPackageDao.java:139-184 | one row changes only the package's destination list |
| PackageRows.Fold | src/main/java/com/travelagencies/dao/TravelPackageDao.java:124-189 | the fold yields no package exactly when there are no rows |
| PackageRows.FailureSticks | src/main/java/com/travelagencies/dao/TravelPackageDao.java:178-182 | an exception on some row ends the lookup with that error, whatever rows follow |
| PackageRows.GetById | src/main/java/com/travelagencies/dao/TravelPackageDao.java:124-189 | the loop, as written, returns exactly what the fold over the rows returns |
| PackageProperties.ActivitiesFor | src/main/java/com/travelagencies/dao/TravelPackageDao.java:162-182 | reference definition: the activities of the rows naming the destination, in row order; none when no row names it |
| PackageProperties.AttachKeepsLabels | src/main/java/com/travelagencies/dao/TravelPackageDao.java:177-182 | adding an activity keeps every destination's id and name in place |
| PackageProperties.StepLabels | src/main/java/com/travelagencies/dao/TravelPackageDao.java:139-159 | a row without a destination, or with a listed one, keeps the ids and names; a row with a new one appends its id and name; the list is null exactly while no row has named a destination |
| PackageProperties.FoldHeader | src/main/java/com/travelagencies/dao/TravelPackageDao.java:126-137 | the package has the queried id, and name, description and capacity taken from the first row |
| PackageProperties.FoldDestinationsNull | src/main/java/com/travelagencies/dao/TravelPackageDao.java:142-145 | the destination list stays null exactly when every row has destination id 0 |
| PackageProperties.FoldDestinationsCover | src/main/java/com/travelagencies/dao/TravelPackageDao.java:147-159 | every non-zero destination id of a row is listed |
| PackageProperties.FoldDestinationsFromRows | src/main/java/com/travelagencies/dao/TravelPackageDao.java:139-159 | every listed id is non-zero and is named by some row |
| PackageProperties.FoldDestinationsOrdered | src/main/java/com/travelagencies/dao/TravelPackageDao.java:147-159 | destinations appear in the order of their first row; each has the name from that first row |
| PackageProperties.DestinationIdsUnique | src/main/java/com/travelagencies/dao/TravelPackageDao.java:147-159 | no destination id is listed twice |
| PackageProperties.StepAsWritten | src/main/java/com/travelagencies/dao/TravelPackageDao.java:153-182 | as written, a row fails exactly when it has both a destination and an activity, and then with NullActivities of that destination; any other row keeps every activity list null |
| PackageProperties.AsWrittenFails | src/main/java/com/travelagencies/dao/TravelPackageDao.java:153-182 | as written, the lookup fails exactly when some row has both a destination and an activity, with that destination's error; on success every activity list is null |
| PackageProperties.CorrectedStep | src/main/java/com/travelagencies/dao/TravelPackageDao.java:162-182 | with empty starting lists, a row never fails and keeps each destination's list equal to the activities of its rows so far |
| PackageProperties.CorrectedFold | src/main/java/com/travelagencies/dao/TravelPackageDao.java:124-189 | with empty starting lists, the lookup never fails, and each destination carries exactly the activities of its rows, in row order |
| PackageProperties.PackageOf | src/main/java/com/travelagencies/dao/TravelPackageDao.java:124-189 | corrected lookup: no package exactly when there are no rows; otherwise the queried id and the first row's package columns, unique destination ids, and each destination with exactly its rows' activities |
| PackageProperties.GetByIdScenario | src/test/java/com/travelagencies/dao/TravelPackageDaoTest.java:76-108 | two rows naming destinations 1 and 2 give both, in order, with their names; no rows give no package |
| PackageProperties.NullActivitiesScenario | src/main/java/com/travelagencies/dao/TravelPackageDao.java:153-182 | one row with destination 1 and an activity: as written, NullActivities(1); corrected, destination 1 carrying that activity |

## Left out

- The JDBC layer is out: connections, SQL text, parameter binding and the swallowing of `SQLException`. The three DAOs are maps in the class, and the join's result set is a sequence of `Row` values.
- The id sequence (`BookingDao.generateBookingId`) is a counter, `nextBookingId`. It models a database sequence that never reuses an id. The `-1` the source returns when the insert fails with an SQL error is not modelled.
- Money is exact `real`. IEEE double rounding of `cost * 0.10` is out.
- Concurrent calls are out: each operation is one sequential step.
- The controllers and the other services are out. They only delegate.
- Lombok accessors and builders are datatype fields and updates. Strings are never null.
- Orchestration.Create: the source's `createBooking` returns nothing. The model returns the booking it saved, so its contents can be stated.
- Passenger.bookingList holds booking ids, not `Booking` objects. The passenger store persists only the ids and rebuilds the bookings from their rows, so `List.remove(booking)` removes the first entry with that booking's id.
- The updates of loaded objects in place (`setBalance`, `setCapacity`, `getBookingList().add`) become updated values written back through the store. Aliasing between a loaded object and the stored one is not modelled, since every update is written back at once.
- PackageRows.GetById builds the destination and activity lists as sequence values. It does not model the in-place `ArrayList` appends, or aliasing between the list that is searched and the one it is added to.
- The null-pointer exception during the lookup is the `NullActivities` failure, not an exception escaping the method.
- `Activity.destination` is never set by the lookup and stays `None`. The other columns of a row the loop never reads are not part of `Row`.
- The status lifecycle is not enforced: the code lets any status follow any other, including leaving CANCELLED, and the model follows the code.

## Findings

| source | as written | input that shows it | evidently intended | confidence | as-written member | corrected member |
|---|---|---|---|---|---|---|
| src/main/java/com/travelagencies/dao/TravelPackageDao.java:153-182 | a new destination is built without an activity list, so adding the row's activity to it throws a null-pointer exception | any row with a non-zero destination id and a non-zero activity id, e.g. destination 1 with activity 7 | each new destination starts with an empty activity list, and each destination ends with the activities of its rows | not executed | PackageProperties.AsWrittenFails | PackageProperties.PackageOf |
