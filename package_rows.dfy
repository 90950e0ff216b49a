/**
 * The row-folding loop of the travel-package lookup. The lookup runs one LEFT JOIN of
 * packages, destinations and activities and folds its flat rows into one package whose
 * destinations are de-duplicated, each carrying its activities. A SQL NULL in an integer
 * column reads as 0, so a row with `destinationId == 0` has no destination and a row with
 * `activityId == 0` has no activity.
 */
module PackageRows {
  import opened Wrappers
  import opened Models

  /** One row of the join, for the queried package. */
  datatype Row = Row(
    packageName: string,
    packageDescription: string,
    capacity: int32,
    destinationId: int,
    destinationName: string,
    activityId: int,
    activityName: string,
    activityDescription: string,
    activityCost: real,
    activityCapacity: int32)

  /** Adding an activity to a destination whose activity list is null. */
  datatype FoldError = NullActivities(destinationId: int)

  /** The package built from the first row: the queried id, the row's package columns, no destinations. */
  function Header(id: int, row: Row): TravelPackage
  {
    TravelPackage(id, row.packageName, row.packageDescription, row.capacity, None)
  }

  /** The activity a row carries; the source does not set its destination. */
  function RowActivity(row: Row): Activity
  {
    Activity(row.activityId, row.activityName, row.activityDescription, row.activityCost, row.activityCapacity, None)
  }

  /** The ids of the destinations, in list order. */
  function Ids(ds: seq<Destination>): (ids: seq<int>)
    ensures |ids| == |ds| && forall k :: 0 <= k < |ds| ==> ids[k] == ds[k].destinationId
  {
    seq(|ds|, k requires 0 <= k < |ds| => ds[k].destinationId)
  }

  /** The position of the first destination with the given id, or `|ds|` when there is none. */
  function FindIndex(ds: seq<Destination>, id: int): (k: nat)
    ensures k <= |ds|
    ensures k < |ds| ==> ds[k].destinationId == id
    ensures forall i :: 0 <= i < k ==> ds[i].destinationId != id
    ensures k < |ds| <==> id in Ids(ds)
  {
    if ds == [] then 0
    else if ds[0].destinationId == id then 0
    else 1 + FindIndex(ds[1..], id)
  }

  /**
   * Adds the activity to the first destination with the given id; with no such destination
   * nothing changes, and when that destination's activity list is null the addition fails.
   */
  function AttachActivity(ds: seq<Destination>, id: int, a: Activity): (r: Result<seq<Destination>, FoldError>)
    ensures var k := FindIndex(ds, id);
            && (k == |ds| ==> r == Success(ds))
            && (k < |ds| && ds[k].activities.None? ==> r == Failure(NullActivities(id)))
            && (k < |ds| && ds[k].activities.Some? ==>
                  r == Success(ds[k := ds[k].(activities := Some(ds[k].activities.value + [a]))]))
  {
    if ds == [] then Success([])
    else if ds[0].destinationId == id then
      match ds[0].activities
      case None => Failure(NullActivities(id))
      case Some(acts) =>
        var d := ds[0].(activities := Some(acts + [a]));
        assert [d] + ds[1..] == ds[0 := d];
        Success([d] + ds[1..])
    else
      assert ds == [ds[0]] + ds[1..];
      match AttachActivity(ds[1..], id, a)
      case Failure(e) => Failure(e)
      case Success(rest) =>
        var k := FindIndex(ds[1..], id);
        if k < |ds[1..]| then
          ConsUpdate(ds[0], ds[1..], k, ds[1..][k].(activities := Some(ds[1..][k].activities.GetOr([]) + [a])));
          Success([ds[0]] + rest)
        else
          Success([ds[0]] + rest)
  }

  lemma ConsUpdate<T>(x: T, s: seq<T>, k: nat, v: T)
    requires k < |s|
    ensures [x] + s[k := v] == ([x] + s)[k + 1 := v]
  {
  }

  /**
   * What one row does to the package built so far. `initialActivities` is the activity list a
   * destination starts with when it is first built: `None` in the source, which leaves it null.
   */
  function StepRow(tp: TravelPackage, row: Row, initialActivities: Option<seq<Activity>>): (r: Result<TravelPackage, FoldError>)
    ensures r.Success? ==> r.value == tp.(destinations := r.value.destinations)
  {
    if row.destinationId == 0 then Success(tp)
    else
      var ds := tp.destinations.GetOr([]);
      var ds1 := if row.destinationId in Ids(ds) then ds
                 else ds + [Destination(row.destinationId, row.destinationName, initialActivities)];
      if row.activityId == 0 then Success(tp.(destinations := Some(ds1)))
      else
        match AttachActivity(ds1, row.destinationId, RowActivity(row))
        case Failure(e) => Failure(e)
        case Success(ds2) => Success(tp.(destinations := Some(ds2)))
  }

  /** The fold over the rows, one row at a time from the first; no rows, no package. */
  function Fold(id: int, rows: seq<Row>, initialActivities: Option<seq<Activity>>): (r: Result<Option<TravelPackage>, FoldError>)
    ensures r == Success(None) <==> rows == []
    decreases |rows|
  {
    if rows == [] then Success(None)
    else
      var last := rows[|rows| - 1];
      match Fold(id, rows[..|rows| - 1], initialActivities)
      case Failure(e) => Failure(e)
      case Success(acc) =>
        var tp := if acc.None? then Header(id, last) else acc.value;
        match StepRow(tp, last, initialActivities)
        case Failure(e) => Failure(e)
        case Success(tp') => Success(Some(tp'))
  }

  /** Once a prefix of the rows fails, the whole fold fails with the same error. */
  lemma {:induction false} FailureSticks(id: int, rows: seq<Row>, n: nat, initialActivities: Option<seq<Activity>>)
    requires n <= |rows|
    requires Fold(id, rows[..n], initialActivities).Failure?
    ensures Fold(id, rows, initialActivities) == Fold(id, rows[..n], initialActivities)
    decreases |rows|
  {
    if n < |rows| {
      var init := rows[..|rows| - 1];
      assert init[..n] == rows[..n];
      FailureSticks(id, init, n, initialActivities);
    } else {
      assert rows[..n] == rows;
    }
  }

  /**
   * The loop of the lookup: the package is built from the first row, and each row with a
   * destination adds that destination when it is new and then adds the row's activity to it.
   * A failure is the null-pointer exception that ends the lookup.
   */
  method GetById(id: int, rows: seq<Row>) returns (r: Result<Option<TravelPackage>, FoldError>)
    ensures r == Fold(id, rows, None)
  {
    var travelPackage: Option<TravelPackage> := None;
    var i := 0;
    while i < |rows|
      invariant 0 <= i <= |rows|
      invariant Fold(id, rows[..i], None) == Success(travelPackage)
    {
      var row := rows[i];
      assert rows[..i + 1][..i] == rows[..i];
      if travelPackage.None? {
        travelPackage := Some(Header(id, row));
      }
      if row.destinationId != 0 {
        var destinations := travelPackage.value.destinations.GetOr([]);
        if row.destinationId !in Ids(destinations) {
          destinations := destinations + [Destination(row.destinationId, row.destinationName, None)];
        }
        if row.activityId != 0 {
          var attached := AttachActivity(destinations, row.destinationId, RowActivity(row));
          if attached.Failure? {
            FailureSticks(id, rows, i + 1, None);
            return Failure(attached.error);
          }
          destinations := attached.value;
        }
        travelPackage := Some(travelPackage.value.(destinations := Some(destinations)));
      }
      i := i + 1;
    }
    assert rows[..i] == rows;
    r := Success(travelPackage);
  }
}
