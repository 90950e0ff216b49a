/**
 * What the row fold promises: the header comes from the first row, the destinations are the
 * distinct non-zero destination ids of the rows in order of first appearance, and activities
 * either end the fold (as written) or land on their own destination (with an empty list to
 * start from).
 */
module PackageProperties {
  import opened Wrappers
  import opened Models
  import opened PackageRows

  /** The position of the first row naming destination `d`, or `|rows|` when no row does. */
  function FirstIndex(rows: seq<Row>, d: int): (k: nat)
    ensures k <= |rows|
    ensures k < |rows| ==> rows[k].destinationId == d
    ensures forall i :: 0 <= i < k ==> rows[i].destinationId != d
  {
    if rows == [] then 0
    else if rows[0].destinationId == d then 0
    else 1 + FirstIndex(rows[1..], d)
  }

  lemma FirstIndexOfPrefix(rows: seq<Row>, n: nat, d: int)
    requires n <= |rows|
    ensures FirstIndex(rows[..n], d) == if FirstIndex(rows, d) < n then FirstIndex(rows, d) else n
  {
    assert forall i :: 0 <= i < n ==> rows[..n][i] == rows[i];
    if FirstIndex(rows, d) < n {
      assert rows[..n][FirstIndex(rows, d)].destinationId == d;
    }
  }

  /** The activities the rows carry for destination `d`, in row order. */
  function ActivitiesFor(rows: seq<Row>, d: int): (acts: seq<Activity>)
    ensures (forall k :: 0 <= k < |rows| ==> rows[k].destinationId != d) ==> acts == []
    decreases |rows|
  {
    if rows == [] then []
    else
      var last := rows[|rows| - 1];
      var init := rows[..|rows| - 1];
      assert forall k :: 0 <= k < |init| ==> init[k] == rows[k];
      ActivitiesFor(init, d) + (if last.destinationId == d && last.activityId != 0 then [RowActivity(last)] else [])
  }

  /** The names of the destinations, in list order. */
  function Names(ds: seq<Destination>): (names: seq<string>)
    ensures |names| == |ds| && forall k :: 0 <= k < |ds| ==> names[k] == ds[k].name
  {
    seq(|ds|, k requires 0 <= k < |ds| => ds[k].name)
  }

  lemma ActivitiesForAppend(init: seq<Row>, last: Row, d: int)
    ensures ActivitiesFor(init + [last], d) ==
            ActivitiesFor(init, d) + (if last.destinationId == d && last.activityId != 0 then [RowActivity(last)] else [])
  {
    assert (init + [last])[..|init|] == init;
  }

  /** Adding an activity changes no destination's id or name. */
  lemma AttachKeepsLabels(ds: seq<Destination>, id: int, a: Activity)
    requires AttachActivity(ds, id, a).Success?
    ensures var ds' := AttachActivity(ds, id, a).value;
            Ids(ds') == Ids(ds) && Names(ds') == Names(ds)
  {
  }

  /** One row of the fold: the last row applied to what the other rows built. */
  lemma FoldStep(id: int, rows: seq<Row>, initialActivities: Option<seq<Activity>>)
    requires rows != [] && Fold(id, rows, initialActivities).Success?
    ensures var init := rows[..|rows| - 1];
            var acc := Fold(id, init, initialActivities);
            && acc.Success?
            && (acc.value.None? <==> init == [])
            && var tp := if acc.value.None? then Header(id, rows[|rows| - 1]) else acc.value.value;
               StepRow(tp, rows[|rows| - 1], initialActivities) == Success(Fold(id, rows, initialActivities).value.value)
  {
  }

  /**
   * What a row does to the destination ids and names: nothing when it names no destination or
   * one already present, and otherwise it appends its destination.
   */
  lemma StepLabels(tp: TravelPackage, row: Row, initialActivities: Option<seq<Activity>>)
    requires StepRow(tp, row, initialActivities).Success?
    ensures var tp' := StepRow(tp, row, initialActivities).value;
            var ds, ds' := tp.destinations.GetOr([]), tp'.destinations.GetOr([]);
            var d := row.destinationId;
            && (tp'.destinations.None? <==> tp.destinations.None? && d == 0)
            && (d == 0 || d in Ids(ds) ==> Ids(ds') == Ids(ds) && Names(ds') == Names(ds))
            && (d != 0 && d !in Ids(ds) ==>
                  Ids(ds') == Ids(ds) + [d] && Names(ds') == Names(ds) + [row.destinationName])
  {
    var d := row.destinationId;
    if d != 0 {
      var ds := tp.destinations.GetOr([]);
      var ds1 := if d in Ids(ds) then ds else ds + [Destination(d, row.destinationName, initialActivities)];
      assert d !in Ids(ds) ==> Ids(ds1) == Ids(ds) + [d] && Names(ds1) == Names(ds) + [row.destinationName];
      if row.activityId != 0 {
        AttachKeepsLabels(ds1, d, RowActivity(row));
      }
    }
  }

  /** The package's id is the queried id; its name, description and capacity come from the first row. */
  lemma {:induction false} FoldHeader(id: int, rows: seq<Row>, initialActivities: Option<seq<Activity>>)
    requires rows != [] && Fold(id, rows, initialActivities).Success?
    ensures var acc := Fold(id, rows, initialActivities).value;
            && acc.Some?
            && acc.value.packageId == id
            && acc.value.name == rows[0].packageName
            && acc.value.description == rows[0].packageDescription
            && acc.value.capacity == rows[0].capacity
    decreases |rows|
  {
    var init := rows[..|rows| - 1];
    if init != [] {
      FoldHeader(id, init, initialActivities);
      assert init[0] == rows[0];
    }
  }

  /** The destination list stays null exactly when no row names a destination. */
  lemma {:induction false} FoldDestinationsNull(id: int, rows: seq<Row>, initialActivities: Option<seq<Activity>>)
    requires rows != [] && Fold(id, rows, initialActivities).Success?
    ensures Fold(id, rows, initialActivities).value.value.destinations.None? <==>
            forall k :: 0 <= k < |rows| ==> rows[k].destinationId == 0
    decreases |rows|
  {
    var init := rows[..|rows| - 1];
    var last := rows[|rows| - 1];
    assert forall k :: 0 <= k < |init| ==> init[k] == rows[k];
    FoldStep(id, rows, initialActivities);
    var acc := Fold(id, init, initialActivities).value;
    var tp0 := if acc.None? then Header(id, last) else acc.value;
    StepLabels(tp0, last, initialActivities);
    if init != [] {
      FoldDestinationsNull(id, init, initialActivities);
    }
  }

  /** Every destination a row names is in the list. */
  lemma {:induction false} FoldDestinationsCover(id: int, rows: seq<Row>, initialActivities: Option<seq<Activity>>)
    requires rows != [] && Fold(id, rows, initialActivities).Success?
    ensures var ids := Ids(Fold(id, rows, initialActivities).value.value.destinations.GetOr([]));
            forall k :: 0 <= k < |rows| && rows[k].destinationId != 0 ==> rows[k].destinationId in ids
    decreases |rows|
  {
    var init := rows[..|rows| - 1];
    var last := rows[|rows| - 1];
    FoldStep(id, rows, initialActivities);
    var acc := Fold(id, init, initialActivities).value;
    var tp0 := if acc.None? then Header(id, last) else acc.value;
    StepLabels(tp0, last, initialActivities);
    if init != [] {
      FoldDestinationsCover(id, init, initialActivities);
    }
    CoverStep(rows, Ids(tp0.destinations.GetOr([])), Ids(Fold(id, rows, initialActivities).value.value.destinations.GetOr([])));
  }

  lemma CoverStep(rows: seq<Row>, ids0: seq<int>, ids: seq<int>)
    requires rows != []
    requires var init := rows[..|rows| - 1];
             forall k :: 0 <= k < |init| && init[k].destinationId != 0 ==> init[k].destinationId in ids0
    requires var d := rows[|rows| - 1].destinationId;
             && (d == 0 || d in ids0 ==> ids == ids0)
             && (d != 0 && d !in ids0 ==> ids == ids0 + [d])
    ensures forall k :: 0 <= k < |rows| && rows[k].destinationId != 0 ==> rows[k].destinationId in ids
  {
    var init := rows[..|rows| - 1];
    forall k | 0 <= k < |rows| && rows[k].destinationId != 0
      ensures rows[k].destinationId in ids
    {
      if k < |init| {
        assert init[k] == rows[k];
      }
    }
  }

  /** Every destination in the list has a non-zero id that some row names. */
  lemma {:induction false} FoldDestinationsFromRows(id: int, rows: seq<Row>, initialActivities: Option<seq<Activity>>)
    requires rows != [] && Fold(id, rows, initialActivities).Success?
    ensures var ids := Ids(Fold(id, rows, initialActivities).value.value.destinations.GetOr([]));
            forall j :: 0 <= j < |ids| ==> ids[j] != 0 && FirstIndex(rows, ids[j]) < |rows|
    decreases |rows|
  {
    var init := rows[..|rows| - 1];
    var last := rows[|rows| - 1];
    FoldStep(id, rows, initialActivities);
    var acc := Fold(id, init, initialActivities).value;
    var tp0 := if acc.None? then Header(id, last) else acc.value;
    StepLabels(tp0, last, initialActivities);
    var ids0 := Ids(tp0.destinations.GetOr([]));
    if init != [] {
      FoldDestinationsFromRows(id, init, initialActivities);
    }
    forall j | 0 <= j < |ids0|
      ensures FirstIndex(rows, ids0[j]) < |init|
    {
      FirstIndexOfPrefix(rows, |init|, ids0[j]);
    }
  }

  /**
   * The destinations appear in the order in which the rows first name them, each with the
   * name from the first row that names it.
   */
  lemma {:induction false} FoldDestinationsOrdered(id: int, rows: seq<Row>, initialActivities: Option<seq<Activity>>)
    requires rows != [] && Fold(id, rows, initialActivities).Success?
    ensures var ds := Fold(id, rows, initialActivities).value.value.destinations.GetOr([]);
            var ids, names := Ids(ds), Names(ds);
            && (forall j :: 0 <= j < |ids| ==>
                  FirstIndex(rows, ids[j]) < |rows| && names[j] == rows[FirstIndex(rows, ids[j])].destinationName)
            && (forall i, j :: 0 <= i < j < |ids| ==> FirstIndex(rows, ids[i]) < FirstIndex(rows, ids[j]))
    decreases |rows|
  {
    var init := rows[..|rows| - 1];
    var last := rows[|rows| - 1];
    FoldStep(id, rows, initialActivities);
    var acc := Fold(id, init, initialActivities).value;
    var tp0 := if acc.None? then Header(id, last) else acc.value;
    StepLabels(tp0, last, initialActivities);
    if init != [] {
      FoldDestinationsOrdered(id, init, initialActivities);
      FoldDestinationsCover(id, init, initialActivities);
    }
    var ds0 := tp0.destinations.GetOr([]);
    var ds := Fold(id, rows, initialActivities).value.value.destinations.GetOr([]);
    OrderedStep(rows, Ids(ds0), Names(ds0), Ids(ds), Names(ds));
  }

  lemma OrderedStep(rows: seq<Row>, ids0: seq<int>, names0: seq<string>, ids: seq<int>, names: seq<string>)
    requires rows != [] && |names0| == |ids0|
    requires var init := rows[..|rows| - 1];
             && (forall k :: 0 <= k < |init| && init[k].destinationId != 0 ==> init[k].destinationId in ids0)
             && (forall j :: 0 <= j < |ids0| ==>
                   FirstIndex(init, ids0[j]) < |init| && names0[j] == init[FirstIndex(init, ids0[j])].destinationName)
             && (forall i, j :: 0 <= i < j < |ids0| ==> FirstIndex(init, ids0[i]) < FirstIndex(init, ids0[j]))
    requires var last := rows[|rows| - 1];
             var d := last.destinationId;
             && (d == 0 || d in ids0 ==> ids == ids0 && names == names0)
             && (d != 0 && d !in ids0 ==> ids == ids0 + [d] && names == names0 + [last.destinationName])
    ensures forall j :: 0 <= j < |ids| ==>
              FirstIndex(rows, ids[j]) < |rows| && names[j] == rows[FirstIndex(rows, ids[j])].destinationName
    ensures forall i, j :: 0 <= i < j < |ids| ==> FirstIndex(rows, ids[i]) < FirstIndex(rows, ids[j])
  {
    var init := rows[..|rows| - 1];
    var last := rows[|rows| - 1];
    forall j | 0 <= j < |ids0|
      ensures FirstIndex(rows, ids0[j]) == FirstIndex(init, ids0[j]) < |init|
      ensures names0[j] == rows[FirstIndex(rows, ids0[j])].destinationName
    {
      FirstIndexOfPrefix(rows, |init|, ids0[j]);
      assert init[FirstIndex(init, ids0[j])] == rows[FirstIndex(init, ids0[j])];
    }
    var d := last.destinationId;
    if d != 0 && d !in ids0 {
      forall k | 0 <= k < |init|
        ensures init[k].destinationId != d
      {
      }
      FirstIndexOfPrefix(rows, |init|, d);
      assert FirstIndex(rows, d) == |init|;
    }
  }

  /** No destination appears twice. */
  lemma DestinationIdsUnique(id: int, rows: seq<Row>, initialActivities: Option<seq<Activity>>)
    requires rows != [] && Fold(id, rows, initialActivities).Success?
    ensures var ids := Ids(Fold(id, rows, initialActivities).value.value.destinations.GetOr([]));
            forall i, j :: 0 <= i < j < |ids| ==> ids[i] != ids[j]
  {
    FoldDestinationsOrdered(id, rows, initialActivities);
  }

  /** As written, a row's activity is added to a null list; every other row keeps every list null. */
  lemma StepAsWritten(tp: TravelPackage, row: Row)
    requires var ds := tp.destinations.GetOr([]);
             forall j :: 0 <= j < |ds| ==> ds[j].activities.None?
    ensures var r := StepRow(tp, row, None);
            && (r.Failure? <==> row.destinationId != 0 && row.activityId != 0)
            && (r.Failure? ==> r.error == NullActivities(row.destinationId))
            && (r.Success? ==> var ds' := r.value.destinations.GetOr([]);
                               forall j :: 0 <= j < |ds'| ==> ds'[j].activities.None?)
  {
    var d := row.destinationId;
    if d != 0 {
      var ds := tp.destinations.GetOr([]);
      var ds1 := if d in Ids(ds) then ds else ds + [Destination(d, row.destinationName, None)];
      assert d in Ids(ds1) by {
        if d !in Ids(ds) {
          assert Ids(ds1)[|ds|] == d;
        }
      }
    }
  }

  /**
   * As written, the lookup fails exactly when some row carries both a destination and an
   * activity, naming that row's destination; when it succeeds every activity list is null.
   */
  lemma {:induction false} AsWrittenFails(id: int, rows: seq<Row>)
    ensures var r := Fold(id, rows, None);
            && (r.Failure? <==> exists k :: 0 <= k < |rows| && rows[k].destinationId != 0 && rows[k].activityId != 0)
            && (r.Failure? ==> exists k :: 0 <= k < |rows| && rows[k].destinationId != 0 && rows[k].activityId != 0
                                           && r.error == NullActivities(rows[k].destinationId))
            && (r.Success? && r.value.Some? ==> var ds := r.value.value.destinations.GetOr([]);
                                                 forall j :: 0 <= j < |ds| ==> ds[j].activities.None?)
    decreases |rows|
  {
    if rows != [] {
      var init := rows[..|rows| - 1];
      var last := rows[|rows| - 1];
      assert forall k :: 0 <= k < |init| ==> init[k] == rows[k];
      AsWrittenFails(id, init);
      var acc := Fold(id, init, None);
      if acc.Success? {
        var tp0 := if acc.value.None? then Header(id, last) else acc.value.value;
        StepAsWritten(tp0, last);
      }
    }
  }

  /** A row that adds no activity, or whose destination is not in the list, leaves every list as it was. */
  lemma GroupedUnchanged(ds: seq<Destination>, init: seq<Row>, last: Row)
    requires forall j :: 0 <= j < |ds| ==> ds[j].activities == Some(ActivitiesFor(init, ds[j].destinationId))
    requires last.activityId == 0 || forall j :: 0 <= j < |ds| ==> ds[j].destinationId != last.destinationId
    ensures forall j :: 0 <= j < |ds| ==> ds[j].activities == Some(ActivitiesFor(init + [last], ds[j].destinationId))
  {
    forall j | 0 <= j < |ds|
      ensures ds[j].activities == Some(ActivitiesFor(init + [last], ds[j].destinationId))
    {
      var x := ds[j].destinationId;
      ActivitiesForAppend(init, last, x);
      assert !(last.destinationId == x && last.activityId != 0);
      assert ActivitiesFor(init, x) + [] == ActivitiesFor(init, x);
    }
  }

  /** A row's activity added to the one destination with its id extends exactly that list. */
  lemma GroupedAfterAttach(ds: seq<Destination>, init: seq<Row>, last: Row, k: nat)
    requires k < |ds| && ds[k].destinationId == last.destinationId && last.activityId != 0
    requires forall j :: 0 <= j < |ds| && j != k ==> ds[j].destinationId != ds[k].destinationId
    requires forall j :: 0 <= j < |ds| ==> ds[j].activities == Some(ActivitiesFor(init, ds[j].destinationId))
    ensures var ds' := ds[k := ds[k].(activities := Some(ds[k].activities.value + [RowActivity(last)]))];
            forall j :: 0 <= j < |ds'| ==> ds'[j].activities == Some(ActivitiesFor(init + [last], ds'[j].destinationId))
  {
    var ds' := ds[k := ds[k].(activities := Some(ds[k].activities.value + [RowActivity(last)]))];
    forall j | 0 <= j < |ds'|
      ensures ds'[j].activities == Some(ActivitiesFor(init + [last], ds'[j].destinationId))
    {
      var x := ds'[j].destinationId;
      ActivitiesForAppend(init, last, x);
      if j == k {
        assert ds'[j].activities == Some(ActivitiesFor(init, x) + [RowActivity(last)]);
      } else {
        assert ds'[j] == ds[j] && x != last.destinationId;
        assert ActivitiesFor(init, x) + [] == ActivitiesFor(init, x);
      }
    }
  }

  /**
   * With every destination starting from an empty list, a row never fails, and its activity
   * joins exactly the destination it names.
   */
  lemma CorrectedStep(tp: TravelPackage, init: seq<Row>, last: Row)
    requires var ds := tp.destinations.GetOr([]);
             && (forall i, j :: 0 <= i < j < |ds| ==> Ids(ds)[i] != Ids(ds)[j])
             && (forall j :: 0 <= j < |ds| ==> Ids(ds)[j] != 0)
             && (forall j :: 0 <= j < |ds| ==> ds[j].activities == Some(ActivitiesFor(init, ds[j].destinationId)))
             && (last.destinationId != 0 && last.destinationId !in Ids(ds) ==> ActivitiesFor(init, last.destinationId) == [])
    ensures StepRow(tp, last, Some([])).Success?
    ensures var ds' := StepRow(tp, last, Some([])).value.destinations.GetOr([]);
            forall j :: 0 <= j < |ds'| ==> ds'[j].activities == Some(ActivitiesFor(init + [last], ds'[j].destinationId))
  {
    var ds := tp.destinations.GetOr([]);
    var d := last.destinationId;
    if d == 0 {
      forall j | 0 <= j < |ds|
        ensures ds[j].destinationId != d
      {
        assert Ids(ds)[j] == ds[j].destinationId;
      }
      GroupedUnchanged(ds, init, last);
    } else if d in Ids(ds) {
      if last.activityId == 0 {
        GroupedUnchanged(ds, init, last);
      } else {
        var k := FindIndex(ds, d);
        forall j | 0 <= j < |ds| && j != k
          ensures ds[j].destinationId != ds[k].destinationId
        {
          assert Ids(ds)[j] != Ids(ds)[k];
        }
        GroupedAfterAttach(ds, init, last, k);
      }
    } else {
      var ds1 := ds + [Destination(d, last.destinationName, Some([]))];
      assert Ids(ds1)[|ds|] == d;
      forall j | 0 <= j < |ds|
        ensures ds[j].destinationId != d
      {
        assert Ids(ds)[j] == ds[j].destinationId;
      }
      assert forall j :: 0 <= j < |ds1| ==> ds1[j].activities == Some(ActivitiesFor(init, ds1[j].destinationId));
      if last.activityId == 0 {
        GroupedUnchanged(ds1, init, last);
      } else {
        assert FindIndex(ds1, d) == |ds|;
        GroupedAfterAttach(ds1, init, last, |ds|);
      }
    }
  }

  /** A destination the fold did not list has no row, so no activity. */
  lemma AbsentHasNoActivities(id: int, rows: seq<Row>, initialActivities: Option<seq<Activity>>, d: int)
    requires rows != [] && Fold(id, rows, initialActivities).Success?
    ensures var ids := Ids(Fold(id, rows, initialActivities).value.value.destinations.GetOr([]));
            d != 0 && d !in ids ==> ActivitiesFor(rows, d) == []
  {
    FoldDestinationsCover(id, rows, initialActivities);
  }

  /**
   * The corrected lookup, where a destination starts from an empty activity list: it never
   * fails, and every destination carries exactly the activities of its rows, in row order.
   */
  lemma {:induction false} CorrectedFold(id: int, rows: seq<Row>)
    ensures Fold(id, rows, Some([])).Success?
    ensures rows != [] ==>
              var ds := Fold(id, rows, Some([])).value.value.destinations.GetOr([]);
              forall j :: 0 <= j < |ds| ==> ds[j].activities == Some(ActivitiesFor(rows, ds[j].destinationId))
    decreases |rows|
  {
    if rows != [] {
      var init := rows[..|rows| - 1];
      var last := rows[|rows| - 1];
      CorrectedFold(id, init);
      if init == [] {
        CorrectedStep(Header(id, last), init, last);
      } else {
        DestinationIdsUnique(id, init, Some([]));
        FoldDestinationsFromRows(id, init, Some([]));
        AbsentHasNoActivities(id, init, Some([]), last.destinationId);
        CorrectedStep(Fold(id, init, Some([])).value.value, init, last);
      }
      assert init + [last] == rows;
    }
  }

  /**
   * The lookup as evidently intended: each destination starts from an empty activity list.
   * No rows, no package; otherwise the package of the queried id with one entry per destination
   * the rows name, each carrying exactly the activities of its rows, in row order.
   */
  function PackageOf(id: int, rows: seq<Row>): (r: Option<TravelPackage>)
    ensures r.None? <==> rows == []
    ensures r.Some? ==>
              && r.value.packageId == id
              && r.value.name == rows[0].packageName
              && r.value.description == rows[0].packageDescription
              && r.value.capacity == rows[0].capacity
    ensures r.Some? ==>
              var ds := r.value.destinations.GetOr([]);
              && (forall i, j :: 0 <= i < j < |ds| ==> Ids(ds)[i] != Ids(ds)[j])
              && (forall j :: 0 <= j < |ds| ==> ds[j].activities == Some(ActivitiesFor(rows, ds[j].destinationId)))
  {
    CorrectedFold(id, rows);
    if rows == [] then None
    else
      FoldHeader(id, rows, Some([]));
      DestinationIdsUnique(id, rows, Some([]));
      Fold(id, rows, Some([])).value
  }

  /** Two rows naming destinations 1 and 2 and no activity give both destinations, in order; no rows give nothing. */
  lemma GetByIdScenario()
    ensures var rows := [Row("Package", "About", 10, 1, "Destination 1", 0, "", "", 0.0, 0),
                         Row("Package", "About", 10, 2, "Destination 2", 0, "", "", 0.0, 0)];
            Fold(1, rows, None) ==
              Success(Some(TravelPackage(1, "Package", "About", 10,
                Some([Destination(1, "Destination 1", None), Destination(2, "Destination 2", None)]))))
    ensures Fold(123, [], None) == Success(None)
  {
    var rows := [Row("Package", "About", 10, 1, "Destination 1", 0, "", "", 0.0, 0),
                 Row("Package", "About", 10, 2, "Destination 2", 0, "", "", 0.0, 0)];
    var first := [Destination(1, "Destination 1", None)];
    assert rows[..1][..0] == [];
    assert Ids([]) == [];
    var header := Header(1, rows[0]);
    var none: seq<Destination> := [];
    assert header.destinations.GetOr([]) == none && 1 !in Ids(none) && none + first == first;
    assert StepRow(header, rows[0], None) == Success(header.(destinations := Some(first)));
    assert Fold(1, rows[..1], None) == Success(Some(TravelPackage(1, "Package", "About", 10, Some(first))));
    assert Ids(first) == [1];
    var tp1 := header.(destinations := Some(first));
    assert 2 !in Ids(first);
    assert first + [Destination(2, "Destination 2", None)] ==
           [Destination(1, "Destination 1", None), Destination(2, "Destination 2", None)];
    assert StepRow(tp1, rows[1], None) == Success(tp1.(destinations := Some(first + [Destination(2, "Destination 2", None)])));
    assert rows[..|rows| - 1] == rows[..1];
  }

  /**
   * One row with destination 1 and activity 7: as written the lookup fails on the null
   * activity list, and the corrected lookup lists the activity under its destination.
   */
  lemma NullActivitiesScenario()
    ensures var row := Row("Package", "About", 10, 1, "Destination 1", 7, "Hike", "Uphill", 25.0, 4);
            && Fold(1, [row], None) == Failure(NullActivities(1))
            && PackageOf(1, [row]).value.destinations.GetOr([]) == [Destination(1, "Destination 1", Some([RowActivity(row)]))]
  {
    var row := Row("Package", "About", 10, 1, "Destination 1", 7, "Hike", "Uphill", 25.0, 4);
    var none: seq<Destination> := [];
    var empty: seq<Activity> := [];
    assert [row][..0] == [] && 1 !in Ids(none);
    var header := Header(1, row);
    var started := [Destination(1, "Destination 1", Some(empty))];
    assert header.destinations.GetOr([]) == none && none + started == started;
    assert FindIndex(started, 1) == 0 && empty + [RowActivity(row)] == [RowActivity(row)];
    var attached := [Destination(1, "Destination 1", Some([RowActivity(row)]))];
    assert started[0 := started[0].(activities := Some(empty + [RowActivity(row)]))] == attached;
    assert AttachActivity(started, 1, RowActivity(row)) == Success(attached);
    assert StepRow(header, row, Some([])) ==
           Success(header.(destinations := Some([Destination(1, "Destination 1", Some([RowActivity(row)]))])));
  }
}
