/** A check-in followed through any sequence of stage handlers, and its single appearance on the worksheet. */
module Lifecycle {
  import opened Wrappers
  import opened Records
  import opened Checkin
  import opened Views
  import opened Mirror
  import opened Sync

  /** The stage inserts a new row with this (upper-cased) plate. */
  predicate ArrivesAs(stage: Stage, plate: string)
  {
    stage.Arrive? && Upper(stage.plateInput) == plate
  }

  /** The stage stamps a load end on the rows with this (upper-cased) plate. */
  predicate FinishesAs(stage: Stage, plate: string)
  {
    stage.Finish? && Upper(stage.plateInput) == plate
  }

  /** A stage that inserts no new row with row `j`'s plate keeps `j` the last row of its plate. */
  lemma ApplyKeepsLast(rows: seq<Row>, stage: Stage, j: int)
    requires 0 <= j < |rows| && IsLastOfPlate(rows, j) && rows[j].plate.Some?
    requires !ArrivesAs(stage, rows[j].plate.value)
    ensures IsLastOfPlate(Apply(rows, stage), j)
  {
    var r := Apply(rows, stage);
    assert r[j].plate == rows[j].plate;
    forall k | j < k < |r|
      ensures r[k].plate != r[j].plate
    {
      if k < |rows| {
        assert r[k].plate == rows[k].plate;
      } else {
        assert r[k].plate == Some(Upper(stage.plateInput));
      }
    }
  }

  /** What one stage does to row `j`, when it inserts no new row with `j`'s plate: only the load times
      and the count can change; a load start leaves it stamped, and a load end with its plate stamps it. */
  lemma ApplyKeepsRow(rows: seq<Row>, stage: Stage, j: int)
    requires 0 <= j < |rows| && IsLastOfPlate(rows, j)
    requires rows[j].plate.Some? && rows[j].plate.value != ""
    requires !ArrivesAs(stage, rows[j].plate.value)
    ensures var r := Apply(rows, stage);
      && IsLastOfPlate(r, j)
      && r[j].(loadStart := rows[j].loadStart, loadEnd := rows[j].loadEnd, quantity := rows[j].quantity) == rows[j]
      && (rows[j].loadStart.Some? ==> r[j].loadStart.Some?)
      && (FinishesAs(stage, rows[j].plate.value) ==>
            r[j].loadEnd == Some(stage.stamp) && r[j].quantity == Some(stage.quantity))
      && (!FinishesAs(stage, rows[j].plate.value) ==>
            r[j].loadEnd == rows[j].loadEnd && r[j].quantity == rows[j].quantity)
  {
    ApplyKeepsLast(rows, stage, j);
    var plate := Upper(stage.plateInput);
    if plate != "" {
      match stage
      case Arrive(_, _, _, _) =>
        assert Apply(rows, stage)[j] == rows[j];
      case Start(_, stamp) =>
        assert Apply(rows, stage) == StampLoadStart(rows, plate, stamp);
      case Finish(_, quantity, stamp) =>
        assert Apply(rows, stage) == StampLoadEnd(rows, plate, stamp, quantity);
    }
  }

  /** The same through a whole sequence of stages, none of which inserts a row with `j`'s plate. */
  lemma {:induction false} ReplayKeepsRow(rows: seq<Row>, stages: seq<Stage>, j: int)
    requires 0 <= j < |rows| && IsLastOfPlate(rows, j)
    requires rows[j].plate.Some? && rows[j].plate.value != ""
    requires forall st :: st in stages ==> !ArrivesAs(st, rows[j].plate.value)
    ensures var r := Replay(rows, stages);
      && IsLastOfPlate(r, j)
      && r[j].(loadStart := rows[j].loadStart, loadEnd := rows[j].loadEnd, quantity := rows[j].quantity) == rows[j]
      && (rows[j].loadStart.Some? ==> r[j].loadStart.Some?)
      && ((forall st :: st in stages ==> !FinishesAs(st, rows[j].plate.value)) ==>
            r[j].loadEnd == rows[j].loadEnd && r[j].quantity == rows[j].quantity)
    decreases |stages|
  {
    if stages != [] {
      var first := Apply(rows, stages[0]);
      ApplyKeepsRow(rows, stages[0], j);
      assert forall st :: st in stages[1..] ==> st in stages;
      ReplayKeepsRow(first, stages[1..], j);
    }
  }

  /** The row of a completed check-in: inserted at position `|rows|`, followed by any stages that insert
      no second row with its plate, one load end with a positive count and then any stages that neither
      insert nor finish its plate. It stays the last row of its plate, with its load end and count. */
  lemma CompletedRow(rows: seq<Row>, arrive: Stage, before: seq<Stage>, finish: Stage, after: seq<Stage>)
    requires arrive.Arrive? && arrive.plateInput != ""
    requires finish.Finish? && Upper(finish.plateInput) == Upper(arrive.plateInput)
    requires forall st :: st in before ==> !ArrivesAs(st, Upper(arrive.plateInput))
    requires forall st :: st in after ==> !ArrivesAs(st, Upper(arrive.plateInput)) && !FinishesAs(st, Upper(arrive.plateInput))
    ensures var t := Replay(rows, [arrive] + before + [finish] + after);
      && |t| > |rows| && IsLastOfPlate(t, |rows|)
      && t[|rows|] == ArrivalRow(arrive.unit, arrive.nameInput, arrive.plateInput, arrive.stamp)
                        .(loadStart := t[|rows|].loadStart, loadEnd := Some(finish.stamp), quantity := Some(finish.quantity))
      && t[|rows|].loadStart.Some?
  {
    var plate := Upper(arrive.plateInput);
    var j := |rows|;
    var t0 := Apply(rows, arrive);
    assert t0 == rows + [ArrivalRow(arrive.unit, arrive.nameInput, arrive.plateInput, arrive.stamp)];
    assert Replay(rows, [arrive]) == t0 by {
      assert [arrive][1..] == [];
    }
    var t1 := Replay(t0, before);
    ReplayKeepsRow(t0, before, j);
    var t2 := Apply(t1, finish);
    ApplyKeepsRow(t1, finish, j);
    assert Replay(t1, [finish]) == t2 by {
      assert [finish][1..] == [];
    }
    ReplayKeepsRow(t2, after, j);
    ReplayAppend(rows, [arrive], before);
    ReplayAppend(rows, [arrive] + before, [finish]);
    ReplayAppend(rows, [arrive] + before + [finish], after);
  }

  /** End to end: a check-in whose arrival, with a non-empty plate, is followed by other drivers' stages,
      its own load start and load end (the plate typed in any case), and a positive count, is sent exactly
      once by a run in which every read succeeds, unless the sheet already holds its key, in which case it
      is not sent; a second run never sends it again. Stages after its load end may be anything but a new
      arrival or a new load end with its plate. */
  lemma CompletedCheckinMirroredOnce(rows: seq<Row>, unit: string, nameInput: string, plateInput: string,
                                     arrivalStamp: string, before: seq<Stage>, finishInput: string,
                                     quantity: nat, endStamp: string, after: seq<Stage>,
                                     sheet: Sheet, selection: string, failures2: set<nat>)
    requires plateInput != "" && quantity > 0
    requires Upper(finishInput) == Upper(plateInput)
    requires forall st :: st in before ==> !ArrivesAs(st, Upper(plateInput))
    requires forall st :: st in after ==> !ArrivesAs(st, Upper(plateInput)) && !FinishesAs(st, Upper(plateInput))
    requires sheet.header == FIXED_HEADER
    requires selection == ALL_UNITS || selection == unit
    ensures var t := Replay(rows, [Arrive(unit, nameInput, plateInput, arrivalStamp)] + before
                                  + [Finish(finishInput, quantity, endStamp)] + after);
      |t| > |rows| &&
      (var done := t[|rows|];
       && done.unit == Some(unit) && done.name == Some(Upper(nameInput)) && done.plate == Some(Upper(plateInput))
       && done.arrival == Some(arrivalStamp) && done.loadStart.Some?
       && done.loadEnd == Some(endStamp) && done.quantity == Some(quantity)
       && var view := FilterUnit(KeepLast(t), selection);
          var batch := Batch(Unsent(view, sheet, {}));
          && (!SheetHolds(sheet, done) ==> multiset(batch)[LineOf(done)] == 1)
          && (SheetHolds(sheet, done) ==> LineOf(done) !in batch)
          && LineOf(done) !in Batch(Unsent(view, Sheet(sheet.header, sheet.rows + batch), failures2)))
  {
    var arrive := Arrive(unit, nameInput, plateInput, arrivalStamp);
    var finish := Finish(finishInput, quantity, endStamp);
    CompletedRow(rows, arrive, before, finish, after);
    var t := Replay(rows, [arrive] + before + [finish] + after);
    var done := t[|rows|];
    assert Eligible(done);
    SelectedLastRowInView(t, |rows|, selection);
    var view := FilterUnit(KeepLast(t), selection);
    var m :| 0 <= m < |view| && view[m] == done;
    ViewWithSentOnce(view, m, sheet, failures2);
  }
}
