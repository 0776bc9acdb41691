/** The three check-in stage handlers of `motoristas` and `salvar_database`, over the local table. */
module Checkin {
  import opened Wrappers
  import opened Records

  /** What a stage handler did: wrote to the table, or refused because the plate was empty. */
  datatype StageOutcome = Recorded | MissingPlate

  /** One press of "Check" on one of the three stage pages, with what was typed. */
  datatype Stage =
    | Arrive(unit: string, nameInput: string, plateInput: string, stamp: string)
    | Start(plateInput: string, stamp: string)
    | Finish(plateInput: string, quantity: nat, stamp: string)

  /** The row "Chegada CD" inserts: both load times '' and no shipments yet. */
  function ArrivalRow(unit: string, nameInput: string, plateInput: string, stamp: string): Row
  {
    Row(Some(unit), Some(Upper(nameInput)), Some(Upper(plateInput)), Some(stamp), Some(""), Some(""), Some(0))
  }

  /** The table after one stage handler. */
  function Apply(rows: seq<Row>, stage: Stage): (r: seq<Row>)
    ensures stage.plateInput == "" ==> r == rows
    ensures |r| == |rows| + (if stage.Arrive? && stage.plateInput != "" then 1 else 0)
    ensures forall i :: 0 <= i < |rows| ==>
      r[i].(loadStart := rows[i].loadStart, loadEnd := rows[i].loadEnd, quantity := rows[i].quantity) == rows[i]
    ensures |r| > |rows| ==> r[|rows|].plate == Some(Upper(stage.plateInput))
  {
    var plate := Upper(stage.plateInput);
    if plate == "" then rows
    else
      match stage
      case Arrive(unit, nameInput, plateInput, stamp) => rows + [ArrivalRow(unit, nameInput, plateInput, stamp)]
      case Start(_, stamp) => StampLoadStart(rows, plate, stamp)
      case Finish(_, quantity, stamp) => StampLoadEnd(rows, plate, stamp, quantity)
  }

  /** The table after a sequence of stage handlers, taken in order. */
  function Replay(rows: seq<Row>, stages: seq<Stage>): (r: seq<Row>)
    ensures |r| >= |rows|
    ensures forall i :: 0 <= i < |rows| ==> r[i].plate == rows[i].plate
    decreases |stages|
  {
    if stages == [] then rows else Replay(Apply(rows, stages[0]), stages[1..])
  }

  /** Replaying two sequences of stages one after the other is replaying their concatenation. */
  lemma {:induction false} ReplayAppend(rows: seq<Row>, a: seq<Stage>, b: seq<Stage>)
    ensures Replay(rows, a + b) == Replay(Replay(rows, a), b)
    decreases |a|
  {
    if a == [] {
      assert a + b == b;
    } else {
      assert (a + b)[0] == a[0] && (a + b)[1..] == a[1..] + b;
      ReplayAppend(Apply(rows, a[0]), a[1..], b);
    }
  }

  /** The `motoristas` table, kept in insertion (id) order. */
  class CheckinTable {
    var rows: seq<Row>

    constructor ()
      ensures rows == []
    {
      rows := [];
    }

    /** `salvar_database`: one INSERT; absent optional keys default to '' and 0. */
    method Insert(d: Draft)
      modifies this
      ensures rows == old(rows) + [Row(Some(d.unit), Some(d.name), Some(d.plate),
                                       Some(d.arrival.GetOr("")), Some(d.loadStart.GetOr("")),
                                       Some(d.loadEnd.GetOr("")), Some(d.quantity.GetOr(0)))]
    {
      var row := Row(Some(d.unit), Some(d.name), Some(d.plate),
                     Some(d.arrival.GetOr("")), Some(d.loadStart.GetOr("")),
                     Some(d.loadEnd.GetOr("")), Some(d.quantity.GetOr(0)));
      rows := rows + [row];
    }

    /** Stage "Chegada CD": always appends a new row, never updates one; nothing when the plate is empty. */
    method Arrival(unit: string, nameInput: string, plateInput: string, stamp: string) returns (outcome: StageOutcome)
      modifies this
      ensures rows == Apply(old(rows), Arrive(unit, nameInput, plateInput, stamp))
      ensures outcome == MissingPlate <==> plateInput == ""
      ensures outcome == MissingPlate ==> rows == old(rows)
      ensures outcome == Recorded ==>
        && |rows| == |old(rows)| + 1
        && rows[..|old(rows)|] == old(rows)
        && rows[|old(rows)|] == Row(Some(unit), Some(Upper(nameInput)), Some(Upper(plateInput)),
                                    Some(stamp), Some(""), Some(""), Some(0))
    {
      var name := Upper(nameInput);
      var plate := Upper(plateInput);
      if plate == "" {
        return MissingPlate;
      }
      Insert(Draft(unit, name, plate, Some(stamp), Some(""), Some(""), Some(0)));
      return Recorded;
    }

    /** Stage "Início do Carregamento": stamps the load start on every row with this plate. */
    method LoadStart(plateInput: string, stamp: string) returns (outcome: StageOutcome)
      modifies this
      ensures outcome == MissingPlate <==> plateInput == ""
      ensures outcome == MissingPlate ==> rows == old(rows)
      ensures outcome == Recorded ==> rows == StampLoadStart(old(rows), Upper(plateInput), stamp)
      ensures rows == Apply(old(rows), Start(plateInput, stamp))
    {
      var plate := Upper(plateInput);
      if plate == "" {
        return MissingPlate;
      }
      rows := StampLoadStart(rows, plate, stamp);
      return Recorded;
    }

    /** Stage "Fim do Carregamento": stamps the load end and the shipment count on every row with this plate. */
    method LoadEnd(plateInput: string, quantity: nat, stamp: string) returns (outcome: StageOutcome)
      modifies this
      ensures outcome == MissingPlate <==> plateInput == ""
      ensures outcome == MissingPlate ==> rows == old(rows)
      ensures outcome == Recorded ==> rows == StampLoadEnd(old(rows), Upper(plateInput), stamp, quantity)
      ensures rows == Apply(old(rows), Finish(plateInput, quantity, stamp))
    {
      var plate := Upper(plateInput);
      if plate == "" {
        return MissingPlate;
      }
      rows := StampLoadEnd(rows, plate, stamp, quantity);
      return Recorded;
    }
  }
}
