/** `registros_sqlite`'s `drop_duplicates(subset='Placa', keep='last')` and the unit filter of `registros`. */
module Views {
  import opened Wrappers
  import opened Seqs
  import opened Records

  /** The selectbox entry that shows every unit. */
  const ALL_UNITS := "Todas"

  /** The test used to drop the rows a later row of the same plate supersedes. */
  function PlateIsNot(plate: Option<string>): Row -> bool
  {
    (r: Row) => r.plate != plate
  }

  /** Keeps, for each plate (NULL counts as one plate), only its last row, in table order:
      each row, taken in table order, supersedes the rows kept so far with its plate. */
  function KeepLast(rows: seq<Row>): (r: seq<Row>)
    ensures |r| <= |rows|
    ensures r == [] <==> rows == []
  {
    if rows == [] then []
    else
      var last := rows[|rows| - 1];
      Filter(KeepLast(rows[..|rows| - 1]), PlateIsNot(last.plate)) + [last]
  }

  /** Reference reading of `keep='last'`, position by position from the front: a row stays exactly
      when no later row carries its plate. */
  ghost function LastOfEachPlate(rows: seq<Row>): seq<Row>
  {
    if rows == [] then []
    else (if rows[0].plate in Plates(rows[1..]) then [] else [rows[0]]) + LastOfEachPlate(rows[1..])
  }

  /** No later row of the table carries the plate of row `j`. */
  ghost predicate IsLastOfPlate(rows: seq<Row>, j: int)
    requires 0 <= j < |rows|
  {
    forall k :: j < k < |rows| ==> rows[k].plate != rows[j].plate
  }

  /** No two rows share a plate. */
  ghost predicate DistinctPlates(rows: seq<Row>)
  {
    forall i, j :: 0 <= i < j < |rows| ==> rows[i].plate != rows[j].plate
  }

  /** Appending a row keeps an earlier row the last of its plate unless the new row has that plate. */
  lemma LastOfPlateSnoc(rows: seq<Row>, x: Row, j: int)
    requires 0 <= j < |rows|
    ensures IsLastOfPlate(rows + [x], j) <==> IsLastOfPlate(rows, j) && rows[j].plate != x.plate
  {
    var grown := rows + [x];
    assert grown[j] == rows[j] && grown[|rows|] == x;
    if IsLastOfPlate(rows, j) && rows[j].plate != x.plate {
      forall k | j < k < |grown| ensures grown[k].plate != grown[j].plate {
        if k < |rows| { assert grown[k] == rows[k]; }
      }
    }
    if IsLastOfPlate(grown, j) {
      forall k | j < k < |rows| ensures rows[k].plate != rows[j].plate {
        assert grown[k] == rows[k];
      }
    }
  }

  /** A row is kept exactly when it is the last row of the table with its plate. */
  lemma {:induction false} KeepLastMembers(rows: seq<Row>, x: Row)
    ensures x in KeepLast(rows) <==> exists j :: 0 <= j < |rows| && rows[j] == x && IsLastOfPlate(rows, j)
  {
    if rows != [] {
      var init, last := rows[..|rows| - 1], rows[|rows| - 1];
      assert rows == init + [last];
      KeepLastMembers(init, x);
      forall j | 0 <= j < |init|
        ensures IsLastOfPlate(rows, j) <==> IsLastOfPlate(init, j) && init[j].plate != last.plate
      {
        LastOfPlateSnoc(init, last, j);
      }
      assert IsLastOfPlate(rows, |rows| - 1);
      if x in KeepLast(rows) && x != last {
        var j :| 0 <= j < |init| && init[j] == x && IsLastOfPlate(init, j);
        assert rows[j] == x;
      }
      if exists j :: 0 <= j < |rows| && rows[j] == x && IsLastOfPlate(rows, j) {
        var j :| 0 <= j < |rows| && rows[j] == x && IsLastOfPlate(rows, j);
        if j < |init| {
          assert init[j] == x;
        }
      }
    }
  }

  /** The reduced table is a subsequence of the table: rows are only dropped, never reordered. */
  lemma {:induction false} KeepLastIsSubseq(rows: seq<Row>)
    ensures IsSubseq(KeepLast(rows), rows)
  {
    if rows == [] {
      EmptySubseq(rows);
    } else {
      var init, last := rows[..|rows| - 1], rows[|rows| - 1];
      assert rows == init + [last];
      var kept := KeepLast(init);
      KeepLastIsSubseq(init);
      FilterIsSubseq(kept, PlateIsNot(last.plate));
      SubseqTrans(Filter(kept, PlateIsNot(last.plate)), kept, init);
      SubseqSnoc(Filter(kept, PlateIsNot(last.plate)), init, last);
    }
  }

  /** A subsequence of a table with distinct plates has distinct plates. */
  lemma SubseqKeepsDistinctPlates(a: seq<Row>, b: seq<Row>)
    requires IsSubseq(a, b) && DistinctPlates(b)
    ensures DistinctPlates(a)
  {
    var idx: seq<nat> :| IsEmbedding(idx, a, b);
    forall i, j | 0 <= i < j < |a|
      ensures a[i].plate != a[j].plate
    {
      assert a[i] == b[idx[i]] && a[j] == b[idx[j]] && idx[i] < idx[j];
    }
  }

  /** The reduced table holds at most one row per plate. */
  lemma {:induction false} KeepLastDistinct(rows: seq<Row>)
    ensures DistinctPlates(KeepLast(rows))
  {
    if rows != [] {
      var init, last := rows[..|rows| - 1], rows[|rows| - 1];
      var kept := KeepLast(init);
      var p := PlateIsNot(last.plate);
      var f := Filter(kept, p);
      KeepLastDistinct(init);
      FilterIsSubseq(kept, p);
      SubseqKeepsDistinctPlates(f, kept);
      forall i | 0 <= i < |f|
        ensures f[i].plate != last.plate
      {
        assert f[i] in f;
      }
      var r := f + [last];
      forall i, j | 0 <= i < j < |r|
        ensures r[i].plate != r[j].plate
      {
        if j == |f| {
          assert r[i] == f[i];
        } else {
          assert r[i] == f[i] && r[j] == f[j];
        }
      }
    }
  }

  /** Dropping the rows of one plate removes exactly that plate. */
  lemma PlatesWithout(rows: seq<Row>, plate: Option<string>)
    ensures Plates(Filter(rows, PlateIsNot(plate))) == Plates(rows) - {plate}
  {
    var f := Filter(rows, PlateIsNot(plate));
    forall q | q in Plates(rows) - {plate}
      ensures q in Plates(f)
    {
      var r :| r in rows && r.plate == q;
      assert r in f;
    }
  }

  /** Every plate of the table survives the reduction, and no other plate appears. */
  lemma {:induction false} KeepLastPlates(rows: seq<Row>)
    ensures Plates(KeepLast(rows)) == Plates(rows)
  {
    if rows != [] {
      var init, last := rows[..|rows| - 1], rows[|rows| - 1];
      assert rows == init + [last];
      var kept := KeepLast(init);
      KeepLastPlates(init);
      PlatesWithout(kept, last.plate);
      PlatesAppend(Filter(kept, PlateIsNot(last.plate)), [last]);
      PlatesAppend(init, [last]);
      assert Plates([last]) == {last.plate};
    }
  }

  /** The reference reading of a table whose first row has a plate no later row carries. */
  lemma LastOfEachPlateKeepsHead(rows: seq<Row>)
    requires rows != [] && rows[0].plate !in Plates(rows[1..])
    ensures LastOfEachPlate(rows) == [rows[0]] + LastOfEachPlate(rows[1..])
  {
  }

  /** The reference reading of a table whose first row has a plate some later row carries. */
  lemma LastOfEachPlateDropsHead(rows: seq<Row>)
    requires rows != [] && rows[0].plate in Plates(rows[1..])
    ensures LastOfEachPlate(rows) == LastOfEachPlate(rows[1..])
  {
  }

  /** Extending the table by `x` extends the reference reading by `x`, after dropping the rows with `x`'s plate. */
  ghost predicate SnocHolds(rows: seq<Row>, x: Row)
  {
    LastOfEachPlate(rows + [x]) == Filter(LastOfEachPlate(rows), PlateIsNot(x.plate)) + [x]
  }

  /** Step case: the first row is superseded by a later row of the table. */
  lemma SnocHeadSuperseded(rows: seq<Row>, x: Row)
    requires rows != [] && rows[0].plate in Plates(rows[1..]) && SnocHolds(rows[1..], x)
    ensures SnocHolds(rows, x)
  {
    var grown := rows + [x];
    assert grown[0] == rows[0] && grown[1..] == rows[1..] + [x];
    PlatesAppend(rows[1..], [x]);
    LastOfEachPlateDropsHead(rows);
    LastOfEachPlateDropsHead(grown);
  }

  /** A plate neither in the table nor on the appended row is not in the extended table. */
  lemma PlateNotInSnoc(q: Option<string>, rows: seq<Row>, x: Row)
    requires q !in Plates(rows) && q != x.plate
    ensures q !in Plates(rows + [x])
  {
    PlatesAppend(rows, [x]);
    assert Plates([x]) == {x.plate};
  }

  /** Step case: the first row is superseded only by the appended row. */
  lemma SnocHeadMeetsLast(rows: seq<Row>, x: Row)
    requires rows != [] && rows[0].plate !in Plates(rows[1..]) && rows[0].plate == x.plate && SnocHolds(rows[1..], x)
    ensures SnocHolds(rows, x)
  {
    var p := PlateIsNot(x.plate);
    var head, rest := rows[0], rows[1..];
    var grown := rows + [x];
    assert grown[0] == head && grown[1..] == rest + [x];
    var back := Filter(LastOfEachPlate(rest), p);
    assert LastOfEachPlate(grown) == back + [x] by {
      assert x in rest + [x];
      LastOfEachPlateDropsHead(grown);
    }
    assert Filter(LastOfEachPlate(rows), p) == back by {
      LastOfEachPlateKeepsHead(rows);
      FilterAppend([head], LastOfEachPlate(rest), p);
      FilterSingleton(head, p);
    }
  }

  /** Step case: no later row, the appended one included, carries the first row's plate. */
  lemma SnocHeadKept(rows: seq<Row>, x: Row)
    requires rows != [] && rows[0].plate !in Plates(rows[1..]) && rows[0].plate != x.plate && SnocHolds(rows[1..], x)
    ensures SnocHolds(rows, x)
  {
    var p := PlateIsNot(x.plate);
    var head, rest := rows[0], rows[1..];
    var grown := rows + [x];
    assert grown[0] == head && grown[1..] == rest + [x];
    PlateNotInSnoc(head.plate, rest, x);
    var back := Filter(LastOfEachPlate(rest), p);
    assert LastOfEachPlate(grown) == [head] + (back + [x]) by {
      LastOfEachPlateKeepsHead(grown);
    }
    assert Filter(LastOfEachPlate(rows), p) == [head] + back by {
      LastOfEachPlateKeepsHead(rows);
      FilterAppend([head], LastOfEachPlate(rest), p);
      FilterSingleton(head, p);
    }
    assert [head] + (back + [x]) == ([head] + back) + [x];
  }

  /** The reference reading, extended by one row, drops the rows kept so far with that row's plate. */
  lemma {:induction false} LastOfEachPlateSnoc(rows: seq<Row>, x: Row)
    ensures LastOfEachPlate(rows + [x]) == Filter(LastOfEachPlate(rows), PlateIsNot(x.plate)) + [x]
  {
    if rows == [] {
      assert [x][1..] == [];
      LastOfEachPlateKeepsHead([x]);
    } else {
      LastOfEachPlateSnoc(rows[1..], x);
      if rows[0].plate in Plates(rows[1..]) {
        SnocHeadSuperseded(rows, x);
      } else if rows[0].plate == x.plate {
        SnocHeadMeetsLast(rows, x);
      } else {
        SnocHeadKept(rows, x);
      }
    }
  }

  /** The reduction computes exactly the reference reading: it fixes the reduced table, not just
      its members, even when two rows are equal values. */
  lemma {:induction false} KeepLastIsLastOfEachPlate(rows: seq<Row>)
    ensures KeepLast(rows) == LastOfEachPlate(rows)
  {
    if rows != [] {
      var init, last := rows[..|rows| - 1], rows[|rows| - 1];
      assert rows == init + [last];
      KeepLastIsLastOfEachPlate(init);
      LastOfEachPlateSnoc(init, last);
    }
  }

  /** The test behind `df_registros['Unidade'] == unidade_selecionada`. */
  function UnitIs(selection: string): Row -> bool
  {
    (r: Row) => r.unit == Some(selection)
  }

  /** The rows shown for a selected unit; "Todas" shows them all. */
  function FilterUnit(rows: seq<Row>, selection: string): (r: seq<Row>)
    ensures selection == ALL_UNITS ==> r == rows
    ensures selection != ALL_UNITS ==> forall x :: x in r <==> x in rows && x.unit == Some(selection)
  {
    if selection == ALL_UNITS then rows else Filter(rows, UnitIs(selection))
  }

  /** The unit filter keeps table order: filtering a concatenation filters each part. */
  lemma FilterUnitAppend(a: seq<Row>, b: seq<Row>, selection: string)
    ensures FilterUnit(a + b, selection) == FilterUnit(a, selection) + FilterUnit(b, selection)
  {
    FilterAppend(a, b, UnitIs(selection));
  }

  /** The unit filter only deletes rows. */
  lemma FilterUnitIsSubseq(rows: seq<Row>, selection: string)
    ensures IsSubseq(FilterUnit(rows, selection), rows)
  {
    if selection == ALL_UNITS {
      var idx := seq(|rows|, k requires 0 <= k < |rows| => k);
      assert IsEmbedding(idx, rows, rows);
    } else {
      FilterIsSubseq(rows, UnitIs(selection));
    }
  }

  /** The shown view has at most one row per plate. */
  lemma ViewDistinct(rows: seq<Row>, selection: string)
    ensures DistinctPlates(FilterUnit(KeepLast(rows), selection))
  {
    KeepLastDistinct(rows);
    FilterUnitIsSubseq(KeepLast(rows), selection);
    SubseqKeepsDistinctPlates(FilterUnit(KeepLast(rows), selection), KeepLast(rows));
  }

  /** A row of a table with distinct plates splits it into the rows before and after, none of which has its plate. */
  lemma SplitAt(rows: seq<Row>, m: int)
    requires DistinctPlates(rows) && 0 <= m < |rows|
    ensures rows == rows[..m] + [rows[m]] + rows[m + 1..]
    ensures forall y: Row :: y in rows[..m] + rows[m + 1..] ==> y.plate != rows[m].plate
  {
    assert rows == rows[..m] + [rows[m]] + rows[m + 1..];
    forall y: Row | y in rows[..m] + rows[m + 1..]
      ensures y.plate != rows[m].plate
    {
      if y in rows[..m] {
        var i :| 0 <= i < m && rows[..m][i] == y;
        assert rows[i] == y;
      } else {
        var i :| 0 <= i < |rows| - m - 1 && rows[m + 1..][i] == y;
        assert rows[m + 1 + i] == y;
      }
    }
  }

  /** The last row of a plate, when its unit is selected (or "Todas"), is in the shown view, and no
      other row of that view carries its plate. */
  lemma SelectedLastRowInView(rows: seq<Row>, j: int, selection: string)
    requires 0 <= j < |rows| && IsLastOfPlate(rows, j)
    requires selection == ALL_UNITS || rows[j].unit == Some(selection)
    ensures rows[j] in FilterUnit(KeepLast(rows), selection)
    ensures DistinctPlates(FilterUnit(KeepLast(rows), selection))
  {
    KeepLastMembers(rows, rows[j]);
    ViewDistinct(rows, selection);
  }
}
