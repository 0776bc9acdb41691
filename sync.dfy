/** The "Visualização de Registros" page: per-plate view, unit filter, duplicate check against the
    worksheet (`registros`) and the batch append (`enviar_dados_em_batch`). */
module Sync {
  import opened Wrappers
  import opened Seqs
  import opened Records
  import opened Checkin
  import opened Views
  import opened Mirror

  /** A text field as sent to the sheet. */
  function TextCell(v: Option<string>): Option<Value>
  {
    match v
    case None => None
    case Some(s) => Some(Text(s))
  }

  /** A count field as sent to the sheet. */
  function NumberCell(v: Option<int>): Option<Value>
  {
    match v
    case None => None
    case Some(n) => Some(Number(n))
  }

  /** `linha_dados`: Unidade, Nome, Placa, Chegada CD, Início, Fim, Quantidade Remessas. */
  function LineOf(r: Row): (l: Line)
    ensures |l| == |FIXED_HEADER|
  {
    [TextCell(r.unit), TextCell(r.name), TextCell(r.plate), TextCell(r.arrival),
     TextCell(r.loadStart), TextCell(r.loadEnd), NumberCell(r.quantity)]
  }

  /** What a text field reads back as once appended: a blank cell reads as ''. */
  function ReadBack(v: Option<string>): Value
  {
    Text(v.GetOr(""))
  }

  /** The eligibility test of `enviar_dados_em_batch`: no null after Unidade (the empty string is not null)
      and a positive count. */
  predicate Eligible(r: Row)
  {
    && r.name.Some? && r.plate.Some? && r.arrival.Some? && r.loadStart.Some? && r.loadEnd.Some?
    && r.quantity.Some? && r.quantity.value > 0
  }

  /** The lines of some rows, in order. */
  function LinesOf(rows: seq<Row>): (ls: seq<Line>)
  {
    seq(|rows|, k requires 0 <= k < |rows| => LineOf(rows[k]))
  }

  /** `batch_requests`: the lines of the eligible rows, in order. */
  function Batch(data: seq<Row>): seq<Line>
  {
    LinesOf(Filter(data, Eligible))
  }

  /** The read that `dados_existentes` performs for the `i`-th candidate: each read may raise on its own. */
  function ReadAt(sheet: Sheet, failures: set<nat>, i: nat): SheetRead
  {
    if i in failures then ReadFailed else Read(sheet)
  }

  /** `dados_para_enviar`: the candidates, in order, that the existence check did not find. */
  function Unsent(view: seq<Row>, sheet: Sheet, failures: set<nat>): seq<Row>
  {
    if view == [] then []
    else
      var i := |view| - 1;
      Unsent(view[..i], sheet, failures) + (if AlreadyMirrored(ReadAt(sheet, failures, i), view[i]) then [] else [view[i]])
  }

  /** Lines determine rows: two rows with the same line are the same row. */
  lemma LineOfInjective(x: Row, y: Row)
    requires LineOf(x) == LineOf(y)
    ensures x == y
  {
    assert LineOf(x)[0] == LineOf(y)[0] && LineOf(x)[1] == LineOf(y)[1] && LineOf(x)[2] == LineOf(y)[2];
    assert LineOf(x)[3] == LineOf(y)[3] && LineOf(x)[4] == LineOf(y)[4] && LineOf(x)[5] == LineOf(y)[5];
    assert LineOf(x)[6] == LineOf(y)[6];
  }

  /** Appending a row's line and reading it back under the fixed header gives each key field under its own column. */
  lemma LineReadsBack(r: Row)
    ensures var rec := RecordOf(FIXED_HEADER, LineOf(r));
      && Lookup(rec, UNIT_COLUMN) == Some(ReadBack(r.unit))
      && Lookup(rec, NAME_COLUMN) == Some(ReadBack(r.name))
      && Lookup(rec, PLATE_COLUMN) == Some(ReadBack(r.plate))
  {
    FixedHeaderRoundTrip(LineOf(r));
    assert FIXED_HEADER[0] == UNIT_COLUMN && FIXED_HEADER[1] == NAME_COLUMN && FIXED_HEADER[2] == PLATE_COLUMN;
  }

  /** The same read-back for the three timestamps and the count: a missing count reads as ''. */
  lemma StagesReadBack(r: Row)
    ensures var rec := RecordOf(FIXED_HEADER, LineOf(r));
      && Lookup(rec, "Chegada CD") == Some(ReadBack(r.arrival))
      && Lookup(rec, "Início do Carregamento") == Some(ReadBack(r.loadStart))
      && Lookup(rec, "Fim do Carregamento") == Some(ReadBack(r.loadEnd))
      && Lookup(rec, "Quantidade Remessas") == Some(if r.quantity.Some? then Number(r.quantity.value) else Text(""))
  {
    FixedHeaderRoundTrip(LineOf(r));
    assert FIXED_HEADER[3] == "Chegada CD" && FIXED_HEADER[4] == "Início do Carregamento";
    assert FIXED_HEADER[5] == "Fim do Carregamento" && FIXED_HEADER[6] == "Quantidade Remessas";
  }

  /** A batch holds exactly the lines of the eligible rows it was built from. */
  lemma BatchMembers(data: seq<Row>, l: Line)
    ensures l in Batch(data) <==> exists x :: x in data && Eligible(x) && LineOf(x) == l
  {
    var f := Filter(data, Eligible);
    if l in Batch(data) {
      var k :| 0 <= k < |f| && LinesOf(f)[k] == l;
      assert f[k] in f;
    }
    if exists x :: x in data && Eligible(x) && LineOf(x) == l {
      var x :| x in data && Eligible(x) && LineOf(x) == l;
      assert x in f;
      var k :| 0 <= k < |f| && f[k] == x;
      assert LinesOf(f)[k] == l;
    }
  }

  /** A candidate is kept exactly when the existence check made for its position did not find it. */
  lemma {:induction false} UnsentMembers(view: seq<Row>, sheet: Sheet, failures: set<nat>, x: Row)
    ensures x in Unsent(view, sheet, failures) <==>
      exists i :: 0 <= i < |view| && view[i] == x && !AlreadyMirrored(ReadAt(sheet, failures, i), x)
  {
    if view != [] {
      var i := |view| - 1;
      var init := view[..i];
      UnsentMembers(init, sheet, failures, x);
      if exists j :: 0 <= j < |view| && view[j] == x && !AlreadyMirrored(ReadAt(sheet, failures, j), x) {
        var j :| 0 <= j < |view| && view[j] == x && !AlreadyMirrored(ReadAt(sheet, failures, j), x);
        if j < i {
          assert init[j] == x;
        }
      }
      if x in Unsent(init, sheet, failures) {
        var j :| 0 <= j < |init| && init[j] == x && !AlreadyMirrored(ReadAt(sheet, failures, j), x);
        assert view[j] == x;
      }
    }
  }

  /** No candidate whose key the sheet already holds is kept for sending, whichever reads fail. */
  lemma UnsentNeverHeld(view: seq<Row>, sheet: Sheet, failures: set<nat>, x: Row)
    requires x in Unsent(view, sheet, failures)
    ensures !SheetHolds(sheet, x)
  {
    UnsentMembers(view, sheet, failures, x);
    var i :| 0 <= i < |view| && view[i] == x && !AlreadyMirrored(ReadAt(sheet, failures, i), x);
    if SheetHolds(sheet, x) {
      HeldIsReported(sheet, x, i in failures);
    }
  }

  /** No row whose (Unidade, Nome, Placa) the sheet already holds is ever part of the batch. */
  lemma MirroredNeverSent(view: seq<Row>, sheet: Sheet, failures: set<nat>, x: Row)
    requires SheetHolds(sheet, x)
    ensures LineOf(x) !in Batch(Unsent(view, sheet, failures))
  {
    var u := Unsent(view, sheet, failures);
    if LineOf(x) in Batch(u) {
      BatchMembers(u, LineOf(x));
      var y :| y in u && Eligible(y) && LineOf(y) == LineOf(x);
      LineOfInjective(x, y);
      UnsentNeverHeld(view, sheet, failures, y);
    }
  }

  /** Appending never removes a key from the sheet. */
  lemma HeldAfterAppend(sheet: Sheet, batch: seq<Line>, x: Row)
    requires SheetHolds(sheet, x)
    ensures SheetHolds(Sheet(sheet.header, sheet.rows + batch), x)
  {
    var k :| 0 <= k < |sheet.rows| && MatchesKey(RecordOf(sheet.header, sheet.rows[k]), x);
    assert (sheet.rows + batch)[k] == sheet.rows[k];
  }

  /** Once an eligible row with a unit has been appended under the fixed header, the sheet holds its key. */
  lemma AppendedIsHeld(sheet: Sheet, batch: seq<Line>, x: Row)
    requires sheet.header == FIXED_HEADER
    requires LineOf(x) in batch && Eligible(x) && x.unit.Some?
    ensures SheetHolds(Sheet(sheet.header, sheet.rows + batch), x)
  {
    var rows := sheet.rows + batch;
    var k :| 0 <= k < |batch| && batch[k] == LineOf(x);
    assert rows[|sheet.rows| + k] == LineOf(x);
    LineReadsBack(x);
    assert UNIT_COLUMN in FIXED_HEADER && NAME_COLUMN in FIXED_HEADER && PLATE_COLUMN in FIXED_HEADER;
    assert MatchesKey(RecordOf(FIXED_HEADER, rows[|sheet.rows| + k]), x);
  }

  /** Idempotence: after the batch is appended, a second run over the same view sends none of the
      rows of that batch again (rows with a null Unidade excepted: their blank cell reads back as ''). */
  lemma SecondRunResendsNothing(view: seq<Row>, sheet: Sheet, failures1: set<nat>, failures2: set<nat>, x: Row)
    requires sheet.header == FIXED_HEADER
    requires LineOf(x) in Batch(Unsent(view, sheet, failures1)) && x.unit.Some?
    ensures LineOf(x) !in Batch(Unsent(view, Sheet(sheet.header, sheet.rows + Batch(Unsent(view, sheet, failures1))), failures2))
  {
    var batch := Batch(Unsent(view, sheet, failures1));
    BatchMembers(Unsent(view, sheet, failures1), LineOf(x));
    var y :| y in Unsent(view, sheet, failures1) && Eligible(y) && LineOf(y) == LineOf(x);
    LineOfInjective(x, y);
    AppendedIsHeld(sheet, batch, x);
    MirroredNeverSent(view, Sheet(sheet.header, sheet.rows + batch), failures2, x);
  }

  /** The eligibility test treats '' as present: a row whose load start was never stamped still passes. */
  lemma EmptyLoadStartIsEligible(unit: string, name: string, plate: string, arrival: string, loadEnd: string, quantity: nat)
    requires quantity > 0
    ensures Eligible(Row(Some(unit), Some(name), Some(plate), Some(arrival), Some(""), Some(loadEnd), Some(quantity)))
  {
  }

  /** An eligible row appended to the candidates adds its line at the end of the batch. */
  lemma BatchSnoc(data: seq<Row>, x: Row)
    requires Eligible(x)
    ensures Batch(data + [x]) == Batch(data) + [LineOf(x)]
  {
    BatchAppend(data, [x]);
    FilterSingleton(x, Eligible);
  }

  /** The lines of two row sequences, one after the other. */
  lemma LinesOfAppend(a: seq<Row>, b: seq<Row>)
    ensures LinesOf(a + b) == LinesOf(a) + LinesOf(b)
  {
    var ab := a + b;
    assert forall k :: 0 <= k < |a| ==> ab[k] == a[k];
    assert forall k :: 0 <= k < |b| ==> ab[|a| + k] == b[k];
  }

  /** The batch of a concatenation is the concatenation of the batches: batch order is candidate order. */
  lemma BatchAppend(a: seq<Row>, b: seq<Row>)
    ensures Batch(a + b) == Batch(a) + Batch(b)
  {
    FilterAppend(a, b, Eligible);
    LinesOfAppend(Filter(a, Eligible), Filter(b, Eligible));
  }

  /** When every read succeeds, the candidates of a concatenation are kept part by part. */
  lemma {:induction false} UnsentAppend(a: seq<Row>, b: seq<Row>, sheet: Sheet)
    ensures Unsent(a + b, sheet, {}) == Unsent(a, sheet, {}) + Unsent(b, sheet, {})
  {
    if b == [] {
      assert a + b == a;
    } else {
      var init := b[..|b| - 1];
      assert (a + b)[..|a + b| - 1] == a + init;
      assert (a + b)[|a + b| - 1] == b[|b| - 1];
      UnsentAppend(a, init, sheet);
    }
  }

  /** With every read succeeding, one candidate is kept exactly when a read of the sheet does not find it. */
  lemma UnsentSingleton(x: Row, sheet: Sheet)
    ensures Unsent([x], sheet, {}) == if AlreadyMirrored(Read(sheet), x) then [] else [x]
  {
    assert [x][..0] == [];
  }

  /** No candidate with another plate contributes the line of `done` to the batch. */
  lemma LineAbsent(rows: seq<Row>, sheet: Sheet, done: Row)
    requires forall y :: y in rows ==> y.plate != done.plate
    ensures LineOf(done) !in Batch(Unsent(rows, sheet, {}))
  {
    var u := Unsent(rows, sheet, {});
    if LineOf(done) in Batch(u) {
      BatchMembers(u, LineOf(done));
      var y :| y in u && Eligible(y) && LineOf(y) == LineOf(done);
      LineOfInjective(y, done);
      UnsentMembers(rows, sheet, {}, y);
    }
  }

  /** With every read succeeding, the batch of a view is the batch of the rows before position `m`,
      of the row at `m` and of the rows after it. */
  lemma BatchAround(view: seq<Row>, m: int, sheet: Sheet)
    requires 0 <= m < |view|
    ensures Batch(Unsent(view, sheet, {}))
         == Batch(Unsent(view[..m], sheet, {})) + Batch(Unsent([view[m]], sheet, {})) + Batch(Unsent(view[m + 1..], sheet, {}))
  {
    var pre, post := view[..m], view[m + 1..];
    assert view == (pre + [view[m]]) + post;
    UnsentAppend(pre + [view[m]], post, sheet);
    UnsentAppend(pre, [view[m]], sheet);
    var upre, udone, upost := Unsent(pre, sheet, {}), Unsent([view[m]], sheet, {}), Unsent(post, sheet, {});
    BatchAppend(upre + udone, upost);
    BatchAppend(upre, udone);
  }

  /** Under the fixed header, a lone eligible candidate is sent exactly when the sheet lacks its key. */
  lemma LoneCandidate(done: Row, sheet: Sheet)
    requires sheet.header == FIXED_HEADER && Eligible(done)
    ensures Batch(Unsent([done], sheet, {})) == if SheetHolds(sheet, done) then [] else [LineOf(done)]
  {
    assert UNIT_COLUMN in FIXED_HEADER && NAME_COLUMN in FIXED_HEADER && PLATE_COLUMN in FIXED_HEADER;
    ReadIsExact(sheet, done);
    UnsentSingleton(done, sheet);
    BatchSnoc([], done);
  }

  /** A first run in which every read succeeds sends the eligible `m`-th row of a view with distinct plates
      exactly once when the sheet lacks its key, and not at all when the sheet has it. */
  lemma FirstRunSendsOnce(view: seq<Row>, m: int, sheet: Sheet)
    requires sheet.header == FIXED_HEADER
    requires DistinctPlates(view) && 0 <= m < |view| && Eligible(view[m])
    ensures var batch := Batch(Unsent(view, sheet, {}));
      && (!SheetHolds(sheet, view[m]) ==> multiset(batch)[LineOf(view[m])] == 1)
      && (SheetHolds(sheet, view[m]) ==> LineOf(view[m]) !in batch)
  {
    var done := view[m];
    var l := LineOf(done);
    SplitAt(view, m);
    var pre, post := view[..m], view[m + 1..];
    assert forall y :: y in pre ==> y in pre + post;
    assert forall y :: y in post ==> y in pre + post;
    LineAbsent(pre, sheet, done);
    LineAbsent(post, sheet, done);
    BatchAround(view, m, sheet);
    LoneCandidate(done, sheet);
    var before, here, after := Batch(Unsent(pre, sheet, {})), Batch(Unsent([done], sheet, {})), Batch(Unsent(post, sheet, {}));
    assert multiset(before)[l] == 0 && multiset(after)[l] == 0;
    assert multiset(before + here + after)[l] == multiset(here)[l];
  }

  /** A view with distinct plates whose `m`-th row is eligible and has a unit sends that row exactly once
      when every read succeeds and the sheet lacks its key, never when the sheet has it, and never in a
      second run after the batch is appended. */
  lemma ViewWithSentOnce(view: seq<Row>, m: int, sheet: Sheet, failures2: set<nat>)
    requires sheet.header == FIXED_HEADER
    requires DistinctPlates(view) && 0 <= m < |view|
    requires Eligible(view[m]) && view[m].unit.Some?
    ensures var batch := Batch(Unsent(view, sheet, {}));
      && (!SheetHolds(sheet, view[m]) ==> multiset(batch)[LineOf(view[m])] == 1)
      && (SheetHolds(sheet, view[m]) ==> LineOf(view[m]) !in batch)
      && LineOf(view[m]) !in Batch(Unsent(view, Sheet(sheet.header, sheet.rows + batch), failures2))
  {
    var done := view[m];
    var batch := Batch(Unsent(view, sheet, {}));
    FirstRunSendsOnce(view, m, sheet);
    if SheetHolds(sheet, done) {
      HeldAfterAppend(sheet, batch, done);
    } else {
      assert LineOf(done) in multiset(batch);
      AppendedIsHeld(sheet, batch, done);
    }
    MirroredNeverSent(view, Sheet(sheet.header, sheet.rows + batch), failures2, done);
  }

  /** `for registro in df_registros.iterrows()`: collects the candidates the existence check did not find. */
  method CollectUnsent(view: seq<Row>, sheet: Sheet, failures: set<nat>) returns (toSend: seq<Row>)
    ensures toSend == Unsent(view, sheet, failures)
  {
    toSend := [];
    var i := 0;
    while i < |view|
      invariant 0 <= i <= |view|
      invariant toSend == Unsent(view[..i], sheet, failures)
    {
      if !AlreadyMirrored(ReadAt(sheet, failures, i), view[i]) {
        toSend := toSend + [view[i]];
      }
      assert view[..i + 1][..i] == view[..i];
      i := i + 1;
    }
    assert view[..|view|] == view;
  }

  /** `for registro in dados.iterrows()` of `enviar_dados_em_batch`: the lines of the eligible rows. */
  method BuildBatch(data: seq<Row>) returns (batch: seq<Line>)
    ensures batch == Batch(data)
  {
    batch := [];
    var i := 0;
    while i < |data|
      invariant 0 <= i <= |data|
      invariant batch == LinesOf(Filter(data[..i], Eligible))
    {
      var r := data[i];
      assert data[..i + 1][..i] == data[..i];
      if Eligible(r) {
        batch := batch + [LineOf(r)];
      }
      i := i + 1;
    }
    assert data[..|data|] == data;
  }

  /** `enviar_dados_em_batch`: appends the batch in one call, and only when it is non-empty. */
  method SendBatch(ws: Worksheet, data: seq<Row>) returns (batch: seq<Line>)
    modifies ws
    ensures batch == Batch(data)
    ensures ws.header == old(ws.header) && ws.rows == old(ws.rows) + batch
    ensures batch == [] ==> unchanged(ws)
  {
    batch := BuildBatch(data);
    if batch != [] {
      ws.AppendRows(batch);
    }
  }

  /** `registros`: reduce per plate, filter by unit, drop what the sheet already has, send the rest. */
  method ViewRecords(table: CheckinTable, ws: Worksheet, selection: string, failures: set<nat>) returns (sent: seq<Line>)
    modifies ws
    ensures sent == Batch(Unsent(FilterUnit(KeepLast(table.rows), selection), old(ws.Snapshot()), failures))
    ensures ws.header == old(ws.header) && ws.rows == old(ws.rows) + sent
  {
    var reduced := KeepLast(table.rows);
    if reduced == [] {
      return [];
    }
    var view := FilterUnit(reduced, selection);
    var toSend := CollectUnsent(view, ws.Snapshot(), failures);
    if toSend == [] {
      return [];
    }
    sent := SendBatch(ws, toSend);
  }
}
