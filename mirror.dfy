/** The remote worksheet `db`, its `get_all_records` read and `dados_existentes`. */
module Mirror {
  import opened Wrappers
  import opened Records

  /** A cell value as the sheet returns it. */
  datatype Value = Text(s: string) | Number(n: int)

  /** One appended row, in column order; `None` is a Python `None`, written as a blank cell. */
  type Line = seq<Option<Value>>

  /** The worksheet's stored state: its header row and the data rows below it. */
  datatype Sheet = Sheet(header: seq<string>, rows: seq<Line>)

  /** The outcome of one full read: an exception, or `get_all_records` as a DataFrame (its column set and its rows). */
  datatype SheetRead = ReadFailed | Records(columns: set<string>, records: seq<map<string, Value>>)

  const UNIT_COLUMN := "Unidade"
  const NAME_COLUMN := "Nome"
  const PLATE_COLUMN := "Placa"

  /** The header row of `db`, in the order in which batch rows are appended. */
  const FIXED_HEADER: seq<string> := [UNIT_COLUMN, NAME_COLUMN, PLATE_COLUMN, "Chegada CD",
                                      "Início do Carregamento", "Fim do Carregamento", "Quantidade Remessas"]

  /** The value read back from column `k` of a stored row: blank and missing cells read as ''. */
  function Render(line: Line, k: nat): Value
  {
    if k < |line| && line[k].Some? then line[k].value else Text("")
  }

  /** The position of the last header cell named `c`. */
  function LastIndexOf(header: seq<string>, c: string): (k: nat)
    requires c in header
    ensures k < |header| && header[k] == c
    ensures forall j :: k < j < |header| ==> header[j] != c
  {
    if header[|header| - 1] == c then |header| - 1 else LastIndexOf(header[..|header| - 1], c)
  }

  /** One record of `get_all_records`: header names zipped with the row's cells (a repeated name keeps its last cell). */
  function RecordOf(header: seq<string>, line: Line): map<string, Value>
  {
    map c | c in header :: Render(line, LastIndexOf(header, c))
  }

  /** A successful full read of the sheet. */
  function Read(sheet: Sheet): SheetRead
  {
    Records(set c | c in sheet.header,
            seq(|sheet.rows|, k requires 0 <= k < |sheet.rows| => RecordOf(sheet.header, sheet.rows[k])))
  }

  /** The cell of a record under a column name, `None` when the record has no such column. */
  function Lookup(record: map<string, Value>, col: string): Option<Value>
  {
    if col in record then Some(record[col]) else None
  }

  /** `df[col] == value` for one record: NaN and a missing cell never equal anything, nor does a `None` candidate field. */
  predicate CellIs(record: map<string, Value>, col: string, v: Option<string>)
  {
    col in record && v.Some? && record[col] == Text(v.value)
  }

  /** The record carries the candidate's (Unidade, Nome, Placa). */
  predicate MatchesKey(record: map<string, Value>, c: Row)
  {
    CellIs(record, UNIT_COLUMN, c.unit) && CellIs(record, NAME_COLUMN, c.name) && CellIs(record, PLATE_COLUMN, c.plate)
  }

  /** `dados_existentes`: false on an empty sheet, true (fail closed) when the read raised or a
      key column is missing, otherwise whether some record carries the candidate's key. */
  predicate AlreadyMirrored(read: SheetRead, c: Row)
  {
    match read
    case ReadFailed => true
    case Records(columns, records) =>
      if |records| == 0 || columns == {} then false
      else if !(UNIT_COLUMN in columns && NAME_COLUMN in columns && PLATE_COLUMN in columns) then true
      else exists k :: 0 <= k < |records| && MatchesKey(records[k], c)
  }

  /** Some stored row of the sheet, read under the sheet's header, carries the candidate's key. */
  ghost predicate SheetHolds(sheet: Sheet, c: Row)
  {
    exists k :: 0 <= k < |sheet.rows| && MatchesKey(RecordOf(sheet.header, sheet.rows[k]), c)
  }

  /** Fail-closed: whatever the outcome of the read, a key the sheet holds is reported as existing. */
  lemma HeldIsReported(sheet: Sheet, c: Row, failed: bool)
    requires SheetHolds(sheet, c)
    ensures AlreadyMirrored(if failed then ReadFailed else Read(sheet), c)
  {
    if !failed {
      var k :| 0 <= k < |sheet.rows| && MatchesKey(RecordOf(sheet.header, sheet.rows[k]), c);
      var read := Read(sheet);
      assert read.records[k] == RecordOf(sheet.header, sheet.rows[k]);
      assert UNIT_COLUMN in RecordOf(sheet.header, sheet.rows[k]);
      assert UNIT_COLUMN in read.columns;
    }
  }

  /** When the header has the three key columns, a successful read reports exactly the keys the sheet holds. */
  lemma ReadIsExact(sheet: Sheet, c: Row)
    requires UNIT_COLUMN in sheet.header && NAME_COLUMN in sheet.header && PLATE_COLUMN in sheet.header
    ensures AlreadyMirrored(Read(sheet), c) <==> SheetHolds(sheet, c)
  {
    var read := Read(sheet);
    assert UNIT_COLUMN in read.columns && NAME_COLUMN in read.columns && PLATE_COLUMN in read.columns;
    if AlreadyMirrored(read, c) {
      var k :| 0 <= k < |read.records| && MatchesKey(read.records[k], c);
      assert read.records[k] == RecordOf(sheet.header, sheet.rows[k]);
    }
    if SheetHolds(sheet, c) {
      HeldIsReported(sheet, c, false);
    }
  }

  /** A read of a non-empty sheet whose header lacks a key column reports every candidate as existing. */
  lemma MissingColumnFailsClosed(sheet: Sheet, c: Row)
    requires |sheet.rows| > 0 && sheet.header != []
    requires !(UNIT_COLUMN in sheet.header && NAME_COLUMN in sheet.header && PLATE_COLUMN in sheet.header)
    ensures AlreadyMirrored(Read(sheet), c)
  {
    assert sheet.header[0] in Read(sheet).columns;
  }

  /** An empty sheet (no data rows) holds no key, and reading it succeeds with "not found". */
  lemma EmptySheetHoldsNothing(header: seq<string>, c: Row)
    ensures !AlreadyMirrored(Read(Sheet(header, [])), c)
    ensures !SheetHolds(Sheet(header, []), c)
  {
  }

  /** Appending under the fixed header and reading back returns each field under its column name. */
  lemma {:induction false} FixedHeaderRoundTrip(line: Line)
    ensures forall k :: 0 <= k < |FIXED_HEADER| ==> Lookup(RecordOf(FIXED_HEADER, line), FIXED_HEADER[k]) == Some(Render(line, k))
  {
    forall k | 0 <= k < |FIXED_HEADER|
      ensures Lookup(RecordOf(FIXED_HEADER, line), FIXED_HEADER[k]) == Some(Render(line, k))
    {
      assert FIXED_HEADER[k] in FIXED_HEADER;
      var j := LastIndexOf(FIXED_HEADER, FIXED_HEADER[k]);
      assert FIXED_HEADER[j] == FIXED_HEADER[k];
      FixedHeaderDistinct(j, k);
    }
  }

  /** The fixed header names no column twice. */
  lemma FixedHeaderDistinct(i: int, j: int)
    requires 0 <= i < |FIXED_HEADER| && 0 <= j < |FIXED_HEADER|
    requires FIXED_HEADER[i] == FIXED_HEADER[j]
    ensures i == j
  {
  }

  /** The worksheet as the program sees it: it only ever reads it and appends to it. */
  class Worksheet {
    var header: seq<string>
    var rows: seq<Line>

    constructor (header: seq<string>)
      ensures this.header == header && rows == []
    {
      this.header := header;
      rows := [];
    }

    /** The stored state as a value. */
    function Snapshot(): Sheet
      reads this
    {
      Sheet(header, rows)
    }

    /** `worksheet.append_rows(batch)`: the rows land, in order, below the existing ones. */
    method AppendRows(batch: seq<Line>)
      modifies this
      ensures header == old(header)
      ensures rows == old(rows) + batch
    {
      rows := rows + batch;
    }
  }
}
