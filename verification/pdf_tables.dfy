/** Clean-up of the raw tables a page yields (`PDFParser._process_tables`).
    A raw table is a list of rows of cells; a cell may be `None`. */
module PdfTables {
  import opened Wrappers
  import opened Strings
  import opened Values
  import opened DataModels
  import opened Seqs

  type RawRow = seq<Option<string>>
  type RawTable = seq<RawRow>

  /** `cell or ""`: `None` and the empty string both read as "". */
  function CellText(c: Option<string>): string
  {
    if c.Some? then c.value else ""
  }

  /** `cell or f"Column {j+1}"`. */
  function HeaderLabel(j: nat, c: Option<string>): string
  {
    if c.Some? && c.value != "" then c.value else "Column " + NatToString(j + 1)
  }

  /** `any(cell and cell.strip() for cell in row)`. */
  predicate HasContent(row: RawRow)
  {
    |row| > 0 && ((row[0].Some? && Strip(row[0].value) != "") || HasContent(row[1..]))
  }

  /** Some row of `rows` has content. */
  predicate AnyContent(rows: seq<RawRow>)
  {
    |rows| > 0 && (HasContent(rows[0]) || AnyContent(rows[1..]))
  }

  /** `[cell or "" for cell in row]`. */
  function Cells(row: RawRow): (r: seq<string>)
    ensures |r| == |row|
  {
    seq(|row|, j requires 0 <= j < |row| => CellText(row[j]))
  }

  /** The data rows that survive: those with a non-blank cell, cells defaulted to "". */
  function DataRows(rows: seq<RawRow>): (r: seq<seq<string>>)
    ensures |r| <= |rows|
    ensures (|r| > 0) <==> AnyContent(rows)
  {
    if |rows| == 0 then []
    else
      var rest := DataRows(rows[1..]);
      if HasContent(rows[0]) then [Cells(rows[0])] + rest
      else rest
  }

  /** The table is kept: at least two rows, and some data row with content. */
  predicate Keeps(t: RawTable)
  {
    |t| >= 2 && AnyContent(t[1..])
  }

  function TableTitle(i: nat, page: nat): string
  {
    "Table " + NatToString(i + 1) + " (Page " + NatToString(page) + ")"
  }

  /** The cleaned table built for raw table number `i` (0-based) of the page. */
  function Build(i: nat, t: RawTable, page: nat): Table
    requires |t| >= 1
  {
    Table(
      TableTitle(i, page),
      seq(|t[0]|, j requires 0 <= j < |t[0]| => HeaderLabel(j, t[0][j])),
      DataRows(t[1..]),
      page,
      map["table_index" := Int(i)])
  }

  /** Indices, from `start` on, of the raw tables that are kept, in order. */
  function KeptIndices(tables: seq<RawTable>, start: nat): (idx: seq<nat>)
    requires start <= |tables|
    ensures forall k :: 0 <= k < |idx| ==> start <= idx[k] < |tables| && Keeps(tables[idx[k]])
    ensures forall i :: start <= i < |tables| && Keeps(tables[i]) ==> i in idx
    ensures forall k1, k2 :: 0 <= k1 < k2 < |idx| ==> idx[k1] < idx[k2]
    decreases |tables| - start
  {
    if start == |tables| then []
    else if Keeps(tables[start]) then [start] + KeptIndices(tables, start + 1)
    else KeptIndices(tables, start + 1)
  }

  /** The source's loop over the page's tables from position `start`, with
      the per-table construction `build` as a parameter. */
  function ProcessFrom(tables: seq<RawTable>, start: nat, build: (nat, RawTable) --> Table): (r: seq<Table>)
    requires start <= |tables|
    requires forall i, t :: Keeps(t) ==> build.requires(i, t)
    ensures |r| == |KeptIndices(tables, start)|
    ensures forall k :: 0 <= k < |r| ==>
      var i := KeptIndices(tables, start)[k]; r[k] == build(i, tables[i])
    decreases |tables| - start
  {
    if start == |tables| then []
    else if Keeps(tables[start]) then [build(start, tables[start])] + ProcessFrom(tables, start + 1, build)
    else ProcessFrom(tables, start + 1, build)
  }

  /** `_process_tables(tables, page_number)`: the cleaned tables, one per kept
      raw table, in the page's order, each built from its own raw table. */
  function ProcessTables(tables: seq<RawTable>, page: nat): (r: seq<Table>)
    ensures |r| == |KeptIndices(tables, 0)|
    ensures forall k :: 0 <= k < |r| ==>
      var i := KeptIndices(tables, 0)[k]; r[k] == Build(i, tables[i], page)
  {
    ProcessFrom(tables, 0, (i: nat, t: RawTable) requires |t| >= 1 => Build(i, t, page))
  }

  /** What every emitted table looks like: its title and `table_index` name
      its raw position, headers default to "Column j+1", at least one data row
      survives and every surviving row has a non-blank cell. */
  lemma {:induction false} EmittedTableShape(tables: seq<RawTable>, page: nat, k: nat)
    requires k < |ProcessTables(tables, page)|
    ensures var t := ProcessTables(tables, page)[k];
            var i := KeptIndices(tables, 0)[k];
            && |tables[i]| >= 2
            && t.title == "Table " + NatToString(i + 1) + " (Page " + NatToString(page) + ")"
            && t.metadata == map["table_index" := Int(i)]
            && t.pageNumber == page
            && |t.headers| == |tables[i][0]|
            && (forall j :: 0 <= j < |t.headers| ==>
                  t.headers[j] == (if tables[i][0][j].Some? && tables[i][0][j].value != ""
                                   then tables[i][0][j].value else "Column " + NatToString(j + 1)))
            && |t.rows| >= 1
            && |t.rows| <= |tables[i]| - 1
  {
  }

  /** Position in `rows` of the raw row that became cleaned row `m`: that raw
      row has a non-blank cell, and the cleaned row is it with `None` read as "". */
  function DataRowSource(rows: seq<RawRow>, m: nat): (k: nat)
    requires m < |DataRows(rows)|
    ensures k < |rows| && HasContent(rows[k])
    ensures DataRows(rows)[m] == Cells(rows[k])
    decreases |rows|
  {
    if HasContent(rows[0]) && m == 0 then
      assert DataRows(rows)[0] == Cells(rows[0]) by { DataRowsCons(rows); }
      0
    else
      var m' := if HasContent(rows[0]) then m - 1 else m;
      assert m' < |DataRows(rows[1..])| && DataRows(rows)[m] == DataRows(rows[1..])[m'] by {
        DataRowsTail(rows, m);
      }
      var k := DataRowSource(rows[1..], m');
      assert HasContent(rows[k + 1]) && DataRows(rows)[m] == Cells(rows[k + 1]) by {
        assert rows[1..][k] == rows[k + 1];
      }
      k + 1
  }

  lemma DataRowsCons(rows: seq<RawRow>)
    requires |rows| > 0
    ensures HasContent(rows[0]) ==> DataRows(rows) == [Cells(rows[0])] + DataRows(rows[1..])
    ensures !HasContent(rows[0]) ==> DataRows(rows) == DataRows(rows[1..])
  {
  }

  /** Past the first raw row, cleaned row `m` is a cleaned row of the rest. */
  lemma DataRowsTail(rows: seq<RawRow>, m: nat)
    requires m < |DataRows(rows)| && |rows| > 0
    requires HasContent(rows[0]) ==> m > 0
    ensures var m' := if HasContent(rows[0]) then m - 1 else m;
      m' < |DataRows(rows[1..])| && DataRows(rows)[m] == DataRows(rows[1..])[m']
  {
    DataRowsCons(rows);
  }

  /** The cleaned rows are exactly the raw rows with content, in their order,
      each with `None` read as "": none is dropped and none invented. */
  lemma {:induction false} DataRowsAreContentRows(rows: seq<RawRow>)
    ensures var kept := Filter(rows, HasContent);
      |DataRows(rows)| == |kept| && forall m :: 0 <= m < |kept| ==> DataRows(rows)[m] == Cells(kept[m])
    decreases |rows|
  {
    if |rows| > 0 {
      DataRowsAreContentRows(rows[1..]);
      var kept := Filter(rows, HasContent);
      var rest := Filter(rows[1..], HasContent);
      if HasContent(rows[0]) {
        assert kept == [rows[0]] + rest;
        assert DataRows(rows) == [Cells(rows[0])] + DataRows(rows[1..]);
        forall m | 0 <= m < |kept| ensures DataRows(rows)[m] == Cells(kept[m]) {
          if m > 0 {
            assert kept[m] == rest[m - 1];
          }
        }
      } else {
        assert kept == rest;
      }
    }
  }

  /** A single-row table and a table whose data rows are all blank are dropped. */
  lemma DroppedTables(tables: seq<RawTable>, i: nat)
    requires i < |tables|
    requires |tables[i]| < 2 || !AnyContent(tables[i][1..])
    ensures i !in KeptIndices(tables, 0)
  {
  }
}
