/** Concrete calls of the tools, and what their contracts let a caller conclude
    from the specifications alone. */
module Scenarios {
  import opened Results
  import opened Address
  import opened Workbook
  import opened Format
  import opened Grid
  import opened Access
  import opened Tools
  import opened Registry

  /** The 4 x 4 sample table: a header row and three products with a formula each. */
  function SampleRows(): seq<seq<Value>> {
    [ [Text("商品名"), Text("価格"), Text("在庫"), Text("売上")],
      [Text("商品A"), Int(1000), Int(50), Text("=B2*C2")],
      [Text("商品B"), Int(1500), Int(30), Text("=B3*C3")],
      [Text("商品C"), Int(800), Int(75), Text("=B4*C4")] ]
  }

  function AsArgs(rows: seq<seq<Value>>): (args: seq<RowArg>)
    ensures |args| == |rows| && forall i :: 0 <= i < |rows| ==> args[i] == ListRow(rows[i])
  {
    seq(|rows|, i requires 0 <= i < |rows| => ListRow(rows[i]))
  }

  function Present(rows: seq<seq<Value>>): (grid: seq<seq<Option<Value>>>)
    ensures |grid| == |rows|
    ensures forall i :: 0 <= i < |rows| ==> |grid[i]| == |rows[i]|
    ensures forall i, j :: 0 <= i < |rows| && 0 <= j < |rows[i]| ==> grid[i][j] == Some(rows[i][j])
  {
    seq(|rows|, i requires 0 <= i < |rows| => seq(|rows[i]|, j requires 0 <= j < |rows[i]| => Some(rows[i][j])))
  }

  /** A grid that holds `Some(rows[i][j])` at every position of `rows` is `Present(rows)`. */
  lemma PresentOf(grid: seq<seq<Option<Value>>>, rows: seq<seq<Value>>)
    requires |grid| == |rows| && forall i :: 0 <= i < |rows| ==> |grid[i]| == |rows[i]|
    requires forall i, j :: 0 <= i < |rows| && 0 <= j < |rows[i]| ==> grid[i][j] == Some(rows[i][j])
    ensures grid == Present(rows)
  {
    var want := Present(rows);
    forall i | 0 <= i < |rows| ensures grid[i] == want[i] {
      assert forall j :: 0 <= j < |rows[i]| ==> grid[i][j] == want[i][j];
    }
  }

  lemma SampleAddresses()
    ensures ValidCell("A3") && ParseCell("A3") == Coord(3, 1)
    ensures ValidRange("A3:D6") && SplitRange("A3:D6") == ("A3", "D6")
    ensures ParseCell("D6") == Coord(6, 4)
  {
    ShortRange("A3", "D6");
    assert "A3" + ":" + "D6" == "A3:D6";
  }

  lemma SampleShape()
    ensures FirstNonList(AsArgs(SampleRows())) == 4
    ensures Rows(AsArgs(SampleRows())) == SampleRows()
    ensures MaxWidth(SampleRows()) == 4
  {
    var args := AsArgs(SampleRows());
    assert forall k :: 0 <= k < 4 ==> args[k].ListRow?;
  }

  /** Writing the sample at A3 and reading A3:D6 back returns the sample. */
  method SampleRangeRoundTrip(disk: Disk, path: string, sheet: string)
    returns (written: Result<RangeShape, Error>, read: Result<seq<seq<Option<Value>>>, Error>)
    requires LoadSheet(disk, path, sheet, true).Ok?
    ensures written == Ok(RangeShape(4, 4))
    ensures read == Ok(Present(SampleRows()))
  {
    SampleAddresses();
    SampleShape();
    var rows := SampleRows();
    var disk';
    written, disk' := SetRangeValues(disk, path, sheet, "A3", AsArgs(rows));
    read := GetRangeValues(disk', path, sheet, "A3:D6");
    ReadSample(disk, disk', path, sheet, read);
  }

  lemma ReadSample(disk: Disk, disk': Disk, path: string, sheet: string, read: Result<seq<seq<Option<Value>>>, Error>)
    requires LoadSheet(disk, path, sheet, true).Ok?
    requires
      var b := LoadSheet(disk, path, sheet, true).value;
      var ws := SheetOf(b, sheet);
      disk' == Save(disk, path, WithSheet(b, sheet, ws.(values := Written(ws.values, 3, 1, SampleRows()))))
    requires LoadSheet(disk', path, sheet, true).Ok? ==>
      var vals := SheetOf(LoadSheet(disk', path, sheet, true).value, sheet).values;
      && read.Ok? && |read.value| == 4
      && (forall i :: 0 <= i < 4 ==> |read.value[i]| == 4)
      && (forall i, j :: 0 <= i < 4 && 0 <= j < 4 ==> read.value[i][j] == Lookup(vals, Coord(3 + i, 1 + j)))
    ensures read == Ok(Present(SampleRows()))
  {
    var b := LoadSheet(disk, path, sheet, true).value;
    var ws := SheetOf(b, sheet);
    assert Load(disk', path).Ok?;
    assert LoadSheet(disk', path, sheet, true).Ok?;
    assert SheetOf(LoadSheet(disk', path, sheet, true).value, sheet).values == Written(ws.values, 3, 1, SampleRows());
    SampleGrid(read.value, ws.values);
  }

  /** A 4 by 4 grid read from A3 after the sample was written there is the sample. */
  lemma SampleGrid(grid: seq<seq<Option<Value>>>, base: map<Pos, Value>)
    requires |grid| == 4 && forall i :: 0 <= i < 4 ==> |grid[i]| == 4
    requires forall i, j :: 0 <= i < 4 && 0 <= j < 4 ==>
      grid[i][j] == Lookup(Written(base, 3, 1, SampleRows()), Coord(3 + i, 1 + j))
    ensures grid == Present(SampleRows())
  {
    var rows := SampleRows();
    forall i, j | 0 <= i < 4 && 0 <= j < 4 ensures grid[i][j] == Some(rows[i][j]) {
      ReadAfterWrite(base, 3, 1, rows, i, j);
    }
    assert forall i :: 0 <= i < 4 ==> |rows[i]| == 4;
    PresentOf(grid, rows);
  }

  /** "商品A" occurs once in the sample, as the first product's name. */
  lemma SampleHasOneProductA(i: nat, j: nat)
    requires i < 4 && j < 4
    ensures |SampleRows()[i]| == 4
    ensures SampleRows()[i][j] == Text("商品A") <==> i == 1 && j == 0
  {
    var rows := SampleRows();
    assert "商品名"[2] != "商品A"[2];
    assert "商品B"[2] != "商品A"[2];
    assert "商品C"[2] != "商品A"[2];
    assert |"価格"| != |"商品A"| && |"在庫"| != |"商品A"| && |"売上"| != |"商品A"|;
    assert |"=B2*C2"| != |"商品A"|;
  }

  /** In the sample written at A3, "商品A" appears only at A4. */
  lemma OnlyOneMatch(base: map<Pos, Value>, k: Pos)
    requires forall q :: q in base ==> base[q] != Text("商品A")
    ensures Matches(Written(base, 3, 1, SampleRows()), k, Text("商品A")) <==> k == Coord(4, 1)
  {
    var rows := SampleRows();
    var out := Written(base, 3, 1, rows);
    var a4: Pos := Coord(4, 1);
    SampleHasOneProductA(1, 0);
    assert InBlock(a4, 3, 1, rows);
    if k != a4 && k in out && InBlock(k, 3, 1, rows) {
      SampleCellIsNotA(k);
    }
  }

  /** Every other cell of the sample block holds something else. */
  lemma SampleCellIsNotA(k: Pos)
    requires InBlock(k, 3, 1, SampleRows()) && k != Coord(4, 1)
    ensures SampleRows()[k.row - 3][k.col - 1] != Text("商品A")
  {
    SampleHasOneProductA(k.row - 3, k.col - 1);
  }

  /** Names the first elements of a sequence that has them. */
  lemma FirstTwo(s: seq<string>)
    ensures |s| >= 1 ==> s == [s[0]] + s[1..]
    ensures |s| >= 2 ==> s == [s[0], s[1]] + s[2..]
  {
  }

  /** A search result that meets the `find_data` contract when exactly one cell matches
      holds that cell's label and nothing else. */
  lemma SingleHit(vals: map<Pos, Value>, v: Value, labels: seq<string>, p: Pos)
    requires forall k: Pos :: Matches(vals, k, v) <==> k == p
    requires forall i :: 0 <= i < |labels| ==> ValidCell(labels[i]) && Matches(vals, ParseCell(labels[i]), v)
    requires forall i, j :: 0 <= i < j < |labels| ==> Before(ParseCell(labels[i]), ParseCell(labels[j]))
    requires CellLabel(p) in labels
    ensures labels == [CellLabel(p)]
  {
    forall i | 0 <= i < |labels| ensures ParseCell(labels[i]) == p && labels[i] == CellLabel(p) {
      var q := ParseCell(labels[i]);
      assert labels[i] == ColumnLetters(q.col) + Decimal(q.row);
    }
    FirstTwo(labels);
    assert |labels| <= 1;
  }

  /** Searching the sample for "商品A" finds exactly A4. */
  method FindSampleProduct(disk: Disk, path: string, sheet: string, ghost base: map<Pos, Value>)
    returns (found: Result<seq<string>, Error>)
    requires LoadSheet(disk, path, sheet, false).Ok?
    requires SheetOf(LoadSheet(disk, path, sheet, false).value, sheet).values == Written(base, 3, 1, SampleRows())
    requires forall q :: q in base ==> base[q] != Text("商品A")
    ensures found == Ok(["A4"])
  {
    found := FindData(disk, path, sheet, Text("商品A"));
    ghost var vals := Written(base, 3, 1, SampleRows());
    ghost var a4: Pos := Coord(4, 1);
    forall k: Pos ensures Matches(vals, k, Text("商品A")) <==> k == a4 {
      OnlyOneMatch(base, k);
    }
    SingleHit(vals, Text("商品A"), found.value, a4);
    assert CellLabel(a4) == "A4";
  }

  lemma EmptyRows(rows: seq<seq<Option<Value>>>)
    requires |rows| == 2 && |rows[0]| == 0 && |rows[1]| == 0
    ensures rows == [[], []]
  {
    assert rows == [rows[0], rows[1]];
  }

  /** Corners are taken as given: an end row above the start row reads no rows. */
  method UpwardRange(disk: Disk, path: string, sheet: string) returns (grid: Result<seq<seq<Option<Value>>>, Error>)
    requires LoadSheet(disk, path, sheet, true).Ok?
    ensures grid == Ok([])
  {
    ShortRange("A2", "B1");
    assert "A2" + ":" + "B1" == "A2:B1";
    grid := GetRangeValues(disk, path, sheet, "A2:B1");
  }

  /** An end column left of the start column reads rows that hold no values. */
  method LeftwardRange(disk: Disk, path: string, sheet: string) returns (grid: Result<seq<seq<Option<Value>>>, Error>)
    requires LoadSheet(disk, path, sheet, true).Ok?
    ensures grid == Ok([[], []])
  {
    ShortRange("B1", "A2");
    assert "B1" + ":" + "A2" == "B1:A2";
    grid := GetRangeValues(disk, path, sheet, "B1:A2");
    var rows := grid.value;
    assert Span(1, 2) == 2 && Span(2, 1) == 0;
    assert |rows| == 2 && |rows[0]| == 0 && |rows[1]| == 0;
    EmptyRows(rows);
  }

  /** Matching compares type and value: a stored number 5 is not the text "5". */
  method NumberIsNotText(disk: Disk, path: string, sheet: string) returns (found: Result<seq<string>, Error>)
    requires LoadSheet(disk, path, sheet, false).Ok?
    requires SheetOf(LoadSheet(disk, path, sheet, false).value, sheet).values == map[Coord(1, 1) := Int(5)]
    ensures found == Ok([])
  {
    found := FindData(disk, path, sheet, Text("5"));
    FirstTwo(found.value);
  }

  /** Setting B2 to 42 and reading B2 reports 42. */
  method CellRoundTrip(disk: Disk, path: string, sheet: string)
    returns (stored: Result<(), Error>, got: Result<Option<Value>, Error>)
    requires LoadSheet(disk, path, sheet, true).Ok?
    ensures stored == Ok(()) && got == Ok(Some(Int(42)))
  {
    assert ValidCell("B2");
    var disk';
    stored, disk' := SetCellValue(disk, path, sheet, "B2", Int(42));
    assert LoadSheet(disk', path, sheet, true).Ok?;
    got := GetCellValue(disk', path, sheet, "B2");
  }

  /** Adding the same sheet twice: the first call appends it, the second is refused. */
  method AddSheetTwice(disk: Disk, path: string, name: string)
    returns (first: Result<(), Error>, second: Result<(), Error>)
    requires !IsBlank(name) && Load(disk, path).Ok? && name !in Load(disk, path).value.names
    ensures first == Ok(())
    ensures second == Err(Error(AddSheetOp, DuplicateSheet(name)))
  {
    var disk';
    first, disk' := AddWorksheet(disk, path, name);
    assert Load(disk', path).Ok? && name in Load(disk', path).value.names;
    var disk'';
    second, disk'' := AddWorksheet(disk', path, name);
  }

  /** A missing sheet: the cell operations name every sheet there is, formatting does not. */
  method MissingSheet(disk: Disk, path: string, sheet: string)
    returns (got: Result<Option<Value>, Error>, found: Result<seq<string>, Error>)
    requires Load(disk, path).Ok? && sheet !in Load(disk, path).value.names
    ensures got == Err(Error(GetCellOp, SheetNotFound(sheet, Some(Load(disk, path).value.names))))
    ensures found == Err(Error(FindOp, SheetNotFound(sheet, None)))
  {
    got := GetCellValue(disk, path, sheet, "A1");
    found := FindData(disk, path, sheet, Text("x"));
  }

  /** A format request with nothing usable still succeeds and saves the workbook,
      and what it saves is what was on the disk already; one whose nulls make the
      style code raise fails, and nothing is saved either. */
  method FormatNothing(disk: Disk, path: string, sheet: string, cell: string, spec: FormatSpec)
    returns (res: Result<(), Error>, disk': Disk)
    requires ValidCell(cell) && LoadSheet(disk, path, sheet, false).Ok?
    requires !ReplacesFont(spec) && !ReplacesFill(spec) && !ReplacesBorder(spec)
    ensures disk' == disk
    ensures res == if Raises(spec) then Err(Error(FormatOp, MalformedFormat)) else Ok(())
  {
    res, disk' := FormatCell(disk, path, sheet, cell, spec);
    if !Raises(spec) {
      ghost var b := Load(disk, path).value;
      ghost var ws := SheetOf(b, sheet);
      ghost var p := ParseCell(cell);
      NothingUsableKeepsStyle(StyleAt(ws, p), spec);
      assert b.sheets[sheet := ws] == b.sheets;
      SaveLoaded(disk, path);
    }
  }

  /** `{"font": null}`: looking up a key in the null category raises, so the cell
      is not formatted and the file is left as it was. */
  method NullFontFails(disk: Disk, path: string, sheet: string, cell: string)
    returns (res: Result<(), Error>, disk': Disk)
    requires ValidCell(cell) && LoadSheet(disk, path, sheet, false).Ok?
    ensures res == Err(Error(FormatOp, MalformedFormat)) && disk' == disk
  {
    res, disk' := FormatCell(disk, path, sheet, cell, FormatSpec(Null, Missing, Missing));
  }

  /** `{"fill": {"type": "pattern", "pattern": "solid", "fgColor": color}}` */
  function SolidFill(color: string): FormatSpec {
    FormatSpec(Missing, Given(FillSpec(Given("pattern"), Given("solid"), Given(color))), Missing)
  }

  /** `{"fill": {"type": "pattern", "pattern": null, "fgColor": "00000000"}}`: the default fill. */
  const ClearFill := FormatSpec(Missing, Given(FillSpec(Given("pattern"), Null, Given("00000000"))), Missing)

  /** On one sheet: a solid fill stores an empty cell, clearing the fill again
      unstores it. */
  lemma FillThenClearCell(ws: Sheet, p: Pos, color: string)
    requires p !in StoredCells(ws)
    ensures var ws1 := PutStyle(ws, p, Restyle(StyleAt(ws, p), SolidFill(color)).value);
      && p in StoredCells(ws1)
      && StoredCells(PutStyle(ws1, p, Restyle(StyleAt(ws1, p), ClearFill).value)) == StoredCells(ws)
  {
    var ws1 := PutStyle(ws, p, Restyle(StyleAt(ws, p), SolidFill(color)).value);
    assert StyleAt(ws1, p) == DefaultStyle.(fill := Fill(Some("solid"), color));
    assert Restyle(StyleAt(ws1, p), ClearFill).value == DefaultStyle;
    var ws2 := PutStyle(ws1, p, DefaultStyle);
    assert ws2.styles.Keys == ws.styles.Keys;
  }

  /** Filling an empty, unstyled cell and then clearing its fill again: the second
      request gives the cell the default style back, so the file no longer stores
      the cell and the sheet's stored cells are the ones it had before. */
  method FillThenClear(disk: Disk, path: string, sheet: string, cell: string, color: string)
    returns (filled: Result<(), Error>, cleared: Result<(), Error>, disk': Disk)
    requires ValidCell(cell) && LoadSheet(disk, path, sheet, false).Ok?
    requires ParseCell(cell) !in StoredCells(SheetOf(Load(disk, path).value, sheet))
    ensures filled == Ok(()) && cleared == Ok(())
    ensures Load(disk', path).Ok? && sheet in Load(disk', path).value.names
    ensures StoredCells(SheetOf(Load(disk', path).value, sheet)) == StoredCells(SheetOf(Load(disk, path).value, sheet))
  {
    ghost var ws := SheetOf(Load(disk, path).value, sheet);
    ghost var p := ParseCell(cell);
    FillThenClearCell(ws, p, color);
    var d1;
    filled, d1 := FormatCell(disk, path, sheet, cell, SolidFill(color));
    ghost var ws1 := PutStyle(ws, p, Restyle(StyleAt(ws, p), SolidFill(color)).value);
    assert SheetOf(Load(d1, path).value, sheet) == ws1;
    cleared, disk' := FormatCell(d1, path, sheet, cell, ClearFill);
    assert SheetOf(Load(disk', path).value, sheet) == PutStyle(ws1, p, Restyle(StyleAt(ws1, p), ClearFill).value);
  }

  /** Closing a path that was never opened succeeds and reports that it was not open. */
  method CloseNeverOpened(disk: Disk, path: string) returns (closed: Result<bool, Error>, count: nat)
    requires CheckPath(path).None?
    ensures closed == Ok(false) && count == 0
  {
    var registry := new OpenWorkbooks();
    closed := registry.Close(path);
    var paths;
    count, paths := registry.ListOpen();
  }

  /** Opening then closing a workbook: it is listed while open and gone afterwards. */
  method OpenThenClose(disk: Disk, path: string) returns (listed: seq<string>, closed: Result<bool, Error>, after: nat)
    requires Load(disk, path).Ok?
    ensures listed == [path] && closed == Ok(true) && after == 0
  {
    var registry := new OpenWorkbooks();
    var openResult := registry.Open(disk, path);
    var n;
    n, listed := registry.ListOpen();
    assert path in listed;
    closed := registry.Close(path);
    var rest;
    after, rest := registry.ListOpen();
  }
}
