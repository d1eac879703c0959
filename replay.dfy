/** The ten-step integration run (create, add a sheet, write a title and the
    sample table, format the header, add a total formula, read back, search,
    export), replayed against the contracts from a disk without the file. */
module Replay {
  import opened Results
  import opened Address
  import opened Workbook
  import opened Format
  import opened Grid
  import opened Access
  import opened Tools
  import opened Scenarios

  const TestSheet := "TestSheet"
  const Title := "Excel MCP 統合テスト レポート"
  const Total := "=SUM(E4:E6)"
  const A1: Pos := Coord(1, 1)
  const E7: Pos := Coord(7, 5)

  /** The header format: bold 12-point navy text on a light grey solid fill. */
  const HeaderFormat := FormatSpec(
    Given(FontSpec(Given(true), Missing, Given(12), Given("FF000080"))),
    Given(FillSpec(Given("pattern"), Given("solid"), Given("FFE0E0E0"))),
    Missing)

  /** The values of the test sheet once the title and the table are in. */
  function TableValues(): map<Pos, Value> {
    Written(map[A1 := Text(Title)], 3, 1, SampleRows())
  }

  lemma Addresses()
    ensures ValidCell("A1") && ParseCell("A1") == A1
    ensures ValidCell("E7") && ParseCell("E7") == E7
    ensures ValidCell("A3") && ParseCell("A3") == Coord(3, 1)
  {
    ShortLabel("A1");
    ShortLabel("E7");
    ShortLabel("A3");
  }

  lemma TestSheetNotBlank()
    ensures !IsBlank(TestSheet)
  {
    assert !IsSpace(TestSheet[0]);
  }

  /** The workbook after steps 1 and 2. */
  lemma TestBook()
    ensures TestSheet !in NewBook().names
    ensures AddSheet(NewBook(), TestSheet).names == ["Sheet", TestSheet]
  {
    assert ["Sheet"] + [TestSheet] == ["Sheet", TestSheet];
  }

  /** Steps 1 and 2: a new workbook, then the test sheet after the default one. */
  method CreateWithSheet(disk: Disk, path: string)
    returns (created: Result<(), Error>, added: Result<(), Error>, disk': Disk)
    requires CheckPath(path).None?
    ensures created == Ok(()) && added == Ok(())
    ensures Load(disk', path).Ok? && Load(disk', path).value.names == ["Sheet", TestSheet]
    ensures SheetOf(Load(disk', path).value, TestSheet) == EmptySheet
  {
    var d1;
    created, d1 := CreateWorkbook(disk, path);
    assert Load(d1, path) == Ok(NewBook());
    TestSheetNotBlank();
    TestBook();
    added, disk' := AddWorksheet(d1, path, TestSheet);
    assert Load(disk', path) == Ok(AddSheet(NewBook(), TestSheet));
  }

  /** Steps 3 and 4: the title at A1, then the sample table from A3. */
  method FillSheet(disk: Disk, path: string)
    returns (titled: Result<(), Error>, filled: Result<RangeShape, Error>, disk': Disk)
    requires Load(disk, path).Ok? && TestSheet in Load(disk, path).value.names
    requires SheetOf(Load(disk, path).value, TestSheet) == EmptySheet
    ensures titled == Ok(()) && filled == Ok(RangeShape(4, 4))
    ensures Load(disk', path).Ok? && Load(disk', path).value.names == Load(disk, path).value.names
    ensures SheetOf(Load(disk', path).value, TestSheet) == Sheet(TableValues(), map[])
    ensures forall n :: n in Load(disk, path).value.names && n != TestSheet ==>
      SheetOf(Load(disk', path).value, n) == SheetOf(Load(disk, path).value, n)
  {
    Addresses();
    SampleShape();
    var d1;
    titled, d1 := SetCellValue(disk, path, TestSheet, "A1", Text(Title));
    assert SheetOf(Load(d1, path).value, TestSheet) == Sheet(map[A1 := Text(Title)], map[]);
    filled, disk' := SetRangeValues(d1, path, TestSheet, "A3", AsArgs(SampleRows()));
  }

  /** Steps 1 to 4: the workbook, the sheet, the title and the table. */
  method Setup(disk: Disk, path: string)
    returns (created: Result<(), Error>, added: Result<(), Error>, titled: Result<(), Error>,
             filled: Result<RangeShape, Error>, disk': Disk)
    requires CheckPath(path).None?
    ensures created == Ok(()) && added == Ok(()) && titled == Ok(()) && filled == Ok(RangeShape(4, 4))
    ensures Load(disk', path).Ok? && Load(disk', path).value.names == ["Sheet", TestSheet]
    ensures SheetOf(Load(disk', path).value, TestSheet) == Sheet(TableValues(), map[])
  {
    var d1;
    created, added, d1 := CreateWithSheet(disk, path);
    titled, filled, disk' := FillSheet(d1, path);
  }

  /** Step 5: the header format at A3. */
  method FormatHeader(disk: Disk, path: string, ws: Sheet) returns (formatted: Result<(), Error>, disk': Disk)
    requires Load(disk, path).Ok? && TestSheet in Load(disk, path).value.names
    requires SheetOf(Load(disk, path).value, TestSheet) == ws
    ensures formatted == Ok(())
    ensures Load(disk', path) == Ok(WithSheet(Load(disk, path).value, TestSheet,
      PutStyle(ws, Coord(3, 1), Restyle(StyleAt(ws, Coord(3, 1)), HeaderFormat).value)))
  {
    ShortLabel("A3");
    formatted, disk' := FormatCell(disk, path, TestSheet, "A3", HeaderFormat);
  }

  /** Step 6: the total formula at E7. */
  method AddTotal(disk: Disk, path: string, ws: Sheet) returns (summed: Result<(), Error>, disk': Disk)
    requires Load(disk, path).Ok? && TestSheet in Load(disk, path).value.names
    requires SheetOf(Load(disk, path).value, TestSheet) == ws
    ensures summed == Ok(())
    ensures Load(disk', path) == Ok(WithSheet(Load(disk, path).value, TestSheet, PutValue(ws, E7, Text(Total))))
  {
    ShortLabel("E7");
    summed, disk' := AddFormula(disk, path, TestSheet, "E7", Total);
  }

  /** Steps 5 and 6: the header format at A3 and the total at E7. Only A3's style
      and E7's value change. */
  method Decorate(disk: Disk, path: string, ws: Sheet)
    returns (formatted: Result<(), Error>, summed: Result<(), Error>, disk': Disk)
    requires Load(disk, path).Ok? && TestSheet in Load(disk, path).value.names
    requires SheetOf(Load(disk, path).value, TestSheet) == ws
    ensures formatted == Ok(()) && summed == Ok(())
    ensures Load(disk', path).Ok? && Load(disk', path).value.names == Load(disk, path).value.names
    ensures SheetOf(Load(disk', path).value, TestSheet).values == ws.values[E7 := Text(Total)]
    ensures SheetOf(Load(disk', path).value, TestSheet).styles.Keys <= ws.styles.Keys + {Coord(3, 1)}
    ensures StyleAt(SheetOf(Load(disk', path).value, TestSheet), Coord(3, 1))
         == Restyle(StyleAt(ws, Coord(3, 1)), HeaderFormat).value
    ensures forall q: Pos :: q != Coord(3, 1) ==>
      StyleAt(SheetOf(Load(disk', path).value, TestSheet), q) == StyleAt(ws, q)
    ensures forall n :: n in Load(disk, path).value.names && n != TestSheet ==>
      SheetOf(Load(disk', path).value, n) == SheetOf(Load(disk, path).value, n)
  {
    var d1;
    formatted, d1 := FormatHeader(disk, path, ws);
    summed, disk' := AddTotal(d1, path, SheetOf(Load(d1, path).value, TestSheet));
  }

  /** In the finished sheet "商品A" is found at A4 and nowhere else. */
  lemma FinalMatches(k: Pos)
    ensures Matches(TableValues()[E7 := Text(Total)], k, Text("商品A")) <==> k == Coord(4, 1)
  {
    var base := map[A1 := Text(Title)];
    assert Title != "商品A";
    OnlyOneMatch(base, k);
    assert Total != "商品A";
  }

  /** The finished test sheet: the table, the title and the total, and no style but A3's. */
  ghost predicate Finished(disk: Disk, path: string, ws: Sheet) {
    && Load(disk, path).Ok? && TestSheet in Load(disk, path).value.names
    && SheetOf(Load(disk, path).value, TestSheet) == ws
    && ws.values == TableValues()[E7 := Text(Total)]
  }

  /** Step 7: A1 holds the title. */
  method ReadTitle(disk: Disk, path: string, ghost ws: Sheet) returns (title: Result<Option<Value>, Error>)
    requires Finished(disk, path, ws)
    ensures title == Ok(Some(Text(Title)))
  {
    Addresses();
    title := GetCellValue(disk, path, TestSheet, "A1");
    assert !InBlock(A1, 3, 1, SampleRows());
  }

  lemma TableCell(i: nat, j: nat)
    requires i < 4 && j < 4
    ensures Lookup(TableValues()[E7 := Text(Total)], Coord(3 + i, 1 + j)) == Some(SampleRows()[i][j])
  {
    SampleHasOneProductA(i, j);
    ReadAfterWrite(map[A1 := Text(Title)], 3, 1, SampleRows(), i, j);
  }

  /** A grid read from the finished sheet with the shape of A3:D6 is the sample table. */
  lemma TableGrid(grid: seq<seq<Option<Value>>>)
    requires |grid| == 4 && forall i :: 0 <= i < 4 ==> |grid[i]| == 4
    requires forall i, j :: 0 <= i < 4 && 0 <= j < 4 ==>
      grid[i][j] == Lookup(TableValues()[E7 := Text(Total)], Coord(3 + i, 1 + j))
    ensures grid == Present(SampleRows())
  {
    var rows := SampleRows();
    forall i, j | 0 <= i < 4 && 0 <= j < 4 ensures grid[i][j] == Some(rows[i][j]) {
      TableCell(i, j);
    }
    assert forall i :: 0 <= i < 4 ==> |rows[i]| == 4;
    PresentOf(grid, rows);
  }

  /** Step 8: A3:D6 holds the sample table. */
  method ReadTable(disk: Disk, path: string, ghost ws: Sheet) returns (table: Result<seq<seq<Option<Value>>>, Error>)
    requires Finished(disk, path, ws)
    ensures table == Ok(Present(SampleRows()))
  {
    SampleAddresses();
    table := GetRangeValues(disk, path, TestSheet, "A3:D6");
    assert Span(3, 6) == 4 && Span(1, 4) == 4;
    TableGrid(table.value);
  }

  /** Step 9: "商品A" is found at A4 only. */
  method FindProduct(disk: Disk, path: string, ghost ws: Sheet) returns (found: Result<seq<string>, Error>)
    requires Finished(disk, path, ws)
    ensures found == Ok(["A4"])
  {
    found := FindData(disk, path, TestSheet, Text("商品A"));
    var a4: Pos := Coord(4, 1);
    forall k: Pos ensures Matches(ws.values, k, Text("商品A")) <==> k == a4 {
      FinalMatches(k);
    }
    SingleHit(ws.values, Text("商品A"), found.value, a4);
    assert CellLabel(a4) == "A4";
  }

  /** The used area of the finished sheet is A1:E7, with the title and the total at its corners. */
  lemma FinishedCells(ws: Sheet)
    requires ws.values == TableValues()[E7 := Text(Total)]
    requires ws.styles.Keys <= {Coord(3, 1)}
    ensures E7 in StoredCells(ws)
    ensures forall k :: k in StoredCells(ws) ==> k.row <= 7 && k.col <= 5
    ensures Lookup(ws.values, A1) == Some(Text(Title)) && Lookup(ws.values, E7) == Some(Text(Total))
  {
    var rows := SampleRows();
    forall k | k in StoredCells(ws) ensures k.row <= 7 && k.col <= 5 {
      if k != E7 && k in ws.values && k != A1 {
        assert InBlock(k, 3, 1, rows);
      }
    }
    assert !InBlock(A1, 3, 1, rows);
  }

  /** Step 10: the exported grid spans A1:E7, the title top left and the total bottom right. */
  method Export(disk: Disk, path: string, ghost ws: Sheet) returns (grid: Result<seq<seq<Option<Value>>>, Error>)
    requires Finished(disk, path, ws)
    requires ws.styles.Keys <= {Coord(3, 1)}
    ensures grid.Ok? && |grid.value| == 7 && forall i :: 0 <= i < 7 ==> |grid.value[i]| == 5
    ensures grid.value[0][0] == Some(Text(Title)) && grid.value[6][4] == Some(Text(Total))
  {
    FinishedCells(ws);
    grid := ExportToCsv(disk, path, TestSheet, "export.csv");
    assert |grid.value| == 7 && |grid.value[0]| == 5;
  }

  /** The whole run: every step succeeds and reads back what was written. */
  method IntegrationRun(disk: Disk, path: string)
    returns (created: Result<(), Error>, added: Result<(), Error>, titled: Result<(), Error>,
             filled: Result<RangeShape, Error>, formatted: Result<(), Error>, summed: Result<(), Error>,
             title: Result<Option<Value>, Error>, table: Result<seq<seq<Option<Value>>>, Error>,
             found: Result<seq<string>, Error>, exported: Result<seq<seq<Option<Value>>>, Error>)
    requires CheckPath(path).None?
    ensures created == Ok(()) && added == Ok(()) && titled == Ok(()) && filled == Ok(RangeShape(4, 4))
    ensures formatted == Ok(()) && summed == Ok(())
    ensures title == Ok(Some(Text(Title)))
    ensures table == Ok(Present(SampleRows()))
    ensures found == Ok(["A4"])
    ensures exported.Ok? && |exported.value| == 7 && forall i :: 0 <= i < 7 ==> |exported.value[i]| == 5
    ensures exported.value[0][0] == Some(Text(Title)) && exported.value[6][4] == Some(Text(Total))
  {
    var d1, d2;
    created, added, titled, filled, d1 := Setup(disk, path);
    formatted, summed, d2 := Decorate(d1, path, Sheet(TableValues(), map[]));
    var ws := SheetOf(Load(d2, path).value, TestSheet);
    title := ReadTitle(d2, path, ws);
    table := ReadTable(d2, path, ws);
    found := FindProduct(d2, path, ws);
    exported := Export(d2, path, ws);
  }
}
