/** The spreadsheet operations. Each one validates its arguments, loads the
    workbook fresh from the disk, works on that in-memory copy and, when it
    changes something, saves the whole workbook back once at the end. A failure
    anywhere before the save leaves the disk as it was. None of them reads or
    writes the open-workbook registry. */
module Tools {
  import opened Results
  import opened Address
  import opened Workbook
  import opened Format
  import opened Grid
  import opened Access

  // ---------------------------------------------------------------------------
  // Creating, inspecting and extending workbooks

  /** `create_workbook`: a fresh one-sheet workbook, overwriting whatever was there. */
  method CreateWorkbook(disk: Disk, path: string) returns (res: Result<(), Error>, disk': Disk)
    ensures CheckPath(path).Some? ==> res == Err(Error(CreateOp, BadPath(CheckPath(path).value))) && disk' == disk
    ensures CheckPath(path).None? ==> res == Ok(()) && disk' == Save(disk, path, NewBook())
  {
    var bad := CheckPath(path);
    if bad.Some? {
      return Err(Error(CreateOp, BadPath(bad.value))), disk;
    }
    res, disk' := Ok(()), Save(disk, path, NewBook());
  }

  /** What `get_workbook_info` reports (file size and modification time are not modelled). */
  datatype BookInfo = BookInfo(path: string, sheetCount: nat, sheetNames: seq<string>)

  method GetWorkbookInfo(disk: Disk, path: string) returns (res: Result<BookInfo, Error>)
    ensures Load(disk, path).Err? ==> res == Err(Error(InfoOp, Load(disk, path).error))
    ensures Load(disk, path).Ok? ==>
      && res.Ok? && res.value.path == path
      && res.value.sheetNames == Load(disk, path).value.names
      && res.value.sheetCount == |Load(disk, path).value.names|
  {
    var loaded := Load(disk, path);
    if loaded.Err? {
      return Err(Error(InfoOp, loaded.error));
    }
    var b := loaded.value;
    res := Ok(BookInfo(path, |b.names|, b.names));
  }

  /** Python's str.isspace: the characters `strip()` removes. Letters, digits, the
      underscore and the hyphen a sheet name is made of are never among them; the
      blank, tab, line breaks and the ideographic space are. */
  predicate IsSpace(c: char)
    ensures IsSpace(c) ==> !IsUpper(c) && !IsDigit(c) && !('a' <= c <= 'z') && c != '_' && c != '-'
    ensures c == ' ' || c == '\t' || c == '\n' || c == '\r' || c == '\U{3000}' ==> IsSpace(c)
  {
    var n := c as int;
    || 0x09 <= n <= 0x0D || 0x1C <= n <= 0x20 || n == 0x85 || n == 0xA0 || n == 0x1680
    || 0x2000 <= n <= 0x200A || n == 0x2028 || n == 0x2029 || n == 0x202F || n == 0x205F || n == 0x3000
  }

  predicate AllSpace(s: string) { forall i :: 0 <= i < |s| ==> IsSpace(s[i]) }

  lemma AllSpaceConcat(a: string, b: string)
    ensures AllSpace(a + b) <==> AllSpace(a) && AllSpace(b)
  {
    if AllSpace(a + b) {
      forall i | 0 <= i < |a| ensures IsSpace(a[i]) { assert a[i] == (a + b)[i]; }
      forall i | 0 <= i < |b| ensures IsSpace(b[i]) { assert b[i] == (a + b)[|a| + i]; }
    }
    if AllSpace(a) && AllSpace(b) {
      forall i | 0 <= i < |a + b| ensures IsSpace((a + b)[i]) {
        if i < |a| { assert (a + b)[i] == a[i]; } else { assert (a + b)[i] == b[i - |a|]; }
      }
    }
  }

  /** `lstrip()`: drop the leading whitespace. */
  function StripStart(s: string): (r: string)
    ensures |r| <= |s| && r == s[|s| - |r|..]
    ensures AllSpace(s[..|s| - |r|])
    ensures r == [] <==> AllSpace(s)
    ensures r != [] ==> !IsSpace(r[0])
  {
    if s != [] && IsSpace(s[0]) then
      LeadingSpace(s, |s| - |StripStart(s[1..])|);
      StripStart(s[1..])
    else s
  }

  /** A whitespace character in front of a whitespace run extends the run. */
  lemma LeadingSpace(s: string, k: nat)
    requires 1 <= k <= |s| && IsSpace(s[0]) && AllSpace(s[1..][..k - 1])
    ensures AllSpace(s[..k]) && s[1..][k - 1..] == s[k..]
    ensures AllSpace(s) <==> AllSpace(s[1..])
  {
    assert s[..k] == [s[0]] + s[1..][..k - 1];
    AllSpaceConcat([s[0]], s[1..][..k - 1]);
    assert s == [s[0]] + s[1..];
    AllSpaceConcat([s[0]], s[1..]);
  }

  /** A whitespace character after a whitespace run extends the run. */
  lemma TrailingSpace(s: string, k: nat)
    requires k < |s| && IsSpace(s[|s| - 1]) && AllSpace(s[..|s| - 1][k..])
    ensures AllSpace(s[k..]) && s[..|s| - 1][..k] == s[..k]
    ensures AllSpace(s) <==> AllSpace(s[..|s| - 1])
  {
    assert s[k..] == s[..|s| - 1][k..] + [s[|s| - 1]];
    AllSpaceConcat(s[..|s| - 1][k..], [s[|s| - 1]]);
    assert s == s[..|s| - 1] + [s[|s| - 1]];
    AllSpaceConcat(s[..|s| - 1], [s[|s| - 1]]);
  }

  /** `rstrip()`: drop the trailing whitespace. */
  function StripEnd(s: string): (r: string)
    ensures |r| <= |s| && r == s[..|r|]
    ensures AllSpace(s[|r|..])
    ensures r == [] <==> AllSpace(s)
    ensures r != [] ==> !IsSpace(r[|r| - 1])
  {
    if s != [] && IsSpace(s[|s| - 1]) then
      var t := StripEnd(s[..|s| - 1]);
      TrailingSpace(s, |t|);
      t
    else s
  }

  /** `strip()`: whitespace removed at both ends, nothing in the middle. */
  function Strip(s: string): (r: string)
    ensures |r| <= |s|
    ensures exists a, b :: s == a + r + b && AllSpace(a) && AllSpace(b)
    ensures r == [] <==> AllSpace(s)
    ensures r != [] ==> !IsSpace(r[0]) && !IsSpace(r[|r| - 1])
  {
    TrimmedSpan(s, StripStart(s), StripEnd(StripStart(s)));
    StripEnd(StripStart(s))
  }

  /** Cutting a whitespace head off `s`, leaving `t`, and a whitespace tail off `t`,
      leaving `r`, leaves a middle slice of `s`. */
  lemma TrimmedSpan(s: string, t: string, r: string)
    requires |t| <= |s| && t == s[|s| - |t|..] && AllSpace(s[..|s| - |t|])
    requires |r| <= |t| && r == t[..|r|] && AllSpace(t[|r|..])
    ensures exists a, b :: s == a + r + b && AllSpace(a) && AllSpace(b)
    ensures AllSpace(s) <==> AllSpace(t)
    ensures r != [] ==> r[0] == t[0]
  {
    var i := |s| - |t|;
    assert t == r + t[|r|..];
    assert s == s[..i] + t;
    assert s == s[..i] + r + t[|r|..];
    AllSpaceConcat(s[..i], t);
  }

  /** `not name or not name.strip()`: empty, or made of whitespace alone. */
  predicate IsBlank(name: string)
    ensures IsBlank(name) <==> forall i :: 0 <= i < |name| ==> IsSpace(name[i])
  {
    name == [] || Strip(name) == []
  }

  /** `add_worksheet`: a blank name is refused before the file is touched, an existing
      name after loading; otherwise exactly one empty sheet is appended. */
  method AddWorksheet(disk: Disk, path: string, name: string) returns (res: Result<(), Error>, disk': Disk)
    ensures res.Err? ==> disk' == disk && res.error.op == AddSheetOp
    ensures IsBlank(name) ==> res == Err(Error(AddSheetOp, BlankSheetName))
    ensures !IsBlank(name) && Load(disk, path).Err? ==> res == Err(Error(AddSheetOp, Load(disk, path).error))
    ensures !IsBlank(name) && Load(disk, path).Ok? && name in Load(disk, path).value.names ==>
      res == Err(Error(AddSheetOp, DuplicateSheet(name)))
    ensures !IsBlank(name) && Load(disk, path).Ok? && name !in Load(disk, path).value.names ==>
      res == Ok(()) && disk' == Save(disk, path, AddSheet(Load(disk, path).value, name))
  {
    if IsBlank(name) {
      return Err(Error(AddSheetOp, BlankSheetName)), disk;
    }
    var loaded := Load(disk, path);
    if loaded.Err? {
      return Err(Error(AddSheetOp, loaded.error)), disk;
    }
    var b := loaded.value;
    if name in b.names {
      return Err(Error(AddSheetOp, DuplicateSheet(name))), disk;
    }
    res, disk' := Ok(()), Save(disk, path, AddSheet(b, name));
  }

  // ---------------------------------------------------------------------------
  // Single cells

  /** `set_cell_value`: validate the label, load, check the sheet, write one cell, save. */
  method SetCellValue(disk: Disk, path: string, sheet: string, cell: string, value: Value)
    returns (res: Result<(), Error>, disk': Disk)
    ensures res.Err? ==> disk' == disk && res.error.op == SetCellOp
    ensures !ValidCell(cell) ==> res == Err(Error(SetCellOp, InvalidCell(cell)))
    ensures ValidCell(cell) && LoadSheet(disk, path, sheet, true).Err? ==>
      res == Err(Error(SetCellOp, LoadSheet(disk, path, sheet, true).error))
    ensures ValidCell(cell) && LoadSheet(disk, path, sheet, true).Ok? ==>
      var b := LoadSheet(disk, path, sheet, true).value;
      res == Ok(()) && disk' == Save(disk, path, WithSheet(b, sheet, PutValue(SheetOf(b, sheet), ParseCell(cell), value)))
  {
    if !ValidCell(cell) {
      return Err(Error(SetCellOp, InvalidCell(cell))), disk;
    }
    var loaded := LoadSheet(disk, path, sheet, true);
    if loaded.Err? {
      return Err(Error(SetCellOp, loaded.error)), disk;
    }
    var b := loaded.value;
    var ws := SheetOf(b, sheet);
    ws := PutValue(ws, ParseCell(cell), value);
    res, disk' := Ok(()), Save(disk, path, WithSheet(b, sheet, ws));
  }

  /** `add_formula`: the formula text is stored verbatim, like any other string;
      a missing sheet is reported without the list of names. */
  method AddFormula(disk: Disk, path: string, sheet: string, cell: string, formula: string)
    returns (res: Result<(), Error>, disk': Disk)
    ensures res.Err? ==> disk' == disk && res.error.op == FormulaOp
    ensures !ValidCell(cell) ==> res == Err(Error(FormulaOp, InvalidCell(cell)))
    ensures ValidCell(cell) && LoadSheet(disk, path, sheet, false).Err? ==>
      res == Err(Error(FormulaOp, LoadSheet(disk, path, sheet, false).error))
    ensures ValidCell(cell) && LoadSheet(disk, path, sheet, false).Ok? ==>
      var b := LoadSheet(disk, path, sheet, false).value;
      res == Ok(()) && disk' == Save(disk, path, WithSheet(b, sheet, PutValue(SheetOf(b, sheet), ParseCell(cell), Text(formula))))
  {
    if !ValidCell(cell) {
      return Err(Error(FormulaOp, InvalidCell(cell))), disk;
    }
    var loaded := LoadSheet(disk, path, sheet, false);
    if loaded.Err? {
      return Err(Error(FormulaOp, loaded.error)), disk;
    }
    var b := loaded.value;
    var ws := SheetOf(b, sheet);
    ws := PutValue(ws, ParseCell(cell), Text(formula));
    res, disk' := Ok(()), Save(disk, path, WithSheet(b, sheet, ws));
  }

  /** `get_cell_value`: the raw stored value (None for a cell never written). */
  method GetCellValue(disk: Disk, path: string, sheet: string, cell: string)
    returns (res: Result<Option<Value>, Error>)
    ensures !ValidCell(cell) ==> res == Err(Error(GetCellOp, InvalidCell(cell)))
    ensures ValidCell(cell) && LoadSheet(disk, path, sheet, true).Err? ==>
      res == Err(Error(GetCellOp, LoadSheet(disk, path, sheet, true).error))
    ensures ValidCell(cell) && LoadSheet(disk, path, sheet, true).Ok? ==>
      res == Ok(Lookup(SheetOf(LoadSheet(disk, path, sheet, true).value, sheet).values, ParseCell(cell)))
  {
    if !ValidCell(cell) {
      return Err(Error(GetCellOp, InvalidCell(cell)));
    }
    var loaded := LoadSheet(disk, path, sheet, true);
    if loaded.Err? {
      return Err(Error(GetCellOp, loaded.error));
    }
    res := Ok(Lookup(SheetOf(loaded.value, sheet).values, ParseCell(cell)));
  }

  // ---------------------------------------------------------------------------
  // Ranges

  /** One element of the two-dimensional argument: a list of cell values, or
      something that is not a list. */
  datatype RowArg = ListRow(cells: seq<Value>) | NotAList

  /** Index of the first element that is not a list, or |values| when all are. */
  function FirstNonList(values: seq<RowArg>): (i: nat)
    ensures i <= |values|
    ensures forall k :: 0 <= k < i ==> values[k].ListRow?
    ensures i < |values| ==> values[i].NotAList?
  {
    if values == [] || values[0].NotAList? then 0 else 1 + FirstNonList(values[1..])
  }

  function Rows(values: seq<RowArg>): (rows: seq<seq<Value>>)
    requires forall k :: 0 <= k < |values| ==> values[k].ListRow?
    ensures |rows| == |values| && forall k :: 0 <= k < |values| ==> rows[k] == values[k].cells
  {
    seq(|values|, k requires 0 <= k < |values| => values[k].cells)
  }

  /** What `set_range_values` reports: the number of rows and the widest row. */
  datatype RangeShape = RangeShape(rows: nat, cols: nat)

  /** `set_range_values`: write `values[i][j]` to (start row + i, start column + j),
      then save once. The label, emptiness and shape checks come before the load. */
  method SetRangeValues(disk: Disk, path: string, sheet: string, startCell: string, values: seq<RowArg>)
    returns (res: Result<RangeShape, Error>, disk': Disk)
    ensures res.Err? ==> disk' == disk && res.error.op == SetRangeOp
    ensures !ValidCell(startCell) ==> res == Err(Error(SetRangeOp, InvalidCell(startCell)))
    ensures ValidCell(startCell) && values == [] ==> res == Err(Error(SetRangeOp, EmptyValues))
    ensures ValidCell(startCell) && values != [] && FirstNonList(values) < |values| ==>
      res == Err(Error(SetRangeOp, RowNotList(FirstNonList(values) + 1)))
    ensures (ValidCell(startCell) && values != [] && FirstNonList(values) == |values|
             && LoadSheet(disk, path, sheet, true).Err?) ==>
      res == Err(Error(SetRangeOp, LoadSheet(disk, path, sheet, true).error))
    ensures (ValidCell(startCell) && values != [] && FirstNonList(values) == |values|
             && LoadSheet(disk, path, sheet, true).Ok?) ==>
      var b := LoadSheet(disk, path, sheet, true).value;
      var ws := SheetOf(b, sheet);
      var start := ParseCell(startCell);
      && res == Ok(RangeShape(|values|, MaxWidth(Rows(values))))
      && disk' == Save(disk, path, WithSheet(b, sheet, ws.(values := Written(ws.values, start.row, start.col, Rows(values)))))
  {
    if !ValidCell(startCell) {
      return Err(Error(SetRangeOp, InvalidCell(startCell))), disk;
    }
    if |values| == 0 {
      return Err(Error(SetRangeOp, EmptyValues)), disk;
    }
    var i := 0;
    while i < |values|
      invariant 0 <= i <= |values|
      invariant forall k :: 0 <= k < i ==> values[k].ListRow?
    {
      if values[i].NotAList? {
        assert FirstNonList(values) == i;
        return Err(Error(SetRangeOp, RowNotList(i + 1))), disk;
      }
      i := i + 1;
    }
    var loaded := LoadSheet(disk, path, sheet, true);
    if loaded.Err? {
      return Err(Error(SetRangeOp, loaded.error)), disk;
    }
    var b := loaded.value;
    var ws := SheetOf(b, sheet);
    var start := ParseCell(startCell);
    var rows := Rows(values);
    var written := WriteBlock(ws.values, start.row, start.col, rows);
    disk' := Save(disk, path, WithSheet(b, sheet, ws.(values := written)));
    res := Ok(RangeShape(|values|, MaxWidth(rows)));
  }

  /** `get_range_values`: the grid of raw values from the first corner to the second,
      row by row; corners are not reordered. */
  method GetRangeValues(disk: Disk, path: string, sheet: string, addr: string)
    returns (res: Result<seq<seq<Option<Value>>>, Error>)
    ensures !ValidRange(addr) ==> res == Err(Error(GetRangeOp, InvalidRange(addr)))
    ensures ValidRange(addr) && LoadSheet(disk, path, sheet, true).Err? ==>
      res == Err(Error(GetRangeOp, LoadSheet(disk, path, sheet, true).error))
    ensures ValidRange(addr) && LoadSheet(disk, path, sheet, true).Ok? ==>
      var vals := SheetOf(LoadSheet(disk, path, sheet, true).value, sheet).values;
      var s := ParseCell(SplitRange(addr).0);
      var e := ParseCell(SplitRange(addr).1);
      res.Ok? && IsBlock(res.value, vals, s.row, s.col, e.row, e.col)
  {
    if !ValidRange(addr) {
      return Err(Error(GetRangeOp, InvalidRange(addr)));
    }
    var loaded := LoadSheet(disk, path, sheet, true);
    if loaded.Err? {
      return Err(Error(GetRangeOp, loaded.error));
    }
    var ws := SheetOf(loaded.value, sheet);
    var corners := SplitRange(addr);
    var s, e := ParseCell(corners.0), ParseCell(corners.1);
    var grid := ReadBlock(ws.values, s.row, s.col, e.row, e.col);
    res := Ok(grid);
  }

  // ---------------------------------------------------------------------------
  // Formatting

  /** `format_cell`: rebuild the requested style categories of one cell; its value and
      every other cell stay as they were. A missing sheet is reported without the list;
      a request whose nulls make the style code raise is reported and nothing is saved. */
  method FormatCell(disk: Disk, path: string, sheet: string, cell: string, spec: FormatSpec)
    returns (res: Result<(), Error>, disk': Disk)
    ensures res.Err? ==> disk' == disk && res.error.op == FormatOp
    ensures !ValidCell(cell) ==> res == Err(Error(FormatOp, InvalidCell(cell)))
    ensures ValidCell(cell) && LoadSheet(disk, path, sheet, false).Err? ==>
      res == Err(Error(FormatOp, LoadSheet(disk, path, sheet, false).error))
    ensures ValidCell(cell) && LoadSheet(disk, path, sheet, false).Ok? && Raises(spec) ==>
      res == Err(Error(FormatOp, MalformedFormat))
    ensures ValidCell(cell) && LoadSheet(disk, path, sheet, false).Ok? && !Raises(spec) ==>
      var b := LoadSheet(disk, path, sheet, false).value;
      var ws := SheetOf(b, sheet);
      var p := ParseCell(cell);
      res == Ok(()) && disk' == Save(disk, path, WithSheet(b, sheet, PutStyle(ws, p, Restyle(StyleAt(ws, p), spec).value)))
  {
    if !ValidCell(cell) {
      return Err(Error(FormatOp, InvalidCell(cell))), disk;
    }
    var loaded := LoadSheet(disk, path, sheet, false);
    if loaded.Err? {
      return Err(Error(FormatOp, loaded.error)), disk;
    }
    var b := loaded.value;
    var ws := SheetOf(b, sheet);
    var p := ParseCell(cell);
    var st := FormatStyle(StyleAt(ws, p), spec);
    if st.None? {
      return Err(Error(FormatOp, MalformedFormat)), disk;
    }
    res, disk' := Ok(()), Save(disk, path, WithSheet(b, sheet, PutStyle(ws, p, st.value)));
  }

  // ---------------------------------------------------------------------------
  // Reading the whole used area

  /** `find_data`: the coordinate labels of exactly the cells whose value equals
      `search`, in row-major order. The workbook is only read. */
  method FindData(disk: Disk, path: string, sheet: string, search: Value)
    returns (res: Result<seq<string>, Error>)
    ensures LoadSheet(disk, path, sheet, false).Err? ==>
      res == Err(Error(FindOp, LoadSheet(disk, path, sheet, false).error))
    ensures LoadSheet(disk, path, sheet, false).Ok? ==>
      var vals := SheetOf(LoadSheet(disk, path, sheet, false).value, sheet).values;
      && res.Ok?
      && (forall i :: 0 <= i < |res.value| ==> ValidCell(res.value[i]) && Matches(vals, ParseCell(res.value[i]), search))
      && (forall i, j :: 0 <= i < j < |res.value| ==> Before(ParseCell(res.value[i]), ParseCell(res.value[j])))
      && (forall k: Pos :: Matches(vals, k, search) ==> CellLabel(k) in res.value)
  {
    var loaded := LoadSheet(disk, path, sheet, false);
    if loaded.Err? {
      return Err(Error(FindOp, loaded.error));
    }
    var ws := SheetOf(loaded.value, sheet);
    var maxRow, maxCol := Extent(StoredCells(ws));
    var labels := Scan(ws.values, search, maxRow, maxCol);
    res := Ok(labels);
  }

  /** The value grid `export_to_csv` hands to the CSV writer: rows 1..max_row of
      columns 1..max_column of the stored cells, nothing for an empty sheet. */
  method ExportToCsv(disk: Disk, path: string, sheet: string, csvPath: string)
    returns (res: Result<seq<seq<Option<Value>>>, Error>)
    ensures LoadSheet(disk, path, sheet, false).Err? ==>
      res == Err(Error(ExportOp, LoadSheet(disk, path, sheet, false).error))
    ensures LoadSheet(disk, path, sheet, false).Ok? ==>
      var ws := SheetOf(LoadSheet(disk, path, sheet, false).value, sheet);
      && res.Ok?
      && (StoredCells(ws) == {} <==> res.value == [])
      && (forall i :: 0 <= i < |res.value| ==> |res.value[i]| == |res.value[0]|)
      && (forall i, j :: 0 <= i < |res.value| && 0 <= j < |res.value[i]| ==>
            res.value[i][j] == Lookup(ws.values, Coord(i + 1, j + 1)))
      && (forall k :: k in StoredCells(ws) ==> k.row <= |res.value| && k.col <= |res.value[0]|)
      && (res.value != [] ==> exists k :: k in StoredCells(ws) && k.row == |res.value|)
      && (res.value != [] ==> exists k :: k in StoredCells(ws) && k.col == |res.value[0]|)
  {
    var loaded := LoadSheet(disk, path, sheet, false);
    if loaded.Err? {
      return Err(Error(ExportOp, loaded.error));
    }
    var ws := SheetOf(loaded.value, sheet);
    var maxRow, maxCol := Extent(StoredCells(ws));
    var grid := ReadBlock(ws.values, 1, 1, maxRow, maxCol);
    res := Ok(grid);
  }
}
