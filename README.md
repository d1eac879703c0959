# Excel MCP server: a Dafny model of the spreadsheet tools

The server exposes spreadsheet operations as tools. Each tool validates its
arguments, loads a workbook file, changes the in-memory workbook, and saves it
back. A small process-wide registry records which files have been "opened".
This project models that engine and proves what its operations do.

- **Workbook.** An ordered list of sheet names, plus one sheet per name
  (`Workbook.Book`, a subset type that keeps the names distinct and in step with
  the sheets).
- **Sheet.** A map from position (row, column, both from 1) to a value, plus a
  map from position to a style (`Workbook.Sheet`).
  - A value is text, an integer or a boolean.
  - A style is a font, a fill and a set of border sides.
- **Disk.** A map from path to what the file there holds: a workbook, or
  something unreadable (`Access.Disk`). Every tool that writes takes the disk
  and returns the new disk. Tools that only read return no disk.
- **Errors.** Every failure is an `Access.Error`: the operation that failed and
  the cause. This mirrors the source, where each tool re-raises the cause under
  its own prefix.
- **Registry.** The open-workbook registry is a class, `Registry.OpenWorkbooks`,
  with the cache map and the open-path set as fields. Its invariant `Valid()`
  says that the cache's keys are exactly the open paths. No data tool takes the
  registry, so none can read or change it.

Modules, in dependency order:

- `results.dfy`: Option and Result.
- `address.dfy`:
  - the cell and range validators, as hand-written recognisers;
  - the A1 codec: columns in bijective base 26, rows in decimal, with round-trip
    lemmas both ways.
- `workbook.dfy`:
  - values, styles, sheets and books;
  - the sheet-name listing used in messages.
- `format.dfy`: the format request and how it rebuilds a cell's style.
- `grid.dfy`:
  - the nested loops of the range writer and the range reader;
  - the used-range bounds;
  - the row-major search.
- `access.dfy`: path validation, error kinds, loading and saving.
- `tools.dfy`: the tools, one method each.
- `registry.dfy`: open, close and list over the registry.
- `scenarios.dfy`: clients that check the contracts on concrete inputs.
- `replay.dfy`: the ten-step integration run of `test/excel_integration_test.py`,
  checked against the contracts from start to finish.

Decisions about the environment:

- **Disk contents.** What the file codec reads and writes is abstracted into the
  disk map. `os.path.exists` is the same as `path in disk`.
- **Format requests.** A format request arrives as JSON. Each key of it is absent, present as null, or present with a value (`Format.Key`). The source tells the three apart: `in` sees a null key as present, and `get` returns None for it.
- **Absolute paths.** The POSIX rule is used: a path is absolute when it starts
  with `/`.

## Model

| member | source | states |
|---|---|---|
| Access.CheckPath | src/index.py:28-37 | No error exactly when the path is non-empty, ends in `.xlsx`/`.xls` and is absolute. Otherwise the error is EmptyPath, then BadExtension, then NotAbsolute, in that priority; each stated as an if-and-only-if. |
| Access.PathExamples | src/index.py:28-37 | Concrete paths: `/data/report.xlsx` and `/data/old.xls` are accepted. `""` gives EmptyPath. `/data/report.csv` gives BadExtension. `report.xlsx` gives NotAbsolute. |
| Address.ValidCell | src/index.py:40-44 | An accepted address is at least two characters long, starts with a capital letter, ends in a digit, and is made of capital letters and digits only. |
| Address.ValidCellIsPattern | src/index.py:40-44 | The recogniser accepts exactly: some letters A-Z, then a digit 1-9, then any digits. |
| Address.AcceptedExamples | src/index.py:40-44 | `A1` and `AA10` are valid cell addresses. |
| Address.RejectedExamples | src/index.py:40-44 | `1A`, `A0`, `a1` and `A01` are rejected. |
| Address.ColonAt | src/index.py:296 | The position of the first `:`, or the length when there is none: no earlier character is a colon. |
| Address.ValidRange | src/index.py:47-51 | An accepted range has at least two characters before its first colon and at least two after it, and holds no other colon. |
| Address.ValidRangeIsPattern | src/index.py:47-51 | The range recogniser accepts exactly two valid cell addresses joined by one `:`. |
| Address.SplitRange | src/index.py:296 | Splitting a valid range at its colon gives two valid addresses. Joined by `:` they rebuild the range, and the colon is the only one in it. |
| Address.ColumnIndex | src/index.py:257-259 | A non-empty column label decodes to a column of at least 1. |
| Address.ColumnLetters | src/index.py:441 | Every column from 1 encodes to a non-empty label of capital letters. |
| Address.ColumnLettersRoundTrip | src/index.py:257-259 | Decoding the label of column n gives n back. |
| Address.ColumnIndexRoundTrip | src/index.py:441 | Encoding the decoded column of a label gives the label back, so the base-26 codec is a bijection. |
| Address.DecimalValue | src/index.py:257-259 | A numeral with a nonzero leading digit denotes a row of at least 1. |
| Address.Decimal | src/index.py:441 | Every row number renders as a numeral. A positive one has no leading zero. |
| Address.DecimalRoundTrip | src/index.py:257-259 | Reading back the numeral of n gives n. |
| Address.DecimalValueRoundTrip | src/index.py:441 | A numeral without a leading zero is the rendering of its own value. |
| Address.ParseCell | src/index.py:299-303 | The position a valid address names: its column's letters followed by its row's numeral spell the address, so the address is decoded without loss. |
| Address.CellLabel | src/index.py:441 | The coordinate label of a position is a valid address that decodes back to that position, so different positions have different labels. |
| Address.ShortLabel | src/index.py:299-303 | A label of one capital letter and one nonzero digit is valid and names that letter's column and that digit's row. |
| Address.ShortRange | src/index.py:294-303 | Two such labels joined by `:` form a valid range that splits back into the two labels. |
| Address.ParseExamples | src/index.py:257-259 | `A1` is row 1, column 1. `AA10` is row 10, column 27. |
| Workbook.JoinNames | src/index.py:54-56 | No sheets render as the empty string; one sheet renders as its own name. |
| Workbook.JoinPrefix | src/index.py:54-56 | The listing of the first m names is a prefix of the full listing. |
| Workbook.JoinNamesLists | src/index.py:54-56 | Every sheet name appears verbatim in the listing at its offset after the earlier names and their separators. Each name but the first comes right after a `, ` separator, and the last name ends the listing. |
| Workbook.NewBook | src/index.py:76-77 | A new workbook has exactly one sheet, named `Sheet`, with no cells. |
| Workbook.AddSheet | src/index.py:162 | The new name is appended at the end, its sheet is empty, and every existing sheet is unchanged. |
| Workbook.WithSheet | src/index.py:190-192 | Replacing one sheet keeps the names and their order, and leaves every other sheet unchanged. |
| Workbook.Lookup | src/index.py:219 | A cell reads as its stored value exactly when it has one, and as None exactly when it was never written. |
| Workbook.StoredCells | src/index.py:438 | The stored cells are exactly those holding a value or a style. |
| Workbook.PutValue | src/index.py:191 | The written cell reads back the value. Every other cell reads as before. The set of cells gains exactly that cell, and the styles are unchanged. |
| Workbook.PutStyle | src/index.py:342-384 | The cell gets the new style and every other cell keeps its style. The values are unchanged, and no style entry other than this cell's appears. Setting a cell to the style it already has leaves the sheet as it was. A changed cell keeps a style entry exactly when its new style is not the default, because saving drops the default style of a cell and drops the cell too when it holds no value. A sheet whose entries are all non-default (`Normal`) stays so. |
| Access.Load | src/index.py:59-62 | Loading succeeds exactly when the path passes validation and the file holds a workbook. Otherwise the cause is a bad path, a missing file or an unreadable file, in that order. |
| Access.LoadSheet | src/index.py:186-188 | Loading with a sheet succeeds exactly when the workbook loads and has that sheet. A missing sheet is reported with the list of all sheet names, or without it, as the calling tool does. |
| Access.Save | src/index.py:192 | Saving puts the workbook at its path and leaves every other file as it was. |
| Access.SaveLoaded | src/index.py:59-62 | Saving back a workbook just loaded leaves the disk unchanged. |
| Tools.CreateWorkbook | src/index.py:73-81 | A bad path is refused and the disk is left unchanged. Otherwise the file at the path becomes a new one-sheet workbook, overwriting what was there. |
| Tools.GetWorkbookInfo | src/index.py:120-141 | On a loadable file, reports the path, the sheet count and the sheet names in order. Otherwise reports the load error. |
| Tools.IsSpace | src/index.py:154 | Python's whitespace test: blank, tab, line breaks and the ideographic space are whitespace; capital and small letters, digits, `_` and `-` are not. |
| Tools.StripStart | src/index.py:154 | Drops leading whitespace. The result is a suffix of the input, and what precedes it is all whitespace. It is empty exactly when the input is all whitespace; otherwise it starts with a non-space. |
| Tools.StripEnd | src/index.py:154 | Drops trailing whitespace. The result is a prefix of the input, and what follows it is all whitespace. It is empty exactly when the input is all whitespace; otherwise it ends with a non-space. |
| Tools.Strip | src/index.py:154 | The input is the result with a whitespace-only head in front and a whitespace-only tail behind. The result is empty exactly when the input is all whitespace; otherwise it starts and ends with a non-space. |
| Tools.IsBlank | src/index.py:154 | A sheet name is refused as blank exactly when every character of it is whitespace (the empty name included). |
| Tools.AddWorksheet | src/index.py:153-167 | A blank name is refused before the file is read. Then come load errors, then a duplicate name. Otherwise exactly one empty sheet is appended and saved. Every failure leaves the disk unchanged. |
| Tools.SetCellValue | src/index.py:181-196 | An invalid address is refused before loading. Next come load errors and a missing sheet, the latter reported with all sheet names. Otherwise only the addressed cell of the named sheet changes. Every failure leaves the disk unchanged. |
| Tools.GetCellValue | src/index.py:209-223 | Same error order as setting a cell. On success, returns the stored value, or None for a cell never written. |
| Tools.AddFormula | src/index.py:402-416 | The formula is stored verbatim as text in the addressed cell. A missing sheet is reported without the name list. Every failure leaves the disk unchanged. |
| Tools.FirstNonList | src/index.py:244-246 | Returns the index of the first element that is not a list, or the length when every element is a list. |
| Tools.Rows | src/index.py:262-263 | The row lists, in order. |
| Tools.SetRangeValues | src/index.py:237-271 | Errors, in order: invalid start cell; empty values; the first non-list row, numbered from 1; load errors; missing sheet. Each leaves the disk unchanged. On success, the named sheet's values become the block write from the start cell, no other sheet changes, and the result is the row count and the widest row. |
| Grid.Block | src/index.py:262-264 | The positions the loops write: (r0+i, c0+j) for every defined element (i, j). |
| Grid.Written | src/index.py:262-264 | Inside the block, the cell holds the matching element. Outside it, the cell keeps its old value. The set of cells is the old cells plus the block. |
| Grid.WriteBlock | src/index.py:262-264 | The nested loops produce exactly the block write. |
| Grid.ReadAfterWrite | src/index.py:262-264 | After the block write, cell (r0+i, c0+j) reads `values[i][j]`. |
| Grid.RaggedRowKeepsTail | src/index.py:263-264 | Columns past the end of a short row keep their old contents. |
| Grid.MaxWidth | src/index.py:268 | The reported width bounds every row, is reached by some row, and is 0 with no rows. |
| Tools.GetRangeValues | src/index.py:284-316 | An invalid range is refused, then come load and missing-sheet errors. On success, the result has end_row-start_row+1 rows (0 when reversed), each of end_col-start_col+1 entries (0 when reversed), and entry (i, j) is the cell at (start_row+i, start_col+j). |
| Grid.ReadBlock | src/index.py:306-312 | The nested loops build a grid of end_row-start_row+1 rows (0 when reversed), each of end_col-start_col+1 entries (0 when reversed), whose entry (i, j) is the cell at (start_row+i, start_col+j): the corners are taken as given. |
| Format.FontOf | src/index.py:345-358 | The font built from `font_kwargs` has no name, and its bold, italic, size and colour are set exactly for the keys given a value, to that value. A key present as null leaves its attribute unset. |
| Format.FillOf | src/index.py:361-367 | The pattern is `solid` for an absent key, unset for null, and otherwise the value given. The colour is `FFFFFF` for an absent key and otherwise the value given. A null colour is refused, since the fill's colour cannot be unset. |
| Format.SideOf | src/index.py:376-379 | The style is `thin` for an absent key, unset for null, and otherwise the value given. The colour is `000000` for an absent key, unset for null, and otherwise the value given. |
| Format.FontKwargs | src/index.py:345-358 | The key-by-key build of the font arguments gives the font `FontOf` describes. It reports the font as given exactly when some key is present, a key present as null included. |
| Format.Restyle | src/index.py:344-381 | The request raises, giving no style, exactly when a category or a border side is null, or a pattern fill has a null colour. Otherwise each category is handled on its own. The font is rebuilt from the present keys when at least one is present. The fill is rebuilt by `FillOf` when its type is `pattern`. The border is rebuilt by `SideOf` from the given sides when any side is given. Every other category is kept exactly. |
| Format.BorderSides | src/index.py:370-379 | The loop over top, left, bottom and right raises exactly when some given side is null. Otherwise it gives exactly the given sides, each built by `SideOf`. |
| Format.FormatStyle | src/index.py:344-381 | The step-by-step build of the keyword arguments, stopping where a null makes the code raise, gives exactly what `Restyle` describes. |
| Format.ReplacedIgnoresOld | src/index.py:344-381 | For a request that does not raise, a replaced category does not depend on the old style: nothing is merged. |
| Format.SecondFontWins | src/index.py:345-358 | After two font requests, the second one alone decides the font, whether or not the first raised. A key the second omits, or gives as null, stays unset whatever the first said. |
| Format.RestyleIdempotent | src/index.py:344-381 | Applying a format that does not raise a second time changes nothing more. |
| Format.NothingUsableKeepsStyle | src/index.py:344-381 | A request with nothing usable raises if it holds a null category or side, and otherwise leaves the style unchanged. |
| Format.Key.Get | src/index.py:364-377 | `dict.get(key, default)`: the default for an absent key, None for a key present as null, and otherwise the value given. |
| Format.Key.Arg | src/index.py:345-357 | The keyword argument a key contributes: set exactly when the key is given a value, and then to that value. |
| Format.NullBoldResetsFont | src/index.py:347-357 | `{"font": {"bold": null}}` replaces the whole font by a bare one, with every attribute unset. |
| Format.NullPatternIsNoPattern | src/index.py:362-367 | `{"fill": {"type": "pattern", "pattern": null}}` gives a fill with no pattern and colour `FFFFFF`. |
| Format.NullCategoryRaises | src/index.py:344-376 | A null font, fill or border, or a border side given as null, makes the request raise. |
| Tools.FormatCell | src/index.py:333-388 | Errors, in order: invalid address; load errors; missing sheet, without the name list; a request that raises, as `Restyle` describes. Every error leaves the disk unchanged. On success, only the addressed cell's style changes, to `Restyle` of its old style; all values are unchanged. |
| Grid.Extent | src/index.py:438 | The used range bounds every stored cell and is reached by some cell. It is 0 by 0 exactly when nothing is stored. |
| Grid.ScanRow | src/index.py:439-441 | One row of the scan keeps the found labels in row-major order, each a match, with no match missed so far. |
| Grid.ScanVisit | src/index.py:439-441 | Visiting one cell keeps the search state one column further: a match is appended with its coordinate label, any other cell leaves the result alone. |
| Grid.RowDone | src/index.py:438-439 | Past the last column of a row, the search state is the state at the start of the next row. |
| Grid.ScanDone | src/index.py:438-443 | Once every row is visited, the labels are valid, decode to matches inside the bounds in strict row-major order, and include every match inside the bounds. |
| Grid.Scan | src/index.py:438-443 | Every label is valid and decodes to a matching cell inside the scanned bounds. The labels are strictly in row-major order. Every matching cell inside the bounds is listed. |
| Tools.FindData | src/index.py:429-445 | Load errors and a missing sheet (without the name list) are reported. Otherwise the result lists, in row-major order, the label of every matching cell and only those. Matching compares type and value. There is no disk result, so the workbook is not modified. |
| Tools.ExportToCsv | src/index.py:458-476 | The grid handed to the CSV writer covers rows 1 to the last used row and columns 1 to the last used column. It is empty exactly for an empty sheet, its rows all have one length, each entry is that cell's value, and the bounds are tight. |
| Registry.OpenWorkbooks.constructor | src/index.py:24-25 | The registry starts with an empty cache and no open paths. |
| Registry.OpenWorkbooks.Open | src/index.py:92-109 | A failed load changes nothing. On success the path is in both the cache and the open set, with the loaded workbook cached, and the result gives the sheet count and rendered names. The invariant is kept. |
| Registry.OpenWorkbooks.Close | src/index.py:487-499 | A bad path is refused and changes nothing. Otherwise the result says whether the path was open, and afterwards it is in neither structure. The invariant is kept. |
| Registry.OpenWorkbooks.ListOpen | src/index.py:507-519 | The count is the number of open paths. The list holds each open path exactly once. |
| Scenarios.SampleRangeRoundTrip | test/excel_integration_test.py:149-216 | Writing the 4x4 sample at A3 reports 4 rows by 4 columns. Reading A3:D6 afterwards returns the sample. |
| Scenarios.CellRoundTrip | src/index.py:181-223 | Setting B2 to 42 and reading B2 gives 42. |
| Scenarios.AddSheetTwice | src/index.py:159-162 | Adding a new name succeeds. Adding it again fails with a duplicate-name error. |
| Scenarios.MissingSheet | src/index.py:214-216 | A missing sheet in a cell read is reported with all sheet names. The same sheet missing in a search is reported without them. |
| Scenarios.UpwardRange | src/index.py:307-312 | A range whose end row is above its start row reads no rows. |
| Scenarios.LeftwardRange | src/index.py:307-312 | A range whose end column is left of its start column reads rows that hold no values. |
| Scenarios.NumberIsNotText | src/index.py:440 | A stored integer 5 is not found when searching for the text "5". |
| Scenarios.OnlyOneMatch | test/excel_integration_test.py:35-41 | In the sample written at A3, "商品A" is at A4 and nowhere else. |
| Scenarios.SampleCellIsNotA | test/excel_integration_test.py:35-41 | Every cell of the sample block other than A4 holds something other than "商品A". |
| Scenarios.SingleHit | src/index.py:438-443 | If exactly one cell matches, the search result is exactly that cell's label. |
| Scenarios.FindSampleProduct | test/excel_integration_test.py:221-231 | Searching the sample for "商品A" returns exactly `["A4"]`. |
| Scenarios.SampleGrid | test/excel_integration_test.py:149-216 | Reading 4 rows by 4 columns from A3 after the sample was written there gives the sample itself. |
| Scenarios.FormatNothing | src/index.py:333-388 | A format request with nothing usable leaves the file exactly as it was. It succeeds and saves the workbook unchanged, or fails without saving when it holds a null category or side. |
| Scenarios.NullFontFails | src/index.py:344-347 | Formatting with a null font fails with a malformed-format error and leaves the file as it was. |
| Scenarios.FillThenClearCell | src/index.py:361-367 | On one sheet, a solid pattern fill stores an empty, unstyled cell. A pattern fill with a null pattern and colour `00000000` then restores the default style, and the sheet's stored cells are the ones it had before. |
| Scenarios.FillThenClear | src/index.py:333-388 | Two `format_cell` calls on an empty cell, a solid fill and then that clearing fill, both succeed. The saved sheet then stores the same cells as before the first call. |
| Scenarios.CloseNeverOpened | src/index.py:490-497 | On a fresh registry, closing a valid path succeeds, reports that it was not open, and leaves nothing listed. |
| Scenarios.OpenThenClose | src/index.py:487-519 | An opened workbook is the only one listed. Closing it reports that it was open, and afterwards nothing is listed. |
| Replay.CreateWithSheet | test/excel_integration_test.py:110-131 | Creating the workbook and adding `TestSheet` both succeed. The file then has the sheets `Sheet` and `TestSheet`, the latter empty. |
| Replay.TestBook | test/excel_integration_test.py:110-131 | `TestSheet` is not a sheet of a new workbook, and adding it gives the sheets `Sheet` and `TestSheet` in that order. |
| Replay.FillSheet | test/excel_integration_test.py:133-161 | Writing the title at A1 and the sample from A3 both succeed. They leave exactly the title and the table in the sheet, and no other sheet changes. |
| Replay.Setup | test/excel_integration_test.py:110-161 | Create, add `TestSheet`, write the title at A1 and the sample at A3 all succeed. The file then has sheets `Sheet` and `TestSheet`, the latter holding exactly the title and the table, with no styles. |
| Replay.FormatHeader | test/excel_integration_test.py:163-177 | Formatting A3 with the header format succeeds, and the file then holds the workbook with only A3's style of `TestSheet` replaced by the restyled one. |
| Replay.AddTotal | test/excel_integration_test.py:179-191 | Adding the total formula at E7 succeeds, and the file then holds the workbook with only E7's value of `TestSheet` set to the formula text. |
| Replay.Decorate | test/excel_integration_test.py:163-191 | Formatting A3 and adding the total at E7 succeed. The sheet names stay. In `TestSheet` the values gain the formula at E7, A3's style becomes the restyled one, every other cell keeps its style, and no new style entry appears but A3's. Every other sheet is unchanged. |
| Replay.ReadTitle | test/excel_integration_test.py:193-205 | Reading A1 of the finished sheet gives the title. |
| Replay.ReadTable | test/excel_integration_test.py:207-219 | Reading A3:D6 of the finished sheet gives the sample table. |
| Replay.FindProduct | test/excel_integration_test.py:221-233 | Searching the finished sheet for "商品A" gives exactly `["A4"]`. |
| Replay.FinishedCells | test/excel_integration_test.py:235-245 | In the finished sheet, every stored cell lies within A1:E7, E7 is stored, A1 holds the title and E7 the total formula. |
| Replay.Export | test/excel_integration_test.py:235-245 | The exported grid of the finished sheet is 7 rows by 5 columns, with the title top left and the total formula bottom right. |
| Replay.IntegrationRun | test/excel_integration_test.py:105-247 | From any disk and a valid path, steps 1 to 6 all return Ok, with the table write reporting 4 rows by 4 columns. Reading A1 gives the title, reading A3:D6 gives the sample, searching for "商品A" gives `["A4"]`, and the export is 7 rows of 5 entries with the title at its top-left and the total formula at its bottom-right. |

## Left out

- File format: reading and writing the xlsx container is abstracted into the disk map. A failed save (for example a directory that does not exist) is not modelled; saving always succeeds.
- Workbook.PutStyle: a sheet's style entries stand for cells whose saved style is not the default. A file written by another program may hold a cell with neither a value nor a style; the library loads such a cell and counts it in the used range, and the next save drops it. Such a cell has no representation here.
- Access.Load: a `.xls` path passes validation, but the workbook library refuses to read that format. The model reads whatever the disk holds at any valid path.
- Access.CheckPath: `os.path.isabs` is taken as the POSIX rule. Windows drive-letter paths are not modelled.
- Address.ValidCellIsPattern, Address.ValidCell, Address.ValidRange, Address.ValidRangeIsPattern: in both the cell pattern and the range pattern (each half of a range included), the regular expression's `$` also matches before a trailing newline, and `\d` matches non-ASCII decimal digits. For example `A1:B2` followed by a newline passes the range check, but the model rejects it. The model accepts ASCII digits only, with a strict end of string.
- SetCellValue, GetCellValue, AddFormula, SetRangeValues, GetRangeValues and FormatCell: the workbook library refuses addresses beyond its column and row limits. For example, four column letters pass the validator but fail there. The model accepts every address the validator accepts.
- AddWorksheet: the library's own rules for sheet titles are not modelled. It raises an error for a title holding any of `\ * ? : / [ ]`. It only warns, and still adds the sheet, for a title longer than 31 characters. It renames a title that differs from an existing one only in letter case. The model appends the name as given.
- PutValue, SetCellValue, AddFormula, SetRangeValues: the library's checks on text are not modelled. It raises `IllegalCharacterError` for text holding control characters. The file format keeps at most 32,767 characters per cell. An empty string written and saved reads back as None. The model stores any text verbatim and always reads it back as written, `Text("")` included.
- FormatCell, Restyle: a request whose values have other JSON types than the model's is not modelled. Examples are a category given as a string or a list, where the source tests keys as substrings or list members, and a bold flag given as a string. Each key is absent, null, or a value of the type shown.
- FormatCell: colours, pattern names and border styles are not validated or normalised the way the library does it, for example by padding a six-digit colour with an alpha byte. The model stores the strings as given.
- Default style: the default font's font family, scheme and theme colour are not modelled. Its name, size and explicit bold = False and italic = False are.
- Values: floating-point cells are not modelled. Neither is Python's cross-type equality (`1 == 1.0`, `True == 1`) in the search. Values are text, integers and booleans, compared structurally.
- SetRangeValues: row items that are None (which the library skips rather than writes), and items of unsupported types (which raise midway, before the save), are not modelled. Every row item is a value.
- ExportToCsv: the CSV serialiser, its quoting, the UTF-8 byte-order mark and the writing of the CSV file are not modelled. The result is the value grid handed to the serialiser, and `csvPath` is unused.
- GetWorkbookInfo: the file size and the modification time in the report are not modelled.
- Messages: the rendered message texts and JSON output are not modelled. Results are structured data instead.
- Tool registration and the server loop are not modelled, nor is argument coercion by the framework.
- Concurrency: calls between tools are sequential. Lost updates between concurrent calls are not modelled.
- The registry cache: the cached workbook object is never read by any tool, so only its presence is modelled, together with the workbook loaded at opening time.
