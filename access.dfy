/** Workbook access: path validation, the error kinds every operation reports,
    and loading a workbook from the disk. The disk maps a path to what the file
    there holds; the file codec itself is not part of this model. */
module Access {
  import opened Results
  import opened Workbook

  // ---------------------------------------------------------------------------
  // Errors: every operation re-raises a failure tagged with its own operation

  datatype Op =
    | CreateOp | OpenOp | InfoOp | AddSheetOp | SetCellOp | GetCellOp | SetRangeOp
    | GetRangeOp | FormatOp | FormulaOp | FindOp | ExportOp | CloseOp

  datatype PathError = EmptyPath | BadExtension | NotAbsolute

  datatype Cause =
    | BadPath(reason: PathError)
    | FileNotFound(path: string)
    | LoadFailed(path: string)
    | InvalidCell(cell: string)
    | InvalidRange(addr: string)
    | EmptyValues
    | RowNotList(row: nat)
    | SheetNotFound(sheet: string, available: Option<seq<string>>)
    | BlankSheetName
    | DuplicateSheet(sheet: string)
    | MalformedFormat

  datatype Error = Error(op: Op, cause: Cause)

  // ---------------------------------------------------------------------------
  // Paths

  predicate EndsWith(s: string, suffix: string) {
    |suffix| <= |s| && s[|s| - |suffix|..] == suffix
  }

  /** POSIX rule: an absolute path starts with '/'. */
  predicate IsAbsolute(path: string) {
    |path| > 0 && path[0] == '/'
  }

  predicate HasWorkbookExtension(path: string) {
    EndsWith(path, ".xlsx") || EndsWith(path, ".xls")
  }

  /** The path checks, in their order: empty, then extension, then absoluteness. */
  function CheckPath(path: string): (e: Option<PathError>)
    ensures e.None? <==> path != "" && HasWorkbookExtension(path) && IsAbsolute(path)
    ensures e == Some(EmptyPath) <==> path == ""
    ensures e == Some(BadExtension) <==> path != "" && !HasWorkbookExtension(path)
    ensures e == Some(NotAbsolute) <==> path != "" && HasWorkbookExtension(path) && !IsAbsolute(path)
  {
    if path == "" then Some(EmptyPath)
    else if !HasWorkbookExtension(path) then Some(BadExtension)
    else if !IsAbsolute(path) then Some(NotAbsolute)
    else None
  }

  lemma PathExamples()
    ensures CheckPath("/data/report.xlsx").None? && CheckPath("/data/old.xls").None?
    ensures CheckPath("") == Some(EmptyPath)
    ensures CheckPath("/data/report.csv") == Some(BadExtension)
    ensures CheckPath("report.xlsx") == Some(NotAbsolute)
  {
  }

  // ---------------------------------------------------------------------------
  // The disk

  /** What a file holds: a workbook the codec can read, or content it rejects. */
  datatype Stored = Xlsx(book: Book) | Unreadable

  type Disk = map<string, Stored>

  /** `load_workbook`: validate the path, then read the file. */
  function Load(disk: Disk, path: string): (r: Result<Book, Cause>)
    ensures r.Ok? <==> CheckPath(path).None? && path in disk && disk[path].Xlsx?
    ensures r.Ok? ==> r.value == disk[path].book
    ensures CheckPath(path).Some? ==> r == Err(BadPath(CheckPath(path).value))
    ensures CheckPath(path).None? && path !in disk ==> r == Err(FileNotFound(path))
    ensures CheckPath(path).None? && path in disk && disk[path].Unreadable? ==> r == Err(LoadFailed(path))
  {
    match CheckPath(path)
    case Some(e) => Err(BadPath(e))
    case None =>
      if path !in disk then Err(FileNotFound(path))
      else match disk[path]
        case Xlsx(b) => Ok(b)
        case Unreadable => Err(LoadFailed(path))
  }

  /** Load, then check that the sheet exists. The cell and range operations list the
      available sheet names in the error (`listNames`); the others do not. */
  function LoadSheet(disk: Disk, path: string, sheet: string, listNames: bool): (r: Result<Book, Cause>)
    ensures r.Ok? <==> Load(disk, path).Ok? && sheet in Load(disk, path).value.names
    ensures r.Ok? ==> r.value == Load(disk, path).value
    ensures Load(disk, path).Err? ==> r == Err(Load(disk, path).error)
    ensures Load(disk, path).Ok? && sheet !in Load(disk, path).value.names ==>
      r == Err(SheetNotFound(sheet, if listNames then Some(Load(disk, path).value.names) else None))
  {
    match Load(disk, path)
    case Err(c) => Err(c)
    case Ok(b) =>
      if sheet in b.names then Ok(b)
      else Err(SheetNotFound(sheet, if listNames then Some(b.names) else None))
  }

  /** `workbook.save(path)`: the file now holds exactly this workbook. */
  function Save(disk: Disk, path: string, b: Book): (d: Disk)
    ensures d.Keys == disk.Keys + {path}
    ensures d[path] == Xlsx(b)
    ensures forall p :: p in disk && p != path ==> d[p] == disk[p]
  {
    disk[path := Xlsx(b)]
  }

  /** A successful load followed by a save of what was loaded leaves the disk as it was. */
  lemma SaveLoaded(disk: Disk, path: string)
    requires Load(disk, path).Ok?
    ensures Save(disk, path, Load(disk, path).value) == disk
  {
  }
}
