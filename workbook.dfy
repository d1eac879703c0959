/** The in-memory workbook: named sheets, each a grid of cell values and cell styles. */
module Workbook {
  import opened Results
  import opened Address

  /** A stored cell value. A formula is a Text value kept verbatim. */
  datatype Value = Text(s: string) | Int(i: int) | Bool(b: bool)

  // ---------------------------------------------------------------------------
  // Styles: the three categories a cell's format is made of

  /** A font; an absent attribute is one the font object leaves unset. */
  datatype Font = Font(name: Option<string>, size: Option<int>, bold: Option<bool>,
                       italic: Option<bool>, color: Option<string>)
  datatype Fill = Fill(patternType: Option<string>, fgColor: string)
  datatype SideName = Top | Left | Bottom | Right
  /** A side line; an absent attribute is one the side object leaves unset. */
  datatype Side = Side(style: Option<string>, color: Option<string>)
  /** A border lists the sides that carry a line. */
  datatype Style = Style(font: Font, fill: Fill, border: map<SideName, Side>)

  /** The style of a cell nobody has formatted (the codec's defaults). */
  const DefaultFont := Font(Some("Calibri"), Some(11), Some(false), Some(false), None)
  const DefaultFill := Fill(None, "00000000")
  const DefaultStyle := Style(DefaultFont, DefaultFill, map[])

  // ---------------------------------------------------------------------------
  // Sheets

  /** A cell is stored when it has a value or a non-default style. */
  datatype Sheet = Sheet(values: map<Pos, Value>, styles: map<Pos, Style>)

  const EmptySheet := Sheet(map[], map[])

  /** The value at `p`; None is Python's None for a cell never written. */
  function Lookup(values: map<Pos, Value>, p: Pos): (r: Option<Value>)
    ensures r.Some? <==> p in values
    ensures r.Some? ==> r.value == values[p]
  {
    if p in values then Some(values[p]) else None
  }

  function StyleAt(sheet: Sheet, p: Pos): Style {
    if p in sheet.styles then sheet.styles[p] else DefaultStyle
  }

  /** Assign one cell's value (`worksheet[cell] = value`). */
  function PutValue(sheet: Sheet, p: Pos, v: Value): (r: Sheet)
    ensures Lookup(r.values, p) == Some(v)
    ensures forall q :: q != p ==> Lookup(r.values, q) == Lookup(sheet.values, q)
    ensures r.values.Keys == sheet.values.Keys + {p}
    ensures r.styles == sheet.styles
  {
    sheet.(values := sheet.values[p := v])
  }

  /** Every style entry differs from the default: a cell carries a style entry
      exactly when saving it records a style. */
  predicate Normal(sheet: Sheet) {
    forall q :: q in sheet.styles ==> sheet.styles[q] != DefaultStyle
  }

  /** Assign one cell's style; a cell whose style does not change is left as stored,
      and one set back to the default loses its style entry, as saving drops the
      style of such a cell (and the cell itself when it has no value). */
  function PutStyle(sheet: Sheet, p: Pos, st: Style): (r: Sheet)
    ensures StyleAt(r, p) == st
    ensures forall q :: q != p ==> StyleAt(r, q) == StyleAt(sheet, q)
    ensures r.values == sheet.values
    ensures r.styles.Keys <= sheet.styles.Keys + {p}
    ensures st == StyleAt(sheet, p) ==> r == sheet
    ensures st != StyleAt(sheet, p) ==> (p in r.styles <==> st != DefaultStyle)
    ensures Normal(sheet) ==> Normal(r) && (p in r.styles <==> st != DefaultStyle)
  {
    if st == StyleAt(sheet, p) then sheet
    else if st == DefaultStyle then sheet.(styles := sheet.styles - {p})
    else sheet.(styles := sheet.styles[p := st])
  }

  /** The stored cells: those with a value or a style. */
  function StoredCells(sheet: Sheet): (cells: set<Pos>)
    ensures forall p :: p in cells <==> p in sheet.values || p in sheet.styles
  {
    sheet.values.Keys + sheet.styles.Keys
  }

  // ---------------------------------------------------------------------------
  // Workbooks

  predicate Distinct(names: seq<string>) {
    forall i, j :: 0 <= i < j < |names| ==> names[i] != names[j]
  }

  /** Sheet names are distinct, in tab order, and each has exactly one sheet. */
  predicate WellFormed(b: BookData) {
    && Distinct(b.names)
    && (forall n :: n in b.sheets ==> n in b.names)
    && (forall i :: 0 <= i < |b.names| ==> b.names[i] in b.sheets)
  }

  datatype BookData = BookData(names: seq<string>, sheets: map<string, Sheet>)
  type Book = b: BookData | WellFormed(b) witness BookData(["Sheet"], map["Sheet" := EmptySheet])

  /** A fresh workbook: one empty sheet titled "Sheet". */
  function NewBook(): (b: Book)
    ensures b.names == ["Sheet"] && "Sheet" in b.sheets && b.sheets["Sheet"] == EmptySheet
  {
    BookData(["Sheet"], map["Sheet" := EmptySheet])
  }

  function SheetOf(b: Book, name: string): Sheet
    requires name in b.names
  {
    b.sheets[name]
  }

  /** Replace one sheet; the names, their order and every other sheet stay. */
  function WithSheet(b: Book, name: string, s: Sheet): (r: Book)
    requires name in b.names
    ensures r.names == b.names
    ensures SheetOf(r, name) == s
    ensures forall n :: n in b.names && n != name ==> SheetOf(r, n) == SheetOf(b, n)
  {
    b.(sheets := b.sheets[name := s])
  }

  /** Append a new empty sheet (`workbook.create_sheet(name)`). */
  function AddSheet(b: Book, name: string): (r: Book)
    requires name !in b.names
    ensures r.names == b.names + [name]
    ensures SheetOf(r, name) == EmptySheet
    ensures forall n :: n in b.names ==> SheetOf(r, n) == SheetOf(b, n)
  {
    var d := BookData(b.names + [name], b.sheets[name := EmptySheet]);
    assert forall i :: 0 <= i < |b.names| ==> d.names[i] == b.names[i];
    d
  }

  // ---------------------------------------------------------------------------
  // The sheet-name listing used in messages (`', '.join(workbook.sheetnames)`)

  function JoinNames(names: seq<string>): (s: string)
    ensures names == [] ==> s == ""
    ensures |names| == 1 ==> s == names[0]
  {
    if names == [] then ""
    else if |names| == 1 then names[0]
    else JoinNames(names[..|names| - 1]) + ", " + names[|names| - 1]
  }

  /** Where names[k] starts in the listing: after the earlier names and their separators. */
  function NameOffset(names: seq<string>, k: nat): nat
    requires k <= |names|
  {
    if k == 0 then 0 else |JoinNames(names[..k])| + 2
  }

  lemma {:induction false} JoinPrefix(names: seq<string>, m: nat)
    requires 1 <= m <= |names|
    ensures JoinNames(names[..m]) <= JoinNames(names)
    decreases |names|
  {
    if m < |names| {
      var init := names[..|names| - 1];
      assert names[..m] == init[..m];
      JoinPrefix(init, m);
      assert init == names[..|names| - 1];
    } else {
      assert names[..m] == names;
    }
  }

  /** A slice of a prefix is the same slice of the whole listing. */
  lemma PrefixSlice(a: string, b: string, i: nat, j: nat)
    requires a <= b && i <= j <= |a|
    ensures b[i..j] == a[i..j]
  {
  }

  /** The listing of the first k + 1 names: names[k] follows the listing of the ones before it. */
  lemma JoinEntry(names: seq<string>, k: nat)
    requires k < |names|
    ensures NameOffset(names, k) + |names[k]| == |JoinNames(names[..k + 1])|
    ensures JoinNames(names[..k + 1])[NameOffset(names, k)..] == names[k]
    ensures 0 < k ==> JoinNames(names[..k + 1])[NameOffset(names, k) - 2..NameOffset(names, k)] == ", "
  {
    var pre := names[..k + 1];
    if k == 0 {
      assert JoinNames(pre) == names[0];
    } else {
      assert pre[..k] == names[..k];
      assert JoinNames(pre) == JoinNames(names[..k]) + ", " + names[k];
    }
  }

  /** The listing names every sheet: names[k] appears verbatim at its offset, right
      after a `, ` separator unless it is the first, and the last name ends the listing. */
  lemma JoinNamesLists(names: seq<string>, k: nat)
    requires k < |names|
    ensures NameOffset(names, k) + |names[k]| <= |JoinNames(names)|
    ensures JoinNames(names)[NameOffset(names, k)..NameOffset(names, k) + |names[k]|] == names[k]
    ensures 0 < k ==> JoinNames(names)[NameOffset(names, k) - 2..NameOffset(names, k)] == ", "
    ensures k == |names| - 1 ==> NameOffset(names, k) + |names[k]| == |JoinNames(names)|
  {
    var j := JoinNames(names[..k + 1]);
    var o := NameOffset(names, k);
    JoinPrefix(names, k + 1);
    JoinEntry(names, k);
    assert j[o..o + |names[k]|] == names[k];
    PrefixSlice(j, JoinNames(names), o, o + |names[k]|);
    if 0 < k {
      PrefixSlice(j, JoinNames(names), o - 2, o);
    }
    if k == |names| - 1 {
      assert names[..k + 1] == names;
    }
  }

}
