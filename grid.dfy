/** Rectangular operations on a sheet's value grid: writing a block of rows,
    reading a range, the extent of the stored cells and the equality search. */
module Grid {
  import opened Results
  import opened Address
  import opened Workbook

  // ---------------------------------------------------------------------------
  // Writing a block of (possibly ragged) rows from a start cell

  /** `k` receives a value when rows are written from (r0, c0): row k.row - r0
      exists and is long enough to reach column k.col - c0. */
  predicate InBlock(k: Pos, r0: nat, c0: nat, rows: seq<seq<Value>>) {
    r0 <= k.row < r0 + |rows| && c0 <= k.col < c0 + |rows[k.row - r0]|
  }

  /** The cell `rows[i][j]` goes to. */
  function Target(r0: nat, c0: nat, i: nat, j: nat): Pos
    requires 1 <= r0 && 1 <= c0
  {
    Coord(r0 + i, c0 + j)
  }

  function Block(r0: nat, c0: nat, rows: seq<seq<Value>>): (b: set<Pos>)
    requires 1 <= r0 && 1 <= c0
    ensures forall k: Pos :: k in b <==> InBlock(k, r0, c0, rows)
  {
    var b := set i: nat, j: nat | i < |rows| && j < |rows[i]| :: Target(r0, c0, i, j);
    forall k: Pos | InBlock(k, r0, c0, rows) ensures k in b {
      assert k == Target(r0, c0, k.row - r0, k.col - c0);
    }
    b
  }

  /** The values after writing `rows[i][j]` to (r0 + i, c0 + j) for every defined (i, j). */
  function Written(values: map<Pos, Value>, r0: nat, c0: nat, rows: seq<seq<Value>>): (out: map<Pos, Value>)
    requires 1 <= r0 && 1 <= c0
    ensures forall k: Pos :: k in out <==> k in values || InBlock(k, r0, c0, rows)
    ensures forall k: Pos :: InBlock(k, r0, c0, rows) ==> out[k] == rows[k.row - r0][k.col - c0]
    ensures forall k: Pos :: k in values && !InBlock(k, r0, c0, rows) ==> out[k] == values[k]
  {
    var b := Block(r0, c0, rows);
    map k | k in values.Keys + b :: if InBlock(k, r0, c0, rows) then rows[k.row - r0][k.col - c0] else values[k]
  }

  /** Cells already written when the loops stand at row `i`, column `j`. */
  predicate Done(k: Pos, r0: nat, c0: nat, rows: seq<seq<Value>>, i: nat, j: nat)
    requires i <= |rows|
  {
    && r0 <= k.row && c0 <= k.col
    && ((k.row - r0 < i && k.col - c0 < |rows[k.row - r0]|) || (i < |rows| && k.row - r0 == i && k.col - c0 < j))
  }

  /** The nested loops of the range writer: row by row, cell by cell. */
  method WriteBlock(values: map<Pos, Value>, r0: nat, c0: nat, rows: seq<seq<Value>>) returns (out: map<Pos, Value>)
    requires 1 <= r0 && 1 <= c0
    ensures out == Written(values, r0, c0, rows)
  {
    out := values;
    var i := 0;
    while i < |rows|
      invariant 0 <= i <= |rows|
      invariant forall k: Pos :: k in out <==> k in values || Done(k, r0, c0, rows, i, 0)
      invariant forall k: Pos :: k in out ==>
        out[k] == if Done(k, r0, c0, rows, i, 0) then rows[k.row - r0][k.col - c0] else values[k]
    {
      var j := 0;
      while j < |rows[i]|
        invariant 0 <= j <= |rows[i]|
        invariant forall k: Pos :: k in out <==> k in values || Done(k, r0, c0, rows, i, j)
        invariant forall k: Pos :: k in out ==>
          out[k] == if Done(k, r0, c0, rows, i, j) then rows[k.row - r0][k.col - c0] else values[k]
      {
        out := out[Coord(r0 + i, c0 + j) := rows[i][j]];
        j := j + 1;
      }
      assert forall k: Pos :: Done(k, r0, c0, rows, i, |rows[i]|) <==> Done(k, r0, c0, rows, i + 1, 0);
      i := i + 1;
    }
    assert forall k: Pos :: Done(k, r0, c0, rows, i, 0) <==> InBlock(k, r0, c0, rows);
  }

  /** Reading back a rectangular block right after writing it yields the block. */
  lemma ReadAfterWrite(values: map<Pos, Value>, r0: nat, c0: nat, rows: seq<seq<Value>>, i: nat, j: nat)
    requires 1 <= r0 && 1 <= c0
    requires i < |rows| && j < |rows[i]|
    ensures Lookup(Written(values, r0, c0, rows), Coord(r0 + i, c0 + j)) == Some(rows[i][j])
  {
    var k: Pos := Coord(r0 + i, c0 + j);
    assert InBlock(k, r0, c0, rows);
  }

  /** A shorter row leaves cells to the right of it as they were. */
  lemma RaggedRowKeepsTail(values: map<Pos, Value>, r0: nat, c0: nat, rows: seq<seq<Value>>, i: nat, j: nat)
    requires 1 <= r0 && 1 <= c0
    requires i < |rows| && |rows[i]| <= j
    ensures Lookup(Written(values, r0, c0, rows), Coord(r0 + i, c0 + j)) == Lookup(values, Coord(r0 + i, c0 + j))
  {
    var k: Pos := Coord(r0 + i, c0 + j);
    assert !InBlock(k, r0, c0, rows);
  }

  /** The widest row: `max(len(row) for row in values)`, 0 for no rows. */
  function MaxWidth(rows: seq<seq<Value>>): (w: nat)
    ensures forall i :: 0 <= i < |rows| ==> |rows[i]| <= w
    ensures rows != [] ==> exists i :: 0 <= i < |rows| && |rows[i]| == w
    ensures rows == [] ==> w == 0
  {
    if rows == [] then 0
    else
      var w := MaxWidth(rows[1..]);
      if |rows[0]| >= w then |rows[0]| else w
  }

  // ---------------------------------------------------------------------------
  // Reading a range

  /** Number of indices in `range(lo, hi + 1)`. */
  function Span(lo: nat, hi: nat): nat {
    if lo <= hi then hi - lo + 1 else 0
  }

  /** `grid` holds rows sr..er, each of columns sc..ec, of `values`, taken literally
      from start to end (reversed corners give no rows, or empty rows). */
  predicate IsBlock(grid: seq<seq<Option<Value>>>, values: map<Pos, Value>, sr: nat, sc: nat, er: nat, ec: nat)
    requires 1 <= sr && 1 <= sc
  {
    && |grid| == Span(sr, er)
    && (forall i :: 0 <= i < |grid| ==> |grid[i]| == Span(sc, ec))
    && (forall i, j :: 0 <= i < |grid| && 0 <= j < |grid[i]| ==>
          grid[i][j] == Lookup(values, Coord(sr + i, sc + j)))
  }

  /** The nested loops of the range reader. */
  method ReadBlock(values: map<Pos, Value>, sr: nat, sc: nat, er: nat, ec: nat)
    returns (grid: seq<seq<Option<Value>>>)
    requires 1 <= sr && 1 <= sc
    ensures IsBlock(grid, values, sr, sc, er, ec)
  {
    grid := [];
    var row := sr;
    while row <= er
      invariant sr <= row && row - sr <= Span(sr, er)
      invariant |grid| == row - sr
      invariant forall i :: 0 <= i < |grid| ==> |grid[i]| == Span(sc, ec)
      invariant forall i, j :: 0 <= i < |grid| && 0 <= j < |grid[i]| ==>
        grid[i][j] == Lookup(values, Coord(sr + i, sc + j))
    {
      var rowValues := [];
      var col := sc;
      while col <= ec
        invariant sc <= col && col - sc <= Span(sc, ec)
        invariant |rowValues| == col - sc
        invariant forall j :: 0 <= j < |rowValues| ==> rowValues[j] == Lookup(values, Coord(row, sc + j))
      {
        rowValues := rowValues + [Lookup(values, Coord(row, col))];
        col := col + 1;
      }
      grid := grid + [rowValues];
      row := row + 1;
    }
  }

  // ---------------------------------------------------------------------------
  // The extent of the stored cells (the sheet's max_row and max_column)

  method Extent(cells: set<Pos>) returns (maxRow: nat, maxCol: nat)
    ensures forall k :: k in cells ==> k.row <= maxRow && k.col <= maxCol
    ensures cells == {} <==> maxRow == 0
    ensures cells == {} <==> maxCol == 0
    ensures cells != {} ==> (exists k :: k in cells && k.row == maxRow) && (exists k :: k in cells && k.col == maxCol)
  {
    maxRow, maxCol := 0, 0;
    var rest := cells;
    while rest != {}
      invariant rest <= cells
      invariant forall k :: k in cells - rest ==> k.row <= maxRow && k.col <= maxCol
      invariant cells - rest == {} ==> maxRow == 0 && maxCol == 0
      invariant cells - rest != {} ==> 1 <= maxRow && 1 <= maxCol
      invariant cells - rest != {} ==>
        (exists k :: k in cells - rest && k.row == maxRow) && (exists k :: k in cells - rest && k.col == maxCol)
      decreases |rest|
    {
      var k :| k in rest;
      if k.row > maxRow { maxRow := k.row; }
      if k.col > maxCol { maxCol := k.col; }
      rest := rest - {k};
    }
  }

  // ---------------------------------------------------------------------------
  // The equality search

  /** Row-major order: earlier row first, then earlier column. */
  predicate Before(a: Coord, b: Coord) {
    a.row < b.row || (a.row == b.row && a.col < b.col)
  }

  predicate Matches(values: map<Pos, Value>, k: Pos, v: Value) {
    k in values && values[k] == v
  }

  /** `labels` renders `hits`, one coordinate label per position. */
  ghost predicate Renders(labels: seq<string>, hits: seq<Pos>)
    decreases |labels|
  {
    && |labels| == |hits|
    && (labels != [] ==>
          && Renders(labels[..|labels| - 1], hits[..|hits| - 1])
          && labels[|labels| - 1] == CellLabel(hits[|hits| - 1]))
  }

  /** The label at each index is the label of the hit at that index. */
  lemma {:induction false} RenderedAt(labels: seq<string>, hits: seq<Pos>, i: nat)
    requires Renders(labels, hits) && i < |hits|
    ensures |labels| == |hits| && labels[i] == CellLabel(hits[i])
    decreases |labels|
  {
    var n := |labels| - 1;
    if i < n {
      RenderedAt(labels[..n], hits[..n], i);
      assert labels[..n][i] == labels[i] && hits[..n][i] == hits[i];
    }
  }

  /** `hits` holds matches, strictly ascending in row-major order, all before `cursor`. */
  ghost predicate SortedMatches(values: map<Pos, Value>, v: Value, hits: seq<Pos>, cursor: Coord, maxCol: nat) {
    && (forall i :: 0 <= i < |hits| ==> Before(hits[i], cursor) && hits[i].col <= maxCol && Matches(values, hits[i], v))
    && (forall i, j :: 0 <= i < j < |hits| ==> Before(hits[i], hits[j]))
  }

  /** Every match before `cursor` (within the scanned columns) is in `hits`. */
  ghost predicate Complete(values: map<Pos, Value>, v: Value, hits: seq<Pos>, cursor: Coord, maxCol: nat) {
    forall k: Pos :: Before(k, cursor) && k.col <= maxCol && Matches(values, k, v) ==> k in hits
  }

  /** The state of the search with every cell before `cursor` visited. */
  ghost predicate Scanned(values: map<Pos, Value>, v: Value, labels: seq<string>, hits: seq<Pos>, cursor: Coord, maxCol: nat) {
    Renders(labels, hits) && SortedMatches(values, v, hits, cursor, maxCol) && Complete(values, v, hits, cursor, maxCol)
  }

  /** Visiting a matching cell: it is appended, and the bookkeeping of the hits
      holds one column further. */
  lemma ScanHit(values: map<Pos, Value>, v: Value, hits: seq<Pos>, here: Pos, maxCol: nat)
    requires here.col <= maxCol && Matches(values, here, v)
    requires SortedMatches(values, v, hits, here, maxCol)
    requires Complete(values, v, hits, here, maxCol)
    ensures SortedMatches(values, v, hits + [here], Coord(here.row, here.col + 1), maxCol)
    ensures Complete(values, v, hits + [here], Coord(here.row, here.col + 1), maxCol)
  {
    var cursor := Coord(here.row, here.col + 1);
    forall k: Pos | Before(k, cursor) && k.col <= maxCol && Matches(values, k, v)
      ensures k in hits + [here]
    {
      if k != here {
        assert Before(k, here);
      }
    }
  }

  /** Visiting a cell that does not match: the hits hold one column further as they are. */
  lemma ScanMiss(values: map<Pos, Value>, v: Value, hits: seq<Pos>, here: Pos, maxCol: nat)
    requires here.col <= maxCol && !Matches(values, here, v)
    requires SortedMatches(values, v, hits, here, maxCol)
    requires Complete(values, v, hits, here, maxCol)
    ensures SortedMatches(values, v, hits, Coord(here.row, here.col + 1), maxCol)
    ensures Complete(values, v, hits, Coord(here.row, here.col + 1), maxCol)
  {
    var cursor := Coord(here.row, here.col + 1);
    forall k: Pos | Before(k, cursor) && k.col <= maxCol && Matches(values, k, v)
      ensures k in hits
    {
      assert Before(k, here);
    }
  }

  /** Appending a position and its label keeps the labels rendering the hits. */
  lemma RendersAppend(labels: seq<string>, hits: seq<Pos>, here: Pos)
    requires Renders(labels, hits)
    ensures Renders(labels + [CellLabel(here)], hits + [here])
  {
    assert (labels + [CellLabel(here)])[..|labels|] == labels;
    assert (hits + [here])[..|hits|] == hits;
  }

  /** Visiting one cell: a match is appended with its label, and the search state
      holds one column further. */
  lemma ScanVisit(values: map<Pos, Value>, v: Value, labels: seq<string>, hits: seq<Pos>, here: Pos, maxCol: nat)
    requires here.col <= maxCol
    requires Scanned(values, v, labels, hits, here, maxCol)
    ensures Matches(values, here, v) ==>
      Scanned(values, v, labels + [CellLabel(here)], hits + [here], Coord(here.row, here.col + 1), maxCol)
    ensures !Matches(values, here, v) ==>
      Scanned(values, v, labels, hits, Coord(here.row, here.col + 1), maxCol)
  {
    if Matches(values, here, v) {
      ScanHit(values, v, hits, here, maxCol);
      RendersAppend(labels, hits, here);
    } else {
      ScanMiss(values, v, hits, here, maxCol);
    }
  }

  /** Past the last scanned column of a row is the same as the start of the next row. */
  lemma RowDone(values: map<Pos, Value>, v: Value, hits: seq<Pos>, row: nat, maxCol: nat)
    requires SortedMatches(values, v, hits, Coord(row, maxCol + 1), maxCol)
    requires Complete(values, v, hits, Coord(row, maxCol + 1), maxCol)
    ensures SortedMatches(values, v, hits, Coord(row + 1, 1), maxCol)
    ensures Complete(values, v, hits, Coord(row + 1, 1), maxCol)
  {
    forall k: Pos | Before(k, Coord(row + 1, 1)) && k.col <= maxCol && Matches(values, k, v)
      ensures k in hits
    {
      assert Before(k, Coord(row, maxCol + 1));
    }
  }

  /** One row of the search: columns 1..maxCol of row `row`. */
  method ScanRow(values: map<Pos, Value>, v: Value, row: nat, maxCol: nat, labels: seq<string>, ghost hits: seq<Pos>)
    returns (labels': seq<string>, ghost hits': seq<Pos>)
    requires 1 <= row
    requires Scanned(values, v, labels, hits, Coord(row, 1), maxCol)
    ensures Scanned(values, v, labels', hits', Coord(row + 1, 1), maxCol)
  {
    labels', hits' := labels, hits;
    var col := 1;
    while col <= maxCol
      invariant 1 <= col <= maxCol + 1
      invariant Scanned(values, v, labels', hits', Coord(row, col), maxCol)
    {
      var here: Pos := Coord(row, col);
      ScanVisit(values, v, labels', hits', here, maxCol);
      if here in values && values[here] == v {
        labels' := labels' + [CellLabel(here)];
        hits' := hits' + [here];
      }
      col := col + 1;
    }
    RowDone(values, v, hits', row, maxCol);
  }

  /** Once every row is scanned, the labels decode to exactly the matches, in order. */
  lemma LabelsDecode(labels: seq<string>, hits: seq<Pos>)
    requires Renders(labels, hits)
    ensures |labels| == |hits|
    ensures forall i :: 0 <= i < |labels| ==> ValidCell(labels[i]) && ParseCell(labels[i]) == hits[i]
  {
    forall i | 0 <= i < |labels| ensures ValidCell(labels[i]) && ParseCell(labels[i]) == hits[i] {
      RenderedAt(labels, hits, i);
    }
  }

  lemma ScanDone(values: map<Pos, Value>, v: Value, labels: seq<string>, hits: seq<Pos>, maxRow: nat, maxCol: nat)
    requires Scanned(values, v, labels, hits, Coord(maxRow + 1, 1), maxCol)
    ensures forall i :: 0 <= i < |labels| ==> ValidCell(labels[i])
    ensures forall i :: 0 <= i < |labels| ==>
      var p := ParseCell(labels[i]); p.row <= maxRow && p.col <= maxCol && Matches(values, p, v)
    ensures forall i, j :: 0 <= i < j < |labels| ==> Before(ParseCell(labels[i]), ParseCell(labels[j]))
    ensures forall k: Pos :: k.row <= maxRow && k.col <= maxCol && Matches(values, k, v) ==> CellLabel(k) in labels
  {
    LabelsDecode(labels, hits);
    forall k: Pos | k.row <= maxRow && k.col <= maxCol && Matches(values, k, v)
      ensures CellLabel(k) in labels
    {
      assert Before(k, Coord(maxRow + 1, 1));
      var i :| 0 <= i < |hits| && hits[i] == k;
      RenderedAt(labels, hits, i);
    }
  }

  /** Visit every cell of rows 1..maxRow and columns 1..maxCol in row-major order and
      collect the coordinate labels of the cells whose value equals `v`. */
  method Scan(values: map<Pos, Value>, v: Value, maxRow: nat, maxCol: nat) returns (labels: seq<string>)
    ensures forall i :: 0 <= i < |labels| ==> ValidCell(labels[i])
    ensures forall i :: 0 <= i < |labels| ==>
      var p := ParseCell(labels[i]); p.row <= maxRow && p.col <= maxCol && Matches(values, p, v)
    ensures forall i, j :: 0 <= i < j < |labels| ==> Before(ParseCell(labels[i]), ParseCell(labels[j]))
    ensures forall k: Pos :: k.row <= maxRow && k.col <= maxCol && Matches(values, k, v) ==> CellLabel(k) in labels
  {
    labels := [];
    ghost var hits: seq<Pos> := [];
    var row := 1;
    while row <= maxRow
      invariant 1 <= row <= maxRow + 1
      invariant Scanned(values, v, labels, hits, Coord(row, 1), maxCol)
    {
      labels, hits := ScanRow(values, v, row, maxCol, labels, hits);
      row := row + 1;
    }
    ScanDone(values, v, labels, hits, maxRow, maxCol);
  }
}
