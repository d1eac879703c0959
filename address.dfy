/** A1-style spreadsheet coordinates: the cell and range validators and the
    codec between a label such as "AA10" and a (row, column) pair. */
module Address {

  /** A position in a sheet; rows and columns are counted from 1. */
  datatype Coord = Coord(row: nat, col: nat)
  type Pos = c: Coord | 1 <= c.row && 1 <= c.col witness Coord(1, 1)

  predicate IsUpper(c: char) { 'A' <= c <= 'Z' }
  predicate IsDigit(c: char) { '0' <= c <= '9' }
  predicate IsNonZeroDigit(c: char) { '1' <= c <= '9' }

  predicate AllUpper(s: string) { forall i :: 0 <= i < |s| ==> IsUpper(s[i]) }
  predicate AllDigits(s: string) { forall i :: 0 <= i < |s| ==> IsDigit(s[i]) }

  // ---------------------------------------------------------------------------
  // The recognisers

  /** Length of the longest prefix of `s` made of upper-case ASCII letters. */
  function UpperRun(s: string): (n: nat)
    ensures n <= |s|
    ensures AllUpper(s[..n])
    ensures n < |s| ==> !IsUpper(s[n])
  {
    if s == [] || !IsUpper(s[0]) then 0
    else
      var m := UpperRun(s[1..]);
      assert s[..m + 1] == [s[0]] + s[1..][..m];
      1 + m
  }

  /** The letter run is the only split point with "letters before, non-letter at". */
  lemma UpperRunIs(s: string, n: nat)
    requires n <= |s| && AllUpper(s[..n])
    requires n < |s| ==> !IsUpper(s[n])
    ensures UpperRun(s) == n
  {
    if n > 0 {
      assert s[1..][..n - 1] == s[..n][1..];
      UpperRunIs(s[1..], n - 1);
    }
  }

  /** The hand-written recogniser for the pattern ^[A-Z]+[1-9][0-9]*$ :
      one or more letters, a non-zero digit, then any digits, and nothing else. */
  predicate ValidCell(s: string)
    ensures ValidCell(s) ==> 2 <= |s| && IsUpper(s[0]) && IsDigit(s[|s| - 1])
    ensures ValidCell(s) ==> forall k :: 0 <= k < |s| ==> IsUpper(s[k]) || IsDigit(s[k])
  {
    var n := UpperRun(s);
    1 <= n < |s| && IsNonZeroDigit(s[n]) && AllDigits(s[n + 1..])
  }

  /** The same pattern read literally, as "there is a split point". */
  ghost predicate CellPattern(s: string) {
    exists n :: 1 <= n < |s| && AllUpper(s[..n]) && IsNonZeroDigit(s[n]) && AllDigits(s[n + 1..])
  }

  lemma ValidCellIsPattern(s: string)
    ensures ValidCell(s) <==> CellPattern(s)
  {
    if CellPattern(s) {
      var n :| 1 <= n < |s| && AllUpper(s[..n]) && IsNonZeroDigit(s[n]) && AllDigits(s[n + 1..]);
      UpperRunIs(s, n);
    }
  }

  /** Index of the first ':' in `s`, or |s| when there is none. */
  function ColonAt(s: string): (i: nat)
    ensures i <= |s|
    ensures forall k :: 0 <= k < i ==> s[k] != ':'
    ensures i < |s| ==> s[i] == ':'
  {
    if s == [] || s[0] == ':' then 0 else 1 + ColonAt(s[1..])
  }

  /** The hand-written recogniser for ^CELL:CELL$ with CELL the cell pattern. */
  predicate ValidRange(s: string)
    ensures ValidRange(s) ==> 2 <= ColonAt(s) && ColonAt(s) + 3 <= |s|
    ensures ValidRange(s) ==> forall k :: 0 <= k < |s| && s[k] == ':' ==> k == ColonAt(s)
  {
    var i := ColonAt(s);
    i < |s| && ValidCell(s[..i]) && ValidCell(s[i + 1..])
  }

  ghost predicate RangePattern(s: string) {
    exists i :: 0 <= i < |s| && s[i] == ':' && CellPattern(s[..i]) && CellPattern(s[i + 1..])
  }

  /** The first ':' is at `i` when `i` holds a ':' and nothing before it does. */
  lemma ColonAtIs(s: string, i: nat)
    requires i < |s| && s[i] == ':'
    requires forall k :: 0 <= k < i ==> s[k] != ':'
    ensures ColonAt(s) == i
  {
  }

  lemma ValidRangeIsPattern(s: string)
    ensures ValidRange(s) <==> RangePattern(s)
  {
    if ValidRange(s) {
      var i := ColonAt(s);
      ValidCellIsPattern(s[..i]);
      ValidCellIsPattern(s[i + 1..]);
    }
    if RangePattern(s) {
      var i :| 0 <= i < |s| && s[i] == ':' && CellPattern(s[..i]) && CellPattern(s[i + 1..]);
      PatternSplitIsFirstColon(s, i);
    }
  }

  lemma PatternSplitIsFirstColon(s: string, i: nat)
    requires i < |s| && s[i] == ':' && CellPattern(s[..i]) && CellPattern(s[i + 1..])
    ensures ValidRange(s)
  {
    ValidCellIsPattern(s[..i]);
    ValidCellIsPattern(s[i + 1..]);
    assert forall k :: 0 <= k < i ==> s[k] == s[..i][k];
    ColonAtIs(s, i);
  }

  /** A valid range holds exactly one ':', so splitting at it yields the two corners
      (the `split(':')` the range reader performs). */
  function SplitRange(s: string): (corners: (string, string))
    requires ValidRange(s)
    ensures ValidCell(corners.0) && ValidCell(corners.1)
    ensures s == corners.0 + ":" + corners.1
    ensures forall k :: 0 <= k < |s| && s[k] == ':' ==> k == |corners.0|
  {
    var i := ColonAt(s);
    assert forall k :: i < k < |s| ==> s[k] == s[i + 1..][k - i - 1];
    assert s == s[..i] + ":" + s[i + 1..];
    (s[..i], s[i + 1..])
  }

  // ---------------------------------------------------------------------------
  // Columns: bijective base 26, A = 1 ... Z = 26, AA = 27

  function LetterValue(c: char): (d: nat)
    requires IsUpper(c)
    ensures 1 <= d <= 26
  {
    (c as int) - ('A' as int) + 1
  }

  function Letter(d: nat): (c: char)
    requires 1 <= d <= 26
    ensures IsUpper(c) && LetterValue(c) == d
  {
    (('A' as int) + d - 1) as char
  }

  /** Column number of a letter run, read most significant letter first. */
  function ColumnIndex(letters: string): (n: nat)
    requires AllUpper(letters)
    ensures letters != [] ==> n >= 1
  {
    if letters == [] then 0
    else ColumnIndex(letters[..|letters| - 1]) * 26 + LetterValue(letters[|letters| - 1])
  }

  /** Letter run of a column number (the column half of a cell's coordinate label). */
  function ColumnLetters(n: nat): (s: string)
    requires n >= 1
    ensures s != [] && AllUpper(s)
  {
    if n <= 26 then [Letter(n)]
    else ColumnLetters((n - 1) / 26) + [Letter((n - 1) % 26 + 1)]
  }

  lemma {:induction false} ColumnLettersRoundTrip(n: nat)
    requires n >= 1
    ensures ColumnIndex(ColumnLetters(n)) == n
  {
    if n > 26 {
      var q := (n - 1) / 26;
      ColumnLettersRoundTrip(q);
      var s := ColumnLetters(n);
      assert s[..|s| - 1] == ColumnLetters(q);
    }
  }

  lemma {:induction false} ColumnIndexRoundTrip(s: string)
    requires s != [] && AllUpper(s)
    ensures ColumnLetters(ColumnIndex(s)) == s
  {
    var t := s[..|s| - 1];
    var c := s[|s| - 1];
    assert s == t + [c];
    assert Letter(LetterValue(c)) == c;
    if t != [] {
      ColumnIndexRoundTrip(t);
      assert ColumnIndex(s) == ColumnIndex(t) * 26 + LetterValue(c);
      LastLetter(ColumnIndex(t), LetterValue(c));
    }
  }

  /** Encoding m * 26 + d appends the letter of d to the label of m. */
  lemma LastLetter(m: nat, d: nat)
    requires m >= 1 && 1 <= d <= 26
    ensures ColumnLetters(m * 26 + d) == ColumnLetters(m) + [Letter(d)]
  {
    var n := m * 26 + d;
    assert (n - 1) / 26 == m && (n - 1) % 26 + 1 == d;
  }

  // ---------------------------------------------------------------------------
  // Rows: decimal numerals

  function DigitValue(c: char): (d: nat)
    requires IsDigit(c)
    ensures d <= 9
  {
    (c as int) - ('0' as int)
  }

  function Digit(d: nat): (c: char)
    requires d <= 9
    ensures IsDigit(c) && DigitValue(c) == d
  {
    (('0' as int) + d) as char
  }

  /** Value of a decimal numeral, most significant digit first. */
  function DecimalValue(s: string): (n: nat)
    requires AllDigits(s)
    ensures s != [] && IsNonZeroDigit(s[0]) ==> n >= 1
  {
    if s == [] then 0
    else DecimalValue(s[..|s| - 1]) * 10 + DigitValue(s[|s| - 1])
  }

  /** Decimal numeral of a number, without leading zeros. */
  function Decimal(n: nat): (s: string)
    ensures s != [] && AllDigits(s)
    ensures n >= 1 ==> IsNonZeroDigit(s[0])
  {
    if n < 10 then [Digit(n)] else Decimal(n / 10) + [Digit(n % 10)]
  }

  lemma {:induction false} DecimalRoundTrip(n: nat)
    ensures DecimalValue(Decimal(n)) == n
  {
    if n >= 10 {
      DecimalRoundTrip(n / 10);
      var s := Decimal(n);
      assert s[..|s| - 1] == Decimal(n / 10);
    }
  }

  lemma {:induction false} DecimalValueRoundTrip(s: string)
    requires s != [] && AllDigits(s) && IsNonZeroDigit(s[0])
    ensures Decimal(DecimalValue(s)) == s
  {
    var t := s[..|s| - 1];
    var c := s[|s| - 1];
    assert s == t + [c];
    assert Digit(DigitValue(c)) == c;
    if t != [] {
      assert t[0] == s[0];
      DecimalValueRoundTrip(t);
      LastDigit(DecimalValue(t), DigitValue(c));
    }
  }

  /** The division step of the renderer undoes the multiplication step of the reader. */
  lemma LastDigit(m: nat, d: nat)
    requires m >= 1 && d <= 9
    ensures (m * 10 + d) / 10 == m && (m * 10 + d) % 10 == d && m * 10 + d >= 10
  {
  }

  // ---------------------------------------------------------------------------
  // Whole cells

  /** The two halves of a valid label: the letter run and the row numeral. */
  lemma ValidCellParts(s: string)
    requires ValidCell(s)
    ensures var n := UpperRun(s);
      s[..n] != [] && AllUpper(s[..n]) && s[n..] != [] && AllDigits(s[n..]) && IsNonZeroDigit(s[n..][0])
  {
    var n := UpperRun(s);
    assert forall k :: 0 < k < |s| - n ==> s[n..][k] == s[n + 1..][k - 1];
  }

  /** Decode a valid label into its (row, column): what reading `.row` and `.column`
      of `worksheet[cell]` yields. */
  function ParseCell(s: string): (p: Pos)
    requires ValidCell(s)
    ensures ColumnLetters(p.col) + Decimal(p.row) == s
  {
    ValidCellParts(s);
    var n := UpperRun(s);
    ColumnIndexRoundTrip(s[..n]);
    DecimalValueRoundTrip(s[n..]);
    assert s == s[..n] + s[n..];
    Coord(DecimalValue(s[n..]), ColumnIndex(s[..n]))
  }

  /** A letter run followed by a numeral without leading zero is a valid label,
      split by the recogniser exactly between the two. */
  lemma LabelSplit(l: string, d: string)
    requires l != [] && AllUpper(l) && d != [] && AllDigits(d) && IsNonZeroDigit(d[0])
    ensures UpperRun(l + d) == |l| && ValidCell(l + d)
    ensures (l + d)[..|l|] == l && (l + d)[|l|..] == d
  {
    var s := l + d;
    assert s[..|l|] == l;
    assert s[|l|] == d[0];
    UpperRunIs(s, |l|);
    assert s[|l| + 1..] == d[1..];
    assert s[|l|..] == d;
  }

  /** The coordinate label of a position, as `cell.coordinate` renders it; it is
      a valid label and decodes back to the position. */
  function CellLabel(p: Pos): (s: string)
    ensures ValidCell(s) && ParseCell(s) == p
  {
    var l, d := ColumnLetters(p.col), Decimal(p.row);
    LabelSplit(l, d);
    ColumnLettersRoundTrip(p.col);
    DecimalRoundTrip(p.row);
    l + d
  }

  /** A one-letter, one-digit label such as "B7" names column and row directly. */
  lemma ShortLabel(s: string)
    requires |s| == 2 && IsUpper(s[0]) && IsNonZeroDigit(s[1])
    ensures ValidCell(s) && ParseCell(s) == Coord(DigitValue(s[1]), LetterValue(s[0]))
  {
    UpperRunIs(s, 1);
    assert s[..1] == [s[0]] && s[1..] == [s[1]];
  }

  /** A range of two short labels such as "A3:D6" splits at position 2. */
  lemma ShortRange(a: string, b: string)
    requires |a| == 2 && IsUpper(a[0]) && IsNonZeroDigit(a[1])
    requires |b| == 2 && IsUpper(b[0]) && IsNonZeroDigit(b[1])
    ensures ValidRange(a + ":" + b) && SplitRange(a + ":" + b) == (a, b)
    ensures ParseCell(a) == Coord(DigitValue(a[1]), LetterValue(a[0]))
    ensures ParseCell(b) == Coord(DigitValue(b[1]), LetterValue(b[0]))
  {
    var s := a + ":" + b;
    assert s[..2] == a && s[3..] == b;
    ShortLabel(a);
    ShortLabel(b);
    ColonAtIs(s, 2);
  }

  /** Labels the validator accepts, as its error message lists them. */
  lemma AcceptedExamples()
    ensures ValidCell("A1") && ValidCell("AA10")
  {
  }

  /** Labels the validator rejects: digit first, row zero, lower case, leading zero. */
  lemma RejectedExamples()
    ensures !ValidCell("1A") && !ValidCell("A0") && !ValidCell("a1") && !ValidCell("A01")
  {
  }

  lemma ParseExamples()
    ensures ParseCell("A1") == Coord(1, 1) && ParseCell("AA10") == Coord(10, 27)
  {
  }
}
