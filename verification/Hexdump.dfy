/** The hex dump: rows of an offset, RowSize byte cells and, optionally, the
    printable characters; decoding the cells gives the bytes back. */
module Hexdumps {
  import opened Seqs
  import opened Text

  type Byte = x: int | 0 <= x < 256

  predicate IsPrint(b: Byte) { 0x20 <= b <= 0x7E }

  function Hex(n: nat, width: nat): string { Padded(Numeral(n, 16), width) }

  function Offset(i: nat): string { "0x" + Hex(i, 6) + ": " }

  /** The three characters for byte k, blank past the end. */
  function Cell(data: seq<Byte>, k: nat): string {
    if k < |data| then Hex(data[k], 2) + " " else "   "
  }

  /** What the character column shows for byte k. */
  function Shown(data: seq<Byte>, k: nat): string {
    if k >= |data| then "" else if IsPrint(data[k]) then [data[k] as char] else "."
  }

  function CellsFrom(data: seq<Byte>, i: nat): nat -> string { (j: nat) => Cell(data, i + j) }

  function ShownFrom(data: seq<Byte>, i: nat): nat -> string { (j: nat) => Shown(data, i + j) }

  function Row(data: seq<Byte>, rowSize: nat, ascii: bool, i: nat): string {
    Offset(i) +
    (Concat(CellsFrom(data, i), rowSize) + (" " + if ascii then Concat(ShownFrom(data, i), rowSize) else ""))
  }

  function RowsOf(data: seq<Byte>, rowSize: nat, ascii: bool): nat -> string {
    (i: nat) => Row(data, rowSize, ascii, i)
  }

  /** row(i), row(i + rowSize), ... up to n. */
  function Every(row: nat -> string, n: nat, rowSize: nat, i: nat): seq<string>
    requires rowSize > 0
    decreases n - i
  {
    if i >= n then [] else [row(i)] + Every(row, n, rowSize, i + rowSize)
  }

  function Dump(data: seq<Byte>, rowSize: nat, ascii: bool): string
    requires rowSize > 0
  {
    Unlines(Every(RowsOf(data, rowSize, ascii), |data|, rowSize, 0))
  }

  method PrintCells(data: seq<Byte>, rowSize: nat, i: nat) returns (out: string)
    ensures out == Concat(CellsFrom(data, i), rowSize)
  {
    out := "";
    for j := 0 to rowSize
      invariant out == Concat(CellsFrom(data, i), j)
    {
      assert CellsFrom(data, i)(j) == Cell(data, i + j);
      if i + j < |data| {
        out := out + (Hex(data[i + j], 2) + " ");
      } else {
        out := out + "   ";
      }
    }
  }

  method PrintAscii(data: seq<Byte>, rowSize: nat, i: nat) returns (out: string)
    ensures out == Concat(ShownFrom(data, i), rowSize)
  {
    out := "";
    for j := 0 to rowSize
      invariant out == Concat(ShownFrom(data, i), j)
    {
      assert ShownFrom(data, i)(j) == Shown(data, i + j);
      if i + j < |data| {
        if IsPrint(data[i + j]) {
          out := out + [data[i + j] as char];
        } else {
          out := out + ".";
        }
      }
    }
  }

  method PrintRow(data: seq<Byte>, rowSize: nat, showAscii: bool, i: nat) returns (line: string)
    ensures line == Row(data, rowSize, showAscii, i)
  {
    var cells := PrintCells(data, rowSize, i);
    var ascii := "";
    if showAscii {
      ascii := PrintAscii(data, rowSize, i);
    }
    line := "0x" + Hex(i, 6) + ": " + (cells + (" " + ascii));
  }

  /** The loop over the rows. What a row looks like does not matter here, so the
      rows are given as `row`. */
  method PrintRows(data: seq<Byte>, rowSize: nat, showAscii: bool, ghost row: nat -> string) returns (out: string)
    requires rowSize > 0
    requires forall k: nat {:trigger Row(data, rowSize, showAscii, k)} :: row(k) == Row(data, rowSize, showAscii, k)
    ensures out == Unlines(Every(row, |data|, rowSize, 0))
  {
    out := "";
    var i := 0;
    ghost var all := Unlines(Every(row, |data|, rowSize, 0));
    while i < |data|
      invariant all == out + Unlines(Every(row, |data|, rowSize, i))
      decreases |data| - i
    {
      var line := PrintRow(data, rowSize, showAscii, i);
      OneMoreRow(row, |data|, rowSize, i, out, line);
      out := out + (line + "\n");
      i := i + rowSize;
    }
  }

  /** operator<< */
  method Hexdump(data: seq<Byte>, rowSize: nat, showAscii: bool) returns (out: string)
    requires rowSize > 0
    ensures out == Dump(data, rowSize, showAscii)
  {
    out := PrintRows(data, rowSize, showAscii, RowsOf(data, rowSize, showAscii));
  }

  lemma OneMoreRow(row: nat -> string, n: nat, rowSize: nat, i: nat, out: string, line: string)
    requires rowSize > 0 && i < n && line == row(i)
    ensures out + Unlines(Every(row, n, rowSize, i))
            == out + (line + "\n") + Unlines(Every(row, n, rowSize, i + rowSize))
  {
  }

  // ---- Decoding ---------------------------------------------------------------------

  /** The byte of a cell, if it is not blank. */
  function CellValue(c: string): seq<int> {
    if |c| == 3 && IsDigit(c[0]) && IsDigit(c[1]) then [Value(c[..2], 16)] else []
  }

  /** The bytes of the first j cells. */
  function DecodeCells(cells: string, j: nat): seq<int>
    requires 3 * j <= |cells|
  {
    if j == 0 then [] else DecodeCells(cells, j - 1) + CellValue(cells[3 * (j - 1)..3 * j])
  }

  /** A line's offset and bytes: what stands before and after the first ": ". */
  function DecodeRow(line: string, rowSize: nat): Option<(nat, seq<int>)> {
    var colon := Find(line, ": ", 0);
    if colon.None? || colon.value < 8 || |line| < colon.value + 2 + 3 * rowSize || line[..2] != "0x" then None
    else if forall c :: c in line[2..colon.value] ==> IsDigit(c)
    then Some((Value(line[2..colon.value], 16), DecodeCells(line[colon.value + 2..], rowSize)))
    else None
  }

  function Bytes(row: Option<(nat, seq<int>)>): seq<int> {
    if row.Some? then row.value.1 else []
  }

  /** What `decode` reads in each line, one after the other. */
  function Gathered(lines: seq<string>, decode: string -> seq<int>): seq<int> {
    if lines == [] then [] else decode(lines[0]) + Gathered(lines[1..], decode)
  }

  function BytesIn(rowSize: nat): string -> seq<int> {
    (line: string) => Bytes(DecodeRow(line, rowSize))
  }

  /** The bytes of a dump: of all its lines but the empty one after the last
      newline. */
  function Decode(dump: string, rowSize: nat): seq<int> {
    Gathered(LinesIn(dump), BytesIn(rowSize))
  }

  /** The lines of a text that ends with a newline. */
  function LinesIn(text: string): seq<string> {
    var lines := Split(text, '\n');
    lines[..|lines| - 1]
  }

  lemma HexDigits(n: nat, width: nat)
    ensures forall c :: c in Hex(n, width) ==> IsDigit(c)
    ensures Value(Hex(n, width), 16) == n
  {
    NumeralRoundTrip(n, 16);
    PaddedValue(Numeral(n, 16), width, 16);
  }

  lemma ByteIsTwoDigits(b: Byte)
    ensures |Hex(b, 2)| == 2
  {
    if b >= 16 {
      assert Numeral(b, 16) == Numeral(b / 16, 16) + [Digit(b % 16)];
      assert |Numeral(b / 16, 16)| == 1;
    }
  }

  /** k, or the end of the data if that comes first. */
  function Upto(data: seq<Byte>, k: nat): nat {
    if k < |data| then k else |data|
  }

  lemma CellDecodes(data: seq<Byte>, k: nat)
    ensures |Cell(data, k)| == 3 && CellValue(Cell(data, k)) == if k < |data| then [data[k]] else []
  {
    if k < |data| {
      HexDigits(data[k], 2);
      ByteIsTwoDigits(data[k]);
      var h := Hex(data[k], 2);
      assert Cell(data, k)[..2] == h && h[0] in h && h[1] in h;
    }
  }

  /** The values of cells (f(0), ..., f(j - 1)), each of three characters. */
  function Values(f: nat -> string, j: nat): seq<int> {
    if j == 0 then [] else Values(f, j - 1) + CellValue(f(j - 1))
  }

  lemma {:induction false} ConcatDecodes(f: nat -> string, j: nat, tail: string)
    requires forall k: nat :: |f(k)| == 3
    ensures |Concat(f, j)| == 3 * j && DecodeCells(Concat(f, j) + tail, j) == Values(f, j)
  {
    if j > 0 {
      ConcatDecodes(f, j - 1, f(j - 1) + tail);
      assert Concat(f, j) + tail == Concat(f, j - 1) + (f(j - 1) + tail);
      assert (Concat(f, j) + tail)[3 * (j - 1)..3 * j] == f(j - 1);
    }
  }

  lemma CellRead(data: seq<Byte>, i: nat, j: nat)
    ensures CellValue(CellsFrom(data, i)(j)) == if i + j < |data| then [data[i + j]] else []
  {
    CellDecodes(data, i + j);
    assert CellsFrom(data, i)(j) == Cell(data, i + j);
  }

  lemma OneMoreByte(data: seq<Byte>, i: nat, j: nat)
    ensures data[Upto(data, i)..Upto(data, i + j + 1)]
            == data[Upto(data, i)..Upto(data, i + j)] + (if i + j < |data| then [data[i + j]] else [])
  {
  }

  lemma {:induction false} ValuesAreTheData(data: seq<Byte>, i: nat, j: nat)
    ensures Values(CellsFrom(data, i), j) == data[Upto(data, i)..Upto(data, i + j)]
  {
    if j > 0 {
      ValuesAreTheData(data, i, j - 1);
      CellRead(data, i, j - 1);
      OneMoreByte(data, i, j - 1);
    }
  }

  lemma OffsetDecodes(i: nat, tail: string)
    ensures var line := Offset(i) + tail;
            var colon := Find(line, ": ", 0);
            && colon == Some(|Offset(i)| - 2) && colon.value >= 8 && line[..2] == "0x"
            && (forall c :: c in line[2..colon.value] ==> IsDigit(c))
            && Value(line[2..colon.value], 16) == i
            && line[colon.value + 2..] == tail
  {
    var digits := Hex(i, 6);
    HexDigits(i, 6);
    var line := Offset(i) + tail;
    assert line == "0x" + digits + ": " + tail;
    var at := 2 + |digits|;
    assert line[2..at] == digits && line[at..at + 2] == ": ";
    forall k | 0 <= k < at ensures !OccursAt(line, ": ", k) {
      if k >= 2 {
        assert line[k] == digits[k - 2] && digits[k - 2] in digits;
      }
      assert line[k] != ':' && line[k..k + 2][0] == line[k];
    }
    assert OccursAt(line, ": ", at);
  }

  lemma RowDecodes(data: seq<Byte>, rowSize: nat, ascii: bool, i: nat)
    requires i < |data|
    ensures DecodeRow(Row(data, rowSize, ascii, i), rowSize) == Some((i, data[i..Upto(data, i + rowSize)]))
  {
    var cells := CellsFrom(data, i);
    var rest := " " + if ascii then Concat(ShownFrom(data, i), rowSize) else "";
    forall k: nat ensures |cells(k)| == 3 {
      CellDecodes(data, i + k);
    }
    ConcatDecodes(cells, rowSize, rest);
    ValuesAreTheData(data, i, rowSize);
    OffsetDecodes(i, Concat(cells, rowSize) + rest);
  }

  ghost predicate RowSays(row: nat -> string, decode: string -> seq<int>, data: seq<Byte>, rowSize: nat, k: nat) {
    k < |data| && decode(row(k)) == data[k..Upto(data, k + rowSize)]
  }

  /** `decode` reads in every row(k) the bytes from k on. */
  ghost predicate RowsSay(row: nat -> string, decode: string -> seq<int>, data: seq<Byte>, rowSize: nat) {
    forall k: nat :: k < |data| ==> RowSays(row, decode, data, rowSize, k)
  }

  lemma {:induction false} EveryDecodes(row: nat -> string, decode: string -> seq<int>, data: seq<Byte>,
                                        rowSize: nat, i: nat)
    requires rowSize > 0 && RowsSay(row, decode, data, rowSize)
    ensures Gathered(Every(row, |data|, rowSize, i), decode) == data[Upto(data, i)..]
    decreases |data| - i
  {
    if i < |data| {
      var rest := Every(row, |data|, rowSize, i + rowSize);
      EveryDecodes(row, decode, data, rowSize, i + rowSize);
      assert RowSays(row, decode, data, rowSize, i);
      assert ([row(i)] + rest)[1..] == rest;
      assert data[i..] == data[i..Upto(data, i + rowSize)] + data[Upto(data, i + rowSize)..];
    }
  }

  lemma {:induction false} EveryHasNoNewline(row: nat -> string, n: nat, rowSize: nat, i: nat)
    requires rowSize > 0 && forall k: nat :: '\n' !in row(k)
    ensures forall l :: l in Every(row, n, rowSize, i) ==> '\n' !in l
    decreases n - i
  {
    if i < n {
      EveryHasNoNewline(row, n, rowSize, i + rowSize);
    }
  }

  lemma RowHasNoNewline(data: seq<Byte>, rowSize: nat, ascii: bool, i: nat)
    ensures '\n' !in RowsOf(data, rowSize, ascii)(i)
  {
    HexDigits(i, 6);
    forall k: nat ensures '\n' !in CellsFrom(data, i)(k) {
      assert CellsFrom(data, i)(k) == Cell(data, i + k);
      if i + k < |data| {
        HexDigits(data[i + k], 2);
      }
    }
    ConcatHasNo(CellsFrom(data, i), rowSize, '\n');
    forall k: nat ensures '\n' !in ShownFrom(data, i)(k) {
      assert ShownFrom(data, i)(k) == Shown(data, i + k);
    }
    ConcatHasNo(ShownFrom(data, i), rowSize, '\n');
  }

  lemma DumpedRowsSay(data: seq<Byte>, rowSize: nat, ascii: bool)
    ensures RowsSay(RowsOf(data, rowSize, ascii), BytesIn(rowSize), data, rowSize)
  {
    forall k: nat | k < |data| ensures RowSays(RowsOf(data, rowSize, ascii), BytesIn(rowSize), data, rowSize, k) {
      DumpedRowSays(data, rowSize, ascii, k);
    }
  }

  lemma DumpedRowSays(data: seq<Byte>, rowSize: nat, ascii: bool, k: nat)
    requires k < |data|
    ensures RowSays(RowsOf(data, rowSize, ascii), BytesIn(rowSize), data, rowSize, k)
  {
    RowDecodes(data, rowSize, ascii, k);
    assert RowsOf(data, rowSize, ascii)(k) == Row(data, rowSize, ascii, k);
  }

  lemma RowsHaveNoNewline(data: seq<Byte>, rowSize: nat, ascii: bool)
    ensures forall k: nat :: '\n' !in RowsOf(data, rowSize, ascii)(k)
  {
    forall k: nat ensures '\n' !in RowsOf(data, rowSize, ascii)(k) {
      RowHasNoNewline(data, rowSize, ascii, k);
    }
  }

  lemma LinesSplit(row: nat -> string, n: nat, rowSize: nat)
    requires rowSize > 0 && forall k: nat :: '\n' !in row(k)
    ensures LinesIn(Unlines(Every(row, n, rowSize, 0))) == Every(row, n, rowSize, 0)
  {
    var rows := Every(row, n, rowSize, 0);
    EveryHasNoNewline(row, n, rowSize, 0);
    SplitUnlines(rows);
    assert (rows + [""])[..|rows|] == rows;
  }

  lemma DumpLines(data: seq<Byte>, rowSize: nat, ascii: bool)
    requires rowSize > 0
    ensures LinesIn(Dump(data, rowSize, ascii)) == Every(RowsOf(data, rowSize, ascii), |data|, rowSize, 0)
  {
    RowsHaveNoNewline(data, rowSize, ascii);
    LinesSplit(RowsOf(data, rowSize, ascii), |data|, rowSize);
  }

  /** Decoding the cells after each ": " gives back exactly the bytes dumped. */
  lemma DumpRoundTrip(data: seq<Byte>, rowSize: nat, ascii: bool)
    requires rowSize > 0
    ensures Decode(Dump(data, rowSize, ascii), rowSize) == data
  {
    var row := RowsOf(data, rowSize, ascii);
    RowsHaveNoNewline(data, rowSize, ascii);
    LinesSplit(row, |data|, rowSize);
    DumpedRowsSay(data, rowSize, ascii);
    EveryDecodes(row, BytesIn(rowSize), data, rowSize, 0);
    assert data[0..] == data;
  }

  /** `rows` is n / rowSize, rounded up. */
  predicate Covers(rows: nat, n: nat, rowSize: nat) {
    rows * rowSize >= n && (rows > 0 ==> (rows - 1) * rowSize < n)
  }

  lemma OneMoreCovers(rows: nat, less: nat, n: nat, rowSize: nat)
    requires rowSize > 0 && n > 0 && less == (if rowSize < n then n - rowSize else 0) && Covers(rows, less, rowSize)
    ensures Covers(rows + 1, n, rowSize)
  {
  }

  lemma {:induction false} EveryIsRegular(row: nat -> string, n: nat, rowSize: nat, i: nat)
    requires rowSize > 0
    ensures var rows := Every(row, n, rowSize, i);
            && Covers(|rows|, if i < n then n - i else 0, rowSize)
            && forall k :: 0 <= k < |rows| ==> i + k * rowSize < n && rows[k] == row(i + k * rowSize)
    decreases n - i
  {
    if i < n {
      var rest := Every(row, n, rowSize, i + rowSize);
      var rows := [row(i)] + rest;
      EveryIsRegular(row, n, rowSize, i + rowSize);
      OneMoreCovers(|rest|, if i + rowSize < n then n - i - rowSize else 0, n - i, rowSize);
      forall k | 0 <= k < |rows| ensures i + k * rowSize < n && rows[k] == row(i + k * rowSize) {
        if k > 0 {
          assert rows[k] == rest[k - 1];
          assert i + rowSize + (k - 1) * rowSize == i + k * rowSize;
        }
      }
    }
  }

  function OffsetIn(rowSize: nat): string -> Option<nat> {
    (line: string) => var row := DecodeRow(line, rowSize); if row.Some? then Some(row.value.0) else None
  }

  lemma {:induction false} EveryShows(row: nat -> string, offset: string -> Option<nat>, n: nat, rowSize: nat)
    requires rowSize > 0 && forall k: nat :: k < n ==> offset(row(k)) == Some(k)
    ensures var rows := Every(row, n, rowSize, 0);
            && Covers(|rows|, n, rowSize)
            && forall m: nat :: m < |rows| ==> offset(rows[m]) == Some(m * rowSize)
  {
    EveryIsRegular(row, n, rowSize, 0);
    var rows := Every(row, n, rowSize, 0);
    forall m: nat | m < |rows| ensures offset(rows[m]) == Some(m * rowSize) {
      assert 0 + m * rowSize < n && rows[m] == row(0 + m * rowSize);
    }
  }

  lemma DumpedRowsShow(data: seq<Byte>, rowSize: nat, ascii: bool)
    ensures forall k: nat :: k < |data| ==> OffsetIn(rowSize)(RowsOf(data, rowSize, ascii)(k)) == Some(k)
  {
    forall k: nat | k < |data| ensures OffsetIn(rowSize)(RowsOf(data, rowSize, ascii)(k)) == Some(k) {
      RowDecodes(data, rowSize, ascii, k);
    }
  }

  /** There are ceil(length / RowSize) rows, and row m shows offset m * RowSize. */
  lemma RowsAreRegular(data: seq<Byte>, rowSize: nat, ascii: bool)
    requires rowSize > 0
    ensures var rows := LinesIn(Dump(data, rowSize, ascii));
            && Covers(|rows|, |data|, rowSize)
            && forall m: nat :: m < |rows| ==> OffsetIn(rowSize)(rows[m]) == Some(m * rowSize)
  {
    DumpLines(data, rowSize, ascii);
    DumpedRowsShow(data, rowSize, ascii);
    EveryShows(RowsOf(data, rowSize, ascii), OffsetIn(rowSize), |data|, rowSize);
  }

  // ---- The character column -------------------------------------------------------------

  /** What stands after a line's cells. */
  function Column(line: string, rowSize: nat): string {
    var colon := Find(line, ": ", 0);
    if colon.None? || |line| < colon.value + 2 + 3 * rowSize then "" else line[colon.value + 2 + 3 * rowSize..]
  }

  /** A space and, if asked for, each byte of the row: itself if it is printable ASCII,
      a dot if not. */
  predicate IsColumn(column: string, bytes: seq<Byte>, ascii: bool) {
    && column != "" && column[0] == ' '
    && |column| == 1 + (if ascii then |bytes| else 0)
    && (ascii ==> forall j :: 0 <= j < |bytes| ==>
          column[1 + j] == if 0x20 <= bytes[j] <= 0x7E then bytes[j] as char else '.')
  }

  lemma {:induction false} ShownText(data: seq<Byte>, i: nat, j: nat)
    requires i < |data|
    ensures var text := Concat(ShownFrom(data, i), j);
            && |text| == Upto(data, i + j) - i
            && forall k :: 0 <= k < |text| ==>
                 text[k] == if 0x20 <= data[i + k] <= 0x7E then data[i + k] as char else '.'
  {
    if j > 0 {
      ShownText(data, i, j - 1);
      assert ShownFrom(data, i)(j - 1) == Shown(data, i + j - 1);
    }
  }

  /** The text of the row at i. */
  function TextFrom(data: seq<Byte>, rowSize: nat, ascii: bool, i: nat): string {
    if ascii then Concat(ShownFrom(data, i), rowSize) else ""
  }

  lemma RowHasText(data: seq<Byte>, rowSize: nat, ascii: bool, i: nat)
    ensures Column(Row(data, rowSize, ascii, i), rowSize) == " " + TextFrom(data, rowSize, ascii, i)
  {
    var cells, rest := CellsFrom(data, i), " " + TextFrom(data, rowSize, ascii, i);
    forall k: nat ensures |cells(k)| == 3 {
      CellDecodes(data, i + k);
    }
    ConcatDecodes(cells, rowSize, "");
    OffsetDecodes(i, Concat(cells, rowSize) + rest);
    ColumnIsRest(Offset(i), Concat(cells, rowSize), rest, rowSize);
  }

  lemma TextIsColumn(data: seq<Byte>, rowSize: nat, ascii: bool, i: nat)
    requires i < |data|
    ensures IsColumn(" " + TextFrom(data, rowSize, ascii, i), data[i..Upto(data, i + rowSize)], ascii)
  {
    ShownText(data, i, rowSize);
  }

  lemma RowShowsText(data: seq<Byte>, rowSize: nat, ascii: bool, i: nat)
    requires i < |data|
    ensures IsColumn(Column(Row(data, rowSize, ascii, i), rowSize), data[i..Upto(data, i + rowSize)], ascii)
  {
    RowHasText(data, rowSize, ascii, i);
    TextIsColumn(data, rowSize, ascii, i);
  }

  lemma ColumnIsRest(offset: string, cells: string, rest: string, rowSize: nat)
    requires |offset| >= 2 && |cells| == 3 * rowSize
    requires Find(offset + (cells + rest), ": ", 0) == Some(|offset| - 2)
    ensures Column(offset + (cells + rest), rowSize) == rest
  {
    assert (offset + (cells + rest))[|offset| + |cells|..] == rest;
  }

  predicate RowHasColumn(line: string, data: seq<Byte>, rowSize: nat, ascii: bool, i: nat) {
    i < |data| && IsColumn(Column(line, rowSize), data[i..Upto(data, i + rowSize)], ascii)
  }

  function ColumnsOf(data: seq<Byte>, rowSize: nat, ascii: bool): (string, nat) -> bool {
    (line: string, i: nat) => RowHasColumn(line, data, rowSize, ascii, i)
  }

  lemma EveryHas(row: nat -> string, has: (string, nat) -> bool, n: nat, rowSize: nat)
    requires rowSize > 0 && forall k: nat :: k < n ==> has(row(k), k)
    ensures var rows := Every(row, n, rowSize, 0); forall m: nat :: m < |rows| ==> has(rows[m], m * rowSize)
  {
    EveryIsRegular(row, n, rowSize, 0);
    var rows := Every(row, n, rowSize, 0);
    forall m: nat | m < |rows| ensures has(rows[m], m * rowSize) {
      assert 0 + m * rowSize < n && rows[m] == row(0 + m * rowSize);
    }
  }

  lemma RowsHaveColumns(data: seq<Byte>, rowSize: nat, ascii: bool)
    ensures forall k: nat :: k < |data| ==> ColumnsOf(data, rowSize, ascii)(RowsOf(data, rowSize, ascii)(k), k)
  {
    forall k: nat | k < |data| ensures ColumnsOf(data, rowSize, ascii)(RowsOf(data, rowSize, ascii)(k), k) {
      RowShowsText(data, rowSize, ascii, k);
      assert RowsOf(data, rowSize, ascii)(k) == Row(data, rowSize, ascii, k);
    }
  }

  /** After its cells, each row shows its bytes as text. */
  lemma RowsShowTheText(data: seq<Byte>, rowSize: nat, ascii: bool)
    requires rowSize > 0
    ensures var rows := LinesIn(Dump(data, rowSize, ascii));
            forall m: nat :: m < |rows| ==> ColumnsOf(data, rowSize, ascii)(rows[m], m * rowSize)
  {
    DumpLines(data, rowSize, ascii);
    RowsHaveColumns(data, rowSize, ascii);
    EveryHas(RowsOf(data, rowSize, ascii), ColumnsOf(data, rowSize, ascii), |data|, rowSize);
  }
}
