/**
 * Turning a workbook into chunks (`_process_excel_document`): every non-empty
 * sheet is cut into blocks of fifty rows, and each block becomes one chunk made
 * of the sheet summary, a header naming the rows and one line per row.
 */
module ExcelChunker {
  import opened Wrappers
  import opened Text
  import opened Records
  import Classification

  /** Rows per chunk (`chunk_size = 50`). */
  const RowBlock: nat := 50

  /** A cell as read: `None` for a missing value (pandas NA), otherwise the value's text. */
  type Cell = Option<string>

  /** A row as `row.items()` yields it: each column label with its cell. */
  type Row = seq<(string, Cell)>

  /** A sheet as pandas reads it: its name, its column labels as strings, its rows. */
  datatype Sheet = Sheet(name: string, columns: seq<string>, rows: seq<Row>)

  /** pandas' `df.empty`: no rows or no columns. */
  predicate IsEmptySheet(s: Sheet) {
    |s.rows| == 0 || |s.columns| == 0
  }

  /** The summary every block of the sheet starts with. */
  function Summary(s: Sheet): string {
    "Hoja: " + s.name + "\nColumnas: " + Join(s.columns, ", ") + "\nFilas: " + NatToString(|s.rows|) + "\n\n"
  }

  /** One past the last row of the block starting at row `i` (0-based) of `n` rows. */
  function BlockEnd(i: nat, n: nat): nat {
    if i + RowBlock < n then i + RowBlock else n
  }

  /** The `row_range` of the block starting at `i`: first and last rows, counted from 1. */
  function RowRange(i: nat, n: nat): string {
    NatToString(i + 1) + "-" + NatToString(BlockEnd(i, n))
  }

  /** The "col: val" entries of a row, skipping missing values. */
  function CellTexts(row: Row): seq<string>
    decreases |row|
  {
    if row == [] then []
    else (if row[0].1.Some? then [row[0].0 + ": " + row[0].1.value] else []) + CellTexts(row[1..])
  }

  /** The line of a row in a block. */
  function RowLine(row: Row): string {
    "- " + Join(CellTexts(row), " | ") + "\n"
  }

  /** The lines of rows in order. */
  function RowLines(rows: seq<Row>): string
    decreases |rows|
  {
    if rows == [] then "" else RowLines(rows[..|rows| - 1]) + RowLine(rows[|rows| - 1])
  }

  /** The header naming the rows of the block starting at `i`. */
  function BlockHeader(i: nat, n: nat): string {
    "Datos (filas " + NatToString(i + 1) + " a " + NatToString(BlockEnd(i, n)) + "):\n"
  }

  /** The text of the block starting at row `i`. */
  function BlockText(s: Sheet, i: nat): string
    requires i < |s.rows|
  {
    Summary(s) + BlockHeader(i, |s.rows|) + RowLines(s.rows[i..BlockEnd(i, |s.rows|)])
  }

  function ExcelMetadata(fileName: string, sheet: string, rowRange: string, now: string): Metadata {
    Metadata(Some(fileName), Some("excel"), None, Some(sheet), Some(rowRange),
             Some(Classification.ClassifyDocumentType(fileName)), Some(now))
  }

  function BlockChunk(fileName: string, s: Sheet, i: nat, now: string): Chunk
    requires i < |s.rows|
  {
    Chunk(BlockText(s, i), ExcelMetadata(fileName, s.name, RowRange(i, |s.rows|), now))
  }

  /** The number of blocks of a sheet of `n` rows: `len(range(0, n, 50))`. */
  function BlockCount(n: nat): nat {
    (n + RowBlock - 1) / RowBlock
  }

  /** Block k starts at row 50k, and every such start is a row of the sheet. */
  lemma BlockCountSpec(n: nat, k: nat)
    ensures k < BlockCount(n) <==> k * RowBlock < n
  {
  }

  /** The chunks of one sheet: none for an empty sheet, otherwise block k starting at row 50k. */
  function SheetChunks(fileName: string, s: Sheet, now: string): seq<Chunk> {
    if IsEmptySheet(s) then []
    else
      var n := |s.rows|;
      seq(BlockCount(n), k requires 0 <= k < BlockCount(n) =>
        BlockCountSpec(n, k);
        BlockChunk(fileName, s, k * RowBlock, now))
  }

  function SheetsChunks(fileName: string, sheets: seq<Sheet>, now: string): seq<Chunk>
    decreases |sheets|
  {
    if sheets == [] then []
    else SheetsChunks(fileName, sheets[..|sheets| - 1], now) + SheetChunks(fileName, sheets[|sheets| - 1], now)
  }

  /**
   * The chunks `_process_excel_document` returns. Sheets are given as they are
   * read, `None` where opening the workbook or reading a sheet raised; the
   * exception ends the workbook, keeping the chunks of the sheets before it.
   */
  function ExcelChunks(fileName: string, sheets: seq<Option<Sheet>>, now: string): seq<Chunk> {
    SheetsChunks(fileName, ValuesBeforeNone(sheets), now)
  }

  // ---------------------------------------------------------------------------
  // The block loops

  /** Builds the text of the block starting at row `i`, appending one line per row of the block. */
  method BuildBlockText(summary: string, s: Sheet, i: nat) returns (text: string)
    requires i < |s.rows|
    ensures text == summary + BlockHeader(i, |s.rows|) + RowLines(s.rows[i..BlockEnd(i, |s.rows|)])
  {
    var n := |s.rows|;
    text := AppendRowLines(summary + BlockHeader(i, n), s.rows[i..BlockEnd(i, n)]);
  }

  /** Appends one `- col: val` line per row of the block to `head`. */
  method AppendRowLines(head: string, block: seq<Row>) returns (text: string)
    ensures text == head + RowLines(block)
  {
    text := head;
    for j := 0 to |block|
      invariant text == head + RowLines(block[..j])
    {
      RowLinesPrefix(block, j);
      text := text + RowLine(block[j]);
    }
    assert block[..|block|] == block;
  }

  lemma RowLinesPrefix(rows: seq<Row>, j: nat)
    requires j < |rows|
    ensures RowLines(rows[..j + 1]) == RowLines(rows[..j]) + RowLine(rows[j])
  {
    assert rows[..j + 1][..j] == rows[..j];
  }

  /** Cuts one sheet into blocks of fifty rows, the last one shorter. */
  method ProcessSheet(fileName: string, s: Sheet, now: string) returns (chunks: seq<Chunk>)
    ensures chunks == SheetChunks(fileName, s, now)
  {
    chunks := [];
    if IsEmptySheet(s) {
      return;
    }
    var n := |s.rows|;
    var summary := Summary(s);
    var i := 0;
    while i < n
      invariant i == |chunks| * RowBlock
      invariant |chunks| <= BlockCount(n)
      invariant chunks == SheetChunks(fileName, s, now)[..|chunks|]
      decreases n - i
    {
      SheetChunkAt(fileName, s, now, |chunks|);
      var text := BuildBlockText(summary, s, i);
      chunks := chunks + [Chunk(text, ExcelMetadata(fileName, s.name, RowRange(i, n), now))];
      i := i + RowBlock;
    }
    BlockCountSpec(n, |chunks|);
  }

  /** Block k of a non-empty sheet, when it starts inside the sheet, is the chunk of the rows from 50k. */
  lemma SheetChunkAt(fileName: string, s: Sheet, now: string, k: nat)
    requires !IsEmptySheet(s) && k * RowBlock < |s.rows|
    ensures k < |SheetChunks(fileName, s, now)|
    ensures SheetChunks(fileName, s, now)[..k + 1] == SheetChunks(fileName, s, now)[..k] + [BlockChunk(fileName, s, k * RowBlock, now)]
  {
    BlockCountSpec(|s.rows|, k);
  }

  /** Reads sheets in order; the first failing read ends the workbook. */
  method ProcessExcelDocument(fileName: string, sheets: seq<Option<Sheet>>, now: string) returns (chunks: seq<Chunk>)
    ensures chunks == ExcelChunks(fileName, sheets, now)
  {
    chunks := [];
    var k := 0;
    ghost var read := ValuesBeforeNone(sheets);
    while k < |sheets|
      invariant 0 <= k <= |read|
      invariant chunks == SheetsChunks(fileName, read[..k], now)
    {
      if sheets[k].None? {
        break;
      }
      var sheetChunks := ProcessSheet(fileName, sheets[k].value, now);
      SheetsChunksStep(fileName, read, k, now);
      chunks := chunks + sheetChunks;
      k := k + 1;
    }
    assert read[..k] == read;
  }

  lemma SheetsChunksStep(fileName: string, read: seq<Sheet>, k: nat, now: string)
    requires k < |read|
    ensures SheetsChunks(fileName, read[..k + 1], now) == SheetsChunks(fileName, read[..k], now) + SheetChunks(fileName, read[k], now)
  {
    assert read[..k + 1][..k] == read[..k];
  }

  // ---------------------------------------------------------------------------
  // Lemmas

  /**
   * A sheet of n rows gives ceil(n / 50) chunks, none when it is empty; chunk k
   * covers rows 50k+1 to min(50k+50, n) and carries that range, the sheet name,
   * the summary and the lines of exactly those rows; row r (from 0) lies in
   * chunk r / 50.
   */
  lemma SheetChunksLayout(fileName: string, s: Sheet, now: string)
    ensures IsEmptySheet(s) ==> SheetChunks(fileName, s, now) == []
    ensures !IsEmptySheet(s) ==> forall r :: 0 <= r < |s.rows| ==>
              r / RowBlock < |SheetChunks(fileName, s, now)|
              && (r / RowBlock) * RowBlock <= r < BlockEnd((r / RowBlock) * RowBlock, |s.rows|)
    ensures !IsEmptySheet(s) ==> |SheetChunks(fileName, s, now)| == (|s.rows| + RowBlock - 1) / RowBlock
    ensures forall k :: 0 <= k < |SheetChunks(fileName, s, now)| ==>
              var c := SheetChunks(fileName, s, now)[k];
              k * RowBlock < |s.rows|
              && c.metadata == ExcelMetadata(fileName, s.name, RowRange(k * RowBlock, |s.rows|), now)
              && c.content == Summary(s) + BlockHeader(k * RowBlock, |s.rows|)
                              + RowLines(s.rows[k * RowBlock..BlockEnd(k * RowBlock, |s.rows|)])
  {
    if !IsEmptySheet(s) {
      forall k | 0 <= k < |SheetChunks(fileName, s, now)| ensures k * RowBlock < |s.rows| {
        BlockCountSpec(|s.rows|, k);
      }
    }
  }

  /** Consecutive blocks tile the rows: each is non-empty, at most 50 rows, and the next starts where it ends. */
  lemma BlocksTile(n: nat, k: nat)
    requires k * RowBlock < n
    ensures k * RowBlock < BlockEnd(k * RowBlock, n) <= k * RowBlock + RowBlock
    ensures BlockEnd(k * RowBlock, n) < n ==> BlockEnd(k * RowBlock, n) == (k + 1) * RowBlock
    ensures (k + 1) * RowBlock >= n ==> BlockEnd(k * RowBlock, n) == n
  {
  }

  /** How many cells of a row hold a value. */
  function CountPresent(row: Row): nat
    decreases |row|
  {
    if row == [] then 0 else (if row[0].1.Some? then 1 else 0) + CountPresent(row[1..])
  }

  /**
   * A row's line lists exactly its present cells, in column order: one entry
   * per present cell, the entry of present cell `j` sitting after those of
   * the present cells before it.
   */
  lemma CellTextsSpec(row: Row)
    ensures |CellTexts(row)| == CountPresent(row) <= |row|
    ensures forall j :: 0 <= j < |row| && row[j].1.Some? ==>
              CountPresent(row[..j]) < |CellTexts(row)| &&
              CellTexts(row)[CountPresent(row[..j])] == row[j].0 + ": " + row[j].1.value
    ensures (forall j :: 0 <= j < |row| ==> row[j].1.None?) ==> CellTexts(row) == []
    ensures (forall j :: 0 <= j < |row| ==> row[j].1.Some?) ==>
              |CellTexts(row)| == |row|
              && forall j :: 0 <= j < |row| ==> CellTexts(row)[j] == row[j].0 + ": " + row[j].1.value
  {
    CellTextsCount(row);
    if forall j :: 0 <= j < |row| ==> row[j].1.None? {
      CellTextsNone(row);
    }
    if forall j :: 0 <= j < |row| ==> row[j].1.Some? {
      CellTextsAll(row);
    }
    forall j | 0 <= j < |row| && row[j].1.Some?
      ensures CountPresent(row[..j]) < |CellTexts(row)|
      ensures CellTexts(row)[CountPresent(row[..j])] == row[j].0 + ": " + row[j].1.value
    {
      CellTextAt(row, j);
    }
  }

  /** A row with no present cell has an empty line. */
  lemma {:induction false} CellTextsNone(row: Row)
    requires forall j :: 0 <= j < |row| ==> row[j].1.None?
    ensures CellTexts(row) == []
    decreases |row|
  {
    if row != [] {
      CellTextsNone(row[1..]);
    }
  }

  /** A row whose cells are all present lists every one of them. */
  lemma {:induction false} CellTextsAll(row: Row)
    requires forall j :: 0 <= j < |row| ==> row[j].1.Some?
    ensures |CellTexts(row)| == |row|
    ensures forall j :: 0 <= j < |row| ==> CellTexts(row)[j] == row[j].0 + ": " + row[j].1.value
    decreases |row|
  {
    if row != [] {
      CellTextsAll(row[1..]);
    }
  }

  /** The entry of present cell `j` follows one entry per present cell before it. */
  lemma {:induction false} CellTextAt(row: Row, j: nat)
    requires j < |row| && row[j].1.Some?
    ensures CountPresent(row[..j]) < CountPresent(row) == |CellTexts(row)|
    ensures CellTexts(row)[CountPresent(row[..j])] == row[j].0 + ": " + row[j].1.value
    decreases j
  {
    CellTextsCount(row);
    if j > 0 {
      assert row[..j][1..] == row[1..][..j - 1];
      CellTextAt(row[1..], j - 1);
    }
  }

  lemma {:induction false} CellTextsCount(row: Row)
    ensures |CellTexts(row)| == CountPresent(row) <= |row|
    decreases |row|
  {
    if row != [] {
      CellTextsCount(row[1..]);
    }
  }

  /** The lines of a block are the lines of its rows, one after the other. */
  lemma {:induction false} RowLinesAppend(a: seq<Row>, b: seq<Row>)
    ensures RowLines(a + b) == RowLines(a) + RowLines(b)
    decreases |b|
  {
    if b == [] {
      assert a + b == a;
    } else {
      var b' := b[..|b| - 1];
      assert (a + b)[..|a + b| - 1] == a + b';
      assert (a + b)[|a + b| - 1] == b[|b| - 1];
      RowLinesAppend(a, b');
      assert RowLines(a + b) == RowLines(a + b') + RowLine(b[|b| - 1]);
      assert RowLines(b) == RowLines(b') + RowLine(b[|b| - 1]);
    }
  }

  /** The row lines of the blocks from row `i` on, one block after the other. */
  function BlockLines(rows: seq<Row>, i: nat): string
    decreases |rows| - i
  {
    if i >= |rows| then "" else RowLines(rows[i..BlockEnd(i, |rows|)]) + BlockLines(rows, i + RowBlock)
  }

  /** Cutting into blocks loses and repeats no row: the blocks' row lines, in order, are the lines of all rows. */
  lemma {:induction false} BlocksCoverRows(rows: seq<Row>, i: nat)
    requires i <= |rows|
    ensures BlockLines(rows, i) == RowLines(rows[i..])
    decreases |rows| - i
  {
    if i == |rows| {
      assert rows[i..] == [];
    } else {
      var e := BlockEnd(i, |rows|);
      BlocksCoverRows(rows, e);
      if e < |rows| {
        assert e == i + RowBlock;
      } else {
        assert BlockLines(rows, i + RowBlock) == "";
        assert rows[e..] == [];
      }
      assert rows[i..] == rows[i..e] + rows[e..];
      RowLinesAppend(rows[i..e], rows[e..]);
    }
  }

  /** The 120-row example: three chunks with row ranges 1-50, 51-100 and 101-120. */
  lemma HundredTwentyRows(fileName: string, s: Sheet, now: string)
    requires |s.rows| == 120 && |s.columns| > 0
    ensures |SheetChunks(fileName, s, now)| == 3
    ensures SheetChunks(fileName, s, now)[0].metadata.rowRange == Some("1-50")
    ensures SheetChunks(fileName, s, now)[1].metadata.rowRange == Some("51-100")
    ensures SheetChunks(fileName, s, now)[2].metadata.rowRange == Some("101-120")
  {
    SheetChunksLayout(fileName, s, now);
    assert 0 * RowBlock == 0 && 1 * RowBlock == 50 && 2 * RowBlock == 100;
    RowRangesOf120();
  }

  lemma RowRangesOf120()
    ensures RowRange(0, 120) == "1-50" && RowRange(50, 120) == "51-100" && RowRange(100, 120) == "101-120"
  {
    FirstRange();
    SecondRange();
    ThirdRange();
  }

  lemma FirstRange()
    ensures RowRange(0, 120) == "1-50"
  {
    assert NatToString(1) == "1";
    assert NatToString(50) == "50";
    assert "1" + "-" + "50" == "1-50";
  }

  lemma SecondRange()
    ensures RowRange(50, 120) == "51-100"
  {
    assert NatToString(51) == "51";
    assert NatToString(100) == NatToString(10) + "0" == "100";
    assert "51" + "-" + "100" == "51-100";
  }

  lemma ThirdRange()
    ensures RowRange(100, 120) == "101-120"
  {
    assert NatToString(101) == NatToString(10) + "1" == "101";
    assert NatToString(120) == NatToString(12) + "0" == "120";
    assert "101" + "-" + "120" == "101-120";
  }

  /** Every chunk of a workbook comes from a sheet read before the first failure, and carries that sheet's name. */
  lemma {:induction false} ExcelChunksFromSheets(fileName: string, sheets: seq<Sheet>, now: string)
    ensures forall c :: c in SheetsChunks(fileName, sheets, now) ==>
              c.metadata.source == Some(fileName) && c.metadata.sourceType == Some("excel")
              && c.metadata.page == None
              && exists j :: 0 <= j < |sheets| && c.metadata.sheet == Some(sheets[j].name)
    decreases |sheets|
  {
    if sheets != [] {
      var init := sheets[..|sheets| - 1];
      var s := sheets[|sheets| - 1];
      ExcelChunksFromSheets(fileName, init, now);
      SheetChunksLayout(fileName, s, now);
      forall c | c in SheetsChunks(fileName, sheets, now)
        ensures c.metadata.source == Some(fileName) && c.metadata.sourceType == Some("excel")
              && c.metadata.page == None
              && exists j :: 0 <= j < |sheets| && c.metadata.sheet == Some(sheets[j].name)
      {
        if c in SheetsChunks(fileName, init, now) {
          var j :| 0 <= j < |init| && c.metadata.sheet == Some(init[j].name);
          assert init[j] == sheets[j];
        } else {
          assert c in SheetChunks(fileName, s, now);
          assert c.metadata.sheet == Some(sheets[|sheets| - 1].name);
        }
      }
    }
  }
}
