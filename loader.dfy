/**
 * The ingestion pass of `SantanderVectorDB.load_documents` up to the store:
 * dispatching the files of the data directory on their extension, collecting
 * their chunks, and preparing the parallel lists of documents, metadatas and
 * ids handed to the store.
 *
 * The directory listing and what the readers deliver for each file are
 * parameters: `pdfPages(name)` is the page texts PyPDF2 extracts (`None` where
 * it raised) and `workbook(name)` is the sheets pandas reads (`None` where it raised).
 */
module Loader {
  import opened Wrappers
  import opened Text
  import opened Records
  import opened ChunkIds
  import PdfChunker
  import ExcelChunker

  datatype FileKind = PdfFile | ExcelFile | Ignored

  /** The extension test on the lowercased name: `.pdf` first, then `.xlsx` or `.xls`. */
  function KindOf(fileName: string): FileKind {
    var lower := Lower(fileName);
    if EndsWith(lower, ".pdf") then PdfFile
    else if EndsWith(lower, ".xlsx") || EndsWith(lower, ".xls") then ExcelFile
    else Ignored
  }

  /** The chunks one file contributes: its extractor's chunks, none for other files. */
  function FileChunks(fileName: string, pdfPages: string -> seq<Option<string>>,
                      workbook: string -> seq<Option<ExcelChunker.Sheet>>, now: string): seq<Chunk>
  {
    match KindOf(fileName)
    case PdfFile => PdfChunker.PdfChunks(fileName, pdfPages(fileName), now)
    case ExcelFile => ExcelChunker.ExcelChunks(fileName, workbook(fileName), now)
    case Ignored => []
  }

  /** `all_chunks`: the chunks of the listed files, in listing order. */
  function AllChunks(listing: seq<string>, pdfPages: string -> seq<Option<string>>,
                     workbook: string -> seq<Option<ExcelChunker.Sheet>>, now: string): seq<Chunk>
    decreases |listing|
  {
    if listing == [] then []
    else AllChunks(listing[..|listing| - 1], pdfPages, workbook, now)
         + FileChunks(listing[|listing| - 1], pdfPages, workbook, now)
  }

  /** The ids of the chunks, in order. */
  function ChunkIdList(chunks: seq<Chunk>, md5Hex: string -> string): (ids: seq<string>)
    ensures |ids| == |chunks|
    ensures forall i :: 0 <= i < |chunks| ==> ids[i] == GenerateChunkId(chunks[i].content, chunks[i].metadata, md5Hex)
  {
    seq(|chunks|, i requires 0 <= i < |chunks| => GenerateChunkId(chunks[i].content, chunks[i].metadata, md5Hex))
  }

  // ---------------------------------------------------------------------------
  // The loops of `load_documents`

  /** Walks the listing, sending each file to its extractor and extending `all_chunks`. */
  method CollectChunks(listing: seq<string>, pdfPages: string -> seq<Option<string>>,
                       workbook: string -> seq<Option<ExcelChunker.Sheet>>, now: string)
    returns (all: seq<Chunk>)
    ensures all == AllChunks(listing, pdfPages, workbook, now)
  {
    all := [];
    for i := 0 to |listing|
      invariant all == AllChunks(listing[..i], pdfPages, workbook, now)
    {
      var fileName := listing[i];
      assert listing[..i + 1][..i] == listing[..i];
      var kind := KindOf(fileName);
      if kind == PdfFile {
        var chunks := PdfChunker.ProcessPdfDocument(fileName, pdfPages(fileName), now);
        all := all + chunks;
      } else if kind == ExcelFile {
        var chunks := ExcelChunker.ProcessExcelDocument(fileName, workbook(fileName), now);
        all := all + chunks;
      }
    }
    assert listing[..|listing|] == listing;
  }

  /** Builds the `documents`, `metadatas` and `ids` lists side by side, one entry per chunk. */
  method PrepareBatch(chunks: seq<Chunk>, md5Hex: string -> string)
    returns (documents: seq<string>, metadatas: seq<Metadata>, ids: seq<string>)
    ensures |documents| == |metadatas| == |ids| == |chunks|
    ensures documents == Contents(chunks) && metadatas == Metadatas(chunks) && ids == ChunkIdList(chunks, md5Hex)
  {
    documents, metadatas, ids := [], [], [];
    for i := 0 to |chunks|
      invariant documents == Contents(chunks)[..i]
      invariant metadatas == Metadatas(chunks)[..i]
      invariant ids == ChunkIdList(chunks, md5Hex)[..i]
    {
      var chunk := chunks[i];
      BatchStep(chunks, i, md5Hex);
      documents := documents + [chunk.content];
      metadatas := metadatas + [chunk.metadata];
      ids := ids + [GenerateChunkId(chunk.content, chunk.metadata, md5Hex)];
    }
    assert Contents(chunks)[..|chunks|] == Contents(chunks);
    assert Metadatas(chunks)[..|chunks|] == Metadatas(chunks);
    assert ChunkIdList(chunks, md5Hex)[..|chunks|] == ChunkIdList(chunks, md5Hex);
  }

  /** Entry i of each list follows the first i. */
  lemma BatchStep(chunks: seq<Chunk>, i: nat, md5Hex: string -> string)
    requires i < |chunks|
    ensures Contents(chunks)[..i + 1] == Contents(chunks)[..i] + [chunks[i].content]
    ensures Metadatas(chunks)[..i + 1] == Metadatas(chunks)[..i] + [chunks[i].metadata]
    ensures ChunkIdList(chunks, md5Hex)[..i + 1]
            == ChunkIdList(chunks, md5Hex)[..i] + [GenerateChunkId(chunks[i].content, chunks[i].metadata, md5Hex)]
  {
  }

  // ---------------------------------------------------------------------------
  // Lemmas

  /** Lowering is idempotent, so the dispatch does not depend on the case of the name. */
  lemma KindIgnoresCase(fileName: string)
    ensures KindOf(Lower(fileName)) == KindOf(fileName)
  {
    assert Lower(Lower(fileName)) == Lower(fileName);
  }

  lemma LowerAppend(x: string, e: string)
    ensures Lower(x + e) == Lower(x) + Lower(e)
  {
  }

  lemma EndsWithAppend(x: string, e: string)
    ensures EndsWith(x + e, e)
  {
    assert (x + e)[|x + e| - |e|..] == e;
  }

  /** A name ending in `.pdf`, in any case, goes to the PDF extractor. */
  lemma PdfByExtension(stem: string, ext: string)
    requires Lower(ext) == ".pdf"
    ensures KindOf(stem + ext) == PdfFile
  {
    LowerAppend(stem, ext);
    EndsWithAppend(Lower(stem), ".pdf");
  }

  /** A name ending in `.xlsx` or `.xls`, in any case, goes to the workbook extractor. */
  lemma WorkbookByExtension(stem: string, ext: string)
    requires Lower(ext) == ".xlsx" || Lower(ext) == ".xls"
    ensures KindOf(stem + ext) == ExcelFile
  {
    LowerAppend(stem, ext);
    var l := Lower(stem) + Lower(ext);
    EndsWithAppend(Lower(stem), Lower(ext));
    assert l[|l| - 4..] == Lower(ext)[|Lower(ext)| - 4..];
    assert !EndsWith(l, ".pdf");
  }

  /** A chunk names a file the dispatch accepted, and is tagged with that file's kind. */
  predicate FromFile(c: Chunk, fileName: string) {
    && c.metadata.source == Some(fileName)
    && KindOf(fileName) != Ignored
    && (KindOf(fileName) == PdfFile ==> c.metadata.sourceType == Some("pdf"))
    && (KindOf(fileName) == ExcelFile ==> c.metadata.sourceType == Some("excel"))
  }

  /** Every chunk of a PDF names the file and is tagged `pdf`; every chunk of a workbook names the file and is tagged `excel`. */
  lemma FileChunksTagged(fileName: string, pdfPages: string -> seq<Option<string>>,
                         workbook: string -> seq<Option<ExcelChunker.Sheet>>, now: string)
    ensures forall c :: c in FileChunks(fileName, pdfPages, workbook, now) ==> FromFile(c, fileName)
  {
    match KindOf(fileName)
    case PdfFile =>
      PdfChunker.PdfChunksTraceable(ValuesBeforeNone(pdfPages(fileName)), fileName, now);
    case ExcelFile =>
      ExcelChunker.ExcelChunksFromSheets(fileName, ValuesBeforeNone(workbook(fileName)), now);
    case Ignored =>
  }

  /**
   * Dispatch: every collected chunk comes from a listed file, tagged `pdf` when
   * that file's lowercased name ends in `.pdf` and `excel` when it ends in
   * `.xlsx` or `.xls`; files with any other extension contribute nothing.
   */
  lemma {:induction false} AllChunksFromListedFiles(listing: seq<string>, pdfPages: string -> seq<Option<string>>,
                                                    workbook: string -> seq<Option<ExcelChunker.Sheet>>, now: string)
    ensures forall c :: c in AllChunks(listing, pdfPages, workbook, now) ==>
              exists j :: 0 <= j < |listing| && FromFile(c, listing[j])
    decreases |listing|
  {
    if listing != [] {
      var n := |listing|;
      var init := listing[..n - 1];
      AllChunksFromListedFiles(init, pdfPages, workbook, now);
      FileChunksTagged(listing[n - 1], pdfPages, workbook, now);
      forall c | c in AllChunks(listing, pdfPages, workbook, now)
        ensures exists j :: 0 <= j < |listing| && FromFile(c, listing[j])
      {
        if c in AllChunks(init, pdfPages, workbook, now) {
          var j :| 0 <= j < |init| && FromFile(c, init[j]);
          assert listing[j] == init[j];
        } else {
          assert FromFile(c, listing[n - 1]);
        }
      }
    }
  }

  /** The batch lists stay aligned: entry i of each describes chunk i, and each id names that chunk's source. */
  lemma BatchAligned(chunks: seq<Chunk>, md5Hex: string -> string)
    ensures forall i :: 0 <= i < |chunks| ==>
              Contents(chunks)[i] == chunks[i].content
              && Metadatas(chunks)[i] == chunks[i].metadata
              && StartsWith(ChunkIdList(chunks, md5Hex)[i], chunks[i].metadata.source.GetOr("unknown") + "_")
  {
  }

  // ---------------------------------------------------------------------------
  // Re-ingestion: only the timestamp depends on when the pass runs

  /** The chunks with their `processed_at` replaced by `now`. */
  function Restamp(chunks: seq<Chunk>, now: string): (r: seq<Chunk>)
    ensures |r| == |chunks|
    ensures forall i :: 0 <= i < |chunks| ==>
              r[i] == Chunk(chunks[i].content, chunks[i].metadata.(processedAt := Some(now)))
  {
    seq(|chunks|, i requires 0 <= i < |chunks| => Chunk(chunks[i].content, chunks[i].metadata.(processedAt := Some(now))))
  }

  lemma RestampAppend(a: seq<Chunk>, b: seq<Chunk>, now: string)
    ensures Restamp(a + b, now) == Restamp(a, now) + Restamp(b, now)
  {
  }

  lemma {:induction false} PdfRestamp(texts: seq<string>, fileName: string, now1: string, now2: string)
    ensures PdfChunker.PagesChunks(texts, fileName, now2) == Restamp(PdfChunker.PagesChunks(texts, fileName, now1), now2)
    decreases |texts|
  {
    if texts != [] {
      var n := |texts|;
      PdfRestamp(texts[..n - 1], fileName, now1, now2);
      RestampAppend(PdfChunker.PagesChunks(texts[..n - 1], fileName, now1),
                    PdfChunker.PageChunks(texts[n - 1], n, fileName, now1), now2);
    }
  }

  lemma {:induction false} ExcelRestamp(sheets: seq<ExcelChunker.Sheet>, fileName: string, now1: string, now2: string)
    ensures ExcelChunker.SheetsChunks(fileName, sheets, now2) == Restamp(ExcelChunker.SheetsChunks(fileName, sheets, now1), now2)
    decreases |sheets|
  {
    if sheets != [] {
      var n := |sheets|;
      ExcelRestamp(sheets[..n - 1], fileName, now1, now2);
      RestampAppend(ExcelChunker.SheetsChunks(fileName, sheets[..n - 1], now1),
                    ExcelChunker.SheetChunks(fileName, sheets[n - 1], now1), now2);
    }
  }

  lemma {:induction false} AllChunksRestamp(listing: seq<string>, pdfPages: string -> seq<Option<string>>,
                                            workbook: string -> seq<Option<ExcelChunker.Sheet>>, now1: string, now2: string)
    ensures AllChunks(listing, pdfPages, workbook, now2) == Restamp(AllChunks(listing, pdfPages, workbook, now1), now2)
    decreases |listing|
  {
    if listing != [] {
      var n := |listing|;
      var f := listing[n - 1];
      AllChunksRestamp(listing[..n - 1], pdfPages, workbook, now1, now2);
      RestampAppend(AllChunks(listing[..n - 1], pdfPages, workbook, now1), FileChunks(f, pdfPages, workbook, now1), now2);
      match KindOf(f)
      case PdfFile => PdfRestamp(ValuesBeforeNone(pdfPages(f)), f, now1, now2);
      case ExcelFile => ExcelRestamp(ValuesBeforeNone(workbook(f)), f, now1, now2);
      case Ignored =>
    }
  }

  /**
   * Loading the same unchanged files at two different times yields the same
   * documents and the same ids: the timestamp never enters an id.
   */
  lemma ReloadSameIds(listing: seq<string>, pdfPages: string -> seq<Option<string>>,
                      workbook: string -> seq<Option<ExcelChunker.Sheet>>, now1: string, now2: string,
                      md5Hex: string -> string)
    ensures Contents(AllChunks(listing, pdfPages, workbook, now1)) == Contents(AllChunks(listing, pdfPages, workbook, now2))
    ensures ChunkIdList(AllChunks(listing, pdfPages, workbook, now1), md5Hex)
            == ChunkIdList(AllChunks(listing, pdfPages, workbook, now2), md5Hex)
  {
    var a := AllChunks(listing, pdfPages, workbook, now1);
    AllChunksRestamp(listing, pdfPages, workbook, now1, now2);
    forall i | 0 <= i < |a|
      ensures GenerateChunkId(a[i].content, a[i].metadata, md5Hex)
              == GenerateChunkId(a[i].content, a[i].metadata.(processedAt := Some(now2)), md5Hex)
    {
      ChunkIdIgnoresOtherKeys(a[i].content, a[i].metadata, a[i].metadata.(processedAt := Some(now2)), md5Hex);
    }
  }
}
