/**
 * `SantanderKnowledge`: the service the conversational agent calls. It loads
 * the store lazily, once (a load the collection refuses raises and is tried
 * again on the next call), and turns search results into the two texts the
 * agent uses: a citation context for the language model and a formatted
 * answer with sources.
 *
 * A result whose metadata lacks `source` makes the formatters raise
 * `KeyError`; the formatting functions return `None` for that case.
 * `{score:.1%}` is the parameter `percent`.
 */
module Knowledge {
  import opened Wrappers
  import opened Text
  import opened Records
  import opened Collection
  import opened Nearest
  import opened VectorStore
  import Classification
  import Loader
  import ExcelChunker

  /** `search_documents`' default `n_results`. */
  const DefaultResults: nat := 3
  /** `get_context_for_query` asks for two results. */
  const ContextResults: nat := 2
  /** `answer_with_sources` asks for five results. */
  const AnswerResults: nat := 5
  /** Contents longer than this are cut when displayed. */
  const DisplayLimit: nat := 400

  // ---------------------------------------------------------------------------
  // Citations

  /** Every result names its source (otherwise `metadata['source']` raises). */
  predicate AllSourced(results: seq<SearchResult>) {
    forall i :: 0 <= i < |results| ==> results[i].metadata.source.Some?
  }

  /**
   * What follows the source in a citation: the page when it is truthy,
   * otherwise the sheet when it is truthy, otherwise nothing.
   */
  function Location(m: Metadata, pagePrefix: string, sheetPrefix: string, suffix: string): (r: string)
    ensures HasPage(m) ==> r == pagePrefix + IntToString(m.page.value) + suffix
    ensures !HasPage(m) && HasSheet(m) ==> r == sheetPrefix + m.sheet.value + suffix
    ensures !HasPage(m) && !HasSheet(m) ==> r == ""
  {
    if HasPage(m) then pagePrefix + IntToString(m.page.value) + suffix
    else if HasSheet(m) then sheetPrefix + m.sheet.value + suffix
    else ""
  }

  /** `FUENTE i: <source>` and its location. */
  function Citation(i: nat, m: Metadata): string
    requires m.source.Some?
  {
    "FUENTE " + NatToString(i) + ": " + m.source.value + Location(m, " - Página ", " - Hoja: ", "")
  }

  /** `context_parts`: citation, content and separator for each result, numbered from 1. */
  function ContextParts(results: seq<SearchResult>): seq<string>
    requires AllSourced(results)
    decreases |results|
  {
    if results == [] then []
    else
      var n := |results|;
      ContextParts(results[..n - 1]) + [Citation(n, results[n - 1].metadata), results[n - 1].content, "---"]
  }

  /** The text `get_context_for_query` returns for the results: empty when there are none. */
  function Context(results: seq<SearchResult>): Option<string> {
    if results == [] then Some("")
    else if !AllSourced(results) then None
    else Some(Join(ContextParts(results), "\n"))
  }

  // ---------------------------------------------------------------------------
  // The formatted answer

  /** `_get_document_emoji`. */
  function DocumentEmoji(documentType: string): (e: string)
    ensures documentType == Classification.InformeGestion ==> e == "\U{1F4CA}"
    ensures documentType == Classification.InformeEjecutivo ==> e == "\U{1F4C4}"
    ensures documentType == Classification.TableroControl ==> e == "\U{1F4C8}"
    ensures documentType == Classification.DatosComplementarios ==> e == "\U{1F4CB}"
    ensures documentType == Classification.DocumentoGeneral ==> e == "\U{1F4DD}"
    ensures documentType !in Classification.Categories ==> e == "\U{1F4C4}"
  {
    var emojiMap := map[
      "informe_gestion" := "\U{1F4CA}",
      "informe_ejecutivo" := "\U{1F4C4}",
      "tablero_control" := "\U{1F4C8}",
      "datos_complementarios" := "\U{1F4CB}",
      "documento_general" := "\U{1F4DD}"];
    if documentType in emojiMap then emojiMap[documentType] else "\U{1F4C4}"
  }

  /** The message for an empty result list. */
  function NoInfo(query: string): string {
    "No encontré información específica sobre '" + query + "' en los documentos oficiales disponibles."
  }

  function Header(query: string): string {
    "\U{1F4CB} **Información encontrada sobre '" + query + "':**\n"
  }

  const Footer: string := "\n✅ **Toda esta información proviene de documentos oficiales de la Gobernación de Santander**"

  /** `content[:400] + "..."` when the content is longer than 400 characters. */
  function Display(content: string): (d: string)
    ensures |content| <= DisplayLimit ==> d == content
    ensures |content| > DisplayLimit ==> |d| == DisplayLimit + 3 && StartsWith(d, content[..DisplayLimit]) && EndsWith(d, "...")
  {
    if |content| > DisplayLimit then content[..DisplayLimit] + "..." else content
  }

  /** The emoji, the source in bold, and the page or sheet in parentheses. */
  function SourceInfo(m: Metadata): string
    requires m.source.Some?
  {
    DocumentEmoji(m.documentType.GetOr("unknown")) + " **" + m.source.value + "**"
    + Location(m, " (Página ", " (Hoja: ", ")")
  }

  /** The four parts of result i. */
  function Entry(i: nat, r: SearchResult, percent: real -> string): seq<string>
    requires r.metadata.source.Some?
  {
    ["\n**" + NatToString(i) + ". " + SourceInfo(r.metadata) + "**",
     "*Relevancia: " + percent(r.relevanceScore) + "*",
     Display(r.content),
     "---"]
  }

  function Entries(results: seq<SearchResult>, percent: real -> string): seq<string>
    requires AllSourced(results)
    decreases |results|
  {
    if results == [] then []
    else Entries(results[..|results| - 1], percent) + Entry(|results|, results[|results| - 1], percent)
  }

  /** The text `format_search_results` returns. */
  function FormattedResults(results: seq<SearchResult>, query: string, percent: real -> string): Option<string> {
    if results == [] then Some(NoInfo(query))
    else if !AllSourced(results) then None
    else Some(Join([Header(query)] + Entries(results, percent) + [Footer], "\n"))
  }

  /** The dictionary `answer_with_sources` returns. */
  datatype Answer = Answer(
    query: string,
    foundSources: nat,
    formattedResponse: string,
    rawResults: seq<SearchResult>,
    hasOfficialData: bool)

  function AnswerFor(query: string, results: seq<SearchResult>, percent: real -> string): Option<Answer> {
    match FormattedResults(results, query, percent)
    case None => None
    case Some(text) => Some(Answer(query, |results|, text, results, |results| > 0))
  }

  // ---------------------------------------------------------------------------
  // The formatting loops

  /** Builds `context_parts` result by result, then joins them. */
  method BuildContext(results: seq<SearchResult>) returns (context: Option<string>)
    ensures context == Context(results)
  {
    if results == [] {
      return Some("");
    }
    if !AllSourced(results) {
      return None;
    }
    var parts: seq<string> := [];
    for i := 0 to |results|
      invariant parts == ContextParts(results[..i])
    {
      assert results[..i + 1][..i] == results[..i];
      parts := parts + [Citation(i + 1, results[i].metadata), results[i].content, "---"];
    }
    assert results[..|results|] == results;
    context := Some(Join(parts, "\n"));
  }

  /** Builds `response_parts`: the header, four parts per result, and the closing note. */
  method FormatSearchResults(results: seq<SearchResult>, query: string, percent: real -> string)
    returns (text: Option<string>)
    ensures text == FormattedResults(results, query, percent)
  {
    if results == [] {
      return Some(NoInfo(query));
    }
    if !AllSourced(results) {
      return None;
    }
    var entries: seq<string> := [];
    for i := 0 to |results|
      invariant entries == Entries(results[..i], percent)
    {
      EntriesSnoc(results, i, percent);
      entries := entries + Entry(i + 1, results[i], percent);
    }
    assert results[..|results|] == results;
    var parts := [Header(query)] + entries;
    text := Some(Join(parts + [Footer], "\n"));
  }

  /** The dictionary `answer_with_sources` builds around the formatted results. */
  method BuildAnswer(query: string, results: seq<SearchResult>, percent: real -> string) returns (answer: Option<Answer>)
    ensures answer == AnswerFor(query, results, percent)
  {
    var text := FormatSearchResults(results, query, percent);
    answer := if text.None? then None else Some(Answer(query, |results|, text.value, results, |results| > 0));
  }

  lemma EntriesSnoc(results: seq<SearchResult>, i: nat, percent: real -> string)
    requires i < |results| && AllSourced(results)
    ensures Entries(results[..i + 1], percent) == Entries(results[..i], percent) + Entry(i + 1, results[i], percent)
  {
    assert results[..i + 1][..i] == results[..i];
  }

  // ---------------------------------------------------------------------------
  // The service

  class SantanderKnowledge {
    const db: VectorDB
    /** The data directory's listing and what the readers deliver for its files. */
    const listing: seq<string>
    const pdfPages: string -> seq<Option<string>>
    const workbook: string -> seq<Option<ExcelChunker.Sheet>>
    var isLoaded: bool
    /** How many load passes of this service have completed. */
    ghost var loads: nat

    /**
     * The guard's invariant: at most one load pass has completed, and none
     * while the flag is unset (a refused pass raises and is not counted).
     */
    ghost predicate Valid()
      reads this
    {
      loads <= 1 && (!isLoaded ==> loads == 0)
    }

    constructor (db: VectorDB, listing: seq<string>, pdfPages: string -> seq<Option<string>>,
                 workbook: string -> seq<Option<ExcelChunker.Sheet>>)
      ensures this.db == db && this.listing == listing && this.pdfPages == pdfPages && this.workbook == workbook
      ensures !isLoaded && loads == 0 && Valid()
    {
      this.db := db;
      this.listing := listing;
      this.pdfPages := pdfPages;
      this.workbook := workbook;
      isLoaded := false;
      loads := 0;
    }

    /** The collection after the one load pass `ensure_loaded` may start. */
    ghost function AfterLoad(m: map<string, Record>, now: string): map<string, Record>
      reads this, db
    {
      LoadedRecords(m, Loader.AllChunks(listing, pdfPages, workbook, now), db.md5Hex, db.encode)
    }

    /**
     * What one `ensure_loaded` leaves behind, given the flag, the store and the
     * counter it started from: nothing changes when the flag was set or the
     * store held chunks (the flag ends set); otherwise the directory's batch is
     * upserted, and the flag is set and the pass counted unless the collection
     * refused the batch, in which case the flag stays unset.
     */
    ghost predicate Guarded(wasLoaded: bool, before: map<string, Record>, loadsBefore: nat, now: string)
      reads this, db
    {
      if wasLoaded || |before| != 0 then
        isLoaded && db.records == before && loads == loadsBefore
      else
        db.records == AfterLoad(before, now) &&
        isLoaded == (OutcomeOf(Loader.AllChunks(listing, pdfPages, workbook, now), db.md5Hex) != DuplicateIds) &&
        loads == (if isLoaded then loadsBefore + 1 else loadsBefore)
    }

    /**
     * `ensure_loaded`: when not yet loaded, reads the stats and loads the
     * directory if the store holds no chunk; then sets the flag. When the
     * collection refuses the batch the error leaves the method before the flag
     * is set: `ok` is false and the store is as it was.
     */
    method EnsureLoaded(now: string) returns (ok: bool)
      requires Valid()
      modifies this, db
      ensures Valid() && ok == isLoaded
      ensures Guarded(old(isLoaded), old(db.records), old(loads), now)
      ensures !ok ==> db.records == old(db.records)
    {
      if !isLoaded {
        var stats, _ := db.GetDocumentStats();
        if stats.totalChunks == 0 {
          var outcome := db.LoadDocuments(listing, pdfPages, workbook, now);
          if outcome == DuplicateIds {
            return false;
          }
          loads := loads + 1;
        }
        isLoaded := true;
      }
      return true;
    }

    /**
     * `search_documents`: loads if needed, then searches the store; `None`
     * when the load raised.
     */
    method SearchDocuments(now: string, query: string, nResults: nat := DefaultResults, documentType: Option<string> := None)
      returns (results: Option<seq<SearchResult>>, ghost ids: seq<string>)
      requires Valid()
      modifies this, db
      ensures Valid() && Guarded(old(isLoaded), old(db.records), old(loads), now)
      ensures results.None? <==> !isLoaded
      ensures isLoaded ==>
                IsNearest(db.records, db.distance, query, Candidates(db.records, WhereFilter(documentType)), nResults, ids) &&
                results == Some(Reshape(db.records, db.distance, query, ids))
    {
      var ok := EnsureLoaded(now);
      if !ok {
        return None, [];
      }
      var found;
      found, ids := db.Search(query, nResults, documentType);
      results := Some(found);
    }

    /**
     * `get_context_for_query`: the citation context of the two nearest
     * results; `None` when the load or a citation raised.
     */
    method GetContextForQuery(now: string, query: string) returns (context: Option<string>, ghost ids: seq<string>)
      requires Valid()
      modifies this, db
      ensures Valid() && Guarded(old(isLoaded), old(db.records), old(loads), now)
      ensures !isLoaded ==> context == None
      ensures isLoaded ==>
                IsNearest(db.records, db.distance, query, Candidates(db.records, None), ContextResults, ids) &&
                context == Context(Reshape(db.records, db.distance, query, ids))
    {
      var results;
      results, ids := SearchDocuments(now, query, ContextResults);
      if results.None? {
        return None, ids;
      }
      context := BuildContext(results.value);
    }

    /**
     * `answer_with_sources`: the five nearest results, formatted, with their
     * count; `None` when the load or the formatting raised.
     */
    method AnswerWithSources(now: string, query: string, percent: real -> string)
      returns (answer: Option<Answer>, ghost ids: seq<string>)
      requires Valid()
      modifies this, db
      ensures Valid() && Guarded(old(isLoaded), old(db.records), old(loads), now)
      ensures !isLoaded ==> answer == None
      ensures isLoaded ==>
                IsNearest(db.records, db.distance, query, Candidates(db.records, None), AnswerResults, ids) &&
                answer == AnswerFor(query, Reshape(db.records, db.distance, query, ids), percent)
    {
      var results;
      results, ids := SearchDocuments(now, query, AnswerResults);
      if results.None? {
        return None, ids;
      }
      answer := BuildAnswer(query, results.value, percent);
    }
  }

  // ---------------------------------------------------------------------------
  // Lemmas

  /** Parts 3i, 3i+1 and 3i+2 are result i's citation (numbered i + 1), its content and the separator. */
  predicate PartsAt(parts: seq<string>, results: seq<SearchResult>, i: nat)
    requires AllSourced(results) && i < |results| && |parts| == 3 * |results|
  {
    parts[3 * i] == Citation(i + 1, results[i].metadata) && parts[3 * i + 1] == results[i].content && parts[3 * i + 2] == "---"
  }

  lemma {:induction false} ContextPartsLayout(results: seq<SearchResult>)
    requires AllSourced(results)
    ensures |ContextParts(results)| == 3 * |results|
    ensures forall i :: 0 <= i < |results| ==> PartsAt(ContextParts(results), results, i)
    decreases |results|
  {
    if results != [] {
      var n := |results|;
      var init := results[..n - 1];
      ContextPartsLayout(init);
      var prev := ContextParts(init);
      var cite, content := Citation(n, results[n - 1].metadata), results[n - 1].content;
      var parts := prev + [cite, content, "---"];
      assert ContextParts(results) == parts;
      forall i | 0 <= i < n ensures PartsAt(parts, results, i) {
        if i < n - 1 {
          assert PartsAt(prev, init, i);
          assert init[i] == results[i];
          TripleKeepsPrefix(prev, cite, content, "---", 3 * i);
        } else {
          TripleAt(prev, cite, content, "---");
        }
      }
    }
  }

  lemma TripleKeepsPrefix(prev: seq<string>, a: string, b: string, c: string, j: nat)
    requires j + 2 < |prev|
    ensures (prev + [a, b, c])[j] == prev[j] && (prev + [a, b, c])[j + 1] == prev[j + 1] && (prev + [a, b, c])[j + 2] == prev[j + 2]
  {
  }

  lemma TripleAt(prev: seq<string>, a: string, b: string, c: string)
    ensures (prev + [a, b, c])[|prev|] == a && (prev + [a, b, c])[|prev| + 1] == b && (prev + [a, b, c])[|prev| + 2] == c
  {
  }

  /** The context is empty exactly when the search found nothing. */
  lemma ContextEmptyIff(results: seq<SearchResult>)
    requires AllSourced(results)
    ensures Context(results) == Some("") <==> results == []
  {
    if results != [] {
      ContextPartsLayout(results);
      var parts := ContextParts(results);
      JoinEnds(parts, "\n");
      assert PartsAt(parts, results, 0);
      assert |parts[0]| > 0;
    }
  }

  /** The page wins over the sheet, and a page of 0 or an empty sheet is not shown. */
  lemma PagePrecedence(m: Metadata, p: int, s: string)
    requires m.page == Some(p) && m.sheet == Some(s) && p != 0
    ensures Location(m, " - Página ", " - Hoja: ", "") == " - Página " + IntToString(p)
  {
  }

  /** Every category the classifier can return has its own emoji; anything else shows a page. */
  lemma EmojiCoversCategories(documentType: string)
    ensures documentType in Classification.Categories ==> DocumentEmoji(documentType) != "\U{1F4C4}" || documentType == Classification.InformeEjecutivo
    ensures documentType !in Classification.Categories ==> DocumentEmoji(documentType) == "\U{1F4C4}"
  {
  }

  /** The four parts per result. */
  lemma {:induction false} EntriesLength(results: seq<SearchResult>, percent: real -> string)
    requires AllSourced(results)
    ensures |Entries(results, percent)| == 4 * |results|
    decreases |results|
  {
    if results != [] {
      EntriesLength(results[..|results| - 1], percent);
    }
  }

  /**
   * The "No encontré" message is returned exactly when there are no results;
   * otherwise the text opens with the header and closes with the official-sources note.
   */
  lemma FormattedShape(results: seq<SearchResult>, query: string, percent: real -> string)
    requires AllSourced(results)
    ensures FormattedResults(results, query, percent) == Some(NoInfo(query)) <==> results == []
    ensures results != [] ==>
              StartsWith(FormattedResults(results, query, percent).value, Header(query))
              && EndsWith(FormattedResults(results, query, percent).value, Footer)
  {
    if results != [] {
      var parts := [Header(query)] + Entries(results, percent) + [Footer];
      JoinEnds(parts, "\n");
      var text := Join(parts, "\n");
      assert text[0] == Header(query)[0] == '\U{1F4CB}';
      var lead := "No encontré información específica sobre '";
      assert NoInfo(query) == lead + (query + "' en los documentos oficiales disponibles.");
      assert NoInfo(query)[0] == lead[0] == 'N';
    }
  }

  /** `found_sources` counts the results and `has_official_data` holds exactly when the response is not the "No encontré" message. */
  lemma AnswerConsistent(query: string, results: seq<SearchResult>, percent: real -> string)
    requires AllSourced(results)
    ensures AnswerFor(query, results, percent).Some?
    ensures var a := AnswerFor(query, results, percent).value;
            a.foundSources == |a.rawResults| && a.rawResults == results
            && (a.hasOfficialData <==> a.formattedResponse != NoInfo(query))
  {
    FormattedShape(results, query, percent);
  }

  /** A result without a source makes both formatters fail, as `metadata['source']` raises. */
  lemma MissingSourceFails(results: seq<SearchResult>, query: string, percent: real -> string, i: nat)
    requires i < |results| && results[i].metadata.source.None?
    ensures Context(results).None? && FormattedResults(results, query, percent).None?
    ensures AnswerFor(query, results, percent).None?
  {
  }
}
