/**
  The bookkeeping of the document indexer (`update_database.py`): which files of
  the knowledge-base directory are indexed, the text and metadata extracted from
  each, the per-page metadata of PDF files, the replication of a document's
  metadata onto its chunks, and the sequential chunk ids of a full rebuild.

  The document readers, the text splitter and the vector store are outside the
  model: a file's readable content is given as a `Content` value and the
  splitter as a function from text to chunks.
*/
module Indexing {
  import opened Common
  import opened Strings
  import opened Paths

  /** The extensions the indexer reads, lower-case. */
  const SupportedExtensions: seq<string> := [".pdf", ".docx", ".xlsx", ".csv", ".txt"]

  /** `should_process_file`: not hidden, and with a supported extension in any letter case. */
  function ShouldProcessFile(name: string): bool
  {
    if |name| > 0 && name[0] == '.' then false
    else Lower(Ext(name)) in SupportedExtensions
  }

  /**
    For a directory entry name, being processed is the same as: not hidden, and
    the lower-cased name ends with one of the supported extensions.
  */
  lemma ShouldProcessFileIff(name: string)
    requires '/' !in name
    ensures ShouldProcessFile(name) <==>
      |name| > 0 && name[0] != '.' && exists e :: e in SupportedExtensions && EndsWith(Lower(name), e)
  {
    if |name| > 0 && name[0] != '.' {
      forall e | e in SupportedExtensions
        ensures Lower(Ext(name)) == e <==> EndsWith(Lower(name), e)
      {
        assert '.' !in e[1..];
        ExtOfPlainName(name, e);
      }
    } else if name == "" {
      assert Ext(name) == "";
    }
  }

  // ----- reading one document -----

  /**
    What the reader libraries find in a file: the text of each PDF page ("" for a
    page without extractable text), the text of any other document, or nothing
    readable (the reader raises).
  */
  datatype Content = Unreadable | Pages(texts: seq<string>) | Text(text: string)

  /** The document type recorded for each supported extension. */
  function DocType(ext: string): (r: Option<string>)
    ensures r.Some? <==> ext in SupportedExtensions
  {
    if ext == ".pdf" then Some("pdf")
    else if ext == ".docx" then Some("docx")
    else if ext == ".xlsx" then Some("excel")
    else if ext == ".csv" then Some("csv")
    else if ext == ".txt" then Some("txt")
    else None
  }

  /** The metadata `read_pdf` records for the page at 0-based index `i` of a `total`-page file. */
  function PageEntry(i: nat, total: nat): Dict
  {
    map["page" := Int(i + 1), "total_pages" := Int(total)]
  }

  /** The 0-based indices, among the first `n` pages, of the pages with text. */
  function Kept(pages: seq<string>, n: nat): (r: seq<nat>)
    requires n <= |pages|
    ensures forall j :: 0 <= j < |r| ==> r[j] < n
  {
    if n == 0 then []
    else Kept(pages, n - 1) + (if pages[n - 1] != "" then [n - 1] else [])
  }

  /** The texts `read_pdf` collects from the first `n` pages. */
  function PdfParts(pages: seq<string>, n: nat): seq<string>
    requires n <= |pages|
  {
    if n == 0 then []
    else PdfParts(pages, n - 1) + (if pages[n - 1] != "" then [pages[n - 1]] else [])
  }

  /** The page metadata `read_pdf` collects from the first `n` pages. */
  function PdfEntries(pages: seq<string>, n: nat): seq<Dict>
    requires n <= |pages|
  {
    if n == 0 then []
    else PdfEntries(pages, n - 1) + (if pages[n - 1] != "" then [PageEntry(n - 1, |pages|)] else [])
  }

  /** The kept indices are increasing, below `n`, and are exactly the pages with text. */
  lemma {:induction false} KeptArePagesWithText(pages: seq<string>, n: nat)
    requires n <= |pages|
    ensures forall j :: 0 <= j < |Kept(pages, n)| ==> Kept(pages, n)[j] < n && pages[Kept(pages, n)[j]] != ""
    ensures forall i :: 0 <= i < n && pages[i] != "" ==> i in Kept(pages, n)
    ensures forall j, k :: 0 <= j < k < |Kept(pages, n)| ==> Kept(pages, n)[j] < Kept(pages, n)[k]
  {
    if n > 0 {
      KeptArePagesWithText(pages, n - 1);
      var before := Kept(pages, n - 1);
      assert Kept(pages, n) == before + (if pages[n - 1] != "" then [n - 1] else []);
    }
  }

  /** The collected texts and page entries are those of the kept pages, in order. */
  lemma {:induction false} PdfPartsFollowKept(pages: seq<string>, n: nat)
    requires n <= |pages|
    ensures |PdfParts(pages, n)| == |PdfEntries(pages, n)| == |Kept(pages, n)|
    ensures forall j :: 0 <= j < |Kept(pages, n)| ==>
      PdfParts(pages, n)[j] == pages[Kept(pages, n)[j]] &&
      PdfEntries(pages, n)[j] == PageEntry(Kept(pages, n)[j], |pages|)
  {
    if n > 0 {
      PdfPartsFollowKept(pages, n - 1);
    }
  }

  /** `read_pdf` over the page texts: join the non-empty pages, one 1-based page entry for each. */
  method ReadPdf(pages: seq<string>) returns (text: string, metadata: seq<Dict>)
    ensures text == Join("\n\n", PdfParts(pages, |pages|))
    ensures metadata == PdfEntries(pages, |pages|)
  {
    var textParts: seq<string> := [];
    metadata := [];
    var i := 0;
    while i < |pages|
      invariant 0 <= i <= |pages|
      invariant textParts == PdfParts(pages, i)
      invariant metadata == PdfEntries(pages, i)
    {
      var pageText := pages[i];
      if pageText != "" {
        textParts := textParts + [pageText];
        metadata := metadata + [PageEntry(i, |pages|)];
      }
      i := i + 1;
    }
    text := Join("\n\n", textParts);
  }

  /** The reader for a document type applied to a file's content: its text and page metadata, or None when it raises. */
  function Read(docType: string, content: Content): Option<(string, seq<Dict>)>
  {
    match content
    case Pages(texts) =>
      if docType == "pdf" then Some((Join("\n\n", PdfParts(texts, |texts|)), PdfEntries(texts, |texts|)))
      else None
    case Text(t) => if docType != "pdf" then Some((t, [map[]])) else None
    case Unreadable => None
  }

  /** `process_document`: dispatch on the extension, read, and assemble the metadata. */
  function ProcessDocument(filePath: string, absPath: string, content: Content): (string, Dict)
  {
    match DocType(Lower(Ext(filePath)))
    case None => ("", map[])
    case Some(docType) =>
      match Read(docType, content)
      case None => ("", map[])
      case Some((text, pageMetadata)) =>
        (text, WithFirstPage(BaseMetadata(filePath, docType, absPath), pageMetadata))
  }

  /** The metadata every processed document carries. */
  function BaseMetadata(filePath: string, docType: string, absPath: string): Dict
  {
    map["source" := Str(Basename(filePath)), "doc_type" := Str(docType), "path" := Str(absPath)]
  }

  /** The document metadata, updated with the reader's first page metadata when there is a non-empty one. */
  function WithFirstPage(metadata: Dict, pageMetadata: seq<Dict>): Dict
  {
    if |pageMetadata| > 0 && pageMetadata[0] != map[] then metadata + pageMetadata[0] else metadata
  }

  /**
    A document yields metadata exactly when its extension is supported and the
    matching reader succeeds; otherwise both text and metadata are empty.
  */
  lemma ProcessDocumentSucceedsIff(filePath: string, absPath: string, content: Content)
    ensures var ext := Lower(Ext(filePath));
      var (text, meta) := ProcessDocument(filePath, absPath, content);
      (meta != map[] <==> ext in SupportedExtensions && Read(DocType(ext).value, content).Some?) &&
      (meta == map[] ==> text == "")
  {
    var ext := Lower(Ext(filePath));
    var result := ProcessDocument(filePath, absPath, content);
    match DocType(ext)
    case None =>
      assert result == ("", map[]);
    case Some(docType) =>
      match Read(docType, content)
      case None =>
        assert result == ("", map[]);
      case Some((text, pageMetadata)) =>
        var base := BaseMetadata(filePath, docType, absPath);
        assert result.1 == WithFirstPage(base, pageMetadata);
        assert "source" in base;
  }

  /** Successful metadata names the file, its type and its absolute path; only a PDF adds more keys. */
  lemma ProcessDocumentFields(filePath: string, absPath: string, content: Content)
    requires ProcessDocument(filePath, absPath, content).1 != map[]
    ensures var ext := Lower(Ext(filePath));
      var meta := ProcessDocument(filePath, absPath, content).1;
      ext in SupportedExtensions &&
      "source" in meta && meta["source"] == Str(Basename(filePath)) &&
      "doc_type" in meta && meta["doc_type"] == Str(DocType(ext).value) &&
      "path" in meta && meta["path"] == Str(absPath) &&
      (ext != ".pdf" ==> meta.Keys == {"source", "doc_type", "path"})
  {
    var ext := Lower(Ext(filePath));
    ProcessDocumentRead(filePath, absPath, content);
    var docType := DocType(ext).value;
    var base := BaseMetadata(filePath, docType, absPath);
    var pageMetadata := Read(docType, content).value.1;
    if content.Pages? {
      assert docType == "pdf" && pageMetadata == PdfEntries(content.texts, |content.texts|);
      PageEntryKeepsBase(base, content.texts);
    } else {
      assert pageMetadata == [map[]];
    }
  }

  /** A successful `process_document` is the reader's text and the base metadata updated with the first page entry. */
  lemma ProcessDocumentRead(filePath: string, absPath: string, content: Content)
    requires ProcessDocument(filePath, absPath, content).1 != map[]
    ensures var ext := Lower(Ext(filePath));
      DocType(ext).Some? && Read(DocType(ext).value, content).Some? &&
      (DocType(ext).value == "pdf" <==> ext == ".pdf") &&
      ProcessDocument(filePath, absPath, content).1 ==
        WithFirstPage(BaseMetadata(filePath, DocType(ext).value, absPath), Read(DocType(ext).value, content).value.1)
  {
    var ext := Lower(Ext(filePath));
    assert DocType(ext).Some?;
    var docType := DocType(ext).value;
    assert Read(docType, content).Some?;
    DocTypeIsPdf(ext);
  }

  /** Only the `.pdf` extension selects the PDF reader. */
  lemma DocTypeIsPdf(ext: string)
    requires DocType(ext).Some?
    ensures DocType(ext).value == "pdf" <==> ext == ".pdf"
  {
  }

  /** Merging the first page entry of a PDF adds only `page` and `total_pages`. */
  lemma PageEntryKeepsBase(base: Dict, texts: seq<string>)
    requires "page" !in base && "total_pages" !in base
    ensures var meta := WithFirstPage(base, PdfEntries(texts, |texts|));
      forall k :: k in base ==> k in meta && meta[k] == base[k]
  {
    var entries := PdfEntries(texts, |texts|);
    if |entries| > 0 && entries[0] != map[] {
      PdfPartsFollowKept(texts, |texts|);
      assert entries[0] == PageEntry(Kept(texts, |texts|)[0], |texts|);
    }
  }

  /**
    A PDF's metadata carries page information exactly when some page has text,
    and then it is the 1-based number of the first such page and the page count.
  */
  lemma PdfMetadataPage(filePath: string, absPath: string, texts: seq<string>)
    requires Lower(Ext(filePath)) == ".pdf"
    ensures var meta := ProcessDocument(filePath, absPath, Pages(texts)).1;
      var kept := Kept(texts, |texts|);
      ("page" in meta <==> |kept| > 0) &&
      (|kept| > 0 ==> "page" in meta && meta["page"] == Int(kept[0] + 1) &&
                      "total_pages" in meta && meta["total_pages"] == Int(|texts|))
  {
    PdfProcessed(filePath, absPath, texts);
    FirstPageEntry(BaseMetadata(filePath, "pdf", absPath), texts);
  }

  lemma FirstPageEntry(base: Dict, texts: seq<string>)
    requires "page" !in base
    ensures var meta := WithFirstPage(base, PdfEntries(texts, |texts|));
      var kept := Kept(texts, |texts|);
      ("page" in meta <==> |kept| > 0) &&
      (|kept| > 0 ==> "page" in meta && meta["page"] == Int(kept[0] + 1) &&
                      "total_pages" in meta && meta["total_pages"] == Int(|texts|))
  {
    PdfPartsFollowKept(texts, |texts|);
    var kept := Kept(texts, |texts|);
    var entries := PdfEntries(texts, |texts|);
    if |kept| > 0 {
      assert entries[0] == PageEntry(kept[0], |texts|);
    }
  }

  lemma PdfProcessed(filePath: string, absPath: string, texts: seq<string>)
    requires Lower(Ext(filePath)) == ".pdf"
    ensures ProcessDocument(filePath, absPath, Pages(texts)).1 ==
      WithFirstPage(BaseMetadata(filePath, "pdf", absPath), PdfEntries(texts, |texts|))
  {
    assert DocType(".pdf") == Some("pdf");
    assert Read("pdf", Pages(texts)) == Some((Join("\n\n", PdfParts(texts, |texts|)), PdfEntries(texts, |texts|)));
    ProcessDocumentOfType(filePath, absPath, Pages(texts), "pdf");
  }

  /** With a known document type and a successful read, the result is the text and the assembled metadata. */
  lemma ProcessDocumentOfType(filePath: string, absPath: string, content: Content, docType: string)
    requires DocType(Lower(Ext(filePath))) == Some(docType) && Read(docType, content).Some?
    ensures ProcessDocument(filePath, absPath, content) ==
      (Read(docType, content).value.0, WithFirstPage(BaseMetadata(filePath, docType, absPath), Read(docType, content).value.1))
  {
  }

  /** `chunk_text`: split the text and pair each chunk, in order, with a copy of the metadata. */
  method ChunkText(text: string, metadata: Dict, split: string -> seq<string>) returns (pairs: seq<(string, Dict)>)
    ensures |pairs| == |split(text)|
    ensures forall i :: 0 <= i < |pairs| ==> pairs[i] == (split(text)[i], metadata)
  {
    var chunks := split(text);
    pairs := [];
    var i := 0;
    while i < |chunks|
      invariant 0 <= i <= |chunks|
      invariant |pairs| == i
      invariant forall k :: 0 <= k < i ==> pairs[k] == (chunks[k], metadata)
    {
      pairs := pairs + [(chunks[i], metadata)];
      i := i + 1;
    }
  }

  // ----- rebuilding the whole index -----

  /** An entry of the knowledge-base directory listing. */
  datatype DirEntry = DirEntry(name: string, isFile: bool, content: Content)

  /** The chunks a file contributes: nothing unless it passes the filter, is a regular file and yields text and metadata. */
  function FileChunks(kbDir: string, e: DirEntry, abspath: string -> string, split: string -> seq<string>): seq<(string, Dict)>
  {
    var path := PathJoin(kbDir, e.name);
    if !(ShouldProcessFile(e.name) && e.isFile) then []
    else
      var (text, metadata) := ProcessDocument(path, abspath(path), e.content);
      if text != "" && metadata != map[] then seq(|split(text)|, i requires 0 <= i < |split(text)| => (split(text)[i], metadata))
      else []
  }

  /** The chunks of the first `n` listed files, in listing order. */
  function Corpus(kbDir: string, listing: seq<DirEntry>, abspath: string -> string, split: string -> seq<string>, n: nat): seq<(string, Dict)>
    requires n <= |listing|
  {
    if n == 0 then [] else Corpus(kbDir, listing, abspath, split, n - 1) + FileChunks(kbDir, listing[n - 1], abspath, split)
  }

  /** The id of the `i`-th chunk of a rebuild. */
  function DocId(i: nat): string
  {
    "doc_" + Decimal(i)
  }

  /** No two chunks of a rebuild share an id. */
  lemma DocIdsDistinct(i: nat, j: nat)
    requires i != j
    ensures DocId(i) != DocId(j)
  {
    if DocId(i) == DocId(j) {
      assert Decimal(i) == DocId(i)[4..];
      assert Decimal(j) == DocId(j)[4..];
      DecimalInjective(i, j);
    }
  }

  /** The rebuild lists agree with the chunk sequence `done`, with ids counted from `doc_0`. */
  ghost predicate Collected(documents: seq<string>, metadatas: seq<Dict>, ids: seq<string>, done: seq<(string, Dict)>)
  {
    |documents| == |metadatas| == |ids| == |done| &&
    forall k :: 0 <= k < |done| ==> documents[k] == done[k].0 && metadatas[k] == done[k].1 && ids[k] == DocId(k)
  }

  /** Appending one chunk, with the next id, keeps the lists in step. */
  lemma CollectedStep(documents: seq<string>, metadatas: seq<Dict>, ids: seq<string>, done: seq<(string, Dict)>, chunk: (string, Dict))
    requires Collected(documents, metadatas, ids, done)
    ensures Collected(documents + [chunk.0], metadatas + [chunk.1], ids + [DocId(|done|)], done + [chunk])
  {
  }

  /** The inner loop of `main`: append one file's chunks, numbering the ids on from `docId`. */
  method AppendChunks(documents: seq<string>, metadatas: seq<Dict>, ids: seq<string>, docId: nat, chunks: seq<(string, Dict)>, ghost done: seq<(string, Dict)>)
    returns (documents': seq<string>, metadatas': seq<Dict>, ids': seq<string>, docId': nat)
    requires Collected(documents, metadatas, ids, done) && docId == |done|
    ensures Collected(documents', metadatas', ids', done + chunks) && docId' == |done + chunks|
  {
    documents', metadatas', ids', docId' := documents, metadatas, ids, docId;
    var c := 0;
    while c < |chunks|
      invariant 0 <= c <= |chunks|
      invariant Collected(documents', metadatas', ids', done + chunks[..c]) && docId' == |done| + c
    {
      CollectedStep(documents', metadatas', ids', done + chunks[..c], chunks[c]);
      assert done + chunks[..c + 1] == done + chunks[..c] + [chunks[c]];
      documents' := documents' + [chunks[c].0];
      metadatas' := metadatas' + [chunks[c].1];
      ids' := ids' + [DocId(docId')];
      docId' := docId' + 1;
      c := c + 1;
    }
    assert chunks[..c] == chunks;
  }

  /** The body of the file loop of `main` up to chunking: the chunks one listed entry contributes. */
  method EntryChunks(kbDir: string, entry: DirEntry, abspath: string -> string, split: string -> seq<string>)
    returns (chunks: seq<(string, Dict)>)
    ensures chunks == FileChunks(kbDir, entry, abspath, split)
  {
    chunks := [];
    if ShouldProcessFile(entry.name) {
      var filePath := PathJoin(kbDir, entry.name);
      if entry.isFile {
        var (text, metadata) := ProcessDocument(filePath, abspath(filePath), entry.content);
        if text != "" && metadata != map[] {
          chunks := ChunkText(text, metadata, split);
        }
      }
    }
  }

  /**
    The accumulation loop of `main`: every processable regular file is read,
    chunked and appended; the three lists grow together and the ids count up
    from `doc_0` across files.
  */
  method IndexKnowledgeBase(kbDir: string, listing: seq<DirEntry>, abspath: string -> string, split: string -> seq<string>)
    returns (documents: seq<string>, metadatas: seq<Dict>, ids: seq<string>)
    ensures Collected(documents, metadatas, ids, Corpus(kbDir, listing, abspath, split, |listing|))
  {
    documents, metadatas, ids := [], [], [];
    var docId := 0;
    var f := 0;
    while f < |listing|
      invariant 0 <= f <= |listing|
      invariant Collected(documents, metadatas, ids, Corpus(kbDir, listing, abspath, split, f))
      invariant docId == |Corpus(kbDir, listing, abspath, split, f)|
    {
      var chunks := EntryChunks(kbDir, listing[f], abspath, split);
      ghost var done := Corpus(kbDir, listing, abspath, split, f);
      documents, metadatas, ids, docId := AppendChunks(documents, metadatas, ids, docId, chunks, done);
      assert Corpus(kbDir, listing, abspath, split, f + 1) == done + chunks;
      f := f + 1;
    }
  }

  /** The chunk carries the metadata of the listed file `e`: its name as source and its joined path, made absolute. */
  predicate ChunkOf(kbDir: string, abspath: string -> string, chunk: (string, Dict), e: DirEntry)
  {
    var meta := chunk.1;
    ShouldProcessFile(e.name) && e.isFile &&
    "source" in meta && meta["source"] == Str(e.name) &&
    "path" in meta && meta["path"] == Str(abspath(PathJoin(kbDir, e.name)))
  }

  /** Every chunk a file contributes carries that file's metadata. */
  lemma FileChunksCarryFile(kbDir: string, e: DirEntry, abspath: string -> string, split: string -> seq<string>)
    requires '/' !in e.name && e.name != ""
    ensures forall c :: c in FileChunks(kbDir, e, abspath, split) ==> ChunkOf(kbDir, abspath, c, e)
  {
    var path := PathJoin(kbDir, e.name);
    if FileChunks(kbDir, e, abspath, split) != [] {
      FileChunksShareMetadata(kbDir, e, abspath, split);
      PathJoinBasename(kbDir, e.name);
      ProcessDocumentFields(path, abspath(path), e.content);
    }
  }

  /** A file that contributes chunks passed the filter, and all its chunks carry its processed metadata. */
  lemma FileChunksShareMetadata(kbDir: string, e: DirEntry, abspath: string -> string, split: string -> seq<string>)
    requires FileChunks(kbDir, e, abspath, split) != []
    ensures var path := PathJoin(kbDir, e.name);
      var meta := ProcessDocument(path, abspath(path), e.content).1;
      ShouldProcessFile(e.name) && e.isFile && meta != map[] &&
      forall c :: c in FileChunks(kbDir, e, abspath, split) ==> c.1 == meta
  {
  }

  /** The chunk carries the metadata of one of the first `n` listed files. */
  ghost predicate FromListing(kbDir: string, abspath: string -> string, chunk: (string, Dict), listing: seq<DirEntry>, n: nat)
    requires n <= |listing|
  {
    exists f :: 0 <= f < n && ChunkOf(kbDir, abspath, chunk, listing[f])
  }

  /**
    Every indexed chunk comes from a listed regular file that passes the filter,
    and its metadata records that file's name as source and its absolute path.
  */
  lemma {:induction false} CorpusProvenance(kbDir: string, listing: seq<DirEntry>, abspath: string -> string, split: string -> seq<string>, n: nat)
    requires n <= |listing|
    requires forall e :: e in listing ==> '/' !in e.name && e.name != ""
    ensures forall c :: c in Corpus(kbDir, listing, abspath, split, n) ==> FromListing(kbDir, abspath, c, listing, n)
  {
    if n > 0 {
      assert listing[n - 1] in listing;
      CorpusProvenance(kbDir, listing, abspath, split, n - 1);
      FileChunksCarryFile(kbDir, listing[n - 1], abspath, split);
      var before := Corpus(kbDir, listing, abspath, split, n - 1);
      var added := FileChunks(kbDir, listing[n - 1], abspath, split);
      assert Corpus(kbDir, listing, abspath, split, n) == before + added;
      forall c | c in before + added
        ensures FromListing(kbDir, abspath, c, listing, n)
      {
        if c in before {
          assert FromListing(kbDir, abspath, c, listing, n - 1);
          var f :| 0 <= f < n - 1 && ChunkOf(kbDir, abspath, c, listing[f]);
        } else {
          assert ChunkOf(kbDir, abspath, c, listing[n - 1]);
        }
      }
    } else {
      assert Corpus(kbDir, listing, abspath, split, n) == [];
    }
  }
}
