/**
  The request handlers of `backend/api.py` around the chat stream whose logic
  can be stated on values: `update_settings` (field collection, model-name
  check, error wrapping), `search_files` (case-insensitive name filter) and
  `get_file` (path resolution and content type).

  The Ollama `/api/tags` answer, the directory listing, file sizes and file
  existence are inputs. An HTTP error is a status code and a detail; an
  exception caught by a handler's `except Exception` and re-raised as a 500
  carries `str(e)`, which for an `HTTPException` is "<status>: <detail>".
*/
module Endpoints {
  import opened Common
  import opened Strings
  import opened Paths
  import opened Settings
  import opened Indexing

  // ----- update_settings -----

  /** The request body: every field optional. */
  datatype SettingsRequest = SettingsRequest(
    ollamaBaseUrl: Option<string>,
    llmModel: Option<string>,
    embeddingModel: Option<string>,
    chunkSize: Option<int>,
    chunkOverlap: Option<int>,
    topKChunks: Option<int>)

  /** The request field stored under a settings key. */
  function RequestField(request: SettingsRequest, key: string): Option<Value>
  {
    if key == "ollama_base_url" && request.ollamaBaseUrl.Some? then Some(Str(request.ollamaBaseUrl.value))
    else if key == "llm_model" && request.llmModel.Some? then Some(Str(request.llmModel.value))
    else if key == "embedding_model" && request.embeddingModel.Some? then Some(Str(request.embeddingModel.value))
    else if key == "chunk_size" && request.chunkSize.Some? then Some(Int(request.chunkSize.value))
    else if key == "chunk_overlap" && request.chunkOverlap.Some? then Some(Int(request.chunkOverlap.value))
    else if key == "top_k_chunks" && request.topKChunks.Some? then Some(Int(request.topKChunks.value))
    else None
  }

  /** `new_settings`: the fields given in the request, under their settings keys. */
  method CollectFields(request: SettingsRequest) returns (newSettings: Dict)
    ensures forall k :: k in newSettings <==> RequestField(request, k).Some?
    ensures forall k :: k in newSettings ==> newSettings[k] == RequestField(request, k).value
  {
    newSettings := map[];
    if request.ollamaBaseUrl.Some? {
      newSettings := newSettings["ollama_base_url" := Str(request.ollamaBaseUrl.value)];
    }
    if request.llmModel.Some? {
      newSettings := newSettings["llm_model" := Str(request.llmModel.value)];
    }
    if request.embeddingModel.Some? {
      newSettings := newSettings["embedding_model" := Str(request.embeddingModel.value)];
    }
    if request.chunkSize.Some? {
      newSettings := newSettings["chunk_size" := Int(request.chunkSize.value)];
    }
    if request.chunkOverlap.Some? {
      newSettings := newSettings["chunk_overlap" := Int(request.chunkOverlap.value)];
    }
    if request.topKChunks.Some? {
      newSettings := newSettings["top_k_chunks" := Int(request.topKChunks.value)];
    }
  }

  /** Every field the request can carry is a whitelisted settings key, so saving keeps all of them. */
  lemma CollectedFieldsAreWhitelisted(request: SettingsRequest, newSettings: Dict)
    requires forall k :: k in newSettings <==> RequestField(request, k).Some?
    ensures newSettings.Keys <= Defaults.Keys
    ensures Whitelisted(newSettings) == newSettings
  {
    forall k | k in newSettings
      ensures k in Defaults
    {
      assert RequestField(request, k).Some?;
    }
  }

  /** What the `/api/tags` request gave: a connection failure, a non-200 status, or the installed model names. */
  datatype Tags = Unreachable | Status(code: int) | Models(names: seq<string>)

  /** The detail of the 404 raised for an unknown model: the LLM is checked before the embedding model. */
  function ModelProblem(request: SettingsRequest, tags: Tags): Option<string>
  {
    if request.llmModel.None? && request.embeddingModel.None? then None
    else match tags
      case Models(names) =>
        if request.llmModel.Some? && request.llmModel.value !in names then
          Some("LLM model '" + request.llmModel.value + "' not found. Available models: " + Join(", ", names))
        else if request.embeddingModel.Some? && request.embeddingModel.value !in names then
          Some("Embedding model '" + request.embeddingModel.value + "' not found. Available models: " + Join(", ", names))
        else None
      case _ => None
  }

  /** A model is refused exactly when the model list was obtained and a requested model is not in it. */
  lemma ModelProblemIff(request: SettingsRequest, tags: Tags)
    ensures ModelProblem(request, tags).Some? <==>
      tags.Models? &&
      ((request.llmModel.Some? && request.llmModel.value !in tags.names) ||
       (request.embeddingModel.Some? && request.embeddingModel.value !in tags.names))
    ensures ModelProblem(request, tags).Some? && request.llmModel.Some? && request.llmModel.value !in tags.names ==>
      "LLM model '" + request.llmModel.value + "'" <= ModelProblem(request, tags).value
  {
    if ModelProblem(request, tags).Some? && request.llmModel.Some? && request.llmModel.value !in tags.names {
      var head := "LLM model '" + request.llmModel.value + "'";
      var rest := " not found. Available models: " + Join(", ", tags.names);
      assert ModelProblem(request, tags).value == head + rest by {
        assert "LLM model '" + request.llmModel.value + "' not found. Available models: " + Join(", ", tags.names)
          == ("LLM model '" + request.llmModel.value + "'") + (" not found. Available models: " + Join(", ", tags.names));
      }
      PrefixExtend(head, head, rest);
    }
  }

  /** A handler's answer: the settings dictionary, or an HTTP error. */
  datatype Reply = SettingsReply(settings: Dict) | HttpError(status: nat, detail: string)

  /** `str(e)` of an `HTTPException`. */
  function HttpExceptionText(status: nat, detail: string): string
  {
    Decimal(status) + ": " + detail
  }

  /** The handler's `except Exception`: any error becomes a 500 whose detail quotes it. */
  function Escalate(r: Reply): (e: Reply)
    requires r.HttpError?
    ensures e.HttpError? && e.status == 500
  {
    HttpError(500, "Failed to update settings: " + HttpExceptionText(r.status, r.detail))
  }

  const SaveFailedDetail: string := "Failed to save settings"
  const ClientsFailedDetail: string := "Failed to initialize clients with new settings"

  /** Save the collected fields, re-initialise the clients, and answer the stored settings; errors not yet wrapped. */
  method ApplySettings(store: SettingsManager, newSettings: Dict, clientsOk: bool) returns (reply: Reply)
    modifies store
    ensures store.file == if store.writable then AfterSave(old(store.file), newSettings) else old(store.file)
    ensures !store.writable ==> reply == HttpError(500, SaveFailedDetail)
    ensures store.writable && !clientsOk ==> reply == HttpError(500, ClientsFailedDetail)
    ensures store.writable && clientsOk ==> reply == SettingsReply(Loaded(store.file))
  {
    var saved := store.SaveSettings(newSettings);
    if !saved {
      return HttpError(500, SaveFailedDetail);
    }
    if !clientsOk {
      return HttpError(500, ClientsFailedDetail);
    }
    var settings := store.GetAllSettings();
    return SettingsReply(settings);
  }

  /**
    `update_settings` as written: the 404 for an unknown model and the 500 for a
    failed save are raised inside the `try` and so come back as 500 "Failed to
    update settings: ...".
  */
  method UpdateSettings(store: SettingsManager, request: SettingsRequest, tags: Tags, clientsOk: bool) returns (reply: Reply)
    modifies store
    ensures ModelProblem(request, tags).Some? ==>
      store.file == old(store.file) && reply == Escalate(HttpError(404, ModelProblem(request, tags).value))
    ensures ModelProblem(request, tags).None? ==>
      store.file == (if store.writable then AfterSave(old(store.file), Fields(request)) else old(store.file)) &&
      (!store.writable ==> reply == Escalate(HttpError(500, SaveFailedDetail))) &&
      (store.writable && !clientsOk ==> reply == Escalate(HttpError(500, ClientsFailedDetail))) &&
      (store.writable && clientsOk ==> reply == SettingsReply(Loaded(store.file)))
  {
    var newSettings := CollectFields(request);
    FieldsAre(request, newSettings);
    var problem := ModelProblem(request, tags);
    if problem.Some? {
      return Escalate(HttpError(404, problem.value));
    }
    reply := ApplySettings(store, newSettings, clientsOk);
    if reply.HttpError? {
      reply := Escalate(reply);
    }
  }

  /**
    `update_settings` as evidently intended: an `HTTPException` raised inside
    the handler reaches the client with its own status and detail.
  */
  method UpdateSettingsIntended(store: SettingsManager, request: SettingsRequest, tags: Tags, clientsOk: bool) returns (reply: Reply)
    modifies store
    ensures ModelProblem(request, tags).Some? ==>
      store.file == old(store.file) && reply == HttpError(404, ModelProblem(request, tags).value)
    ensures ModelProblem(request, tags).None? ==>
      store.file == (if store.writable then AfterSave(old(store.file), Fields(request)) else old(store.file)) &&
      (!store.writable ==> reply == HttpError(500, SaveFailedDetail)) &&
      (store.writable && !clientsOk ==> reply == HttpError(500, ClientsFailedDetail)) &&
      (store.writable && clientsOk ==> reply == SettingsReply(Loaded(store.file)))
  {
    var newSettings := CollectFields(request);
    FieldsAre(request, newSettings);
    var problem := ModelProblem(request, tags);
    if problem.Some? {
      return HttpError(404, problem.value);
    }
    reply := ApplySettings(store, newSettings, clientsOk);
  }

  /** The collected fields as a dictionary. */
  function Fields(request: SettingsRequest): Dict
  {
    map k | k in DefaultKeys && RequestField(request, k).Some? :: RequestField(request, k).value
  }

  lemma FieldsAre(request: SettingsRequest, newSettings: Dict)
    requires forall k :: k in newSettings <==> RequestField(request, k).Some?
    requires forall k :: k in newSettings ==> newSettings[k] == RequestField(request, k).value
    ensures newSettings == Fields(request)
  {
    CollectedFieldsAreWhitelisted(request, newSettings);
    DefaultKeysAreTheWhitelist();
  }

  /**
    Concrete witness of the wrapping: asking for an LLM that is not installed
    yields status 500 with the 404 quoted in the detail, where a 404 was meant.
  */
  lemma UnknownModelComesBackAs500()
    ensures var request := SettingsRequest(None, Some("x"), None, None, None, None);
      var problem := ModelProblem(request, Models(["a", "b"]));
      problem.Some? &&
      Escalate(HttpError(404, problem.value)) == HttpError(500, "Failed to update settings: " + ("404: " + problem.value))
  {
    var names := ["a", "b"];
    assert "x" !in names by {
      assert "x"[0] != "a"[0] && "x"[0] != "b"[0];
    }
    var request := SettingsRequest(None, Some("x"), None, None, None, None);
    NotFoundText(ModelProblem(request, Models(names)).value);
  }

  /** `str(HTTPException(404, d))` */
  lemma NotFoundText(d: string)
    ensures HttpExceptionText(404, d) == "404: " + d
  {
    assert Decimal(4) == "4";
    assert Decimal(40) == Decimal(4) + [DigitChar(0)] == "40";
    assert Decimal(404) == Decimal(40) + [DigitChar(4)] == "404";
    assert Decimal(404) + ": " + d == "404: " + d;
  }

  // ----- search_files -----

  /** What `os.path.getsize` gives for a listed file. */
  datatype Stat = Size(bytes: nat) | StatFailed(message: string)

  /** What `os.listdir` of the knowledge base gives. */
  datatype Listing = Listed(entries: seq<(string, Stat)>) | ListFailed(message: string)

  /** A search hit: name, size and upper-cased extension without its dot. */
  datatype FileInfo = FileInfo(name: string, size: nat, kind: string)

  datatype SearchReply = Found(files: seq<FileInfo>) | SearchFailed(status: nat, detail: string)

  /** `query.lower() in file.lower()` */
  predicate Matches(query: string, name: string)
  {
    Contains(Lower(name), Lower(query))
  }

  /** `os.path.splitext(file)[1][1:].upper()` */
  function FileKind(name: string): string
  {
    var ext := Ext(name);
    if ext == "" then "" else Upper(ext[1..])
  }

  /** The answer for the first `n` listed entries. */
  function Search(entries: seq<(string, Stat)>, query: string, n: nat): SearchReply
    requires n <= |entries|
  {
    if n == 0 then Found([])
    else match Search(entries, query, n - 1)
      case SearchFailed(s, d) => SearchFailed(s, d)
      case Found(files) =>
        var (name, stat) := entries[n - 1];
        if !Matches(query, name) then Found(files)
        else match stat
          case StatFailed(message) => SearchFailed(500, message)
          case Size(bytes) => Found(files + [FileInfo(name, bytes, FileKind(name))])
  }

  /** `search_files` */
  method SearchFiles(listing: Listing, query: string) returns (reply: SearchReply)
    ensures listing.ListFailed? ==> reply == SearchFailed(500, listing.message)
    ensures listing.Listed? ==> reply == Search(listing.entries, query, |listing.entries|)
  {
    if listing.ListFailed? {
      return SearchFailed(500, listing.message);
    }
    var entries := listing.entries;
    var files: seq<FileInfo> := [];
    var i := 0;
    while i < |entries|
      invariant 0 <= i <= |entries|
      invariant Search(entries, query, i) == Found(files)
    {
      var (file, stat) := entries[i];
      if Contains(Lower(file), Lower(query)) {
        match stat
        case StatFailed(message) =>
          FailureSticks(entries, query, i + 1);
          return SearchFailed(500, message);
        case Size(bytes) =>
          files := files + [FileInfo(file, bytes, FileKind(file))];
      }
      i := i + 1;
    }
    reply := Found(files);
  }

  /** Once a size cannot be read the whole search fails with that message. */
  lemma {:induction false} FailureSticks(entries: seq<(string, Stat)>, query: string, n: nat)
    requires 0 < n <= |entries| && Search(entries, query, n).SearchFailed?
    ensures Search(entries, query, |entries|) == Search(entries, query, n)
    decreases |entries| - n
  {
    if n < |entries| {
      assert Search(entries, query, n + 1) == Search(entries, query, n);
      FailureSticks(entries, query, n + 1);
    }
  }

  /**
    A successful search lists, in directory order, exactly the entries whose
    name contains the query regardless of ASCII case, each with its size and type.
  */
  lemma {:induction false} SearchFindsMatches(entries: seq<(string, Stat)>, query: string, n: nat)
    requires n <= |entries| && Search(entries, query, n).Found?
    ensures var files := Search(entries, query, n).files;
      (forall f :: f in files ==>
        (Matches(query, f.name) && f.kind == FileKind(f.name) &&
         exists i :: 0 <= i < n && entries[i] == (f.name, Size(f.size)))) &&
      |files| == |MatchingNames(entries, query, n)| &&
      forall j :: 0 <= j < |files| ==> files[j].name == MatchingNames(entries, query, n)[j]
  {
    if n > 0 {
      SearchFindsMatches(entries, query, n - 1);
    }
  }

  /** The names of the first `n` entries that match the query, in order. */
  function MatchingNames(entries: seq<(string, Stat)>, query: string, n: nat): seq<string>
    requires n <= |entries|
  {
    if n == 0 then []
    else MatchingNames(entries, query, n - 1) + (if Matches(query, entries[n - 1].0) then [entries[n - 1].0] else [])
  }

  /** The empty query matches every name. */
  lemma {:induction false} EmptyQueryMatchesAll(entries: seq<(string, Stat)>, n: nat)
    requires n <= |entries|
    ensures MatchingNames(entries, "", n) == seq(n, i requires 0 <= i < n => entries[i].0)
  {
    if n > 0 {
      EmptyQueryMatchesAll(entries, n - 1);
      EmptyContained(Lower(entries[n - 1].0));
    }
  }

  /** The match ignores ASCII case in the query. */
  lemma MatchIgnoresQueryCase(query: string, name: string)
    ensures Matches(query, name) <==> Matches(Lower(query), name)
  {
    LowerIdempotent(query);
  }

  // ----- get_file -----

  /** The media type served for a lower-cased extension. */
  function ContentType(ext: string): string
  {
    if ext == ".pdf" then "application/pdf"
    else if ext == ".txt" then "text/plain"
    else if ext == ".csv" then "text/csv"
    else if ext in [".doc", ".docx"] then "application/msword"
    else if ext in [".xls", ".xlsx"] then "application/vnd.ms-excel"
    else "application/octet-stream"
  }

  /** Every type the indexer reads is served with its own media type, not as an opaque download. */
  lemma IndexedTypesHaveMediaTypes(name: string)
    requires ShouldProcessFile(name)
    ensures var t := ContentType(Lower(Ext(name)));
      t != "application/octet-stream" &&
      (Lower(Ext(name)) == ".xlsx" ==> t == "application/vnd.ms-excel") &&
      (Lower(Ext(name)) == ".docx" ==> t == "application/msword")
  {
  }

  /** A file answer: the file served inline with its name and media type, or an HTTP error. */
  datatype FileReply = Served(path: string, filename: string, mediaType: string) | FileError(status: nat, detail: string)

  function NotFoundDetail(decoded: string, kbDir: string): string
  {
    "File not found: " + decoded + ". Looking in: " + kbDir
  }

  /**
    `get_file` as written, for the already URL-decoded name: the 404 for a
    missing file is raised inside the `try` and answered as a 500.
  */
  function GetFileAsWritten(kbDir: string, decoded: string, present: string -> bool): (r: FileReply)
    ensures r.FileError? <==> !present(PathJoin(kbDir, decoded))
    ensures r.FileError? ==> r.status == 500 && r.detail == "404: " + NotFoundDetail(decoded, kbDir)
    ensures r.Served? ==> r.path == PathJoin(kbDir, decoded) && r.filename == decoded
    ensures r.Served? ==> r.mediaType == ContentType(Lower(Ext(decoded)))
  {
    NotFoundText(NotFoundDetail(decoded, kbDir));
    var path := PathJoin(kbDir, decoded);
    if !present(path) then FileError(500, HttpExceptionText(404, NotFoundDetail(decoded, kbDir)))
    else Served(path, decoded, ContentType(Lower(Ext(decoded))))
  }

  /** `get_file` as evidently intended: a missing file is a 404. */
  function GetFile(kbDir: string, decoded: string, present: string -> bool): (r: FileReply)
    ensures r.FileError? <==> !present(PathJoin(kbDir, decoded))
    ensures r.FileError? ==> r.status == 404 && r.detail == NotFoundDetail(decoded, kbDir)
    ensures r.Served? ==> r.path == PathJoin(kbDir, decoded) && r.filename == decoded
    ensures r.Served? ==> r.mediaType == ContentType(Lower(Ext(decoded)))
  {
    var path := PathJoin(kbDir, decoded);
    if !present(path) then FileError(404, NotFoundDetail(decoded, kbDir))
    else Served(path, decoded, ContentType(Lower(Ext(decoded))))
  }

  /** The extensions with a media type of their own; any other is served as `application/octet-stream`. */
  const TypedExtensions: seq<string> := [".pdf", ".txt", ".csv", ".doc", ".docx", ".xls", ".xlsx"]

  /**
    The media type of a served file follows its lower-cased extension: PDF,
    plain text, CSV, Word for `.doc`/`.docx`, Excel for `.xls`/`.xlsx`, and an
    opaque download for anything else. Both definitions of the handler agree.
  */
  lemma ServedMediaType(kbDir: string, decoded: string, present: string -> bool)
    requires present(PathJoin(kbDir, decoded))
    ensures var ext := Lower(Ext(decoded));
      var t := GetFile(kbDir, decoded, present).mediaType;
      GetFileAsWritten(kbDir, decoded, present).mediaType == t &&
      (ext == ".pdf" ==> t == "application/pdf") &&
      (ext == ".txt" ==> t == "text/plain") &&
      (ext == ".csv" ==> t == "text/csv") &&
      (ext == ".doc" || ext == ".docx" ==> t == "application/msword") &&
      (ext == ".xls" || ext == ".xlsx" ==> t == "application/vnd.ms-excel") &&
      (ext !in TypedExtensions <==> t == "application/octet-stream")
  {
    var ext := Lower(Ext(decoded));
    var served := GetFile(kbDir, decoded, present);
    assert served.Served? && served.mediaType == ContentType(ext);
    assert GetFileAsWritten(kbDir, decoded, present).mediaType == ContentType(ext);
    MediaTypeTable(ext);
  }

  /** The extension table of `get_file`, one media type per listed extension. */
  lemma MediaTypeTable(ext: string)
    ensures var t := ContentType(ext);
      (ext == ".pdf" ==> t == "application/pdf") &&
      (ext == ".txt" ==> t == "text/plain") &&
      (ext == ".csv" ==> t == "text/csv") &&
      (ext == ".doc" || ext == ".docx" ==> t == "application/msword") &&
      (ext == ".xls" || ext == ".xlsx" ==> t == "application/vnd.ms-excel") &&
      (ext !in TypedExtensions <==> t == "application/octet-stream")
  {
  }

  /** A missing file is reported with status 500 as written, 404 as intended; otherwise both serve the same file. */
  lemma GetFileMissingStatus(kbDir: string, decoded: string, present: string -> bool)
    ensures var path := PathJoin(kbDir, decoded);
      (!present(path) ==>
        (GetFileAsWritten(kbDir, decoded, present).status == 500 &&
         GetFile(kbDir, decoded, present) == FileError(404, NotFoundDetail(decoded, kbDir)))) &&
      (present(path) ==> GetFileAsWritten(kbDir, decoded, present) == GetFile(kbDir, decoded, present))
  {
  }

  /** A plain name is served from inside the knowledge base under its own name; an absolute one from wherever it points. */
  lemma GetFileResolvesPath(kbDir: string, decoded: string, present: string -> bool)
    requires present(PathJoin(kbDir, decoded))
    ensures '/' !in decoded && decoded != "" ==> Basename(GetFile(kbDir, decoded, present).path) == decoded
    ensures |decoded| > 0 && decoded[0] == '/' ==> GetFile(kbDir, decoded, present).path == decoded
  {
    if '/' !in decoded && decoded != "" {
      PathJoinBasename(kbDir, decoded);
    }
  }
}
