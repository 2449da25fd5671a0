# GeoAI backend core, modelled in Dafny

This project models the Python backend of GeoAI, a local retrieval-augmented chat assistant for geology documents. It covers three parts.

1. **The producer side of the streaming chat protocol** (`backend/api.py`):
   - `generate_stream` emits one `sources` record, then one `token` record per non-empty response chunk, then `done`. An `error` record ends the stream instead when something fails.
   - Each record is framed as `data: <json>` followed by a blank line. This is the event-stream format of section 9.2 of the WHATWG HTML Living Standard.
   - The helpers around it are modelled too:
     - citation formatting (`format_context`);
     - prompt construction with conversation-history pairing (`generate_prompt`);
     - source de-duplication and sorting;
     - the `update_settings`, `search_files` and `get_file` handlers.
2. **The settings store** (`backend/settings_manager.py`). It is a class over a persisted JSON file, with a whitelist of six keys, default filling, merge-on-save, rejection of unknown keys, and reset.
3. **The document-indexing bookkeeping** (`backend/update_database.py`):
   - the file filter;
   - extension dispatch and metadata assembly;
   - PDF page metadata;
   - per-chunk metadata replication;
   - the `doc_<n>` id accumulation of a full rebuild.

The wording of the two prompt templates is a `Template` value. `Prompt.PromptTexts` holds the program's wording, which `Stream.GenerateStream` uses. The prompt and stream lemmas hold for any wording.

Python's semantics are written out where the code relies on them:
- `os.path.splitext`, `basename` and `join` (POSIX);
- ASCII `lower`/`upper`;
- substring `in`, `sep.join` and `str(n)`;
- `dict.update` as map override, and insertion-ordered dictionaries;
- string ordering by code point;
- the text of `str()` of an `HTTPException` (`"<status>: <detail>"`) and of a `KeyError`.

External systems are inputs. The Ollama client is a function from prompt to response chunks and an optional failure. The vector-store query result is a value. The PDF reader is a list of page texts. The text splitter and `os.path.abspath` are functions. The directory listing, file sizes and file existence are values. JSON encoding is an abstract function.

Modules:
- `Common`: `Option` and JSON values.
- `Strings` and `Paths`: the Python library semantics listed above.
- `Settings`: `backend/settings_manager.py`.
- `Indexing`: `backend/update_database.py`.
- `Prompt`, `Sources`, `Stream` and `Endpoints`: `backend/api.py`.

## Model

| member | source | states |
|---|---|---|
| Settings.DefaultKeysAreTheWhitelist | backend/settings_manager.py:37-44 | the default map has exactly the six whitelisted keys |
| Settings.Whitelisted | backend/settings_manager.py:94-95 | the filtered map keeps exactly the input keys that are default keys, with their values |
| Settings.SaveDiscardsUnknownKeys | backend/settings_manager.py:94-99 | a key outside the defaults is never added by a save, and keeps any value it already had |
| Settings.SaveMerges | backend/settings_manager.py:98-99 | after a save, the stored keys are the old keys plus the whitelisted input keys; input values win and every other stored value is kept |
| Settings.SaveIdempotent | backend/settings_manager.py:98-103 | saving the same map twice stores the same map as saving it once |
| Settings.SavePreservesComplete | backend/settings_manager.py:98-103 | a store holding every default key still holds all of them after any save |
| Settings.InitFillsDefaults | backend/settings_manager.py:51-65 | at start-up a missing file gets the defaults, and a stored file gains every missing default key with existing values unchanged; an unparsable file is left as it is; afterwards every default key is present |
| Settings.UpdateOneKey | backend/settings_manager.py:140-142 | updating a whitelisted key stores the loaded map with only that key changed |
| Settings.ResetKeepsUnknownKeys | backend/settings_manager.py:143-151 | a reset sets all six keys to their defaults, and non-whitelisted stored keys survive |
| Settings.FillStep | backend/settings_manager.py:58-61 | one step of the filling loop adds the key with its default value only when it is absent, and records whether anything was added |
| Settings.FillMissing | backend/settings_manager.py:56-61 | the loop over the default items yields the current settings with each missing key given its default value, and `updated` iff some key was missing |
| Settings.FillAll | backend/settings_manager.py:57-61 | the filling loop over all default keys yields the defaults overridden by the current map; it reports an update iff some default key was missing |
| Settings.FillMissingDefaults | backend/settings_manager.py:56-61 | the loop yields the defaults overridden by the current settings, and `updated` iff a default key was missing |
| Settings.SettingsManager.constructor | backend/settings_manager.py:37-47 | a new manager holds the file as initialisation leaves it |
| Settings.SettingsManager.InitializeSettings | backend/settings_manager.py:49-65 | the file becomes its initialised form (defaults written if missing, missing keys filled) when writing succeeds |
| Settings.SettingsManager.LoadSettings | backend/settings_manager.py:67-80 | the stored map, or a copy of the defaults when the file is missing or malformed |
| Settings.SettingsManager.SaveSettings | backend/settings_manager.py:82-109 | returns whether the write succeeded; on success the file holds the loaded map updated with the whitelisted input; on failure it is unchanged |
| Settings.SettingsManager.GetSetting | backend/settings_manager.py:111-123 | the loaded value of the key, or the caller's default when it is absent |
| Settings.SettingsManager.UpdateSetting | backend/settings_manager.py:125-142 | an unknown key is refused with the file unchanged; a known key is set with every other key unchanged, if the write succeeds |
| Settings.SettingsManager.ResetToDefaults | backend/settings_manager.py:144-151 | the file becomes the loaded map overridden by all six defaults, if the write succeeds |
| Settings.SettingsManager.GetAllSettings | backend/settings_manager.py:153-160 | the loaded settings map |
| Indexing.ShouldProcessFileIff | backend/update_database.py:278-288 | a directory entry name is processed iff it does not start with `.` and its lower-cased name ends with one of `.pdf .docx .xlsx .csv .txt` |
| Indexing.DocType | backend/update_database.py:197-213 | a document type exists exactly for the five supported extensions |
| Indexing.KeptArePagesWithText | backend/update_database.py:87-90 | the PDF pages kept are exactly those with non-empty text, in page order |
| Indexing.PdfPartsFollowKept | backend/update_database.py:87-94 | text parts and page metadata correspond one-to-one with the kept pages; each entry has the 1-based page number and the total page count |
| Indexing.ReadPdf | backend/update_database.py:83-96 | the text is the blank-line join of the non-empty pages and the metadata lists the kept pages |
| Indexing.ProcessDocumentSucceedsIff | backend/update_database.py:192-229 | metadata is non-empty iff the extension is supported and its reader succeeds; otherwise the result is `("", {})` |
| Indexing.ProcessDocumentFields | backend/update_database.py:216-224 | successful metadata has `source` = basename, `doc_type` for the extension and `path` = absolute path; non-PDF documents carry nothing else |
| Indexing.ProcessDocumentRead | backend/update_database.py:196-224 | non-empty metadata means the extension selected a reader that succeeded, the PDF reader exactly for `.pdf`, and the metadata is the base metadata updated with that reader's first page entry |
| Indexing.DocTypeIsPdf | backend/update_database.py:197-211 | of the supported extensions only `.pdf` selects the PDF reader |
| Indexing.PageEntryKeepsBase | backend/update_database.py:216-224 | merging a PDF's first page entry keeps every base key and its value |
| Indexing.ProcessDocumentOfType | backend/update_database.py:192-226 | with a supported extension and a successful read, the result is the reader's text and the base metadata updated with its first page entry |
| Indexing.PdfMetadataPage | backend/update_database.py:86-94 | a PDF's metadata carries `page`/`total_pages` iff some page has text, taken from the first such page |
| Indexing.FirstPageEntry | backend/update_database.py:222-224 | only the first page-metadata entry is merged in, and only when it is non-empty |
| Indexing.PdfProcessed | backend/update_database.py:197-224 | a `.pdf` file's metadata is the base metadata updated with the reader's first page entry |
| Indexing.ChunkText | backend/update_database.py:256-263 | one pair per splitter chunk, in order, each with a copy equal to the input metadata |
| Indexing.DocIdsDistinct | backend/update_database.py:374-375 | ids `doc_<i>` of different counters differ |
| Indexing.CollectedStep | backend/update_database.py:371-375 | appending one chunk keeps documents, metadatas and ids aligned, with the next consecutive id |
| Indexing.AppendChunks | backend/update_database.py:371-375 | the inner loop appends every chunk of a file, keeping the three lists aligned and the counter equal to their length |
| Indexing.EntryChunks | backend/update_database.py:363-378 | one listing entry contributes exactly its chunks when it is a processable regular file with text and metadata, and nothing otherwise |
| Indexing.IndexKnowledgeBase | backend/update_database.py:353-378 | the rebuild lists are the chunks of all processable files in listing order, with ids `doc_0 … doc_{n-1}` |
| Indexing.FileChunksCarryFile | backend/update_database.py:359-370 | every chunk of a file carries that file's basename and absolute path, and the file passes the filter |
| Indexing.FileChunksShareMetadata | backend/update_database.py:359-370 | a file yields chunks only when it passes the filter, is a regular file and was processed; every chunk carries that one metadata dictionary |
| Indexing.CorpusProvenance | backend/update_database.py:359-375 | every indexed chunk comes from a listed regular file that passes `should_process_file` |
| Prompt.Blocks | backend/api.py:100-102 | one block per zipped pair |
| Prompt.FormatContext | backend/api.py:98-104 | fails exactly when a zipped metadata entry lacks `source`; otherwise gives the blank-line join of the citation blocks |
| Prompt.BlocksAre | backend/api.py:100-102 | the loop's blocks are the specified blocks |
| Prompt.FormattedContextEmptyIff | backend/api.py:98-104 | the formatted context is empty iff either input list is empty |
| Prompt.FormattedContextTruncates | backend/api.py:100 | only the first `min(len(chunks), len(metadatas))` pairs are formatted (zip truncation) |
| Prompt.BlocksPrefix | backend/api.py:100 | truncating both lists to the paired length changes no block |
| Prompt.BlockAt | backend/api.py:101-102 | block `k` is `[Source: s]:` + newline + chunk `k` |
| Prompt.Turns | backend/api.py:133-137 | the number of turns is half the number of messages, rounded down |
| Prompt.PairHistory | backend/api.py:132-137 | the loop pairs messages (0,1), (2,3), … and drops a trailing unpaired message |
| Prompt.TurnAt | backend/api.py:134-137 | turn `k` is `User: m[2k]` + newline + `Assistant: m[2k+1]` |
| Prompt.TurnsAppend | backend/api.py:133-137 | remembering one more exchange adds exactly one turn at the end |
| Prompt.GeneratePromptAsWrittenDropsPrompt | backend/api.py:127-165 | as written, a non-empty context without memory yields no prompt at all |
| Prompt.GeneratePromptAgrees | backend/api.py:116-165 | the as-written function returns nothing exactly when the context is non-empty and memory is absent, and otherwise agrees with the corrected prompt |
| Prompt.GeneratePromptBranches | backend/api.py:116-141 | an empty context gives the "no documents" prompt whatever the memory; a non-empty context gives the main prompt |
| Prompt.GeneratePromptQuotesQuery | backend/api.py:116-149 | every prompt contains the query |
| Prompt.GeneratePromptCarriesContextAndTurns | backend/api.py:138-149 | the main prompt contains the context and every remembered turn |
| Prompt.PromptCarriesTurn | backend/api.py:138-144 | the main prompt contains each remembered turn |
| Sources.StrLessIrreflexive | backend/api.py:604 | the code-point string order is irreflexive |
| Sources.StrLessTransitive | backend/api.py:604 | the code-point string order is transitive |
| Sources.StrLessTotal | backend/api.py:604 | any two distinct strings are ordered one way, and never both |
| Sources.UpsertSpec | backend/api.py:601 | a dictionary assignment keeps source keys distinct: the entry for the source is replaced, every other entry is kept |
| Sources.CollectUniqueFiles | backend/api.py:597-601 | the loop builds the dictionary of the specification |
| Sources.UniqueFilesSpec | backend/api.py:597-601 | the dictionary has distinct sources, and holds an entry exactly when it is the last path cited for that source by metadata carrying both `source` and `path` |
| Sources.LastCitationOfLatest | backend/api.py:600-601 | a citation in the newest metadata entry decides the path of its source |
| Sources.LastCitationOfOther | backend/api.py:600-601 | a citation of another source leaves the decision for a source unchanged |
| Sources.LastCitationSkip | backend/api.py:600 | metadata lacking `source` or `path` changes nothing |
| Sources.InsertSpec | backend/api.py:604 | inserting a new source into a strictly sorted list keeps it strictly sorted and adds exactly that entry |
| Sources.InsertBehindFirst | backend/api.py:604 | insertion behind a smaller head keeps the order and the contents |
| Sources.InsertInFront | backend/api.py:604 | insertion in front of a larger head keeps the order and the contents |
| Sources.SortRefsSpec | backend/api.py:604 | sorting distinct sources gives a strictly ascending permutation |
| Sources.SourcesListSpec | backend/api.py:597-604 | `sources_list` is strictly ascending by source and holds exactly the last-cited path of each source |
| Sources.StrictlySortedDistinct | backend/api.py:604 | a strictly sorted list names each source once |
| Stream.TokenEvents | backend/api.py:623-629 | only non-empty chunks produce token records, at most one per chunk |
| Stream.SessionMemory.constructor | backend/api.py:271-272 | a new session memory is empty |
| Stream.SessionMemory.SaveContext | backend/api.py:275-277 | one exchange is appended as a user and an assistant message |
| Stream.PrepareStream | backend/api.py:578-614 | the retrieval branch yields the specified preamble: the prompt and the sources to announce, or the failure message |
| Stream.StreamTokens | backend/api.py:617-630 | the loop emits exactly the specified token records and accumulates the concatenation of all chunks |
| Stream.GenerateStream | backend/api.py:573-640 | the records are the specified trace; memory gains the question and the full response exactly when the stream completes |
| Stream.StreamTraceWellFormed | backend/api.py:578-640 | every trace is one `sources` record, then tokens, then `done` or `error`, or is a lone `error` |
| Stream.DoneIffAnswered | backend/api.py:633-636 | `done` is sent exactly when the question is answered, once, as the last record |
| Stream.TokensSpellResponse | backend/api.py:623-629 | the token contents concatenate to the accumulated `full_response` |
| Stream.ContentsConcat | backend/api.py:623-629 | token contents of a concatenation are the concatenated contents |
| Stream.AnsweredTokensAreRemembered | backend/api.py:623-633 | on completion the tokens sent spell exactly the response saved to memory |
| Stream.FailureKeepsSentRecords | backend/api.py:638-640 | a failure during generation replaces `done` by an `error` with its message, and every record already sent stays |
| Stream.NoHitsAnnounceNoSources | backend/api.py:607-614 | with no documents or no hits the `sources` record is empty and the prompt is the "no documents" one |
| Stream.HitsAnnounceTheirSources | backend/api.py:589-606 | with hits the `sources` record is the sorted, de-duplicated source list of the metadata |
| Stream.Payloads | backend/api.py:606-640 | one payload per record |
| Stream.UnframeWire | backend/api.py:606-640 | when encoded records contain no raw newline, a consumer splitting on `data: ` lines and blank lines recovers exactly the payloads in order |
| Stream.FirstNewlineAfter | backend/api.py:606 | the frame boundary of a record is found right after its payload |
| Endpoints.CollectFields | backend/api.py:371-389 | `new_settings` has a key exactly for each field given in the request, with that field's value |
| Endpoints.CollectedFieldsAreWhitelisted | backend/api.py:371-389 | every collected key is a whitelisted settings key, so saving keeps them all |
| Endpoints.FieldsAre | backend/api.py:371-389 | the collected map is the map of the given fields |
| Endpoints.ModelProblemIff | backend/api.py:392-414 | a model is refused exactly when the model list was obtained and a requested model is not in it; the LLM is checked first |
| Endpoints.Escalate | backend/api.py:432-434 | the handler's `except Exception` turns any error into a 500 |
| Endpoints.ApplySettings | backend/api.py:420-430 | a failed save or failed client set-up is a 500 with its detail; otherwise the answer is the stored settings after the merge |
| Endpoints.UpdateSettings | backend/api.py:365-434 | as written: an unknown model leaves the store unchanged and is answered with a 500 quoting the 404; otherwise the fields are merged into the store and failures come back wrapped as 500 |
| Endpoints.UpdateSettingsIntended | backend/api.py:365-434 | as intended: every `HTTPException` raised in the handler passes through unwrapped. An unknown model is answered with 404 and its own detail; a failed save or client set-up with 500 and its own detail ("Failed to save settings", "Failed to initialize clients …") rather than "Failed to update settings: 500: …"; the store changes as in the as-written handler |
| Endpoints.UnknownModelComesBackAs500 | backend/api.py:404-434 | an LLM name missing from the model list yields status 500 with detail "Failed to update settings: 404: …" |
| Endpoints.NotFoundText | backend/api.py:432-434 | `str()` of a 404 `HTTPException` is `404: ` followed by its detail |
| Endpoints.SearchFiles | backend/api.py:436-454 | a failed listing or size lookup answers 500 with its message; otherwise the answer is the specified search result |
| Endpoints.FailureSticks | backend/api.py:441-454 | once a size lookup fails, the whole search fails with that message |
| Endpoints.SearchFindsMatches | backend/api.py:443-451 | a successful search lists, in directory order, exactly the matching names, each with its size and its upper-cased extension |
| Endpoints.EmptyQueryMatchesAll | backend/api.py:437-444 | the empty default query lists every entry |
| Endpoints.MatchIgnoresQueryCase | backend/api.py:444 | the filter ignores ASCII case in the query |
| Endpoints.IndexedTypesHaveMediaTypes | backend/api.py:906-921 | every file type the indexer reads is served with its own media type, not as `application/octet-stream` |
| Endpoints.GetFileAsWritten | backend/api.py:886-931 | as written: a missing file is answered with status 500 and detail "404: File not found: …"; an existing file is served inline from the joined path under its decoded name, with the media type of its lower-cased extension |
| Endpoints.GetFile | backend/api.py:886-931 | as intended: a missing file is answered with 404 "File not found: …"; an existing file is served inline from the joined path under its decoded name, with the media type of its lower-cased extension |
| Endpoints.MediaTypeTable | backend/api.py:906-921 | `.pdf`, `.txt` and `.csv` get their own types, `.doc`/`.docx` Word and `.xls`/`.xlsx` Excel; an extension gets `application/octet-stream` exactly when it is outside that table |
| Endpoints.ServedMediaType | backend/api.py:905-929 | a served file's media type follows the table for its lower-cased extension, identically in the as-written and intended handlers |
| Endpoints.GetFileMissingStatus | backend/api.py:902-931 | a missing file gets status 500 as written and 404 as intended; an existing file is served identically by both |
| Endpoints.GetFileResolvesPath | backend/api.py:893-929 | a plain name is served from inside the knowledge base under its own name; an absolute name is served from the path it names |

## Left out

- URL decoding (`unquote`) in `get_file`: the model takes the already decoded name.
- The logging lines, and the directory listing that `get_file` only logs.
- Byte-level JSON encoding (`json.dumps`). Records are encoded by an abstract function. The framing lemma assumes only that an encoded record contains no raw newline, which `json.dumps` guarantees because it escapes newlines.
- The set-up steps of `chat_stream` that happen outside the stream:
  - `initialize_clients`;
  - the collection lookup, which becomes the `hasDocuments` input;
  - the outer 500.
- The embedding call and the vector-store query inside the stream. They become the retrieval input, whose failure is a message.
- A failure of `save_context` after the last token. Memory appends are modelled as always succeeding.
- Metadata values in chat retrieval results other than strings. The indexer only stores strings under `source` and `path`, which are the only keys the stream reads.
- Stream.SessionMemory: the memory object is always passed to `generate_prompt` and is always truthy there. The stream therefore uses the corrected `GeneratePrompt`.
- The reader libraries (`pdfplumber`, python-docx, pandas, file reads). Their results are the `Content` input: page texts, a text, or a failure.
- The text splitter, embeddings, ChromaDB and Ollama client internals. These are foreign libraries, given as function parameters or left out.
- The collection clearing and recreation, `embed_documents` and `collection.add` in `main`. They are foreign database calls; the model stops at the three accumulated lists.
- `os.path.abspath`: it is a function parameter, because it depends on the working directory.
- Settings.SettingsFile / Settings.SettingsManager.LoadSettings: only a missing file and invalid JSON are modelled, both reading as the defaults. A file that exists but cannot be read (permission denied, bytes that are not UTF-8) raises out of every loading method, the constructor included. A valid JSON file that is not an object (`[1]`, `null`, `"x"`) makes start-up raise a `TypeError`. The model has no such file state.
- Common.Value: stored values are strings or integers only, the types of the six defaults. General JSON values (floats, booleans, lists, nested objects) are not modelled.
- Settings.SettingsManager.SaveSettings: a write fails only at opening the file, and the same way on every call for the store's lifetime (`writable`). The source opens the file with mode `'w'`, which truncates it. A failure during `json.dump` (disk full, an I/O error) would leave an empty or partial file that then loads as the defaults. The model does not represent that.
- Strings.Lower / Strings.Upper: ASCII letters only. Python's Unicode case mapping is not modelled, because its tables are outside the source.
- The non-streaming `/chat` endpoint, uploads, refresh, clearing the database or memory, `health_check`, `get_settings` logging, and start-up wiring. They are not part of this model's core.
- Endpoints.UpdateSettings: when `/api/tags` answers but its JSON is unusable, the outer handler turns that into a 500, which the model does not represent. A connection failure or a non-200 status skips the check, as modelled.
- Endpoints.SearchFiles: directories in the listing are treated like files whose size is given. `os.path.getsize` is an input.
- The TypeScript/Electron supervisor, stream decoder and chat reducer. None of their files is part of this model.

## Findings

| source | as written | input that shows it | evidently intended | confidence | as-written member | corrected member |
|---|---|---|---|---|---|---|
| backend/api.py:127-165 | the main prompt's `return` is indented under `if memory:`, so a non-empty context with no memory object returns `None` | `generate_prompt("q", "c", None)` | return the main prompt with an empty history | high for the function in isolation; every endpoint passes a memory object, so the served path is unaffected; not executed | Prompt.GeneratePromptAsWrittenDropsPrompt | Prompt.GeneratePromptAgrees |
| backend/api.py:404-434 | every `HTTPException` raised inside `try ... except Exception` is re-raised as 500 "Failed to update settings: <status>: <detail>"; so the 404 for an unknown model becomes 500 "Failed to update settings: 404: ...", and the handler's own two 500s get the prefix "Failed to update settings: 500: " | `llm_model = "x"` with installed models `a`, `b` | let every `HTTPException` through unchanged: 404 with the model detail for an unknown model, and the two 500s with their own details | high; not executed | Endpoints.UnknownModelComesBackAs500 | Endpoints.UpdateSettingsIntended |
| backend/api.py:902-931 | the 404 for a missing file is raised inside `try ... except Exception`, which re-raises it as 500 with detail "404: File not found: ..." | any name that does not exist in the knowledge base | answer 404 "File not found: ..." | high; not executed | Endpoints.GetFileAsWritten | Endpoints.GetFile |
